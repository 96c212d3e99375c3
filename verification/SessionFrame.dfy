/** What a change of the upper layer leaves as it was, for the closed form of CleanDisk and for the
    agreement between cached nodes and the disk. */
module SessionFrame {
  import opened Wrappers
  import opened Names
  import opened NodeTree
  import opened TreeOps
  import opened Layers
  import opened Merge
  import opened FreshMount
  import opened DiskChanges
  import opened CleanDisk
  import opened Filling
  import opened Session

  ghost predicate SameEntry(up: Layer, up': Layer, r: Path) {
    (r in up <==> r in up') && (r in up ==> up[r] == up'[r])
  }

  /** Everything that the closed form reads about one name of a directory. */
  ghost predicate SameName(up: Layer, up': Layer, p: Path, n: Name) {
    SameEntry(up, up', p + [n]) && SameEntry(up, up', p + [WhName(n)])
  }

  lemma LowerKept(layers: seq<Layer>, up': Layer, p: Path)
    requires layers != []
    ensures InLower(WithUpper(layers, up'), p) <==> InLower(layers, p)
  {
    if InLower(layers, p) {
      var i :| 1 <= i < |layers| && p in layers[i];
      assert p in WithUpper(layers, up')[i];
    }
    if InLower(WithUpper(layers, up'), p) {
      var i :| 1 <= i < |layers| && p in WithUpper(layers, up')[i];
      assert p in layers[i];
    }
  }

  lemma MergeKept(layers: seq<Layer>, up': Layer, p: Path, n: Name)
    requires layers != [] && SameName(layers[0], up', p, n)
    ensures InMerge(WithUpper(layers, up'), p, n) <==> InMerge(layers, p, n)
    ensures UpperHides(WithUpper(layers, up'), p, n) <==> UpperHides(layers, p, n)
  {
    LowerKept(layers, up', p + [n]);
  }

  lemma NodeKept(layers: seq<Layer>, up': Layer, p: Path, node: Node)
    requires layers != [] && NodeOn(layers, p, node) && SameName(layers[0], up', Parent(p), Last(p))
    ensures NodeOn(WithUpper(layers, up'), p, node)
  {
    var out := WithUpper(layers, up');
    assert Parent(p) + [Last(p)] == p;
    MergeKept(layers, up', Parent(p), Last(p));
    LowerKept(layers, up', p);
    assert forall j :: 0 <= j < |layers| ==> (p in out[j] <==> p in layers[j]);
    assert forall j :: 0 <= j < |layers| && p in layers[j] ==> out[j][p] == layers[j][p];
  }

  /** The maps of a directory after a change that concerns at most the name `m` of it. */
  ghost predicate DirAt(layers: seq<Layer>, p: Path, node: Node, m: Name)
    requires layers != [] && node.IsDir()
  {
    && (m in node.dir.whiteouts ==> !InMerge(layers, p, m) && !IsWh(m))
    && (node.dir.loaded && InMerge(layers, p, m) ==> m in node.dir.children)
    && (node.dir.loaded && p in layers[0] && Ordinary(m) && UpperHides(layers, p, m) ==> m in node.dir.whiteouts)
  }

  lemma DirKept(layers: seq<Layer>, up': Layer, p: Path, node: Node, changed: set<Name>)
    requires layers != [] && (p in up' ==> p in layers[0])
    requires node.IsDir() ==> forall m :: m !in changed ==> DirAt(layers, p, node, m)
    requires forall m :: m !in changed && !IsWh(m) ==> SameName(layers[0], up', p, m)
    requires node.IsDir() ==> forall m :: m in changed ==> DirAt(WithUpper(layers, up'), p, node, m)
    ensures DirOn(WithUpper(layers, up'), p, node)
  {
    if node.IsDir() {
      forall m
        ensures DirAt(WithUpper(layers, up'), p, node, m)
      {
        if m !in changed && !IsWh(m) {
          MergeKept(layers, up', p, m);
        }
      }
      DirFromAt(WithUpper(layers, up'), p, node);
    }
  }

  lemma DirOnAt(layers: seq<Layer>, p: Path, node: Node)
    requires layers != [] && DirOn(layers, p, node)
    ensures node.IsDir() ==> forall m :: DirAt(layers, p, node, m)
  {}

  lemma DirFromAt(layers: seq<Layer>, p: Path, node: Node)
    requires layers != [] && node.IsDir() && forall m :: DirAt(layers, p, node, m)
    ensures DirOn(layers, p, node)
  {
    forall m
      ensures m in node.dir.whiteouts ==> !InMerge(layers, p, m) && !IsWh(m)
      ensures node.dir.loaded && InMerge(layers, p, m) ==> m in node.dir.children
      ensures node.dir.loaded && p in layers[0] && Ordinary(m) && UpperHides(layers, p, m) ==> m in node.dir.whiteouts
    {
      assert DirAt(layers, p, node, m);
    }
  }

  /** Away from the changed path nothing is changed. */
  lemma SameAway(up: Layer, up': Layer, q: Path, p: Path, m: Name)
    requires q != [] && ChangedAt(up, up', q) && !IsWh(Last(q)) && !(q <= p) && !IsWh(m)
    ensures (p == Parent(q) && m == Last(q)) || SameName(up, up', p, m)
  {
    ExtendAway(q, p, m);
    ExtendAway(q, p, WhName(m));
    WhNameInverse(m, Last(q));
    var r, w, mark := p + [m], p + [WhName(m)], MarkerOf(q);
    assert Parent(r) == p && Last(r) == m && Parent(w) == p && Last(w) == WhName(m);
    assert Parent(mark) == Parent(q) && Last(mark) == WhName(Last(q));
    WhNameInverse(Last(q), m);
  }

  lemma NodeKeptAway(layers: seq<Layer>, up': Layer, q: Path, p: Path, node: Node)
    requires layers != [] && q != [] && ChangedAt(layers[0], up', q) && !IsWh(Last(q)) && !(q <= p)
    requires NodeOn(layers, p, node)
    ensures NodeOn(WithUpper(layers, up'), p, node)
  {
    assert Parent(p) + [Last(p)] == p;
    assert !(q <= Parent(p));
    SameAway(layers[0], up', q, Parent(p), Last(p));
    NodeKept(layers, up', p, node);
  }

  lemma DirKeptAway(layers: seq<Layer>, up': Layer, q: Path, p: Path, node: Node)
    requires layers != [] && q != [] && ChangedAt(layers[0], up', q) && !IsWh(Last(q)) && !(q <= p)
    requires p != [] ==> !IsWh(Last(p))
    requires node.IsDir() ==> forall m :: (p == Parent(q) && m == Last(q)) || DirAt(layers, p, node, m)
    requires node.IsDir() && p == Parent(q) ==> DirAt(WithUpper(layers, up'), p, node, Last(q))
    ensures DirOn(WithUpper(layers, up'), p, node)
  {
    var changed := if p == Parent(q) then {Last(q)} else {};
    forall m | m !in changed && !IsWh(m)
      ensures SameName(layers[0], up', p, m)
    {
      SameAway(layers[0], up', q, p, m);
    }
    WhNameInverse(Last(q), Last(q));
    assert p != MarkerOf(q);
    DirKept(layers, up', p, node, changed);
  }

  /** The same for a node, in one go. */
  lemma FineAway(s: State, up': Layer, q: Path, x: NodeId)
    requires Coherent(s) && q != [] && ChangedAt(s.layers[0], up', q) && !IsWh(Last(q))
    requires x in s.t.nodes && !(q <= PathOf(s.t, x))
    requires s.t.nodes[x].IsDir() && PathOf(s.t, x) == Parent(q) ==>
               DirAt(WithUpper(s.layers, up'), Parent(q), s.t.nodes[x], Last(q))
    ensures NodeFine(State(s.t, WithUpper(s.layers, up')), x)
  {
    assert NodeFine(s, x);
    var p, node := PathOf(s.t, x), s.t.nodes[x];
    DirOnAt(s.layers, p, node);
    if x != s.t.root {
      NodeKeptAway(s.layers, up', q, p, node);
    }
    DirKeptAway(s.layers, up', q, p, node);
  }

  // ---- The disk stays clean ----

  lemma CleanAfter(layers: seq<Layer>, up': Layer)
    requires Clean(layers) && LayerOk(up')
    requires forall p :: p in up' ==> UpperEntry(up', p)
    requires forall p :: IsOpaque(up', p) ==> !InLower(layers, p)
    requires forall j, p :: 1 <= j < |layers| && p in up' && p in layers[j] && up'[p] != Whiteout ==> up'[p].Dir? == layers[j][p].Dir?
    ensures Clean(WithUpper(layers, up'))
  {
    var out := WithUpper(layers, up');
    assert LayersOk(out) by {
      assert forall i :: 1 <= i < |out| ==> LayerOk(layers[i]);
    }
    forall p
      ensures UpperOpaque(out, p)
    {
      LowerKept(layers, up', p);
    }
    forall i, j, p | 0 <= i < |out| && 0 <= j < |out|
      ensures NoClash(out, i, j, p)
    {
      assert i > 0 && j > 0 ==> NoClash(layers, i, j, p);
      assert i > 0 && p in layers[i] ==> CleanEntry(layers[i], p);
      assert j > 0 && p in layers[j] ==> CleanEntry(layers[j], p);
    }
  }

  /** A clean disk has no marker of a marker, as removal and copy-up want it. */
  lemma CleanMarkersPlain(layers: seq<Layer>)
    requires Clean(layers)
    ensures MarkersPlain(layers[0])
  {
    forall d: Path, x | d + [WhName(WhName(x))] in layers[0]
      ensures WhName(WhName(x)) == OPAQUE_WHITEOUT
    {
      WhNameInverse(x, x);
      NoMarkedMarker(layers, d, 0, WhName(x));
    }
  }

  /** An absent entry has nothing below it, and neither has one that is no directory. */
  lemma NothingInside(l: Layer, q: Path, p: Path)
    requires LayerOk(l) && q <= p && q != p && (q !in l || !l[q].Dir?)
    ensures p !in l
    decreases |p|
  {
    assert q <= Parent(p) by {
      assert q == p[..|q|] == Parent(p)[..|q|];
    }
    if p in l {
      assert EntryPlaced(l, p);
      if Parent(p) != q {
        NothingInside(l, q, Parent(p));
      }
    }
  }

  lemma NotInLowerBelow(layers: seq<Layer>, q: Path, p: Path)
    requires LayersOk(layers) && q <= p && !InLower(layers, q)
    ensures !InLower(layers, p)
  {
    if i :| 1 <= i < |layers| && p in layers[i] {
      assert q !in layers[i];
      AbsentBelow(layers[i], q, p);
    }
  }
}
