/** Whiteouts that go without an entry coming in their place: what a creation or a rename that fails
    half-way may leave, and what a rename leaves whose whiteout could not be made. */
module Clearing {
  import opened Wrappers
  import opened Names
  import opened NodeTree
  import opened TreeOps
  import opened Layers
  import opened Merge
  import opened FreshMount
  import opened DiskChanges
  import opened Removal
  import opened CleanDisk
  import opened Session
  import opened SessionFrame
  import opened SessionDisk
  import opened Steady
  import opened Disks
  import opened Whiteouts

  // ---- What a clean disk shows, without a tree ----

  /** On a clean disk the fresh mount is the closed form at every path, and a node has the lowest
      layer of its path as its last. */
  lemma {:induction false} CleanFresh(layers: seq<Layer>, p: Path)
    requires Clean(layers)
    ensures p != [] ==> (Fresh(layers, p).Some? <==>
                           && Fresh(layers, Parent(p)).Some? && Fresh(layers, Parent(p)).value.isDir
                           && InMerge(layers, Parent(p), Last(p)))
    ensures p != [] && Fresh(layers, p).Some? ==> IsTopmost(layers, p, Fresh(layers, p).value)
    ensures p != [] && Fresh(layers, p).Some? ==> forall j :: Fresh(layers, p).value.last < j < |layers| ==> p !in layers[j]
    ensures Fresh(layers, p).Some? && Fresh(layers, p).value.isDir ==> Scannable(layers, p, Fresh(layers, p).value.last)
    decreases |p|
  {
    if p == [] {
      RootEverywhere(layers);
    } else {
      var d, n := Parent(p), Last(p);
      assert d + [n] == p;
      CleanFresh(layers, d);
      if Fresh(layers, d).Some? && Fresh(layers, d).value.isDir {
        CleanScan(layers, d, Fresh(layers, d).value.last, n);
        if Fresh(layers, p).Some? && Fresh(layers, p).value.isDir {
          TopDirEverywhere(layers, p, Fresh(layers, p).value);
        }
      }
    }
  }

  /** Two disks with the same entries at a path show the same node there, if they show one. */
  lemma SameNode(a: seq<Layer>, b: seq<Layer>, p: Path, s: Seen, t: Seen)
    requires |a| == |b| && IsTopmost(a, p, s) && IsTopmost(b, p, t)
    requires forall j :: 0 <= j < |a| ==> SameEntry(a[j], b[j], p)
    requires forall j :: s.last < j < |a| ==> p !in a[j]
    requires forall j :: t.last < j < |b| ==> p !in b[j]
    ensures s == t
  {
    assert SameEntry(a[s.layer], b[s.layer], p) && SameEntry(a[t.layer], b[t.layer], p);
    assert SameEntry(a[s.last], b[s.last], p) && SameEntry(a[t.last], b[t.last], p);
  }

  // ---- Whiteouts that go ----

  /** At most whiteouts went: those of `q`, and whatever hides something below it. */
  ghost predicate OnlyHidersGone(up: Layer, up': Layer, q: Path)
    requires q != []
  {
    forall p ::
      && (p in up' ==> p in up && up'[p] == up[p])
      && (p in up && p !in up' ==> (p == MarkerOf(q) || q <= p) && IsHider(up, p))
  }

  predicate IsHider(up: Layer, p: Path)
    requires p in up
  {
    up[p] == Whiteout || (p != [] && IsWh(Last(p)))
  }

  /** The failed half of a creation or a rename: whiteouts of a name, or inside the directory there. */
  ghost predicate Clears(s: State, q: Path, out: State) {
    && s.layers != [] && q != [] && out.t == s.t
    && out.layers != [] && out.layers == WithUpper(s.layers, out.layers[0])
    && LayerOk(out.layers[0]) && OnlyHidersGone(s.layers[0], out.layers[0], q)
  }

  lemma ClearsNothing(s: State, q: Path)
    requires Coherent(s) && q != []
    ensures Clears(s, q, s)
  {
    assert WithUpper(s.layers, s.layers[0]) == s.layers;
  }

  ghost predicate ShownDir(layers: seq<Layer>, p: Path) {
    Fresh(layers, p).Some? && Fresh(layers, p).value.isDir
  }

  /** The whiteout of a name is there yet if a lower layer has the name. */
  ghost predicate StaysHidden(layers: seq<Layer>, out: seq<Layer>, p: Path, n: Name)
    requires layers != [] && out != []
  {
    UpperHides(layers, p, n) && InLower(layers, p + [n]) ==> UpperHides(out, p, n)
  }

  /** No whiteout went that hid a lower name in a directory that is shown. */
  ghost predicate NoneUncovered(layers: seq<Layer>, out: seq<Layer>)
    requires layers != [] && out != []
  {
    forall p, n :: ShownDir(layers, p) ==> StaysHidden(layers, out, p, n)
  }

  /** Whiteouts of a name that no lower layer has uncover nothing. */
  lemma UnusedUncoversNothing(layers: seq<Layer>, up': Layer, q: Path)
    requires Clean(layers) && q != [] && Ordinary(Last(q)) && !InLower(layers, q) && OnlyHidersGone(layers[0], up', q)
    ensures NoneUncovered(layers, WithUpper(layers, up'))
  {
    forall p, n
      ensures StaysHidden(layers, WithUpper(layers, up'), p, n)
    {
      var r, w := p + [n], p + [WhName(n)];
      assert Last(r) == n && Last(w) == WhName(n) && Parent(r) == p && w == MarkerOf(r);
      WhNameInverse(n, n);
      if InLower(layers, r) {
        LowerNamesAreOrdinary(layers, p, n);
        MarkersDiffer(q, r);
        if q <= r {
          NotInLowerBelow(layers, q, r);
        }
        if w in layers[0] && w !in up' {
          ClearedMarker(layers, q, p, n);
        }
      }
    }
  }

  lemma LowerNamesAreOrdinary(layers: seq<Layer>, p: Path, n: Name)
    requires Clean(layers) && InLower(layers, p + [n])
    ensures Ordinary(n)
  {
    var i :| 1 <= i < |layers| && p + [n] in layers[i];
    assert CleanEntry(layers[i], p + [n]) && Last(p + [n]) == n;
  }

  /** A marker that went hid a name that is in no other layer and not beside it. */
  lemma ClearedMarker(layers: seq<Layer>, q: Path, p: Path, n: Name)
    requires Clean(layers) && q != [] && Ordinary(Last(q)) && !InLower(layers, q)
    requires p + [WhName(n)] in layers[0] && (p + [WhName(n)] == MarkerOf(q) || q <= p + [WhName(n)]) && !IsWh(n)
    ensures p + [n] !in layers[0] && !InLower(layers, p + [n])
  {
    var r, w := p + [n], p + [WhName(n)];
    assert Last(r) == n && Last(w) == WhName(n) && Parent(r) == p && w == MarkerOf(r);
    MarkersDiffer(r, q);
    assert r in layers[0] ==> UpperEntry(layers[0], r);
    if w != MarkerOf(q) {
      assert q <= r by {
        PrefixOfSnoc(q, p, WhName(n));
        PrefixOfSnoc(q, p, n);
      }
      NotInLowerBelow(layers, q, r);
    }
  }

  /** Entries that are shown stay, and nothing comes to be shown that was not covered. */
  lemma ClearedName(layers: seq<Layer>, up': Layer, q: Path, p: Path, n: Name)
    requires Clean(layers) && q != [] && OnlyHidersGone(layers[0], up', q)
    ensures StaysHidden(layers, WithUpper(layers, up'), p, n) ==> (InMerge(WithUpper(layers, up'), p, n) <==> InMerge(layers, p, n))
    ensures !StaysHidden(layers, WithUpper(layers, up'), p, n) ==> InMerge(WithUpper(layers, up'), p, n) && !InMerge(layers, p, n)
    ensures InMerge(layers, p, n) ==> SameEntry(layers[0], up', p + [n])
    ensures UpperHides(WithUpper(layers, up'), p, n) ==> UpperHides(layers, p, n)
  {
    var r, w := p + [n], p + [WhName(n)];
    assert Last(r) == n && Last(w) == WhName(n) && Parent(r) == p && w == MarkerOf(r);
    LowerKept(layers, up', r);
    WhNameInverse(n, n);
    assert r in layers[0] ==> UpperEntry(layers[0], r);
    if InLower(layers, r) {
      LowerNamesAreOrdinary(layers, p, n);
    }
  }

  lemma ClearedClean(layers: seq<Layer>, up': Layer, q: Path)
    requires Clean(layers) && q != [] && OnlyHidersGone(layers[0], up', q) && LayerOk(up')
    ensures Clean(WithUpper(layers, up'))
  {
    forall p | p in up'
      ensures UpperEntry(up', p)
    {
      assert UpperEntry(layers[0], p);
    }
    forall p | IsOpaque(up', p)
      ensures !InLower(layers, p)
    {
      assert UpperOpaque(layers, p);
    }
    forall j, p | 1 <= j < |layers| && p in up' && p in layers[j] && up'[p] != Whiteout
      ensures up'[p].Dir? == layers[j][p].Dir?
    {
      assert NoClash(layers, 0, j, p) && CleanEntry(layers[j], p);
    }
    CleanAfter(layers, up');
  }

  lemma ClearedNode(layers: seq<Layer>, up': Layer, q: Path, p: Path, node: Node)
    requires Clean(layers) && q != [] && OnlyHidersGone(layers[0], up', q) && NodeOn(layers, p, node)
    ensures NodeOn(WithUpper(layers, up'), p, node)
  {
    var out := WithUpper(layers, up');
    assert Parent(p) + [Last(p)] == p;
    ClearedName(layers, up', q, Parent(p), Last(p));
    LowerKept(layers, up', p);
    assert forall j :: 0 <= j < |layers| ==> SameEntry(layers[j], out[j], p);
  }

  lemma ClearedDir(layers: seq<Layer>, up': Layer, q: Path, p: Path, node: Node)
    requires Clean(layers) && q != [] && OnlyHidersGone(layers[0], up', q) && DirOn(layers, p, node)
    requires node.IsDir() ==> forall m :: StaysHidden(layers, WithUpper(layers, up'), p, m)
    ensures DirOn(WithUpper(layers, up'), p, node)
  {
    DirOnAt(layers, p, node);
    if node.IsDir() {
      forall m
        ensures DirAt(WithUpper(layers, up'), p, node, m)
      {
        assert DirAt(layers, p, node, m);
        ClearedName(layers, up', q, p, m);
      }
      DirFromAt(WithUpper(layers, up'), p, node);
    }
  }

  /** A failed creation or rename leaves the session coherent if no whiteout of a lower name went that was
      needed. */
  lemma ClearKeepsCoherence(s: State, q: Path, out: State)
    requires Coherent(s) && Clears(s, q, out) && NoneUncovered(s.layers, out.layers)
    ensures Coherent(out)
  {
    var up := out.layers[0];
    ClearedClean(s.layers, up, q);
    forall x | x in s.t.nodes
      ensures NodeFine(out, x)
    {
      assert NodeFine(s, x);
      CoherentFresh(s, x);
      ClearedDir(s.layers, up, q, PathOf(s.t, x), s.t.nodes[x]);
      if x != s.t.root {
        ClearedNode(s.layers, up, q, PathOf(s.t, x), s.t.nodes[x]);
      }
    }
  }

  lemma {:induction false} ClearedFresh(layers: seq<Layer>, up': Layer, q: Path, p: Path)
    requires Clean(layers) && q != [] && OnlyHidersGone(layers[0], up', q) && LayerOk(up')
    requires NoneUncovered(layers, WithUpper(layers, up'))
    ensures LayersOk(WithUpper(layers, up')) && SameAt(layers, WithUpper(layers, up'), p)
    ensures Fresh(WithUpper(layers, up'), p) == Fresh(layers, p)
    decreases |p|
  {
    ClearedClean(layers, up', q);
    if p != [] {
      ClearedFresh(layers, up', q, Parent(p));
      assert ShownDir(layers, Parent(p)) ==> StaysHidden(layers, WithUpper(layers, up'), Parent(p), Last(p));
      ClearedBelow(layers, up', q, p);
    }
  }

  lemma ClearedBelow(layers: seq<Layer>, up': Layer, q: Path, p: Path)
    requires Clean(layers) && q != [] && OnlyHidersGone(layers[0], up', q) && LayerOk(up') && p != []
    requires ShownDir(layers, Parent(p)) ==> StaysHidden(layers, WithUpper(layers, up'), Parent(p), Last(p))
    requires LayersOk(WithUpper(layers, up')) && Fresh(WithUpper(layers, up'), Parent(p)) == Fresh(layers, Parent(p))
    ensures SameAt(layers, WithUpper(layers, up'), p) && Fresh(WithUpper(layers, up'), p) == Fresh(layers, p)
  {
    hide OnlyHidersGone;
    hide InMerge;
    hide StaysHidden;
    hide Fresh;
    var out := WithUpper(layers, up');
    ClearedClean(layers, up', q);
    CleanFresh(layers, p);
    CleanFresh(out, p);
    assert Parent(p) + [Last(p)] == p;
    ClearedName(layers, up', q, Parent(p), Last(p));
    if Fresh(layers, p).Some? {
      assert forall j :: 0 <= j < |layers| ==> SameEntry(layers[j], out[j], p);
      SameNode(layers, out, p, Fresh(layers, p).value, Fresh(out, p).value);
    }
  }

  /** And it is not seen. */
  lemma ClearIsInvisible(s: State, q: Path, out: State)
    requires Coherent(s) && Clears(s, q, out) && NoneUncovered(s.layers, out.layers)
    ensures SameView(s.layers, out.layers)
  {
    forall p
      ensures LayersOk(out.layers) && SameAt(s.layers, out.layers, p)
    {
      ClearedFresh(s.layers, out.layers[0], q, p);
    }
    assert LayersOk(out.layers) by {
      ClearedFresh(s.layers, out.layers[0], q, []);
    }
  }

  /** A whiteout that was needed and went lets a lower name show. */
  lemma UncoveredIsSeen(s: State, q: Path, out: State, p: Path, n: Name)
    requires Coherent(s) && Clears(s, q, out) && ShownDir(s.layers, p) && !StaysHidden(s.layers, out.layers, p, n)
    ensures !SameView(s.layers, out.layers)
  {
    hide Fresh;
    hide StaysHidden;
    ClearedClean(s.layers, out.layers[0], q);
    ClearedName(s.layers, out.layers[0], q, p, n);
    assert Parent(p + [n]) == p && Last(p + [n]) == n;
    CleanFresh(s.layers, p + [n]);
    CleanFresh(out.layers, p + [n]);
    assert !SameAt(s.layers, out.layers, p) || !SameAt(s.layers, out.layers, p + [n]);
  }

  /** The exact condition: the failure is unseen, and the session coherent, if no whiteout went that hid a
      lower name, and only then. */
  lemma ClearIsUnseenIff(s: State, q: Path, out: State)
    requires Coherent(s) && Clears(s, q, out)
    ensures Unseen(s, out) <==> NoneUncovered(s.layers, out.layers)
  {
    hide StaysHidden;
    if NoneUncovered(s.layers, out.layers) {
      ClearKeepsCoherence(s, q, out);
      ClearIsInvisible(s, q, out);
      assert forall x :: x in s.t.nodes ==> NodeSteady(s.t, out.t, x);
    } else {
      var p, n :| ShownDir(s.layers, p) && !StaysHidden(s.layers, out.layers, p, n);
      UncoveredIsSeen(s, q, out, p, n);
    }
  }

  lemma ClearIsUnseen(s: State, q: Path, out: State)
    requires Coherent(s) && Clears(s, q, out) && Ordinary(Last(q)) && !InLower(s.layers, q)
    ensures Unseen(s, out) && NoneUncovered(s.layers, out.layers)
  {
    UnusedUncoversNothing(s.layers, out.layers[0], q);
    ClearIsUnseenIff(s, q, out);
  }

  /** A cached child whose marker is on the upper layer is not shown. */
  lemma MarkedChildIsHidden(s: State, d: NodeId, n: Name)
    requires TreeOk(s.t) && s.layers != [] && d in s.t.nodes && n in s.t.nodes[d].Children()
    requires PathOf(s.t, d) + [WhName(n)] in s.layers[0]
    ensures !Coherent(s)
  {
    if Coherent(s) {
      ChildShown(s, d, n);
    }
  }

  /** Whiteouts that were deleted only hid something. */
  lemma WhiteoutsAreHiders(up: Layer, up': Layer, q: Path)
    requires q != [] && OnlyWhiteoutsGone(up, up', q)
    ensures OnlyHidersGone(up, up', q)
  {
    WhNameInverse(Last(q), Last(q));
    assert Last(MarkerOf(q)) == WhName(Last(q)) && MarkerOf(q) != [];
  }

  /** What is left in a directory of the upper layer that shows nothing only hides. */
  lemma EmptyDirHidesAll(s: State, d: NodeId, p: Path)
    requires Coherent(s) && d in s.t.nodes && s.t.nodes[d].IsLoaded() && s.t.nodes[d].Children() == map[]
    requires PathOf(s.t, d) <= p && p != PathOf(s.t, d) && p in s.layers[0]
    ensures IsHider(s.layers[0], p)
  {
    var up, q := s.layers[0], PathOf(s.t, d);
    var n := p[|q|];
    var r := q + [n];
    NextOnTheWay(q, p);
    assert NodeFine(s, d);
    assert !InMerge(s.layers, q, n);
    assert Last(r) == n && Parent(r) == q;
    if r != p && (r !in up || !up[r].Dir?) {
      NothingInside(up, r, p);
    }
    assert UpperEntry(up, r);
    assert MarkerOf(r) == q + [WhName(n)];
  }

  // ---- A whiteout that uncovers a lower file ----

  /** The device at a name goes, whether or not a lower layer has the name. */
  ghost predicate Uncovers(s: State, d: NodeId, n: Name, out: State)
    requires TreeOk(s.t) && d in s.t.nodes
  {
    var q := PathOf(s.t, d) + [n];
    && s.layers != [] && q in s.layers[0] && s.layers[0][q] == Whiteout
    && out == State(s.t, WithUpper(s.layers, s.layers[0] - {q}))
  }

  lemma UncoveredClean(layers: seq<Layer>, q: Path)
    requires Clean(layers) && q != [] && q in layers[0] && layers[0][q] == Whiteout
    ensures Clean(WithUpper(layers, layers[0] - {q}))
  {
    LeafOk(layers[0], q);
    assert OnlyHidersGone(layers[0], layers[0] - {q}, q);
    ClearedClean(layers, layers[0] - {q}, q);
  }

  /** A directory that is marked for a new scan, and that has not remembered the whiteout, is in
      agreement with the disk with and without it. */
  lemma UncoverKeepsCoherence(s: State, d: NodeId, n: Name, out: State)
    requires Coherent(s) && d in s.t.nodes && s.t.nodes[d].IsDir() && Uncovers(s, d, n, out) && Ordinary(n)
    requires n !in s.t.nodes[d].Children() && !s.t.nodes[d].IsLoaded() && !s.t.nodes[d].IsWhiteout(n)
    ensures Coherent(out)
  {
    var q := PathOf(s.t, d) + [n];
    assert Parent(q) == PathOf(s.t, d) && Last(q) == n;
    UncoveredClean(s.layers, q);
    forall x | x in s.t.nodes
      ensures NodeFine(out, x)
    {
      NoNodeBelowName(s, d, n, x);
      if PathOf(s.t, x) == Parent(q) {
        SamePathSameNode(s, x, d);
      }
      FineAway(s, out.layers[0], q, x);
    }
  }

  lemma UncoverShowsName(s: State, d: NodeId, n: Name, out: State)
    requires Coherent(s) && d in s.t.nodes && s.t.nodes[d].IsDir() && Uncovers(s, d, n, out) && Ordinary(n) && Coherent(out)
    ensures Fresh(out.layers, PathOf(s.t, d) + [n]).Some? <==> InLower(s.layers, PathOf(s.t, d) + [n])
  {
    hide Fresh;
    var q := PathOf(s.t, d) + [n];
    assert Parent(q) == PathOf(s.t, d) && Last(q) == n;
    FreshInDir(out, d, n);
    LowerKept(s.layers, out.layers[0], q);
    assert UpperEntry(s.layers[0], q) && MarkerOf(q) == PathOf(s.t, d) + [WhName(n)];
  }

  /** What is seen then: the lower file, if there is one, and nothing else that was not seen. */
  lemma UncoverShows(s: State, d: NodeId, n: Name, out: State, r: Path)
    requires Coherent(s) && d in s.t.nodes && s.t.nodes[d].IsDir() && Uncovers(s, d, n, out) && Ordinary(n)
    requires Coherent(out) && s.t.nodes[d].layer == 0
    ensures var q := PathOf(s.t, d) + [n];
            if q <= r then (r == q ==> (Fresh(out.layers, r).Some? <==> InLower(s.layers, q)))
            else Fresh(out.layers, r) == Fresh(s.layers, r) && EntryAt(out.layers, r) == EntryAt(s.layers, r)
  {
    var p, q := PathOf(s.t, d), PathOf(s.t, d) + [n];
    assert Parent(q) == p && Last(q) == n;
    if r == q {
      UncoverShowsName(s, d, n, out);
    } else if !(q <= r) {
      DirOnUpper(s, d);
      UncoverIsLocal(s.layers, q, r);
    }
  }

  lemma UncoverIsLocal(layers: seq<Layer>, q: Path, r: Path)
    requires Clean(layers) && q != [] && q in layers[0] && layers[0][q] == Whiteout && !(q <= r) && !IsWh(Last(q))
    requires Parent(q) in layers[0] && layers[0][Parent(q)].Dir?
    ensures var out := WithUpper(layers, layers[0] - {q});
            LayersOk(out) && Fresh(out, r) == Fresh(layers, r) && EntryAt(out, r) == EntryAt(layers, r)
  {
    hide Fresh;
    hide Clean;
    CleanIsOk(layers);
    UncoveredClean(layers, q);
    CleanIsOk(WithUpper(layers, layers[0] - {q}));
    FreshElsewhere(layers, layers[0] - {q}, q, r);
    EntryElsewhere(layers, layers[0] - {q}, q, r);
  }

  lemma CleanIsOk(layers: seq<Layer>)
    requires Clean(layers)
    ensures LayersOk(layers)
  {}
}
