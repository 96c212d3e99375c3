/** The steps of a session that change the disk: copy-up of one entry, creation, and removal. */
module SessionDisk {
  import opened Wrappers
  import opened Names
  import opened NodeTree
  import opened TreeOps
  import opened TreeRuns
  import opened Layers
  import opened Merge
  import opened LazyLookup
  import opened FreshMount
  import opened DiskChanges
  import opened Removal
  import opened CleanDisk
  import opened Filling
  import opened Session
  import opened SessionFrame

  // ---- Copy-up of one entry ----

  /** The upper layer with one more entry. */
  function CopiedUpper(layers: seq<Layer>, q: Path, k: nat): Layer
    requires k < |layers| && q in layers[k]
  {
    layers[0][q := CopyOf(layers[k][q])]
  }

  /** The publishing step of `copyup` and `create_node_directory`: the parent is on the upper layer
      already, and the node comes to be there. */
  ghost predicate CopiesUp(s: State, id: NodeId, out: State) {
    && TreeOk(s.t) && s.layers != [] && id in s.t.nodes && id != s.t.root
    && var node, q := s.t.nodes[id], PathOf(s.t, id);
       && node.parent.Some? && node.parent.value in s.t.nodes && s.t.nodes[node.parent.value].layer == 0
       && 0 < node.layer < |s.layers| && q in s.layers[node.layer]
       && out == State(SetNode(s.t, id, node.(layer := 0)), WithUpper(s.layers, CopiedUpper(s.layers, q, node.layer)))
  }

  lemma DirOnUpper(s: State, d: NodeId)
    requires Coherent(s) && d in s.t.nodes && s.t.nodes[d].IsDir() && s.t.nodes[d].layer == 0
    ensures PathOf(s.t, d) in s.layers[0] && s.layers[0][PathOf(s.t, d)].Dir?
    ensures PathOf(s.t, d) != [] ==> !IsWh(Last(PathOf(s.t, d)))
  {
    assert NodeFine(s, d);
    assert LayerOk(s.layers[0]);
  }

  /** What is known of a node that copy-up is asked for. */
  ghost predicate ToCopy(layers: seq<Layer>, q: Path, k: nat) {
    && Clean(layers) && q != [] && 0 < k < |layers| && q in layers[k] && InMerge(layers, Parent(q), Last(q))
    && (forall j :: 0 <= j < k ==> q !in layers[j])
    && Parent(q) in layers[0] && layers[0][Parent(q)].Dir?
  }

  lemma CopyTarget(s: State, id: NodeId, out: State)
    requires Coherent(s) && CopiesUp(s, id, out)
    ensures ToCopy(s.layers, PathOf(s.t, id), s.t.nodes[id].layer)
  {
    PathSplits(s.t, id);
    assert NodeFine(s, id);
    DirOnUpper(s, s.t.nodes[id].parent.value);
  }

  lemma CopiedFacts(layers: seq<Layer>, q: Path, k: nat)
    requires ToCopy(layers, q, k)
    ensures Parent(q) + [Last(q)] == q && Ordinary(Last(q)) && layers[k][q] != Whiteout
    ensures forall p :: q <= p ==> p !in layers[0]
    ensures MarkerOf(q) !in layers[0]
    ensures forall p, m :: SameName(layers[0], CopiedUpper(layers, q, k), p, m) || (p == Parent(q) && m == Last(q))
  {
    InMergeIsOrdinary(layers, Parent(q), Last(q));
    assert CleanEntry(layers[k], q);
    forall p | q <= p
      ensures p !in layers[0]
    {
      AbsentBelow(layers[0], q, p);
    }
    forall p, m
      ensures SameName(layers[0], CopiedUpper(layers, q, k), p, m) || (p == Parent(q) && m == Last(q))
    {
      assert Last(p + [WhName(m)]) == WhName(m) && Last(p + [m]) == m && Parent(p + [m]) == p;
    }
  }

  lemma CopiedClean(layers: seq<Layer>, q: Path, k: nat)
    requires ToCopy(layers, q, k)
    ensures Clean(WithUpper(layers, CopiedUpper(layers, q, k)))
  {
    var up := CopiedUpper(layers, q, k);
    CopiedFacts(layers, q, k);
    forall p | p in up && p != []
      ensures EntryPlaced(up, p)
    {
      assert p != q ==> EntryPlaced(layers[0], p);
    }
    forall p | p in up
      ensures UpperEntry(up, p)
    {
      assert p != q ==> UpperEntry(layers[0], p);
    }
    forall p | IsOpaque(up, p)
      ensures !InLower(layers, p)
    {
      assert UpperOpaque(layers, p);
      assert Last(p + [OPAQUE_WHITEOUT]) == OPAQUE_WHITEOUT && IsWh(OPAQUE_WHITEOUT);
      assert q <= q + [OPAQUE_WHITEOUT];
    }
    forall j, p | 1 <= j < |layers| && p in up && p in layers[j] && up[p] != Whiteout
      ensures up[p].Dir? == layers[j][p].Dir?
    {
      assert NoClash(layers, 0, j, p) && NoClash(layers, k, j, p) && CleanEntry(layers[j], p);
    }
    CleanAfter(layers, up);
  }

  lemma CopiedShows(layers: seq<Layer>, q: Path, k: nat)
    requires ToCopy(layers, q, k)
    ensures var out := WithUpper(layers, CopiedUpper(layers, q, k));
            InMerge(out, Parent(q), Last(q)) && !UpperHides(out, Parent(q), Last(q))
  {
    CopiedFacts(layers, q, k);
    WhNameInverse(Last(q), Last(q));
    assert Last(MarkerOf(q)) == WhName(Last(q));
  }

  /** Nodes elsewhere, before and below the copied one. */
  lemma CopiedElsewhere(s: State, id: NodeId, out: State, x: NodeId)
    requires Coherent(s) && CopiesUp(s, id, out) && x in s.t.nodes && x != id
    ensures NodeFine(State(s.t, out.layers), x)
  {
    var q, k, node, p := PathOf(s.t, id), s.t.nodes[id].layer, s.t.nodes[x], PathOf(s.t, x);
    CopyTarget(s, id, out);
    CopiedFacts(s.layers, q, k);
    CopiedShows(s.layers, q, k);
    assert NodeFine(s, x) && NodeFine(s, id);
    if p == q {
      SamePathSameNode(s, x, id);
    }
    if x != s.t.root {
      assert Parent(p) + [Last(p)] == p;
      NodeKept(s.layers, out.layers[0], p, node);
    }
    DirOnAt(s.layers, p, node);
    var changed := if p == Parent(q) then {Last(q)} else {};
    DirKept(s.layers, out.layers[0], p, node, changed);
  }

  lemma CopiedNode(layers: seq<Layer>, q: Path, node: Node)
    requires ToCopy(layers, q, node.layer) && NodeOn(layers, q, node)
    ensures NodeOn(WithUpper(layers, CopiedUpper(layers, q, node.layer)), q, node.(layer := 0))
  {
    var up := CopiedUpper(layers, q, node.layer);
    CopiedShows(layers, q, node.layer);
    LowerKept(layers, up, q);
    var out := WithUpper(layers, up);
    assert forall j :: 1 <= j < |layers| ==> out[j] == layers[j];
    assert CleanEntry(layers[node.layer], q);
  }

  lemma CopiedDir(layers: seq<Layer>, q: Path, node: Node)
    requires ToCopy(layers, q, node.layer) && DirOn(layers, q, node)
    ensures DirOn(WithUpper(layers, CopiedUpper(layers, q, node.layer)), q, node.(layer := 0))
  {
    var up := CopiedUpper(layers, q, node.layer);
    CopiedFacts(layers, q, node.layer);
    DirOnAt(layers, q, node);
    if node.IsDir() {
      forall m
        ensures DirAt(WithUpper(layers, up), q, node.(layer := 0), m)
      {
        assert DirAt(layers, q, node, m);
        assert q + [m] != q && q <= q + [m] && q <= q + [WhName(m)] && q + [WhName(m)] != q;
        MergeKept(layers, up, q, m);
      }
      DirFromAt(WithUpper(layers, up), q, node.(layer := 0));
    }
  }

  /** Copy-up keeps the session coherent. */
  lemma CopyKeepsCoherence(s: State, id: NodeId, out: State)
    requires Coherent(s) && CopiesUp(s, id, out)
    ensures Coherent(out)
  {
    var q, node := PathOf(s.t, id), s.t.nodes[id];
    CopyTarget(s, id, out);
    CopiedClean(s.layers, q, node.layer);
    forall x | x in s.t.nodes && x != id
      ensures NodeFine(State(s.t, out.layers), x)
    {
      CopiedElsewhere(s, id, out, x);
    }
    assert NodeFine(s, id);
    CopiedNode(s.layers, q, node);
    CopiedDir(s.layers, q, node);
    SetNodeCoherent(s.t, out.layers, id, node.(layer := 0));
  }

  /** And it is invisible: at every path a fresh mount shows the same. */
  lemma CopyIsInvisible(s: State, id: NodeId, out: State)
    requires Coherent(s) && CopiesUp(s, id, out)
    ensures SameView(s.layers, out.layers)
  {
    var q := PathOf(s.t, id);
    CopyTarget(s, id, out);
    CoherentFresh(s, id);
    CleanMarkersPlain(s.layers);
    assert CanPublish(s.layers, q);
    PublishIsInvisible(s.layers, q);
  }

  // ---- Creation ----

  /** The upper layer with a new entry and without the marker of its name; a new directory may
      come with a sentinel inside. */
  function MadeUpper(up: Layer, q: Path, e: Entry, sentinel: bool): Layer
    requires q != []
  {
    var made := (up - {MarkerOf(q)})[q := e];
    if sentinel then made[q + [OPAQUE_WHITEOUT] := File(Regular([]))] else made
  }

  /** The lookup before a creation found nothing. */
  ghost predicate Resolved(s: State, d: NodeId, n: Name)
    requires TreeOk(s.t) && d in s.t.nodes
  {
    && n !in s.t.nodes[d].Children()
    && (|| s.t.nodes[d].IsWhiteout(n) || s.t.nodes[d].IsLoaded()
        || LazyResult(ViewsOf(s.layers, PathOf(s.t, d)), s.t.nodes[d].last, n) == NotFound)
  }

  /** `create`, `mkdir`, `mknod`, `symlink` and `link` after the copy-up of the parent. `create`
      opens a name that is no known whiteout in place; everything else is staged in the workdir
      or linked, and a whiteout of the name is deleted. `mkdir` makes a directory opaque if its
      parent reaches below the upper layer. */
  ghost predicate Creates(s: State, d: NodeId, n: Name, e: Entry, staged: bool, sentinel: bool, key: InodeKey, out: State) {
    && TreeOk(s.t) && s.layers != [] && d in s.t.nodes && d in s.t.chains && s.t.nodes[d].IsDir() && s.t.nodes[d].layer == 0
    && Resolved(s, d, n) && e != Whiteout
    && (staged || (e.File? && !s.t.nodes[d].IsWhiteout(n)))
    && (sentinel || (e.Dir? && e.opq) ==> e.Dir? && s.t.nodes[d].last > 0)
    && var q := PathOf(s.t, d) + [n];
       && out.layers == WithUpper(s.layers, if staged then MadeUpper(s.layers[0], q, e, sentinel) else s.layers[0][q := e])
       && out.t == InsertChild(s.t, d, NewNode(n, 0, key, e.Dir?).SetLoaded(true))
  }

  /** A place on a clean disk where the upper layer has nothing, or a device 0/0. */
  ghost predicate Free(layers: seq<Layer>, q: Path) {
    && Clean(layers) && q != [] && Ordinary(Last(q))
    && Parent(q) in layers[0] && layers[0][Parent(q)].Dir?
    && (q in layers[0] ==> layers[0][q] == Whiteout)
  }

  /** And nothing is shown or below. */
  ghost predicate Vacant(layers: seq<Layer>, q: Path) {
    Free(layers, q) && !InLower(layers, q)
  }

  lemma FreeIsEmpty(layers: seq<Layer>, q: Path, p: Path)
    requires Free(layers, q) && q <= p && q != p
    ensures p !in layers[0]
  {
    NothingInside(layers[0], q, p);
  }

  lemma VacantIsEmpty(layers: seq<Layer>, q: Path, p: Path)
    requires Vacant(layers, q) && q <= p && q != p
    ensures p !in layers[0] && !InLower(layers, p)
  {
    FreeIsEmpty(layers, q, p);
    NotInLowerBelow(layers, q, p);
  }

  lemma MadeChange(layers: seq<Layer>, q: Path, e: Entry, sentinel: bool)
    requires Free(layers, q)
    ensures var up := MadeUpper(layers[0], q, e, sentinel);
            && ChangedAt(layers[0], up, q) && q in up && up[q] == e && MarkerOf(q) !in up
            && forall p :: q <= p && p in up ==> p == q || (sentinel && p == q + [OPAQUE_WHITEOUT])
  {
    var up := MadeUpper(layers[0], q, e, sentinel);
    MarkerNotBelow(q);
    assert q <= q + [OPAQUE_WHITEOUT] && q + [OPAQUE_WHITEOUT] != q;
    forall p | q <= p && p in up
      ensures p == q || (sentinel && p == q + [OPAQUE_WHITEOUT])
    {
      if p != q {
        FreeIsEmpty(layers, q, p);
      }
    }
  }

  lemma MadeLayerOk(layers: seq<Layer>, q: Path, e: Entry, sentinel: bool)
    requires Free(layers, q) && (sentinel ==> e.Dir?)
    ensures LayerOk(MadeUpper(layers[0], q, e, sentinel))
  {
    var up := MadeUpper(layers[0], q, e, sentinel);
    MadeChange(layers, q, e, sentinel);
    SentinelName();
    forall p | p in up && p != []
      ensures EntryPlaced(up, p)
    {
      if p == q + [OPAQUE_WHITEOUT] {
        assert Parent(p) == q && Last(p) == OPAQUE_WHITEOUT;
      } else if p != q {
        assert EntryPlaced(layers[0], p);
        MarkerIsNoParent(layers, q, p);
        assert Parent(p) != q by {
          if Parent(p) == q {
            FreeIsEmpty(layers, q, p);
            assert false;
          }
        }
      }
    }
  }

  lemma SentinelName()
    ensures ValidName(OPAQUE_WHITEOUT) && IsWh(OPAQUE_WHITEOUT)
  {}

  lemma MarkerIsNoParent(layers: seq<Layer>, q: Path, p: Path)
    requires Clean(layers) && q != [] && p in layers[0] && p != []
    ensures Parent(p) != MarkerOf(q)
  {
    assert EntryPlaced(layers[0], p);
    WhNameInverse(Last(q), Last(q));
    assert Last(MarkerOf(q)) == WhName(Last(q));
    assert MarkerOf(q) in layers[0] ==> UpperEntry(layers[0], MarkerOf(q));
  }

  lemma MadeClean(layers: seq<Layer>, q: Path, e: Entry, sentinel: bool)
    requires Vacant(layers, q) && (sentinel ==> e.Dir?) && e != Whiteout
    ensures Clean(WithUpper(layers, MadeUpper(layers[0], q, e, sentinel)))
  {
    var up := MadeUpper(layers[0], q, e, sentinel);
    MadeLayerOk(layers, q, e, sentinel);
    MadeChange(layers, q, e, sentinel);
    forall p | p in up
      ensures UpperEntry(up, p)
    {
      assert p in layers[0] && p != q ==> UpperEntry(layers[0], p);
    }
    forall p | IsOpaque(up, p)
      ensures !InLower(layers, p)
    {
      if !(q <= p) {
        MarkerIsNotSentinel(q, p);
        assert UpperOpaque(layers, p);
      } else {
        NotInLowerBelow(layers, q, p);
      }
    }
    forall j, p | 1 <= j < |layers| && p in up && p in layers[j] && up[p] != Whiteout
      ensures up[p].Dir? == layers[j][p].Dir?
    {
      InLowerAt(layers, p, j);
      if q <= p {
        NotInLowerBelow(layers, q, p);
      }
      assert NoClash(layers, 0, j, p) && CleanEntry(layers[j], p);
    }
    CleanAfter(layers, up);
  }

  lemma MadeShows(layers: seq<Layer>, q: Path, e: Entry, sentinel: bool)
    requires Vacant(layers, q) && e != Whiteout
    ensures var out := WithUpper(layers, MadeUpper(layers[0], q, e, sentinel));
            InMerge(out, Parent(q), Last(q)) && !UpperHides(out, Parent(q), Last(q))
  {
    MadeChange(layers, q, e, sentinel);
    assert Parent(q) + [Last(q)] == q;
  }

  /** The new node, which has the whole of an empty directory cached. */
  lemma MadeNode(layers: seq<Layer>, q: Path, e: Entry, sentinel: bool, node: Node)
    requires Vacant(layers, q) && e != Whiteout
    requires node.layer == 0 && node.last == 0 && !node.hidden && (node.IsDir() <==> e.Dir?)
    requires node.Children() == map[] && (node.IsDir() ==> node.dir.whiteouts == {})
    ensures var out := WithUpper(layers, MadeUpper(layers[0], q, e, sentinel));
            NodeOn(out, q, node) && DirOn(out, q, node)
  {
    var up := MadeUpper(layers[0], q, e, sentinel);
    var out := WithUpper(layers, up);
    MadeChange(layers, q, e, sentinel);
    MadeShows(layers, q, e, sentinel);
    LowerKept(layers, up, q);
    if node.IsDir() {
      forall m
        ensures DirAt(out, q, node, m)
      {
        MadeInside(layers, q, e, sentinel, m);
      }
      DirFromAt(out, q, node);
    }
  }

  lemma MadeInside(layers: seq<Layer>, q: Path, e: Entry, sentinel: bool, m: Name)
    requires Vacant(layers, q)
    ensures var out := WithUpper(layers, MadeUpper(layers[0], q, e, sentinel));
            !InMerge(out, q, m) && (Ordinary(m) ==> !UpperHides(out, q, m))
  {
    var up := MadeUpper(layers[0], q, e, sentinel);
    MadeChange(layers, q, e, sentinel);
    assert q <= q + [m] && q <= q + [WhName(m)] && q + [m] != q && q + [WhName(m)] != q;
    assert Last(q + [m]) == m && Last(q + [WhName(m)]) == WhName(m);
    VacantIsEmpty(layers, q, q + [m]);
    LowerKept(layers, up, q + [m]);
    WhNameInverse(m, OPAQUE_WHITEOUT);
    SentinelName();
    assert OPAQUE_WHITEOUT[4..] == ".wh..opq" && IsWh(".wh..opq");
    assert Last(q + [OPAQUE_WHITEOUT]) == OPAQUE_WHITEOUT;
  }

  /** What the guard of a creation says about the disk. */
  lemma CreationIsFree(s: State, d: NodeId, n: Name)
    requires Coherent(s) && d in s.t.nodes && s.t.nodes[d].IsDir() && s.t.nodes[d].layer == 0
    requires Resolved(s, d, n) && Ordinary(n)
    ensures Free(s.layers, PathOf(s.t, d) + [n]) && !InMerge(s.layers, PathOf(s.t, d), n)
    ensures !s.t.nodes[d].IsWhiteout(n) ==> !UpperHides(s.layers, PathOf(s.t, d), n)
  {
    var p := PathOf(s.t, d);
    assert NodeFine(s, d);
    DirOnUpper(s, d);
    DirScannable(s, d);
    CleanLookup(s.layers, p, s.t.nodes[d].last, n);
    var q := p + [n];
    assert Parent(q) == p && Last(q) == n;
    assert q in s.layers[0] ==> UpperEntry(s.layers[0], q);
  }

  /** In place and staged, the disk comes out the same: an unknown whiteout is no whiteout. */
  lemma InPlaceIsStaged(layers: seq<Layer>, q: Path, e: Entry)
    requires Free(layers, q) && MarkerOf(q) !in layers[0]
    ensures layers[0][q := e] == MadeUpper(layers[0], q, e, false)
  {
    assert layers[0] - {MarkerOf(q)} == layers[0];
  }

  lemma CreatedUpper(s: State, d: NodeId, n: Name, e: Entry, staged: bool, sentinel: bool, key: InodeKey, out: State)
    requires Coherent(s) && Creates(s, d, n, e, staged, sentinel, key, out)
    requires Ordinary(n)
    ensures Free(s.layers, PathOf(s.t, d) + [n])
    ensures (sentinel ==> e.Dir?) && out.layers == WithUpper(s.layers, MadeUpper(s.layers[0], PathOf(s.t, d) + [n], e, sentinel))
  {
    var q := PathOf(s.t, d) + [n];
    assert Parent(q) == PathOf(s.t, d) && Last(q) == n;
    CreationIsFree(s, d, n);
    if !staged {
      InPlaceIsStaged(s.layers, q, e);
    }
  }

  /** A new entry among the others. */
  lemma MadeElsewhere(s: State, d: NodeId, n: Name, e: Entry, mark: bool, x: NodeId)
    requires Coherent(s) && d in s.t.nodes && n !in s.t.nodes[d].Children()
    requires Vacant(s.layers, PathOf(s.t, d) + [n]) && x in s.t.nodes
    ensures var out := WithUpper(s.layers, MadeUpper(s.layers[0], PathOf(s.t, d) + [n], e, mark));
            if x == d then Placed(State(s.t, out), x) else NodeFine(State(s.t, out), x)
  {
    var q := PathOf(s.t, d) + [n];
    var up := MadeUpper(s.layers[0], q, e, mark);
    assert Parent(q) == PathOf(s.t, d) && Last(q) == n;
    MadeChange(s.layers, q, e, mark);
    NoNodeBelowName(s, d, n, x);
    if x == d {
      assert NodeFine(s, d);
      if d != s.t.root {
        NodeKeptAway(s.layers, up, q, PathOf(s.t, d), s.t.nodes[d]);
      }
    } else {
      if PathOf(s.t, x) == Parent(q) {
        SamePathSameNode(s, x, d);
      }
      FineAway(s, up, q, x);
    }
  }

  lemma MadeInParent(s: State, d: NodeId, n: Name, e: Entry, mark: bool, x: NodeId)
    requires Coherent(s) && d in s.t.nodes && s.t.nodes[d].IsDir() && s.t.nodes[d].layer == 0
    requires Vacant(s.layers, PathOf(s.t, d) + [n]) && e != Whiteout
    ensures DirOn(WithUpper(s.layers, MadeUpper(s.layers[0], PathOf(s.t, d) + [n], e, mark)), PathOf(s.t, d),
                  s.t.nodes[d].InsertChild(n, x))
  {
    var p, q, node := PathOf(s.t, d), PathOf(s.t, d) + [n], s.t.nodes[d].InsertChild(n, x);
    var up := MadeUpper(s.layers[0], q, e, mark);
    assert Parent(q) == p && Last(q) == n;
    MadeChange(s.layers, q, e, mark);
    MadeShows(s.layers, q, e, mark);
    DirOnUpper(s, d);
    assert NodeFine(s, d);
    DirOnAt(s.layers, p, s.t.nodes[d]);
    forall m | m != n
      ensures DirAt(s.layers, p, node, m)
    {
      assert DirAt(s.layers, p, s.t.nodes[d], m);
    }
    DirKeptAway(s.layers, up, q, p, node);
  }

  /** Creating an ordinary name that no lower layer has keeps the session coherent. */
  lemma CreateKeepsCoherence(s: State, d: NodeId, n: Name, e: Entry, staged: bool, sentinel: bool, key: InodeKey, out: State)
    requires Coherent(s) && Creates(s, d, n, e, staged, sentinel, key, out)
    requires Ordinary(n) && !InLower(s.layers, PathOf(s.t, d) + [n])
    ensures Coherent(out)
  {
    var q, node := PathOf(s.t, d) + [n], NewNode(n, 0, key, e.Dir?).SetLoaded(true);
    CreatedUpper(s, d, n, e, staged, sentinel, key, out);
    MadeClean(s.layers, q, e, sentinel);
    forall x | x in s.t.nodes
      ensures if x == d then Placed(State(s.t, out.layers), x) else NodeFine(State(s.t, out.layers), x)
    {
      MadeElsewhere(s, d, n, e, sentinel, x);
    }
    MadeInParent(s, d, n, e, sentinel, s.t.nextId);
    MadeNode(s.layers, q, e, sentinel, node.(parent := Some(d)));
    InsertCoherent(s.t, out.layers, d, node);
  }

  lemma NewNodeStands(s: State, d: NodeId, node: Node)
    requires Coherent(s) && d in s.t.nodes && ValidName(node.name) && node.Children() == map[]
    ensures var u, x := InsertChild(s.t, d, node), s.t.nextId;
            && TreeOk(u) && x in u.nodes && x != u.root && u.nodes[x] == node.(parent := Some(d))
            && PathOf(u, x) == PathOf(s.t, d) + [node.name]
  {
    InsertChildOk(s.t, d, node);
    InsertChildInserts(s.t, d, node);
  }

  /** A node of the upper layer that no lower layer has. */
  lemma UpperNodeIsShown(s: State, x: NodeId)
    requires Coherent(s) && x in s.t.nodes && x != s.t.root && s.t.nodes[x].layer == 0
    requires !InLower(s.layers, PathOf(s.t, x))
    ensures Fresh(s.layers, PathOf(s.t, x)) == Some(Seen(0, 0, s.t.nodes[x].IsDir()))
  {
    var q := PathOf(s.t, x);
    PathSplits(s.t, x);
    CoherentFresh(s, x);
    FreshIsTopmost(s.layers, q);
    var f := Fresh(s.layers, q).value;
    if f.last > 0 {
      InLowerAt(s.layers, q, f.last);
    }
  }

  /** At the path an entry is shown, and what was shown elsewhere is as it was. */
  ghost predicate ShowsOneMore(layers: seq<Layer>, q: Path, e: Entry, out: seq<Layer>, r: Path) {
    && Fresh(out, r) == (if r == q then Some(Seen(0, 0, e.Dir?)) else Fresh(layers, r))
    && EntryAt(out, r) == if r == q then Some(e) else EntryAt(layers, r)
  }

  /** Creation adds one path to what is shown, and changes nothing else. */
  lemma CreateShowsOneMore(s: State, d: NodeId, n: Name, e: Entry, staged: bool, sentinel: bool, key: InodeKey, out: State, r: Path)
    requires Coherent(s) && Creates(s, d, n, e, staged, sentinel, key, out)
    requires Ordinary(n) && !InLower(s.layers, PathOf(s.t, d) + [n])
    ensures var q := PathOf(s.t, d) + [n];
            Fresh(s.layers, q) == None && ShowsOneMore(s.layers, q, e, out.layers, r)
  {
    var q := PathOf(s.t, d) + [n];
    assert Parent(q) == PathOf(s.t, d) && Last(q) == n;
    CreatedUpper(s, d, n, e, staged, sentinel, key, out);
    MadeChange(s.layers, q, e, sentinel);
    DirOnUpper(s, d);
    FreshInDir(s, d, n);
    CreateKeepsCoherence(s, d, n, e, staged, sentinel, key, out);
    LowerKept(s.layers, out.layers[0], q);
    NewNodeStands(s, d, NewNode(n, 0, key, e.Dir?).SetLoaded(true));
    UpperNodeIsShown(out, s.t.nextId);
    if q <= r && q != r {
      NothingBelow(s.layers, q, r);
      MadeInside(s.layers, q, e, sentinel, r[|q|]);
      NothingInDir(out, s.t.nextId, r);
    } else if q != r {
      FreshElsewhere(s.layers, out.layers[0], q, r);
      EntryElsewhere(s.layers, out.layers[0], q, r);
    }
  }

  // ---- Removal ----

  /** `do_rm` after its lookups, its emptiness check and its copy-ups. */
  ghost predicate Removes(s: State, d: NodeId, n: Name, cover: Cover, out: State) {
    && TreeOk(s.t) && s.layers != [] && d in s.t.nodes && n in s.t.nodes[d].Children()
    && EntryOk(s.t, d, n)
    && var c := s.t.nodes[s.t.nodes[d].Children()[n]];
       && c.layer == 0 && c.Children() == map[] && (c.IsDir() ==> c.IsLoaded())
       && (cover == Nothing <==> !NeedsWhiteout(c.last, s.t.nodes[d].last))
       && out == State(RmTree(s.t, d, n), Removed(s.layers, PathOf(s.t, d) + [n], cover))
  }

  lemma RemovableNode(s: State, d: NodeId, n: Name)
    requires Coherent(s) && d in s.t.nodes && n in s.t.nodes[d].Children()
    requires EntryOk(s.t, d, n) && s.t.nodes[s.t.nodes[d].Children()[n]].layer == 0
    ensures CanRemove(s.layers, PathOf(s.t, d) + [n])
  {
    ChildShown(s, d, n);
    CoherentFresh(s, s.t.nodes[d].Children()[n]);
    CleanMarkersPlain(s.layers);
  }

  lemma RemovedLayerOk(layers: seq<Layer>, q: Path, cover: Cover)
    requires CanRemove(layers, q) && Clean(layers) && Ordinary(Last(q))
    ensures LayerOk(RemovedUpper(layers[0], q, cover))
  {
    var up := RemovedUpper(layers[0], q, cover);
    RemovedChange(layers, q, cover);
    MarkerNotBelow(q);
    assert EntryPlaced(layers[0], q);
    forall p | p in up && p != []
      ensures EntryPlaced(up, p)
    {
      if p == q || p == MarkerOf(q) {
        assert Parent(p) == Parent(q) && !(q <= Parent(q));
        assert Last(MarkerOf(q)) == WhName(Last(q));
      } else {
        assert EntryPlaced(layers[0], p);
        MarkerIsNoParent(layers, q, p);
        PrefixOfParent(q, p);
      }
    }
  }

  lemma RemovedClean(layers: seq<Layer>, q: Path, cover: Cover)
    requires CanRemove(layers, q) && Clean(layers) && Ordinary(Last(q))
    ensures Clean(Removed(layers, q, cover))
  {
    var up := RemovedUpper(layers[0], q, cover);
    RemovedLayerOk(layers, q, cover);
    RemovedChange(layers, q, cover);
    MarkerNotBelow(q);
    WhNameInverse(Last(q), Last(q));
    forall p | p in up
      ensures UpperEntry(up, p)
    {
      RemovedEntry(layers, q, cover, p);
    }
    forall p | IsOpaque(up, p)
      ensures !InLower(layers, p)
    {
      assert q <= p ==> p == q;
      if !(q <= p) && p != MarkerOf(q) {
        OpacityKept(layers[0], up, q, p);
        assert UpperOpaque(layers, p);
      }
    }
    forall j, p | 1 <= j < |layers| && p in up && p in layers[j] && up[p] != Whiteout
      ensures up[p].Dir? == layers[j][p].Dir?
    {
      assert NoClash(layers, 0, j, p) && CleanEntry(layers[j], p);
      assert Last(MarkerOf(q)) == WhName(Last(q));
    }
    CleanAfter(layers, up);
  }

  lemma MarkersDiffer(p: Path, q: Path)
    requires p != [] && q != []
    ensures MarkerOf(p) == MarkerOf(q) <==> p == q
    ensures !IsWh(Last(q)) ==> MarkerOf(p) != q
  {
    WhNameInverse(Last(p), Last(q));
    assert Parent(MarkerOf(p)) == Parent(p) && Last(MarkerOf(p)) == WhName(Last(p));
    assert Parent(MarkerOf(q)) == Parent(q) && Last(MarkerOf(q)) == WhName(Last(q));
    assert p == Parent(p) + [Last(p)] && q == Parent(q) + [Last(q)];
  }

  lemma RemovedEntry(layers: seq<Layer>, q: Path, cover: Cover, p: Path)
    requires CanRemove(layers, q) && Clean(layers) && Ordinary(Last(q)) && p in RemovedUpper(layers[0], q, cover)
    ensures UpperEntry(RemovedUpper(layers[0], q, cover), p)
  {
    var up := RemovedUpper(layers[0], q, cover);
    RemovedChange(layers, q, cover);
    ShownHasNoMarker(layers, q);
    if p == MarkerOf(q) {
      MarkersDiffer(p, q);
      MarkerOfMarker(layers, q);
      WhNameInverse(Last(q), Last(q));
      assert Last(MarkerOf(q)) == WhName(Last(q));
    } else if p != q && p != [] {
      MarkersDiffer(p, q);
      assert UpperEntry(layers[0], p);
    }
  }

  lemma MarkerOfMarker(layers: seq<Layer>, q: Path)
    requires Clean(layers) && q != [] && Ordinary(Last(q))
    ensures MarkerOf(MarkerOf(q)) !in layers[0]
  {
    var m := MarkerOf(MarkerOf(q));
    WhNameInverse(Last(q), Last(q));
    assert Last(MarkerOf(q)) == WhName(Last(q)) && Last(m) == WhName(WhName(Last(q)));
    WhNameInverse(WhName(Last(q)), Last(q));
    assert m in layers[0] ==> UpperEntry(layers[0], m);
    assert OPAQUE_WHITEOUT[4..] == ".wh..opq" && ".wh..opq"[4..] == ".opq";
  }

  /** The name is no longer shown. */
  lemma RemovedIsGone(s: State, d: NodeId, n: Name, cover: Cover, out: State)
    requires Coherent(s) && Removes(s, d, n, cover, out)
    ensures CanRemove(s.layers, PathOf(s.t, d) + [n])
    ensures !InMerge(out.layers, PathOf(s.t, d), n)
  {
    var q, c := PathOf(s.t, d) + [n], s.t.nodes[d].Children()[n];
    RemovableNode(s, d, n);
    ChildShown(s, d, n);
    RemovedChange(s.layers, q, cover);
    LowerKept(s.layers, out.layers[0], q);
    assert Parent(q) == PathOf(s.t, d) && Last(q) == n;
  }

  lemma RemovedElsewhere(s: State, d: NodeId, n: Name, cover: Cover, out: State, x: NodeId)
    requires Coherent(s) && Removes(s, d, n, cover, out)
    requires x in s.t.nodes && x != s.t.nodes[d].Children()[n] && x != d
    ensures NodeFine(State(s.t, out.layers), x)
  {
    var q, c := PathOf(s.t, d) + [n], s.t.nodes[d].Children()[n];
    ChildShown(s, d, n);
    RemovableNode(s, d, n);
    RemovedChange(s.layers, q, cover);
    NoNodeBelowLeaf(s, c, x);
    assert Parent(q) == PathOf(s.t, d) && Last(q) == n;
    if PathOf(s.t, x) == Parent(q) {
      SamePathSameNode(s, x, d);
    }
    FineAway(s, RemovedUpper(s.layers[0], q, cover), q, x);
  }

  /** The directory itself, which is marked for a new scan. */
  lemma RemovedFrom(s: State, d: NodeId, n: Name, cover: Cover, out: State)
    requires Coherent(s) && Removes(s, d, n, cover, out)
    ensures Placed(State(s.t, out.layers), d)
    ensures DirOn(out.layers, PathOf(s.t, d), s.t.nodes[d].SetLoaded(false).RemoveChild(n))
  {
    hide RemovedUpper;
    hide RmTree;
    hide NodeOn;
    var p, q, c := PathOf(s.t, d), PathOf(s.t, d) + [n], s.t.nodes[d].Children()[n];
    var node, up := s.t.nodes[d].SetLoaded(false).RemoveChild(n), RemovedUpper(s.layers[0], q, cover);
    assert Parent(q) == p && Last(q) == n && !(q <= p);
    ChildShown(s, d, n);
    RemovedIsGone(s, d, n, cover, out);
    RemovedChange(s.layers, q, cover);
    assert NodeFine(s, d);
    if d != s.t.root {
      NodeKeptAway(s.layers, up, q, p, s.t.nodes[d]);
    }
    RemovedParentName(s, d);
    RemovedMaps(s.layers, p, s.t.nodes[d], n);
    DirKeptAway(s.layers, up, q, p, node);
  }

  /** Without a child, and marked for a new scan, the maps claim less than before. */
  lemma RemovedMaps(layers: seq<Layer>, p: Path, node: Node, n: Name)
    requires layers != [] && DirOn(layers, p, node)
    ensures var after := node.SetLoaded(false).RemoveChild(n);
            && (after.IsDir() <==> node.IsDir())
            && (after.IsDir() ==> !after.dir.loaded && after.dir.whiteouts == node.dir.whiteouts && forall m :: DirAt(layers, p, after, m))
  {
    DirOnAt(layers, p, node);
    if node.IsDir() {
      forall m
        ensures DirAt(layers, p, node.SetLoaded(false).RemoveChild(n), m)
      {
        assert DirAt(layers, p, node, m);
      }
    }
  }

  lemma RemovedParentName(s: State, d: NodeId)
    requires Coherent(s) && d in s.t.nodes
    ensures PathOf(s.t, d) != [] ==> !IsWh(Last(PathOf(s.t, d)))
  {
    assert NodeFine(s, d);
  }

  /** A leaf leaves the tree, where the others agree with the disk. */
  lemma RmCoherent(s: State, d: NodeId, n: Name, layers: seq<Layer>)
    requires Coherent(s) && Clean(layers) && d in s.t.nodes && n in s.t.nodes[d].Children() && EntryOk(s.t, d, n)
    requires s.t.nodes[s.t.nodes[d].Children()[n]].Children() == map[]
    requires forall x :: x in s.t.nodes && x != d && x != s.t.nodes[d].Children()[n] ==> NodeFine(State(s.t, layers), x)
    requires Placed(State(s.t, layers), d)
    requires DirOn(layers, PathOf(s.t, d), s.t.nodes[d].SetLoaded(false).RemoveChild(n))
    ensures Coherent(State(RmTree(s.t, d, n), layers))
  {
    var u, c := RmTree(s.t, d, n), s.t.nodes[d].Children()[n];
    RmTreeOk(s.t, d, n);
    ChildNotAbove(s.t, d, n);
    RmNodes(s.t, d, n);
    forall x | x in u.nodes
      ensures NodeFine(State(u, layers), x)
    {
      NoNodeBelowLeaf(s, c, x);
      assert x != d ==> NodeFine(State(s.t, layers), x);
      RmKeepsNode(s.t, u, layers, d, n, c, x);
    }
  }

  lemma RmNodes(t: Tree, d: NodeId, n: Name)
    requires d in t.nodes && n in t.nodes[d].Children()
    ensures RmTree(t, d, n).root == t.root
    ensures RmTree(t, d, n).nodes == t.nodes[d := t.nodes[d].SetLoaded(false).RemoveChild(n)] - {t.nodes[d].Children()[n]}
  {}

  lemma RmKeepsNode(t: Tree, u: Tree, layers: seq<Layer>, d: NodeId, n: Name, c: NodeId, x: NodeId)
    requires TreeOk(t) && TreeOk(u) && layers != [] && u.root == t.root
    requires d in t.nodes && n in t.nodes[d].Children() && t.nodes[d].Children()[n] == c && c in t.nodes && c != d && x != c
    requires t.nodes[c].Children() == map[]
    requires u.nodes == t.nodes[d := t.nodes[d].SetLoaded(false).RemoveChild(n)] - {c}
    requires x in t.nodes && Placed(State(t, layers), x) && PathOf(u, x) == PathOf(t, x)
    requires DirOn(layers, PathOf(t, x), if x == d then t.nodes[d].SetLoaded(false).RemoveChild(n) else t.nodes[x])
    ensures x in u.nodes && NodeFine(State(u, layers), x)
  {}

  /** Removal keeps the session coherent. */
  lemma RemoveKeepsCoherence(s: State, d: NodeId, n: Name, cover: Cover, out: State)
    requires Coherent(s) && Removes(s, d, n, cover, out)
    ensures Coherent(out)
  {
    var q := PathOf(s.t, d) + [n];
    ChildShown(s, d, n);
    InMergeIsOrdinary(s.layers, PathOf(s.t, d), n);
    assert Last(q) == n;
    RemovableNode(s, d, n);
    RemovedClean(s.layers, q, cover);
    forall x | x in s.t.nodes && x != d && x != s.t.nodes[d].Children()[n]
      ensures NodeFine(State(s.t, out.layers), x)
    {
      RemovedElsewhere(s, d, n, cover, out, x);
    }
    RemovedFrom(s, d, n, cover, out);
    RmCoherent(s, d, n, out.layers);
  }

  /** And it takes exactly the one name, with what was below it, out of what is shown. */
  lemma RemoveShowsOneLess(s: State, d: NodeId, n: Name, cover: Cover, out: State)
    requires Coherent(s) && Removes(s, d, n, cover, out)
    ensures RemovedExactly(s.layers, out.layers, PathOf(s.t, d) + [n])
  {
    var q, c := PathOf(s.t, d) + [n], s.t.nodes[d].Children()[n];
    ChildShown(s, d, n);
    RemovableNode(s, d, n);
    HideRemovesExactlyOne(s.layers, q, s.t.nodes[c].last, s.t.nodes[d].last, cover);
    if cover == Nothing {
      assert !InLower(s.layers, q);
      AbsentBelowIsNotShown(s.layers, q, Fresh(s.layers, Parent(q)).value.last);
    }
  }
}
