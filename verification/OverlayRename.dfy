/** The replacing branch of `rename` (src/overlay.rs), from the lookups to the update of the cache. */
module OverlayRename {
  import opened Wrappers
  import opened Names
  import opened NodeTree
  import opened TreeOps
  import opened TreeRuns
  import opened NodeArenas
  import opened Layers
  import opened Merge
  import opened LazyLookup
  import opened FreshMount
  import opened DiskChanges
  import opened Removal
  import opened CleanDisk
  import opened Filling
  import opened Session
  import opened SessionFrame
  import opened SessionScan
  import opened SessionDisk
  import opened DiskRename
  import opened SessionRename
  import opened RenameSeen
  import opened CopyUpSteps
  import opened Steady
  import opened Disks
  import opened Whiteouts
  import opened CopyUp
  import opened Clearing
  import opened RenameUncovered
  import opened DiskExchange
  import opened SessionExchange
  import opened Overlay

  // ---- An id that is used up ----

  /** The same nodes, with ids issued in between that are no longer in use. */
  ghost predicate SameNodes(t: Tree, u: Tree) {
    && TreeOk(t) && TreeOk(u) && u.nodes == t.nodes && u.root == t.root
    && forall c :: c in t.chains ==> c in u.chains && u.chains[c] == t.chains[c]
  }

  lemma {:induction false} SameNodesSamePath(t: Tree, u: Tree, x: NodeId)
    requires SameNodes(t, u)
    ensures PathOf(u, x) == PathOf(t, x)
    decreases if x in t.chains then |t.chains[x]| else 0
  {
    if x in t.nodes && x != t.root {
      assert LinkOk(t, x) && LinkOk(u, x);
      SameNodesSamePath(t, u, t.nodes[x].parent.value);
    }
  }

  lemma SameNodesUnseen(s: State, u: Tree)
    requires Coherent(s) && SameNodes(s.t, u)
    ensures Unseen(s, State(u, s.layers))
  {
    SameViewReflexive(s.layers);
    forall x | x in u.nodes
      ensures NodeFine(State(u, s.layers), x)
      ensures NodeSteady(s.t, u, x)
    {
      assert NodeFine(s, x);
      SameNodesSamePath(s.t, u, x);
    }
  }

  /** A node that was added and removed again leaves its id behind. */
  lemma UsedUpId(t: Tree, d: NodeId, node: Node)
    requires TreeOk(t) && d in t.nodes && ValidName(node.name) && node.Children() == map[]
    ensures SameNodes(t, InsertChild(t, d, node).(nodes := t.nodes))
  {
    InsertChildOk(t, d, node);
    var v := InsertChild(t, d, node);
    var u := v.(nodes := t.nodes);
    assert t.nextId !in t.chains;
    forall x | x in u.nodes
      ensures LinkOk(u, x)
    {
      assert LinkOk(t, x);
    }
    forall e, k | e in u.nodes && k in u.nodes[e].Children()
      ensures EntryOk(u, e, k)
    {
      assert EntryOk(t, e, k);
    }
  }

  lemma {:induction false} HiddenIsItself(views: seq<View>, bound: nat, i: nat, n: Name, found: Option<Seen>)
    requires i <= |views| && !IsWh(n)
    ensures LazyFrom(views, bound, i, n, found).HiddenBy? ==> LazyFrom(views, bound, i, n, found).whiteout == n
    decreases |views| - i
  {
    if i < |views| {
      var items := Items(views[i]);
      HiddenIsItself(views, bound, i + 1, n, found);
      if found.Some? {
        HiddenIsItself(views, bound, i + 1, n, Some(found.value.(last := i)));
      } else if n in items {
        HiddenIsItself(views, bound, i + 1, n, Some(Seen(i, i, items[n].DirItem?)));
      }
    }
  }

  // ---- The cache ----

  /** The parent of the destination after the lookup that follows the rename on disk: without the
      name, which may have been found to be whited out. */
  predicate Dropped(before: Node, after: Node, m: Name) {
    after == before.RemoveChild(m) || after == before.RemoveChild(m).InsertWhiteout(m)
  }

  /** The arena after the destination was dropped. */
  ghost predicate TargetDropped(t: Tree, nodes: Arena, dp: NodeId, m: Name)
    requires dp in t.nodes
  {
    && nodes.Keys == t.nodes.Keys - Target(t, dp, m)
    && dp in nodes && Dropped(t.nodes[dp], nodes[dp], m)
    && forall x :: x in nodes && x != dp ==> nodes[x] == t.nodes[x]
  }

  /** What the lookup before the drop may have done to the tree. */
  ghost predicate LookedAgain(t: Tree, dp: NodeId, m: Name, u: Tree)
    requires dp in t.nodes && dp in t.chains
  {
    if IsCached(t, dp, m) then u == t
    else exists r: Outcome :: LookedUp(t, dp, m, r, u) && (r.HiddenBy? ==> r.whiteout == m)
  }

  function DropFound(nodes: Arena, dp: NodeId, m: Name, found: Option<NodeId>): Arena
    requires dp in nodes
  {
    if found.None? then nodes else nodes[dp := nodes[dp].RemoveChild(m)] - {found.value}
  }

  lemma DropsTarget(t: Tree, dp: NodeId, m: Name, u: Tree)
    requires TreeOk(t) && dp in t.nodes && t.nodes[dp].IsDir() && LookedAgain(t, dp, m, u) && TreeOk(u)
    ensures dp in u.nodes && TargetDropped(t, DropFound(u.nodes, dp, m, u.nodes[dp].GetChild(m)), dp, m)
    ensures SameNodes(t, u.(nodes := t.nodes))
    ensures u.nodes[dp].GetChild(m).Some? ==> u.nodes[dp].GetChild(m).value in u.nodes && u.nodes[dp].GetChild(m).value != dp
  {
    if IsCached(t, dp, m) {
      if m in t.nodes[dp].Children() {
        ChildNotAbove(t, dp, m);
      } else {
        assert t.nodes[dp].RemoveChild(m).dir.children == t.nodes[dp].dir.children;
      }
    } else {
      var r: Outcome :| LookedUp(t, dp, m, r, u) && (r.HiddenBy? ==> r.whiteout == m);
      DropsLooked(t, dp, m, r, u);
    }
  }

  lemma DropsLooked(t: Tree, dp: NodeId, m: Name, r: Outcome, u: Tree)
    requires TreeOk(t) && dp in t.nodes && t.nodes[dp].IsDir() && TreeOk(u) && !IsCached(t, dp, m)
    requires LookedUp(t, dp, m, r, u) && (r.HiddenBy? ==> r.whiteout == m)
    ensures dp in u.nodes && TargetDropped(t, DropFound(u.nodes, dp, m, u.nodes[dp].GetChild(m)), dp, m)
    ensures SameNodes(t, u.(nodes := t.nodes))
    ensures u.nodes[dp].GetChild(m).Some? ==> u.nodes[dp].GetChild(m).value in u.nodes && u.nodes[dp].GetChild(m).value != dp
  {
    match r
    case Found(seen) =>
      hide InsertChild;
      hide TargetDropped;
      hide SameNodes;
      var key :| u == InsertChild(t, dp, NewNode(m, seen.layer, key, seen.isDir).(last := seen.last));
      DropsNew(t, dp, NewNode(m, seen.layer, key, seen.isDir).(last := seen.last));
    case _ =>
      hide InsertChild;
      assert t.nodes[dp].dir.children - {m} == t.nodes[dp].dir.children;
      assert u.(nodes := t.nodes) == t;
  }

  lemma DropsNew(t: Tree, dp: NodeId, node: Node)
    requires TreeOk(t) && dp in t.nodes && t.nodes[dp].IsDir() && node.name !in t.nodes[dp].Children()
    requires !t.nodes[dp].IsWhiteout(node.name) && node.Children() == map[] && TreeOk(InsertChild(t, dp, node))
    ensures var u, x, m := InsertChild(t, dp, node), t.nextId, node.name;
            && x != dp && x in u.nodes && dp in u.nodes && u.nodes[dp].GetChild(m) == Some(x)
            && TargetDropped(t, DropFound(u.nodes, dp, m, Some(x)), dp, m)
            && SameNodes(t, u.(nodes := t.nodes))
  {
    var u, x, m := InsertChild(t, dp, node), t.nextId, node.name;
    assert x !in t.chains && x !in t.nodes;
    InsertChildInserts(t, dp, node);
    assert LinkOk(u, x);
    UsedUpId(t, dp, node);
    AddedThenDropped(t.nodes, dp, m, x, node.(parent := Some(dp)));
  }

  lemma AddedThenDropped(nodes: Arena, dp: NodeId, m: Name, x: NodeId, node: Node)
    requires dp in nodes && nodes[dp].IsDir() && m !in nodes[dp].Children() && !nodes[dp].IsWhiteout(m) && x !in nodes
    ensures var added := nodes[x := node][dp := nodes[dp].InsertChild(m, x)];
            var dropped := added[dp := added[dp].RemoveChild(m)] - {x};
            && added[dp].GetChild(m) == Some(x)
            && dropped == nodes && nodes[dp].RemoveChild(m) == nodes[dp]
  {
    var dir := nodes[dp].dir;
    assert dir.children[m := x] - {m} == dir.children - {m} == dir.children && dir.whiteouts - {m} == dir.whiteouts;
  }

  /** The node at the destination, if there is one, is dropped. As the parent is marked for a new
      scan, the lookup may find the entry that was just moved there; that node is dropped too. */
  method DropTarget(fs: OverlayInner, dp: NodeId, m: Name, faults: seq<Fault>)
    requires fs.Valid() && dp in fs.arena.nodes && fs.arena.nodes[dp].IsDir()
    requires !IsWh(m) && |faults| == |fs.disk.layers|
    modifies fs`chains, fs.arena
    ensures fs.arena.Valid()
    ensures TargetDropped(old(fs.T()), fs.arena.nodes, dp, m)
    ensures SameNodes(old(fs.T()), Tree(old(fs.arena.nodes), fs.arena.nextId, fs.root, fs.chains))
  {
    ghost var t := fs.T();
    HiddenIsItself(ViewsUnder(fs.disk.layers, PathOf(t, dp), faults), fs.arena.nodes[dp].last, 0, m, None);
    var found := fs.LookupFile(dp, m, faults);
    DropsTarget(t, dp, m, fs.T());
    if found.Some? {
      fs.arena.Update(dp, fs.arena.nodes[dp].RemoveChild(m));
      var _ := fs.arena.Remove(found.value);
    }
  }

  /** Loaded flags play no part in the chains. */
  lemma SameNodesUnloaded(t: Tree, sp: NodeId, dp: NodeId, nextId: NodeId, chains: Chains)
    requires TreeOk(t) && sp in t.nodes && dp in t.nodes
    requires var u := Unload(Unload(t, sp), dp); SameNodes(u, Tree(u.nodes, nextId, t.root, chains))
    ensures SameNodes(t, Tree(t.nodes, nextId, t.root, chains))
  {
    var u, v := Unload(Unload(t, sp), dp), Tree(t.nodes, nextId, t.root, chains);
    UnloadBothOk(t, sp, dp);
    var w := Tree(u.nodes, nextId, t.root, chains);
    assert v.nodes.Keys == w.nodes.Keys;
    forall x | x in v.nodes
      ensures LinkOk(v, x)
    {
      assert LinkOk(w, x);
    }
    forall e, k | e in v.nodes && k in v.nodes[e].Children()
      ensures EntryOk(v, e, k)
    {
      assert EntryOk(t, e, k);
    }
  }

  lemma AllowedStays(t: Tree, u: Tree, sp: NodeId, n: Name, dp: NodeId, m: Name)
    requires SameNodes(t, u) && RenameAllowed(t, sp, n, dp, m)
    ensures RenameAllowed(u, sp, n, dp, m)
  {
    assert LinkOk(t, dp) && LinkOk(t, t.nodes[sp].Children()[n]);
  }

  /** The parents' nodes after the updates of the cache are those of the step. */
  lemma ParentNodes(t: Tree, d: NodeId, sp: NodeId, n: Name, dp: NodeId, m: Name, c: NodeId, after: Node)
    requires d in t.nodes && (d == sp || d == dp)
    requires if d == dp then Dropped(t.nodes[d].SetLoaded(false), after, m) else after == t.nodes[d].SetLoaded(false)
    ensures var taken := if d == sp then after.RemoveChild(n) else after;
            (if d == dp then taken.InsertChild(m, c) else taken) == RenamedParentNode(t, d, sp, n, dp, m, c)
  {
    if d == dp && t.nodes[d].IsDir() {
      var w := t.nodes[d].dir.whiteouts;
      assert (w + {m}) - {m} == w - {m};
    }
  }

  method MarkBothUnloaded(arena: NodeArena, sp: NodeId, dp: NodeId)
    requires arena.Valid() && sp in arena.nodes && dp in arena.nodes
    modifies arena`nodes
    ensures arena.Valid()
    ensures var marked := old(arena.nodes)[sp := old(arena.nodes)[sp].SetLoaded(false)];
            arena.nodes == marked[dp := marked[dp].SetLoaded(false)]
  {
    arena.Update(sp, arena.nodes[sp].SetLoaded(false));
    if dp != sp {
      arena.Update(dp, arena.nodes[dp].SetLoaded(false));
    }
  }

  /** The child leaves one map and enters the other under its new name. */
  function Relisted(nodes: Arena, sp: NodeId, n: Name, dp: NodeId, m: Name, id: NodeId): Arena
    requires sp in nodes && dp in nodes && id in nodes
  {
    var taken := nodes[sp := nodes[sp].RemoveChild(n)];
    var renamed := taken[id := taken[id].(parent := Some(dp), name := m)];
    renamed[dp := renamed[dp].InsertChild(m, id)]
  }

  method RelistChild(arena: NodeArena, sp: NodeId, n: Name, dp: NodeId, m: Name, id: NodeId, ghost want: Arena)
    requires arena.Valid() && sp in arena.nodes && dp in arena.nodes && id in arena.nodes
    requires want == Relisted(arena.nodes, sp, n, dp, m, id)
    modifies arena`nodes
    ensures arena.Valid() && arena.nodes == want
  {
    arena.Update(sp, arena.nodes[sp].RemoveChild(n));
    arena.Update(id, arena.nodes[id].(parent := Some(dp), name := m));
    arena.Update(dp, arena.nodes[dp].InsertChild(m, id));
  }

  /** The three nodes that are updated are there after the drop. */
  lemma RelistPlaces(t: Tree, dropped: Arena, sp: NodeId, n: Name, dp: NodeId, m: Name, id: NodeId)
    requires TreeOk(t) && RenameAllowed(t, sp, n, dp, m) && id == t.nodes[sp].Children()[n]
    requires TargetDropped(Unload(Unload(t, sp), dp), dropped, dp, m)
    ensures id in t.nodes && id != sp && id != dp && sp in dropped && dp in dropped && id in dropped
    ensures dropped.Keys == t.nodes.Keys - Target(t, dp, m)
  {
    UnloadBothOk(t, sp, dp);
    ChildNotAbove(t, sp, n);
    assert ChainOk(t.chains, dp);
    if m in t.nodes[dp].Children() {
      TargetApart(t, sp, n, dp, m);
    }
  }

  lemma RenameNodesAll(t: Tree, sp: NodeId, n: Name, dp: NodeId, m: Name)
    requires TreeOk(t) && RenameAllowed(t, sp, n, dp, m)
    ensures var u := RenameTree(t, sp, n, dp, m);
            && u.nodes.Keys == t.nodes.Keys - Target(t, dp, m)
            && forall x :: x in u.nodes ==> u.nodes[x] == RenamedNode(t, x, sp, n, dp, m, t.nodes[sp].Children()[n])
  {
    var u := RenameTree(t, sp, n, dp, m);
    RenameNodes(t, sp, n, dp, m, sp);
    forall x | x in u.nodes
      ensures u.nodes[x] == RenamedNode(t, x, sp, n, dp, m, t.nodes[sp].Children()[n])
    {
      RenameNodes(t, sp, n, dp, m, x);
    }
  }

  lemma RelistedIsRenamed(t: Tree, dropped: Arena, want: Arena, sp: NodeId, n: Name, dp: NodeId, m: Name, id: NodeId)
    requires sp in t.nodes && dp in t.nodes && id in t.nodes && id != sp && id != dp
    requires sp in dropped && dp in dropped && id in dropped
    requires TargetDropped(Unload(Unload(t, sp), dp), dropped, dp, m)
    requires want.Keys == dropped.Keys <= t.nodes.Keys
    requires forall x :: x in want ==> want[x] == RenamedNode(t, x, sp, n, dp, m, id)
    ensures Relisted(dropped, sp, n, dp, m, id) == want
  {
    var got := Relisted(dropped, sp, n, dp, m, id);
    forall x | x in got
      ensures got[x] == want[x]
    {
      RelistedAt(t, dropped, sp, n, dp, m, id, x);
    }
  }

  lemma RelistedAt(t: Tree, dropped: Arena, sp: NodeId, n: Name, dp: NodeId, m: Name, id: NodeId, x: NodeId)
    requires sp in t.nodes && dp in t.nodes && id in t.nodes && id != sp && id != dp && x in t.nodes
    requires sp in dropped && dp in dropped && id in dropped && x in dropped
    requires TargetDropped(Unload(Unload(t, sp), dp), dropped, dp, m)
    ensures Relisted(dropped, sp, n, dp, m, id)[x] == RenamedNode(t, x, sp, n, dp, m, id)
  {
    if x == sp || x == dp {
      ParentNodes(t, x, sp, n, dp, m, id, dropped[x]);
    }
  }

  /** Both parents are marked for a new scan, and the destination is dropped. */
  method DropInCache(fs: OverlayInner, sp: NodeId, n: Name, dp: NodeId, m: Name, faults: seq<Fault>) returns (ghost base: Tree)
    requires fs.Valid() && RenameAllowed(fs.T(), sp, n, dp, m) && !IsWh(m) && |faults| == |fs.disk.layers|
    modifies fs`chains, fs.arena
    ensures SameNodes(old(fs.T()), base) && base == Tree(old(fs.arena.nodes), fs.arena.nextId, fs.root, fs.chains)
    ensures fs.arena.Valid()
    ensures TargetDropped(Unload(Unload(old(fs.T()), sp), dp), fs.arena.nodes, dp, m)
  {
    ghost var t := fs.T();
    UnloadBothOk(t, sp, dp);
    MarkBothUnloaded(fs.arena, sp, dp);
    assert fs.T() == Unload(Unload(t, sp), dp);
    DropTarget(fs, dp, m, faults);
    base := Tree(t.nodes, fs.arena.nextId, fs.root, fs.chains);
    SameNodesUnloaded(t, sp, dp, base.nextId, base.chains);
  }

  /** The tree that the updates of the cache lead to. */
  lemma CacheAfterMove(t: Tree, base: Tree, dropped: Arena, sp: NodeId, n: Name, dp: NodeId, m: Name, id: NodeId)
    requires SameNodes(t, base) && RenameAllowed(t, sp, n, dp, m) && id == t.nodes[sp].Children()[n]
    requires TargetDropped(Unload(Unload(t, sp), dp), dropped, dp, m)
    ensures sp in dropped && dp in dropped && id in dropped && RenameAllowed(base, sp, n, dp, m)
    ensures var u := RenameTree(base, sp, n, dp, m);
            TreeOk(u) && u.nodes == Relisted(dropped, sp, n, dp, m, id) && u.nextId == base.nextId && u.root == t.root
  {
    AllowedStays(t, base, sp, n, dp, m);
    RelistPlaces(t, dropped, sp, n, dp, m, id);
    RenameNodesAll(base, sp, n, dp, m);
    RelistedIsRenamed(base, dropped, RenameTree(base, sp, n, dp, m).nodes, sp, n, dp, m, id);
    RenameTreeOk(base, sp, n, dp, m);
    RenameKeepsIds(base, sp, n, dp, m);
  }

  method FinishInCache(fs: OverlayInner, sp: NodeId, n: Name, dp: NodeId, m: Name, id: NodeId, ghost u: Tree)
    requires fs.arena.Valid() && fs.disk.Valid() && NamesBelow(fs.disk.work, fs.wdCounter)
    requires sp in fs.arena.nodes && dp in fs.arena.nodes && id in fs.arena.nodes
    requires TreeOk(u) && u.nodes == Relisted(fs.arena.nodes, sp, n, dp, m, id) && u.nextId == fs.arena.nextId && u.root == fs.root
    modifies fs`chains, fs.arena`nodes
    ensures fs.Valid() && fs.T() == u
  {
    RelistChild(fs.arena, sp, n, dp, m, id, u.nodes);
    fs.chains := u.chains;
    assert fs.T() == u;
  }

  /** The cache's part of `rename`. `base` is the tree that the session step starts from: the old
      nodes, and possibly an id that the lookup in between has used up. */
  method MoveInCache(fs: OverlayInner, sp: NodeId, n: Name, dp: NodeId, m: Name, faults: seq<Fault>) returns (ghost base: Tree)
    requires fs.Valid() && RenameAllowed(fs.T(), sp, n, dp, m) && !IsWh(m) && |faults| == |fs.disk.layers|
    modifies fs`chains, fs.arena
    ensures SameNodes(old(fs.T()), base) && RenameAllowed(base, sp, n, dp, m)
    ensures fs.Valid() && fs.T() == RenameTree(base, sp, n, dp, m)
  {
    hide RenameTree;
    hide TargetDropped;
    hide SameNodes;
    hide Relisted;
    ghost var t := fs.T();
    assert EntryOk(t, sp, n);
    var id := fs.arena.nodes[sp].Children()[n];
    base := DropInCache(fs, sp, n, dp, m, faults);
    CacheAfterMove(t, base, fs.arena.nodes, sp, n, dp, m, id);
    FinishInCache(fs, sp, n, dp, m, id, RenameTree(base, sp, n, dp, m));
  }

  lemma RenameKeepsIds(t: Tree, sp: NodeId, n: Name, dp: NodeId, m: Name)
    requires TreeOk(t) && RenameAllowed(t, sp, n, dp, m)
    ensures RenameTree(t, sp, n, dp, m).nextId == t.nextId && RenameTree(t, sp, n, dp, m).root == t.root
  {
    ReplaceTargetOk(t, sp, n, dp, m);
  }

  // ---- The disk ----

  predicate HoldsNoDir(up: Layer, q: Path) {
    forall x :: x in Listed(up, q) ==> !up[q + [x]].Dir?
  }

  /** `empty_upper_dir`: what can be removed from the directory is removed. */
  method EmptyUpperDir(disk: Disk, q: Path)
    requires disk.Valid()
    modifies disk`layers, disk`history, disk`refusals
    ensures disk.Valid() && disk.layers == WithUpper(old(disk.layers), disk.layers[0])
    ensures OnlyInsideGone(old(disk.layers[0]), disk.layers[0], q)
    ensures old(disk.refusals) <= disk.refusals
    ensures disk.refusals == old(disk.refusals) && HoldsNoDir(old(disk.layers[0]), q) ==> Listed(disk.layers[0], q) == {}
  {
    var todo := Listed(disk.layers[0], q);
    while todo != {}
      invariant disk.Valid() && disk.layers == WithUpper(old(disk.layers), disk.layers[0])
      invariant OnlyInsideGone(old(disk.layers[0]), disk.layers[0], q)
      invariant old(disk.refusals) <= disk.refusals
      invariant disk.refusals == old(disk.refusals) && HoldsNoDir(old(disk.layers[0]), q) ==> Listed(disk.layers[0], q) <= todo
      decreases |todo|
    {
      var x :| x in todo;
      todo := todo - {x};
      var entry := disk.Stat(0, q + [x]);
      if entry.Some? && entry.value.Dir? {
        var _ := disk.Rmdir(q + [x]);
      } else {
        var _ := disk.Unlink(q + [x]);
      }
    }
  }

  /** Whatever is below the path on the upper layer only hides something. */
  ghost predicate OnlyHidersBelow(up: Layer, q: Path) {
    forall p :: p in up && q <= p && p != q ==> IsHider(up, p)
  }

  lemma ClearedAreHiders(up: Layer, inside: Layer, cleared: Layer, dst: Path)
    requires dst != [] && OnlyInsideGone(up, inside, dst) && OnlyWhiteoutsGone(inside, cleared, dst)
    requires inside == up || OnlyHidersBelow(up, dst)
    ensures Cleared(up, cleared, dst) && OnlyHidersGone(up, cleared, dst)
    ensures dst in up && up[dst] != Whiteout ==> dst in cleared && cleared[dst] == up[dst]
  {
    MarkerNotBelow(dst);
    WhiteoutsAreHiders(inside, cleared, dst);
  }

  /** The calls of `rename` on the disk before the rename itself: the destination is emptied if it is
      a directory, and for a directory its whiteouts are deleted. */
  method ClearTheWay(disk: Disk, dst: Path, isDir: bool, clear: bool, devices: bool)
    requires disk.Valid() && dst != [] && (clear ==> OnlyHidersBelow(disk.layers[0], dst))
    modifies disk`layers, disk`history, disk`refusals
    ensures disk.Valid() && disk.layers == WithUpper(old(disk.layers), disk.layers[0])
    ensures Cleared(old(disk.layers[0]), disk.layers[0], dst) && OnlyHidersGone(old(disk.layers[0]), disk.layers[0], dst)
    ensures dst in old(disk.layers[0]) && old(disk.layers[0])[dst] != Whiteout ==>
              dst in disk.layers[0] && disk.layers[0][dst] == old(disk.layers[0])[dst]
    ensures old(disk.refusals) <= disk.refusals
    ensures isDir && disk.refusals == old(disk.refusals) && PlainMarker(old(disk.layers[0]), dst) ==> MarkerOf(dst) !in disk.layers[0]
    ensures disk.refusals == old(disk.refusals) && isDir && clear && HoldsNoDir(old(disk.layers[0]), dst) ==> Listed(disk.layers[0], dst) == {}
    ensures disk.refusals == old(disk.refusals) && isDir && devices && dst in old(disk.layers[0]) && old(disk.layers[0])[dst] == Whiteout ==>
              dst !in disk.layers[0]
    ensures !devices && dst in old(disk.layers[0]) ==> dst in disk.layers[0] && disk.layers[0][dst] == old(disk.layers[0])[dst]
    ensures !isDir ==> (MarkerOf(dst) in disk.layers[0] <==> MarkerOf(dst) in old(disk.layers[0]))
  {
    ghost var up := disk.layers[0];
    MarkerNotBelow(dst);
    if clear {
      EmptyUpperDir(disk, dst);
    }
    ghost var inside := disk.layers[0];
    if isDir {
      var _ := DeleteWhiteout(disk, dst, devices);
    }
    ClearedAreHiders(up, inside, disk.layers[0], dst);
  }

  /** Where the calls of `rename` can put an entry: nothing is there; or a device, which a directory needs
      deleted; or something of the same kind, which for a directory can be emptied. */
  ghost predicate PlaceOpen(up: Layer, src: Path, dst: Path, isDir: bool, clear: bool, devices: bool) {
    && src in up && src != [] && dst != [] && !IsWh(Last(src)) && !(src <= dst) && !(dst <= src) && (up[src].Dir? <==> isDir)
    && ValidName(Last(dst)) && Parent(dst) in up && up[Parent(dst)].Dir?
    && (dst in up ==>
          if !isDir then !up[dst].Dir?
          else if up[dst] == Whiteout then devices
          else up[dst].Dir? && clear && HoldsNoDir(up, dst))
  }

  lemma OpenAfterClearing(up: Layer, cleared: Layer, src: Path, dst: Path, isDir: bool, clear: bool, devices: bool)
    requires PlaceOpen(up, src, dst, isDir, clear, devices) && Cleared(up, cleared, dst)
    requires dst in up && up[dst] != Whiteout ==> dst in cleared && cleared[dst] == up[dst]
    requires isDir && clear && HoldsNoDir(up, dst) ==> Listed(cleared, dst) == {}
    requires isDir && devices && dst in up && up[dst] == Whiteout ==> dst !in cleared
    ensures CanMove(cleared, src, dst)
  {
    WhNameInverse(Last(dst), Last(dst));
    assert Last(MarkerOf(dst)) == WhName(Last(dst)) && |MarkerOf(dst)| == |dst|;
    assert !(dst <= Parent(dst)) && Parent(dst) != MarkerOf(dst) && src != MarkerOf(dst);
    assert src in cleared && cleared[src] == up[src];
    assert Parent(dst) in cleared && cleared[Parent(dst)] == up[Parent(dst)];
  }

  /** The calls of `rename` on the disk. */
  method MoveOnDisk(disk: Disk, src: Path, dst: Path, isDir: bool, clear: bool, devices: bool) returns (ok: bool)
    requires disk.Valid() && src != [] && dst != [] && !IsWh(Last(src))
    requires src in disk.layers[0] && (disk.layers[0][src].Dir? <==> isDir)
    requires clear ==> OnlyHidersBelow(disk.layers[0], dst)
    modifies disk`layers, disk`history, disk`refusals
    ensures disk.Valid() && disk.layers == WithUpper(old(disk.layers), disk.layers[0])
    ensures !ok ==> OnlyHidersGone(old(disk.layers[0]), disk.layers[0], dst)
    ensures ok ==> !(src <= dst) && !(dst <= src)
    ensures ok ==> dst in old(disk.layers[0]) && old(disk.layers[0])[dst] != Whiteout ==> (old(disk.layers[0])[dst].Dir? <==> isDir)
    ensures ok && isDir && !devices && dst in old(disk.layers[0]) ==> old(disk.layers[0])[dst] != Whiteout
    ensures ok && (isDir ==> MarkerOf(dst) !in disk.layers[0]) ==>
              disk.layers == WithUpper(old(disk.layers), RenamedUpper(old(disk.layers[0]), Move(src, dst, isDir, Nothing)))
    ensures old(disk.refusals) <= disk.refusals
    ensures ok && isDir && disk.refusals == old(disk.refusals) && PlainMarker(old(disk.layers[0]), dst) ==> MarkerOf(dst) !in disk.layers[0]
    ensures disk.refusals == old(disk.refusals) && PlaceOpen(old(disk.layers[0]), src, dst, isDir, clear, devices) ==> ok
  {
    hide RenamedUpper;
    ghost var was := disk.layers;
    ClearTheWay(disk, dst, isDir, clear, devices);
    ghost var cleared := disk.layers[0];
    if disk.refusals == old(disk.refusals) && PlaceOpen(was[0], src, dst, isDir, clear, devices) {
      OpenAfterClearing(was[0], cleared, src, dst, isDir, clear, devices);
    }
    ok := disk.RenameWithin(src, dst);
    if ok {
      SourceUntouched(was[0], cleared, Move(src, dst, isDir, Nothing), src);
      MarkerAfterMove(cleared, src, dst);
      if isDir ==> MarkerOf(dst) !in disk.layers[0] {
        PlantedIsRenamed(was[0], cleared, Move(src, dst, isDir, Nothing));
      }
    }
  }

  /** The marker of the new name is not touched by the move itself. */
  lemma MarkerAfterMove(up: Layer, src: Path, dst: Path)
    requires src != [] && dst != [] && !(src <= dst) && !(dst <= src) && !IsWh(Last(src))
    ensures MarkerOf(dst) in Planted(WithoutSubtree(up, src), dst, Subtree(up, src)) <==> MarkerOf(dst) in up
  {
    MarkerNotBelow(dst);
    MarkerNextTo(dst, src);
    PlantedAt(WithoutSubtree(up, src), dst, Subtree(up, src), MarkerOf(dst));
  }

  /** The whiteout that a moved file leaves behind completes the move. */
  lemma CoverCompletes(up: Layer, moved: Layer, now: Layer, src: Path, dst: Path, cover: Cover)
    requires src != [] && dst != [] && !(src <= dst) && !(dst <= src) && !IsWh(Last(src)) && !IsWh(Last(dst))
    requires moved == RenamedUpper(up, Move(src, dst, false, Nothing)) && MarkerOf(src) !in up
    requires CoveredBy(moved, now, src, cover)
    ensures now == RenamedUpper(up, Move(src, dst, false, cover))
  {
    MarkerNextTo(src, dst);
    MarkerNotBelow(src);
    var places := set p | p in up && src <= p :: Shift(src, dst, p);
    assert src !in moved && MarkerOf(src) !in moved;
  }

  // ---- The operation ----

  /** The source of a rename that may go ahead. */
  ghost predicate SourceReady(s: State, sp: NodeId, n: Name, dp: NodeId, m: Name)
    requires TreeOk(s.t)
  {
    && Coherent(s) && sp in s.t.nodes && dp in s.t.nodes && s.t.nodes[dp].IsDir() && s.t.nodes[dp].layer == 0
    && n in s.t.nodes[sp].Children() && EntryOk(s.t, sp, n)
    && (var c := s.t.nodes[s.t.nodes[sp].Children()[n]]; c.layer == 0 && (c.IsDir() ==> c.last == 0))
    && Ordinary(m)
  }

  /** And its destination: a leaf, or a name that nothing has. */
  ghost predicate DestinationReady(s: State, dp: NodeId, m: Name)
    requires TreeOk(s.t) && dp in s.t.nodes
  {
    if m in s.t.nodes[dp].Children() then
      && EntryOk(s.t, dp, m)
      && var d := s.t.nodes[s.t.nodes[dp].Children()[m]]; d.Children() == map[] && (d.IsDir() ==> d.IsLoaded())
    else Resolved(s, dp, m)
  }

  /** Where the session's disk is the same, a node's layer and a directory's reach are too. */
  lemma SourceStaysReady(s: State, sp: NodeId, n: Name, dp: NodeId, m: Name, out: State)
    requires TreeOk(s.t) && SourceReady(s, sp, n, dp, m) && Unseen(s, out) && out.layers == s.layers
    ensures SourceReady(out, sp, n, dp, m)
  {
    var id := s.t.nodes[sp].Children()[n];
    assert NodeSteady(s.t, out.t, sp) && NodeSteady(s.t, out.t, dp) && NodeSteady(s.t, out.t, id);
    LayerFromDisk(s, id);
    LayerFromDisk(out, id);
    LayerFromDisk(s, dp);
    LayerFromDisk(out, dp);
    ChildShown(s, sp, n);
    ChildShown(out, sp, n);
  }

  /** A node is on layer 0 exactly if the upper layer has its path, and a directory reaches below
      exactly if a lower layer has it. */
  lemma LayerFromDisk(s: State, x: NodeId)
    requires Coherent(s) && x in s.t.nodes
    ensures s.t.nodes[x].layer == 0 <==> PathOf(s.t, x) in s.layers[0]
    ensures x != s.t.root && s.t.nodes[x].IsDir() ==> (s.t.nodes[x].last > 0 <==> InLower(s.layers, PathOf(s.t, x)))
  {
    assert NodeFine(s, x);
    assert LayerOk(s.layers[0]);
  }

  /** The three copy-ups of a rename. */
  method UpThree(fs: OverlayInner, id: NodeId, sp: NodeId, dp: NodeId) returns (ok: bool, ghost copied: seq<NodeId>)
    requires fs.Valid() && Coherent(fs.S()) && id in fs.arena.nodes && sp in fs.arena.nodes && dp in fs.arena.nodes
    modifies fs`wdCounter, fs.arena`nodes, fs.disk
    ensures fs.Valid() && WentUp(old(fs.S()), copied, fs.S()) && old(fs.disk.refusals) <= fs.disk.refusals
    ensures ok ==> id in fs.arena.nodes && fs.arena.nodes[id].layer == 0
    ensures ok ==> dp in fs.arena.nodes && fs.arena.nodes[dp].layer == 0
    ensures fs.disk.refusals == old(fs.disk.refusals) ==> ok
  {
    ghost var s := fs.S();
    ok, copied := fs.UpBoth(id, sp);
    if !ok {
      return;
    }
    ghost var mid, more := fs.S(), [];
    ok, more := fs.UpInSession(dp);
    WentUpTwice(s, copied, mid, more, fs.S());
    copied := copied + more;
  }

  lemma SourceIsReady(s: State, sp: NodeId, n: Name, dp: NodeId, m: Name, id: NodeId, copied: seq<NodeId>, out: State)
    requires Coherent(s) && Coherent(out) && sp in s.t.nodes && dp in s.t.nodes && s.t.nodes[dp].IsDir()
    requires s.t.nodes[sp].GetChild(n) == Some(id) && id in s.t.nodes && (s.t.nodes[id].IsDir() ==> s.t.nodes[id].last == 0)
    requires Ordinary(m) && OnlyLayersChange(s.t, copied, out.t)
    requires out.t.nodes[id].layer == 0 && out.t.nodes[dp].layer == 0
    ensures SourceReady(out, sp, n, dp, m)
  {
    assert EntryOk(out.t, sp, n);
  }

  /** What a rename can move: something that is shown, and no directory that reaches below. */
  ghost predicate SourceFit(layers: seq<Layer>, src: Path) {
    Fresh(layers, src).Some? && (Fresh(layers, src).value.isDir ==> !InLower(layers, src))
  }

  /** What a rename can replace: anything but a directory in which something is shown. */
  ghost predicate TargetFit(layers: seq<Layer>, dst: Path) {
    Fresh(layers, dst).Some? && Fresh(layers, dst).value.isDir ==> ShownEmpty(layers, dst)
  }

  /** Neither path is above the other, and an entry of the upper layer is replaced by one of its kind. */
  ghost predicate KindsFit(layers: seq<Layer>, src: Path, dst: Path) {
    && !(src <= dst) && !(dst <= src)
    && (Fresh(layers, src).Some? && Fresh(layers, dst).Some? && Fresh(layers, dst).value.layer == 0 ==>
          (Fresh(layers, src).value.isDir <==> Fresh(layers, dst).value.isDir))
  }

  ghost predicate CanRename(layers: seq<Layer>, src: Path, dst: Path) {
    SourceFit(layers, src) && TargetFit(layers, dst) && KindsFit(layers, src, dst)
  }

  /** The source as a coherent session has it. */
  lemma SourceFitIs(s: State, sp: NodeId, n: Name)
    requires Coherent(s) && sp in s.t.nodes && n in s.t.nodes[sp].Children() && EntryOk(s.t, sp, n)
    ensures var c := s.t.nodes[s.t.nodes[sp].Children()[n]];
            SourceFit(s.layers, PathOf(s.t, sp) + [n]) <==> (c.IsDir() ==> c.layer == 0 && c.last == 0)
  {
    var id := s.t.nodes[sp].Children()[n];
    ChildShown(s, sp, n);
    CoherentFresh(s, id);
    LayerFromDisk(s, id);
    if s.t.nodes[id].layer > 0 {
      assert NodeFine(s, id);
      InLowerAt(s.layers, PathOf(s.t, id), s.t.nodes[id].layer);
    }
  }

  /** Copy-ups change nothing about it. */
  lemma SourceFitKept(s: State, copied: seq<NodeId>, out: State, p: Path, n: Name)
    requires Coherent(s) && CopiedAlong(s, copied, out) && SameView(s.layers, out.layers)
    ensures SourceFit(out.layers, p + [n]) <==> SourceFit(s.layers, p + [n])
  {
    hide Fresh;
    hide Coherent;
    CopiedKeeps(s, copied, out, p, n);
    assert SameAt(s.layers, out.layers, p + [n]);
  }

  /** The lookup of the source, and the refusal of directories that reach below. */
  method FindSource(fs: OverlayInner, sp: NodeId, n: Name, faults: seq<Fault>) returns (r: Option<NodeId>)
    requires fs.Valid() && Coherent(fs.S()) && !IsWh(n)
    requires sp in fs.arena.nodes && fs.arena.nodes[sp].IsDir() && |faults| == |fs.disk.layers| && NoFaults(faults)
    modifies fs`chains, fs.arena
    ensures fs.Valid() && Unseen(old(fs.S()), fs.S())
    ensures r.Some? ==> sp in fs.arena.nodes && fs.arena.nodes[sp].GetChild(n) == r && r.value in fs.arena.nodes
    ensures r.Some? && fs.arena.nodes[r.value].IsDir() ==> fs.arena.nodes[r.value].last == 0
    ensures r.Some? <==> SourceFit(fs.disk.layers, PathOf(old(fs.T()), sp) + [n])
  {
    hide Fresh;
    hide SourceFit;
    ghost var s := fs.S();
    r := fs.LookupInSession(sp, n, faults);
    FoundIsShown(s, fs.S(), sp, n);
    if r.None? {
      SourceNotShown(fs.disk.layers, PathOf(s.t, sp) + [n]);
      return;
    }
    ghost var looked := fs.S();
    UnseenNode(s, looked, sp);
    ChildShown(looked, sp, n);
    SourceFitIs(looked, sp, n);
    if fs.arena.nodes[r.value].IsDir() {
      fs.ReloadInSession(r.value, faults);
      UnseenTransitive(s, looked, fs.S());
      assert NodeSteady(looked.t, fs.T(), sp) && NodeSteady(looked.t, fs.T(), r.value);
      ChildShown(fs.S(), sp, n);
      SourceFitIs(fs.S(), sp, n);
      if fs.arena.nodes[r.value].layer > 0 || fs.arena.nodes[r.value].last > 0 {
        r := None;
      }
    }
  }

  lemma SourceNotShown(layers: seq<Layer>, src: Path)
    requires Fresh(layers, src) == None
    ensures !SourceFit(layers, src)
  {}

  /** The source of a rename: found, fit to move, and copied up with both parents. */
  method PrepareSource(fs: OverlayInner, sp: NodeId, n: Name, dp: NodeId, m: Name, faults: seq<Fault>) returns (ok: bool)
    requires fs.Valid() && Coherent(fs.S()) && !IsWh(n) && Ordinary(m)
    requires sp in fs.arena.nodes && fs.arena.nodes[sp].IsDir() && dp in fs.arena.nodes && fs.arena.nodes[dp].IsDir()
    requires |faults| == |fs.disk.layers| && NoFaults(faults)
    modifies fs`chains, fs`wdCounter, fs.arena, fs.disk
    ensures fs.Valid() && Unseen(old(fs.S()), fs.S()) && |fs.disk.layers| == |faults|
    ensures old(fs.disk.refusals) <= fs.disk.refusals
    ensures ok ==> SourceReady(fs.S(), sp, n, dp, m) && SourceFit(fs.disk.layers, PathOf(old(fs.T()), sp) + [n])
    ensures fs.disk.refusals == old(fs.disk.refusals) && SourceFit(fs.disk.layers, PathOf(old(fs.T()), sp) + [n]) ==> ok
  {
    hide SourceFit;
    ghost var s := fs.S();
    var found := FindSource(fs, sp, n, faults);
    if found.None? {
      return false;
    }
    ghost var loaded, copied := fs.S(), [];
    assert NodeSteady(s.t, loaded.t, dp);
    ok, copied := UpThree(fs, found.value, sp, dp);
    UnseenTransitive(s, loaded, fs.S());
    if ok {
      SourceFitKept(loaded, copied, fs.S(), PathOf(s.t, sp), n);
      SourceIsReady(loaded, sp, n, dp, m, found.value, copied, fs.S());
    }
  }

  /** The name is that of a cached directory. */
  predicate IsDirThere(t: Tree, d: NodeId, m: Name) {
    d in t.nodes && m in t.nodes[d].Children() && t.nodes[d].Children()[m] in t.nodes && t.nodes[t.nodes[d].Children()[m]].IsDir()
  }

  /** The lookup of the destination, and the check that a directory there is empty. */
  method PrepareDestination(fs: OverlayInner, ghost sp: NodeId, ghost n: Name, dp: NodeId, m: Name, faults: seq<Fault>)
    returns (ok: bool, clear: bool)
    requires fs.Valid() && SourceReady(fs.S(), sp, n, dp, m) && |faults| == |fs.disk.layers| && NoFaults(faults)
    modifies fs`chains, fs.arena
    ensures fs.Valid() && Unseen(old(fs.S()), fs.S()) && SourceReady(fs.S(), sp, n, dp, m)
    ensures fs.disk.refusals == old(fs.disk.refusals)
    ensures ok ==> DestinationReady(fs.S(), dp, m)
    ensures ok ==> (clear <==> IsDirThere(fs.T(), dp, m))
    ensures ok <==> TargetFit(fs.disk.layers, PathOf(old(fs.T()), dp) + [m])
  {
    hide Fresh;
    hide ShownEmpty;
    ghost var s := fs.S();
    var found := fs.LookupInSession(dp, m, faults);
    FoundIsShown(s, fs.S(), dp, m);
    SourceStaysReady(s, sp, n, dp, m, fs.S());
    ok, clear := true, false;
    if found.Some? {
      ghost var looked := fs.S();
      UnseenNode(s, looked, dp);
      EntryAmongNodes(looked, dp, m);
      ChildShown(looked, dp, m);
      if fs.arena.nodes[found.value].IsDir() {
        ok := fs.IsEmptyDir(found.value, faults);
        clear := true;
        UnseenTransitive(s, looked, fs.S());
        UnseenNode(looked, fs.S(), found.value);
        EmptyIsShown(s, looked, fs.S(), found.value);
        SourceStaysReady(looked, sp, n, dp, m, fs.S());
        assert NodeSteady(looked.t, fs.T(), dp);
        ChildShown(fs.S(), dp, m);
      }
    }
  }

  /** What the move on disk says about the two nodes. */
  lemma MoveIsAllowed(s: State, sp: NodeId, n: Name, dp: NodeId, m: Name)
    requires TreeOk(s.t) && SourceReady(s, sp, n, dp, m) && DestinationReady(s, dp, m)
    requires var src, dst := PathOf(s.t, sp) + [n], PathOf(s.t, dp) + [m]; !(src <= dst) && !(dst <= src)
    requires var dst, c := PathOf(s.t, dp) + [m], s.t.nodes[s.t.nodes[sp].Children()[n]];
             dst in s.layers[0] && s.layers[0][dst] != Whiteout ==> (s.layers[0][dst].Dir? <==> c.IsDir())
    ensures RenameAllowed(s.t, sp, n, dp, m)
    ensures Replaceable(s, dp, m, s.t.nodes[s.t.nodes[sp].Children()[n]].IsDir())
  {
    hide Coherent;
    hide NodeOn;
    hide NodeFine;
    hide Resolved;
    SourceParts(s, sp, n, dp, m);
    var c := s.t.nodes[sp].Children()[n];
    ChildShown(s, sp, n);
    PathBelow(s, c, dp);
    PrefixOfSnoc(PathOf(s.t, sp) + [n], PathOf(s.t, dp), m);
    if m in s.t.nodes[dp].Children() {
      var d := s.t.nodes[dp].Children()[m];
      ChildShown(s, dp, m);
      PathBelow(s, d, c);
      if s.t.nodes[d].layer == 0 {
        UpperKindAt(s.layers, PathOf(s.t, d), s.t.nodes[d]);
      }
    }
  }

  lemma UpperKindAt(layers: seq<Layer>, q: Path, node: Node)
    requires layers != [] && NodeOn(layers, q, node) && node.layer == 0
    ensures q in layers[0] && layers[0][q] != Whiteout && (layers[0][q].Dir? <==> node.IsDir())
  {}

  /** A rename that was done: a step of the session, with the old name covered where that was called
      for, or with the whiteout missing that could not be made. */
  ghost predicate Moved(s: State, sp: NodeId, n: Name, dp: NodeId, m: Name, cover: Cover, out: State) {
    Renames(s, sp, n, dp, m, cover, out) || (cover == Nothing && RenamesUncovered(s, sp, n, dp, m, out))
  }

  lemma SameNodesReady(s: State, base: Tree, sp: NodeId, n: Name, dp: NodeId, m: Name, isDir: bool)
    requires Coherent(s) && SameNodes(s.t, base) && RenameAllowed(base, sp, n, dp, m) && Replaceable(s, dp, m, isDir)
    ensures PathOf(base, sp) == PathOf(s.t, sp) && PathOf(base, dp) == PathOf(s.t, dp)
    ensures Replaceable(State(base, s.layers), dp, m, isDir)
  {
    SameNodesSamePath(s.t, base, sp);
    SameNodesSamePath(s.t, base, dp);
    assert m in s.t.nodes[dp].Children() ==> EntryOk(base, dp, m);
  }

  /** The move on disk and the move in the cache are together a rename of the session. */
  lemma MoveIsRename(s: State, base: Tree, sp: NodeId, n: Name, dp: NodeId, m: Name, cover: Cover, out: State)
    requires TreeOk(s.t) && SourceReady(s, sp, n, dp, m) && SameNodes(s.t, base) && RenameAllowed(base, sp, n, dp, m)
    requires Replaceable(s, dp, m, s.t.nodes[s.t.nodes[sp].Children()[n]].IsDir())
    requires cover != Nothing ==> s.t.nodes[s.t.nodes[sp].Children()[n]].last > 0
    requires var c := s.t.nodes[s.t.nodes[sp].Children()[n]];
             out == State(RenameTree(base, sp, n, dp, m),
                          WithUpper(s.layers, RenamedUpper(s.layers[0], Move(PathOf(s.t, sp) + [n], PathOf(s.t, dp) + [m], c.IsDir(), cover))))
    ensures Moved(State(base, s.layers), sp, n, dp, m, cover, out)
  {
    hide RenameTree;
    hide RenamedUpper;
    hide Coherent;
    hide Replaceable;
    SameNodesReady(s, base, sp, n, dp, m, s.t.nodes[s.t.nodes[sp].Children()[n]].IsDir());
    CoherentParts(s);
  }

  /** With a marker of the new name on the upper layer the moved entry is hidden; without, the
      session is coherent if the rename fits, and only then. */
  lemma MovedCoherent(s: State, sp: NodeId, n: Name, dp: NodeId, m: Name, cover: Cover, out: State)
    requires Coherent(s) && RenameAllowed(s.t, sp, n, dp, m) && out.layers != []
    requires out.t == RenameTree(s.t, sp, n, dp, m)
    requires Ordinary(m) && Replaceable(s, dp, m, s.t.nodes[s.t.nodes[sp].Children()[n]].IsDir())
    requires PathOf(s.t, dp) + [WhName(m)] !in out.layers[0] ==> Moved(s, sp, n, dp, m, cover, out)
    ensures Coherent(out) <==> PathOf(s.t, dp) + [WhName(m)] !in out.layers[0] && RenameFits(s, sp, n, dp, m)
  {
    hide RenameTree;
    hide RenamedUpper;
    hide Coherent;
    CoherentParts(s);
    if PathOf(s.t, dp) + [WhName(m)] !in out.layers[0] {
      MarkerStaysForFile(s, sp, n, dp, m, cover, out);
      if Renames(s, sp, n, dp, m, cover, out) {
        RenameIsCoherentIff(s, sp, n, dp, m, cover, out);
      } else {
        UncoveredIsCoherentIff(s, sp, n, dp, m, out);
      }
    } else {
      NewNameListed(s, sp, n, dp, m);
      MarkedChildIsHidden(out, dp, m);
    }
  }

  /** The marker of a file's new name is there after the move if it was before. */
  lemma MarkerStaysForFile(s: State, sp: NodeId, n: Name, dp: NodeId, m: Name, cover: Cover, out: State)
    requires Coherent(s) && Moved(s, sp, n, dp, m, cover, out) && Ordinary(m)
    requires PathOf(s.t, dp) + [WhName(m)] !in out.layers[0]
    ensures NoStaleMarker(s, sp, n, dp, m)
  {
    hide RenameTree;
    hide RenamedUpper;
    hide Coherent;
    CoherentParts(s);
    MovedUpperIs(s, sp, n, dp, m, cover, out);
    hide Moved;
    var mv := MoveOf(s.t, sp, n, dp, m, cover);
    ChildShown(s, sp, n);
    InMergeIsOrdinary(s.layers, PathOf(s.t, sp), n);
    SourceNotAboveTarget(s, sp, n, dp, m);
    assert Last(mv.src) == n && Last(mv.dst) == m && Parent(mv.dst) == PathOf(s.t, dp);
    assert MarkerOf(mv.dst) == PathOf(s.t, dp) + [WhName(m)];
    StaleMarkerStays(s.layers[0], mv);
  }

  lemma MovedUpperIs(s: State, sp: NodeId, n: Name, dp: NodeId, m: Name, cover: Cover, out: State)
    requires Moved(s, sp, n, dp, m, cover, out)
    ensures TreeOk(s.t) && RenameAllowed(s.t, sp, n, dp, m) && s.layers != []
    ensures out.layers == WithUpper(s.layers, RenamedUpper(s.layers[0], MoveOf(s.t, sp, n, dp, m, cover)))
  {
    hide RenameTree;
    hide RenamedUpper;
  }

  /** In the tree after the move, the new name is listed in its directory, whose path is as before. */
  lemma NewNameListed(s: State, sp: NodeId, n: Name, dp: NodeId, m: Name)
    requires Coherent(s) && RenameAllowed(s.t, sp, n, dp, m)
    requires Replaceable(s, dp, m, s.t.nodes[s.t.nodes[sp].Children()[n]].IsDir())
    ensures var u := RenameTree(s.t, sp, n, dp, m);
            TreeOk(u) && dp in u.nodes && m in u.nodes[dp].Children() && PathOf(u, dp) == PathOf(s.t, dp)
  {
    hide RenameTree;
    hide Coherent;
    CoherentParts(s);
    var c, u := s.t.nodes[sp].Children()[n], RenameTree(s.t, sp, n, dp, m);
    RenameTreeOk(s.t, sp, n, dp, m);
    TargetApartIf(s, sp, n, dp, m);
    RenameNodes(s.t, sp, n, dp, m, dp);
    assert c != dp by { assert ChainOk(s.t.chains, dp); }
    RenameAddsEntry(s.t, dp, sp, n, m, c);
    CoherentListed(s);
    RenamedPathOf(s, sp, n, dp, m, Nothing, u, dp);
  }

  lemma SourceOnDisk(s: State, sp: NodeId, n: Name, dp: NodeId, m: Name)
    requires TreeOk(s.t) && SourceReady(s, sp, n, dp, m)
    ensures var src, c := PathOf(s.t, sp) + [n], s.t.nodes[s.t.nodes[sp].Children()[n]];
            && Last(src) == n && Ordinary(n) && src in s.layers[0] && (s.layers[0][src].Dir? <==> c.IsDir())
            && MarkerOf(src) !in s.layers[0] && (c.IsDir() ==> c.last == 0)
  {
    ChildShown(s, sp, n);
    InMergeIsOrdinary(s.layers, PathOf(s.t, sp), n);
    assert Last(PathOf(s.t, sp) + [n]) == n;
    assert UpperEntry(s.layers[0], PathOf(s.t, sp) + [n]);
  }

  /** After a file has moved there is room for either whiteout at its old name. */
  lemma RoomForCover(up: Layer, src: Path, dst: Path)
    requires LayerOk(up) && src in up && src != [] && dst != [] && !(src <= dst) && !(dst <= src)
    requires !IsWh(Last(src)) && !IsWh(Last(dst)) && MarkerOf(src) !in up
    ensures var moved := RenamedUpper(up, Move(src, dst, false, Nothing)); HasRoom(moved, src) && MarkerOf(src) !in moved
    ensures MarkerOf(src) != MarkerOf(dst) && MarkerOf(dst) != src
  {
    assert EntryPlaced(up, src);
    MarkerNextTo(src, dst);
    MarkerNotBelow(src);
    PrefixOfParent(dst, src);
    MarkersDiffer(src, dst);
    MarkersDiffer(dst, src);
  }

  /** After the move on disk: the whiteout of a file that reached below. That it could not be made is
      not noticed. If no call is refused, it is made. */
  method CoverOldName(disk: Disk, ghost was: seq<Layer>, src: Path, ghost dst: Path, isDir: bool, last: nat, canMknod: bool)
    returns (ghost cover: Cover, unsupported: bool)
    requires disk.Valid() && LayersOk(was) && src != [] && dst != [] && !(src <= dst) && !(dst <= src)
    requires !IsWh(Last(src)) && !IsWh(Last(dst)) && src in was[0] && MarkerOf(src) !in was[0] && (isDir ==> last == 0)
    requires (isDir ==> MarkerOf(dst) !in disk.layers[0]) ==>
               disk.layers == WithUpper(was, RenamedUpper(was[0], Move(src, dst, isDir, Nothing)))
    modifies disk`layers, disk`history, disk`refusals
    ensures disk.Valid() && disk.layers != [] && old(disk.refusals) <= disk.refusals
    ensures cover != Nothing ==> last > 0
    ensures (isDir ==> MarkerOf(dst) !in disk.layers[0]) ==>
              disk.layers == WithUpper(was, RenamedUpper(was[0], Move(src, dst, isDir, cover)))
    ensures isDir ==> disk.layers == old(disk.layers)
    ensures disk.refusals == old(disk.refusals) && last > 0 ==> cover != Nothing
  {
    hide RenamedUpper;
    cover, unsupported := Nothing, false;
    if last == 0 {
      return;
    }
    ghost var moved := disk.layers[0];
    RoomForCover(was[0], src, dst);
    var covered, form;
    covered, form, unsupported := CreateWhiteout(disk, src, canMknod);
    if covered {
      cover := form;
      CoverCompletes(was[0], moved, disk.layers[0], src, dst, form);
    }
  }

  /** The paths that a rename is about. */
  method RenamePaths(fs: OverlayInner, sp: NodeId, n: Name, dp: NodeId, m: Name) returns (src: Path, dst: Path)
    requires fs.Valid() && SourceReady(fs.S(), sp, n, dp, m)
    ensures src == PathOf(fs.T(), sp) + [n] && dst == PathOf(fs.T(), dp) + [m] && Last(src) == n && Last(dst) == m
    ensures MarkerOf(dst) == PathOf(fs.T(), dp) + [WhName(m)]
    ensures !IsWh(n) && !IsWh(m) && src in fs.disk.layers[0] && MarkerOf(src) !in fs.disk.layers[0]
    ensures fs.disk.layers[0][src].Dir? <==> fs.arena.nodes[fs.arena.nodes[sp].Children()[n]].IsDir()
    ensures PlainMarker(fs.disk.layers[0], dst)
  {
    SourceOnDisk(fs.S(), sp, n, dp, m);
    var from := CollectPath(fs.arena.nodes, sp, fs.T());
    var to := CollectPath(fs.arena.nodes, dp, fs.T());
    src, dst := from + [n], to + [m];
    assert Parent(dst) == to;
    MarkerHoldsNothing(fs.disk.layers, dst);
  }

  /** Only a directory that shows nothing is emptied. */
  lemma MayBeCleared(s: State, dp: NodeId, m: Name)
    requires Coherent(s) && dp in s.t.nodes && DestinationReady(s, dp, m) && IsDirThere(s.t, dp, m)
    ensures OnlyHidersBelow(s.layers[0], PathOf(s.t, dp) + [m])
  {
    var d := s.t.nodes[dp].Children()[m];
    ChildShown(s, dp, m);
    forall p | p in s.layers[0] && PathOf(s.t, d) <= p && p != PathOf(s.t, d)
      ensures IsHider(s.layers[0], p)
    {
      EmptyDirHidesAll(s, d, p);
    }
  }

  /** What a rename leaves when all its steps were taken, up to the whiteouts of the two names. */
  ghost predicate MoveDone(s: State, base: Tree, sp: NodeId, n: Name, dp: NodeId, m: Name, cover: Cover, out: State)
    requires TreeOk(s.t) && sp in s.t.nodes && n in s.t.nodes[sp].Children() && EntryOk(s.t, sp, n)
  {
    && SameNodes(s.t, base) && RenameAllowed(base, sp, n, dp, m) && out.t == RenameTree(base, sp, n, dp, m) && out.layers != []
    && var c := s.t.nodes[s.t.nodes[sp].Children()[n]];
       && Replaceable(s, dp, m, c.IsDir()) && (cover != Nothing ==> c.last > 0)
       && ((c.IsDir() ==> PathOf(s.t, dp) + [WhName(m)] !in out.layers[0]) ==> Moved(State(base, s.layers), sp, n, dp, m, cover, out))
  }

  /** No whiteout that a rename has to make or to delete was left out. */
  ghost predicate AllWhiteouts(s: State, sp: NodeId, n: Name, dp: NodeId, m: Name, cover: Cover, out: State)
    requires TreeOk(s.t) && sp in s.t.nodes && n in s.t.nodes[sp].Children() && EntryOk(s.t, sp, n) && out.layers != []
  {
    var c := s.t.nodes[s.t.nodes[sp].Children()[n]];
    (c.last > 0 ==> cover != Nothing) && (c.IsDir() ==> PathOf(s.t, dp) + [WhName(m)] !in out.layers[0])
  }

  /** What the move on disk has left, for the rest of a rename. */
  ghost predicate MovedOnDisk(s: State, sp: NodeId, n: Name, dp: NodeId, m: Name, layers: seq<Layer>)
    requires TreeOk(s.t) && sp in s.t.nodes && n in s.t.nodes[sp].Children() && EntryOk(s.t, sp, n) && LayersOk(s.layers)
  {
    var src, dst, c := PathOf(s.t, sp) + [n], PathOf(s.t, dp) + [m], s.t.nodes[s.t.nodes[sp].Children()[n]];
    && RenameAllowed(s.t, sp, n, dp, m) && Replaceable(s, dp, m, c.IsDir())
    && src in s.layers[0] && MarkerOf(src) !in s.layers[0] && !(src <= dst) && !(dst <= src) && !IsWh(n) && !IsWh(m)
    && (c.IsDir() ==> c.last == 0) && |layers| == |s.layers| && layers != []
    && ((c.IsDir() ==> MarkerOf(dst) !in layers[0]) ==>
          layers == WithUpper(s.layers, RenamedUpper(s.layers[0], Move(src, dst, c.IsDir(), Nothing))))
  }

  /** The move on disk. */
  method MoveFiles(fs: OverlayInner, sp: NodeId, n: Name, dp: NodeId, m: Name, isDir: bool, clear: bool) returns (ok: bool, src: Path)
    requires fs.Valid() && SourceReady(fs.S(), sp, n, dp, m) && DestinationReady(fs.S(), dp, m)
    requires isDir == fs.arena.nodes[fs.arena.nodes[sp].Children()[n]].IsDir()
    requires clear ==> OnlyHidersBelow(fs.disk.layers[0], PathOf(fs.T(), dp) + [m])
    requires clear <==> IsDirThere(fs.T(), dp, m)
    modifies fs.disk`layers, fs.disk`history, fs.disk`refusals
    ensures fs.Valid() && old(fs.disk.refusals) <= fs.disk.refusals && src == PathOf(fs.T(), sp) + [n]
    ensures !ok ==> Clears(old(fs.S()), PathOf(fs.T(), dp) + [m], fs.S())
    ensures ok ==> MovedOnDisk(old(fs.S()), sp, n, dp, m, fs.disk.layers)
    ensures ok && fs.disk.refusals == old(fs.disk.refusals) && isDir ==> PathOf(fs.T(), dp) + [WhName(m)] !in fs.disk.layers[0]
    ensures ok ==> KindsFit(old(fs.disk.layers), PathOf(fs.T(), sp) + [n], PathOf(fs.T(), dp) + [m])
    ensures ok && !fs.devices ==> !DeviceInTheWay(old(fs.disk.layers), PathOf(fs.T(), sp) + [n], PathOf(fs.T(), dp) + [m])
    ensures KindsFit(old(fs.disk.layers), PathOf(fs.T(), sp) + [n], PathOf(fs.T(), dp) + [m]) && fs.disk.refusals == old(fs.disk.refusals) ==>
              fs.devices || !DeviceInTheWay(old(fs.disk.layers), PathOf(fs.T(), sp) + [n], PathOf(fs.T(), dp) + [m]) ==> ok
  {
    hide RenamedUpper;
    hide SourceReady;
    hide DestinationReady;
    hide OnlyHidersGone;
    hide Replaceable;
    hide RenameAllowed;
    hide Coherent;
    hide KindsFit;
    hide PlaceOpen;
    hide TreeOk;
    ghost var s := fs.S();
    SourceParts(s, sp, n, dp, m);
    var dst;
    src, dst := RenamePaths(fs, sp, n, dp, m);
    SourceKind(s, sp, n, dp, m);
    if KindsFit(s.layers, src, dst) && (fs.devices || !DeviceInTheWay(s.layers, src, dst)) {
      OpenForMove(s, sp, n, dp, m, clear, fs.devices);
    }
    ok := MoveOnDisk(fs.disk, src, dst, isDir, clear, fs.devices);
    if ok {
      MoveIsAllowed(s, sp, n, dp, m);
      MovedKinds(s, sp, n, dp, m);
    }
  }

  /** A directory is to be moved onto a device 0/0. */
  ghost predicate DeviceInTheWay(layers: seq<Layer>, src: Path, dst: Path) {
    && layers != [] && dst in layers[0] && layers[0][dst] == Whiteout
    && Fresh(layers, src).Some? && Fresh(layers, src).value.isDir
  }

  lemma SourceKind(s: State, sp: NodeId, n: Name, dp: NodeId, m: Name)
    requires TreeOk(s.t) && SourceReady(s, sp, n, dp, m)
    ensures var f, c := Fresh(s.layers, PathOf(s.t, sp) + [n]), s.t.nodes[sp].Children()[n];
            f.Some? && (f.value.isDir <==> s.t.nodes[c].IsDir())
  {
    SourceParts(s, sp, n, dp, m);
    ChildShown(s, sp, n);
    CoherentFresh(s, s.t.nodes[sp].Children()[n]);
  }

  /** Where the kinds fit, nothing but a refusal keeps the entry from its new place. */
  lemma OpenForMove(s: State, sp: NodeId, n: Name, dp: NodeId, m: Name, clear: bool, devices: bool)
    requires TreeOk(s.t) && SourceReady(s, sp, n, dp, m) && DestinationReady(s, dp, m) && (clear <==> IsDirThere(s.t, dp, m))
    requires KindsFit(s.layers, PathOf(s.t, sp) + [n], PathOf(s.t, dp) + [m])
    requires devices || !DeviceInTheWay(s.layers, PathOf(s.t, sp) + [n], PathOf(s.t, dp) + [m])
    ensures PlaceOpen(s.layers[0], PathOf(s.t, sp) + [n], PathOf(s.t, dp) + [m], s.t.nodes[s.t.nodes[sp].Children()[n]].IsDir(), clear, devices)
  {
    hide Coherent;
    hide Resolved;
    hide Fresh;
    var src, dst, c := PathOf(s.t, sp) + [n], PathOf(s.t, dp) + [m], s.t.nodes[sp].Children()[n];
    SourceParts(s, sp, n, dp, m);
    SourceOnDisk(s, sp, n, dp, m);
    NewPath(PathOf(s.t, dp), m);
    DirOnUpper(s, dp);
    ChildShown(s, sp, n);
    CoherentFresh(s, c);
    TargetGivesWay(s, dp, m, s.t.nodes[c].IsDir(), clear);
  }

  lemma TargetGivesWay(s: State, dp: NodeId, m: Name, isDir: bool, clear: bool)
    requires Coherent(s) && dp in s.t.nodes && s.t.nodes[dp].IsDir() && s.t.nodes[dp].layer == 0 && Ordinary(m)
    requires DestinationReady(s, dp, m) && (clear <==> IsDirThere(s.t, dp, m))
    requires var f := Fresh(s.layers, PathOf(s.t, dp) + [m]); f.Some? && f.value.layer == 0 ==> (f.value.isDir <==> isDir)
    ensures var dst, up := PathOf(s.t, dp) + [m], s.layers[0];
            dst in up ==>
              if !isDir then !up[dst].Dir?
              else if up[dst] == Whiteout then true
              else up[dst].Dir? && clear && HoldsNoDir(up, dst)
  {
    hide Coherent;
    hide Resolved;
    hide Fresh;
    hide NodeFine;
    hide NodeOn;
    CoherentParts(s);
    var dst := PathOf(s.t, dp) + [m];
    if m in s.t.nodes[dp].Children() {
      var d := s.t.nodes[dp].Children()[m];
      ChildShown(s, dp, m);
      CoherentFresh(s, d);
      ShownOnUpper(s.layers, dst, s.t.nodes[d]);
      if dst in s.layers[0] && s.t.nodes[d].IsDir() {
        HoldsOnlyHiders(s, d);
      }
    } else {
      CreationIsFree(s, dp, m);
    }
  }

  lemma ShownOnUpper(layers: seq<Layer>, q: Path, node: Node)
    requires layers != [] && NodeOn(layers, q, node)
    ensures q in layers[0] ==> node.layer == 0 && layers[0][q] != Whiteout && (layers[0][q].Dir? <==> node.IsDir())
  {}

  lemma HoldsOnlyHiders(s: State, d: NodeId)
    requires Coherent(s) && d in s.t.nodes && s.t.nodes[d].IsLoaded() && s.t.nodes[d].Children() == map[]
    ensures HoldsNoDir(s.layers[0], PathOf(s.t, d))
  {
    var q := PathOf(s.t, d);
    forall x | x in Listed(s.layers[0], q)
      ensures !s.layers[0][q + [x]].Dir?
    {
      EmptyDirHidesAll(s, d, q + [x]);
      assert UpperEntry(s.layers[0], q + [x]);
    }
  }

  /** What was moved fitted. */
  lemma MovedKinds(s: State, sp: NodeId, n: Name, dp: NodeId, m: Name)
    requires TreeOk(s.t) && SourceReady(s, sp, n, dp, m) && Replaceable(s, dp, m, s.t.nodes[s.t.nodes[sp].Children()[n]].IsDir())
    requires var src, dst := PathOf(s.t, sp) + [n], PathOf(s.t, dp) + [m]; !(src <= dst) && !(dst <= src)
    ensures KindsFit(s.layers, PathOf(s.t, sp) + [n], PathOf(s.t, dp) + [m])
  {
    hide Coherent;
    hide Resolved;
    hide Fresh;
    SourceParts(s, sp, n, dp, m);
    ChildShown(s, sp, n);
    CoherentFresh(s, s.t.nodes[sp].Children()[n]);
    if m in s.t.nodes[dp].Children() {
      ChildShown(s, dp, m);
      CoherentFresh(s, s.t.nodes[dp].Children()[m]);
    } else {
      ResolvedIsNotShown(s, dp, m);
    }
  }

  /** The cover, and with it the rename is done. */
  method CoverMoved(disk: Disk, ghost s: State, ghost base: Tree, ghost sp: NodeId, ghost n: Name, ghost dp: NodeId, ghost m: Name,
                    src: Path, isDir: bool, last: nat, canMknod: bool)
    returns (ghost cover: Cover, unsupported: bool)
    requires disk.Valid() && TreeOk(s.t) && SourceReady(s, sp, n, dp, m) && MovedOnDisk(s, sp, n, dp, m, disk.layers)
    requires src == PathOf(s.t, sp) + [n] && SameNodes(s.t, base) && RenameAllowed(base, sp, n, dp, m)
    requires var c := s.t.nodes[s.t.nodes[sp].Children()[n]]; c.IsDir() == isDir && c.last == last
    modifies disk`layers, disk`history, disk`refusals
    ensures disk.Valid() && old(disk.refusals) <= disk.refusals
    ensures MoveDone(s, base, sp, n, dp, m, cover, State(RenameTree(base, sp, n, dp, m), disk.layers))
    ensures isDir ==> disk.layers == old(disk.layers)
    ensures disk.refusals == old(disk.refusals) && last > 0 ==> cover != Nothing
  {
    hide RenameTree;
    hide RenamedUpper;
    hide SourceReady;
    hide SameNodes;
    hide RenameAllowed;
    hide MoveDone;
    hide MovedOnDisk;
    hide TreeOk;
    SourceParts(s, sp, n, dp, m);
    ghost var dst := PathOf(s.t, dp) + [m];
    MovedParts(s, sp, n, dp, m, disk.layers);
    ghost var before := disk.layers;
    cover, unsupported := CoverOldName(disk, s.layers, src, dst, isDir, last, canMknod);
    MoveIsDone(s, base, sp, n, dp, m, cover, before, disk.layers);
  }

  /** What the move on disk gives to the cover. */
  lemma MovedParts(s: State, sp: NodeId, n: Name, dp: NodeId, m: Name, layers: seq<Layer>)
    requires TreeOk(s.t) && sp in s.t.nodes && n in s.t.nodes[sp].Children() && EntryOk(s.t, sp, n) && LayersOk(s.layers)
    requires MovedOnDisk(s, sp, n, dp, m, layers)
    ensures var src, dst, c := PathOf(s.t, sp) + [n], PathOf(s.t, dp) + [m], s.t.nodes[s.t.nodes[sp].Children()[n]];
            && src != [] && dst != [] && !(src <= dst) && !(dst <= src) && !IsWh(Last(src)) && !IsWh(Last(dst))
            && src in s.layers[0] && MarkerOf(src) !in s.layers[0] && (c.IsDir() ==> c.last == 0) && layers != []
            && RenameAllowed(s.t, sp, n, dp, m) && !IsWh(m) && |layers| == |s.layers|
            && ((c.IsDir() ==> MarkerOf(dst) !in layers[0]) ==>
                  layers == WithUpper(s.layers, RenamedUpper(s.layers[0], Move(src, dst, c.IsDir(), Nothing))))
  {
    hide RenamedUpper;
    NewPath(PathOf(s.t, sp), n);
    NewPath(PathOf(s.t, dp), m);
  }

  lemma MoveIsDone(s: State, base: Tree, sp: NodeId, n: Name, dp: NodeId, m: Name, cover: Cover, moved: seq<Layer>, layers: seq<Layer>)
    requires TreeOk(s.t) && SourceReady(s, sp, n, dp, m) && LayersOk(s.layers) && MovedOnDisk(s, sp, n, dp, m, moved)
    requires SameNodes(s.t, base) && RenameAllowed(base, sp, n, dp, m) && layers != []
    requires cover != Nothing ==> s.t.nodes[s.t.nodes[sp].Children()[n]].last > 0
    requires var src, dst, c := PathOf(s.t, sp) + [n], PathOf(s.t, dp) + [m], s.t.nodes[s.t.nodes[sp].Children()[n]];
             (c.IsDir() ==> MarkerOf(dst) !in layers[0]) ==>
               layers == WithUpper(s.layers, RenamedUpper(s.layers[0], Move(src, dst, c.IsDir(), cover)))
    ensures MoveDone(s, base, sp, n, dp, m, cover, State(RenameTree(base, sp, n, dp, m), layers))
  {
    hide RenameTree;
    hide RenamedUpper;
    hide SourceReady;
    hide Moved;
    hide Replaceable;
    var out, c := State(RenameTree(base, sp, n, dp, m), layers), s.t.nodes[s.t.nodes[sp].Children()[n]];
    NewPath(PathOf(s.t, dp), m);
    if c.IsDir() ==> PathOf(s.t, dp) + [WhName(m)] !in layers[0] {
      MoveIsRename(s, base, sp, n, dp, m, cover, out);
    }
  }

  lemma NewPath(p: Path, n: Name)
    ensures var q := p + [n]; q != [] && Last(q) == n && Parent(q) == p && MarkerOf(q) == p + [WhName(n)]
  {}

  /** The cover in its place in the engine, which remembers that devices are not supported. */
  method CoverAndRemember(fs: OverlayInner, ghost s: State, ghost base: Tree, ghost sp: NodeId, ghost n: Name, ghost dp: NodeId, ghost m: Name,
                          src: Path, isDir: bool, last: nat)
    returns (ghost cover: Cover)
    requires fs.Valid() && TreeOk(s.t) && SourceReady(s, sp, n, dp, m) && MovedOnDisk(s, sp, n, dp, m, fs.disk.layers)
    requires src == PathOf(s.t, sp) + [n] && SameNodes(s.t, base) && RenameAllowed(base, sp, n, dp, m)
    requires var c := s.t.nodes[s.t.nodes[sp].Children()[n]]; c.IsDir() == isDir && c.last == last
    modifies fs`devices, fs.disk`layers, fs.disk`history, fs.disk`refusals
    ensures fs.Valid() && fs.T() == old(fs.T()) && old(fs.disk.refusals) <= fs.disk.refusals
    ensures MoveDone(s, base, sp, n, dp, m, cover, State(RenameTree(base, sp, n, dp, m), fs.disk.layers))
    ensures isDir ==> fs.disk.layers == old(fs.disk.layers)
    ensures fs.disk.refusals == old(fs.disk.refusals) && last > 0 ==> cover != Nothing
  {
    hide TreeOk;
    hide SourceReady;
    hide MovedOnDisk;
    hide SameNodes;
    hide RenameAllowed;
    hide MoveDone;
    var unsupported;
    cover, unsupported := CoverMoved(fs.disk, s, base, sp, n, dp, m, src, isDir, last, fs.canMknod);
    if unsupported {
      fs.devices := false;
    }
  }

  /** The move in the cache, and the cover, after the move on disk. */
  method FinishMove(fs: OverlayInner, ghost s: State, sp: NodeId, n: Name, dp: NodeId, m: Name, src: Path, isDir: bool, last: nat,
                    faults: seq<Fault>)
    returns (ghost base: Tree, ghost cover: Cover)
    requires fs.Valid() && fs.T() == s.t && SourceReady(s, sp, n, dp, m) && MovedOnDisk(s, sp, n, dp, m, fs.disk.layers)
    requires src == PathOf(s.t, sp) + [n] && |faults| == |fs.disk.layers|
    requires var c := s.t.nodes[s.t.nodes[sp].Children()[n]]; c.IsDir() == isDir && c.last == last
    modifies fs`chains, fs`devices, fs.arena, fs.disk`layers, fs.disk`history, fs.disk`refusals
    ensures fs.Valid() && old(fs.disk.refusals) <= fs.disk.refusals
    ensures MoveDone(s, base, sp, n, dp, m, cover, fs.S())
    ensures isDir ==> fs.disk.layers == old(fs.disk.layers)
    ensures fs.disk.refusals == old(fs.disk.refusals) && last > 0 ==> cover != Nothing
  {
    hide RenameTree;
    hide SourceReady;
    hide SameNodes;
    hide RenameAllowed;
    hide MoveDone;
    hide MovedOnDisk;
    hide TreeOk;
    hide Coherent;
    hide Replaceable;
    SourceParts(s, sp, n, dp, m);
    MovedParts(s, sp, n, dp, m, fs.disk.layers);
    base := MoveInCache(fs, sp, n, dp, m, faults);
    cover := CoverAndRemember(fs, s, base, sp, n, dp, m, src, isDir, last);
  }

  /** The move on disk and in the cache. */
  method MoveEntry(fs: OverlayInner, sp: NodeId, n: Name, dp: NodeId, m: Name, clear: bool, faults: seq<Fault>)
    returns (ok: bool, ghost base: Tree, ghost cover: Cover)
    requires fs.Valid() && SourceReady(fs.S(), sp, n, dp, m) && DestinationReady(fs.S(), dp, m) && |faults| == |fs.disk.layers|
    requires clear ==> OnlyHidersBelow(fs.disk.layers[0], PathOf(fs.T(), dp) + [m])
    requires clear <==> IsDirThere(fs.T(), dp, m)
    modifies fs`chains, fs`devices, fs.arena, fs.disk
    ensures ok ==> KindsFit(old(fs.disk.layers), PathOf(old(fs.T()), sp) + [n], PathOf(old(fs.T()), dp) + [m])
    ensures ok && !old(fs.devices) ==> !DeviceInTheWay(old(fs.disk.layers), PathOf(old(fs.T()), sp) + [n], PathOf(old(fs.T()), dp) + [m])
    ensures KindsFit(old(fs.disk.layers), PathOf(old(fs.T()), sp) + [n], PathOf(old(fs.T()), dp) + [m]) && fs.disk.refusals == old(fs.disk.refusals) ==>
              old(fs.devices) || !DeviceInTheWay(old(fs.disk.layers), PathOf(old(fs.T()), sp) + [n], PathOf(old(fs.T()), dp) + [m]) ==> ok
    ensures fs.Valid() && old(fs.disk.refusals) <= fs.disk.refusals
    ensures !ok ==> Clears(old(fs.S()), PathOf(old(fs.T()), dp) + [m], fs.S()) && base == old(fs.T())
    ensures ok ==> MoveDone(old(fs.S()), base, sp, n, dp, m, cover, fs.S())
    ensures ok && fs.disk.refusals == old(fs.disk.refusals) ==> AllWhiteouts(old(fs.S()), sp, n, dp, m, cover, fs.S())
  {
    hide RenameTree;
    hide SourceReady;
    hide DestinationReady;
    hide SameNodes;
    hide Clears;
    hide MoveDone;
    hide MovedOnDisk;
    hide KindsFit;
    hide DeviceInTheWay;
    ghost var s := fs.S();
    SourceParts(s, sp, n, dp, m);
    base, cover := fs.T(), Nothing;
    var id := fs.arena.nodes[sp].Children()[n];
    var isDir, last := fs.arena.nodes[id].IsDir(), fs.arena.nodes[id].last;
    var src;
    ok, src := MoveFiles(fs, sp, n, dp, m, isDir, clear);
    if ok {
      MovedParts(s, sp, n, dp, m, fs.disk.layers);
      base, cover := FinishMove(fs, s, sp, n, dp, m, src, isDir, last, faults);
    }
  }

  lemma SourceParts(s: State, sp: NodeId, n: Name, dp: NodeId, m: Name)
    requires TreeOk(s.t) && SourceReady(s, sp, n, dp, m)
    ensures Coherent(s) && sp in s.t.nodes && dp in s.t.nodes && n in s.t.nodes[sp].Children() && EntryOk(s.t, sp, n)
    ensures LayersOk(s.layers)
    ensures var c := s.t.nodes[s.t.nodes[sp].Children()[n]]; c.IsDir() ==> c.last == 0
  {}

  /** `rename` without flags. On success it is a step of the session, unless a directory moved onto a
      name whose marker could not be deleted; the session is coherent exactly if no marker of the new
      name is left and the rename fits; and if no call was refused, the old name of a file that reached
      below is covered and a directory's new name has no marker. On failure whiteouts of the new name, or
      inside the empty directory there, may be gone; it is not seen exactly if none of them hid a lower
      name, as is so if no lower layer has the new name. It succeeds only where it can, on the disk as the
      copy-ups leave it, and where no device 0/0 is in the way of a directory while devices are known not to
      work; and then it does if no call is refused. */
  method Rename(fs: OverlayInner, sp: NodeId, n: Name, dp: NodeId, m: Name, faults: seq<Fault>)
    returns (ok: bool, ghost mid: State, ghost cover: Cover)
    requires fs.Valid() && Coherent(fs.S()) && !IsWh(n) && Ordinary(m)
    requires sp in fs.arena.nodes && fs.arena.nodes[sp].IsDir() && dp in fs.arena.nodes && fs.arena.nodes[dp].IsDir()
    requires |faults| == |fs.disk.layers| && NoFaults(faults)
    modifies fs`chains, fs`wdCounter, fs`devices, fs.arena, fs.disk
    ensures fs.Valid() && Unseen(old(fs.S()), mid) && old(fs.disk.refusals) <= fs.disk.refusals
    ensures !ok ==> Clears(mid, PathOf(old(fs.T()), dp) + [m], fs.S())
                    && (Unseen(old(fs.S()), fs.S()) <==> NoneUncovered(mid.layers, fs.disk.layers))
                    && (!InLower(mid.layers, PathOf(old(fs.T()), dp) + [m]) ==> NoneUncovered(mid.layers, fs.disk.layers))
    ensures ok ==> RenameAllowed(mid.t, sp, n, dp, m) && MoveDone(mid, mid.t, sp, n, dp, m, cover, fs.S())
    ensures ok ==> (Coherent(fs.S()) <==> PathOf(old(fs.T()), dp) + [WhName(m)] !in fs.disk.layers[0] && RenameFits(mid, sp, n, dp, m))
    ensures ok && fs.disk.refusals == old(fs.disk.refusals) ==> AllWhiteouts(mid, sp, n, dp, m, cover, fs.S())
    ensures ok ==> CanRename(mid.layers, PathOf(old(fs.T()), sp) + [n], PathOf(old(fs.T()), dp) + [m])
    ensures ok && !old(fs.devices) ==> !DeviceInTheWay(mid.layers, PathOf(old(fs.T()), sp) + [n], PathOf(old(fs.T()), dp) + [m])
    ensures CanRename(mid.layers, PathOf(old(fs.T()), sp) + [n], PathOf(old(fs.T()), dp) + [m]) && fs.disk.refusals == old(fs.disk.refusals) ==>
              old(fs.devices) || !DeviceInTheWay(mid.layers, PathOf(old(fs.T()), sp) + [n], PathOf(old(fs.T()), dp) + [m]) ==> ok
  {
    hide DeviceInTheWay;
    hide RenameTree;
    hide MoveDone;
    hide AllWhiteouts;
    hide DestinationReady;
    hide SourceFit;
    hide TargetFit;
    hide KindsFit;
    hide Coherent;
    hide OnlyHidersBelow;
    hide SourceReady;
    hide IsDirThere;
    hide RenameFits;
    hide Clears;
    hide Unseen;
    ghost var s := fs.S();
    var clear: bool;
    cover := Nothing;
    ok, clear := PrepareRename(fs, sp, n, dp, m, faults);
    ghost var ready := fs.S();
    mid := ready;
    UnseenNode(s, ready, dp);
    UnseenNode(s, ready, sp);
    UnseenCoherent(s, ready);
    if !ok {
      NewPath(PathOf(s.t, dp), m);
      ClearsNothing(ready, PathOf(s.t, dp) + [m]);
      return;
    }
    ghost var base;
    ok, base, cover := MoveEntry(fs, sp, n, dp, m, clear, faults);
    if !ok {
      FailedRename(s, ready, sp, n, dp, m, fs.S());
    } else {
      mid := State(base, ready.layers);
      FinishedRename(s, ready, base, sp, n, dp, m, cover, fs.S());
    }
  }

  lemma FailedRename(s: State, ready: State, sp: NodeId, n: Name, dp: NodeId, m: Name, out: State)
    requires Unseen(s, ready) && SourceReady(ready, sp, n, dp, m) && Clears(ready, PathOf(ready.t, dp) + [m], out)
    ensures Unseen(s, out) <==> NoneUncovered(ready.layers, out.layers)
    ensures !InLower(ready.layers, PathOf(ready.t, dp) + [m]) ==> NoneUncovered(ready.layers, out.layers)
  {
    var dst := PathOf(ready.t, dp) + [m];
    assert Last(dst) == m;
    ClearIsUnseenIff(ready, dst, out);
    if Unseen(ready, out) {
      UnseenTransitive(s, ready, out);
    } else if Unseen(s, out) {
      UnseenBetween(s, ready, out);
    }
    if !InLower(ready.layers, dst) {
      ClearIsUnseen(ready, dst, out);
    }
  }

  /** The step starts from the tree in which an id may have been used up. */
  lemma FinishedRename(s: State, ready: State, base: Tree, sp: NodeId, n: Name, dp: NodeId, m: Name, cover: Cover, out: State)
    requires Unseen(s, ready) && SourceReady(ready, sp, n, dp, m) && MoveDone(ready, base, sp, n, dp, m, cover, out)
    ensures var mid := State(base, ready.layers);
            && Unseen(s, mid) && PathOf(base, dp) == PathOf(ready.t, dp) && RenameAllowed(base, sp, n, dp, m)
            && MoveDone(mid, base, sp, n, dp, m, cover, out)
            && (Coherent(out) <==> PathOf(ready.t, dp) + [WhName(m)] !in out.layers[0] && RenameFits(mid, sp, n, dp, m))
            && (AllWhiteouts(ready, sp, n, dp, m, cover, out) ==> AllWhiteouts(mid, sp, n, dp, m, cover, out))
  {
    hide RenameTree;
    hide RenamedUpper;
    hide Moved;
    var mid := State(base, ready.layers);
    var isDir := ready.t.nodes[ready.t.nodes[sp].Children()[n]].IsDir();
    SameNodesUnseen(ready, base);
    UnseenTransitive(s, ready, mid);
    SameNodesReady(ready, base, sp, n, dp, m, isDir);
    assert SameNodes(base, base);
    MovedCoherent(mid, sp, n, dp, m, cover, out);
  }

  /** Everything before the move. */
  method PrepareRename(fs: OverlayInner, sp: NodeId, n: Name, dp: NodeId, m: Name, faults: seq<Fault>)
    returns (ok: bool, clear: bool)
    requires fs.Valid() && Coherent(fs.S()) && !IsWh(n) && Ordinary(m)
    requires sp in fs.arena.nodes && fs.arena.nodes[sp].IsDir() && dp in fs.arena.nodes && fs.arena.nodes[dp].IsDir()
    requires |faults| == |fs.disk.layers| && NoFaults(faults)
    modifies fs`chains, fs`wdCounter, fs.arena, fs.disk
    ensures fs.Valid() && Unseen(old(fs.S()), fs.S()) && |fs.disk.layers| == |faults|
    ensures old(fs.disk.refusals) <= fs.disk.refusals
    ensures ok ==> SourceReady(fs.S(), sp, n, dp, m) && DestinationReady(fs.S(), dp, m)
    ensures ok && clear ==> OnlyHidersBelow(fs.disk.layers[0], PathOf(fs.T(), dp) + [m])
    ensures ok ==> (clear <==> IsDirThere(fs.T(), dp, m))
    ensures ok ==> SourceFit(fs.disk.layers, PathOf(old(fs.T()), sp) + [n]) && TargetFit(fs.disk.layers, PathOf(old(fs.T()), dp) + [m])
    ensures SourceFit(fs.disk.layers, PathOf(old(fs.T()), sp) + [n]) && TargetFit(fs.disk.layers, PathOf(old(fs.T()), dp) + [m]) ==>
              fs.disk.refusals == old(fs.disk.refusals) ==> ok
  {
    hide SourceFit;
    hide TargetFit;
    hide Coherent;
    hide Unseen;
    hide SourceReady;
    hide DestinationReady;
    hide OnlyHidersBelow;
    hide IsDirThere;
    ghost var s := fs.S();
    clear := false;
    ok := PrepareSource(fs, sp, n, dp, m, faults);
    if ok {
      ghost var sourced := fs.S();
      UnseenNode(s, sourced, dp);
      SourceParts(sourced, sp, n, dp, m);
      ok, clear := PrepareDestination(fs, sp, n, dp, m, faults);
      UnseenTransitive(s, sourced, fs.S());
      UnseenCoherent(s, fs.S());
      UnseenNode(s, fs.S(), dp);
      if ok && clear {
        MayBeCleared(fs.S(), dp, m);
      }
    }
  }

  // ---- The exchange branch ----

  /** Both names leave their directories, which are marked for a new scan. */
  function UnlistedBoth(nodes: Arena, sp: NodeId, n: Name, dp: NodeId, m: Name): Arena
    requires sp in nodes && dp in nodes
  {
    var a := nodes[sp := nodes[sp].SetLoaded(false)];
    var b := a[dp := a[dp].SetLoaded(false)];
    var c := b[sp := b[sp].RemoveChild(n)];
    c[dp := c[dp].RemoveChild(m)]
  }

  /** The two nodes take each other's name and parent, are marked for a new scan, and are listed. */
  function SwappedBoth(nodes: Arena, sp: NodeId, n: Name, dp: NodeId, m: Name, s: NodeId, d: NodeId): Arena
    requires {sp, dp, s, d} <= nodes.Keys
  {
    var a := nodes[s := nodes[s].(name := m, parent := Some(dp)).SetLoaded(false)];
    var b := a[d := a[d].(name := n, parent := Some(sp)).SetLoaded(false)];
    var c := b[dp := b[dp].InsertChild(m, s)];
    c[sp := c[sp].InsertChild(n, d)]
  }

  method SwapInArena(arena: NodeArena, sp: NodeId, n: Name, dp: NodeId, m: Name, s: NodeId, d: NodeId)
    requires arena.Valid() && {sp, dp, s, d} <= arena.nodes.Keys
    modifies arena`nodes
    ensures arena.Valid()
    ensures arena.nodes == SwappedBoth(UnlistedBoth(old(arena.nodes), sp, n, dp, m), sp, n, dp, m, s, d)
  {
    MarkBothUnloaded(arena, sp, dp);
    arena.Update(sp, arena.nodes[sp].RemoveChild(n));
    arena.Update(dp, arena.nodes[dp].RemoveChild(m));
    arena.Update(s, arena.nodes[s].(name := m, parent := Some(dp)).SetLoaded(false));
    arena.Update(d, arena.nodes[d].(name := n, parent := Some(sp)).SetLoaded(false));
    arena.Update(dp, arena.nodes[dp].InsertChild(m, s));
    arena.Update(sp, arena.nodes[sp].InsertChild(n, d));
  }

  lemma UnlistedArena(t: Tree, sp: NodeId, n: Name, dp: NodeId, m: Name)
    requires sp in t.nodes && dp in t.nodes
    ensures Unlink(t, sp, n, dp, m) == t.(nodes := UnlistedBoth(t.nodes, sp, n, dp, m))
  {}

  lemma SwappedArena(v: Tree, sp: NodeId, n: Name, dp: NodeId, m: Name, s: NodeId, d: NodeId)
    requires {s, d, sp, dp} <= v.nodes.Keys && {s, d, sp, dp} <= v.chains.Keys && s != d
    requires {s, d, sp, dp} <= Relocate(v, s, dp, m).chains.Keys
    ensures var w := SwapNodes(v, sp, n, dp, m, s, d);
            && {s, d, sp, dp} <= w.nodes.Keys && w.nextId == v.nextId && w.root == v.root
            && InsertName(InsertName(Unload(Unload(w, s), d), dp, m, s), sp, n, d)
               == Tree(SwappedBoth(v.nodes, sp, n, dp, m, s, d), v.nextId, v.root, w.chains)
  {
    var w := SwapNodes(v, sp, n, dp, m, s, d);
    assert w.nodes == v.nodes[s := v.nodes[s].(name := m, parent := Some(dp))][d := v.nodes[d].(name := n, parent := Some(sp))];
    assert Unload(Unload(w, s), d).nodes
        == v.nodes[s := v.nodes[s].(name := m, parent := Some(dp)).SetLoaded(false)]
                  [d := v.nodes[d].(name := n, parent := Some(sp)).SetLoaded(false)];
  }

  lemma ExchangePlaces(t: Tree, sp: NodeId, n: Name, dp: NodeId, m: Name, s: NodeId, d: NodeId)
    requires TreeOk(t) && ExchangeAllowed(t, sp, n, dp, m) && s == t.nodes[sp].Children()[n] && d == t.nodes[dp].Children()[m]
    ensures s != d && {sp, dp, s, d} <= t.nodes.Keys && {sp, dp, s, d} <= t.chains.Keys
    ensures {sp, dp, s, d} <= Relocate(t.(nodes := UnlistedBoth(t.nodes, sp, n, dp, m)), s, dp, m).chains.Keys
  {
    assert s != d by { assert ChainOk(t.chains, s); }
  }

  lemma ExchangedTree(t: Tree, sp: NodeId, n: Name, dp: NodeId, m: Name, s: NodeId, d: NodeId)
    requires TreeOk(t) && ExchangeAllowed(t, sp, n, dp, m) && s == t.nodes[sp].Children()[n] && d == t.nodes[dp].Children()[m]
    ensures {sp, dp, s, d} <= t.nodes.Keys
    ensures var u := ExchangeTree(t, sp, n, dp, m);
            && u == Tree(SwappedBoth(UnlistedBoth(t.nodes, sp, n, dp, m), sp, n, dp, m, s, d), t.nextId, t.root, u.chains)
  {
    ExchangePlaces(t, sp, n, dp, m, s, d);
    UnlistedArena(t, sp, n, dp, m);
    SwappedArena(t.(nodes := UnlistedBoth(t.nodes, sp, n, dp, m)), sp, n, dp, m, s, d);
  }

  method FinishExchange(fs: OverlayInner, sp: NodeId, n: Name, dp: NodeId, m: Name, s: NodeId, d: NodeId, ghost u: Tree)
    requires fs.Valid() && {sp, dp, s, d} <= fs.arena.nodes.Keys && TreeOk(u)
    requires u.nodes == SwappedBoth(UnlistedBoth(fs.arena.nodes, sp, n, dp, m), sp, n, dp, m, s, d)
    requires u.nextId == fs.arena.nextId && u.root == fs.root
    modifies fs`chains, fs.arena`nodes
    ensures fs.Valid() && fs.T() == u
  {
    SwapInArena(fs.arena, sp, n, dp, m, s, d);
    fs.chains := u.chains;
    assert fs.T() == u;
  }

  /** The cache's part of `rename` with RENAME_EXCHANGE. */
  method ExchangeInCache(fs: OverlayInner, sp: NodeId, n: Name, dp: NodeId, m: Name)
    requires fs.Valid() && ExchangeAllowed(fs.T(), sp, n, dp, m)
    modifies fs`chains, fs.arena`nodes
    ensures fs.Valid() && fs.T() == ExchangeTree(old(fs.T()), sp, n, dp, m)
  {
    var s, d := fs.arena.nodes[sp].Children()[n], fs.arena.nodes[dp].Children()[m];
    ExchangedTree(fs.T(), sp, n, dp, m, s, d);
    ExchangeTreeOk(fs.T(), sp, n, dp, m);
    FinishExchange(fs, sp, n, dp, m, s, d, ExchangeTree(fs.T(), sp, n, dp, m));
  }

  /** What an exchange has when it starts on the disk. */
  ghost predicate ExchangeReady(s: State, sp: NodeId, n: Name, dp: NodeId, m: Name)
    requires TreeOk(s.t)
  {
    && Coherent(s) && sp in s.t.nodes && dp in s.t.nodes
    && n in s.t.nodes[sp].Children() && EntryOk(s.t, sp, n) && m in s.t.nodes[dp].Children() && EntryOk(s.t, dp, m)
    && var c := s.t.nodes[s.t.nodes[sp].Children()[n]]; c.layer == 0 && (c.IsDir() ==> c.last == 0)
  }

  /** A lookup does not change where the source stands. */
  lemma SourceStays(s: State, sp: NodeId, n: Name, dp: NodeId, m: Name, out: State)
    requires Coherent(s) && Unseen(s, out) && out.layers == s.layers && sp in s.t.nodes && dp in s.t.nodes
    requires n in s.t.nodes[sp].Children() && EntryOk(s.t, sp, n)
    requires var c := s.t.nodes[s.t.nodes[sp].Children()[n]]; c.layer == 0 && (c.IsDir() ==> c.last == 0)
    requires dp in out.t.nodes && m in out.t.nodes[dp].Children()
    ensures ExchangeReady(out, sp, n, dp, m)
  {
    var id := s.t.nodes[sp].Children()[n];
    assert NodeSteady(s.t, out.t, sp) && NodeSteady(s.t, out.t, id);
    LayerFromDisk(s, id);
    LayerFromDisk(out, id);
    ChildShown(s, sp, n);
    ChildShown(out, sp, n);
    ChildShown(out, dp, m);
  }

  /** Everything before the exchange. That the second name is gone by now is left out: the kernel has
      looked it up. */
  method PrepareExchange(fs: OverlayInner, sp: NodeId, n: Name, dp: NodeId, m: Name, faults: seq<Fault>) returns (ok: bool)
    requires fs.Valid() && Coherent(fs.S()) && !IsWh(n) && !IsWh(m)
    requires sp in fs.arena.nodes && fs.arena.nodes[sp].IsDir() && dp in fs.arena.nodes && fs.arena.nodes[dp].IsDir()
    requires |faults| == |fs.disk.layers| && NoFaults(faults)
    modifies fs`chains, fs`wdCounter, fs.arena, fs.disk
    ensures fs.Valid() && Unseen(old(fs.S()), fs.S()) && old(fs.disk.refusals) <= fs.disk.refusals
    ensures ok ==> ExchangeReady(fs.S(), sp, n, dp, m)
    ensures ok ==> BothShown(fs.disk.layers, PathOf(old(fs.T()), sp) + [n], PathOf(old(fs.T()), dp) + [m])
    ensures BothShown(fs.disk.layers, PathOf(old(fs.T()), sp) + [n], PathOf(old(fs.T()), dp) + [m]) ==>
              fs.disk.refusals == old(fs.disk.refusals) ==> ok
  {
    hide SourceFit;
    hide Fresh;
    ghost var s := fs.S();
    var found := FindSource(fs, sp, n, faults);
    if found.None? {
      return false;
    }
    ghost var loaded, copied := fs.S(), [];
    assert NodeSteady(s.t, loaded.t, dp);
    ok, copied := UpThree(fs, found.value, sp, dp);
    UnseenTransitive(s, loaded, fs.S());
    if ok {
      SourceFitKept(loaded, copied, fs.S(), PathOf(s.t, sp), n);
      UpSource(loaded, sp, n, found.value, copied, fs.S());
      ok := FindSecond(fs, s, sp, n, dp, m, faults);
    }
  }

  /** What an exchange asks for before the call: both names are shown, and the first is no directory that
      reaches below. */
  ghost predicate BothShown(layers: seq<Layer>, src: Path, dst: Path) {
    SourceFit(layers, src) && Fresh(layers, dst).Some?
  }

  /** And what the call needs: the second entry is on the upper layer, and neither path is above the other. */
  ghost predicate CanTrade(layers: seq<Layer>, src: Path, dst: Path) {
    BothShown(layers, src, dst) && layers != [] && dst in layers[0] && !(src <= dst) && !(dst <= src)
  }

  lemma UpSource(s: State, sp: NodeId, n: Name, id: NodeId, copied: seq<NodeId>, out: State)
    requires Coherent(s) && Coherent(out) && sp in s.t.nodes && s.t.nodes[sp].GetChild(n) == Some(id) && id in s.t.nodes
    requires (s.t.nodes[id].IsDir() ==> s.t.nodes[id].last == 0) && OnlyLayersChange(s.t, copied, out.t)
    requires out.t.nodes[id].layer == 0
    ensures sp in out.t.nodes && n in out.t.nodes[sp].Children() && EntryOk(out.t, sp, n) && out.t.nodes[sp].Children()[n] == id
    ensures out.t.nodes[id].IsDir() ==> out.t.nodes[id].last == 0
  {
    assert out.t.nodes[sp].Children() == s.t.nodes[sp].Children();
    assert EntryOk(out.t, sp, n);
  }

  /** The lookup of the second name. */
  method FindSecond(fs: OverlayInner, ghost s: State, ghost sp: NodeId, ghost n: Name, dp: NodeId, m: Name, faults: seq<Fault>)
    returns (ok: bool)
    requires fs.Valid() && Unseen(s, fs.S()) && !IsWh(m) && sp in fs.arena.nodes
    requires dp in s.t.nodes && s.t.nodes[dp].IsDir() && |faults| == |s.layers| && NoFaults(faults)
    requires n in fs.arena.nodes[sp].Children() && EntryOk(fs.T(), sp, n)
    requires var c := fs.arena.nodes[fs.arena.nodes[sp].Children()[n]]; c.layer == 0 && (c.IsDir() ==> c.last == 0)
    modifies fs`chains, fs.arena
    ensures fs.Valid() && Unseen(s, fs.S())
    ensures ok ==> ExchangeReady(fs.S(), sp, n, dp, m)
    ensures ok <==> Fresh(fs.disk.layers, PathOf(s.t, dp) + [m]).Some?
  {
    hide Fresh;
    ghost var up := fs.S();
    assert NodeSteady(s.t, up.t, dp);
    var second := fs.LookupInSession(dp, m, faults);
    FoundIsShown(up, fs.S(), dp, m);
    UnseenTransitive(s, up, fs.S());
    ok := second.Some?;
    if ok {
      SourceStays(up, sp, n, dp, m, fs.S());
    }
  }

  /** What the exchange on the disk says about the two nodes. */
  lemma ExchangeIsAllowed(s: State, sp: NodeId, n: Name, dp: NodeId, m: Name)
    requires TreeOk(s.t) && ExchangeReady(s, sp, n, dp, m) && CanExchange(s.layers[0], PathOf(s.t, sp) + [n], PathOf(s.t, dp) + [m])
    ensures ExchangeAllowed(s.t, sp, n, dp, m)
    ensures s.t.nodes[s.t.nodes[dp].Children()[m]].layer == 0
  {
    var c, d := s.t.nodes[sp].Children()[n], s.t.nodes[dp].Children()[m];
    ChildShown(s, sp, n);
    ChildShown(s, dp, m);
    PathBelow(s, c, d);
    PathBelow(s, d, c);
    LayerFromDisk(s, d);
  }

  lemma NothingToDelete(s: State, dp: NodeId, m: Name)
    requires Coherent(s) && dp in s.t.nodes && m in s.t.nodes[dp].Children()
    ensures var dst := PathOf(s.t, dp) + [m];
            MarkerOf(dst) !in s.layers[0] && (dst in s.layers[0] ==> s.layers[0][dst] != Whiteout)
  {
    ChildShown(s, dp, m);
    NewPath(PathOf(s.t, dp), m);
  }

  /** The calls of an exchange: for a directory the whiteouts of the second name would be deleted, of
      which there are none. */
  method ExchangeOnDisk(disk: Disk, src: Path, dst: Path, isDir: bool, devices: bool) returns (ok: bool)
    requires disk.Valid() && dst != [] && MarkerOf(dst) !in disk.layers[0]
    requires dst in disk.layers[0] ==> disk.layers[0][dst] != Whiteout
    modifies disk`layers, disk`history, disk`refusals
    ensures disk.Valid() && old(disk.refusals) <= disk.refusals
    ensures !ok ==> disk.layers == old(disk.layers)
    ensures ok ==> CanExchange(old(disk.layers[0]), src, dst)
                   && disk.layers == WithUpper(old(disk.layers), ExchangedUpper(old(disk.layers[0]), src, dst))
    ensures disk.refusals == old(disk.refusals) && CanExchange(old(disk.layers[0]), src, dst) ==> ok
  {
    if isDir {
      DeleteNoWhiteout(disk, dst, devices);
    }
    ghost var up := disk.layers[0];
    ok := disk.ExchangeWithin(src, dst);
    if ok {
      TradedIsExchanged(up, src, dst);
    }
  }

  /** The disk's part of an exchange. */
  method ExchangeFiles(fs: OverlayInner, sp: NodeId, n: Name, dp: NodeId, m: Name) returns (ok: bool)
    requires fs.Valid() && ExchangeReady(fs.S(), sp, n, dp, m)
    modifies fs.disk`layers, fs.disk`history, fs.disk`refusals
    ensures fs.Valid() && old(fs.disk.refusals) <= fs.disk.refusals
    ensures !ok ==> fs.disk.layers == old(fs.disk.layers)
    ensures ok ==> CanExchange(old(fs.disk.layers[0]), PathOf(fs.T(), sp) + [n], PathOf(fs.T(), dp) + [m])
    ensures CanExchange(old(fs.disk.layers[0]), PathOf(fs.T(), sp) + [n], PathOf(fs.T(), dp) + [m]) ==>
              fs.disk.refusals == old(fs.disk.refusals) ==> ok
    ensures ok ==> fs.disk.layers == WithUpper(old(fs.disk.layers),
                                               ExchangedUpper(old(fs.disk.layers[0]), PathOf(fs.T(), sp) + [n], PathOf(fs.T(), dp) + [m]))
  {
    hide ExchangedUpper;
    hide CanExchange;
    hide Coherent;
    hide TreeOk;
    NothingToDelete(fs.S(), dp, m);
    var from := CollectPath(fs.arena.nodes, sp, fs.T());
    var to := CollectPath(fs.arena.nodes, dp, fs.T());
    var isDir := fs.arena.nodes[fs.arena.nodes[sp].Children()[n]].IsDir();
    ok := ExchangeOnDisk(fs.disk, from + [n], to + [m], isDir, fs.devices);
  }

  lemma ExchangedSession(s: State, sp: NodeId, n: Name, dp: NodeId, m: Name, out: State)
    requires TreeOk(s.t) && ExchangeReady(s, sp, n, dp, m) && CanExchange(s.layers[0], PathOf(s.t, sp) + [n], PathOf(s.t, dp) + [m])
    requires ExchangeAllowed(s.t, sp, n, dp, m)
    requires out == State(ExchangeTree(s.t, sp, n, dp, m),
                          WithUpper(s.layers, ExchangedUpper(s.layers[0], PathOf(s.t, sp) + [n], PathOf(s.t, dp) + [m])))
    ensures Exchanges(s, sp, n, dp, m, out) && (Coherent(out) <==> ExchangeFits(s, sp, n, dp, m))
  {
    hide ExchangeTree;
    hide ExchangedUpper;
    hide Coherent;
    CoherentParts(s);
    ExchangeIsAllowed(s, sp, n, dp, m);
    ExchangeIsCoherentIff(s, sp, n, dp, m, out);
  }

  lemma NoTradeUnlessShown(layers: seq<Layer>, src: Path, dst: Path)
    ensures CanTrade(layers, src, dst) ==> BothShown(layers, src, dst)
  {}

  lemma TradeIsExchange(s: State, sp: NodeId, n: Name, dp: NodeId, m: Name)
    requires TreeOk(s.t) && ExchangeReady(s, sp, n, dp, m) && BothShown(s.layers, PathOf(s.t, sp) + [n], PathOf(s.t, dp) + [m])
    ensures var src, dst := PathOf(s.t, sp) + [n], PathOf(s.t, dp) + [m];
            s.layers != [] && (CanTrade(s.layers, src, dst) <==> CanExchange(s.layers[0], src, dst))
  {
    hide BothShown;
    ChildShown(s, sp, n);
    LayerFromDisk(s, s.t.nodes[sp].Children()[n]);
  }

  /** `rename` with RENAME_EXCHANGE. On success it is a step of the session, which stays coherent
      exactly if the exchange fits; on failure nothing is seen. It succeeds only where it can, on the disk
      as the copy-ups leave it; and then it does if no call is refused. */
  method Exchange(fs: OverlayInner, sp: NodeId, n: Name, dp: NodeId, m: Name, faults: seq<Fault>) returns (ok: bool, ghost mid: State)
    requires fs.Valid() && Coherent(fs.S()) && !IsWh(n) && !IsWh(m)
    requires sp in fs.arena.nodes && fs.arena.nodes[sp].IsDir() && dp in fs.arena.nodes && fs.arena.nodes[dp].IsDir()
    requires |faults| == |fs.disk.layers| && NoFaults(faults)
    modifies fs`chains, fs`wdCounter, fs.arena, fs.disk
    ensures fs.Valid() && Unseen(old(fs.S()), mid) && old(fs.disk.refusals) <= fs.disk.refusals
    ensures !ok ==> fs.S() == mid
    ensures ok ==> Exchanges(mid, sp, n, dp, m, fs.S()) && (Coherent(fs.S()) <==> ExchangeFits(mid, sp, n, dp, m))
    ensures ok ==> CanTrade(mid.layers, PathOf(old(fs.T()), sp) + [n], PathOf(old(fs.T()), dp) + [m])
    ensures CanTrade(mid.layers, PathOf(old(fs.T()), sp) + [n], PathOf(old(fs.T()), dp) + [m]) ==>
              fs.disk.refusals == old(fs.disk.refusals) ==> ok
  {
    hide ExchangeTree;
    hide ExchangedUpper;
    hide Coherent;
    hide BothShown;
    hide CanTrade;
    hide CanExchange;
    hide Exchanges;
    hide ExchangeAllowed;
    hide ExchangeFits;
    hide Unseen;
    ghost var s := fs.S();
    ok := PrepareExchange(fs, sp, n, dp, m, faults);
    mid := fs.S();
    UnseenNode(s, mid, sp);
    UnseenNode(s, mid, dp);
    if !ok {
      NoTradeUnlessShown(mid.layers, PathOf(s.t, sp) + [n], PathOf(s.t, dp) + [m]);
      return;
    }
    TradeIsExchange(mid, sp, n, dp, m);
    ok := ExchangeFiles(fs, sp, n, dp, m);
    if ok {
      ExchangeIsAllowed(mid, sp, n, dp, m);
      ExchangeInCache(fs, sp, n, dp, m);
      ExchangedSession(mid, sp, n, dp, m, fs.S());
    }
  }
}
