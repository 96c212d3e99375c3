/** The overlay engine (src/overlay.rs): scans and lookups that fill the cached tree, and the
    operations that change the disk and keep the cache in step. */
module Overlay {
  import opened Wrappers
  import opened Names
  import opened NodeTree
  import opened TreeOps
  import opened TreeRuns
  import opened NodeArenas
  import opened Layers
  import opened Merge
  import opened LazyLookup
  import opened FreshMount
  import opened DiskChanges
  import opened Removal
  import opened CleanDisk
  import opened Filling
  import opened Session
  import opened SessionFrame
  import opened SessionScan
  import opened SessionDisk
  import opened CopyUpSteps
  import opened Steady
  import opened Disks
  import opened Whiteouts
  import opened CopyUp
  import opened Clearing
  import opened RenameUncovered
  import opened Unregistered
  import opened Recreation

  class OverlayInner {
    const arena: NodeArena
    const disk: Disk
    const root: NodeId
    ghost var chains: Chains
    var wdCounter: nat
    /** Whether whiteouts are made as devices at all, as settled when mounting. */
    const canMknod: bool
    /** CAN_MKNOD: cleared for good when a whiteout finds that devices are not supported. From then on
        device whiteouts are not looked for any more; all contracts hold for either value. */
    var devices: bool

    ghost function T(): Tree
      reads this, arena
    {
      Tree(arena.nodes, arena.nextId, root, chains)
    }

    ghost function S(): State
      reads this, arena, disk
    {
      State(T(), disk.layers)
    }

    ghost predicate Valid()
      reads this, arena, disk
    {
      arena.Valid() && disk.Valid() && TreeOk(T()) && NamesBelow(disk.work, wdCounter)
    }

    /** A mount: the root directory alone. */
    constructor (mounted: seq<Layer>, mayMknod: bool)
      requires LayersOk(mounted)
      ensures Valid() && fresh(arena) && fresh(disk) && S() == State(MountTree(), mounted)
    {
      var nodes := new NodeArena();
      var rootId := nodes.Insert(NewNode("", 0, InodeKey(0, 0), true));
      var layers := new Disk(mounted);
      arena := nodes;
      disk := layers;
      root := rootId;
      chains := map[rootId := [rootId]];
      wdCounter := 1;
      canMknod := mayMknod;
      devices := true;
      new;
      assert T() == MountTree();
    }

    // ---- Scans ----

    /** `insert_child_node`. */
    method InsertChildNode(d: NodeId, node: Node) returns (id: NodeId)
      requires Valid() && d in arena.nodes && ValidName(node.name) && node.Children() == map[]
      modifies this`chains, arena
      ensures Valid() && T() == InsertChild(old(T()), d, node)
      ensures id == old(arena.nextId)
    {
      ghost var u := InsertChild(T(), d, node);
      InsertedTree(T(), d, node);
      id := arena.Insert(node.(parent := Some(d)));
      arena.Update(d, arena.nodes[d].InsertChild(node.name, id));
      chains := u.chains;
      assert T() == u;
    }

    /** A known child is listed by one more layer. */
    method SetLast(ghost t: Tree, d: NodeId, ghost c: Cache, n: Name, id: NodeId, i: nat)
      requires Valid() && Filled(t, T(), d, c) && arena.nodes[d].GetChild(n) == Some(id)
      modifies this`chains, arena
      ensures Valid() && n in c.children && Filled(t, T(), d, c.(children := c.children[n := c.children[n].(last := i)]))
    {
      hide Filled;
      hide TreeOk;
      FilledParts(t, T(), d, c);
      ghost var u, c' := SetNode(T(), id, arena.nodes[id].(last := i)), c.(children := c.children[n := c.children[n].(last := i)]);
      FillLast(t, T(), d, c, n, i);
      FilledParts(t, u, d, c');
      arena.Update(id, arena.nodes[id].(last := i));
      assert T() == u;
    }

    method AddWhiteout(ghost t: Tree, d: NodeId, ghost c: Cache, n: Name)
      requires Valid() && Filled(t, T(), d, c)
      modifies this`chains, arena
      ensures Valid() && Filled(t, T(), d, c.(whiteouts := c.whiteouts + {n}))
    {
      FillWhiteout(t, T(), d, c, n);
      arena.Update(d, arena.nodes[d].InsertWhiteout(n));
    }

    method AddChild(ghost t: Tree, d: NodeId, ghost c: Cache, n: Name, seen: Seen)
      requires Valid() && Filled(t, T(), d, c) && ValidName(n) && n !in c.children && n !in c.whiteouts
      modifies this`chains, arena
      ensures Valid() && Filled(t, T(), d, c.(children := c.children[n := seen]))
    {
      hide Filled;
      hide InsertChild;
      var ino, dev: nat := *, *;
      FilledParts(t, T(), d, c);
      FillChild(t, T(), d, c, n, seen, InodeKey(ino, dev));
      var _ := InsertChildNode(d, NewNode(n, seen.layer, InodeKey(ino, dev), seen.isDir).(last := seen.last));
    }

    /** What the cached maps say about a name. */
    method Cached(ghost t: Tree, d: NodeId, ghost c: Cache, n: Name) returns (child: Option<NodeId>, hidden: bool)
      requires Valid() && Filled(t, T(), d, c)
      ensures d in arena.nodes && child == arena.nodes[d].GetChild(n)
      ensures (child.Some? <==> n in c.children) && (hidden <==> n in c.whiteouts)
    {
      assert CacheOf(T(), d) == c;
      child := arena.nodes[d].GetChild(n);
      hidden := arena.nodes[d].IsWhiteout(n);
    }

    /** One directory entry of one layer; `t` is the tree before the scan. */
    method ScanOne(ghost t: Tree, d: NodeId, ghost c: Cache, items: map<Name, Item>, i: nat, n: Name)
      requires Valid() && Filled(t, T(), d, c) && n in items && ValidName(n)
      modifies this`chains, arena
      ensures Valid() && Filled(t, T(), d, ScanEntry(c, items, i, n))
    {
      if n == OPAQUE_WHITEOUT {
        return;
      }
      var known, hidden := Cached(t, d, c, n);
      if known.Some? {
        SetLast(t, d, c, n, known.value, i);
        return;
      }
      if hidden {
        return;
      }
      ScanUnknown(t, d, c, items, i, n);
    }

    /** An entry whose name is in neither map: a marker, a device 0/0, or a new child. */
    method ScanUnknown(ghost t: Tree, d: NodeId, ghost c: Cache, items: map<Name, Item>, i: nat, n: Name)
      requires Valid() && Filled(t, T(), d, c) && n in items && ValidName(n)
      requires n != OPAQUE_WHITEOUT && n !in c.children && n !in c.whiteouts
      modifies this`chains, arena
      ensures Valid() && Filled(t, T(), d, ScanEntry(c, items, i, n))
    {
      hide Filled;
      if WhName(n) in items {
        AddWhiteout(t, d, c, n);
        return;
      }
      var whited := WhPrefixName(n);
      if whited.Some? {
        var above, _ := Cached(t, d, c, whited.value);
        if above.None? {
          AddWhiteout(t, d, c, whited.value);
        }
        return;
      }
      if items[n].WhiteoutItem? {
        AddWhiteout(t, d, c, n);
        return;
      }
      AddChild(t, d, c, n, Seen(i, i, items[n].DirItem?));
    }

    /** All entries of one layer, in whatever order they are listed. */
    method ScanEntries(ghost t: Tree, d: NodeId, ghost c: Cache, items: map<Name, Item>, i: nat)
      requires Valid() && Filled(t, T(), d, c) && forall n :: n in items ==> ValidName(n)
      modifies this`chains, arena
      ensures Valid() && Filled(t, T(), d, ScanLayer(c, items, i))
    {
      hide Filled;
      hide ScannedSome;
      var todo := items.Keys;
      ghost var done, r: Cache := {}, c;
      NothingScanned(c, items, i);
      while todo != {}
        invariant done == items.Keys - todo && todo <= items.Keys
        invariant Valid() && Filled(t, T(), d, r) && ScannedSome(c, items, i, done, r)
        decreases |todo|
      {
        var n :| n in todo;
        ScanOne(t, d, r, items, i, n);
        ScanEntryStep(c, items, i, done, r, n);
        r, done, todo := ScanEntry(r, items, i, n), done + {n}, todo - {n};
      }
      assert done == items.Keys;
      ScanLayerUnique(c, items, i, r);
    }

    /** One layer: nothing, unless the directory can be listed there. */
    method ScanOneLayer(ghost t: Tree, d: NodeId, ghost c: Cache, view: View, i: nat)
      requires Valid() && Filled(t, T(), d, c) && NamesValid(view)
      modifies this`chains, arena
      ensures Valid() && Filled(t, T(), d, ScanView(c, view, i))
    {
      if view.Listing? {
        ScanEntries(t, d, c, view.items, i);
      }
    }

    /** The loop of `load_dir_impl`: the layers from the top, down to the bound, an obstacle or an
        opaque one. */
    method ScanLayers(d: NodeId, views: seq<View>, bound: Option<nat>)
      requires Valid() && d in arena.nodes && arena.nodes[d].IsDir()
      requires forall i :: 0 <= i < |views| ==> NamesValid(views[i])
      modifies this`chains, arena
      ensures Valid() && Filled(old(T()), T(), d, ScanFrom(views, bound, 0, CacheOf(old(T()), d)))
    {
      ghost var t, c := T(), CacheOf(T(), d);
      FilledByNothing(t, d);
      ghost var result := ScanFrom(views, bound, 0, c);
      var i, stop := 0, false;
      while i < |views| && !stop
        invariant 0 <= i <= |views|
        invariant Valid() && Filled(t, T(), d, c) && ScanLeft(views, bound, i, c, stop, result)
      {
        if bound == Some(i) && i > 0 {
          stop := true;
        }
        ScanLeftStep(views, bound, i, c, result);
        ScanOneLayer(t, d, c, views[i], i);
        c := ScanView(c, views[i], i);
        if views[i].NotADir? || views[i].StatFailed? || (views[i].Listing? && views[i].opq) {
          stop := true;
        }
        i := i + 1;
      }
      ScanLeftEnds(views, bound, i, c, stop, result);
    }

    /** `load_dir_impl`, with the calls that examine the layers going as `faults` says. */
    method LoadDir(d: NodeId, bound: Option<nat>, faults: seq<Fault>)
      requires Valid() && d in arena.nodes && arena.nodes[d].IsDir() && |faults| == |disk.layers|
      modifies this`chains, arena
      ensures Valid()
      ensures Loaded(old(S()), d, bound, faults, T())
    {
      ghost var t := T();
      var path := CollectPath(arena.nodes, d, t);
      var views := ViewsUnder(disk.layers, path, faults);
      NamesAreValid(disk.layers, path, faults);
      ScanLayers(d, views, bound);
      FilledDir(t, T(), d, ScanFrom(views, bound, 0, CacheOf(t, d)));
      SetNodeOk(T(), d, arena.nodes[d].SetLoaded(true));
      arena.Update(d, arena.nodes[d].SetLoaded(true));
    }

    /** `reload_dir`. */
    method ReloadDir(d: NodeId, faults: seq<Fault>)
      requires Valid() && d in arena.nodes && |faults| == |disk.layers|
      modifies this`chains, arena
      ensures Valid()
      ensures old(arena.nodes)[d].IsLoaded() || !old(arena.nodes)[d].IsDir() ==> T() == old(T())
      ensures old(arena.nodes)[d].IsDir() && !old(arena.nodes)[d].IsLoaded() ==>
                Loaded(old(S()), d, Some(old(arena.nodes)[d].last), faults, T())
    {
      var node := arena.nodes[d];
      if node.IsDir() && !node.IsLoaded() {
        LoadDir(d, Some(node.last), faults);
      }
    }

    /** The refresh ioctl: the maps are emptied and filled again. Without errors they are then those
        of a fresh scan, whatever was cached before and whoever changed the layers. */
    method Refresh(d: NodeId, faults: seq<Fault>)
      requires Valid() && d in arena.nodes && arena.nodes[d].IsDir() && |faults| == |disk.layers|
      modifies this`chains, arena
      ensures Valid() && d in arena.nodes && arena.nodes[d].IsLoaded()
      ensures NoFaults(faults) ==> CacheOf(T(), d) == ScanOf(disk.layers, PathOf(old(T()), d), old(arena.nodes)[d].last)
    {
      ghost var t := T();
      ClearOk(t, d);
      SameLinksSamePaths(t, SetNode(t, d, arena.nodes[d].ClearChildren()), d);
      arena.Update(d, arena.nodes[d].ClearChildren());
      ghost var cleared := S();
      assert CacheOf(T(), d) == EMPTY;
      var last := arena.nodes[d].last;
      LoadDir(d, Some(last), faults);
      LoadedCache(cleared, d, Some(last), faults, T());
    }

    // ---- Lookups ----

    /** The loop of `do_lazy_lookup`. */
    method FindLazily(views: seq<View>, bound: nat, n: Name) returns (r: Outcome)
      ensures r == LazyResult(views, bound, n)
      ensures r.Found? ==> exists i :: 0 <= i < |views| && n in Items(views[i])
    {
      var found: Option<Seen> := None;
      var i, stop := 0, false;
      while i < |views| && !stop
        invariant 0 <= i <= |views|
        invariant if stop then Finish(found) == LazyResult(views, bound, n)
                  else LazyFrom(views, bound, i, n, found) == LazyResult(views, bound, n)
        invariant found.Some? ==> exists j :: 0 <= j < |views| && n in Items(views[j])
      {
        if bound == i && i > 0 {
          stop := true;
        }
        if views[i].StatFailed? && !views[i].denied {
          return NotFound;
        }
        var items := Items(views[i]);
        if n !in items {
          if found.None? && WhName(n) in items {
            return HiddenBy(n);
          }
        } else if found.Some? {
          found := Some(found.value.(last := i));
        } else if WhName(n) in items {
          return HiddenBy(n);
        } else if WhPrefixName(n).Some? {
          return HiddenBy(WhPrefixName(n).value);
        } else if items[n].WhiteoutItem? {
          return HiddenBy(n);
        } else {
          found := Some(Seen(i, i, items[n].DirItem?));
          if items[n] == DirItem(true) {
            stop := true;
          }
        }
        i := i + 1;
      }
      r := Finish(found);
    }

    /** `do_lazy_lookup`: what is found becomes a child, what hides the name is remembered. */
    method LazyLookup(d: NodeId, n: Name, faults: seq<Fault>) returns (r: Option<NodeId>)
      requires Valid() && d in arena.nodes && |faults| == |disk.layers|
      modifies this`chains, arena
      ensures Valid()
      ensures var result := LazyResult(ViewsUnder(disk.layers, PathOf(old(T()), d), faults), old(arena.nodes)[d].last, n);
              && LookedUp(old(T()), d, n, result, T())
              && r == if result.Found? then Some(old(arena.nextId)) else None
    {
      hide LazyResult;
      hide InsertChild;
      hide TreeOk;
      InChains(T(), d);
      var path := CollectPath(arena.nodes, d, T());
      var views := ViewsUnder(disk.layers, path, faults);
      NamesAreValid(disk.layers, path, faults);
      var result := FindLazily(views, arena.nodes[d].last, n);
      FoundIsValid(views, n, result);
      match result
      case Found(seen) =>
        var ino, dev: nat := *, *;
        var id := InsertChildNode(d, NewNode(n, seen.layer, InodeKey(ino, dev), seen.isDir).(last := seen.last));
        r := Some(id);
      case HiddenBy(w) =>
        SetNodeOk(T(), d, arena.nodes[d].InsertWhiteout(w));
        arena.Update(d, arena.nodes[d].InsertWhiteout(w));
        r := None;
      case NotFound =>
        r := None;
    }

    /** `do_lookup_file`: the cached child, the cached whiteout, or a lookup on the layers. */
    method LookupFile(d: NodeId, n: Name, faults: seq<Fault>) returns (r: Option<NodeId>)
      requires Valid() && d in arena.nodes && arena.nodes[d].IsDir() && |faults| == |disk.layers|
      modifies this`chains, arena
      ensures Valid()
      ensures d in arena.nodes && r == arena.nodes[d].GetChild(n)
      ensures old(arena.nodes)[d].IsLoaded() || old(arena.nodes)[d].IsWhiteout(n) || n in old(arena.nodes)[d].Children() ==> T() == old(T())
      ensures IsCached(old(T()), d, n) ==> T() == old(T())
      ensures !IsCached(old(T()), d, n) ==>
                LookedUp(old(T()), d, n, LazyResult(ViewsUnder(disk.layers, PathOf(old(T()), d), faults), old(arena.nodes)[d].last, n), T())
    {
      var node := arena.nodes[d];
      var known := node.GetChild(n);
      if known.Some? {
        return known;
      }
      if node.IsWhiteout(n) || node.IsLoaded() {
        return None;
      }
      InsertedIsChild(T(), d, n);
      r := LazyLookup(d, n, faults);
    }

    // ---- Removal ----

    /** The fallback of `hide_node`: a whiteout, and then a plain rename into the workdir. If the
        marker was written and the rename then failed, the marker stays. */
    method CoverThenMove(q: Path, w: nat) returns (ok: bool)
      requires disk.Valid() && w !in disk.work && q != []
      requires q in disk.layers[0] && disk.layers[0][q] != Whiteout && MarkerOf(q) !in disk.layers[0]
      modifies disk
      ensures old(disk.refusals) <= disk.refusals
      ensures disk.Valid() && disk.work.Keys <= old(disk.work.Keys) + {w}
      ensures ok ==> disk.layers == Removed(old(disk.layers), q, Marker)
      ensures !ok ==> disk.layers == old(disk.layers) || (!canMknod && disk.layers == MarkerAdded(old(disk.layers), q))
      ensures disk.refusals == old(disk.refusals) && !canMknod ==> ok
    {
      ghost var was := disk.layers;
      MarkerHasRoom(was[0], q);
      var covered, _, _ := CreateWhiteout(disk, q, canMknod);
      if !covered {
        return false;
      }
      MarkerThenMove(was[0], q);
      ok := disk.RenameOut(q, w, false);
    }

    /** The disk's part of `hide_node`: RENAME_WHITEOUT, else the fallback, where a whiteout is
        called for, and a plain rename where not. */
    method HideOnDisk(q: Path, needsWhiteout: bool) returns (ok: bool, cover: Cover)
      requires disk.Valid() && NamesBelow(disk.work, wdCounter) && CanRemove(disk.layers, q)
      modifies this`wdCounter, disk
      ensures old(disk.refusals) <= disk.refusals
      ensures disk.Valid() && NamesBelow(disk.work, wdCounter)
      ensures cover == Nothing <==> !needsWhiteout
      ensures ok ==> disk.layers == Removed(old(disk.layers), q, cover)
      ensures !ok ==> || disk.layers == old(disk.layers)
                      || (needsWhiteout && !canMknod && disk.layers == MarkerAdded(old(disk.layers), q))
      ensures disk.refusals == old(disk.refusals) ==> ok
    {
      RemovableEntry(disk.layers, q);
      var w := wdCounter;
      wdCounter := wdCounter + 1;
      if !needsWhiteout {
        ok := disk.RenameOut(q, w, false);
        return ok, Nothing;
      }
      if canMknod {
        ok := disk.RenameOut(q, w, true);
        if ok {
          return ok, Device;
        }
      }
      cover := Marker;
      ok := CoverThenMove(q, w);
    }

    /** The end of `hide_node`: the node is hidden, and its parent is marked for a new scan. */
    method MarkHidden(d: NodeId, id: NodeId)
      requires arena.Valid() && d in arena.nodes && id in arena.nodes && id != d
      modifies arena`nodes
      ensures arena.Valid()
      ensures arena.nodes == old(arena.nodes)[id := old(arena.nodes)[id].(hidden := true, parent := None)]
                                            [d := old(arena.nodes)[d].SetLoaded(false)]
    {
      arena.Update(id, arena.nodes[id].(hidden := true, parent := None));
      arena.Update(d, arena.nodes[d].SetLoaded(false));
    }

    /** What `hide_node` and `do_rm` do to the cache: the node leaves its parent's map and the arena. */
    method DropEntry(d: NodeId, n: Name, id: NodeId)
      requires arena.Valid() && d in arena.nodes && id in arena.nodes && id != d && arena.nodes[d].GetChild(n) == Some(id)
      modifies arena`nodes, arena`statNodes
      ensures arena.Valid()
      ensures arena.nodes == old(arena.nodes)[d := old(arena.nodes)[d].SetLoaded(false).RemoveChild(n)] - {id}
    {
      DroppedNodes(arena.nodes, d, n, id);
      MarkHidden(d, id);
      arena.Update(d, arena.nodes[d].RemoveChild(n));
      var _ := arena.Remove(id);
    }

    /** `hide_node`, and the removal from the cache. */
    method RemoveEntry(d: NodeId, n: Name) returns (ok: bool, cover: Cover)
      requires Valid() && d in arena.nodes && n in arena.nodes[d].Children() && EntryOk(T(), d, n)
      requires CanRemove(disk.layers, PathOf(T(), d) + [n])
      modifies this`wdCounter, arena`nodes, arena`statNodes, disk
      ensures old(disk.refusals) <= disk.refusals
      ensures Valid()
      ensures cover == Nothing <==> !NeedsWhiteout(old(arena.nodes)[old(arena.nodes)[d].Children()[n]].last, old(arena.nodes)[d].last)
      ensures ok ==> S() == State(RmTree(old(T()), d, n), Removed(old(disk.layers), PathOf(old(T()), d) + [n], cover))
      ensures !ok ==> T() == old(T())
      ensures !ok ==> || disk.layers == old(disk.layers)
                      || (!canMknod && disk.layers == MarkerAdded(old(disk.layers), PathOf(old(T()), d) + [n]))
      ensures disk.refusals == old(disk.refusals) ==> ok
    {
      hide RmTree;
      hide Removed;
      hide CanRemove;
      var id := arena.nodes[d].Children()[n];
      EntryToRemove(T(), d, n);
      var q := CollectPath(arena.nodes, id, T());
      ok, cover := HideOnDisk(q, arena.nodes[id].last > 0 || arena.nodes[d].last > 0);
      if ok {
        DropEntry(d, n, id);
      }
    }

    // ---- Steps of a coherent session that are not seen ----

    method LookupInSession(d: NodeId, n: Name, faults: seq<Fault>) returns (r: Option<NodeId>)
      requires Valid() && Coherent(S()) && d in arena.nodes && arena.nodes[d].IsDir() && !IsWh(n)
      requires |faults| == |disk.layers| && NoFaults(faults)
      modifies this`chains, arena
      ensures Valid() && Unseen(old(S()), S())
      ensures d in arena.nodes && r == arena.nodes[d].GetChild(n)
      ensures r.None? ==> Resolved(S(), d, n)
    {
      ghost var s := S();
      NoFaultsSeeAll(disk.layers, PathOf(T(), d), faults);
      r := LookupFile(d, n, faults);
      if IsCached(s.t, d, n) {
        UnseenReflexive(s);
      } else {
        LooksUnseen(s, d, n, S());
        LookedUpResolved(s, d, n, S());
      }
    }

    method ReloadInSession(d: NodeId, faults: seq<Fault>)
      requires Valid() && Coherent(S()) && d in arena.nodes && |faults| == |disk.layers| && NoFaults(faults)
      modifies this`chains, arena
      ensures Valid() && Unseen(old(S()), S())
      ensures d in arena.nodes && (arena.nodes[d].IsDir() ==> arena.nodes[d].IsLoaded())
    {
      ghost var s := S();
      var reload := arena.nodes[d].IsDir() && !arena.nodes[d].IsLoaded();
      ReloadDir(d, faults);
      if reload {
        LoadedLoads(s, d, faults, T());
        LoadsUnseen(s, d, S());
      } else {
        UnseenReflexive(s);
      }
    }

    method UpInSession(id: NodeId) returns (ok: bool, ghost copied: seq<NodeId>)
      requires Valid() && Coherent(S()) && id in arena.nodes
      modifies this`wdCounter, arena`nodes, disk
      ensures old(disk.refusals) <= disk.refusals
      ensures Valid() && WentUp(old(S()), copied, S())
      ensures ok ==> id in arena.nodes && arena.nodes[id].layer == 0
      ensures disk.refusals == old(disk.refusals) ==> ok
      ensures AlwaysSame(old(disk.layers), old(disk.history), disk.history)
    {
      ghost var s := S();
      SessionIsReady(s, id);
      ok, wdCounter, copied := GetNodeUp(arena, disk, root, chains, id, wdCounter, devices);
      CopiesWentUp(s, id, copied, S());
    }

    /** The copy-ups of a node and of a directory, one after the other. */
    method UpBoth(id: NodeId, d: NodeId) returns (ok: bool, ghost copied: seq<NodeId>)
      requires Valid() && Coherent(S()) && id in arena.nodes && d in arena.nodes
      modifies this`wdCounter, arena`nodes, disk
      ensures old(disk.refusals) <= disk.refusals
      ensures Valid() && WentUp(old(S()), copied, S())
      ensures ok ==> arena.nodes.Keys == old(arena.nodes.Keys) && arena.nodes[id].layer == 0 && arena.nodes[d].layer == 0
      ensures disk.refusals == old(disk.refusals) ==> ok
    {
      ghost var s := S();
      ok, copied := UpInSession(id);
      if !ok {
        return;
      }
      ghost var mid, more := S(), [];
      ok, more := UpInSession(d);
      WentUpTwice(s, copied, mid, more, S());
      copied := copied + more;
    }

    /** The emptiness check of `do_rm`: a directory is scanned, and counts as empty if all its
        children are hidden. */
    method IsEmptyDir(id: NodeId, faults: seq<Fault>) returns (empty: bool)
      requires Valid() && Coherent(S()) && id in arena.nodes && |faults| == |disk.layers| && NoFaults(faults)
      modifies this`chains, arena
      ensures Valid() && Unseen(old(S()), S()) && id in arena.nodes
      ensures empty <==> arena.nodes[id].Children() == map[]
      ensures arena.nodes[id].IsDir() ==> arena.nodes[id].IsLoaded()
    {
      ReloadInSession(id, faults);
      var children := arena.nodes[id].Children();
      NoneHidden(S(), id);
      empty := forall k :: k in children ==> arena.nodes[children[k]].hidden;
    }

    /** The lookup of `do_rm` and its checks. The kernel asks for unlink or rmdir by the kind of the entry. */
    method FindRemovable(d: NodeId, n: Name, isDir: bool, faults: seq<Fault>) returns (r: Option<NodeId>)
      requires Valid() && Coherent(S()) && d in arena.nodes && arena.nodes[d].IsDir() && !IsWh(n)
      requires |faults| == |disk.layers| && NoFaults(faults)
      modifies this`chains, arena
      ensures Valid() && Unseen(old(S()), S())
      ensures r.Some? <==> CanUnlink(disk.layers, PathOf(old(T()), d) + [n], isDir)
      ensures r.Some? ==> Removable(T(), d, n, r.value)
    {
      hide Unseen;
      hide Coherent;
      hide Fresh;
      hide Resolved;
      hide ShownEmpty;
      ghost var s := S();
      r := LookupInSession(d, n, faults);
      ghost var looked := S();
      FoundIsShown(s, looked, d, n);
      if r.None? {
        return;
      }
      var id := r.value;
      UnseenCoherent(s, looked);
      UnseenNode(s, looked, d);
      EntryAmongNodes(looked, d, n);
      if arena.nodes[id].IsDir() != isDir {
        return None;
      }
      if isDir {
        var empty := IsEmptyDir(id, faults);
        UnseenTransitive(s, looked, S());
        UnseenNode(looked, S(), d);
        UnseenNode(looked, S(), id);
        EmptyIsShown(s, looked, S(), id);
        if !empty {
          r := None;
        }
      }
    }

    /** `do_rm` up to the hiding: the lookup, the emptiness check, and the copy-up of the node and of
        its parent. */
    method PrepareRm(d: NodeId, n: Name, isDir: bool, faults: seq<Fault>) returns (ok: bool)
      requires Valid() && Coherent(S()) && d in arena.nodes && arena.nodes[d].IsDir() && !IsWh(n)
      requires |faults| == |disk.layers| && NoFaults(faults)
      modifies this`chains, this`wdCounter, arena, disk
      ensures old(disk.refusals) <= disk.refusals
      ensures Valid() && Unseen(old(S()), S())
      ensures ok ==> RmReady(S(), d, n) && CanUnlink(old(disk.layers), PathOf(old(T()), d) + [n], isDir)
      ensures disk.refusals == old(disk.refusals) && CanUnlink(old(disk.layers), PathOf(old(T()), d) + [n], isDir) ==> ok
    {
      hide CanUnlink;
      ghost var s := S();
      var found := FindRemovable(d, n, isDir, faults);
      if found.None? {
        return false;
      }
      ghost var mid, copied := S(), [];
      ok, copied := UpBoth(found.value, d);
      UnseenTransitive(s, mid, S());
      if ok {
        ReadyToRemove(mid, d, n, found.value, copied, S());
      }
    }

    /** `do_rm`: unlink and rmdir. On success the one name, with what was below it, is gone from what
        is shown, everything else is as it was, and the session is coherent. On failure the cache is
        right, and the disk shows what it showed unless a marker was written whose rename failed. It
        succeeds only if an entry of the kind is shown, and a directory is shown empty; and then it
        does if no call is refused. */
    method DoRm(d: NodeId, n: Name, isDir: bool, faults: seq<Fault>) returns (ok: bool, ghost mid: State, ghost cover: Cover)
      requires Valid() && Coherent(S()) && d in arena.nodes && arena.nodes[d].IsDir() && !IsWh(n)
      requires |faults| == |disk.layers| && NoFaults(faults)
      modifies this`chains, this`wdCounter, arena, disk
      ensures old(disk.refusals) <= disk.refusals
      ensures Valid() && Unseen(old(S()), mid)
      ensures ok ==> Removes(mid, d, n, cover, S()) && Coherent(S())
      ensures ok ==> GoneFrom(old(disk.layers), disk.layers, PathOf(old(T()), d) + [n])
      ensures !ok ==> T() == mid.t
      ensures !ok ==> || disk.layers == mid.layers
                      || (!canMknod && disk.layers == MarkerAdded(mid.layers, PathOf(old(T()), d) + [n]))
      ensures !ok ==> (Coherent(S()) <==> disk.layers == mid.layers)
      ensures ok ==> CanUnlink(old(disk.layers), PathOf(old(T()), d) + [n], isDir)
      ensures disk.refusals == old(disk.refusals) && CanUnlink(old(disk.layers), PathOf(old(T()), d) + [n], isDir) ==> ok
    {
      ghost var s := S();
      ok := PrepareRm(d, n, isDir, faults);
      mid, cover := S(), Nothing;
      if !ok {
        return;
      }
      assert NodeSteady(s.t, mid.t, d);
      RemovableNode(mid, d, n);
      ok, cover := RemoveEntry(d, n);
      if ok {
        RemovalIsSeen(s, mid, d, n, cover, S());
      } else if disk.layers != mid.layers {
        MarkedChildIsHidden(S(), d, n);
      }
    }

    // ---- Creation ----

    /** The rename of a creation; for a directory, something in the way that is none is unlinked. */
    method MoveIntoPlace(w: nat, q: Path, isDir: bool) returns (ok: bool)
      requires disk.Valid() && w in disk.work && q != [] && (isDir <==> disk.work[w][[]].Dir?)
      modifies disk
      ensures old(disk.refusals) <= disk.refusals
      ensures disk.refusals == old(disk.refusals) && CanPlace(old(disk.layers[0]), q, isDir) ==> ok
      ensures disk.refusals == old(disk.refusals) && DirOverOther(old(disk.layers[0]), q, isDir) ==> ok
      ensures disk.Valid() && disk.work.Keys <= old(disk.work.Keys)
      ensures ok ==> disk.layers == WithUpper(old(disk.layers), Planted(old(disk.layers[0]), q, old(disk.work)[w]))
      ensures !ok ==> disk.layers == old(disk.layers) || (isDir && disk.layers == WithUpper(old(disk.layers), old(disk.layers[0]) - {q}))
    {
      ghost var up, tree := disk.layers[0], disk.work[w];
      var r := disk.RenameIn(w, q);
      if isDir && r == Err(ENOTDIR) {
        var _ := disk.Unlink(q);
        assert WithoutSubtree(up - {q}, q) == WithoutSubtree(up, q);
        assert DirOverOther(up, q, isDir) ==> CanPlace(up - {q}, q, isDir);
        r := disk.RenameIn(w, q);
      }
      if r.Err? {
        disk.RemoveWork(w);
      }
      ok := r.Ok?;
    }

    /** A new entry in the workdir, opaque if it is a directory that is to be. */
    method StageEntry(w: nat, e: Entry, opq: bool) returns (ok: bool, ghost made: Entry, ghost sentinel: bool)
      requires disk.Valid() && w !in disk.work && (e.File? || e == Entry.Dir(false))
      modifies disk`work, disk`refusals
      ensures old(disk.refusals) <= disk.refusals
      ensures disk.refusals == old(disk.refusals) ==> ok && (e.Dir? && opq ==> made == Entry.Dir(true) || sentinel)
      ensures disk.Valid() && disk.work.Keys <= old(disk.work.Keys) + {w}
      ensures IsMade(e, opq, made, sentinel)
      ensures ok ==> w in disk.work && disk.work[w] == WorkTree(made, sentinel)
    {
      made, sentinel := e, false;
      ok := disk.MakeWork(w, e);
      if !ok || !e.Dir? || !opq {
        return;
      }
      var reached := disk.Reach();
      if reached {
        var _ := SetOpaque(disk, w);
        ghost var xattr, inside :| disk.work[w] == OpaqueWork(xattr, inside) && (disk.refusals == old(disk.refusals) ==> xattr || inside);
        made, sentinel := Entry.Dir(xattr), inside;
        assert disk.work.Keys == (disk.work - {w}).Keys + {w};
      }
    }

    /** An entry is made in the workdir and moved into place, and whiteouts of the name are deleted
        afterwards. */
    method PlaceStaged(q: Path, e: Entry, opq: bool) returns (ok: bool, ghost made: Entry, ghost sentinel: bool)
      requires disk.Valid() && NamesBelow(disk.work, wdCounter) && Free(disk.layers, q)
      requires e.File? || e == Entry.Dir(false)
      modifies this`wdCounter, disk
      ensures old(disk.refusals) <= disk.refusals
      ensures disk.refusals == old(disk.refusals) ==> ok && (e.Dir? && opq ==> made == Entry.Dir(true) || sentinel)
      ensures disk.Valid() && NamesBelow(disk.work, wdCounter) && IsMade(e, opq, made, sentinel)
      ensures ok && MarkerOf(q) !in disk.layers[0] ==>
                disk.layers == WithUpper(old(disk.layers), MadeUpper(old(disk.layers[0]), q, made, sentinel))
      ensures ok ==> q in disk.layers[0]
      ensures ok && disk.refusals == old(disk.refusals) ==> MarkerOf(q) !in disk.layers[0]
      ensures !ok ==> disk.layers == WithUpper(old(disk.layers), disk.layers[0])
                      && OnlyHidersGone(old(disk.layers[0]), disk.layers[0], q)
    {
      hide MadeUpper;
      hide Planted;
      hide Free;
      hide CanPlace;
      hide DirOverOther;
      hide OnlyHidersGone;
      ghost var was := disk.layers;
      FreeIsPlaceable(was, q, e.Dir?);
      NothingHidesMore(was, q);
      var w := wdCounter;
      wdCounter := wdCounter + 1;
      ok, made, sentinel := StageEntry(w, e, opq);
      if !ok {
        return;
      }
      ok := MoveIntoPlace(w, q, e.Dir?);
      if ok {
        ghost var planted := disk.layers[0];
        PlantedKeepsMarker(was, q, WorkTree(made, sentinel));
        PlantedStands(was[0], q, made, sentinel);
        var _ := DeleteWhiteout(disk, q, devices);
        if MarkerOf(q) !in disk.layers[0] {
          PlantedIsMade(was, q, made, sentinel, planted, disk.layers[0]);
        }
      }
    }

    /** The disk's part of a creation: staged, or, for `create` of a name that is no known whiteout,
        opened in place. */
    method PlaceEntry(q: Path, e: Entry, staged: bool, opq: bool) returns (ok: bool, ghost made: Entry, ghost sentinel: bool)
      requires disk.Valid() && NamesBelow(disk.work, wdCounter) && Free(disk.layers, q)
      requires e.File? || e == Entry.Dir(false)
      requires !staged ==> e == File(Regular([])) && q !in disk.layers[0] && MarkerOf(q) !in disk.layers[0]
      modifies this`wdCounter, disk
      ensures old(disk.refusals) <= disk.refusals
      ensures disk.refusals == old(disk.refusals) ==> ok && (e.Dir? && opq ==> made == Entry.Dir(true) || sentinel)
      ensures disk.Valid() && NamesBelow(disk.work, wdCounter) && IsMade(e, opq, made, sentinel)
      ensures ok && MarkerOf(q) !in disk.layers[0] ==>
                disk.layers == WithUpper(old(disk.layers), if staged then MadeUpper(old(disk.layers[0]), q, made, sentinel)
                                                           else old(disk.layers[0])[q := made])
      ensures ok ==> q in disk.layers[0]
      ensures ok && disk.refusals == old(disk.refusals) ==> MarkerOf(q) !in disk.layers[0]
      ensures !ok ==> disk.layers == WithUpper(old(disk.layers), disk.layers[0])
                      && OnlyHidersGone(old(disk.layers[0]), disk.layers[0], q)
    {
      if staged {
        ok, made, sentinel := PlaceStaged(q, e, opq);
      } else {
        made, sentinel := e, false;
        MarkersDiffer(q, q);
        ok := disk.Touch(q);
      }
    }

    /** The lookup that must find nothing, and the copy-up of the parent. */
    method PrepareCreate(d: NodeId, n: Name, faults: seq<Fault>) returns (ok: bool)
      requires Valid() && Coherent(S()) && d in arena.nodes && arena.nodes[d].IsDir()
      requires Ordinary(n) && |faults| == |disk.layers| && NoFaults(faults)
      modifies this`chains, this`wdCounter, arena, disk
      ensures old(disk.refusals) <= disk.refusals
      ensures Valid() && Unseen(old(S()), S())
      ensures ok ==> ReadyToCreate(S(), d, n) && Fresh(old(disk.layers), PathOf(old(T()), d) + [n]) == None
      ensures disk.refusals == old(disk.refusals) && Fresh(old(disk.layers), PathOf(old(T()), d) + [n]) == None ==> ok
    {
      hide Fresh;
      ghost var s := S();
      var found := LookupInSession(d, n, faults);
      FoundIsShown(s, S(), d, n);
      if found.Some? {
        return false;
      }
      ghost var looked, copied := S(), [];
      assert NodeSteady(s.t, looked.t, d);
      ok, copied := UpInSession(d);
      UnseenTransitive(s, looked, S());
      if ok {
        CreationPlace(looked, d, n, copied, S());
      }
    }

    /** The entry on disk. */
    method PlaceNew(d: NodeId, n: Name, e: Entry, inPlace: bool)
      returns (ok: bool, q: Path, ghost made: Entry, ghost staged: bool, ghost sentinel: bool)
      requires Valid() && ReadyToCreate(S(), d, n) && Ordinary(n)
      requires (e.File? || e == Entry.Dir(false)) && (inPlace ==> e == File(Regular([])))
      modifies this`wdCounter, disk
      ensures old(disk.refusals) <= disk.refusals
      ensures Valid() && T() == old(T()) && IsMade(e, true, made, sentinel) && q == PathOf(T(), d) + [n]
      ensures !ok ==> Clears(old(S()), q, S())
      ensures ok ==> q in disk.layers[0] && LeftBehind(old(S()), d, n, made, staged, sentinel, InodeKey(0, 0), S())
      ensures disk.refusals == old(disk.refusals) ==> ok && MarkerOf(q) !in disk.layers[0] && IsOpaqueIfAsked(old(S()), d, made, sentinel)
    {
      hide OnlyHidersGone;
      hide Creates;
      hide MadeUpper;
      hide Coherent;
      hide Resolved;
      ghost var s := S();
      var throughWork := !inPlace || arena.nodes[d].IsWhiteout(n);
      staged := throughWork;
      var p := CollectPath(arena.nodes, d, T());
      q := p + [n];
      assert MarkerOf(q) == p + [WhName(n)];
      ok, made, sentinel := PlaceEntry(q, e, throughWork, arena.nodes[d].last > 0);
      if ok && MarkerOf(q) !in disk.layers[0] {
        CreationIsStep(s, d, n, e, made, staged, sentinel, InodeKey(0, 0),
                       State(InsertChild(s.t, d, NewNode(n, 0, InodeKey(0, 0), e.Dir?).SetLoaded(true)), disk.layers));
      }
    }

    /** The entry on disk, and the new node in the cache. When the entry is on the disk the last stat
        may still fail, and nothing is registered then. */
    method MakeEntry(d: NodeId, n: Name, e: Entry, inPlace: bool)
      returns (ok: bool, ghost made: Entry, ghost staged: bool, ghost sentinel: bool, key: InodeKey)
      requires Valid() && ReadyToCreate(S(), d, n) && Ordinary(n)
      requires (e.File? || e == Entry.Dir(false)) && (inPlace ==> e == File(Regular([])))
      modifies this`chains, this`wdCounter, arena, disk
      ensures old(disk.refusals) <= disk.refusals
      ensures Valid() && IsMade(e, true, made, sentinel)
      ensures !ok ==> Clears(old(S()), PathOf(old(T()), d) + [n], S())
                      || LeftBehind(old(S()), d, n, made, staged, sentinel, key, S())
      ensures ok ==> T() == InsertChild(old(T()), d, NewNode(n, 0, key, made.Dir?).SetLoaded(true))
      ensures ok && PathOf(old(T()), d) + [WhName(n)] !in disk.layers[0] ==> Creates(old(S()), d, n, made, staged, sentinel, key, S())
      ensures disk.refusals == old(disk.refusals) ==>
                ok && PathOf(old(T()), d) + [WhName(n)] !in disk.layers[0] && IsOpaqueIfAsked(old(S()), d, made, sentinel)
    {
      hide Clears;
      hide Creates;
      hide Coherent;
      hide Resolved;
      hide IsOpaqueIfAsked;
      ghost var s := S();
      var q;
      ok, q, made, staged, sentinel := PlaceNew(d, n, e, inPlace);
      key := InodeKey(0, 0);
      if !ok {
        return;
      }
      assert MarkerOf(q) == PathOf(s.t, d) + [WhName(n)];
      var there := disk.Stat(0, q);
      ok := there.Some?;
      if ok {
        key := RegisterMade(s, d, n, e, made, staged, sentinel);
      }
    }

    /** The new node. */
    method RegisterMade(ghost s: State, d: NodeId, n: Name, e: Entry, ghost made: Entry, ghost staged: bool, ghost sentinel: bool)
      returns (key: InodeKey)
      requires Valid() && d in arena.nodes && T() == s.t && ValidName(n) && d in s.t.chains && made.Dir? == e.Dir?
      requires var k := InodeKey(0, 0);
               PathOf(T(), d) + [WhName(n)] !in disk.layers[0] ==>
                 Creates(s, d, n, made, staged, sentinel, k, State(InsertChild(s.t, d, NewNode(n, 0, k, e.Dir?).SetLoaded(true)), disk.layers))
      modifies this`chains, arena
      ensures Valid() && T() == InsertChild(old(T()), d, NewNode(n, 0, key, made.Dir?).SetLoaded(true))
      ensures PathOf(old(T()), d) + [WhName(n)] !in disk.layers[0] ==> Creates(s, d, n, made, staged, sentinel, key, S())
    {
      hide TreeOk;
      hide InsertChild;
      var ino, dev: nat := *, *;
      key := InodeKey(ino, dev);
      var _ := InsertChildNode(d, NewNode(n, 0, key, e.Dir?).SetLoaded(true));
    }

    /** `mkdir`, `mknod`, `symlink` and `create`: a lookup that must find nothing, the copy-up of the
        parent, the entry on disk, and the new node in the cache. With the marker of the name gone
        from the disk, the creation is a step of the session, and the session is coherent exactly then,
        provided that no lower layer has the name. On failure whiteouts of the name may be gone, which is
        not seen exactly if none is or no lower layer has the name; or the entry is left behind, and the
        session is coherent exactly if the directory as it is cached does not deny the name and its marker
        is gone. It succeeds only if nothing is shown at the name; and then it does if no call is refused,
        with the marker gone and a directory opaque if its parent reaches below the upper layer. */
    method CreateEntry(d: NodeId, n: Name, e: Entry, inPlace: bool, faults: seq<Fault>)
      returns (ok: bool, ghost mid: State, ghost made: Entry, ghost staged: bool, ghost sentinel: bool, key: InodeKey)
      requires Valid() && Coherent(S()) && d in arena.nodes && arena.nodes[d].IsDir()
      requires Ordinary(n)
      requires (e.File? || e == Entry.Dir(false)) && (inPlace ==> e == File(Regular([])))
      requires |faults| == |disk.layers| && NoFaults(faults)
      modifies this`chains, this`wdCounter, arena, disk
      ensures old(disk.refusals) <= disk.refusals
      ensures Valid() && Unseen(old(S()), mid) && d in mid.t.nodes
      ensures !ok ==> || (Clears(mid, PathOf(old(T()), d) + [n], S())
                          && (Unseen(old(S()), S()) <==> disk.layers == mid.layers || !InLower(disk.layers, PathOf(old(T()), d) + [n])))
                      || (LeftBehind(mid, d, n, made, staged, sentinel, key, S())
                          && (Coherent(S()) <==> OpenTo(mid.t, d, n) && PathOf(old(T()), d) + [WhName(n)] !in disk.layers[0]))
      ensures ok && PathOf(old(T()), d) + [WhName(n)] !in disk.layers[0] ==>
                Creates(mid, d, n, made, staged, sentinel, key, S()) && IsMade(e, true, made, sentinel)
      ensures ok ==> (Coherent(S()) <==> PathOf(old(T()), d) + [WhName(n)] !in disk.layers[0]
                                         && !InLower(disk.layers, PathOf(old(T()), d) + [n]))
      ensures ok ==> Fresh(old(disk.layers), PathOf(old(T()), d) + [n]) == None
      ensures disk.refusals == old(disk.refusals) && Fresh(old(disk.layers), PathOf(old(T()), d) + [n]) == None ==>
                ok && PathOf(old(T()), d) + [WhName(n)] !in disk.layers[0] && IsOpaqueIfAsked(mid, d, made, sentinel)
    {
      hide Clears;
      hide LeftBehind;
      ghost var s, q := S(), PathOf(T(), d) + [n];
      made, staged, sentinel, key := e, !inPlace, false, InodeKey(0, 0);
      ok := PrepareCreate(d, n, faults);
      mid := S();
      assert NodeSteady(s.t, mid.t, d);
      if !ok {
        ClearsNothing(mid, q);
        return;
      }
      ok, made, staged, sentinel, key := MakeEntry(d, n, e, inPlace);
      if ok {
        CreatedCoherent(mid, d, n, made, staged, sentinel, key, S());
      } else if Clears(mid, q, S()) {
        FailedCreation(s, mid, d, n, S());
      } else {
        LeftBehindCoherent(mid, d, n, made, staged, sentinel, key, S());
      }
    }
  }

  /** The entry is on the disk and not in the cache; with its marker gone, it is what was asked for. */
  ghost predicate LeftBehind(s: State, d: NodeId, n: Name, made: Entry, staged: bool, sentinel: bool, key: InodeKey, out: State)
    requires TreeOk(s.t) && d in s.t.nodes
  {
    && out.t == s.t && out.layers != [] && PathOf(s.t, d) + [n] in out.layers[0]
    && (PathOf(s.t, d) + [WhName(n)] !in out.layers[0] ==> CreatesUnregistered(s, d, n, made, staged, sentinel, key, out))
  }

  lemma LeftBehindCoherent(s: State, d: NodeId, n: Name, made: Entry, staged: bool, sentinel: bool, key: InodeKey, out: State)
    requires TreeOk(s.t) && ReadyToCreate(s, d, n) && Ordinary(n) && LeftBehind(s, d, n, made, staged, sentinel, key, out)
    ensures Coherent(out) <==> OpenTo(s.t, d, n) && PathOf(s.t, d) + [WhName(n)] !in out.layers[0]
  {
    hide CreatesUnregistered;
    var p, q := PathOf(s.t, d), PathOf(s.t, d) + [n];
    if p + [WhName(n)] !in out.layers[0] {
      LeftOpenIff(s, d, n, made, staged, sentinel, key, out);
    } else {
      assert MarkerOf(q) == p + [WhName(n)];
      BesideItsMarker(out.layers, q);
    }
  }

  /** Also where a lower layer has the name: there the directory remembers its whiteout. */
  lemma LeftOpenIff(s: State, d: NodeId, n: Name, made: Entry, staged: bool, sentinel: bool, key: InodeKey, out: State)
    requires TreeOk(s.t) && ReadyToCreate(s, d, n) && Ordinary(n) && CreatesUnregistered(s, d, n, made, staged, sentinel, key, out)
    ensures Coherent(out) <==> OpenTo(s.t, d, n)
  {
    hide CreatesUnregistered;
    hide Coherent;
    hide Resolved;
    hide Free;
    var q := PathOf(s.t, d) + [n];
    LeftTree(s, d, n, made, staged, sentinel, key, out);
    if !InLower(s.layers, q) {
      UnregisteredIsCoherentIff(s, d, n, made, staged, sentinel, key, out);
    } else {
      RememberedWhiteout(s, d, n);
      LeftIsShown(s, d, n, made, staged, sentinel, key, out);
      if Coherent(out) {
        FineDir(out, d, n);
      }
    }
  }

  /** A name that a lower layer has and nothing shows is remembered as a whiteout. */
  lemma RememberedWhiteout(s: State, d: NodeId, n: Name)
    requires TreeOk(s.t) && ReadyToCreate(s, d, n) && Ordinary(n) && InLower(s.layers, PathOf(s.t, d) + [n])
    ensures s.t.nodes[d].IsWhiteout(n)
  {
    CreationIsFree(s, d, n);
  }

  lemma LeftTree(s: State, d: NodeId, n: Name, made: Entry, staged: bool, sentinel: bool, key: InodeKey, out: State)
    requires CreatesUnregistered(s, d, n, made, staged, sentinel, key, out)
    ensures out.t == s.t
  {}

  lemma LeftIsShown(s: State, d: NodeId, n: Name, made: Entry, staged: bool, sentinel: bool, key: InodeKey, out: State)
    requires Coherent(s) && Ordinary(n) && CreatesUnregistered(s, d, n, made, staged, sentinel, key, out)
    ensures out.layers != [] && InMerge(out.layers, PathOf(s.t, d), n)
  {
    var q := PathOf(s.t, d) + [n];
    assert Parent(q) == PathOf(s.t, d) && Last(q) == n;
    CreatedUpper(s, d, n, made, staged, sentinel, key,
                 State(InsertChild(s.t, d, NewNode(n, 0, key, made.Dir?).SetLoaded(true)), out.layers));
    MadeChange(s.layers, q, made, sentinel);
  }

  lemma BesideItsMarker(layers: seq<Layer>, q: Path)
    requires layers != [] && q != [] && q in layers[0] && MarkerOf(q) in layers[0]
    ensures !Clean(layers)
  {
    assert !UpperEntry(layers[0], q);
  }

  /** A directory is opaque, by xattr or sentinel, if its parent reaches below the upper layer. */
  ghost predicate IsOpaqueIfAsked(mid: State, d: NodeId, made: Entry, sentinel: bool) {
    d in mid.t.nodes && (made.Dir? && mid.t.nodes[d].last > 0 ==> made.opq || sentinel)
  }

  lemma FailedCreation(s: State, mid: State, d: NodeId, n: Name, out: State)
    requires Unseen(s, mid) && ReadyToCreate(mid, d, n) && Ordinary(n) && Clears(mid, PathOf(mid.t, d) + [n], out)
    ensures Unseen(s, out) <==> out.layers == mid.layers || !InLower(out.layers, PathOf(mid.t, d) + [n])
  {
    var q := PathOf(mid.t, d) + [n];
    assert Last(q) == n;
    LowerKept(mid.layers, out.layers[0], q);
    if out.layers == mid.layers {
      assert out == mid;
    } else if !InLower(mid.layers, q) {
      ClearIsUnseen(mid, q, out);
      UnseenTransitive(s, mid, out);
    } else {
      LostCover(mid, d, n, out);
    }
  }

  /** Where a lower layer has the name, its whiteout is all that keeps the cache right. */
  lemma LostCover(mid: State, d: NodeId, n: Name, out: State)
    requires TreeOk(mid.t) && ReadyToCreate(mid, d, n) && Ordinary(n) && Clears(mid, PathOf(mid.t, d) + [n], out)
    requires out.layers != mid.layers && InLower(mid.layers, PathOf(mid.t, d) + [n])
    ensures !Coherent(out)
  {
    var p, q := PathOf(mid.t, d), PathOf(mid.t, d) + [n];
    assert Parent(q) == p && Last(q) == n && MarkerOf(q) == p + [WhName(n)];
    CreationIsFree(mid, d, n);
    LowerKept(mid.layers, out.layers[0], q);
    HidersGone(mid.layers, out.layers[0], q);
    if Coherent(out) {
      FineDir(out, d, n);
    }
  }

  /** Of the whiteouts of a free name there is at most one. */
  lemma HidersGone(layers: seq<Layer>, up: Layer, q: Path)
    requires Free(layers, q) && OnlyHidersGone(layers[0], up, q) && up != layers[0]
    ensures q !in up && MarkerOf(q) !in up
  {
    if forall p :: p in layers[0] ==> p in up {
      SameEntries(layers[0], up);
    }
    var p :| p in layers[0] && p !in up;
    if q <= p && p != q {
      FreeIsEmpty(layers, q, p);
    }
    assert q in layers[0] ==> UpperEntry(layers[0], q);
  }

  lemma SameEntries(a: Layer, b: Layer)
    requires forall p :: p in b ==> p in a && b[p] == a[p]
    requires forall p :: p in a ==> p in b
    ensures a == b
  {}

  lemma FineDir(s: State, d: NodeId, n: Name)
    requires Coherent(s) && d in s.t.nodes && s.t.nodes[d].IsDir() && InMerge(s.layers, PathOf(s.t, d), n)
    ensures !s.t.nodes[d].IsWhiteout(n)
  {
    assert NodeFine(s, d);
  }

  /** After a creation, the session is coherent exactly if the marker of the name is gone and no lower
      layer has the name. */
  lemma CreatedCoherent(mid: State, d: NodeId, n: Name, made: Entry, staged: bool, sentinel: bool, key: InodeKey, out: State)
    requires TreeOk(mid.t) && ReadyToCreate(mid, d, n) && Ordinary(n) && out.layers != []
    requires out.t == InsertChild(mid.t, d, NewNode(n, 0, key, made.Dir?).SetLoaded(true))
    requires PathOf(mid.t, d) + [WhName(n)] !in out.layers[0] ==> Creates(mid, d, n, made, staged, sentinel, key, out)
    ensures Coherent(out) <==> PathOf(mid.t, d) + [WhName(n)] !in out.layers[0] && !InLower(out.layers, PathOf(mid.t, d) + [n])
  {
    if PathOf(mid.t, d) + [WhName(n)] !in out.layers[0] {
      CreatedNode(mid, d, n, made, staged, sentinel, key, out);
      CreationIsCoherentIff(mid, d, n, made, staged, sentinel, key, out);
    } else {
      var node := NewNode(n, 0, key, made.Dir?).SetLoaded(true);
      InsertChildOk(mid.t, d, node);
      InsertChildInserts(mid.t, d, node);
      MarkedChildIsHidden(out, d, n);
    }
  }

  /** What a creation has when it starts on the disk. */
  ghost predicate ReadyToCreate(s: State, d: NodeId, n: Name)
    requires TreeOk(s.t)
  {
    && Coherent(s) && d in s.t.nodes && s.t.nodes[d].IsDir() && s.t.nodes[d].layer == 0 && Resolved(s, d, n)
    && var q := PathOf(s.t, d) + [n];
       && Free(s.layers, q)
       && (!s.t.nodes[d].IsWhiteout(n) ==> q !in s.layers[0] && MarkerOf(q) !in s.layers[0])
  }

  /** What may come of a request for an entry: itself, or, for a directory that is to be opaque, one
      with an opaque xattr, a sentinel, or both. */
  ghost predicate IsMade(e: Entry, opq: bool, made: Entry, sentinel: bool) {
    if e.Dir? && opq then made.Dir? else made == e && !sentinel
  }

  function WorkTree(made: Entry, sentinel: bool): Layer {
    var tree: Layer := map[[] := made];
    if sentinel then tree[[OPAQUE_WHITEOUT] := File(Regular([]))] else tree
  }

  lemma PlantedIsMade(layers: seq<Layer>, q: Path, made: Entry, sentinel: bool, planted: Layer, now: Layer)
    requires Free(layers, q) && made != Whiteout && OnlyWhiteoutsGone(planted, now, q)
    requires planted == Planted(layers[0], q, WorkTree(made, sentinel)) && MarkerOf(q) !in now
    ensures now == MadeUpper(layers[0], q, made, sentinel)
  {
    var out := MadeUpper(layers[0], q, made, sentinel);
    PlantedMadeAt(layers, q, made, sentinel, q);
    forall p
      ensures p in now <==> p in out
      ensures p in now ==> now[p] == out[p]
    {
      PlantedMadeAt(layers, q, made, sentinel, p);
    }
  }

  /** What stands at a free place gives way to an entry. */
  lemma FreeIsPlaceable(layers: seq<Layer>, q: Path, isDir: bool)
    requires Free(layers, q)
    ensures q != [] && layers != [] && !IsWh(Last(q))
    ensures CanPlace(layers[0], q, isDir) || DirOverOther(layers[0], q, isDir)
  {}

  lemma NothingHidesMore(layers: seq<Layer>, q: Path)
    requires Free(layers, q)
    ensures WithUpper(layers, layers[0]) == layers && OnlyHidersGone(layers[0], layers[0], q)
    ensures OnlyHidersGone(layers[0], layers[0] - {q}, q)
  {
    assert q <= q;
  }

  lemma PlantedStands(up: Layer, q: Path, made: Entry, sentinel: bool)
    ensures var planted := Planted(up, q, WorkTree(made, sentinel)); q in planted && planted[q] == made
  {
    PlantedAt(up, q, WorkTree(made, sentinel), q);
    assert q[|q|..] == [];
  }

  lemma PlantedKeepsMarker(layers: seq<Layer>, q: Path, tree: Layer)
    requires Free(layers, q)
    ensures PlainMarker(Planted(layers[0], q, tree), q)
  {
    MarkerNotBelow(q);
    PlantedAt(layers[0], q, tree, MarkerOf(q));
    WhNameInverse(Last(q), Last(q));
    assert Last(MarkerOf(q)) == WhName(Last(q));
    assert MarkerOf(q) in layers[0] ==> UpperEntry(layers[0], MarkerOf(q));
  }

  lemma PlantedMadeAt(layers: seq<Layer>, q: Path, made: Entry, sentinel: bool, p: Path)
    requires Free(layers, q)
    ensures var planted, out := Planted(layers[0], q, WorkTree(made, sentinel)), MadeUpper(layers[0], q, made, sentinel);
            && (p in out <==> p in planted && p != MarkerOf(q)) && (p in out ==> out[p] == planted[p])
            && (p == q ==> p in planted && planted[p] == made)
  {
    PlantedAt(layers[0], q, WorkTree(made, sentinel), p);
    PlantedEntry(layers, q, made, sentinel, p);
    MarkerNotBelow(q);
  }

  lemma PlantedEntry(layers: seq<Layer>, q: Path, made: Entry, sentinel: bool, p: Path)
    requires Free(layers, q)
    ensures var out := MadeUpper(layers[0], q, made, sentinel);
            && (p in out <==> if q <= p then p[|q|..] in WorkTree(made, sentinel) else p in layers[0] && p != MarkerOf(q))
            && (p in out ==> out[p] == if q <= p then WorkTree(made, sentinel)[p[|q|..]] else layers[0][p])
  {
    MarkerNotBelow(q);
    if q <= p {
      assert p == q + p[|q|..];
      if p != q {
        FreeIsEmpty(layers, q, p);
      }
    }
  }

  /** Copy-up leaves the lower layers alone, and makes no whiteouts. */
  lemma {:induction false} CopiedKeeps(s: State, ids: seq<NodeId>, out: State, p: Path, n: Name)
    requires Coherent(s) && CopiedAlong(s, ids, out)
    ensures Coherent(out) && |out.layers| == |s.layers|
    ensures InLower(out.layers, p + [n]) <==> InLower(s.layers, p + [n])
    ensures UpperHides(out.layers, p, n) ==> UpperHides(s.layers, p, n)
    decreases |ids|
  {
    if ids != [] {
      var mid: State :| CopiedAlong(s, Front(ids), mid) && CopiesUp(mid, Final(ids), out);
      CopiedKeeps(s, Front(ids), mid, p, n);
      CopyKeepsCoherence(mid, Final(ids), out);
      LowerKept(mid.layers, out.layers[0], p + [n]);
      CopyMakesNoWhiteout(mid, Final(ids), out, p, n);
    }
  }

  lemma CopyMakesNoWhiteout(s: State, x: NodeId, out: State, p: Path, n: Name)
    requires Coherent(s) && CopiesUp(s, x, out)
    ensures out.layers != [] && (UpperHides(out.layers, p, n) ==> UpperHides(s.layers, p, n))
  {
    hide Coherent;
    hide ToCopy;
    var q, k := PathOf(s.t, x), s.t.nodes[x].layer;
    CopyTarget(s, x, out);
    CopiedFacts(s.layers, q, k);
    WhNameInverse(n, n);
    assert Last(p + [WhName(n)]) == WhName(n);
  }

  /** The copy-up of the parent leaves what the lookup found out, and makes room on the disk. */
  lemma CreationPlace(s: State, d: NodeId, n: Name, copied: seq<NodeId>, mid: State)
    requires Coherent(s) && d in s.t.nodes && s.t.nodes[d].IsDir() && Resolved(s, d, n) && Ordinary(n)
    requires CopiedAlong(s, copied, mid) && OnlyLayersChange(s.t, copied, mid.t) && Unseen(s, mid)
    requires mid.t.nodes[d].layer == 0
    ensures TreeOk(mid.t) && ReadyToCreate(mid, d, n)
  {
    var p := PathOf(s.t, d);
    assert NodeSteady(s.t, mid.t, d);
    assert Parent(p + [n]) == p && Last(p + [n]) == n;
    CopiedKeeps(s, copied, mid, p, n);
    StillResolved(s, d, n, mid);
    CreationIsFree(mid, d, n);
  }

  lemma StillResolved(s: State, d: NodeId, n: Name, mid: State)
    requires Coherent(s) && Coherent(mid) && d in s.t.nodes && s.t.nodes[d].IsDir() && Resolved(s, d, n) && Ordinary(n)
    requires d in mid.t.nodes && mid.t.nodes[d].(layer := s.t.nodes[d].layer) == s.t.nodes[d]
    requires PathOf(mid.t, d) == PathOf(s.t, d) && SameView(s.layers, mid.layers)
    requires UpperHides(mid.layers, PathOf(s.t, d), n) ==> UpperHides(s.layers, PathOf(s.t, d), n)
    ensures Resolved(mid, d, n)
  {
    hide LazyResult;
    hide Coherent;
    hide Clean;
    CoherentParts(s);
    CoherentParts(mid);
    var p, bound := PathOf(s.t, d), s.t.nodes[d].last;
    if LazyResult(ViewsOf(s.layers, p), bound, n) == NotFound && !s.t.nodes[d].IsWhiteout(n) && !s.t.nodes[d].IsLoaded() {
      DirScannable(s, d);
      DirScannable(mid, d);
      CleanLookup(s.layers, p, bound, n);
      FreshInDir(s, d, n);
      FreshInDir(mid, d, n);
      assert SameAt(s.layers, mid.layers, p + [n]);
      assert !UpperHides(mid.layers, p, n) by {
        assert p in s.layers[0] ==> !UpperHides(s.layers, p, n);
        HidesInDir(s.layers, p, n);
      }
      UnhiddenNotFound(mid.layers, p, bound, n);
    }
  }

  lemma HidesInDir(layers: seq<Layer>, p: Path, n: Name)
    requires LayersOk(layers)
    ensures UpperHides(layers, p, n) ==> p in layers[0]
  {
    assert Parent(p + [n]) == p && Parent(p + [WhName(n)]) == p;
    assert LayerOk(layers[0]);
    assert p + [n] in layers[0] ==> EntryPlaced(layers[0], p + [n]);
    assert p + [WhName(n)] in layers[0] ==> EntryPlaced(layers[0], p + [WhName(n)]);
  }

  /** A name that nothing shows and nothing hides is not found. */
  lemma UnhiddenNotFound(layers: seq<Layer>, p: Path, bound: nat, n: Name)
    requires Scannable(layers, p, bound) && Ordinary(n) && !InMerge(layers, p, n) && !UpperHides(layers, p, n)
    ensures LazyResult(ViewsOf(layers, p), bound, n) == NotFound
  {
    var v := ViewsOf(layers, p);
    CleanLookup(layers, p, bound, n);
    CleanIsClear(layers, p);
    WhNameInverse(n, n);
    forall i: nat | i < |layers|
      ensures !Blocks(v, i, n)
    {
      CleanView(layers, p, i);
      CleanView(layers, p, 0);
    }
    LazyFinds(v, bound, 0, n);
  }

  /** With the whiteouts of its name gone, a creation is a step of the session. */
  lemma CreationIsStep(mid: State, d: NodeId, n: Name, e: Entry, made: Entry, staged: bool, sentinel: bool, key: InodeKey, out: State)
    requires TreeOk(mid.t) && ReadyToCreate(mid, d, n)
    requires (e.File? || e == Entry.Dir(false)) && IsMade(e, mid.t.nodes[d].last > 0, made, sentinel)
    requires staged || (e == File(Regular([])) && !mid.t.nodes[d].IsWhiteout(n))
    requires var q := PathOf(mid.t, d) + [n];
             out == State(InsertChild(mid.t, d, NewNode(n, 0, key, e.Dir?).SetLoaded(true)),
                          WithUpper(mid.layers, if staged then MadeUpper(mid.layers[0], q, made, sentinel) else mid.layers[0][q := made]))
    ensures Creates(mid, d, n, made, staged, sentinel, key, out) && IsMade(e, true, made, sentinel)
  {}

  /** From `was` to `now` the path and what is below it are gone, and nothing else changed. */
  ghost predicate GoneFrom(was: seq<Layer>, now: seq<Layer>, q: Path) {
    && LayersOk(was) && LayersOk(now)
    && forall r :: if q <= r then Fresh(now, r) == None else SameAt(was, now, r)
  }

  lemma RemovalIsSeen(s: State, mid: State, d: NodeId, n: Name, cover: Cover, out: State)
    requires Unseen(s, mid) && RmReady(mid, d, n) && PathOf(mid.t, d) == PathOf(s.t, d) && TreeOk(s.t)
    requires out == State(RmTree(mid.t, d, n), Removed(mid.layers, PathOf(mid.t, d) + [n], cover))
    requires cover == Nothing <==> !NeedsWhiteout(mid.t.nodes[mid.t.nodes[d].Children()[n]].last, mid.t.nodes[d].last)
    ensures Removes(mid, d, n, cover, out) && Coherent(out)
    ensures GoneFrom(s.layers, out.layers, PathOf(s.t, d) + [n])
  {
    var q := PathOf(s.t, d) + [n];
    RemoveKeepsCoherence(mid, d, n, cover, out);
    RemoveShowsOneLess(mid, d, n, cover, out);
    RemovableNode(mid, d, n);
    RemovedChange(mid.layers, q, cover);
    forall r
      ensures if q <= r then Fresh(out.layers, r) == None else SameAt(s.layers, out.layers, r)
    {
      if !(q <= r) {
        assert SameAt(s.layers, mid.layers, r);
        KeptEntry(mid.layers, RemovedUpper(mid.layers[0], q, cover), q, r);
      }
    }
  }

  /** Away from a change, what is shown has the same contents. */
  lemma KeptEntry(layers: seq<Layer>, up: Layer, q: Path, r: Path)
    requires LayersOk(layers) && q != [] && ChangedAt(layers[0], up, q) && !IsWh(Last(q)) && !(q <= r)
    ensures r != [] && Fresh(layers, r).Some? ==>
              forall k :: 0 <= k < |layers| ==> (r in layers[k] <==> r in WithUpper(layers, up)[k])
                                                && (r in layers[k] ==> layers[k][r] == WithUpper(layers, up)[k][r])
  {
    if r != [] && Fresh(layers, r).Some? {
      FreshIsTopmost(layers, r);
      WhNameInverse(Last(q), Last(q));
      assert Last(MarkerOf(q)) == WhName(Last(q));
    }
  }

  lemma MarkerHasRoom(up: Layer, q: Path)
    requires LayerOk(up) && q != [] && q in up && MarkerOf(q) !in up
    ensures HasRoom(up, MarkerOf(q))
  {
    assert EntryPlaced(up, q);
    assert Parent(MarkerOf(q)) == Parent(q) && Last(MarkerOf(q)) == WhName(Last(q));
    assert '/' !in WH_PREFIX + Last(q);
  }

  /** What unlink (or rmdir) can remove: something that is shown and is no directory (or an empty one). */
  ghost predicate CanUnlink(layers: seq<Layer>, q: Path, isDir: bool) {
    && Fresh(layers, q).Some? && (Fresh(layers, q).value.isDir <==> isDir)
    && (isDir ==> ShownEmpty(layers, q))
  }

  ghost predicate ShownEmpty(layers: seq<Layer>, q: Path) {
    forall k :: Fresh(layers, q + [k]) == None
  }

  /** The child is there, and a directory has been listed and has none itself. */
  ghost predicate Removable(t: Tree, d: NodeId, n: Name, id: NodeId) {
    && d in t.nodes && t.nodes[d].GetChild(n) == Some(id) && id in t.nodes
    && t.nodes[id].Children() == map[] && (t.nodes[id].IsDir() ==> t.nodes[id].IsLoaded())
  }

  lemma UnseenCoherent(s: State, out: State)
    requires Unseen(s, out)
    ensures Coherent(out)
  {}

  lemma UnseenNode(s: State, out: State, x: NodeId)
    requires Unseen(s, out) && x in s.t.nodes
    ensures TreeOk(out.t) && NodeSteady(s.t, out.t, x)
  {}

  lemma EntryAmongNodes(s: State, d: NodeId, n: Name)
    requires Coherent(s) && d in s.t.nodes && n in s.t.nodes[d].Children()
    ensures s.t.nodes[d].Children()[n] in s.t.nodes && PathOf(s.t, s.t.nodes[d].Children()[n]) == PathOf(s.t, d) + [n]
  {
    ChildShown(s, d, n);
  }

  /** A name that a lookup leaves in no map is not shown. */
  lemma ResolvedIsNotShown(s: State, d: NodeId, n: Name)
    requires Coherent(s) && d in s.t.nodes && s.t.nodes[d].IsDir() && !IsWh(n) && Resolved(s, d, n)
    ensures Fresh(s.layers, PathOf(s.t, d) + [n]) == None
  {
    assert NodeFine(s, d);
    DirScannable(s, d);
    FreshInDir(s, d, n);
    if InMerge(s.layers, PathOf(s.t, d), n) {
      InMergeIsOrdinary(s.layers, PathOf(s.t, d), n);
      CleanLookup(s.layers, PathOf(s.t, d), s.t.nodes[d].last, n);
    }
  }

  /** After the lookup, the directory has the name exactly if it was shown, and as what it was shown. */
  lemma FoundIsShown(s: State, looked: State, d: NodeId, n: Name)
    requires Unseen(s, looked) && d in s.t.nodes && s.t.nodes[d].IsDir() && !IsWh(n) && d in looked.t.nodes
    requires n !in looked.t.nodes[d].Children() ==> Resolved(looked, d, n)
    ensures var f := Fresh(s.layers, PathOf(s.t, d) + [n]);
            && (f.Some? <==> n in looked.t.nodes[d].Children())
            && (f.Some? ==> looked.t.nodes[d].Children()[n] in looked.t.nodes
                            && (f.value.isDir <==> looked.t.nodes[looked.t.nodes[d].Children()[n]].IsDir()))
  {
    hide Coherent;
    hide Resolved;
    UnseenNode(s, looked, d);
    UnseenCoherent(s, looked);
    assert SameAt(s.layers, looked.layers, PathOf(s.t, d) + [n]);
    if n in looked.t.nodes[d].Children() {
      EntryAmongNodes(looked, d, n);
      CoherentFresh(looked, looked.t.nodes[d].Children()[n]);
    } else {
      ResolvedIsNotShown(looked, d, n);
    }
  }

  /** A directory that has been listed is shown empty exactly if it has no children. */
  lemma EmptyIsShown(s: State, looked: State, listed: State, id: NodeId)
    requires Unseen(s, listed) && TreeOk(looked.t) && id in looked.t.nodes && id in listed.t.nodes && listed.t.nodes[id].IsLoaded()
    requires TreeOk(listed.t) && PathOf(listed.t, id) == PathOf(looked.t, id)
    ensures listed.t.nodes[id].Children() == map[] <==> ShownEmpty(s.layers, PathOf(looked.t, id))
  {
    hide Unseen;
    var children := listed.t.nodes[id].Children();
    forall k
      ensures Fresh(s.layers, PathOf(looked.t, id) + [k]) == None <==> k !in children
    {
      ListedNameShown(s, listed, id, k);
    }
    hide Fresh;
    assert children == map[] <==> forall k :: k !in children;
  }

  lemma ListedNameShown(s: State, listed: State, id: NodeId, k: Name)
    requires Unseen(s, listed) && id in listed.t.nodes && listed.t.nodes[id].IsLoaded() && TreeOk(listed.t)
    ensures Fresh(s.layers, PathOf(listed.t, id) + [k]) == None <==> k !in listed.t.nodes[id].Children()
  {
    hide Coherent;
    hide Fresh;
    UnseenCoherent(s, listed);
    assert SameAt(s.layers, listed.layers, PathOf(listed.t, id) + [k]);
    ListedIsShown(listed, id, k);
  }

  lemma ListedIsShown(s: State, id: NodeId, k: Name)
    requires Coherent(s) && id in s.t.nodes && s.t.nodes[id].IsLoaded()
    ensures Fresh(s.layers, PathOf(s.t, id) + [k]).Some? <==> k in s.t.nodes[id].Children()
  {
    assert NodeFine(s, id);
    FreshInDir(s, id, k);
    if k in s.t.nodes[id].Children() {
      ChildShown(s, id, k);
    }
  }

  /** What `do_rm` needs before it hides the node. */
  ghost predicate RmReady(s: State, d: NodeId, n: Name)
    requires TreeOk(s.t)
  {
    && d in s.t.nodes && n in s.t.nodes[d].Children() && EntryOk(s.t, d, n)
    && var c := s.t.nodes[s.t.nodes[d].Children()[n]];
       c.layer == 0 && c.Children() == map[] && (c.IsDir() ==> c.IsLoaded())
  }

  lemma ReadyToRemove(s: State, d: NodeId, n: Name, id: NodeId, copied: seq<NodeId>, out: State)
    requires TreeOk(out.t) && d in s.t.nodes && s.t.nodes[d].GetChild(n) == Some(id) && id in s.t.nodes
    requires s.t.nodes[id].Children() == map[] && (s.t.nodes[id].IsDir() ==> s.t.nodes[id].IsLoaded())
    requires OnlyLayersChange(s.t, copied, out.t) && out.t.nodes[id].layer == 0
    ensures RmReady(out, d, n)
  {
    assert out.t.nodes[d].Children() == s.t.nodes[d].Children();
    assert EntryOk(out.t, d, n);
  }

  lemma NoneHidden(s: State, d: NodeId)
    requires Coherent(s) && d in s.t.nodes
    ensures forall k :: k in s.t.nodes[d].Children() ==>
              s.t.nodes[d].Children()[k] in s.t.nodes && !s.t.nodes[s.t.nodes[d].Children()[k]].hidden
  {
    forall k | k in s.t.nodes[d].Children()
      ensures s.t.nodes[d].Children()[k] in s.t.nodes && !s.t.nodes[s.t.nodes[d].Children()[k]].hidden
    {
      ChildShown(s, d, k);
    }
  }

  lemma EntryToRemove(t: Tree, d: NodeId, n: Name)
    requires TreeOk(t) && d in t.nodes && n in t.nodes[d].Children() && EntryOk(t, d, n)
    ensures var u, id := RmTree(t, d, n), t.nodes[d].Children()[n];
            && id != d && PathOf(t, id) == PathOf(t, d) + [n] && TreeOk(u)
            && u == t.(nodes := t.nodes[d := t.nodes[d].SetLoaded(false).RemoveChild(n)] - {id})
  {
    ChildPathOfEntry(t, d, n);
    ChildNotAbove(t, d, n);
    RmTreeOk(t, d, n);
    RmNodes(t, d, n);
  }

  lemma SessionIsReady(s: State, id: NodeId)
    requires Coherent(s) && id in s.t.nodes
    ensures Ready(s, id) && id in s.t.chains[id]
  {
    CoherentIsReady(s, id);
    ReadySelf(s, id);
  }

  /** After a lookup that found nothing, the name is known to be absent. */
  lemma LookedUpResolved(s: State, d: NodeId, n: Name, out: State)
    requires Coherent(s) && Looks(s, d, n, out) && !IsWh(n) && TreeOk(out.t) && d in out.t.nodes
    ensures out.t.nodes[d].GetChild(n).None? ==> Resolved(out, d, n)
  {
    var p, bound := PathOf(s.t, d), s.t.nodes[d].last;
    DirScannable(s, d);
    if Ordinary(n) {
      CleanLookup(s.layers, p, bound, n);
    } else {
      CleanLookupNone(s.layers, p, bound, n);
    }
    match LazyResult(ViewsOf(s.layers, p), bound, n)
    case Found(seen) => assert s.t.nextId !in s.t.chains;
    case HiddenBy(w) =>
    case NotFound =>
  }

  lemma RemovableEntry(layers: seq<Layer>, q: Path)
    requires CanRemove(layers, q)
    ensures q in layers[0] && layers[0][q] != Whiteout && MarkerOf(q) !in layers[0]
  {
    ShownHasNoMarker(layers, q);
    FreshIsTopmost(layers, q);
  }

  function MarkerAdded(layers: seq<Layer>, q: Path): seq<Layer>
    requires layers != [] && q != []
  {
    layers[0 := layers[0][MarkerOf(q) := File(Regular([]))]]
  }

  /** Writing the marker first and moving the entry away then is the same as the other way round. */
  lemma MarkerThenMove(up: Layer, q: Path)
    requires q != []
    ensures WithoutSubtree(up[MarkerOf(q) := File(Regular([]))], q) == RemovedUpper(up, q, Marker)
  {
    MarkerNotBelow(q);
  }

  /** The cache answers a lookup by itself. */
  predicate IsCached(t: Tree, d: NodeId, n: Name)
    requires d in t.nodes
  {
    var node := t.nodes[d];
    node.GetChild(n).Some? || node.IsWhiteout(n) || node.IsLoaded()
  }

  lemma InsertedIsChild(t: Tree, d: NodeId, n: Name)
    requires TreeOk(t) && d in t.nodes && t.nodes[d].IsDir() && t.nodes[d].GetChild(n).None?
    ensures forall node: Node :: node.name == n ==>
              d in InsertChild(t, d, node).nodes && InsertChild(t, d, node).nodes[d].GetChild(n) == Some(t.nextId)
    ensures forall w :: t.nodes[d].InsertWhiteout(w).GetChild(n).None?
  {
    assert t.nextId !in t.chains;
  }

  /** What is left of a scan from layer `i` on gives the result; once stopped, nothing is left. */
  ghost predicate ScanLeft(views: seq<View>, bound: Option<nat>, i: nat, c: Cache, stop: bool, result: Cache)
    requires i <= |views|
  {
    result == if stop then c else ScanFrom(views, bound, i, c)
  }

  lemma ScanLeftStep(views: seq<View>, bound: Option<nat>, i: nat, c: Cache, result: Cache)
    requires i < |views| && ScanLeft(views, bound, i, c, false, result)
    ensures ScanLeft(views, bound, i + 1, ScanView(c, views[i], i), Stops(views, bound, i), result)
  {}

  lemma ScanLeftEnds(views: seq<View>, bound: Option<nat>, i: nat, c: Cache, stop: bool, result: Cache)
    requires i <= |views| && ScanLeft(views, bound, i, c, stop, result) && (stop || i == |views|)
    ensures c == result
  {}

  lemma FoundIsValid(views: seq<View>, n: Name, r: Outcome)
    requires forall i :: 0 <= i < |views| ==> NamesValid(views[i])
    requires r.Found? ==> exists i :: 0 <= i < |views| && n in Items(views[i])
    ensures r.Found? ==> ValidName(n)
  {
    if r.Found? {
      var i :| 0 <= i < |views| && n in Items(views[i]);
      assert NamesValid(views[i]);
    }
  }

  lemma InsertedTree(t: Tree, d: NodeId, node: Node)
    requires TreeOk(t) && d in t.nodes && ValidName(node.name) && node.Children() == map[]
    ensures var u, x := InsertChild(t, d, node), t.nextId;
            && TreeOk(u) && x != d && u.nextId == x + 1 && u.root == t.root
            && u.nodes == t.nodes[x := node.(parent := Some(d))][d := t.nodes[d].InsertChild(node.name, x)]
  {
    InsertChildOk(t, d, node);
    InsertChildInserts(t, d, node);
  }

  lemma NothingScanned(c: Cache, items: map<Name, Item>, i: nat)
    ensures ScannedSome(c, items, i, {}, c)
  {}

  /** Hiding the node first makes no difference when it is removed then. */
  lemma DroppedNodes(nodes: Arena, d: NodeId, n: Name, id: NodeId)
    requires d in nodes && id in nodes && id != d
    ensures var marked := nodes[id := nodes[id].(hidden := true, parent := None)][d := nodes[d].SetLoaded(false)];
            marked[d := marked[d].RemoveChild(n)] - {id} == nodes[d := nodes[d].SetLoaded(false).RemoveChild(n)] - {id}
  {}

  lemma InChains(t: Tree, d: NodeId)
    requires TreeOk(t) && d in t.nodes
    ensures d in t.chains
  {}

  lemma FilledParts(t: Tree, u: Tree, d: NodeId, c: Cache)
    requires Filled(t, u, d, c)
    ensures TreeOk(u) && d in u.nodes && u.nodes[d].IsDir() && u.nodes[d].Children().Keys == c.children.Keys
    ensures forall n :: n in u.nodes[d].Children() ==> EntryOk(u, d, n)
  {
    assert CacheOf(u, d) == c;
  }

  lemma FilledDir(t: Tree, u: Tree, d: NodeId, c: Cache)
    requires Filled(t, u, d, c)
    ensures d in u.nodes && u.nodes[d].IsDir()
  {}

  ghost predicate NamesValid(v: View) {
    forall n :: n in Items(v) ==> ValidName(n)
  }

  lemma NamesAreValid(layers: seq<Layer>, path: Path, faults: seq<Fault>)
    requires LayersOk(layers) && |faults| == |layers|
    ensures forall i :: 0 <= i < |layers| ==> NamesValid(ViewsUnder(layers, path, faults)[i])
  {
    forall i, n | 0 <= i < |layers| && n in Items(ViewsUnder(layers, path, faults)[i])
      ensures ValidName(n)
    {
      assert LayerOk(layers[i]) && EntryPlaced(layers[i], path + [n]) && Last(path + [n]) == n;
    }
  }

  /** What a scan leaves: the maps of the merge, filled in over what was cached, and the flag set. */
  ghost predicate Loaded(s: State, d: NodeId, bound: Option<nat>, faults: seq<Fault>, out: Tree)
    requires TreeOk(s.t) && d in s.t.nodes && s.t.nodes[d].IsDir() && |faults| == |s.layers|
  {
    var views := ViewsUnder(s.layers, PathOf(s.t, d), faults);
    exists u: Tree :: Filled(s.t, u, d, ScanFrom(views, bound, 0, CacheOf(s.t, d))) && out == SetNode(u, d, u.nodes[d].SetLoaded(true))
  }

  lemma LoadedCache(s: State, d: NodeId, bound: Option<nat>, faults: seq<Fault>, out: Tree)
    requires TreeOk(s.t) && d in s.t.nodes && s.t.nodes[d].IsDir() && |faults| == |s.layers| && TreeOk(out)
    requires Loaded(s, d, bound, faults, out)
    ensures d in out.nodes && out.nodes[d].IsLoaded()
    ensures CacheOf(out, d) == ScanFrom(ViewsUnder(s.layers, PathOf(s.t, d), faults), bound, 0, CacheOf(s.t, d))
    ensures NoFaults(faults) ==> CacheOf(out, d) == ScanFrom(ViewsOf(s.layers, PathOf(s.t, d)), bound, 0, CacheOf(s.t, d))
  {
    var views := ViewsUnder(s.layers, PathOf(s.t, d), faults);
    var c := ScanFrom(views, bound, 0, CacheOf(s.t, d));
    var u: Tree :| Filled(s.t, u, d, c) && out == SetNode(u, d, u.nodes[d].SetLoaded(true));
    FlagKeepsCache(u, d, out);
    if NoFaults(faults) {
      NoFaultsSeeAll(s.layers, PathOf(s.t, d), faults);
    }
  }

  lemma FlagKeepsCache(u: Tree, d: NodeId, v: Tree)
    requires TreeOk(u) && TreeOk(v) && d in u.nodes && u.nodes[d].IsDir() && v == SetNode(u, d, u.nodes[d].SetLoaded(true))
    ensures v.nodes[d].IsLoaded() && CacheOf(v, d) == CacheOf(u, d)
  {
    hide TreeOk;
    forall n | n in u.nodes[d].Children()
      ensures u.nodes[d].Children()[n] != d
    {
      ChildNotAbove(u, d, n);
    }
    assert CacheOf(v, d).children == CacheOf(u, d).children;
  }

  /** A scan without errors, bounded by the directory's last layer, is the session step. */
  lemma LoadedLoads(s: State, d: NodeId, faults: seq<Fault>, out: Tree)
    requires TreeOk(s.t) && d in s.t.nodes && s.t.nodes[d].IsDir() && !s.t.nodes[d].IsLoaded()
    requires |faults| == |s.layers| && NoFaults(faults) && Loaded(s, d, Some(s.t.nodes[d].last), faults, out)
    ensures Loads(s, d, State(out, s.layers))
  {
    NoFaultsSeeAll(s.layers, PathOf(s.t, d), faults);
  }
}
