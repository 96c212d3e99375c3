/** Copy-up (src/copyup.rs): directories are materialised from the root down, files are copied in the
    workdir, and each finished entry is published by one rename. */
module CopyUp {
  import opened Wrappers
  import opened Names
  import opened NodeTree
  import opened TreeOps
  import opened TreeRuns
  import opened NodeArenas
  import opened Layers
  import opened FreshMount
  import opened DiskChanges
  import opened CleanDisk
  import opened Session
  import opened SessionDisk
  import opened CopyUpSteps
  import opened Disks
  import opened Whiteouts
  import Data = CopyData

  /** The session that an arena and a disk hold, with the chains that witness the tree. */
  ghost function SessionOf(arena: NodeArena, disk: Disk, root: NodeId, chains: Chains): State
    reads arena, disk
  {
    State(Tree(arena.nodes, arena.nextId, root, chains), disk.layers)
  }

  /** The counter is above every name that is in the workdir. */
  ghost predicate NamesBelow(work: map<nat, Layer>, counter: nat) {
    forall w :: w in work ==> w < counter
  }

  /** Every state that the layers went through since `before` shows what `was` showed. */
  ghost predicate AlwaysSame(was: seq<Layer>, before: seq<seq<Layer>>, after: seq<seq<Layer>>) {
    before <= after && forall k :: |before| <= k < |after| ==> SameView(was, after[k])
  }

  // ---- Directories ----

  /** The renames that put a new directory in its place, with the fallbacks for something that is
      in the way. */
  method InstallDirectory(disk: Disk, w: nat, q: Path) returns (ok: bool)
    requires disk.Valid() && w in disk.work && disk.work[w] == map[[] := Entry.Dir(false)]
    requires q != [] && forall p :: q <= p ==> p !in disk.layers[0]
    modifies disk
    ensures old(disk.refusals) <= disk.refusals
    ensures disk.refusals == old(disk.refusals) && HasRoom(old(disk.layers[0]), q) ==> ok
    ensures disk.Valid() && disk.work.Keys <= old(disk.work.Keys)
    ensures ok ==> disk.layers == WithUpper(old(disk.layers), old(disk.layers[0])[q := Entry.Dir(false)])
    ensures ok ==> disk.history == old(disk.history) + [disk.layers]
    ensures !ok ==> disk.layers == old(disk.layers) && disk.history == old(disk.history)
  {
    ghost var up := disk.layers[0];
    PlantedOne(up, q, Entry.Dir(false));
    var r := disk.RenameIn(w, q);
    if r == Err(EEXIST) || r == Err(ENOTEMPTY) {
      ok := disk.ExchangeIn(w, q);
      disk.RemoveWork(w);
      return;
    }
    if r == Err(ENOTDIR) {
      var _ := disk.Unlink(q);
      assert disk.layers[0] == up;
      r := disk.RenameIn(w, q);
    }
    if r.Err? {
      disk.RemoveWork(w);
    }
    ok := r.Ok?;
  }

  /** From the stat of the source directory to the rename. */
  method CopyDirectory(disk: Disk, w: nat, q: Path, k: nat) returns (ok: bool)
    requires disk.Valid() && w !in disk.work && k < |disk.layers| && q != []
    requires forall p :: q <= p ==> p !in disk.layers[0]
    modifies disk
    ensures old(disk.refusals) <= disk.refusals
    ensures disk.refusals == old(disk.refusals) && HasRoom(old(disk.layers[0]), q) && q in old(disk.layers[k]) ==> ok
    ensures disk.Valid() && disk.work.Keys <= old(disk.work.Keys) + {w}
    ensures ok ==> disk.layers == WithUpper(old(disk.layers), old(disk.layers[0])[q := Entry.Dir(false)])
    ensures ok ==> disk.history == old(disk.history) + [disk.layers]
    ensures !ok ==> disk.layers == old(disk.layers) && disk.history == old(disk.history)
  {
    var source := disk.Stat(k, q);
    if source == None {
      return false;
    }
    ok := disk.MakeWork(w, Entry.Dir(false));
    if !ok {
      return false;
    }
    ok := disk.Reach();
    if !ok {
      return false;
    }
    ok := InstallDirectory(disk, w, q);
  }

  /** One directory whose parent is on the upper layer. */
  method PublishDirectory(arena: NodeArena, disk: Disk, ghost root: NodeId, ghost chains: Chains,
                          id: NodeId, wdCounter: nat, devices: bool) returns (ok: bool, wd: nat)
    requires arena.Valid() && disk.Valid() && NamesBelow(disk.work, wdCounter)
    requires Ready(SessionOf(arena, disk, root, chains), id) && id in arena.nodes
    requires arena.nodes[id].IsDir() && arena.nodes[id].layer > 0 && id != root
    requires arena.nodes[id].parent.Some? && arena.nodes[id].parent.value in arena.nodes
    requires arena.nodes[arena.nodes[id].parent.value].layer == 0
    modifies arena`nodes, disk
    ensures old(disk.refusals) <= disk.refusals
    ensures arena.Valid() && disk.Valid() && wd >= wdCounter && NamesBelow(disk.work, wd)
    ensures disk.refusals == old(disk.refusals) ==> ok
    ensures ok ==> CopiesUp(old(SessionOf(arena, disk, root, chains)), id, SessionOf(arena, disk, root, chains))
    ensures !ok ==> SessionOf(arena, disk, root, chains) == old(SessionOf(arena, disk, root, chains))
    ensures old(disk.history) <= disk.history
    ensures forall k :: |old(disk.history)| <= k < |disk.history| ==> disk.history[k] == disk.layers
  {
    hide Planted;
    hide CopiesUp;
    hide HasRoom;
    ghost var s := SessionOf(arena, disk, root, chains);
    PublishPlace(s, id);
    PlaceHasRoom(s, id);
    wd := wdCounter;
    var node := arena.nodes[id];
    var q := CollectPath(arena.nodes, id, s.t);
    var w := wd;
    wd := wd + 1;
    ok := CopyDirectory(disk, w, q, node.layer);
    if !ok {
      return false, wd;
    }
    arena.Update(id, node.(layer := 0));
    PublishingCopiesUp(s, id, Entry.Dir(false), SessionOf(arena, disk, root, chains));
    DeleteNoWhiteout(disk, q, devices);
  }

  /** Where the parent is on the upper layer, there is room for the entry. */
  lemma PlaceHasRoom(s: State, id: NodeId)
    requires Ready(s, id) && id in s.t.nodes && s.t.nodes[id].layer > 0 && id != s.t.root
    requires s.t.nodes[id].parent.Some? && s.t.nodes[id].parent.value in s.t.nodes
    requires s.t.nodes[s.t.nodes[id].parent.value].layer == 0
    ensures HasRoom(s.layers[0], PathOf(s.t, id))
  {
    PublishPlace(s, id);
    PathSplits(s.t, id);
    ReadyParent(s, id);
    var p := s.t.nodes[id].parent.value;
    ReadySelf(s, p);
    UpperReady(s, p);
  }

  /** A directory on layer 0 is one on the disk. */
  lemma UpperReady(s: State, p: NodeId)
    requires Ready(s, p) && p in s.t.nodes && s.t.nodes[p].layer == 0 && s.t.nodes[p].IsDir()
    ensures PathOf(s.t, p) in s.layers[0] && s.layers[0][PathOf(s.t, p)].Dir?
  {
    ReadySelf(s, p);
    if PathOf(s.t, p) == [] {
      assert LayerOk(s.layers[0]);
    } else {
      FreshIsTopmost(s.layers, PathOf(s.t, p));
    }
  }

  /** Deleting the whiteout of a name that has none. */
  method DeleteNoWhiteout(disk: Disk, q: Path, devices: bool)
    requires disk.Valid() && q != [] && MarkerOf(q) !in disk.layers[0] && (q in disk.layers[0] ==> disk.layers[0][q] != Whiteout)
    modifies disk`layers, disk`history, disk`refusals
    ensures old(disk.refusals) <= disk.refusals
    ensures disk.Valid() && disk.layers == old(disk.layers) && old(disk.history) <= disk.history
    ensures forall k :: |old(disk.history)| <= k < |disk.history| ==> disk.history[k] == disk.layers
  {
    ghost var was := disk.layers;
    var _ := DeleteWhiteout(disk, q, devices);
    NoWhiteoutsNothingGone(was[0], disk.layers[0], q);
    forall k | |old(disk.history)| <= k < |disk.history|
      ensures disk.history[k] == was
    {
      NoWhiteoutsNothingGone(was[0], disk.history[k][0], q);
    }
  }

  /** Putting the copy in place, and the node on layer 0, is the publishing step. */
  lemma PublishingCopiesUp(s: State, id: NodeId, copy: Entry, out: State)
    requires Ready(s, id) && id in s.t.nodes && s.t.nodes[id].layer > 0 && id != s.t.root
    requires s.t.nodes[id].parent.Some? && s.t.nodes[id].parent.value in s.t.nodes
    requires s.t.nodes[s.t.nodes[id].parent.value].layer == 0
    requires var q, k := PathOf(s.t, id), s.t.nodes[id].layer;
             k < |s.layers| && q in s.layers[k] && copy == CopyOf(s.layers[k][q])
             && out == State(SetNode(s.t, id, s.t.nodes[id].(layer := 0)), WithUpper(s.layers, s.layers[0][q := copy]))
    ensures CopiesUp(s, id, out)
    ensures var q := PathOf(s.t, id);
            q != [] && MarkerOf(q) !in out.layers[0] && q in out.layers[0] && out.layers[0][q] != Whiteout
  {
    ReadySelf(s, id);
    CopyCanPublish(s, id, id, out);
    PublishedHasNoMarker(s.layers, PathOf(s.t, id));
    FreshIsTopmost(s.layers, PathOf(s.t, id));
  }

  /** The way down to the parent. */
  lemma ReadyParent(s: State, id: NodeId)
    requires Ready(s, id) && id in s.t.nodes && id != s.t.root
    ensures LinkOk(s.t, id)
    ensures var p := s.t.nodes[id].parent.value;
            && p in s.t.nodes && Ready(s, p) && s.t.nodes[p].IsDir() && p in s.t.chains[id]
            && |s.t.chains[p]| < |s.t.chains[id]| && id !in s.t.chains[p]
            && forall a :: a in s.t.chains[p] ==> a in s.t.chains[id]
  {
    PathSplits(s.t, id);
    ReadySelf(s, id);
    var p := s.t.nodes[id].parent.value;
    assert ChainOk(s.t.chains, p);
    assert p in s.t.chains[id];
    ReadyAbove(s, id, p);
    ReadySelf(s, p);
    NotAboveParent(s.t, id);
  }

  /** A node that is to be copied up has a parent that may have to be copied up first. */
  lemma ParentToCopy(s: State, id: NodeId)
    requires Ready(s, id) && id in s.t.nodes && s.t.nodes[id].layer > 0
    ensures id != s.t.root && LinkOk(s.t, id) && s.t.nodes[id].layer < |s.layers|
    ensures var p := s.t.nodes[id].parent.value;
            && p in s.t.nodes && Ready(s, p) && s.t.nodes[p].IsDir() && p in s.t.chains[p] && |s.t.chains[p]| < |s.t.chains[id]|
    ensures var q, k := PathOf(s.t, id), s.t.nodes[id].layer; q in s.layers[k] && (s.layers[k][q].Dir? <==> s.t.nodes[id].IsDir())
  {
    PublishPlace(s, id);
    ReadyParent(s, id);
    ReadySelf(s, s.t.nodes[id].parent.value);
  }

  lemma AllOnUpper(s: State, id: NodeId)
    requires Ready(s, id) && id in s.t.nodes && s.t.nodes[id].layer == 0
    ensures forall a :: a in s.t.chains[id] ==> a in s.t.nodes && s.t.nodes[a].layer == 0
  {
    forall a | a in s.t.chains[id]
      ensures a in s.t.nodes && s.t.nodes[a].layer == 0
    {
      AncestorsOnUpper(s, id, a);
    }
  }

  /** After the copy-up of ancestors. */
  lemma AfterAncestors(s: State, id: NodeId, copied: seq<NodeId>, mid: State)
    requires Ready(s, id) && id in s.t.nodes && id != s.t.root && CopiedAlong(s, copied, mid)
    requires LinkOk(s.t, id) && forall x :: x in copied ==> x in s.t.chains[s.t.nodes[id].parent.value]
    ensures Ready(mid, id) && SameView(s.layers, mid.layers) && mid.t.chains == s.t.chains
    ensures id in mid.t.nodes && mid.t.nodes[id] == s.t.nodes[id] && mid.t.nodes.Keys == s.t.nodes.Keys
    ensures forall x :: x in copied ==> x in s.t.chains[id]
  {
    ReadyParent(s, id);
    CopiedAlongIsInvisible(s, id, copied, mid);
    CopiedAlongKeepsTree(s, copied, mid);
  }

  /** After the publishing of the node itself. */
  lemma AfterPublish(s: State, id: NodeId, copied: seq<NodeId>, mid: State, out: State)
    requires Ready(mid, id) && SameView(s.layers, mid.layers) && CopiedAlong(s, copied, mid) && CopiesUp(mid, id, out)
    ensures CopiedAlong(s, copied + [id], out) && SameView(s.layers, out.layers) && Ready(out, id)
    ensures out.t.chains == mid.t.chains && id in out.t.nodes && out.t.nodes[id].layer == 0
    ensures forall a :: a in out.t.chains[id] ==> a in out.t.nodes && out.t.nodes[a].layer == 0
  {
    ReadySelf(mid, id);
    CopyStep(mid, id, id, out);
    SameViewTransitive(s.layers, mid.layers, out.layers);
    CopiedOneMore(s, copied, mid, id, out);
    AllOnUpper(out, id);
  }

  lemma SameForOneMore(was: seq<Layer>, start: seq<seq<Layer>>, before: seq<seq<Layer>>, after: seq<seq<Layer>>, now: seq<Layer>)
    requires AlwaysSame(was, start, before) && before <= after && SameView(was, now)
    requires forall k :: |before| <= k < |after| ==> after[k] == now
    ensures AlwaysSame(was, start, after)
  {}

  /** `create_node_directory`: first the parent, then the directory itself, until one is met that is
      on the upper layer. */
  method CreateNodeDirectory(arena: NodeArena, disk: Disk, ghost root: NodeId, ghost chains: Chains,
                             id: NodeId, wdCounter: nat, devices: bool)
    returns (ok: bool, wd: nat, ghost copied: seq<NodeId>)
    requires arena.Valid() && disk.Valid() && NamesBelow(disk.work, wdCounter)
    requires Ready(SessionOf(arena, disk, root, chains), id) && id in arena.nodes && arena.nodes[id].IsDir()
    modifies arena`nodes, disk
    ensures old(disk.refusals) <= disk.refusals
    ensures arena.Valid() && disk.Valid() && wd >= wdCounter && NamesBelow(disk.work, wd)
    ensures CopiedAlong(old(SessionOf(arena, disk, root, chains)), copied, SessionOf(arena, disk, root, chains))
    ensures forall x :: x in copied ==> x in chains[id]
    ensures ok ==> forall a :: a in chains[id] ==> a in arena.nodes && arena.nodes[a].layer == 0
    ensures disk.refusals == old(disk.refusals) ==> ok
    ensures AlwaysSame(old(disk.layers), old(disk.history), disk.history)
    decreases |chains[id]|
  {
    ghost var s := SessionOf(arena, disk, root, chains);
    wd := wdCounter;
    copied := [];
    var node := arena.nodes[id];
    if node.layer == 0 {
      AllOnUpper(s, id);
      return true, wd, copied;
    }
    ParentToCopy(s, id);
    var parent := node.parent.value;
    if arena.nodes[parent].layer != 0 {
      ok, wd, copied := CreateNodeDirectory(arena, disk, root, chains, parent, wd, devices);
      if !ok {
        return;
      }
    }
    ghost var mid, before := SessionOf(arena, disk, root, chains), disk.history;
    AfterAncestors(s, id, copied, mid);
    ok, wd := PublishDirectory(arena, disk, root, chains, id, wd, devices);
    if !ok {
      SameForOneMore(s.layers, old(disk.history), before, disk.history, mid.layers);
    } else {
      AfterPublish(s, id, copied, mid, SessionOf(arena, disk, root, chains));
      SameForOneMore(s.layers, old(disk.history), before, disk.history, disk.layers);
      copied := copied + [id];
    }
  }

  // ---- Files ----

  /** The copy of a file in the workdir. What was copied when the copying failed stays there. */
  method StageFile(disk: Disk, w: nat, data: FileData) returns (ok: bool)
    requires disk.Valid() && w !in disk.work
    modifies disk`work, disk`refusals
    ensures old(disk.refusals) <= disk.refusals && (disk.refusals == old(disk.refusals) ==> ok)
    ensures disk.Valid() && disk.work.Keys <= old(disk.work.Keys) + {w}
    ensures ok ==> w in disk.work && disk.work[w] == map[[] := File(data)]
  {
    match data
    case Regular(bytes) =>
      ok := disk.MakeWork(w, File(Regular([])));
      if ok {
        var src := new Data.OpenFile(bytes);
        var dst := new Data.OpenFile([]);
        var interrupts: nat, canClone: bool, canSend: bool := *, *, *;
        var kernel := new Data.Kernel(interrupts, canClone, canSend);
        ok := Data.CopyData(kernel, src, dst, |bytes|);
        disk.refusals := disk.refusals + kernel.failures;
        disk.FillWork(w, dst.data);
      }
    case _ =>
      ok := disk.MakeWork(w, File(data));
  }

  /** The rename that puts a finished file in its place. */
  method InstallFile(disk: Disk, w: nat, q: Path, copy: Entry) returns (ok: bool)
    requires disk.Valid() && w in disk.work && disk.work[w] == map[[] := copy]
    requires forall p :: q <= p ==> p !in disk.layers[0]
    modifies disk
    ensures old(disk.refusals) <= disk.refusals
    ensures disk.refusals == old(disk.refusals) && HasRoom(old(disk.layers[0]), q) ==> ok
    ensures disk.Valid() && disk.work.Keys <= old(disk.work.Keys)
    ensures ok ==> disk.layers == WithUpper(old(disk.layers), old(disk.layers[0])[q := copy])
    ensures ok ==> disk.history == old(disk.history) + [disk.layers]
    ensures !ok ==> disk.layers == old(disk.layers) && disk.history == old(disk.history)
  {
    PlantedOne(disk.layers[0], q, copy);
    var r := disk.RenameIn(w, q);
    if r.Err? {
      disk.RemoveWork(w);
    }
    ok := r.Ok?;
  }

  /** From the stat of the source to the rename. */
  method CopyFile(disk: Disk, w: nat, q: Path, k: nat) returns (ok: bool, copy: Entry)
    requires disk.Valid() && w !in disk.work && k < |disk.layers| && q in disk.layers[k] && disk.layers[k][q].File?
    requires forall p :: q <= p ==> p !in disk.layers[0]
    modifies disk
    ensures old(disk.refusals) <= disk.refusals
    ensures disk.refusals == old(disk.refusals) && HasRoom(old(disk.layers[0]), q) ==> ok
    ensures disk.Valid() && disk.work.Keys <= old(disk.work.Keys) + {w} && copy == old(disk.layers[k])[q]
    ensures ok ==> disk.layers == WithUpper(old(disk.layers), old(disk.layers[0])[q := copy])
    ensures ok ==> disk.history == old(disk.history) + [disk.layers]
    ensures !ok ==> disk.layers == old(disk.layers) && disk.history == old(disk.history)
  {
    copy := disk.layers[k][q];
    var source := disk.Stat(k, q);
    if source == None {
      return false, copy;
    }
    ok := StageFile(disk, w, copy.data);
    if ok {
      ok := InstallFile(disk, w, q, copy);
    }
  }

  /** Deleting the marker of a name that has none. */
  method DeleteNoMarker(disk: Disk, q: Path)
    requires disk.Valid() && q != [] && MarkerOf(q) !in disk.layers[0]
    modifies disk`layers, disk`history, disk`refusals
    ensures old(disk.refusals) <= disk.refusals
    ensures disk.Valid() && disk.layers == old(disk.layers) && old(disk.history) == disk.history
  {
    var _ := disk.Unlink(MarkerOf(q));
  }

  /** After the rename: a regular file's marker is deleted, of which there is none, and the node is on
      layer 0. */
  method FinishFile(arena: NodeArena, disk: Disk, id: NodeId, q: Path, copy: Entry)
    requires arena.Valid() && disk.Valid() && id in arena.nodes && copy.File?
    requires q != [] && MarkerOf(q) !in disk.layers[0]
    modifies arena`nodes, disk`layers, disk`history, disk`refusals
    ensures old(disk.refusals) <= disk.refusals
    ensures arena.Valid() && arena.nodes == old(arena.nodes)[id := old(arena.nodes)[id].(layer := 0)]
    ensures disk.Valid() && disk.layers == old(disk.layers) && disk.history == old(disk.history)
  {
    if copy.data.Regular? {
      DeleteNoMarker(disk, q);
    }
    arena.Update(id, arena.nodes[id].(layer := 0));
  }

  /** One file whose parent is on the upper layer. */
  method PublishFile(arena: NodeArena, disk: Disk, ghost root: NodeId, ghost chains: Chains,
                     id: NodeId, wdCounter: nat) returns (ok: bool, wd: nat)
    requires arena.Valid() && disk.Valid() && NamesBelow(disk.work, wdCounter)
    requires Ready(SessionOf(arena, disk, root, chains), id) && id in arena.nodes
    requires !arena.nodes[id].IsDir() && arena.nodes[id].layer > 0 && id != root
    requires arena.nodes[id].parent.Some? && arena.nodes[id].parent.value in arena.nodes
    requires arena.nodes[arena.nodes[id].parent.value].layer == 0
    modifies arena`nodes, disk
    ensures old(disk.refusals) <= disk.refusals
    ensures arena.Valid() && disk.Valid() && wd >= wdCounter && NamesBelow(disk.work, wd)
    ensures disk.refusals == old(disk.refusals) ==> ok
    ensures ok ==> CopiesUp(old(SessionOf(arena, disk, root, chains)), id, SessionOf(arena, disk, root, chains))
    ensures !ok ==> SessionOf(arena, disk, root, chains) == old(SessionOf(arena, disk, root, chains))
    ensures old(disk.history) <= disk.history
    ensures forall k :: |old(disk.history)| <= k < |disk.history| ==> disk.history[k] == disk.layers
  {
    hide CopiesUp;
    hide HasRoom;
    ghost var s := SessionOf(arena, disk, root, chains);
    PublishPlace(s, id);
    PlaceHasRoom(s, id);
    wd := wdCounter;
    var node := arena.nodes[id];
    var q := CollectPath(arena.nodes, id, s.t);
    var w := wd;
    wd := wd + 1;
    var copy;
    ok, copy := CopyFile(disk, w, q, node.layer);
    if !ok {
      return false, wd;
    }
    PublishingCopiesUp(s, id, copy, State(SetNode(s.t, id, node.(layer := 0)), disk.layers));
    FinishFile(arena, disk, id, q, copy);
  }

  /** One entry of either kind. */
  method PublishEntry(arena: NodeArena, disk: Disk, ghost root: NodeId, ghost chains: Chains,
                      id: NodeId, wdCounter: nat, devices: bool, isDir: bool) returns (ok: bool, wd: nat)
    requires arena.Valid() && disk.Valid() && NamesBelow(disk.work, wdCounter)
    requires Ready(SessionOf(arena, disk, root, chains), id) && id in arena.nodes
    requires (arena.nodes[id].IsDir() <==> isDir) && arena.nodes[id].layer > 0 && id != root
    requires arena.nodes[id].parent.Some? && arena.nodes[id].parent.value in arena.nodes
    requires arena.nodes[arena.nodes[id].parent.value].layer == 0
    modifies arena`nodes, disk
    ensures old(disk.refusals) <= disk.refusals
    ensures arena.Valid() && disk.Valid() && wd >= wdCounter && NamesBelow(disk.work, wd)
    ensures disk.refusals == old(disk.refusals) ==> ok
    ensures ok ==> CopiesUp(old(SessionOf(arena, disk, root, chains)), id, SessionOf(arena, disk, root, chains))
    ensures !ok ==> SessionOf(arena, disk, root, chains) == old(SessionOf(arena, disk, root, chains))
    ensures old(disk.history) <= disk.history
    ensures forall k :: |old(disk.history)| <= k < |disk.history| ==> disk.history[k] == disk.layers
  {
    if isDir {
      ok, wd := PublishDirectory(arena, disk, root, chains, id, wdCounter, devices);
    } else {
      ok, wd := PublishFile(arena, disk, root, chains, id, wdCounter);
    }
  }

  /** `copyup`: the ancestors, then the entry itself. Whatever fails on the way and wherever, the
      disk never shows anything but what it showed; on success the node and its ancestors are on
      layer 0, and it succeeds if no call is refused. The steps it took are publishing steps of a
      session. */
  method CopyUp(arena: NodeArena, disk: Disk, ghost root: NodeId, ghost chains: Chains,
                id: NodeId, wdCounter: nat, devices: bool)
    returns (ok: bool, wd: nat, ghost copied: seq<NodeId>)
    requires arena.Valid() && disk.Valid() && NamesBelow(disk.work, wdCounter)
    requires Ready(SessionOf(arena, disk, root, chains), id) && id in arena.nodes && arena.nodes[id].layer > 0
    modifies arena`nodes, disk
    ensures old(disk.refusals) <= disk.refusals
    ensures arena.Valid() && disk.Valid() && wd >= wdCounter && NamesBelow(disk.work, wd)
    ensures CopiedAlong(old(SessionOf(arena, disk, root, chains)), copied, SessionOf(arena, disk, root, chains))
    ensures forall x :: x in copied ==> x in chains[id]
    ensures ok ==> forall a :: a in chains[id] ==> a in arena.nodes && arena.nodes[a].layer == 0
    ensures disk.refusals == old(disk.refusals) ==> ok
    ensures AlwaysSame(old(disk.layers), old(disk.history), disk.history)
  {
    hide CopiesUp;
    ghost var s := SessionOf(arena, disk, root, chains);
    ParentToCopy(s, id);
    wd := wdCounter;
    copied := [];
    var node := arena.nodes[id];
    var q := CollectPath(arena.nodes, id, s.t);
    var source := disk.Stat(node.layer, q);
    if source == None {
      return false, wd, [];
    }
    var parent := node.parent.value;
    ok, wd, copied := CreateNodeDirectory(arena, disk, root, chains, parent, wd, devices);
    AfterAncestors(s, id, copied, SessionOf(arena, disk, root, chains));
    if !ok {
      return;
    }
    ok, wd, copied := PublishLast(arena, disk, root, chains, s, old(disk.history), copied, id, wd, devices, source.value.Dir?);
  }

  /** The entry itself, after its ancestors. */
  method PublishLast(arena: NodeArena, disk: Disk, ghost root: NodeId, ghost chains: Chains, ghost s: State, ghost start: seq<seq<Layer>>,
                     ghost soFar: seq<NodeId>, id: NodeId, wdCounter: nat, devices: bool, isDir: bool)
    returns (ok: bool, wd: nat, ghost copied: seq<NodeId>)
    requires arena.Valid() && disk.Valid() && NamesBelow(disk.work, wdCounter) && LayersOk(s.layers)
    requires Ready(SessionOf(arena, disk, root, chains), id) && CopiedAlong(s, soFar, SessionOf(arena, disk, root, chains))
    requires SameView(s.layers, disk.layers) && AlwaysSame(s.layers, start, disk.history)
    requires id in arena.nodes && (arena.nodes[id].IsDir() <==> isDir) && arena.nodes[id].layer > 0 && id != root
    requires arena.nodes[id].parent.Some? && arena.nodes[id].parent.value in arena.nodes
    requires arena.nodes[arena.nodes[id].parent.value].layer == 0
    modifies arena`nodes, disk
    ensures old(disk.refusals) <= disk.refusals && (disk.refusals == old(disk.refusals) ==> ok)
    ensures arena.Valid() && disk.Valid() && wd >= wdCounter && NamesBelow(disk.work, wd)
    ensures copied == (if ok then soFar + [id] else soFar) && CopiedAlong(s, copied, SessionOf(arena, disk, root, chains))
    ensures ok ==> id in chains && forall a :: a in chains[id] ==> a in arena.nodes && arena.nodes[a].layer == 0
    ensures AlwaysSame(s.layers, start, disk.history)
  {
    hide CopiesUp;
    hide CopiedAlong;
    hide Ready;
    ghost var mid, before := SessionOf(arena, disk, root, chains), disk.history;
    ok, wd := PublishEntry(arena, disk, root, chains, id, wdCounter, devices, isDir);
    copied := soFar;
    if !ok {
      SameForOneMore(s.layers, start, before, disk.history, mid.layers);
    } else {
      AfterPublish(s, id, soFar, mid, SessionOf(arena, disk, root, chains));
      SameForOneMore(s.layers, start, before, disk.history, disk.layers);
      copied := soFar + [id];
    }
  }

  /** What every copy-up leaves, read off its contract: the same view, the same tree but for layers
      that became 0, and, from a coherent session, a coherent session. */
  lemma CopyUpIsInvisible(s: State, id: NodeId, copied: seq<NodeId>, out: State)
    requires Ready(s, id) && CopiedAlong(s, copied, out) && forall x :: x in copied ==> x in s.t.chains[id]
    ensures SameView(s.layers, out.layers) && OnlyLayersChange(s.t, copied, out.t)
    ensures Coherent(s) ==> Coherent(out)
  {
    CopiedAlongIsInvisible(s, id, copied, out);
    CopiedAlongKeepsTree(s, copied, out);
    if Coherent(s) {
      CopiedAlongIsCoherent(s, copied, out);
    }
  }

  /** `get_node_up`. */
  method GetNodeUp(arena: NodeArena, disk: Disk, ghost root: NodeId, ghost chains: Chains,
                   id: NodeId, wdCounter: nat, devices: bool)
    returns (ok: bool, wd: nat, ghost copied: seq<NodeId>)
    requires arena.Valid() && disk.Valid() && NamesBelow(disk.work, wdCounter)
    requires Ready(SessionOf(arena, disk, root, chains), id)
    modifies arena`nodes, disk
    ensures old(disk.refusals) <= disk.refusals
    ensures arena.Valid() && disk.Valid() && wd >= wdCounter && NamesBelow(disk.work, wd)
    ensures CopiedAlong(old(SessionOf(arena, disk, root, chains)), copied, SessionOf(arena, disk, root, chains))
    ensures forall x :: x in copied ==> x in chains[id]
    ensures ok ==> forall a :: a in chains[id] ==> a in arena.nodes && arena.nodes[a].layer == 0
    ensures disk.refusals == old(disk.refusals) ==> ok
    ensures AlwaysSame(old(disk.layers), old(disk.history), disk.history)
  {
    ghost var s := SessionOf(arena, disk, root, chains);
    ReadySelf(s, id);
    if arena.nodes[id].layer == 0 {
      AllOnUpper(s, id);
      return true, wdCounter, [];
    }
    ok, wd, copied := CopyUp(arena, disk, root, chains, id, wdCounter, devices);
  }
}
