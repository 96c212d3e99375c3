/** Runs of a session from a fresh mount: in every state the cache agrees with the disk. */
module Coherence {
  import opened Wrappers
  import opened Names
  import opened NodeTree
  import opened TreeOps
  import opened TreeRuns
  import opened Layers
  import opened Merge
  import opened FreshMount
  import opened DiskChanges
  import opened Removal
  import opened CleanDisk
  import opened Session
  import opened SessionFrame
  import opened SessionScan
  import opened SessionDisk
  import opened DiskRename
  import opened SessionRename
  import opened RenameSeen
  import opened Clearing
  import opened RenameUncovered
  import opened SessionExchange
  import opened Unregistered

  /** Among the steps are those of operations that do not go well: a rename whose whiteout could not
      be made (`RenameBare`), a creation or a rename that fails when it has deleted whiteouts of the
      new name, or inside the empty directory there (`Clear`), and a creation that fails when the entry
      is on the disk (`CreateBare`). */
  datatype Op =
    | Load(d: NodeId)
    | Look(d: NodeId, n: Name)
    | CopyUp(id: NodeId)
    | Create(d: NodeId, n: Name, e: Entry, staged: bool, sentinel: bool, key: InodeKey)
    | Remove(d: NodeId, n: Name, cover: Cover)
    | Rename(sp: NodeId, n: Name, dp: NodeId, m: Name, cover: Cover)
    | Exchange(sp: NodeId, n: Name, dp: NodeId, m: Name)
    | RenameBare(sp: NodeId, n: Name, dp: NodeId, m: Name)
    | Clear(d: NodeId, n: Name)
    | CreateBare(d: NodeId, n: Name, e: Entry, staged: bool, sentinel: bool, key: InodeKey)

  ghost predicate Step(s: State, op: Op, out: State) {
    match op
    case Load(d) => Loads(s, d, out)
    case Look(d, n) => Looks(s, d, n, out) && !IsWh(n)
    case CopyUp(id) => CopiesUp(s, id, out)
    case Create(d, n, e, staged, sentinel, key) => Creates(s, d, n, e, staged, sentinel, key, out)
    case Remove(d, n, cover) => Removes(s, d, n, cover, out)
    case Rename(sp, n, dp, m, cover) => Renames(s, sp, n, dp, m, cover, out)
    case Exchange(sp, n, dp, m) => Exchanges(s, sp, n, dp, m, out)
    case RenameBare(sp, n, dp, m) => RenamesUncovered(s, sp, n, dp, m, out)
    case Clear(d, n) => TreeOk(s.t) && Clears(s, PathOf(s.t, d) + [n], out)
    case CreateBare(d, n, e, staged, sentinel, key) => CreatesUnregistered(s, d, n, e, staged, sentinel, key, out)
  }

  /** The name that an operation makes is one that users create, and no lower layer has a created one in
      that directory; a file is not renamed to a name that has a marker; what is renamed or exchanged
      fits where it goes; a failed operation loses no whiteout that hid a lower name; and no directory that
      denies the name has an entry left behind in it. */
  ghost predicate NewNames(s: State, op: Op, out: State) {
    TreeOk(s.t) && s.layers != [] ==>
      match op
      case Create(d, n, _, _, _, _) => Ordinary(n) && !InLower(s.layers, PathOf(s.t, d) + [n])
      case Rename(sp, n, dp, m, _) =>
        Ordinary(m) && (RenameAllowed(s.t, sp, n, dp, m) ==> NoStaleMarker(s, sp, n, dp, m) && RenameFits(s, sp, n, dp, m))
      case Exchange(sp, n, dp, m) => ExchangeAllowed(s.t, sp, n, dp, m) ==> ExchangeFits(s, sp, n, dp, m)
      case RenameBare(sp, n, dp, m) =>
        Ordinary(m) && (RenameAllowed(s.t, sp, n, dp, m) ==> NoStaleMarker(s, sp, n, dp, m) && RenameFits(s, sp, n, dp, m))
      case Clear(_, _) => out.layers != [] ==> NoneUncovered(s.layers, out.layers)
      case CreateBare(d, n, _, _, _, _) =>
        Ordinary(n) && !InLower(s.layers, PathOf(s.t, d) + [n]) && (d in s.t.nodes ==> OpenTo(s.t, d, n))
      case _ => true
  }

  /** A fresh mount: the root alone over an empty upper layer and lower layers without whiteouts,
      opaque directories and clashes of files and directories. */
  ghost predicate Mounts(s: State) {
    && s.t == MountTree()
    && LayersOk(s.layers) && s.layers[0] == map[[] := Entry.Dir(false)]
    && (forall i :: 1 <= i < |s.layers| ==> CleanLower(s.layers[i]))
    && (forall i, j, p {:trigger NoClash(s.layers, i, j, p)} :: 0 <= i < |s.layers| && 0 <= j < |s.layers| ==> NoClash(s.layers, i, j, p))
  }

  ghost predicate IsSession(run: seq<State>, ops: seq<Op>) {
    && |run| == |ops| + 1 && Mounts(run[0])
    && forall i :: 0 <= i < |ops| ==> TakesStep(run[i], ops[i], run[i + 1])
  }

  ghost predicate TakesStep(s: State, op: Op, out: State) {
    Step(s, op, out) && NewNames(s, op, out)
  }

  lemma MountIsCoherent(s: State)
    requires Mounts(s)
    ensures Coherent(s)
  {
    forall p
      ensures UpperOpaque(s.layers, p)
    {
      assert p + [OPAQUE_WHITEOUT] != [];
    }
    assert Clean(s.layers);
    assert TreeOk(s.t);
    forall id | id in s.t.nodes
      ensures NodeFine(s, id)
    {
      assert id == s.t.root;
    }
  }

  lemma StepKeepsCoherence(s: State, op: Op, out: State)
    requires Coherent(s) && TakesStep(s, op, out)
    ensures Coherent(out)
  {
    hide Coherent;
    hide Creates;
    hide Removes;
    CoherentParts(s);
    match op
    case Load(d) => LoadKeepsCoherence(s, d, out);
    case Look(d, n) => LookKeepsCoherence(s, d, n, out);
    case CopyUp(id) => CopyKeepsCoherence(s, id, out);
    case Create(d, n, e, staged, sentinel, key) => CreateKeepsCoherence(s, d, n, e, staged, sentinel, key, out);
    case Remove(d, n, cover) => RemoveKeepsCoherence(s, d, n, cover, out);
    case Rename(sp, n, dp, m, cover) => RenameKeepsCoherence(s, sp, n, dp, m, cover, out);
    case Exchange(sp, n, dp, m) => ExchangeKeepsCoherence(s, sp, n, dp, m, out);
    case RenameBare(sp, n, dp, m) => UncoveredKeepsCoherence(s, sp, n, dp, m, out);
    case Clear(d, n) => ClearKeepsCoherence(s, PathOf(s.t, d) + [n], out);
    case CreateBare(d, n, e, staged, sentinel, key) => OpenKeepsCoherence(s, d, n, e, staged, sentinel, key, out);
  }

  lemma {:induction false} RunKeepsCoherence(run: seq<State>, ops: seq<Op>, i: nat)
    requires IsSession(run, ops) && i < |run|
    ensures Coherent(run[i])
  {
    if i == 0 {
      MountIsCoherent(run[0]);
    } else {
      var j := i - 1;
      RunKeepsCoherence(run, ops, j);
      assert TakesStep(run[j], ops[j], run[j + 1]);
      StepKeepsCoherence(run[j], ops[j], run[i]);
    }
  }

  /** In every state of every session, for every directory in the cache: its cached children are
      among those of a fresh scan of the disk, its cached whiteouts are not, and if it is loaded
      it has them all. */
  lemma CacheAgreesWithDisk(run: seq<State>, ops: seq<Op>, i: nat, d: NodeId)
    requires IsSession(run, ops) && i < |run| && d in run[i].t.nodes && run[i].t.nodes[d].IsDir()
    ensures TreeOk(run[i].t)
    ensures var node := run[i].t.nodes[d];
            var shown := ScanOf(run[i].layers, PathOf(run[i].t, d), node.last).children;
            && node.dir.children.Keys <= shown.Keys
            && node.dir.whiteouts !! shown.Keys
            && (node.dir.loaded ==> node.dir.children.Keys == shown.Keys)
  {
    RunKeepsCoherence(run, ops, i);
    CoherentDir(run[i], d);
  }

  /** And every cached node is what a fresh mount would show at its path. */
  lemma CachedNodesAreShown(run: seq<State>, ops: seq<Op>, i: nat, id: NodeId)
    requires IsSession(run, ops) && i < |run| && id in run[i].t.nodes
    ensures TreeOk(run[i].t)
    ensures var f := Fresh(run[i].layers, PathOf(run[i].t, id));
            f.Some? && f.value.layer == run[i].t.nodes[id].layer && f.value.isDir == run[i].t.nodes[id].IsDir()
  {
    RunKeepsCoherence(run, ops, i);
    CoherentFresh(run[i], id);
  }

  /** In every state, a node's layer is not above its parent's, which is what the early exits of
      `create_node_directory` rely on. */
  lemma LayersNeverDecrease(run: seq<State>, ops: seq<Op>, i: nat, id: NodeId)
    requires IsSession(run, ops) && i < |run| && id in run[i].t.nodes && id != run[i].t.root
    ensures run[i].t.nodes[id].parent.Some? && run[i].t.nodes[id].parent.value in run[i].t.nodes
    ensures run[i].t.nodes[run[i].t.nodes[id].parent.value].layer <= run[i].t.nodes[id].layer
  {
    RunKeepsCoherence(run, ops, i);
    LayersDescend(run[i], id);
  }

  /** What users see changes in a session only by creating, removing and renaming: scans, lookups,
      copy-ups and clearings are invisible, a creation shows one more path, a removal one less, and a
      rename shows a subtree at another place, an exchange two subtrees in each other's; a rename without
      its whiteout shows the lower file as well. The contents that are shown go with the paths. */
  lemma StepIsSeen(run: seq<State>, ops: seq<Op>, i: nat)
    requires IsSession(run, ops) && i < |ops|
    ensures TreeOk(run[i].t)
    ensures var s, out := run[i], run[i + 1];
            match ops[i]
            case Load(_) => SameView(s.layers, out.layers)
            case Look(_, _) => SameView(s.layers, out.layers)
            case CopyUp(_) => SameView(s.layers, out.layers)
            case Create(d, n, e, _, _, _) =>
              forall r :: ShowsOneMore(s.layers, PathOf(s.t, d) + [n], e, out.layers, r)
            case Remove(d, n, _) => RemovedExactly(s.layers, out.layers, PathOf(s.t, d) + [n])
            case Rename(sp, n, dp, m, cover) =>
              RenameAllowed(s.t, sp, n, dp, m)
              && forall r :: ShowsMoved(s.layers, MoveOf(s.t, sp, n, dp, m, cover), out.layers, r)
            case Exchange(sp, n, dp, m) =>
              forall r :: SeenSwapped(s.layers, PathOf(s.t, sp) + [n], PathOf(s.t, dp) + [m], out.layers, r)
            case RenameBare(sp, n, dp, m) =>
              RenameAllowed(s.t, sp, n, dp, m)
              && forall r :: SeenUncovered(s.layers, MoveOf(s.t, sp, n, dp, m, Nothing), out.layers, r)
            case Clear(_, _) => SameView(s.layers, out.layers)
            case CreateBare(d, n, e, _, _, _) =>
              forall r :: ShowsOneMore(s.layers, PathOf(s.t, d) + [n], e, out.layers, r)
  {
    RunKeepsCoherence(run, ops, i);
    var s, out := run[i], run[i + 1];
    assert TakesStep(s, ops[i], out);
    match ops[i]
    case Load(_) => SameViewReflexive(s.layers);
    case Look(_, _) => SameViewReflexive(s.layers);
    case CopyUp(id) => CopyIsInvisible(s, id, out);
    case Create(d, n, e, staged, sentinel, key) =>
      forall r
        ensures ShowsOneMore(s.layers, PathOf(s.t, d) + [n], e, out.layers, r)
      {
        CreateShowsOneMore(s, d, n, e, staged, sentinel, key, out, r);
      }
    case Remove(d, n, cover) => RemoveShowsOneLess(s, d, n, cover, out);
    case Rename(sp, n, dp, m, cover) =>
      forall r
        ensures ShowsMoved(s.layers, MoveOf(s.t, sp, n, dp, m, cover), out.layers, r)
      {
        RenameShowsMoved(s, sp, n, dp, m, cover, out, r);
      }
    case Exchange(sp, n, dp, m) =>
      forall r
        ensures SeenSwapped(s.layers, PathOf(s.t, sp) + [n], PathOf(s.t, dp) + [m], out.layers, r)
      {
        ExchangeShowsSwapped(s, sp, n, dp, m, out, r);
      }
    case RenameBare(sp, n, dp, m) =>
      forall r
        ensures SeenUncovered(s.layers, MoveOf(s.t, sp, n, dp, m, Nothing), out.layers, r)
      {
        UncoveredShows(s, sp, n, dp, m, out, r);
      }
    case Clear(d, n) => ClearIsInvisible(s, PathOf(s.t, d) + [n], out);
    case CreateBare(d, n, e, staged, sentinel, key) =>
      forall r
        ensures ShowsOneMore(s.layers, PathOf(s.t, d) + [n], e, out.layers, r)
      {
        UnregisteredIsShown(s, d, n, e, staged, sentinel, key, out, r);
      }
  }
}
