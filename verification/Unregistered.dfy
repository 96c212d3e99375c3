/** A creation whose last stat fails: the entry is on the disk, and the engine has not registered it. */
module Unregistered {
  import opened Wrappers
  import opened Names
  import opened NodeTree
  import opened TreeOps
  import opened TreeRuns
  import opened Layers
  import opened Merge
  import opened FreshMount
  import opened DiskChanges
  import opened CleanDisk
  import opened Session
  import opened SessionFrame
  import opened SessionDisk

  /** The disk's part of a creation, without the cache's. */
  ghost predicate CreatesUnregistered(s: State, d: NodeId, n: Name, e: Entry, staged: bool, sentinel: bool, key: InodeKey, out: State) {
    && out.t == s.t && d in s.t.nodes && d in s.t.chains
    && Creates(s, d, n, e, staged, sentinel, key, State(InsertChild(s.t, d, NewNode(n, 0, key, e.Dir?).SetLoaded(true)), out.layers))
  }

  /** The directory as it is cached does not deny the name. */
  ghost predicate OpenTo(t: Tree, d: NodeId, n: Name)
    requires d in t.nodes
  {
    !t.nodes[d].IsLoaded() && !t.nodes[d].IsWhiteout(n)
  }

  lemma UnregisteredUpper(s: State, d: NodeId, n: Name, e: Entry, staged: bool, sentinel: bool, key: InodeKey, out: State)
    requires Coherent(s) && CreatesUnregistered(s, d, n, e, staged, sentinel, key, out)
    requires Ordinary(n) && !InLower(s.layers, PathOf(s.t, d) + [n])
    ensures Vacant(s.layers, PathOf(s.t, d) + [n]) && (sentinel ==> e.Dir?) && e != Whiteout
    ensures out.layers == WithUpper(s.layers, MadeUpper(s.layers[0], PathOf(s.t, d) + [n], e, sentinel))
  {
    CreatedUpper(s, d, n, e, staged, sentinel, key, State(InsertChild(s.t, d, NewNode(n, 0, key, e.Dir?).SetLoaded(true)), out.layers));
  }

  /** The directory is in agreement with the disk if it does not deny the name. */
  lemma OpenDirFine(s: State, d: NodeId, n: Name, e: Entry, mark: bool)
    requires Coherent(s) && d in s.t.nodes && s.t.nodes[d].IsDir() && s.t.nodes[d].layer == 0 && OpenTo(s.t, d, n)
    requires Vacant(s.layers, PathOf(s.t, d) + [n])
    ensures DirOn(WithUpper(s.layers, MadeUpper(s.layers[0], PathOf(s.t, d) + [n], e, mark)), PathOf(s.t, d), s.t.nodes[d])
  {
    var p, q := PathOf(s.t, d), PathOf(s.t, d) + [n];
    assert Parent(q) == p && Last(q) == n;
    MadeChange(s.layers, q, e, mark);
    DirOnUpper(s, d);
    assert NodeFine(s, d);
    DirOnAt(s.layers, p, s.t.nodes[d]);
    DirKeptAway(s.layers, MadeUpper(s.layers[0], q, e, mark), q, p, s.t.nodes[d]);
  }

  lemma OpenKeepsCoherence(s: State, d: NodeId, n: Name, e: Entry, staged: bool, sentinel: bool, key: InodeKey, out: State)
    requires Coherent(s) && CreatesUnregistered(s, d, n, e, staged, sentinel, key, out) && OpenTo(s.t, d, n)
    requires Ordinary(n) && !InLower(s.layers, PathOf(s.t, d) + [n])
    ensures Coherent(out)
  {
    hide MadeUpper;
    hide InsertChild;
    UnregisteredUpper(s, d, n, e, staged, sentinel, key, out);
    MadeClean(s.layers, PathOf(s.t, d) + [n], e, sentinel);
    OpenDirFine(s, d, n, e, sentinel);
    forall x | x in s.t.nodes
      ensures NodeFine(out, x)
    {
      MadeElsewhere(s, d, n, e, sentinel, x);
    }
  }

  /** The exact condition: the session stays coherent if the directory is not loaded and has not
      remembered the name as a whiteout; and only then. */
  lemma UnregisteredIsCoherentIff(s: State, d: NodeId, n: Name, e: Entry, staged: bool, sentinel: bool, key: InodeKey, out: State)
    requires Coherent(s) && CreatesUnregistered(s, d, n, e, staged, sentinel, key, out)
    requires Ordinary(n) && !InLower(s.layers, PathOf(s.t, d) + [n])
    ensures Coherent(out) <==> OpenTo(s.t, d, n)
  {
    if OpenTo(s.t, d, n) {
      OpenKeepsCoherence(s, d, n, e, staged, sentinel, key, out);
    }
    if Coherent(out) {
      UnregisteredUpper(s, d, n, e, staged, sentinel, key, out);
      var q := PathOf(s.t, d) + [n];
      assert Parent(q) == PathOf(s.t, d) && Last(q) == n;
      MadeShows(s.layers, q, e, sentinel);
      assert NodeFine(out, d);
    }
  }

  /** In any case the entry is shown, though the call has failed, and nothing else changes. */
  lemma UnregisteredIsShown(s: State, d: NodeId, n: Name, e: Entry, staged: bool, sentinel: bool, key: InodeKey, out: State, r: Path)
    requires Coherent(s) && CreatesUnregistered(s, d, n, e, staged, sentinel, key, out)
    requires Ordinary(n) && !InLower(s.layers, PathOf(s.t, d) + [n])
    ensures ShowsOneMore(s.layers, PathOf(s.t, d) + [n], e, out.layers, r)
  {
    CreateShowsOneMore(s, d, n, e, staged, sentinel, key,
                       State(InsertChild(s.t, d, NewNode(n, 0, key, e.Dir?).SetLoaded(true)), out.layers), r);
  }
}
