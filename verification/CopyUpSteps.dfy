/** Why the steps of a copy-up are right on every disk, clean or not: they need only that the nodes
    from the root down to the one that is copied are what a fresh mount shows at their paths. */
module CopyUpSteps {
  import opened Wrappers
  import opened Names
  import opened NodeTree
  import opened TreeOps
  import opened TreeRuns
  import opened Layers
  import opened Merge
  import opened FreshMount
  import opened DiskChanges
  import opened CleanDisk
  import opened Session
  import opened SessionFrame
  import opened SessionDisk

  /** The node is what a fresh mount shows at its path. */
  ghost predicate NodeRight(s: State, id: NodeId)
    requires TreeOk(s.t)
  {
    && id in s.t.nodes
    && var f := Fresh(s.layers, PathOf(s.t, id));
       f.Some? && f.value.layer == s.t.nodes[id].layer && (f.value.isDir <==> s.t.nodes[id].IsDir())
  }

  /** The whole way down to the node is right. */
  ghost predicate Ready(s: State, id: NodeId) {
    && TreeOk(s.t) && LayersOk(s.layers) && MarkersPlain(s.layers[0])
    && id in s.t.chains && forall a :: a in s.t.chains[id] ==> NodeRight(s, a)
  }

  /** In a coherent session every node can be copied up. */
  lemma CoherentIsReady(s: State, id: NodeId)
    requires Coherent(s) && id in s.t.nodes
    ensures Ready(s, id)
  {
    CleanMarkersPlain(s.layers);
    AllAttached(s, id);
    AttachedAncestors(s.t, id);
    forall a | a in s.t.chains[id]
      ensures NodeRight(s, a)
    {
      CoherentFresh(s, a);
    }
  }

  lemma ReadyAbove(s: State, id: NodeId, a: NodeId)
    requires Ready(s, id) && a in s.t.chains[id]
    ensures Ready(s, a) && a in s.t.nodes
  {
    BelowIsTransitive(s.t, id, a, a);
  }

  lemma ReadySelf(s: State, id: NodeId)
    requires Ready(s, id)
    ensures id in s.t.nodes && id in s.t.chains[id] && NodeRight(s, id)
  {
    assert ChainOk(s.t.chains, id);
    var c := s.t.chains[id];
    assert c[|c| - 1] in c;
  }

  // ---- Paths on one chain ----

  lemma {:induction false} PathLength(t: Tree, id: NodeId)
    requires TreeOk(t) && id in t.nodes && Alive(t, id)
    ensures |PathOf(t, id)| == |t.chains[id]| - 1
    decreases if id in t.chains then |t.chains[id]| else 0
  {
    if id != t.root {
      AliveParent(t, id);
      PathLength(t, t.nodes[id].parent.value);
    }
  }

  lemma ReadyAlive(s: State, id: NodeId, a: NodeId)
    requires Ready(s, id) && a in s.t.chains[id]
    ensures a in s.t.nodes && Alive(s.t, a) && |PathOf(s.t, a)| == |s.t.chains[a]| - 1
  {
    ReadyAbove(s, id, a);
    ReadyIsAlive(s, a);
    PathLength(s.t, a);
  }

  lemma ReadyIsAlive(s: State, id: NodeId)
    requires Ready(s, id)
    ensures Alive(s.t, id)
  {
    assert forall x :: x in s.t.chains[id] ==> NodeRight(s, x);
  }

  /** Two nodes on one chain with the same path are the same. */
  lemma SamePathOnChain(s: State, id: NodeId, a: NodeId, b: NodeId)
    requires Ready(s, id) && a in s.t.chains[id] && b in s.t.chains[id] && PathOf(s.t, a) == PathOf(s.t, b)
    ensures a == b
  {
    ReadyAlive(s, id, a);
    ReadyAlive(s, id, b);
    assert ChainOk(s.t.chains, id) && ChainOk(s.t.chains, a) && ChainOk(s.t.chains, b);
    BelowIsTransitive(s.t, id, a, a);
    BelowIsTransitive(s.t, id, b, b);
    assert s.t.chains[a] == s.t.chains[b];
  }

  // ---- One step ----

  /** A node on the upper layer has its ancestors there too. */
  lemma {:induction false} AncestorsOnUpper(s: State, id: NodeId, a: NodeId)
    requires Ready(s, id) && id in s.t.nodes && a in s.t.chains[id] && s.t.nodes[id].layer == 0
    ensures a in s.t.nodes && s.t.nodes[a].layer == 0
    decreases if id in s.t.chains then |s.t.chains[id]| else 0
  {
    ReadySelf(s, id);
    if a != id {
      RootChain(s.t, id, a);
      BelowParent(s.t, id, a);
      var p := s.t.nodes[id].parent.value;
      assert ChainOk(s.t.chains, p) && p in s.t.chains[id];
      ReadyAbove(s, id, p);
      ParentOnUpper(s, id);
      AncestorsOnUpper(s, p, a);
    }
  }

  lemma RootChain(t: Tree, id: NodeId, a: NodeId)
    requires TreeOk(t) && id in t.nodes && id in t.chains && a in t.chains[id] && a != id
    ensures id != t.root && LinkOk(t, id)
  {
    assert LinkOk(t, id);
  }

  lemma ParentOnUpper(s: State, id: NodeId)
    requires Ready(s, id) && id in s.t.nodes && id != s.t.root && s.t.nodes[id].layer == 0
    ensures LinkOk(s.t, id) && s.t.nodes[id].parent.value in s.t.nodes
    ensures s.t.nodes[s.t.nodes[id].parent.value].layer == 0
  {
    PathSplits(s.t, id);
    ReadySelf(s, id);
    var q, p := PathOf(s.t, id), s.t.nodes[id].parent.value;
    assert ChainOk(s.t.chains, p);
    assert p in s.t.chains[id] && NodeRight(s, p);
    FreshIsTopmost(s.layers, q);
    assert EntryPlaced(s.layers[0], q);
    if Parent(q) != [] {
      FreshIsTopmost(s.layers, Parent(q));
    }
  }

  /** A publishing step in a session that is right on the way down. */
  lemma CopyCanPublish(s: State, id: NodeId, x: NodeId, out: State)
    requires Ready(s, id) && x in s.t.chains[id] && CopiesUp(s, x, out)
    ensures CanPublish(s.layers, PathOf(s.t, x)) && out.layers == Published(s.layers, PathOf(s.t, x))
  {
    ReadyAbove(s, id, x);
    ReadySelf(s, x);
    PathSplits(s.t, x);
    var q, p := PathOf(s.t, x), s.t.nodes[x].parent.value;
    assert ChainOk(s.t.chains, p);
    assert p in s.t.chains[x] && NodeRight(s, p);
    FreshIsTopmost(s.layers, q);
    if Parent(q) != [] {
      FreshIsTopmost(s.layers, Parent(q));
    }
  }

  /** It is invisible, leaves the tree's links alone, and the way down is right afterwards. */
  lemma CopyStep(s: State, id: NodeId, x: NodeId, out: State)
    requires Ready(s, id) && x in s.t.chains[id] && CopiesUp(s, x, out)
    ensures SameView(s.layers, out.layers) && Ready(out, id)
    ensures SameLinks(s.t, out.t)
  {
    var q := PathOf(s.t, x);
    CopyCanPublish(s, id, x, out);
    PublishIsInvisible(s.layers, q);
    PublishedOk(s.layers, q);
    SetNodeOk(s.t, x, s.t.nodes[x].(layer := 0));
    forall a | a in out.t.chains[id]
      ensures NodeRight(out, a)
    {
      assert NodeRight(s, a);
      SameLinksSamePaths(s.t, out.t, a);
      PublishedFresh(s.layers, q, PathOf(s.t, a));
      if PathOf(s.t, a) == q {
        SamePathOnChain(s, id, a, x);
      }
    }
  }

  /** What is needed at a node before it is published. */
  lemma PublishPlace(s: State, id: NodeId)
    requires Ready(s, id) && id in s.t.nodes && s.t.nodes[id].layer > 0
    ensures id != s.t.root && LinkOk(s.t, id) && s.t.nodes[id].parent.value in s.t.nodes
    ensures var q, k := PathOf(s.t, id), s.t.nodes[id].layer;
            && q != [] && k < |s.layers| && q in s.layers[k] && s.layers[k][q] != Whiteout
            && (s.layers[k][q].Dir? <==> s.t.nodes[id].IsDir())
            && (forall p :: q <= p ==> p !in s.layers[0])
            && ValidName(Last(q))
  {
    ReadySelf(s, id);
    assert PathOf(s.t, s.t.root) == [];
    var q := PathOf(s.t, id);
    PathSplits(s.t, id);
    assert s.t.nodes[id].parent.value in s.t.chains[id] by {
      assert ChainOk(s.t.chains, s.t.nodes[id].parent.value);
    }
    FreshIsTopmost(s.layers, q);
    forall p | q <= p
      ensures p !in s.layers[0]
    {
      AbsentBelow(s.layers[0], q, p);
    }
  }

  /** A name that copy-up publishes has no marker beside it. */
  lemma PublishedHasNoMarker(layers: seq<Layer>, q: Path)
    requires CanPublish(layers, q)
    ensures MarkerOf(q) !in layers[0]
  {
    FreshIsTopmost(layers, q);
    var s, bound := FreshUnfolded(layers, q);
    NoMarkerInParent(layers, Parent(q), Last(q), bound);
  }

  // ---- Several steps ----

  function Front(ids: seq<NodeId>): seq<NodeId>
    requires ids != []
  {
    ids[..|ids| - 1]
  }

  function Final(ids: seq<NodeId>): NodeId
    requires ids != []
  {
    ids[|ids| - 1]
  }

  /** `out` is `s` after publishing steps for `ids`, one after the other. */
  ghost predicate CopiedAlong(s: State, ids: seq<NodeId>, out: State)
    decreases |ids|
  {
    if ids == [] then out == s
    else exists mid: State :: CopiedAlong(s, Front(ids), mid) && CopiesUp(mid, Final(ids), out)
  }

  lemma CopiedOneMore(s: State, ids: seq<NodeId>, mid: State, x: NodeId, out: State)
    requires CopiedAlong(s, ids, mid) && CopiesUp(mid, x, out)
    ensures CopiedAlong(s, ids + [x], out)
  {
    assert Front(ids + [x]) == ids && Final(ids + [x]) == x;
  }

  lemma FrontOfConcat(ids: seq<NodeId>, more: seq<NodeId>)
    requires more != []
    ensures ids + more != [] && Front(ids + more) == ids + Front(more) && Final(ids + more) == Final(more)
  {}

  lemma {:induction false} CopiedConcat(s: State, ids: seq<NodeId>, mid: State, more: seq<NodeId>, out: State)
    requires CopiedAlong(s, ids, mid) && CopiedAlong(mid, more, out)
    ensures CopiedAlong(s, ids + more, out)
    decreases |more|
  {
    hide CopiesUp;
    if more == [] {
      assert ids + more == ids;
    } else {
      var last: State :| CopiedAlong(mid, Front(more), last) && CopiesUp(last, Final(more), out);
      CopiedConcat(s, ids, mid, Front(more), last);
      FrontOfConcat(ids, more);
    }
  }

  /** Layers of the copied nodes become 0, and nothing else about the tree changes: names, parents,
      children, whiteouts, and the identities that FUSE numbers are made from. */
  ghost predicate OnlyLayersChange(t: Tree, ids: seq<NodeId>, u: Tree) {
    && u.root == t.root && u.nextId == t.nextId && u.chains == t.chains && u.nodes.Keys == t.nodes.Keys
    && forall x :: x in t.nodes ==> u.nodes[x] == if x in ids then t.nodes[x].(layer := 0) else t.nodes[x]
  }

  lemma FrontFinal(ids: seq<NodeId>)
    requires ids != []
    ensures ids == Front(ids) + [Final(ids)] && Final(ids) in ids && forall x :: x in Front(ids) ==> x in ids
  {}

  /** The steps of one copy-up together: invisible, and right on the way down afterwards. */
  lemma {:induction false} CopiedAlongIsInvisible(s: State, id: NodeId, ids: seq<NodeId>, out: State)
    requires Ready(s, id) && CopiedAlong(s, ids, out) && forall x :: x in ids ==> x in s.t.chains[id]
    ensures SameView(s.layers, out.layers) && Ready(out, id) && out.t.chains == s.t.chains
    decreases |ids|
  {
    if ids == [] {
      SameViewReflexive(s.layers);
    } else {
      var mid: State :| CopiedAlong(s, Front(ids), mid) && CopiesUp(mid, Final(ids), out);
      FrontFinal(ids);
      CopiedAlongIsInvisible(s, id, Front(ids), mid);
      CopyStep(mid, id, Final(ids), out);
      SameViewTransitive(s.layers, mid.layers, out.layers);
    }
  }

  lemma {:induction false} CopiedAlongKeepsTree(s: State, ids: seq<NodeId>, out: State)
    requires TreeOk(s.t) && CopiedAlong(s, ids, out)
    ensures TreeOk(out.t) && OnlyLayersChange(s.t, ids, out.t) && SameLinks(s.t, out.t)
    ensures |out.layers| == |s.layers|
    decreases |ids|
  {
    if ids != [] {
      var x := Final(ids);
      var mid: State :| CopiedAlong(s, Front(ids), mid) && CopiesUp(mid, x, out);
      CopiedAlongKeepsTree(s, Front(ids), mid);
      OneMoreLayer(s.t, ids, mid.t, out.t);
    }
  }

  lemma OneMoreLayer(t: Tree, ids: seq<NodeId>, mid: Tree, u: Tree)
    requires ids != [] && TreeOk(mid) && OnlyLayersChange(t, Front(ids), mid) && SameLinks(t, mid)
    requires Final(ids) in mid.nodes && u == SetNode(mid, Final(ids), mid.nodes[Final(ids)].(layer := 0))
    ensures TreeOk(u) && OnlyLayersChange(t, ids, u) && SameLinks(t, u)
  {
    FrontFinal(ids);
    SetNodeOk(mid, Final(ids), mid.nodes[Final(ids)].(layer := 0));
    SameLinksTransitive(t, mid, u);
  }

  lemma SameLinksTransitive(t: Tree, mid: Tree, u: Tree)
    requires SameLinks(t, mid) && SameLinks(mid, u)
    ensures SameLinks(t, u)
  {}

  /** In a coherent session they keep it coherent. */
  lemma {:induction false} CopiedAlongIsCoherent(s: State, ids: seq<NodeId>, out: State)
    requires Coherent(s) && CopiedAlong(s, ids, out)
    ensures Coherent(out)
    decreases |ids|
  {
    if ids != [] {
      var before, x := Front(ids), Final(ids);
      var mid: State :| CopiedAlong(s, before, mid) && CopiesUp(mid, x, out);
      CopiedAlongIsCoherent(s, before, mid);
      CopyKeepsCoherence(mid, x, out);
    }
  }
}
