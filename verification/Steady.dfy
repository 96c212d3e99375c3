/** Steps of a session that users cannot see: the disk shows the same, no node goes away, none moves,
    and directories keep the children they have cached. */
module Steady {
  import opened Wrappers
  import opened Names
  import opened NodeTree
  import opened TreeOps
  import opened TreeRuns
  import opened Layers
  import opened Merge
  import opened LazyLookup
  import opened FreshMount
  import opened DiskChanges
  import opened CleanDisk
  import opened Filling
  import opened Session
  import opened SessionScan
  import opened CopyUpSteps

  /** A node before and after. */
  ghost predicate NodeSteady(t: Tree, u: Tree, x: NodeId)
    requires TreeOk(t) && TreeOk(u) && x in t.nodes
  {
    && x in u.nodes && PathOf(u, x) == PathOf(t, x)
    && (u.nodes[x].IsDir() <==> t.nodes[x].IsDir())
    && forall k :: k in t.nodes[x].Children() ==> u.nodes[x].GetChild(k) == Some(t.nodes[x].Children()[k])
  }

  ghost predicate Unseen(s: State, out: State) {
    && TreeOk(s.t) && Coherent(out) && SameView(s.layers, out.layers) && |out.layers| == |s.layers|
    && out.t.root == s.t.root
    && forall x :: x in s.t.nodes ==> NodeSteady(s.t, out.t, x)
  }

  lemma UnseenReflexive(s: State)
    requires Coherent(s)
    ensures Unseen(s, s)
  {
    SameViewReflexive(s.layers);
  }

  lemma UnseenTransitive(s: State, mid: State, out: State)
    requires Unseen(s, mid) && Unseen(mid, out)
    ensures Unseen(s, out)
  {
    SameViewTransitive(s.layers, mid.layers, out.layers);
    forall x | x in s.t.nodes
      ensures NodeSteady(s.t, out.t, x)
    {
      assert NodeSteady(s.t, mid.t, x) && NodeSteady(mid.t, out.t, x);
    }
  }

  /** Of two outcomes that are unseen from the same state, with the same cache, neither shows what the
      other does not. */
  lemma UnseenBetween(s: State, mid: State, out: State)
    requires Unseen(s, mid) && Unseen(s, out) && out.t == mid.t
    ensures Unseen(mid, out)
  {
    hide Fresh;
    forall p
      ensures SameAt(mid.layers, out.layers, p)
    {
      assert SameAt(s.layers, mid.layers, p) && SameAt(s.layers, out.layers, p);
    }
    forall x | x in mid.t.nodes
      ensures NodeSteady(mid.t, out.t, x)
    {}
  }

  lemma LooksUnseen(s: State, d: NodeId, n: Name, out: State)
    requires Coherent(s) && Looks(s, d, n, out) && !IsWh(n)
    ensures Unseen(s, out)
  {
    LookKeepsCoherence(s, d, n, out);
    SameViewReflexive(s.layers);
    forall x | x in s.t.nodes
      ensures NodeSteady(s.t, out.t, x)
    {
      LookedUpSteady(s.t, d, n, LazyResult(ViewsOf(s.layers, PathOf(s.t, d)), s.t.nodes[d].last, n), out.t, x);
    }
    assert out.t.root == s.t.root;
  }

  lemma LookedUpSteady(t: Tree, d: NodeId, n: Name, r: Outcome, u: Tree, x: NodeId)
    requires TreeOk(t) && TreeOk(u) && d in t.nodes && t.nodes[d].IsDir() && n !in t.nodes[d].Children()
    requires LookedUp(t, d, n, r, u) && x in t.nodes && (r.Found? ==> ValidName(n))
    ensures NodeSteady(t, u, x)
  {
    match r
    case Found(seen) =>
      var key :| u == InsertChild(t, d, NewNode(n, seen.layer, key, seen.isDir).(last := seen.last));
      hide InsertChild;
      hide NodeSteady;
      InsertSteady(t, d, NewNode(n, seen.layer, key, seen.isDir).(last := seen.last), x);
    case HiddenBy(w) =>
      SetNodeOk(t, d, t.nodes[d].InsertWhiteout(w));
      SameLinksSamePaths(t, u, x);
    case NotFound =>
  }

  lemma InsertSteady(t: Tree, d: NodeId, node: Node, x: NodeId)
    requires TreeOk(t) && d in t.nodes && t.nodes[d].IsDir() && node.name !in t.nodes[d].Children() && x in t.nodes
    requires ValidName(node.name) && node.Children() == map[] && TreeOk(InsertChild(t, d, node))
    ensures NodeSteady(t, InsertChild(t, d, node), x)
  {
    InsertChildOk(t, d, node);
    assert t.nextId !in t.chains;
  }

  lemma LoadsUnseen(s: State, d: NodeId, out: State)
    requires Coherent(s) && Loads(s, d, out)
    ensures Unseen(s, out)
  {
    LoadKeepsCoherence(s, d, out);
    SameViewReflexive(s.layers);
    var c := Rescan(s, d);
    var u: Tree :| Filled(s.t, u, d, c) && out.t == SetNode(u, d, u.nodes[d].SetLoaded(true));
    forall x | x in s.t.nodes
      ensures NodeSteady(s.t, out.t, x)
    {
      FilledSteady(s.t, u, d, c, out.t, x);
    }
  }

  lemma FilledSteady(t: Tree, u: Tree, d: NodeId, c: Cache, v: Tree, x: NodeId)
    requires Filled(t, u, d, c) && TreeOk(v) && v == SetNode(u, d, u.nodes[d].SetLoaded(true)) && x in t.nodes
    ensures NodeSteady(t, v, x)
  {
    FilledKeepsPath(t, u, d, c, x);
    SetNodeOk(u, d, u.nodes[d].SetLoaded(true));
    SameLinksSamePaths(u, v, x);
    assert x != d ==> OnlyLast(t, u, d, x);
  }

  lemma CopiesUnseen(s: State, id: NodeId, copied: seq<NodeId>, out: State)
    requires Coherent(s) && id in s.t.nodes && CopiedAlong(s, copied, out) && forall x :: x in copied ==> x in s.t.chains[id]
    ensures Unseen(s, out)
  {
    CoherentIsReady(s, id);
    CopiedAlongIsInvisible(s, id, copied, out);
    CopiedAlongKeepsTree(s, copied, out);
    CopiedAlongIsCoherent(s, copied, out);
    forall x | x in s.t.nodes
      ensures NodeSteady(s.t, out.t, x)
    {
      OnlyLayersSteady(s.t, copied, out.t, x);
    }
  }

  lemma OnlyLayersSteady(t: Tree, copied: seq<NodeId>, u: Tree, x: NodeId)
    requires TreeOk(t) && TreeOk(u) && SameLinks(t, u) && OnlyLayersChange(t, copied, u) && x in t.nodes
    ensures NodeSteady(t, u, x)
  {
    SameLinksSamePaths(t, u, x);
  }

  /** Copy-ups, one after the other. */
  ghost predicate WentUp(s: State, copied: seq<NodeId>, out: State) {
    Unseen(s, out) && OnlyLayersChange(s.t, copied, out.t) && CopiedAlong(s, copied, out)
  }

  lemma CopiesWentUp(s: State, id: NodeId, copied: seq<NodeId>, out: State)
    requires Coherent(s) && id in s.t.nodes && CopiedAlong(s, copied, out)
    requires id in s.t.chains && forall x :: x in copied ==> x in s.t.chains[id]
    ensures WentUp(s, copied, out) && TreeOk(out.t) && Coherent(out)
  {
    CopiesUnseen(s, id, copied, out);
    CopiedAlongKeepsTree(s, copied, out);
  }

  lemma WentUpTwice(s: State, copied: seq<NodeId>, mid: State, more: seq<NodeId>, out: State)
    requires WentUp(s, copied, mid) && WentUp(mid, more, out)
    ensures WentUp(s, copied + more, out) && Unseen(s, out)
    ensures forall x :: x in mid.t.nodes && mid.t.nodes[x].layer == 0 ==> x in out.t.nodes && out.t.nodes[x].layer == 0
  {
    UnseenTransitive(s, mid, out);
    OnlyLayersTransitive(s.t, copied, mid.t, more, out.t);
    CopiedConcat(s, copied, mid, more, out);
  }

  lemma OnlyLayersTransitive(t: Tree, ids: seq<NodeId>, mid: Tree, more: seq<NodeId>, u: Tree)
    requires OnlyLayersChange(t, ids, mid) && OnlyLayersChange(mid, more, u)
    ensures OnlyLayersChange(t, ids + more, u)
  {}
}
