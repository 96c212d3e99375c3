/** The exchange branch of `rename` as a step of a session, and exactly when it keeps the session
    coherent: the code carries `last_layer_idx` along with the nodes, and looks only at the first of the
    two for directories that reach below the upper layer. */
module SessionExchange {
  import opened Wrappers
  import opened Names
  import opened NodeTree
  import opened TreeOps
  import opened TreeRuns
  import opened Layers
  import opened Merge
  import opened FreshMount
  import opened DiskChanges
  import opened Removal
  import opened CleanDisk
  import opened Filling
  import opened Session
  import opened SessionFrame
  import opened SessionDisk
  import opened Clearing
  import opened RenameUncovered
  import opened DiskRename
  import opened SessionRename
  import opened DiskExchange

  /** `rename` with RENAME_EXCHANGE, after its lookups and copy-ups: the first entry is on the upper
      layer and, if it is a directory, does not reach below; the second is on the upper layer, or the
      kernel would refuse. */
  ghost predicate Exchanges(s: State, sp: NodeId, n: Name, dp: NodeId, m: Name, out: State) {
    && TreeOk(s.t) && s.layers != [] && ExchangeAllowed(s.t, sp, n, dp, m)
    && var c, d := s.t.nodes[s.t.nodes[sp].Children()[n]], s.t.nodes[s.t.nodes[dp].Children()[m]];
       && c.layer == 0 && d.layer == 0 && (c.IsDir() ==> c.last == 0)
       && out == State(ExchangeTree(s.t, sp, n, dp, m),
                       WithUpper(s.layers, ExchangedUpper(s.layers[0], PathOf(s.t, sp) + [n], PathOf(s.t, dp) + [m])))
  }

  /** If a lower layer has one of the two names, then what comes there is a file that is known to reach
      below; and two directories, or a file for a directory, are exchanged only where lower layers have
      neither. */
  ghost predicate ExchangeFits(s: State, sp: NodeId, n: Name, dp: NodeId, m: Name)
    requires TreeOk(s.t) && s.layers != [] && ExchangeAllowed(s.t, sp, n, dp, m)
  {
    var c, d := s.t.nodes[s.t.nodes[sp].Children()[n]], s.t.nodes[s.t.nodes[dp].Children()[m]];
    && (InLower(s.layers, PathOf(s.t, sp) + [n]) ==> !d.IsDir() && d.last > 0)
    && (InLower(s.layers, PathOf(s.t, dp) + [m]) ==> !c.IsDir() && !d.IsDir() && c.last > 0)
  }

  // ---- The tree ----

  function ExchangedParent(t: Tree, x: NodeId, sp: NodeId, n: Name, dp: NodeId, m: Name, c: NodeId, d: NodeId): Node
    requires x in t.nodes
  {
    var unloaded := t.nodes[x].SetLoaded(false);
    var taken := if x == sp then unloaded.RemoveChild(n) else unloaded;
    var bare := if x == dp then taken.RemoveChild(m) else taken;
    var one := if x == dp then bare.InsertChild(m, c) else bare;
    if x == sp then one.InsertChild(n, d) else one
  }

  /** The arena after an exchange, node by node. */
  function ExchangedNode(t: Tree, x: NodeId, sp: NodeId, n: Name, dp: NodeId, m: Name, c: NodeId, d: NodeId): Node
    requires x in t.nodes
  {
    if x == c then t.nodes[c].(name := m, parent := Some(dp)).SetLoaded(false)
    else if x == d then t.nodes[d].(name := n, parent := Some(sp)).SetLoaded(false)
    else if x == sp || x == dp then ExchangedParent(t, x, sp, n, dp, m, c, d)
    else t.nodes[x]
  }

  lemma FourNodes(t: Tree, sp: NodeId, n: Name, dp: NodeId, m: Name)
    requires TreeOk(t) && ExchangeAllowed(t, sp, n, dp, m)
    ensures var c, d := t.nodes[sp].Children()[n], t.nodes[dp].Children()[m];
            && c != d && c != sp && c != dp && d != sp && d != dp && c != t.root && d != t.root
            && {c, d, sp, dp} <= t.nodes.Keys && {c, d, sp, dp} <= t.chains.Keys
            && PathOf(t, c) == PathOf(t, sp) + [n] && PathOf(t, d) == PathOf(t, dp) + [m]
  {
    var c, d := t.nodes[sp].Children()[n], t.nodes[dp].Children()[m];
    ChildNotAbove(t, sp, n);
    ChildNotAbove(t, dp, m);
    ChildPathOfEntry(t, sp, n);
    ChildPathOfEntry(t, dp, m);
    assert ChainOk(t.chains, c) && ChainOk(t.chains, d);
    BelowParent(t, c, d);
    BelowParent(t, d, c);
    assert ChainOk(t.chains, sp) && ChainOk(t.chains, dp);
  }

  lemma UnlinkNodes(t: Tree, sp: NodeId, n: Name, dp: NodeId, m: Name, x: NodeId)
    requires TreeOk(t) && ExchangeAllowed(t, sp, n, dp, m) && x in t.nodes
    ensures var u := Unlink(t, sp, n, dp, m);
            && x in u.nodes && u.nodes.Keys == t.nodes.Keys && u.chains == t.chains && u.root == t.root
            && u.nodes[x] == if x == sp || x == dp then
                               var unloaded := t.nodes[x].SetLoaded(false);
                               var taken := if x == sp then unloaded.RemoveChild(n) else unloaded;
                               if x == dp then taken.RemoveChild(m) else taken
                             else t.nodes[x]
  {}

  lemma ExchangeNodes(t: Tree, sp: NodeId, n: Name, dp: NodeId, m: Name, x: NodeId)
    requires TreeOk(t) && ExchangeAllowed(t, sp, n, dp, m)
    ensures var u := ExchangeTree(t, sp, n, dp, m);
            && TreeOk(u) && u.root == t.root && u.nodes.Keys == t.nodes.Keys
            && (x in t.nodes ==> u.nodes[x] == ExchangedNode(t, x, sp, n, dp, m, t.nodes[sp].Children()[n], t.nodes[dp].Children()[m]))
  {
    var c, d := t.nodes[sp].Children()[n], t.nodes[dp].Children()[m];
    FourNodes(t, sp, n, dp, m);
    ExchangeTreeOk(t, sp, n, dp, m);
    ExchangeKeys(t, sp, n, dp, m);
    if x in t.nodes {
      UnlinkNodes(t, sp, n, dp, m, x);
      SwapAndList(Unlink(t, sp, n, dp, m), sp, n, dp, m, c, d, x);
    }
  }

  lemma SwapAndList(v: Tree, sp: NodeId, n: Name, dp: NodeId, m: Name, c: NodeId, d: NodeId, x: NodeId)
    requires {c, d, sp, dp} <= v.nodes.Keys && {c, d, sp, dp} <= v.chains.Keys && x in v.nodes
    requires c != d && c != sp && c != dp && d != sp && d != dp
    ensures var w := SwapNodes(v, sp, n, dp, m, c, d);
            && {c, d, sp, dp} <= w.nodes.Keys && w.root == v.root
            && var u := InsertName(InsertName(Unload(Unload(w, c), d), dp, m, c), sp, n, d);
               && u.root == v.root && x in u.nodes
               && u.nodes[x] == if x == c then v.nodes[c].(name := m, parent := Some(dp)).SetLoaded(false)
                                else if x == d then v.nodes[d].(name := n, parent := Some(sp)).SetLoaded(false)
                                else
                                  var one := if x == dp then v.nodes[x].InsertChild(m, c) else v.nodes[x];
                                  if x == sp then one.InsertChild(n, d) else one
  {
    assert {c, d, sp, dp} <= Relocate(v, c, dp, m).chains.Keys;
  }

  // ---- Paths ----

  /** Every path goes where the disk's entry goes. */
  lemma ExchangedPathOf(t: Tree, sp: NodeId, n: Name, dp: NodeId, m: Name, x: NodeId)
    requires AllListed(t) && ExchangeAllowed(t, sp, n, dp, m) && x in t.nodes
    ensures TreeOk(ExchangeTree(t, sp, n, dp, m)) && Apart(PathOf(t, sp) + [n], PathOf(t, dp) + [m])
    ensures PathOf(ExchangeTree(t, sp, n, dp, m), x) == Swap(PathOf(t, sp) + [n], PathOf(t, dp) + [m], PathOf(t, x))
  {
    var c, d := t.nodes[sp].Children()[n], t.nodes[dp].Children()[m];
    FourNodes(t, sp, n, dp, m);
    ListedAttached(t, x);
    AttachedAncestors(t, x);
    ExchangeTreeOk(t, sp, n, dp, m);
    ExchangePath(t, sp, n, dp, m, x);
    PathsBelow(t, c, x);
    PathsBelow(t, d, x);
    PathsBelow(t, c, d);
    PathsBelow(t, d, c);
  }

  // ---- Listings ----

  lemma ExchangeListed(t: Tree, sp: NodeId, n: Name, dp: NodeId, m: Name, x: NodeId)
    requires AllListed(t) && ExchangeAllowed(t, sp, n, dp, m) && x in t.nodes && x != t.root
    ensures ListedByParent(ExchangeTree(t, sp, n, dp, m), x)
  {
    hide ExchangeTree;
    hide ExchangedNode;
    hide AllListed;
    hide Below;
    AllListedParts(t, x);
    var c, d, u := t.nodes[sp].Children()[n], t.nodes[dp].Children()[m], ExchangeTree(t, sp, n, dp, m);
    FourNodes(t, sp, n, dp, m);
    forall y | y in t.nodes
      ensures y in u.nodes && u.nodes[y] == ExchangedNode(t, y, sp, n, dp, m, c, d)
    {
      ExchangeNodes(t, sp, n, dp, m, y);
    }
    ListedAfter(t, u, sp, n, dp, m, c, d, x);
  }

  lemma AllListedParts(t: Tree, x: NodeId)
    requires AllListed(t) && x in t.nodes && x != t.root
    ensures TreeOk(t) && ListedByParent(t, x)
  {}

  lemma ListedAfter(t: Tree, u: Tree, sp: NodeId, n: Name, dp: NodeId, m: Name, c: NodeId, d: NodeId, x: NodeId)
    requires {c, d, sp, dp, x} <= t.nodes.Keys && t.nodes[sp].GetChild(n) == Some(c) && t.nodes[dp].GetChild(m) == Some(d)
    requires c != d && c != sp && c != dp && d != sp && d != dp && ListedByParent(t, x)
    requires forall y :: y in t.nodes ==> y in u.nodes && u.nodes[y] == ExchangedNode(t, y, sp, n, dp, m, c, d)
    ensures x in u.nodes && ListedByParent(u, x)
  {
    if x != c && x != d {
      var e, k := t.nodes[x].parent.value, t.nodes[x].name;
      ExchangeKeepsLink(t, sp, n, dp, m, c, d, x);
      ExchangeKeepsEntry(t, sp, n, dp, m, c, d, e, k, x);
    } else {
      ExchangeAddsEntries(t, sp, n, dp, m, c, d);
    }
  }

  lemma ExchangeAddsEntries(t: Tree, sp: NodeId, n: Name, dp: NodeId, m: Name, c: NodeId, d: NodeId)
    requires sp in t.nodes && dp in t.nodes && t.nodes[sp].GetChild(n) == Some(c) && t.nodes[dp].GetChild(m) == Some(d)
    requires c != d && c != sp && c != dp && d != sp && d != dp
    ensures ExchangedNode(t, dp, sp, n, dp, m, c, d).GetChild(m) == Some(c)
    ensures ExchangedNode(t, sp, sp, n, dp, m, c, d).GetChild(n) == Some(d)
  {}

  lemma ExchangeKeepsLink(t: Tree, sp: NodeId, n: Name, dp: NodeId, m: Name, c: NodeId, d: NodeId, x: NodeId)
    requires x in t.nodes && x != c && x != d
    ensures var node := ExchangedNode(t, x, sp, n, dp, m, c, d);
            && node.parent == t.nodes[x].parent && node.name == t.nodes[x].name && node.layer == t.nodes[x].layer
            && node.last == t.nodes[x].last && node.hidden == t.nodes[x].hidden && (node.IsDir() <==> t.nodes[x].IsDir())
  {}

  lemma ExchangeKeepsEntry(t: Tree, sp: NodeId, n: Name, dp: NodeId, m: Name, c: NodeId, d: NodeId, e: NodeId, k: Name, x: NodeId)
    requires e in t.nodes && t.nodes[e].GetChild(k) == Some(x) && x != c && x != d && sp in t.nodes && dp in t.nodes
    requires t.nodes[sp].GetChild(n) == Some(c) && t.nodes[dp].GetChild(m) == Some(d)
    ensures ExchangedNode(t, e, sp, n, dp, m, c, d).GetChild(k) == Some(x)
  {}

  // ---- The maps ----

  /** What an exchange leaves of a directory's maps. */
  lemma ExchangedMaps(t: Tree, sp: NodeId, n: Name, dp: NodeId, m: Name, c: NodeId, d: NodeId, x: NodeId)
    requires x in t.nodes && c != sp && c != dp && d != sp && d != dp
    ensures var a, b := t.nodes[x], ExchangedNode(t, x, sp, n, dp, m, c, d);
            && (b.IsDir() <==> a.IsDir()) && b.layer == a.layer && b.last == a.last && b.hidden == a.hidden
            && (b.IsDir() ==> b.dir.whiteouts <= a.dir.whiteouts)
            && (b.IsDir() && x == sp ==> n !in b.dir.whiteouts && !b.IsLoaded())
            && (b.IsDir() && x == dp ==> m !in b.dir.whiteouts && !b.IsLoaded())
            && (b.IsLoaded() ==> b == a)
  {}

  // ---- Coherence ----

  lemma ExchangeIsSwappable(s: State, sp: NodeId, n: Name, dp: NodeId, m: Name, out: State)
    requires Coherent(s) && Exchanges(s, sp, n, dp, m, out) && ExchangeFits(s, sp, n, dp, m)
    ensures Swappable(s.layers, PathOf(s.t, sp) + [n], PathOf(s.t, dp) + [m])
  {
    ExchangedOnDisk(s, sp, n, dp, m, out);
    var c := s.t.nodes[sp].Children()[n];
    ChildShown(s, sp, n);
    if InLower(s.layers, PathOf(s.t, sp) + [n]) {
      assert s.t.nodes[c].last > 0;
    }
  }

  /** The two entries on the disk. */
  lemma ExchangedOnDisk(s: State, sp: NodeId, n: Name, dp: NodeId, m: Name, out: State)
    requires Coherent(s) && Exchanges(s, sp, n, dp, m, out)
    ensures var a, b, up := PathOf(s.t, sp) + [n], PathOf(s.t, dp) + [m], s.layers[0];
            var c, d := s.t.nodes[s.t.nodes[sp].Children()[n]], s.t.nodes[s.t.nodes[dp].Children()[m]];
            && Apart(a, b) && Last(a) == n && Last(b) == m && Parent(a) == PathOf(s.t, sp) && Parent(b) == PathOf(s.t, dp)
            && Ordinary(n) && Ordinary(m) && a in up && up[a] != Whiteout && b in up && up[b] != Whiteout
            && (up[a].Dir? <==> c.IsDir()) && (up[b].Dir? <==> d.IsDir())
  {
    hide ExchangeTree;
    hide ExchangedUpper;
    CoherentListed(s);
    ExchangedPathOf(s.t, sp, n, dp, m, sp);
    FourNodes(s.t, sp, n, dp, m);
    ChildShown(s, sp, n);
    ChildShown(s, dp, m);
    UpperKind(s, s.t.nodes[sp].Children()[n]);
    UpperKind(s, s.t.nodes[dp].Children()[m]);
    InMergeIsOrdinary(s.layers, PathOf(s.t, sp), n);
    InMergeIsOrdinary(s.layers, PathOf(s.t, dp), m);
  }

  /** One of the two nodes at the place of the other. */
  lemma ExchangedNodeOn(layers: seq<Layer>, a: Path, b: Path, node: Node)
    requires Swappable(layers, a, b) && node.layer == 0 && !node.hidden && node.last < |layers|
    requires node.IsDir() <==> layers[0][b].Dir?
    requires (InLower(layers, a) ==> node.last > 0) && (node.IsDir() ==> node.last == 0)
    ensures NodeOn(WithUpper(layers, ExchangedUpper(layers[0], a, b)), a, node)
  {
    SwappedShown(layers, a, b);
    LowerKept(layers, ExchangedUpper(layers[0], a, b), a);
  }

  lemma PairPlaced(s: State, sp: NodeId, n: Name, dp: NodeId, m: Name, out: State)
    requires Coherent(s) && Exchanges(s, sp, n, dp, m, out) && ExchangeFits(s, sp, n, dp, m)
    ensures var a, b := PathOf(s.t, sp) + [n], PathOf(s.t, dp) + [m];
            && NodeOn(out.layers, b, s.t.nodes[s.t.nodes[sp].Children()[n]])
            && NodeOn(out.layers, a, s.t.nodes[s.t.nodes[dp].Children()[m]])
  {
    hide ExchangeTree;
    hide ExchangedUpper;
    var a, b := PathOf(s.t, sp) + [n], PathOf(s.t, dp) + [m];
    var c, d := s.t.nodes[sp].Children()[n], s.t.nodes[dp].Children()[m];
    ExchangeIsSwappable(s, sp, n, dp, m, out);
    ExchangedOnDisk(s, sp, n, dp, m, out);
    SwappableBoth(s.layers, a, b);
    ExchangedCommutes(s.layers[0], a, b);
    ChildShown(s, sp, n);
    ChildShown(s, dp, m);
    ExchangedNodeOn(s.layers, a, b, s.t.nodes[d]);
    ExchangedNodeOn(s.layers, b, a, s.t.nodes[c]);
  }

  lemma ExchangedFine(s: State, sp: NodeId, n: Name, dp: NodeId, m: Name, out: State, x: NodeId)
    requires Coherent(s) && Exchanges(s, sp, n, dp, m, out) && ExchangeFits(s, sp, n, dp, m)
    requires x in out.t.nodes && TreeOk(out.t)
    ensures NodeFine(out, x)
  {
    hide ExchangeTree;
    hide ExchangedUpper;
    hide ExchangeAllowed;
    var a, b := PathOf(s.t, sp) + [n], PathOf(s.t, dp) + [m];
    CoherentListed(s);
    ExchangeNodes(s.t, sp, n, dp, m, x);
    ExchangedPathOf(s.t, sp, n, dp, m, x);
    if x != s.t.root {
      ExchangeListed(s.t, sp, n, dp, m, x);
      ExchangedNodeFine(s, sp, n, dp, m, out, x);
    } else {
      ExchangedRoot(s, sp, n, dp, m, out);
    }
    ExchangedDirFine(s, sp, n, dp, m, out, x);
  }

  lemma ExchangedRoot(s: State, sp: NodeId, n: Name, dp: NodeId, m: Name, out: State)
    requires Coherent(s) && Exchanges(s, sp, n, dp, m, out) && TreeOk(out.t)
    ensures out.t.root == s.t.root && s.t.root in out.t.nodes
    ensures var node := out.t.nodes[s.t.root]; node.layer == 0 && node.last == 0 && !node.hidden
  {
    hide ExchangeTree;
    hide ExchangedUpper;
    FourNodes(s.t, sp, n, dp, m);
    ExchangeNodes(s.t, sp, n, dp, m, s.t.root);
    assert NodeFine(s, s.t.root);
    ExchangedMaps(s.t, sp, n, dp, m, s.t.nodes[sp].Children()[n], s.t.nodes[dp].Children()[m], s.t.root);
  }

  lemma ExchangedNodeFine(s: State, sp: NodeId, n: Name, dp: NodeId, m: Name, out: State, x: NodeId)
    requires Coherent(s) && Exchanges(s, sp, n, dp, m, out) && ExchangeFits(s, sp, n, dp, m)
    requires x in s.t.nodes && x in out.t.nodes && x != s.t.root
    ensures NodeOn(out.layers, Swap(PathOf(s.t, sp) + [n], PathOf(s.t, dp) + [m], PathOf(s.t, x)), out.t.nodes[x])
  {
    hide ExchangeTree;
    hide ExchangedUpper;
    hide Swap;
    hide NodeOn;
    var a, b := PathOf(s.t, sp) + [n], PathOf(s.t, dp) + [m];
    var c, d := s.t.nodes[sp].Children()[n], s.t.nodes[dp].Children()[m];
    FourNodes(s.t, sp, n, dp, m);
    ExchangeNodes(s.t, sp, n, dp, m, x);
    ExchangedMaps(s.t, sp, n, dp, m, c, d, x);
    ExchangedOnDisk(s, sp, n, dp, m, out);
    SwapIsInvolution(a, b, PathOf(s.t, x));
    if x == c || x == d {
      PairPlaced(s, sp, n, dp, m, out);
      NodeOnReads(out.layers, if x == c then b else a, s.t.nodes[x], out.t.nodes[x]);
    } else {
      ExchangeIsSwappable(s, sp, n, dp, m, out);
      OtherPath(s, c, d, x);
      assert NodeFine(s, x);
      SwappedNode(s.layers, a, b, PathOf(s.t, x), s.t.nodes[x]);
      NodeOnReads(out.layers, Swap(a, b, PathOf(s.t, x)), s.t.nodes[x], out.t.nodes[x]);
    }
  }

  lemma OtherPath(s: State, c: NodeId, d: NodeId, x: NodeId)
    requires Coherent(s) && {c, d, x} <= s.t.nodes.Keys && x != c && x != d
    ensures PathOf(s.t, x) != PathOf(s.t, c) && PathOf(s.t, x) != PathOf(s.t, d)
  {
    if PathOf(s.t, x) == PathOf(s.t, c) {
      SamePathSameNode(s, x, c);
    }
    if PathOf(s.t, x) == PathOf(s.t, d) {
      SamePathSameNode(s, x, d);
    }
  }

  lemma ExchangedDirFine(s: State, sp: NodeId, n: Name, dp: NodeId, m: Name, out: State, x: NodeId)
    requires Coherent(s) && Exchanges(s, sp, n, dp, m, out) && ExchangeFits(s, sp, n, dp, m)
    requires x in s.t.nodes && x in out.t.nodes
    ensures DirOn(out.layers, Swap(PathOf(s.t, sp) + [n], PathOf(s.t, dp) + [m], PathOf(s.t, x)), out.t.nodes[x])
  {
    hide ExchangeTree;
    hide ExchangedUpper;
    hide Swap;
    hide DirOn;
    var a, b := PathOf(s.t, sp) + [n], PathOf(s.t, dp) + [m];
    FourNodes(s.t, sp, n, dp, m);
    ExchangeNodes(s.t, sp, n, dp, m, x);
    ExchangedMaps(s.t, sp, n, dp, m, s.t.nodes[sp].Children()[n], s.t.nodes[dp].Children()[m], x);
    ExchangedOnDisk(s, sp, n, dp, m, out);
    ExchangeIsSwappable(s, sp, n, dp, m, out);
    assert NodeFine(s, x);
    if PathOf(s.t, x) == PathOf(s.t, sp) {
      SamePathSameNode(s, x, sp);
    }
    if PathOf(s.t, x) == PathOf(s.t, dp) {
      SamePathSameNode(s, x, dp);
    }
    SwappedDir(s.layers, a, b, PathOf(s.t, x), s.t.nodes[x], out.t.nodes[x]);
  }

  lemma ExchangeKeepsCoherence(s: State, sp: NodeId, n: Name, dp: NodeId, m: Name, out: State)
    requires Coherent(s) && Exchanges(s, sp, n, dp, m, out) && ExchangeFits(s, sp, n, dp, m)
    ensures Coherent(out)
  {
    hide ExchangeTree;
    hide ExchangedUpper;
    ExchangeIsSwappable(s, sp, n, dp, m, out);
    ExchangedClean(s.layers, PathOf(s.t, sp) + [n], PathOf(s.t, dp) + [m]);
    ExchangeNodes(s.t, sp, n, dp, m, sp);
    forall x | x in out.t.nodes
      ensures NodeFine(out, x)
    {
      ExchangedFine(s, sp, n, dp, m, out, x);
    }
  }

  // ---- And only then ----

  /** What stands at the two names afterwards, in the cache and on the disk. */
  lemma AfterExchange(s: State, sp: NodeId, n: Name, dp: NodeId, m: Name, out: State)
    requires Coherent(s) && Exchanges(s, sp, n, dp, m, out)
    ensures TreeOk(out.t) && out.layers != []
    ensures var a, b, c, d := PathOf(s.t, sp) + [n], PathOf(s.t, dp) + [m], s.t.nodes[sp].Children()[n], s.t.nodes[dp].Children()[m];
            && c in out.t.nodes && d in out.t.nodes && c != out.t.root && d != out.t.root
            && PathOf(out.t, c) == b && PathOf(out.t, d) == a
            && out.t.nodes[c].last == s.t.nodes[c].last && out.t.nodes[d].last == s.t.nodes[d].last
            && a in out.layers[0] && out.layers[0][a] == s.layers[0][b] && b in out.layers[0] && out.layers[0][b] == s.layers[0][a]
  {
    hide ExchangeTree;
    hide ExchangedUpper;
    var a, b := PathOf(s.t, sp) + [n], PathOf(s.t, dp) + [m];
    var c, d := s.t.nodes[sp].Children()[n], s.t.nodes[dp].Children()[m];
    CoherentListed(s);
    FourNodes(s.t, sp, n, dp, m);
    ExchangeNodes(s.t, sp, n, dp, m, c);
    ExchangeNodes(s.t, sp, n, dp, m, d);
    ExchangedPathOf(s.t, sp, n, dp, m, c);
    ExchangedPathOf(s.t, sp, n, dp, m, d);
    ExchangedOnDisk(s, sp, n, dp, m, out);
    SwapIsInvolution(a, b, a);
    SwapIsInvolution(a, b, b);
    ExchangedAt(s.layers[0], a, b, a);
    ExchangedAt(s.layers[0], a, b, b);
  }

  lemma CoherentFits(s: State, sp: NodeId, n: Name, dp: NodeId, m: Name, out: State)
    requires Coherent(s) && Exchanges(s, sp, n, dp, m, out) && Coherent(out)
    ensures ExchangeFits(s, sp, n, dp, m)
  {
    hide ExchangeTree;
    hide ExchangedUpper;
    var a, b := PathOf(s.t, sp) + [n], PathOf(s.t, dp) + [m];
    var c, d := s.t.nodes[sp].Children()[n], s.t.nodes[dp].Children()[m];
    AfterExchange(s, sp, n, dp, m, out);
    ExchangedOnDisk(s, sp, n, dp, m, out);
    LowerKept(s.layers, out.layers[0], a);
    LowerKept(s.layers, out.layers[0], b);
    assert NodeFine(out, c) && NodeFine(out, d) && NodeFine(s, c) && NodeFine(s, d);
    ChildShown(s, sp, n);
    if InLower(s.layers, a) {
      SameKindBelow(s.layers, out.layers, a);
    }
    if InLower(s.layers, b) {
      SameKindBelow(s.layers, out.layers, b);
    }
  }

  /** Two clean disks with the same lower layers, one of which has the path, agree on its kind. */
  lemma SameKindBelow(layers: seq<Layer>, out: seq<Layer>, q: Path)
    requires Clean(layers) && Clean(out) && out == WithUpper(layers, out[0]) && InLower(layers, q)
    requires q in layers[0] && q in out[0] && layers[0][q] != Whiteout && out[0][q] != Whiteout
    ensures layers[0][q].Dir? <==> out[0][q].Dir?
  {
    var i :| 1 <= i < |layers| && q in layers[i];
    assert out[i] == layers[i];
    assert NoClash(layers, 0, i, q) && NoClash(out, 0, i, q) && CleanEntry(layers[i], q);
  }

  /** The exact condition: an exchange keeps the session coherent if what comes to a name that a lower
      layer has is a file that is known to reach below, in place of a file; and only then. */
  lemma ExchangeIsCoherentIff(s: State, sp: NodeId, n: Name, dp: NodeId, m: Name, out: State)
    requires Coherent(s) && Exchanges(s, sp, n, dp, m, out)
    ensures Coherent(out) <==> ExchangeFits(s, sp, n, dp, m)
  {
    if ExchangeFits(s, sp, n, dp, m) {
      ExchangeKeepsCoherence(s, sp, n, dp, m, out);
    }
    if Coherent(out) {
      CoherentFits(s, sp, n, dp, m, out);
    }
  }

  // ---- What is seen ----

  /** What is shown at a path is what was shown where it comes from: the same kind, on the same layer,
      with the same entry. */
  ghost predicate SeenSwapped(layers: seq<Layer>, a: Path, b: Path, out: seq<Layer>, r: Path) {
    var q := Swap(a, b, r);
    match (Fresh(layers, q), Fresh(out, r))
    case (None, None) => true
    case (Some(s), Some(t)) =>
      && s.layer == t.layer && s.isDir == t.isDir && (r != a && r != b ==> s.last == t.last)
      && (r != [] ==> s.layer < |layers| && |out| == |layers| && q in layers[s.layer] && r in out[t.layer]
                      && layers[s.layer][q] == out[t.layer][r])
    case _ => false
  }

  lemma {:induction false} SwappedFresh(layers: seq<Layer>, a: Path, b: Path, r: Path)
    requires Swappable(layers, a, b)
    requires Fresh(layers, a).Some? && Fresh(layers, b).Some?
    ensures SeenSwapped(layers, a, b, WithUpper(layers, ExchangedUpper(layers[0], a, b)), r)
    decreases |r|
  {
    hide ExchangedUpper;
    hide Swap;
    var out := WithUpper(layers, ExchangedUpper(layers[0], a, b));
    SwapIsInvolution(a, b, r);
    ExchangedClean(layers, a, b);
    if r == [] {
      RootStays(a, b);
    } else {
      SwappedFresh(layers, a, b, Parent(r));
      CleanFresh(out, r);
      CleanFresh(layers, Swap(a, b, r));
      if r == a {
        PairSeen(layers, a, b);
      } else if r == b {
        SwappableBoth(layers, a, b);
        SwapCommutes(a, b, Parent(b));
        ExchangedCommutes(layers[0], a, b);
        PairSeen(layers, b, a);
      } else {
        OtherSeen(layers, a, b, r);
      }
    }
  }

  lemma RootStays(a: Path, b: Path)
    requires Apart(a, b)
    ensures Swap(a, b, []) == []
  {}

  lemma PairSeen(layers: seq<Layer>, a: Path, b: Path)
    requires Swappable(layers, a, b) && Fresh(layers, a).Some? && Fresh(layers, b).Some?
    requires Clean(WithUpper(layers, ExchangedUpper(layers[0], a, b)))
    requires SeenSwapped(layers, a, b, WithUpper(layers, ExchangedUpper(layers[0], a, b)), Parent(a))
    ensures var out := WithUpper(layers, ExchangedUpper(layers[0], a, b));
            && Fresh(out, a).Some? && Fresh(out, a).value.layer == 0 && Fresh(layers, b).value.layer == 0
            && Fresh(out, a).value.isDir == Fresh(layers, b).value.isDir
            && a in out[0] && out[0][a] == layers[0][b]
  {
    hide ExchangedUpper;
    hide Swap;
    var out := WithUpper(layers, ExchangedUpper(layers[0], a, b));
    SwapFixes(layers, a, b);
    SwappedShown(layers, a, b);
    CleanFresh(layers, a);
    CleanFresh(layers, b);
    CleanFresh(out, a);
    assert Parent(a) + [Last(a)] == a;
  }

  lemma OtherSeen(layers: seq<Layer>, a: Path, b: Path, r: Path)
    requires Swappable(layers, a, b) && r != [] && r != a && r != b
    requires Clean(WithUpper(layers, ExchangedUpper(layers[0], a, b)))
    requires SeenSwapped(layers, a, b, WithUpper(layers, ExchangedUpper(layers[0], a, b)), Parent(r))
    ensures SeenSwapped(layers, a, b, WithUpper(layers, ExchangedUpper(layers[0], a, b)), r)
  {
    hide ExchangedUpper;
    hide Swap;
    var out, q := WithUpper(layers, ExchangedUpper(layers[0], a, b)), Swap(a, b, r);
    SwapIsInvolution(a, b, r);
    SwapParent(a, b, r);
    CleanFresh(layers, q);
    CleanFresh(out, r);
    assert q == Parent(q) + [Last(q)];
    SwapIsInvolution(a, b, Parent(r));
    if !IsWh(Last(q)) {
      SwappedName(layers, a, b, Parent(q), Last(q));
    }
    SameEverywhere(layers, a, b, q);
    if Fresh(layers, q).Some? && Fresh(out, r).Some? {
      SameTopAndLast(layers, q, Fresh(layers, q).value, out, r, Fresh(out, r).value);
    }
  }

  lemma SameTopAndLast(layers: seq<Layer>, q: Path, s: Seen, out: seq<Layer>, r: Path, t: Seen)
    requires |layers| == |out| && IsTopmost(layers, q, s) && IsTopmost(out, r, t)
    requires forall j :: 0 <= j < |layers| ==> (q in layers[j] <==> r in out[j]) && (q in layers[j] ==> layers[j][q] == out[j][r])
    requires forall j :: s.last < j < |layers| ==> q !in layers[j]
    requires forall j :: t.last < j < |out| ==> r !in out[j]
    ensures s == t
  {
    assert q in layers[t.layer] && r in out[s.layer] && q in layers[t.last] && r in out[s.last];
  }

  /** An exchange that fits shows each of the two subtrees at the place of the other, and all else as it
      was. */
  lemma ExchangeShowsSwapped(s: State, sp: NodeId, n: Name, dp: NodeId, m: Name, out: State, r: Path)
    requires Coherent(s) && Exchanges(s, sp, n, dp, m, out) && ExchangeFits(s, sp, n, dp, m)
    ensures SeenSwapped(s.layers, PathOf(s.t, sp) + [n], PathOf(s.t, dp) + [m], out.layers, r)
  {
    hide ExchangeTree;
    hide ExchangedUpper;
    ExchangeIsSwappable(s, sp, n, dp, m, out);
    FourNodes(s.t, sp, n, dp, m);
    CoherentFresh(s, s.t.nodes[sp].Children()[n]);
    CoherentFresh(s, s.t.nodes[dp].Children()[m]);
    SwappedFresh(s.layers, PathOf(s.t, sp) + [n], PathOf(s.t, dp) + [m], r);
  }
}
