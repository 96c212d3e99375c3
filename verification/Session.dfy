/** A mounted session: the cached node tree over the disk. The invariant of this module says that
    what the cache holds is what the disk shows, for disks that stay clean (see CleanDisk). */
module Session {
  import opened Wrappers
  import opened Names
  import opened NodeTree
  import opened TreeOps
  import opened TreeRuns
  import opened Layers
  import opened Merge
  import opened LazyLookup
  import opened FreshMount
  import opened CleanDisk
  import opened Filling

  datatype State = State(t: Tree, layers: seq<Layer>)

  // ---- The invariant ----

  /** The layer of a node is the topmost one with its path, which has it as the kind that the
      node has. Nothing is said about `last`, which a renamed file keeps. */
  ghost predicate TopNode(layers: seq<Layer>, q: Path, s: Seen) {
    && s.layer <= s.last < |layers| && q in layers[s.layer] && layers[s.layer][q] != Whiteout
    && s.isDir == layers[s.layer][q].Dir?
    && forall j :: 0 <= j < s.layer ==> q !in layers[j]
  }

  /** A cached node agrees with the disk at its path. */
  ghost predicate NodeOn(layers: seq<Layer>, q: Path, node: Node)
    requires layers != []
  {
    && q != [] && InMerge(layers, Parent(q), Last(q)) && !node.hidden
    && TopNode(layers, q, SeenOf(node))
    && (InLower(layers, q) ==> node.last > 0)
    && (node.IsDir() ==> Covers(layers, q, node.last) && (node.last > 0 ==> InLower(layers, q)))
  }

  /** The cached maps of a directory, other than that its children are what they should be. */
  ghost predicate DirOn(layers: seq<Layer>, p: Path, node: Node)
    requires layers != []
  {
    node.IsDir() ==>
      && (forall n :: n in node.dir.whiteouts ==> !InMerge(layers, p, n) && !IsWh(n))
      && (node.dir.loaded ==> forall n :: InMerge(layers, p, n) ==> n in node.dir.children)
      && (node.dir.loaded && p in layers[0] ==>
            forall n :: Ordinary(n) && UpperHides(layers, p, n) ==> n in node.dir.whiteouts)
  }

  /** The node is in the children map of its parent, which is in the arena. */
  ghost predicate ListedByParent(t: Tree, id: NodeId)
    requires id in t.nodes
  {
    && t.nodes[id].parent.Some? && t.nodes[id].parent.value in t.nodes
    && t.nodes[t.nodes[id].parent.value].GetChild(t.nodes[id].name) == Some(id)
  }

  /** The node stands where it should: the root at its fixed place, others in their parent's map
      and in agreement with the disk. */
  ghost predicate Placed(s: State, id: NodeId)
    requires TreeOk(s.t) && s.layers != [] && id in s.t.nodes
  {
    var node := s.t.nodes[id];
    if id == s.t.root then node.layer == 0 && node.last == 0 && !node.hidden
    else ListedByParent(s.t, id) && NodeOn(s.layers, PathOf(s.t, id), node)
  }

  ghost predicate NodeFine(s: State, id: NodeId)
    requires TreeOk(s.t) && s.layers != [] && id in s.t.nodes
  {
    DirOn(s.layers, PathOf(s.t, id), s.t.nodes[id]) && Placed(s, id)
  }

  ghost predicate Coherent(s: State) {
    && TreeOk(s.t) && Clean(s.layers)
    && forall id :: id in s.t.nodes ==> NodeFine(s, id)
  }

  // ---- What it gives ----

  lemma PathSplits(t: Tree, id: NodeId)
    requires TreeOk(t) && id in t.nodes && id != t.root
    ensures LinkOk(t, id)
    ensures PathOf(t, id) == PathOf(t, t.nodes[id].parent.value) + [t.nodes[id].name]
    ensures PathOf(t, id) != [] && Parent(PathOf(t, id)) == PathOf(t, t.nodes[id].parent.value)
    ensures Last(PathOf(t, id)) == t.nodes[id].name
  {
    assert LinkOk(t, id);
  }

  /** A directory of a coherent session can be scanned in full. */
  lemma DirScannable(s: State, d: NodeId)
    requires Coherent(s) && d in s.t.nodes && s.t.nodes[d].IsDir()
    ensures Scannable(s.layers, PathOf(s.t, d), s.t.nodes[d].last)
  {
    var p, node := PathOf(s.t, d), s.t.nodes[d];
    assert NodeFine(s, d);
    if d == s.t.root {
      RootEverywhere(s.layers);
    } else {
      TopDirEverywhere(s.layers, p, SeenOf(node));
    }
  }

  lemma RootEverywhere(layers: seq<Layer>)
    requires LayersOk(layers)
    ensures DirEverywhere(layers, [])
  {
    assert forall i :: 0 <= i < |layers| ==> LayerOk(layers[i]);
  }

  lemma TopDirEverywhere(layers: seq<Layer>, p: Path, s: Seen)
    requires Clean(layers) && TopNode(layers, p, s) && s.isDir
    ensures DirEverywhere(layers, p)
  {
    forall i | 0 <= i < |layers| && p in layers[i]
      ensures layers[i][p].Dir?
    {
      assert NoClash(layers, s.layer, i, p);
      assert i > 0 ==> CleanEntry(layers[i], p);
    }
  }

  lemma ChildShown(s: State, d: NodeId, n: Name)
    requires Coherent(s) && d in s.t.nodes && n in s.t.nodes[d].Children()
    ensures EntryOk(s.t, d, n)
    ensures var c := s.t.nodes[d].Children()[n];
            && c != s.t.root && PathOf(s.t, c) == PathOf(s.t, d) + [n]
            && NodeFine(s, c) && NodeOn(s.layers, PathOf(s.t, c), s.t.nodes[c])
            && InMerge(s.layers, PathOf(s.t, d), n)
  {
    assert EntryOk(s.t, d, n);
    var c := s.t.nodes[d].Children()[n];
    assert LinkOk(s.t, c);
    assert NodeFine(s, c);
    PathSplits(s.t, c);
  }

  /** Cached children are shown by a scan of the disk, cached whiteouts are not, and a loaded
      directory has cached all that is shown. */
  lemma CoherentDir(s: State, d: NodeId)
    requires Coherent(s) && d in s.t.nodes && s.t.nodes[d].IsDir()
    ensures var node, scan := s.t.nodes[d], ScanOf(s.layers, PathOf(s.t, d), s.t.nodes[d].last);
            && node.dir.children.Keys <= scan.children.Keys
            && node.dir.whiteouts !! scan.children.Keys
            && (node.dir.loaded ==> node.dir.children.Keys == scan.children.Keys)
  {
    var p, node := PathOf(s.t, d), s.t.nodes[d];
    var scan := ScanOf(s.layers, p, node.last);
    DirScannable(s, d);
    assert NodeFine(s, d);
    forall n
      ensures n in scan.children <==> InMerge(s.layers, p, n)
      ensures n in node.dir.children ==> InMerge(s.layers, p, n)
    {
      CleanScan(s.layers, p, node.last, n);
      if n in node.dir.children {
        ChildShown(s, d, n);
      }
    }
  }

  /** The cached layer and kind of a child are those of a scan. */
  lemma CoherentChild(s: State, d: NodeId, n: Name)
    requires Coherent(s) && d in s.t.nodes && n in s.t.nodes[d].Children()
    ensures EntryOk(s.t, d, n)
    ensures var scan := ScanOf(s.layers, PathOf(s.t, d), s.t.nodes[d].last);
            var c := s.t.nodes[s.t.nodes[d].Children()[n]];
            n in scan.children && scan.children[n].layer == c.layer && scan.children[n].isDir == c.IsDir()
  {
    ChildShown(s, d, n);
    DirScannable(s, d);
    CleanScan(s.layers, PathOf(s.t, d), s.t.nodes[d].last, n);
  }

  /** Going down the tree, layer numbers never decrease. */
  lemma LayersDescend(s: State, id: NodeId)
    requires Coherent(s) && id in s.t.nodes && id != s.t.root
    ensures LinkOk(s.t, id) && s.t.nodes[id].parent.value in s.t.nodes
    ensures s.t.nodes[s.t.nodes[id].parent.value].layer <= s.t.nodes[id].layer
  {
    PathSplits(s.t, id);
    assert NodeFine(s, id);
    var p, node := s.t.nodes[id].parent.value, s.t.nodes[id];
    assert NodeFine(s, p);
    var q := PathOf(s.t, id);
    assert LayerOk(s.layers[node.layer]) && EntryPlaced(s.layers[node.layer], q);
  }

  // ---- Nodes and their paths ----

  /** No node but the root is out of its parent's map. */
  ghost predicate AllListed(t: Tree) {
    TreeOk(t) && forall id {:trigger ListedByParent(t, id)} :: id in t.nodes && id != t.root ==> ListedByParent(t, id)
  }

  lemma CoherentListed(s: State)
    requires Coherent(s)
    ensures AllListed(s.t)
  {
    forall id | id in s.t.nodes && id != s.t.root
      ensures ListedByParent(s.t, id)
    {
      assert NodeFine(s, id);
    }
  }

  lemma PathOfListed(t: Tree, id: NodeId)
    requires TreeOk(t) && id in t.nodes && id != t.root
    ensures LinkOk(t, id)
    ensures PathOf(t, id) == PathOf(t, t.nodes[id].parent.value) + [t.nodes[id].name]
  {
    assert LinkOk(t, id);
  }

  lemma {:induction false} ListedAttached(t: Tree, id: NodeId)
    requires AllListed(t) && id in t.nodes
    ensures Attached(t, id)
    decreases if id in t.chains then |t.chains[id]| else 0
  {
    if id != t.root {
      assert LinkOk(t, id) && ListedByParent(t, id);
      ListedAttached(t, t.nodes[id].parent.value);
    }
  }

  lemma ListedDistinct(t: Tree, x: NodeId, y: NodeId)
    requires AllListed(t) && x in t.nodes && y in t.nodes && PathOf(t, x) == PathOf(t, y)
    ensures x == y
  {
    ListedAttached(t, x);
    ListedAttached(t, y);
    DistinctPaths(t, x, y);
  }

  /** No node stands at or below a name that the directory has not cached. */
  lemma {:induction false} NoneBelowName(t: Tree, d: NodeId, n: Name, x: NodeId)
    requires AllListed(t) && d in t.nodes && n !in t.nodes[d].Children() && x in t.nodes
    ensures !(PathOf(t, d) + [n] <= PathOf(t, x))
    decreases if x in t.chains then |t.chains[x]| else 0
  {
    if x != t.root {
      PathOfListed(t, x);
      assert ListedByParent(t, x);
      var e, q := t.nodes[x].parent.value, PathOf(t, d) + [n];
      NoneBelowName(t, d, n, e);
      if q <= PathOf(t, x) {
        PrefixOfSnoc(q, PathOf(t, e), t.nodes[x].name);
        assert Parent(q) == PathOf(t, d) && Last(q) == n;
        ListedDistinct(t, e, d);
        assert false;
      }
    }
  }

  /** No node stands below one that has no children. */
  lemma {:induction false} NoneBelowLeaf(t: Tree, c: NodeId, x: NodeId)
    requires AllListed(t) && c in t.nodes && t.nodes[c].Children() == map[] && x in t.nodes
    ensures PathOf(t, c) <= PathOf(t, x) ==> x == c
    ensures Below(t, x, c) ==> x == c
    decreases if x in t.chains then |t.chains[x]| else 0
  {
    if x != c && x != t.root {
      PathOfListed(t, x);
      assert ListedByParent(t, x);
      var e := t.nodes[x].parent.value;
      NoneBelowLeaf(t, c, e);
      assert e != c;
      PrefixOfSnoc(PathOf(t, c), PathOf(t, e), t.nodes[x].name);
      if PathOf(t, c) == PathOf(t, x) {
        ListedDistinct(t, c, x);
      }
      BelowParent(t, x, c);
    } else if x != c {
      if PathOf(t, c) == [] {
        ListedDistinct(t, c, x);
      }
    }
  }

  lemma AllAttached(s: State, id: NodeId)
    requires Coherent(s) && id in s.t.nodes
    ensures Attached(s.t, id)
  {
    CoherentListed(s);
    ListedAttached(s.t, id);
  }

  lemma SamePathSameNode(s: State, x: NodeId, y: NodeId)
    requires Coherent(s) && x in s.t.nodes && y in s.t.nodes && PathOf(s.t, x) == PathOf(s.t, y)
    ensures x == y
  {
    CoherentListed(s);
    ListedDistinct(s.t, x, y);
  }

  lemma NoNodeBelowName(s: State, d: NodeId, n: Name, x: NodeId)
    requires Coherent(s) && d in s.t.nodes && n !in s.t.nodes[d].Children() && x in s.t.nodes
    ensures !(PathOf(s.t, d) + [n] <= PathOf(s.t, x))
  {
    CoherentListed(s);
    NoneBelowName(s.t, d, n, x);
  }

  lemma NoNodeBelowLeaf(s: State, c: NodeId, x: NodeId)
    requires Coherent(s) && c in s.t.nodes && s.t.nodes[c].Children() == map[] && x in s.t.nodes
    ensures PathOf(s.t, c) <= PathOf(s.t, x) ==> x == c
    ensures Below(s.t, x, c) ==> x == c
  {
    CoherentListed(s);
    NoneBelowLeaf(s.t, c, x);
  }

  lemma PrefixOfSnoc(q: Path, p: Path, n: Name)
    ensures q <= p + [n] <==> q <= p || q == p + [n]
  {
    if q <= p + [n] && |q| <= |p| {
      assert q == (p + [n])[..|q|] == p[..|q|];
    }
    if q <= p {
      assert q == p[..|q|] == (p + [n])[..|q|];
    }
  }

  // ---- Coherence from its parts ----

  /** A node's own fields may change other than its children, without harm to the others. */
  lemma FlagKeepsNode(layers: seq<Layer>, u: Tree, d: NodeId, v: Tree, x: NodeId)
    requires TreeOk(u) && TreeOk(v) && SameLinks(u, v) && layers != []
    requires d in u.nodes && x in u.nodes && x != d && PathOf(v, x) == PathOf(u, x)
    requires v == SetNode(u, d, v.nodes[d]) && v.nodes[d].Children() == u.nodes[d].Children()
    requires NodeFine(State(u, layers), x)
    ensures NodeFine(State(v, layers), x)
  {}

  /** One node is replaced by one that agrees with the disk, where all the others do. */
  lemma SetNodeCoherent(t: Tree, layers: seq<Layer>, id: NodeId, node: Node)
    requires TreeOk(t) && Clean(layers) && id in t.nodes
    requires forall x :: x in t.nodes && x != id ==> NodeFine(State(t, layers), x)
    requires node.parent == t.nodes[id].parent && node.name == t.nodes[id].name
    requires node.Children() == t.nodes[id].Children() && (node.IsDir() <==> t.nodes[id].IsDir())
    requires DirOn(layers, PathOf(t, id), node)
    requires if id == t.root then node.layer == 0 && node.last == 0 && !node.hidden
             else ListedByParent(t, id) && NodeOn(layers, PathOf(t, id), node)
    ensures Coherent(State(SetNode(t, id, node), layers))
  {
    var u := SetNode(t, id, node);
    SetNodeOk(t, id, node);
    forall x | x in u.nodes
      ensures NodeFine(State(u, layers), x)
    {
      SameLinksSamePaths(t, u, x);
      if x != id {
        FlagKeepsNode(layers, t, id, u, x);
      } else if id != t.root {
        ChildNotAbove(t, t.nodes[id].parent.value, t.nodes[id].name);
      }
    }
  }

  /** What agreement with the disk reads of a node. */
  lemma NodeOnReads(layers: seq<Layer>, q: Path, a: Node, b: Node)
    requires layers != [] && NodeOn(layers, q, a)
    requires b.layer == a.layer && b.last == a.last && b.hidden == a.hidden && (b.IsDir() <==> a.IsDir())
    ensures NodeOn(layers, q, b)
  {}

  lemma InsertKeepsListing(t: Tree, u: Tree, d: NodeId, x: NodeId, node: Node, y: NodeId)
    requires d in t.nodes && t.nodes[d].IsDir() && Inserted(t, u, d, x, node)
    requires node.name !in t.nodes[d].Children() && y in t.nodes && ListedByParent(t, y)
    ensures y in u.nodes && ListedByParent(u, y)
  {}

  lemma InsertKeepsPlace(layers: seq<Layer>, t: Tree, u: Tree, d: NodeId, x: NodeId, node: Node, y: NodeId)
    requires TreeOk(t) && TreeOk(u) && layers != [] && d in t.nodes && t.nodes[d].IsDir() && Inserted(t, u, d, x, node)
    requires node.name !in t.nodes[d].Children() && y in t.nodes && PathOf(u, y) == PathOf(t, y)
    requires Placed(State(t, layers), y)
    ensures Placed(State(u, layers), y)
  {
    hide NodeOn;
    hide ListedByParent;
    if y != t.root {
      InsertKeepsListing(t, u, d, x, node, y);
      NodeOnReads(layers, PathOf(t, y), t.nodes[y], u.nodes[y]);
    }
  }

  lemma InsertKeepsNode(layers: seq<Layer>, t: Tree, u: Tree, d: NodeId, x: NodeId, node: Node, y: NodeId)
    requires TreeOk(t) && TreeOk(u) && layers != [] && d in t.nodes && t.nodes[d].IsDir() && Inserted(t, u, d, x, node)
    requires node.name !in t.nodes[d].Children() && y in t.nodes && PathOf(u, y) == PathOf(t, y)
    requires Placed(State(t, layers), y)
    requires DirOn(layers, PathOf(t, y), if y == d then t.nodes[d].InsertChild(node.name, x) else t.nodes[y])
    ensures NodeFine(State(u, layers), y)
  {
    hide Placed;
    hide DirOn;
    InsertKeepsPlace(layers, t, u, d, x, node, y);
  }

  /** A node is added where the others, and it, agree with the disk. */
  lemma InsertCoherent(t: Tree, layers: seq<Layer>, d: NodeId, node: Node)
    requires TreeOk(t) && Clean(layers) && d in t.nodes && t.nodes[d].IsDir()
    requires ValidName(node.name) && node.Children() == map[] && node.name !in t.nodes[d].Children()
    requires forall x :: x in t.nodes && x != d ==> NodeFine(State(t, layers), x)
    requires Placed(State(t, layers), d)
    requires DirOn(layers, PathOf(t, d), t.nodes[d].InsertChild(node.name, t.nextId))
    requires var q := PathOf(t, d) + [node.name];
             NodeOn(layers, q, node.(parent := Some(d))) && DirOn(layers, q, node.(parent := Some(d)))
    ensures Coherent(State(InsertChild(t, d, node), layers))
  {
    InsertChildOk(t, d, node);
    InsertChildInserts(t, d, node);
    InsertedCoherent(layers, t, InsertChild(t, d, node), d, t.nextId, node);
  }

  lemma InsertedCoherent(layers: seq<Layer>, t: Tree, u: Tree, d: NodeId, x: NodeId, node: Node)
    requires TreeOk(t) && TreeOk(u) && Clean(layers) && d in t.nodes && t.nodes[d].IsDir() && Inserted(t, u, d, x, node)
    requires node.name !in t.nodes[d].Children() && t.root in t.nodes
    requires forall y :: y in t.nodes ==> PathOf(u, y) == PathOf(t, y)
    requires forall y :: y in t.nodes && y != d ==> NodeFine(State(t, layers), y)
    requires Placed(State(t, layers), d) && DirOn(layers, PathOf(t, d), t.nodes[d].InsertChild(node.name, x))
    requires NodeOn(layers, PathOf(u, x), node.(parent := Some(d))) && DirOn(layers, PathOf(u, x), node.(parent := Some(d)))
    ensures Coherent(State(u, layers))
  {
    forall y | y in u.nodes
      ensures NodeFine(State(u, layers), y)
    {
      if y != x {
        assert y != d ==> NodeFine(State(t, layers), y);
        InsertKeepsNode(layers, t, u, d, x, node, y);
      } else {
        assert x != u.root;
        InsertedFine(layers, t, u, d, x, node);
      }
    }
  }

  lemma InsertedFine(layers: seq<Layer>, t: Tree, u: Tree, d: NodeId, x: NodeId, node: Node)
    requires TreeOk(u) && layers != [] && d in t.nodes && t.nodes[d].IsDir() && Inserted(t, u, d, x, node) && x != u.root
    requires NodeOn(layers, PathOf(u, x), node.(parent := Some(d))) && DirOn(layers, PathOf(u, x), node.(parent := Some(d)))
    ensures NodeFine(State(u, layers), x)
  {}

  // ---- The fresh mount agrees ----

  /** What a fresh mount finds at the path of a cached node: the same layer and kind, and a last
      layer below which nothing is left. */
  lemma {:induction false} CoherentFresh(s: State, id: NodeId)
    requires Coherent(s) && id in s.t.nodes
    ensures var f, p := Fresh(s.layers, PathOf(s.t, id)), PathOf(s.t, id);
            && f.Some? && f.value.layer == s.t.nodes[id].layer && f.value.isDir == s.t.nodes[id].IsDir()
            && (f.value.isDir ==> Scannable(s.layers, p, f.value.last))
    decreases if id in s.t.chains then |s.t.chains[id]| else 0
  {
    assert NodeFine(s, id);
    if id == s.t.root {
      DirScannable(s, id);
    } else {
      PathSplits(s.t, id);
      var d, n := s.t.nodes[id].parent.value, s.t.nodes[id].name;
      CoherentFresh(s, d);
      var p := PathOf(s.t, d);
      CleanScan(s.layers, p, Fresh(s.layers, p).value.last, n);
      var f := Fresh(s.layers, p + [n]).value;
      SameTop(s.layers, p + [n], f, SeenOf(s.t.nodes[id]));
      if f.isDir {
        TopDirEverywhere(s.layers, p + [n], f);
      }
    }
  }

  lemma SameTop(layers: seq<Layer>, q: Path, a: Seen, b: Seen)
    requires TopNode(layers, q, a) && TopNode(layers, q, b)
    ensures a.layer == b.layer && a.isDir == b.isDir
  {}

  /** What a fresh mount shows in a cached directory is given by the closed form. */
  lemma FreshInDir(s: State, d: NodeId, n: Name)
    requires Coherent(s) && d in s.t.nodes
    ensures Fresh(s.layers, PathOf(s.t, d) + [n]).Some? <==> s.t.nodes[d].IsDir() && InMerge(s.layers, PathOf(s.t, d), n)
  {
    var p := PathOf(s.t, d);
    assert Parent(p + [n]) == p && Last(p + [n]) == n;
    CoherentFresh(s, d);
    if s.t.nodes[d].IsDir() {
      CleanScan(s.layers, p, Fresh(s.layers, p).value.last, n);
    }
  }

  /** Where a cached directory shows nothing, neither is there anything below. */
  lemma NothingInDir(s: State, d: NodeId, r: Path)
    requires Coherent(s) && d in s.t.nodes && PathOf(s.t, d) <= r && r != PathOf(s.t, d)
    requires s.t.nodes[d].IsDir() ==> !InMerge(s.layers, PathOf(s.t, d), r[|PathOf(s.t, d)|])
    ensures Fresh(s.layers, r) == None
  {
    var p := PathOf(s.t, d);
    NextOnTheWay(p, r);
    FreshInDir(s, d, r[|p|]);
    NothingBelow(s.layers, p + [r[|p|]], r);
  }

  lemma NextOnTheWay(p: Path, r: Path)
    requires p <= r && p != r
    ensures p + [r[|p|]] <= r
  {
    assert r[..|p| + 1] == r[..|p|] + [r[|p|]];
  }
}
