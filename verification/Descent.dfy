/** Layers below one another, whatever the disk holds: over any layers, with whiteouts, opaque
    directories and clashes of files and directories, and without any condition on the names that are
    created. As long as no directory is moved, every cached node is on the topmost layer that has its
    path. Where directories move clear of the lower layers, this is lost (a lookup can find a child past
    an opaque directory), but no layer above a node's has its path. In both cases layer numbers never
    decrease going down the tree; where a directory moves to a name that a lower layer has, they can
    (`DirectoryRuns.GrandchildAbove`). */
module Descent {
  import opened Wrappers
  import opened Names
  import opened NodeTree
  import opened TreeOps
  import opened TreeRuns
  import opened Layers
  import opened Merge
  import opened LazyLookup
  import opened FreshMount
  import opened DiskChanges
  import opened Removal
  import opened CleanDisk
  import opened Filling
  import opened Session
  import opened SessionFrame
  import opened SessionScan
  import opened SessionDisk
  import opened DiskRename
  import opened SessionRename
  import opened Clearing
  import opened RenameUncovered
  import opened DiskExchange
  import opened SessionExchange
  import opened Unregistered
  import opened Coherence

  // ---- The invariant ----

  /** No layer above the node's has its path. In the exact case the node's layer has it, as an entry of
      the node's kind. */
  ghost predicate OnDisk(exact: bool, layers: seq<Layer>, q: Path, node: Node) {
    && node.layer < |layers| && (q != [] ==> !IsWh(Last(q)))
    && (exact ==> && q in layers[node.layer] && layers[node.layer][q] != Whiteout
                  && (layers[node.layer][q].Dir? <==> node.IsDir()))
    && forall j :: 0 <= j < node.layer ==> q !in layers[j]
  }

  ghost predicate Descends(t: Tree, x: NodeId)
    requires x in t.nodes
  {
    && t.nodes[x].parent.Some? && t.nodes[x].parent.value in t.nodes
    && t.nodes[t.nodes[x].parent.value].layer <= t.nodes[x].layer
  }

  ghost predicate Grounded(exact: bool, s: State) {
    && AllListed(s.t) && LayersOk(s.layers)
    && (forall x :: x in s.t.nodes ==> OnDisk(exact, s.layers, PathOf(s.t, x), s.t.nodes[x]))
    && (!exact ==> forall x :: x in s.t.nodes && x != s.t.root ==> Descends(s.t, x))
  }

  /** What is on a layer is below no directory that is not on it or above it. */
  lemma ChildNotAboveParent(exact: bool, layers: seq<Layer>, p: Path, parent: Node, n: Name, node: Node)
    requires LayersOk(layers) && OnDisk(exact, layers, p, parent) && OnDisk(true, layers, p + [n], node)
    ensures parent.layer <= node.layer
  {
    assert Parent(p + [n]) == p;
    assert LayerOk(layers[node.layer]) && EntryPlaced(layers[node.layer], p + [n]);
  }

  lemma GroundedDescends(exact: bool, s: State, x: NodeId)
    requires Grounded(exact, s) && x in s.t.nodes && x != s.t.root
    ensures Descends(s.t, x)
  {
    assert ListedByParent(s.t, x);
    PathOfListed(s.t, x);
    var p := s.t.nodes[x].parent.value;
    assert OnDisk(exact, s.layers, PathOf(s.t, x), s.t.nodes[x]) && OnDisk(exact, s.layers, PathOf(s.t, p), s.t.nodes[p]);
    if exact {
      ChildNotAboveParent(exact, s.layers, PathOf(s.t, p), s.t.nodes[p], s.t.nodes[x].name, s.t.nodes[x]);
    }
  }

  // ---- What a scan and a lookup find ----

  /** Whatever was cached before, a name that a scan adds comes from the first layer, of those that it
      looks at, that lists the name; and it adds it as what that layer has it as. */
  lemma {:induction false} ScanAddsFirst(views: seq<View>, bound: Option<nat>, i: nat, c: Cache, n: Name)
    requires i <= |views| && n !in c.children && n in ScanFrom(views, bound, i, c).children
    ensures n !in c.whiteouts
    ensures var seen := ScanFrom(views, bound, i, c).children[n];
            && i <= seen.layer < |views| && PlainAt(views, seen.layer, n)
            && (seen.isDir <==> views[seen.layer].items[n].DirItem?)
            && forall j :: i <= j < seen.layer ==> !Stops(views, bound, j) && !Lists(views, j, n)
    decreases |views| - i
  {
    var r := ScanView(c, views[i], i);
    if n in r.children {
      if !Stops(views, bound, i) {
        ScanKeepsChild(views, bound, i + 1, r, n);
      }
    } else {
      ScanAddsFirst(views, bound, i + 1, r, n);
    }
  }

  lemma {:induction false} ScanKeepsChild(views: seq<View>, bound: Option<nat>, i: nat, c: Cache, n: Name)
    requires i <= |views| && n in c.children
    ensures var r := ScanFrom(views, bound, i, c);
            n in r.children && r.children[n].layer == c.children[n].layer && r.children[n].isDir == c.children[n].isDir
    decreases |views| - i
  {
    if i < |views| && !Stops(views, bound, i) {
      ScanKeepsChild(views, bound, i + 1, ScanView(c, views[i], i), n);
    }
  }

  /** What is found first in the views is topmost on the disk. */
  lemma FirstIsTopmost(layers: seq<Layer>, p: Path, n: Name, node: Node)
    requires LayersOk(layers) && node.layer < |layers| && !IsWh(n)
    requires var v := ViewsOf(layers, p)[node.layer];
             v.Listing? && n in v.items && !v.items[n].WhiteoutItem? && (v.items[n].DirItem? <==> node.IsDir())
    requires forall j: nat :: j < node.layer ==> n !in Items(ViewsOf(layers, p)[j])
    ensures OnDisk(true, layers, p + [n], node)
  {
    var q := p + [n];
    assert Last(q) == n && Parent(q) == p;
    forall j: nat | j < node.layer
      ensures q !in layers[j]
    {
      assert q in layers[j] ==> EntryPlaced(layers[j], q);
      assert n !in Items(ViewsOf(layers, p)[j]);
    }
  }

  lemma ScannedIsOnDisk(exact: bool, s: State, d: NodeId, n: Name, node: Node)
    requires Grounded(exact, s) && d in s.t.nodes && s.t.nodes[d].IsDir() && n !in s.t.nodes[d].Children()
    requires n in Rescan(s, d).children && SeenOf(node) == Rescan(s, d).children[n]
    ensures OnDisk(true, s.layers, PathOf(s.t, d) + [n], node)
  {
    hide ScanFrom;
    hide OnDisk;
    var v := ViewsOf(s.layers, PathOf(s.t, d));
    ScanAddsFirst(v, Some(s.t.nodes[d].last), 0, CacheOf(s.t, d), n);
    forall j: nat | j < node.layer
      ensures n !in Items(v[j])
    {
      assert !Stops(v, Some(s.t.nodes[d].last), j) && !Lists(v, j, n);
    }
    FirstIsTopmost(s.layers, PathOf(s.t, d), n, node);
  }

  lemma FoundIsOnDisk(exact: bool, s: State, d: NodeId, n: Name, node: Node)
    requires Grounded(exact, s) && d in s.t.nodes && !IsWh(n)
    requires var r := LazyResult(ViewsOf(s.layers, PathOf(s.t, d)), s.t.nodes[d].last, n);
             r.Found? && node.layer == r.seen.layer && node.IsDir() == r.seen.isDir
    ensures OnDisk(true, s.layers, PathOf(s.t, d) + [n], node)
  {
    var v := ViewsOf(s.layers, PathOf(s.t, d));
    LazyFinds(v, s.t.nodes[d].last, 0, n);
    assert LazyShows(v, node.layer, n);
    assert !Blocks(v, node.layer, n);
    FirstIsTopmost(s.layers, PathOf(s.t, d), n, node);
  }

  // ---- Steps that change the cache ----

  /** A tree whose old nodes stand where they stood, each on its layer, and whose new ones are on the
      disk. */
  lemma LoadKeepsGround(exact: bool, s: State, d: NodeId, out: State)
    requires Grounded(exact, s) && Loads(s, d, out)
    ensures Grounded(exact, out)
  {
    hide OnDisk;
    hide ScanFrom;
    hide Rescan;
    var u := LoadedFrom(exact, s, d, out);
    hide Filled;
    hide Loads;
    forall x | x in out.t.nodes
      ensures x != out.t.root ==> ListedByParent(out.t, x) && Descends(out.t, x)
      ensures OnDisk(exact, out.layers, PathOf(out.t, x), out.t.nodes[x])
    {
      LoadedNode(exact, s, d, Rescan(s, d), u, x);
    }
  }

  lemma LoadedFrom(exact: bool, s: State, d: NodeId, out: State) returns (u: Tree)
    requires Grounded(exact, s) && Loads(s, d, out)
    ensures Filled(s.t, u, d, Rescan(s, d)) && d in u.nodes && out.t == SetNode(u, d, u.nodes[d].SetLoaded(true))
    ensures TreeOk(out.t) && out.layers == s.layers && out.t.nodes.Keys == u.nodes.Keys
  {
    hide Rescan;
    u :| Filled(s.t, u, d, Rescan(s, d)) && out.t == SetNode(u, d, u.nodes[d].SetLoaded(true));
    SetNodeOk(u, d, u.nodes[d].SetLoaded(true));
  }

  lemma LoadedNode(exact: bool, s: State, d: NodeId, c: Cache, u: Tree, x: NodeId)
    requires Grounded(exact, s) && Filled(s.t, u, d, c) && c == Rescan(s, d) && x in u.nodes
    ensures var v := SetNode(u, d, u.nodes[d].SetLoaded(true));
            && TreeOk(v) && (x != v.root ==> ListedByParent(v, x) && Descends(v, x))
            && OnDisk(exact, s.layers, PathOf(v, x), v.nodes[x])
  {
    hide OnDisk;
    hide ScanFrom;
    hide Rescan;
    var v := SetNode(u, d, u.nodes[d].SetLoaded(true));
    SetNodeOk(u, d, u.nodes[d].SetLoaded(true));
    SameLinksSamePaths(u, v, x);
    FilledNode(exact, s, d, c, u, x);
    SameOnDisk(exact, s.layers, PathOf(u, x), u.nodes[x], v.nodes[x]);
    if x != u.root {
      FlagKeepsListing(u, d, x);
    }
  }

  lemma FlagKeepsListing(u: Tree, d: NodeId, x: NodeId)
    requires TreeOk(u) && d in u.nodes && x in u.nodes && ListedByParent(u, x)
    ensures ListedByParent(SetNode(u, d, u.nodes[d].SetLoaded(true)), x)
  {
    ChildNotAbove(u, u.nodes[x].parent.value, u.nodes[x].name);
  }

  lemma FilledNode(exact: bool, s: State, d: NodeId, c: Cache, u: Tree, x: NodeId)
    requires Grounded(exact, s) && Filled(s.t, u, d, c) && c == Rescan(s, d) && x in u.nodes
    ensures x != u.root ==> ListedByParent(u, x) && Descends(u, x)
    ensures OnDisk(exact, s.layers, PathOf(u, x), u.nodes[x])
  {
    if x in s.t.nodes {
      FilledKeepsPath(s.t, u, d, c, x);
      assert OnDisk(exact, s.layers, PathOf(s.t, x), s.t.nodes[x]);
      assert x != d ==> OnlyLast(s.t, u, d, x);
      if x != s.t.root {
        assert ListedByParent(s.t, x);
        StillListed(s.t, u, d, c, x);
        GroundedDescends(exact, s, x);
        StillDescends(s.t, u, d, c, x);
      }
    } else {
      NewChildPath(s.t, u, d, c, x);
      assert u.nodes[d].Children()[u.nodes[x].name] == x;
      assert CacheOf(u, d).children[u.nodes[x].name] == SeenOf(u.nodes[x]);
      NewNameIsNew(s.t, u, d, c, x);
      ScannedIsOnDisk(exact, s, d, u.nodes[x].name, u.nodes[x]);
      assert OnDisk(exact, s.layers, PathOf(s.t, d), s.t.nodes[d]);
      ChildNotAboveParent(exact, s.layers, PathOf(s.t, d), s.t.nodes[d], u.nodes[x].name, u.nodes[x]);
    }
  }

  lemma StillDescends(t: Tree, u: Tree, d: NodeId, c: Cache, x: NodeId)
    requires Filled(t, u, d, c) && x in t.nodes && Descends(t, x)
    ensures x in u.nodes && Descends(u, x)
  {
    var e := t.nodes[x].parent.value;
    assert x != d ==> OnlyLast(t, u, d, x);
    assert e != d ==> OnlyLast(t, u, d, e);
  }

  lemma NewNameIsNew(t: Tree, u: Tree, d: NodeId, c: Cache, x: NodeId)
    requires Filled(t, u, d, c) && x in u.nodes && x !in t.nodes && IsNewChild(t, u, d, x)
    ensures u.nodes[x].name !in t.nodes[d].Children()
  {}

  /** A new child on its place on the disk, among nodes that are on theirs. */
  lemma InsertKeepsGround(exact: bool, t: Tree, layers: seq<Layer>, d: NodeId, node: Node)
    requires AllListed(t) && LayersOk(layers) && d in t.nodes && t.nodes[d].IsDir()
    requires ValidName(node.name) && node.Children() == map[] && node.name !in t.nodes[d].Children()
    requires forall x :: x in t.nodes ==> OnDisk(exact, layers, PathOf(t, x), t.nodes[x])
    requires forall x :: x in t.nodes && x != t.root ==> Descends(t, x)
    requires OnDisk(true, layers, PathOf(t, d) + [node.name], node)
    ensures Grounded(exact, State(InsertChild(t, d, node), layers))
  {
    var u := InsertChild(t, d, node);
    InsertChildOk(t, d, node);
    InsertChildInserts(t, d, node);
    forall x | x in u.nodes
      ensures x != u.root ==> ListedByParent(u, x) && Descends(u, x)
      ensures OnDisk(exact, layers, PathOf(u, x), u.nodes[x])
    {
      InsertedNode(exact, t, u, layers, d, t.nextId, node, x);
    }
  }

  lemma InsertedNode(exact: bool, t: Tree, u: Tree, layers: seq<Layer>, d: NodeId, c: NodeId, node: Node, x: NodeId)
    requires AllListed(t) && TreeOk(u) && LayersOk(layers) && d in t.nodes && t.nodes[d].IsDir()
    requires Inserted(t, u, d, c, node) && x in u.nodes && c != t.root
    requires node.name !in t.nodes[d].Children() && PathOf(u, c) == PathOf(t, d) + [node.name]
    requires forall y :: y in t.nodes ==> PathOf(u, y) == PathOf(t, y)
    requires forall y :: y in t.nodes ==> OnDisk(exact, layers, PathOf(t, y), t.nodes[y])
    requires forall y :: y in t.nodes && y != t.root ==> Descends(t, y)
    requires OnDisk(true, layers, PathOf(t, d) + [node.name], node)
    ensures x != u.root ==> ListedByParent(u, x) && Descends(u, x)
    ensures OnDisk(exact, layers, PathOf(u, x), u.nodes[x])
  {
    hide OnDisk;
    if x != u.root {
      InsertedListed(t, u, d, c, node, x);
    }
    if x == c {
      assert OnDisk(exact, layers, PathOf(t, d), t.nodes[d]);
      ChildNotAboveParent(exact, layers, PathOf(t, d), t.nodes[d], node.name, node);
      SameOnDisk(true, layers, PathOf(u, x), node, u.nodes[x]);
      AnyExactness(exact, layers, PathOf(u, x), u.nodes[x]);
    } else {
      assert OnDisk(exact, layers, PathOf(t, x), t.nodes[x]);
      if x != t.root {
        InsertDescends(t, u, d, c, node, x);
      }
      SameOnDisk(exact, layers, PathOf(t, x), t.nodes[x], u.nodes[x]);
    }
  }

  lemma InsertDescends(t: Tree, u: Tree, d: NodeId, c: NodeId, node: Node, x: NodeId)
    requires d in t.nodes && t.nodes[d].IsDir() && Inserted(t, u, d, c, node) && x in t.nodes && Descends(t, x)
    ensures x in u.nodes && Descends(u, x)
  {}

  lemma AnyExactness(exact: bool, layers: seq<Layer>, q: Path, node: Node)
    requires OnDisk(true, layers, q, node)
    ensures OnDisk(exact, layers, q, node)
  {}

  lemma InsertedListed(t: Tree, u: Tree, d: NodeId, c: NodeId, node: Node, x: NodeId)
    requires AllListed(t) && d in t.nodes && t.nodes[d].IsDir() && Inserted(t, u, d, c, node) && x in u.nodes && x != t.root
    requires node.name !in t.nodes[d].Children()
    ensures ListedByParent(u, x)
  {
    if x != c {
      assert ListedByParent(t, x);
    }
  }

  /** What the disk says of a node reads its layer and its kind only. */
  lemma SameOnDisk(exact: bool, layers: seq<Layer>, q: Path, a: Node, b: Node)
    requires OnDisk(exact, layers, q, a) && a.layer == b.layer && (a.IsDir() <==> b.IsDir())
    ensures OnDisk(exact, layers, q, b)
  {}

  lemma LookKeepsGround(exact: bool, s: State, d: NodeId, n: Name, out: State)
    requires Grounded(exact, s) && Looks(s, d, n, out) && !IsWh(n)
    ensures Grounded(exact, out)
  {
    var r := LazyResult(ViewsOf(s.layers, PathOf(s.t, d)), s.t.nodes[d].last, n);
    match r
    case Found(seen) =>
      var key :| out.t == InsertChild(s.t, d, NewNode(n, seen.layer, key, seen.isDir).(last := seen.last));
      var node := NewNode(n, seen.layer, key, seen.isDir).(last := seen.last);
      FoundIsOnDisk(exact, s, d, n, node);
      FoundIsEntry(exact, s, d, n, node);
      AllDescend(exact, s);
      InsertKeepsGround(exact, s.t, s.layers, d, node);
    case HiddenBy(w) =>
      AllDescend(exact, s);
      FieldsKeepGround(exact, s, s.layers, d, s.t.nodes[d].InsertWhiteout(w));
    case NotFound =>
  }

  lemma AllDescend(exact: bool, s: State)
    requires Grounded(exact, s)
    ensures forall x :: x in s.t.nodes && x != s.t.root ==> Descends(s.t, x)
  {
    forall x | x in s.t.nodes && x != s.t.root
      ensures Descends(s.t, x)
    {
      GroundedDescends(exact, s, x);
    }
  }

  lemma FoundIsEntry(exact: bool, s: State, d: NodeId, n: Name, node: Node)
    requires Grounded(exact, s) && OnDisk(true, s.layers, PathOf(s.t, d) + [n], node)
    ensures ValidName(n)
  {
    var q := PathOf(s.t, d) + [n];
    assert Last(q) == n && LayerOk(s.layers[node.layer]) && EntryPlaced(s.layers[node.layer], q);
  }

  /** One node's own fields change, on a disk where the others are. */
  lemma FieldsKeepGround(exact: bool, s: State, layers: seq<Layer>, id: NodeId, node: Node)
    requires Grounded(exact, s) && LayersOk(layers) && id in s.t.nodes
    requires node.parent == s.t.nodes[id].parent && node.name == s.t.nodes[id].name
    requires node.Children() == s.t.nodes[id].Children() && (node.IsDir() <==> s.t.nodes[id].IsDir())
    requires forall x :: x in s.t.nodes && x != id ==> OnDisk(exact, layers, PathOf(s.t, x), s.t.nodes[x])
    requires OnDisk(exact, layers, PathOf(s.t, id), node) && node.layer <= s.t.nodes[id].layer
    requires id != s.t.root && s.t.nodes[id].parent.Some? && s.t.nodes[id].parent.value in s.t.nodes ==>
               s.t.nodes[s.t.nodes[id].parent.value].layer <= node.layer
    ensures Grounded(exact, State(SetNode(s.t, id, node), layers))
  {
    hide OnDisk;
    var u := SetNode(s.t, id, node);
    SetNodeOk(s.t, id, node);
    forall x | x in u.nodes
      ensures x != u.root ==> ListedByParent(u, x) && Descends(u, x)
      ensures OnDisk(exact, layers, PathOf(u, x), u.nodes[x])
    {
      SameLinksSamePaths(s.t, u, x);
      if x != u.root {
        FieldsKeepListing(s.t, id, node, x);
        GroundedDescends(exact, s, x);
        FieldsDescend(s.t, id, node, x);
      }
    }
  }

  lemma FieldsDescend(t: Tree, id: NodeId, node: Node, x: NodeId)
    requires id in t.nodes && x in t.nodes && Descends(t, x) && node.parent == t.nodes[id].parent && node.layer <= t.nodes[id].layer
    requires t.nodes[id].parent.Some? && t.nodes[id].parent.value in t.nodes && x == id ==> t.nodes[t.nodes[id].parent.value].layer <= node.layer
    requires t.nodes[x].parent != Some(x)
    ensures Descends(SetNode(t, id, node), x)
  {}

  lemma FieldsKeepListing(t: Tree, id: NodeId, node: Node, x: NodeId)
    requires AllListed(t) && id in t.nodes && x in t.nodes && x != t.root
    requires node.parent == t.nodes[id].parent && node.name == t.nodes[id].name
    requires node.Children() == t.nodes[id].Children() && (node.IsDir() <==> t.nodes[id].IsDir())
    ensures ListedByParent(SetNode(t, id, node), x)
  {
    assert ListedByParent(t, x);
  }

  // ---- Steps that change the disk ----

  /** A node whose entry on the upper layer is not touched stays where it is. */
  lemma UntouchedOnDisk(exact: bool, layers: seq<Layer>, up: Layer, q: Path, node: Node)
    requires layers != [] && OnDisk(exact, layers, q, node) && SameEntry(layers[0], up, q)
    ensures OnDisk(exact, WithUpper(layers, up), q, node)
  {
    var out := WithUpper(layers, up);
    assert forall j :: 0 <= j < |layers| ==> SameEntry(layers[j], out[j], q);
  }

  /** A change of the upper layer at one name touches no node that is not at or below the name. */
  lemma ChangeTouchesNone(exact: bool, s: State, up: Layer, q: Path, x: NodeId)
    requires Grounded(exact, s) && q != [] && ChangedAt(s.layers[0], up, q) && x in s.t.nodes && !(q <= PathOf(s.t, x))
    ensures OnDisk(exact, WithUpper(s.layers, up), PathOf(s.t, x), s.t.nodes[x])
  {
    var p := PathOf(s.t, x);
    assert OnDisk(exact, s.layers, p, s.t.nodes[x]);
    NotAMarker(p, q);
    UntouchedOnDisk(exact, s.layers, up, p, s.t.nodes[x]);
  }

  lemma CopyKeepsGround(exact: bool, s: State, id: NodeId, out: State)
    requires Grounded(exact, s) && CopiesUp(s, id, out) && LayersOk(out.layers)
    ensures Grounded(exact, out)
  {
    var q, node := PathOf(s.t, id), s.t.nodes[id];
    assert OnDisk(exact, s.layers, q, node);
    PathOfListed(s.t, id);
    hide Descends;
    forall x | x in s.t.nodes && x != id
      ensures OnDisk(exact, out.layers, PathOf(s.t, x), s.t.nodes[x])
    {
      assert OnDisk(exact, s.layers, PathOf(s.t, x), s.t.nodes[x]);
      if PathOf(s.t, x) == q {
        ListedDistinct(s.t, x, id);
      }
      UntouchedOnDisk(exact, s.layers, out.layers[0], PathOf(s.t, x), s.t.nodes[x]);
    }
    FieldsKeepGround(exact, s, out.layers, id, node.(layer := 0));
  }

  lemma CreateKeepsGround(exact: bool, s: State, d: NodeId, n: Name, e: Entry, staged: bool, sentinel: bool, key: InodeKey, out: State)
    requires Grounded(exact, s) && Creates(s, d, n, e, staged, sentinel, key, out) && LayersOk(out.layers) && !IsWh(n)
    ensures Grounded(exact, out)
  {
    var q, node := PathOf(s.t, d) + [n], NewNode(n, 0, key, e.Dir?).SetLoaded(true);
    NewPathOf(PathOf(s.t, d), n);
    MadeChangesAt(s.layers[0], q, e, sentinel);
    assert q in out.layers[0] && out.layers[0][q] == e;
    assert LayerOk(out.layers[0]) && EntryPlaced(out.layers[0], q);
    forall x | x in s.t.nodes
      ensures OnDisk(exact, out.layers, PathOf(s.t, x), s.t.nodes[x])
    {
      NoneBelowName(s.t, d, n, x);
      ChangeTouchesNone(exact, s, out.layers[0], q, x);
    }
    AllDescend(exact, s);
    InsertKeepsGround(exact, s.t, out.layers, d, node);
  }

  lemma CreateBareKeepsGround(exact: bool, s: State, d: NodeId, n: Name, e: Entry, staged: bool, sentinel: bool, key: InodeKey, out: State)
    requires Grounded(exact, s) && CreatesUnregistered(s, d, n, e, staged, sentinel, key, out) && LayersOk(out.layers)
    ensures Grounded(exact, out)
  {
    hide InsertChild;
    hide MadeUpper;
    hide OnDisk;
    var q := PathOf(s.t, d) + [n];
    NewPathOf(PathOf(s.t, d), n);
    MadeChangesAt(s.layers[0], q, e, sentinel);
    forall x | x in s.t.nodes
      ensures OnDisk(exact, out.layers, PathOf(s.t, x), s.t.nodes[x])
    {
      NoneBelowName(s.t, d, n, x);
      ChangeTouchesNone(exact, s, out.layers[0], q, x);
    }
  }

  lemma NewPathOf(p: Path, n: Name)
    ensures p + [n] != [] && Last(p + [n]) == n && Parent(p + [n]) == p
  {}

  lemma MadeChangesAt(up: Layer, q: Path, e: Entry, sentinel: bool)
    requires q != []
    ensures ChangedAt(up, MadeUpper(up, q, e, sentinel), q) && ChangedAt(up, up[q := e], q)
    ensures q in MadeUpper(up, q, e, sentinel) && MadeUpper(up, q, e, sentinel)[q] == e
  {
    assert q <= q + [OPAQUE_WHITEOUT] && q != q + [OPAQUE_WHITEOUT];
  }

  lemma RemoveKeepsGround(exact: bool, s: State, d: NodeId, n: Name, cover: Cover, out: State)
    requires Grounded(exact, s) && Removes(s, d, n, cover, out) && LayersOk(out.layers)
    ensures Grounded(exact, out)
  {
    hide OnDisk;
    hide RmTree;
    hide RemovedUpper;
    hide Descends;
    var q, c := PathOf(s.t, d) + [n], s.t.nodes[d].Children()[n];
    ChildPathOfEntry(s.t, d, n);
    ChildNotAbove(s.t, d, n);
    RmTreeOk(s.t, d, n);
    RmNodes(s.t, d, n);
    RemovedChangesAt(s.layers[0], q, cover);
    forall x | x in out.t.nodes
      ensures x != out.t.root ==> ListedByParent(out.t, x) && Descends(out.t, x)
      ensures OnDisk(exact, out.layers, PathOf(out.t, x), out.t.nodes[x])
    {
      RemovedNodeOnDisk(exact, s, d, n, out.layers[0], x);
      if x != s.t.root {
        assert ListedByParent(s.t, x);
        GroundedDescends(exact, s, x);
        RmKeepsListing(s.t, d, n, x);
      }
    }
  }

  lemma RemovedNodeOnDisk(exact: bool, s: State, d: NodeId, n: Name, up: Layer, x: NodeId)
    requires Grounded(exact, s) && d in s.t.nodes && n in s.t.nodes[d].Children() && EntryOk(s.t, d, n)
    requires s.t.nodes[s.t.nodes[d].Children()[n]].Children() == map[] && x in RmTree(s.t, d, n).nodes
    requires PathOf(s.t, d) + [n] != [] && ChangedAt(s.layers[0], up, PathOf(s.t, d) + [n])
    ensures x in s.t.nodes && TreeOk(RmTree(s.t, d, n)) && PathOf(RmTree(s.t, d, n), x) == PathOf(s.t, x)
    ensures OnDisk(exact, WithUpper(s.layers, up), PathOf(s.t, x), RmTree(s.t, d, n).nodes[x])
  {
    hide OnDisk;
    hide RmTree;
    var c := s.t.nodes[d].Children()[n];
    ChildPathOfEntry(s.t, d, n);
    RmTreeOk(s.t, d, n);
    RmNodes(s.t, d, n);
    NoneBelowLeaf(s.t, c, x);
    ChangeTouchesNone(exact, s, up, PathOf(s.t, d) + [n], x);
    SameOnDisk(exact, WithUpper(s.layers, up), PathOf(s.t, x), s.t.nodes[x], RmTree(s.t, d, n).nodes[x]);
  }

  lemma RmKeepsListing(t: Tree, d: NodeId, n: Name, x: NodeId)
    requires TreeOk(t) && d in t.nodes && n in t.nodes[d].Children() && x in t.nodes && ListedByParent(t, x)
    requires x != t.nodes[d].Children()[n] && t.nodes[d].Children()[n] in t.nodes && t.nodes[t.nodes[d].Children()[n]].Children() == map[]
    requires Descends(t, x)
    ensures x in RmTree(t, d, n).nodes && ListedByParent(RmTree(t, d, n), x) && Descends(RmTree(t, d, n), x)
  {
    hide RmTree;
    hide TreeOk;
    RmNodes(t, d, n);
    ChildNotAbove(t, t.nodes[x].parent.value, t.nodes[x].name);
  }

  lemma RemovedChangesAt(up: Layer, q: Path, cover: Cover)
    requires q != []
    ensures ChangedAt(up, RemovedUpper(up, q, cover), q)
  {}

  lemma ClearKeepsGround(exact: bool, s: State, q: Path, out: State)
    requires Grounded(exact, s) && Clears(s, q, out)
    ensures Grounded(exact, out)
  {
    assert LayersOk(out.layers) by {
      assert forall i :: 1 <= i < |s.layers| ==> LayerOk(s.layers[i]);
    }
    forall x | x in s.t.nodes
      ensures OnDisk(exact, out.layers, PathOf(s.t, x), s.t.nodes[x])
    {
      assert OnDisk(exact, s.layers, PathOf(s.t, x), s.t.nodes[x]);
      ClearedOnDisk(exact, s.layers, out.layers[0], q, PathOf(s.t, x), s.t.nodes[x]);
    }
  }

  lemma ClearedOnDisk(exact: bool, layers: seq<Layer>, up: Layer, q: Path, p: Path, node: Node)
    requires layers != [] && q != [] && OnDisk(exact, layers, p, node) && OnlyHidersGone(layers[0], up, q)
    ensures OnDisk(exact, WithUpper(layers, up), p, node)
  {
    assert forall j :: 1 <= j < |layers| ==> WithUpper(layers, up)[j] == layers[j];
  }

  // ---- The rename of a file ----

  /** Away from both names and their markers, the move touches nothing. */
  lemma MoveTouchesNone(up: Layer, mv: Move, p: Path)
    requires mv.src != [] && mv.dst != [] && !(mv.src <= p) && !(mv.dst <= p) && (p != [] ==> !IsWh(Last(p)))
    ensures SameEntry(up, RenamedUpper(up, mv), p)
  {
    NotAMarker(p, mv.src);
    NotAMarker(p, mv.dst);
  }

  lemma MovedEntry(up: Layer, mv: Move)
    requires mv.src != [] && mv.dst != [] && !(mv.dst <= mv.src) && mv.src in up && !IsWh(Last(mv.dst))
    ensures var r := RenamedUpper(up, mv); mv.dst in r && r[mv.dst] == up[mv.src]
  {
    ShiftBack(mv.src, mv.dst, mv.src);
    ShiftBack(mv.dst, mv.src, mv.dst);
    NotAMarker(mv.dst, mv.src);
  }

  ghost predicate NotAbove(layers: seq<Layer>, p: Path, k: nat) {
    forall j :: 1 <= j < |layers| && j < k ==> p !in layers[j]
  }

  /** No layer above one of the nodes that are cached below, the upper one aside, has the new path of it. */
  ghost predicate GoesClear(s: State, c: NodeId, dst: Path)
    requires TreeOk(s.t) && c in s.t.nodes
  {
    forall x :: x in s.t.nodes && x != c && PathOf(s.t, c) <= PathOf(s.t, x) ==>
                  NotAbove(s.layers, Shift(PathOf(s.t, c), dst, PathOf(s.t, x)), s.t.nodes[x].layer)
  }

  /** What the steps of this module ask of a move: a file, or, in the inexact case, a directory that
      moves clear of the lower layers. */
  ghost predicate MayMove(exact: bool, s: State, c: NodeId, dst: Path)
    requires TreeOk(s.t) && c in s.t.nodes
  {
    s.t.nodes[c].layer == 0 && (s.t.nodes[c].IsDir() ==> !exact && GoesClear(s, c, dst))
  }

  /** A move to a name that no lower layer has is one. */
  lemma UnusedIsClear(s: State, c: NodeId, dst: Path)
    requires TreeOk(s.t) && LayersOk(s.layers) && c in s.t.nodes && !InLower(s.layers, dst)
    ensures GoesClear(s, c, dst)
  {
    forall x | x in s.t.nodes && x != c && PathOf(s.t, c) <= PathOf(s.t, x)
      ensures NotAbove(s.layers, Shift(PathOf(s.t, c), dst, PathOf(s.t, x)), s.t.nodes[x].layer)
    {
      NotInLowerBelow(s.layers, dst, Shift(PathOf(s.t, c), dst, PathOf(s.t, x)));
    }
  }

  lemma RenameKeepsGround(exact: bool, s: State, sp: NodeId, n: Name, dp: NodeId, m: Name, cover: Cover, out: State)
    requires Grounded(exact, s) && RenameAllowed(s.t, sp, n, dp, m) && !IsWh(m) && s.t.nodes[dp].layer == 0
    requires var c := s.t.nodes[sp].Children()[n];
             && Replaceable(s, dp, m, s.t.nodes[c].IsDir()) && MayMove(exact, s, c, PathOf(s.t, dp) + [m])
             && (s.t.nodes[c].IsDir() ==> cover == Nothing)
    requires out == State(RenameTree(s.t, sp, n, dp, m),
                          WithUpper(s.layers, RenamedUpper(s.layers[0], MoveOf(s.t, sp, n, dp, m, cover))))
    requires LayersOk(out.layers)
    ensures Grounded(exact, out)
  {
    hide RenameTree;
    hide RenamedUpper;
    hide OnDisk;
    hide Descends;
    RenameTreeOk(s.t, sp, n, dp, m);
    forall x | x in out.t.nodes
      ensures x != out.t.root ==> ListedByParent(out.t, x) && Descends(out.t, x)
      ensures OnDisk(exact, out.layers, PathOf(out.t, x), out.t.nodes[x])
    {
      RenamedNodeOnDisk(exact, s, sp, n, dp, m, cover, out.t, x);
      RenameNodes(s.t, sp, n, dp, m, x);
      if x != out.t.root {
        RenameListed(s, sp, n, dp, m, MoveOf(s.t, sp, n, dp, m, cover).isDir, out.t, x);
        GroundedDescends(exact, s, x);
        RenameDescends(s, sp, n, dp, m, out.t, x);
      }
    }
  }

  /** And none but a move that goes clear does so: this is the exact condition. */
  lemma RenameIsGroundedIff(s: State, sp: NodeId, n: Name, dp: NodeId, m: Name, cover: Cover, out: State)
    requires Grounded(false, s) && Renames(s, sp, n, dp, m, cover, out) && !IsWh(m) && LayersOk(out.layers)
    ensures Grounded(false, out) <==> GoesClear(s, s.t.nodes[sp].Children()[n], PathOf(s.t, dp) + [m])
  {
    var c, dst := s.t.nodes[sp].Children()[n], PathOf(s.t, dp) + [m];
    if GoesClear(s, c, dst) {
      RenameKeepsGround(false, s, sp, n, dp, m, cover, out);
    }
    if Grounded(false, out) {
      forall x | x in s.t.nodes && x != c && PathOf(s.t, c) <= PathOf(s.t, x)
        ensures NotAbove(s.layers, Shift(PathOf(s.t, c), dst, PathOf(s.t, x)), s.t.nodes[x].layer)
      {
        MovedWasClear(s, sp, n, dp, m, cover, out, x);
      }
    }
  }

  lemma OnDiskNotAbove(layers: seq<Layer>, up: Layer, p: Path, node: Node)
    requires layers != [] && OnDisk(false, WithUpper(layers, up), p, node)
    ensures NotAbove(layers, p, node.layer)
  {
    assert forall j :: 1 <= j < |layers| ==> WithUpper(layers, up)[j] == layers[j];
  }

  lemma MovedWasClear(s: State, sp: NodeId, n: Name, dp: NodeId, m: Name, cover: Cover, out: State, x: NodeId)
    requires Grounded(false, s) && Renames(s, sp, n, dp, m, cover, out) && Grounded(false, out)
    requires var c := s.t.nodes[sp].Children()[n]; x in s.t.nodes && x != c && PathOf(s.t, c) <= PathOf(s.t, x)
    ensures NotAbove(s.layers, Shift(PathOf(s.t, s.t.nodes[sp].Children()[n]), PathOf(s.t, dp) + [m], PathOf(s.t, x)), s.t.nodes[x].layer)
  {
    hide RenameTree;
    hide RenamedUpper;
    hide RenamedNode;
    hide OnDisk;
    hide NotAbove;
    hide Replaceable;
    var c := s.t.nodes[sp].Children()[n];
    ChildPathOfEntry(s.t, sp, n);
    NotTheTarget(s.t, sp, n, dp, m, x);
    RenameNodes(s.t, sp, n, dp, m, x);
    RenamedPathOf(s, sp, n, dp, m, cover, out.t, x);
    SameLayerRenamed(s.t, x, sp, n, dp, m, c);
    OnDiskNotAbove(s.layers, out.layers[0], PathOf(out.t, x), out.t.nodes[x]);
  }

  /** What is below the node that moves is not what it replaces. */
  lemma NotTheTarget(t: Tree, sp: NodeId, n: Name, dp: NodeId, m: Name, x: NodeId)
    requires AllListed(t) && RenameAllowed(t, sp, n, dp, m) && x in t.nodes && x != t.nodes[sp].Children()[n]
    requires PathOf(t, t.nodes[sp].Children()[n]) <= PathOf(t, x)
    ensures x !in Target(t, dp, m)
  {
    PathsBelow(t, t.nodes[sp].Children()[n], x);
    if x in Target(t, dp, m) {
      TargetApart(t, sp, n, dp, m);
    }
  }

  lemma RenameDescends(s: State, sp: NodeId, n: Name, dp: NodeId, m: Name, u: Tree, x: NodeId)
    requires TreeOk(s.t) && RenameAllowed(s.t, sp, n, dp, m) && s.t.nodes[dp].layer == 0
    requires s.t.nodes[s.t.nodes[sp].Children()[n]].layer == 0
    requires u == RenameTree(s.t, sp, n, dp, m) && x in s.t.nodes && x in u.nodes && Descends(s.t, x) && ListedByParent(u, x)
    ensures Descends(u, x)
  {
    hide RenameTree;
    hide RenamedNode;
    var c, e := s.t.nodes[sp].Children()[n], u.nodes[x].parent.value;
    ChildNotAbove(s.t, sp, n);
    RenameNodes(s.t, sp, n, dp, m, x);
    RenameNodes(s.t, sp, n, dp, m, e);
    SameLayerRenamed(s.t, x, sp, n, dp, m, c);
    SameLayerRenamed(s.t, e, sp, n, dp, m, c);
  }

  lemma SameLayerRenamed(t: Tree, x: NodeId, sp: NodeId, n: Name, dp: NodeId, m: Name, c: NodeId)
    requires x in t.nodes && c in t.nodes
    ensures var node := RenamedNode(t, x, sp, n, dp, m, c);
            node.layer == t.nodes[x].layer && node.parent == if x == c then Some(dp) else t.nodes[x].parent
  {}

  lemma RenamedNodeOnDisk(exact: bool, s: State, sp: NodeId, n: Name, dp: NodeId, m: Name, cover: Cover, u: Tree, x: NodeId)
    requires Grounded(exact, s) && RenameAllowed(s.t, sp, n, dp, m) && !IsWh(m)
    requires var c := s.t.nodes[sp].Children()[n];
             && Replaceable(s, dp, m, s.t.nodes[c].IsDir()) && MayMove(exact, s, c, PathOf(s.t, dp) + [m])
             && (s.t.nodes[c].IsDir() ==> cover == Nothing)
    requires u == RenameTree(s.t, sp, n, dp, m) && TreeOk(u) && x in u.nodes
    ensures OnDisk(exact, WithUpper(s.layers, RenamedUpper(s.layers[0], MoveOf(s.t, sp, n, dp, m, cover))), PathOf(u, x), u.nodes[x])
  {
    hide RenameTree;
    hide RenamedUpper;
    hide OnDisk;
    var c, mv := s.t.nodes[sp].Children()[n], MoveOf(s.t, sp, n, dp, m, cover);
    var up := RenamedUpper(s.layers[0], mv);
    RenamedPathOf(s, sp, n, dp, m, cover, u, x);
    RenameNodes(s.t, sp, n, dp, m, x);
    assert EntryOk(s.t, sp, n);
    ChildPathOfEntry(s.t, sp, n);
    assert OnDisk(exact, s.layers, PathOf(s.t, x), s.t.nodes[x]);
    if x == c {
      ShiftBack(mv.src, mv.dst, mv.src);
      MovedOnDisk(exact, s, sp, n, dp, m, cover, c);
      SameOnDisk(exact, WithUpper(s.layers, up), mv.dst, s.t.nodes[c], u.nodes[c]);
    } else {
      RenameKeepsLink(s.t, sp, n, dp, m, c, x);
      if mv.src <= PathOf(s.t, x) {
        BelowMoved(exact, s, mv, c, x);
        SameOnDisk(exact, WithUpper(s.layers, up), PathOf(u, x), s.t.nodes[x], u.nodes[x]);
      } else {
        UnmovedOnDisk(exact, s, mv, PathOf(s.t, x), s.t.nodes[x]);
        SameOnDisk(exact, WithUpper(s.layers, up), PathOf(s.t, x), s.t.nodes[x], u.nodes[x]);
      }
    }
  }

  /** What is cached below a directory that moves: its new path is on no layer above it. */
  lemma BelowMoved(exact: bool, s: State, mv: Move, c: NodeId, x: NodeId)
    requires Grounded(exact, s) && c in s.t.nodes && x in s.t.nodes && x != c && mv.src == PathOf(s.t, c) && mv.src <= PathOf(s.t, x)
    requires mv.src != [] && mv.dst != [] && MayMove(exact, s, c, mv.dst) && (s.t.nodes[c].IsDir() ==> mv.cover == Nothing)
    ensures OnDisk(exact, WithUpper(s.layers, RenamedUpper(s.layers[0], mv)), Shift(mv.src, mv.dst, PathOf(s.t, x)), s.t.nodes[x])
  {
    hide RenamedUpper;
    hide OnDisk;
    var p := PathOf(s.t, x);
    assert OnDisk(exact, s.layers, p, s.t.nodes[x]);
    DirAbove(s.t, c, x);
    var r := Shift(mv.src, mv.dst, p);
    ShiftParent(mv.src, mv.dst, p);
    if p !in s.layers[0] {
      ShiftedIn(s.layers[0], mv, p);
    }
    assert NotAbove(s.layers, r, s.t.nodes[x].layer);
    MovedAway(s.layers, RenamedUpper(s.layers[0], mv), p, r, s.t.nodes[x]);
  }

  lemma DirAbove(t: Tree, c: NodeId, x: NodeId)
    requires AllListed(t) && c in t.nodes && x in t.nodes && x != c && PathOf(t, c) <= PathOf(t, x)
    ensures t.nodes[c].IsDir() && PathOf(t, c) != PathOf(t, x)
  {
    if t.nodes[c].Children() == map[] {
      NoneBelowLeaf(t, c, x);
    }
    if PathOf(t, c) == PathOf(t, x) {
      ListedDistinct(t, x, c);
    }
  }

  lemma MovedAway(layers: seq<Layer>, up: Layer, p: Path, r: Path, node: Node)
    requires layers != [] && OnDisk(false, layers, p, node) && p != [] && r != [] && Last(r) == Last(p)
    requires (p !in layers[0] ==> r !in up) && NotAbove(layers, r, node.layer)
    ensures OnDisk(false, WithUpper(layers, up), r, node)
  {
    assert forall j :: 1 <= j < |layers| ==> WithUpper(layers, up)[j] == layers[j];
  }

  lemma ShiftedIn(up: Layer, mv: Move, p: Path)
    requires mv.src != [] && mv.dst != [] && mv.src <= p && mv.cover == Nothing && p !in up
    ensures Shift(mv.src, mv.dst, p) !in RenamedUpper(up, mv)
  {
    ShiftBack(mv.src, mv.dst, p);
  }

  lemma UnmovedOnDisk(exact: bool, s: State, mv: Move, p: Path, node: Node)
    requires s.layers != [] && mv.src != [] && mv.dst != [] && !(mv.src <= p) && !(mv.dst <= p) && OnDisk(exact, s.layers, p, node)
    ensures OnDisk(exact, WithUpper(s.layers, RenamedUpper(s.layers[0], mv)), p, node)
  {
    hide RenamedUpper;
    MoveTouchesNone(s.layers[0], mv, p);
    UntouchedOnDisk(exact, s.layers, RenamedUpper(s.layers[0], mv), p, node);
  }

  lemma MovedOnDisk(exact: bool, s: State, sp: NodeId, n: Name, dp: NodeId, m: Name, cover: Cover, c: NodeId)
    requires Grounded(exact, s) && RenameAllowed(s.t, sp, n, dp, m) && !IsWh(m)
    requires c == s.t.nodes[sp].Children()[n] && Replaceable(s, dp, m, s.t.nodes[c].IsDir())
    requires MayMove(exact, s, c, PathOf(s.t, dp) + [m])
    ensures var mv := MoveOf(s.t, sp, n, dp, m, cover);
            OnDisk(exact, WithUpper(s.layers, RenamedUpper(s.layers[0], mv)), mv.dst, s.t.nodes[c])
  {
    hide RenamedUpper;
    hide Replaceable;
    var mv := MoveOf(s.t, sp, n, dp, m, cover);
    assert EntryOk(s.t, sp, n);
    ChildPathOfEntry(s.t, sp, n);
    assert OnDisk(exact, s.layers, PathOf(s.t, c), s.t.nodes[c]);
    NewPathOf(PathOf(s.t, dp), m);
    if exact {
      TargetNotAbove(s, sp, n, dp, m, c);
      MovedEntry(s.layers[0], mv);
    }
  }

  lemma TargetNotAbove(s: State, sp: NodeId, n: Name, dp: NodeId, m: Name, c: NodeId)
    requires AllListed(s.t) && RenameAllowed(s.t, sp, n, dp, m) && c == s.t.nodes[sp].Children()[n]
    requires Replaceable(s, dp, m, s.t.nodes[c].IsDir())
    ensures !(PathOf(s.t, dp) + [m] <= PathOf(s.t, sp) + [n])
  {
    ChildPathOfEntry(s.t, sp, n);
    TargetIsLeaf(s, dp, m, s.t.nodes[c].IsDir(), c);
    TargetApartIf(s, sp, n, dp, m);
  }

  // ---- The exchange ----

  lemma ExchangeKeepsGround(exact: bool, s: State, sp: NodeId, n: Name, dp: NodeId, m: Name, out: State)
    requires Grounded(exact, s) && Exchanges(s, sp, n, dp, m, out) && LayersOk(out.layers)
    requires MayMove(exact, s, s.t.nodes[sp].Children()[n], PathOf(s.t, dp) + [m])
    requires MayMove(exact, s, s.t.nodes[dp].Children()[m], PathOf(s.t, sp) + [n])
    ensures Grounded(exact, out)
  {
    hide ExchangeTree;
    hide ExchangedUpper;
    hide OnDisk;
    hide Descends;
    ExchangeNodes(s.t, sp, n, dp, m, sp);
    forall x | x in out.t.nodes
      ensures x != out.t.root ==> ListedByParent(out.t, x) && Descends(out.t, x)
      ensures OnDisk(exact, out.layers, PathOf(out.t, x), out.t.nodes[x])
    {
      ExchangedNodeOnDisk(exact, s, sp, n, dp, m, out, x);
      if x != s.t.root {
        ExchangeListed(s.t, sp, n, dp, m, x);
        ExchangeDescends(exact, s, sp, n, dp, m, out.t, x);
      }
    }
  }

  /** Here too the condition is exact. */
  lemma ExchangeIsGroundedIff(s: State, sp: NodeId, n: Name, dp: NodeId, m: Name, out: State)
    requires Grounded(false, s) && Exchanges(s, sp, n, dp, m, out) && LayersOk(out.layers)
    ensures Grounded(false, out) <==> && GoesClear(s, s.t.nodes[sp].Children()[n], PathOf(s.t, dp) + [m])
                                      && GoesClear(s, s.t.nodes[dp].Children()[m], PathOf(s.t, sp) + [n])
  {
    var c, d := s.t.nodes[sp].Children()[n], s.t.nodes[dp].Children()[m];
    if GoesClear(s, c, PathOf(s.t, dp) + [m]) && GoesClear(s, d, PathOf(s.t, sp) + [n]) {
      ExchangeKeepsGround(false, s, sp, n, dp, m, out);
    }
    if Grounded(false, out) {
      forall x | x in s.t.nodes && x != c && PathOf(s.t, c) <= PathOf(s.t, x)
        ensures NotAbove(s.layers, Shift(PathOf(s.t, c), PathOf(s.t, dp) + [m], PathOf(s.t, x)), s.t.nodes[x].layer)
      {
        ExchangedWasClear(s, sp, n, dp, m, out, x);
      }
      forall x | x in s.t.nodes && x != d && PathOf(s.t, d) <= PathOf(s.t, x)
        ensures NotAbove(s.layers, Shift(PathOf(s.t, d), PathOf(s.t, sp) + [n], PathOf(s.t, x)), s.t.nodes[x].layer)
      {
        ExchangedWasClear(s, sp, n, dp, m, out, x);
      }
    }
  }

  lemma ExchangedWasClear(s: State, sp: NodeId, n: Name, dp: NodeId, m: Name, out: State, x: NodeId)
    requires Grounded(false, s) && Exchanges(s, sp, n, dp, m, out) && Grounded(false, out) && x in s.t.nodes
    ensures var c, d := s.t.nodes[sp].Children()[n], s.t.nodes[dp].Children()[m];
            && (PathOf(s.t, c) <= PathOf(s.t, x) ==> NotAbove(s.layers, Shift(PathOf(s.t, c), PathOf(s.t, dp) + [m], PathOf(s.t, x)), s.t.nodes[x].layer))
            && (PathOf(s.t, d) <= PathOf(s.t, x) ==> NotAbove(s.layers, Shift(PathOf(s.t, d), PathOf(s.t, sp) + [n], PathOf(s.t, x)), s.t.nodes[x].layer))
  {
    hide ExchangeTree;
    hide ExchangedUpper;
    hide ExchangedNode;
    hide OnDisk;
    hide NotAbove;
    hide Swap;
    var a, b := PathOf(s.t, sp) + [n], PathOf(s.t, dp) + [m];
    FourNodes(s.t, sp, n, dp, m);
    ChildPathOfEntry(s.t, sp, n);
    ChildPathOfEntry(s.t, dp, m);
    ExchangeNodes(s.t, sp, n, dp, m, x);
    ExchangedPathOf(s.t, sp, n, dp, m, x);
    SameLayerExchanged(s.t, x, sp, n, dp, m, s.t.nodes[sp].Children()[n], s.t.nodes[dp].Children()[m]);
    SwapIsShift(a, b, PathOf(s.t, x));
    OnDiskNotAbove(s.layers, out.layers[0], PathOf(out.t, x), out.t.nodes[x]);
  }

  lemma SwapIsShift(a: Path, b: Path, p: Path)
    requires Apart(a, b)
    ensures a <= p ==> Swap(a, b, p) == Shift(a, b, p)
    ensures b <= p ==> Swap(a, b, p) == Shift(b, a, p)
  {
    PrefixesCompare(a, b, p);
  }

  lemma ExchangeDescends(exact: bool, s: State, sp: NodeId, n: Name, dp: NodeId, m: Name, u: Tree, x: NodeId)
    requires Grounded(exact, s) && ExchangeAllowed(s.t, sp, n, dp, m)
    requires s.t.nodes[s.t.nodes[sp].Children()[n]].layer == 0 && s.t.nodes[s.t.nodes[dp].Children()[m]].layer == 0
    requires u == ExchangeTree(s.t, sp, n, dp, m) && x in s.t.nodes && x in u.nodes && x != s.t.root && ListedByParent(u, x)
    ensures Descends(u, x)
  {
    hide ExchangeTree;
    hide ExchangedNode;
    hide Grounded;
    var c, d, e := s.t.nodes[sp].Children()[n], s.t.nodes[dp].Children()[m], u.nodes[x].parent.value;
    GroundedTree(exact, s);
    FourNodes(s.t, sp, n, dp, m);
    GroundedDescends(exact, s, c);
    GroundedDescends(exact, s, d);
    GroundedDescends(exact, s, x);
    ExchangeNodes(s.t, sp, n, dp, m, x);
    ExchangeNodes(s.t, sp, n, dp, m, e);
    SameLayerExchanged(s.t, x, sp, n, dp, m, c, d);
    SameLayerExchanged(s.t, e, sp, n, dp, m, c, d);
  }

  lemma GroundedTree(exact: bool, s: State)
    requires Grounded(exact, s)
    ensures AllListed(s.t)
  {}

  lemma SameLayerExchanged(t: Tree, x: NodeId, sp: NodeId, n: Name, dp: NodeId, m: Name, c: NodeId, d: NodeId)
    requires x in t.nodes && c in t.nodes && d in t.nodes
    ensures var node := ExchangedNode(t, x, sp, n, dp, m, c, d);
            && node.layer == t.nodes[x].layer
            && node.parent == if x == c then Some(dp) else if x == d then Some(sp) else t.nodes[x].parent
  {}

  lemma ExchangedNodeOnDisk(exact: bool, s: State, sp: NodeId, n: Name, dp: NodeId, m: Name, out: State, x: NodeId)
    requires Grounded(exact, s) && Exchanges(s, sp, n, dp, m, out) && TreeOk(out.t) && x in s.t.nodes && x in out.t.nodes
    requires MayMove(exact, s, s.t.nodes[sp].Children()[n], PathOf(s.t, dp) + [m])
    requires MayMove(exact, s, s.t.nodes[dp].Children()[m], PathOf(s.t, sp) + [n])
    ensures OnDisk(exact, out.layers, PathOf(out.t, x), out.t.nodes[x])
  {
    hide ExchangeTree;
    hide ExchangedUpper;
    hide ExchangedNode;
    hide Swap;
    hide OnDisk;
    var a, b, p := PathOf(s.t, sp) + [n], PathOf(s.t, dp) + [m], PathOf(s.t, x);
    var c, d := s.t.nodes[sp].Children()[n], s.t.nodes[dp].Children()[m];
    FourNodes(s.t, sp, n, dp, m);
    ExchangeNodes(s.t, sp, n, dp, m, x);
    ExchangedMaps(s.t, sp, n, dp, m, c, d, x);
    ExchangedPathOf(s.t, sp, n, dp, m, x);
    assert OnDisk(exact, s.layers, p, s.t.nodes[x]);
    assert OnDisk(exact, s.layers, a, s.t.nodes[c]) && OnDisk(exact, s.layers, b, s.t.nodes[d]);
    if x == c || x == d {
      PairOnDisk(exact, s.layers, a, b, s.t.nodes[c], s.t.nodes[d]);
    } else if a <= p || b <= p {
      BelowExchanged(exact, s, a, b, c, d, x);
    } else {
      AwayFromBoth(a, b, p);
      ExchangedAt(s.layers[0], a, b, p);
      UntouchedOnDisk(exact, s.layers, out.layers[0], p, s.t.nodes[x]);
    }
    SameOnDisk(exact, out.layers, PathOf(out.t, x), s.t.nodes[x], out.t.nodes[x]);
  }

  lemma BelowExchanged(exact: bool, s: State, a: Path, b: Path, c: NodeId, d: NodeId, x: NodeId)
    requires Grounded(exact, s) && c in s.t.nodes && d in s.t.nodes && x in s.t.nodes && x != c && x != d && Apart(a, b)
    requires a == PathOf(s.t, c) && b == PathOf(s.t, d) && (a <= PathOf(s.t, x) || b <= PathOf(s.t, x))
    requires MayMove(exact, s, c, b) && MayMove(exact, s, d, a)
    ensures OnDisk(exact, WithUpper(s.layers, ExchangedUpper(s.layers[0], a, b)), Swap(a, b, PathOf(s.t, x)), s.t.nodes[x])
  {
    hide ExchangedUpper;
    hide Swap;
    hide OnDisk;
    var p := PathOf(s.t, x);
    var r := Swap(a, b, p);
    assert OnDisk(exact, s.layers, p, s.t.nodes[x]);
    if a <= p {
      DirAbove(s.t, c, x);
    } else {
      DirAbove(s.t, d, x);
    }
    OffThePair(a, b, p);
    SwapIsInvolution(a, b, p);
    SwapParent(a, b, p);
    ExchangedAt(s.layers[0], a, b, r);
    SwappedClear(s, a, b, c, d, x);
    MovedAway(s.layers, ExchangedUpper(s.layers[0], a, b), p, r, s.t.nodes[x]);
  }

  lemma SwappedClear(s: State, a: Path, b: Path, c: NodeId, d: NodeId, x: NodeId)
    requires TreeOk(s.t) && c in s.t.nodes && d in s.t.nodes && x in s.t.nodes && x != c && x != d && Apart(a, b)
    requires a == PathOf(s.t, c) && b == PathOf(s.t, d) && (a <= PathOf(s.t, x) || b <= PathOf(s.t, x))
    requires a <= PathOf(s.t, x) ==> GoesClear(s, c, b)
    requires b <= PathOf(s.t, x) ==> GoesClear(s, d, a)
    ensures NotAbove(s.layers, Swap(a, b, PathOf(s.t, x)), s.t.nodes[x].layer)
  {}

  lemma OffThePair(a: Path, b: Path, p: Path)
    requires Apart(a, b) && ((a <= p && p != a) || (b <= p && p != b))
    ensures p != a && p != b && p != []
  {
    PrefixesCompare(a, b, p);
  }

  lemma PairOnDisk(exact: bool, layers: seq<Layer>, a: Path, b: Path, c: Node, d: Node)
    requires layers != [] && Apart(a, b) && OnDisk(exact, layers, a, c) && OnDisk(exact, layers, b, d) && c.layer == 0 && d.layer == 0
    ensures var out := WithUpper(layers, ExchangedUpper(layers[0], a, b)); OnDisk(exact, out, b, c) && OnDisk(exact, out, a, d)
    ensures Swap(a, b, a) == b && Swap(a, b, b) == a
  {
    hide ExchangedUpper;
    SwapIsInvolution(a, b, a);
    SwapIsInvolution(a, b, b);
    ExchangedAt(layers[0], a, b, a);
    ExchangedAt(layers[0], a, b, b);
  }

  lemma AwayFromBoth(a: Path, b: Path, p: Path)
    ensures !(a <= p) && !(b <= p) ==> Swap(a, b, p) == p
  {}

  // ---- Runs ----

  /** Any mount: the root over any layers. */
  ghost predicate MountsAnything(s: State) {
    s.t == MountTree() && LayersOk(s.layers)
  }

  /** A step on any disk that leaves the disk a disk. In the exact case it moves no directory, and
      otherwise only clear of the lower layers. */
  ghost predicate AnyStep(exact: bool, s: State, op: Op, out: State) {
    && Step(s, op, out) && LayersOk(out.layers)
    && match op
       case Create(_, n, _, _, _, _) => !IsWh(n)
       case Rename(sp, n, dp, m, _) =>
         && !IsWh(m) && RenameAllowed(s.t, sp, n, dp, m)
         && MayMove(exact, s, s.t.nodes[sp].Children()[n], PathOf(s.t, dp) + [m])
       case RenameBare(_, _, _, m) => !IsWh(m)
       case Exchange(sp, n, dp, m) =>
         && ExchangeAllowed(s.t, sp, n, dp, m)
         && MayMove(exact, s, s.t.nodes[sp].Children()[n], PathOf(s.t, dp) + [m])
         && MayMove(exact, s, s.t.nodes[dp].Children()[m], PathOf(s.t, sp) + [n])
       case _ => true
  }

  lemma StepKeepsGround(exact: bool, s: State, op: Op, out: State)
    requires Grounded(exact, s) && AnyStep(exact, s, op, out)
    ensures Grounded(exact, out)
  {
    match op
    case Load(d) => LoadKeepsGround(exact, s, d, out);
    case Look(d, n) => LookKeepsGround(exact, s, d, n, out);
    case CopyUp(id) => CopyKeepsGround(exact, s, id, out);
    case Create(d, n, e, staged, sentinel, key) => CreateKeepsGround(exact, s, d, n, e, staged, sentinel, key, out);
    case Remove(d, n, cover) => RemoveKeepsGround(exact, s, d, n, cover, out);
    case Rename(sp, n, dp, m, cover) => RenameKeepsGround(exact, s, sp, n, dp, m, cover, out);
    case Exchange(sp, n, dp, m) => ExchangeKeepsGround(exact, s, sp, n, dp, m, out);
    case RenameBare(sp, n, dp, m) => RenameKeepsGround(exact, s, sp, n, dp, m, Nothing, out);
    case Clear(d, n) => ClearKeepsGround(exact, s, PathOf(s.t, d) + [n], out);
    case CreateBare(d, n, e, staged, sentinel, key) => CreateBareKeepsGround(exact, s, d, n, e, staged, sentinel, key, out);
  }

  ghost predicate IsAnySession(exact: bool, run: seq<State>, ops: seq<Op>) {
    && |run| == |ops| + 1 && MountsAnything(run[0])
    && forall i :: 0 <= i < |ops| ==> AnyStep(exact, run[i], ops[i], run[i + 1])
  }

  lemma MountIsGrounded(exact: bool, s: State)
    requires MountsAnything(s)
    ensures Grounded(exact, s)
  {
    assert LayerOk(s.layers[0]);
    assert TreeOk(s.t);
  }

  lemma {:induction false} RunKeepsGround(exact: bool, run: seq<State>, ops: seq<Op>, i: nat)
    requires IsAnySession(exact, run, ops) && i < |run|
    ensures Grounded(exact, run[i])
  {
    if i == 0 {
      MountIsGrounded(exact, run[0]);
    } else {
      var j := i - 1;
      RunKeepsGround(exact, run, ops, j);
      assert AnyStep(exact, run[j], ops[j], run[j + 1]);
      StepKeepsGround(exact, run[j], ops[j], run[i]);
    }
  }

  /** In every state of every run over any layers in which directories move, if at all, clear of the lower
      layers, as to names that none of them has: a node's layer is not above its parent's, which is what the early exits of
      `create_node_directory` rely on, and no layer above it has its path. If no directory moves, its
      layer has the path. */
  lemma LayersNeverDecrease(exact: bool, run: seq<State>, ops: seq<Op>, i: nat, id: NodeId)
    requires IsAnySession(exact, run, ops) && i < |run| && id in run[i].t.nodes
    ensures TreeOk(run[i].t) && OnDisk(exact, run[i].layers, PathOf(run[i].t, id), run[i].t.nodes[id])
    ensures id != run[i].t.root ==> Descends(run[i].t, id)
  {
    RunKeepsGround(exact, run, ops, i);
    if id != run[i].t.root {
      GroundedDescends(exact, run[i], id);
    }
  }
}
