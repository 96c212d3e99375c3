/** Lookups and scans of a session: the steps that change the cache and leave the disk alone. */
module SessionScan {
  import opened Wrappers
  import opened Names
  import opened NodeTree
  import opened TreeOps
  import opened TreeRuns
  import opened Layers
  import opened Merge
  import opened LazyLookup
  import opened FreshMount
  import opened CleanDisk
  import opened Filling
  import opened Session

  // ---- The steps ----

  /** What `load_dir_impl` makes of the cached maps of a directory. */
  ghost function Rescan(s: State, d: NodeId): Cache
    requires TreeOk(s.t) && d in s.t.nodes && s.t.nodes[d].IsDir()
  {
    ScanFrom(ViewsOf(s.layers, PathOf(s.t, d)), Some(s.t.nodes[d].last), 0, CacheOf(s.t, d))
  }

  /** `reload_dir` of a directory that is not loaded. */
  ghost predicate Loads(s: State, d: NodeId, out: State) {
    && TreeOk(s.t) && d in s.t.nodes && s.t.nodes[d].IsDir() && !s.t.nodes[d].IsLoaded()
    && out.layers == s.layers
    && exists u: Tree :: Filled(s.t, u, d, Rescan(s, d)) && out.t == SetNode(u, d, u.nodes[d].SetLoaded(true))
  }

  /** The effect of a lookup's outcome on the tree. */
  ghost predicate LookedUp(t: Tree, d: NodeId, n: Name, r: Outcome, u: Tree)
    requires d in t.nodes && d in t.chains
  {
    match r
    case Found(seen) =>
      exists key :: u == InsertChild(t, d, NewNode(n, seen.layer, key, seen.isDir).(last := seen.last))
    case HiddenBy(w) => u == SetNode(t, d, t.nodes[d].InsertWhiteout(w))
    case NotFound => u == t
  }

  /** `do_lookup_file` of a name that is in neither map of a directory that is not loaded. */
  ghost predicate Looks(s: State, d: NodeId, n: Name, out: State) {
    && TreeOk(s.t) && d in s.t.nodes && d in s.t.chains && s.t.nodes[d].IsDir() && !s.t.nodes[d].IsLoaded()
    && n !in s.t.nodes[d].Children() && !s.t.nodes[d].IsWhiteout(n)
    && out.layers == s.layers
    && LookedUp(s.t, d, n, LazyResult(ViewsOf(s.layers, PathOf(s.t, d)), s.t.nodes[d].last, n), out.t)
  }

  // ---- Nodes that a scan has seen ----

  /** What scan and lookup report of a name that they find. */
  ghost predicate SeenOn(layers: seq<Layer>, q: Path, s: Seen) {
    IsTopmost(layers, q, s) && forall j :: s.last < j < |layers| ==> q !in layers[j]
  }

  lemma SeenNodeOn(layers: seq<Layer>, q: Path, s: Seen, node: Node)
    requires layers != [] && q != [] && InMerge(layers, Parent(q), Last(q)) && SeenOn(layers, q, s)
    requires SeenOf(node) == s && !node.hidden
    ensures NodeOn(layers, q, node)
  {
    if s.last > 0 {
      InLowerAt(layers, q, s.last);
    }
    assert TopNode(layers, q, s);
  }

  /** A node that was right about its layer and kind, with a new last layer. */
  lemma LastUpdated(layers: seq<Layer>, q: Path, s: Seen, node: Node)
    requires layers != [] && NodeOn(layers, q, node) && SeenOn(layers, q, s)
    ensures NodeOn(layers, q, node.(last := s.last))
  {
    SameTop(layers, q, s, SeenOf(node));
    SeenNodeOn(layers, q, s, node.(last := s.last));
  }

  // ---- A full scan ----

  /** The cached maps agree with the merge, as far as they go. */
  lemma CacheConsistent(s: State, d: NodeId)
    requires Coherent(s) && d in s.t.nodes && s.t.nodes[d].IsDir()
    ensures var views := ViewsOf(s.layers, PathOf(s.t, d));
            Consistent(views, ScanEnd(views, Some(s.t.nodes[d].last)), CacheOf(s.t, d))
  {
    var p, bound, c := PathOf(s.t, d), s.t.nodes[d].last, CacheOf(s.t, d);
    var views := ViewsOf(s.layers, p);
    DirScannable(s, d);
    assert NodeFine(s, d);
    forall n
      ensures n in c.children ==> Visible(views, ScanEnd(views, Some(bound)), n)
      ensures n in c.whiteouts ==> !Visible(views, ScanEnd(views, Some(bound)), n) && !IsWh(n)
    {
      VisibleIsInMerge(s.layers, p, bound, n);
      if n in c.children {
        ChildShown(s, d, n);
      }
    }
  }

  /** What a full scan of a directory leaves in its maps, at one name. */
  ghost predicate FullAt(layers: seq<Layer>, p: Path, c: Cache, n: Name)
    requires layers != []
  {
    && (n in c.children <==> InMerge(layers, p, n))
    && (n in c.children ==> SeenOn(layers, p + [n], c.children[n]))
    && (n in c.whiteouts ==> !InMerge(layers, p, n) && !IsWh(n))
    && (p in layers[0] && Ordinary(n) && UpperHides(layers, p, n) ==> n in c.whiteouts)
  }

  /** The layer and kind of a cached child are those that a scan from empty maps finds. */
  lemma CachedAsScanned(s: State, d: NodeId, n: Name)
    requires Coherent(s) && d in s.t.nodes && s.t.nodes[d].IsDir() && n in s.t.nodes[d].Children()
    ensures var c0, m := CacheOf(s.t, d), ScanOf(s.layers, PathOf(s.t, d), s.t.nodes[d].last);
            n in c0.children && n in m.children && c0.children[n].(last := m.children[n].last) == m.children[n]
  {
    CoherentChild(s, d, n);
  }

  /** Reloading a directory of a coherent session gives the children of a scan from empty maps,
      whatever part of them was cached before. */
  lemma ReloadIsFreshScan(s: State, d: NodeId)
    requires Coherent(s) && d in s.t.nodes && s.t.nodes[d].IsDir()
    ensures var m := ScanOf(s.layers, PathOf(s.t, d), s.t.nodes[d].last);
            Rescan(s, d) == Cache(m.children, s.t.nodes[d].dir.whiteouts + m.whiteouts)
  {
    var p, bound, c0, c := PathOf(s.t, d), s.t.nodes[d].last, CacheOf(s.t, d), Rescan(s, d);
    var views, m := ViewsOf(s.layers, p), ScanOf(s.layers, p, bound);
    DirScannable(s, d);
    CacheConsistent(s, d);
    CleanMarkers(s.layers, p);
    RescanCompletes(views, Some(bound), c0);
    forall n | n in c.children
      ensures c.children[n] == m.children[n]
    {
      if n in c0.children {
        CachedAsScanned(s, d, n);
      }
    }
    assert c.children == m.children;
  }

  lemma RescanIsFull(s: State, d: NodeId, n: Name)
    requires Coherent(s) && d in s.t.nodes && s.t.nodes[d].IsDir()
    ensures FullAt(s.layers, PathOf(s.t, d), Rescan(s, d), n)
  {
    ReloadIsFreshScan(s, d);
    DirScannable(s, d);
    CleanScan(s.layers, PathOf(s.t, d), s.t.nodes[d].last, n);
    assert NodeFine(s, d);
  }

  ghost predicate FullCache(layers: seq<Layer>, p: Path, c: Cache)
    requires layers != []
  {
    forall n :: FullAt(layers, p, c, n)
  }

  /** The maps of `d` have been filled with all that the disk shows of it. */
  ghost predicate FilledInFull(s: State, d: NodeId, c: Cache, u: Tree) {
    Coherent(s) && Filled(s.t, u, d, c) && FullCache(s.layers, PathOf(s.t, d), c)
  }

  lemma NewNodeFine(s: State, d: NodeId, c: Cache, u: Tree, x: NodeId)
    requires FilledInFull(s, d, c, u) && x in u.nodes && x !in s.t.nodes
    ensures NodeFine(State(u, s.layers), x)
  {
    NewChildPath(s.t, u, d, c, x);
    var p, n := PathOf(s.t, d), u.nodes[x].name;
    assert CacheOf(u, d).children[n] == SeenOf(u.nodes[x]);
    assert FullAt(s.layers, p, c, n);
    assert Parent(p + [n]) == p && Last(p + [n]) == n;
    SeenNodeOn(s.layers, p + [n], c.children[n], u.nodes[x]);
  }

  lemma OldChildFine(s: State, d: NodeId, c: Cache, u: Tree, x: NodeId)
    requires FilledInFull(s, d, c, u) && x in s.t.nodes && x != d && x != s.t.root && s.t.nodes[x].parent == Some(d)
    ensures ListedByParent(u, x) && NodeOn(s.layers, PathOf(s.t, x), u.nodes[x])
  {
    assert NodeFine(s, x) && OnlyLast(s.t, u, d, x);
    var p, n := PathOf(s.t, d), s.t.nodes[x].name;
    PathSplits(s.t, x);
    assert u.nodes[d].Children()[n] == x;
    assert CacheOf(u, d).children[n] == SeenOf(u.nodes[x]);
    assert FullAt(s.layers, p, c, n);
    LastUpdated(s.layers, p + [n], c.children[n], s.t.nodes[x]);
  }

  lemma StillListed(t: Tree, u: Tree, d: NodeId, c: Cache, x: NodeId)
    requires Filled(t, u, d, c) && x in t.nodes && ListedByParent(t, x)
    ensures ListedByParent(u, x)
  {
    var e := t.nodes[x].parent.value;
    assert x != d ==> OnlyLast(t, u, d, x);
    assert e != d ==> OnlyLast(t, u, d, e);
  }

  lemma OldNodeFine(s: State, d: NodeId, c: Cache, u: Tree, x: NodeId)
    requires FilledInFull(s, d, c, u) && x in s.t.nodes && x != d
    ensures NodeFine(State(u, s.layers), x)
  {
    assert NodeFine(s, x) && OnlyLast(s.t, u, d, x);
    FilledKeepsPath(s.t, u, d, c, x);
    if x != s.t.root {
      StillListed(s.t, u, d, c, x);
      if s.t.nodes[x].parent == Some(d) {
        OldChildFine(s, d, c, u, x);
      }
    }
  }

  lemma LoadedDir(layers: seq<Layer>, p: Path, c: Cache, node: Node)
    requires layers != [] && FullCache(layers, p, c)
    requires node.IsDir() && node.dir.children.Keys == c.children.Keys && node.dir.whiteouts == c.whiteouts
    ensures DirOn(layers, p, node)
  {
    forall n
      ensures n in node.dir.whiteouts ==> !InMerge(layers, p, n) && !IsWh(n)
      ensures InMerge(layers, p, n) ==> n in node.dir.children
      ensures p in layers[0] && Ordinary(n) && UpperHides(layers, p, n) ==> n in node.dir.whiteouts
    {
      assert FullAt(layers, p, c, n);
    }
  }

  lemma LoadedFine(s: State, d: NodeId, c: Cache, u: Tree)
    requires FilledInFull(s, d, c, u)
    requires TreeOk(SetNode(u, d, u.nodes[d].SetLoaded(true))) && PathOf(SetNode(u, d, u.nodes[d].SetLoaded(true)), d) == PathOf(s.t, d)
    ensures NodeFine(State(SetNode(u, d, u.nodes[d].SetLoaded(true)), s.layers), d)
  {
    assert NodeFine(s, d);
    LoadedMaps(s.t, u, d, c);
    LoadedDir(s.layers, PathOf(s.t, d), c, u.nodes[d].SetLoaded(true));
    if d != s.t.root {
      SelfListed(s.t, u, d, c);
    }
  }

  lemma LoadedMaps(t: Tree, u: Tree, d: NodeId, c: Cache)
    requires Filled(t, u, d, c)
    ensures var node := u.nodes[d].SetLoaded(true);
            && node.IsDir() && node.dir.children.Keys == c.children.Keys && node.dir.whiteouts == c.whiteouts
            && node.parent == t.nodes[d].parent && node.name == t.nodes[d].name && node.layer == t.nodes[d].layer
            && node.last == t.nodes[d].last && node.hidden == t.nodes[d].hidden
  {
    assert CacheOf(u, d) == c;
  }

  lemma SelfListed(t: Tree, u: Tree, d: NodeId, c: Cache)
    requires Filled(t, u, d, c) && ListedByParent(t, d)
    ensures ListedByParent(SetNode(u, d, u.nodes[d].SetLoaded(true)), d)
  {
    StillListed(t, u, d, c, d);
    ChildNotAbove(u, u.nodes[d].parent.value, u.nodes[d].name);
  }

  lemma FillKeepsCoherence(s: State, d: NodeId, c: Cache, u: Tree)
    requires FilledInFull(s, d, c, u)
    ensures Coherent(State(SetNode(u, d, u.nodes[d].SetLoaded(true)), s.layers))
  {
    var v := SetNode(u, d, u.nodes[d].SetLoaded(true));
    SetNodeOk(u, d, u.nodes[d].SetLoaded(true));
    forall x | x in v.nodes
      ensures NodeFine(State(v, s.layers), x)
    {
      SameLinksSamePaths(u, v, x);
      if x == d {
        FilledKeepsPath(s.t, u, d, c, d);
        LoadedFine(s, d, c, u);
      } else {
        if x in s.t.nodes {
          OldNodeFine(s, d, c, u, x);
        } else {
          NewNodeFine(s, d, c, u, x);
        }
        FlagKeepsNode(s.layers, u, d, v, x);
      }
    }
  }

  /** A scan of a directory keeps the session coherent. */
  lemma LoadKeepsCoherence(s: State, d: NodeId, out: State)
    requires Coherent(s) && Loads(s, d, out)
    ensures Coherent(out)
  {
    var c := Rescan(s, d);
    var u: Tree :| Filled(s.t, u, d, c) && out.t == SetNode(u, d, u.nodes[d].SetLoaded(true));
    forall n
      ensures FullAt(s.layers, PathOf(s.t, d), c, n)
    {
      RescanIsFull(s, d, n);
    }
    FillKeepsCoherence(s, d, c, u);
  }

  // ---- A lookup ----

  lemma InsertKeepsDir(layers: seq<Layer>, p: Path, node: Node, n: Name, x: NodeId)
    requires Clean(layers) && DirOn(layers, p, node) && InMerge(layers, p, n)
    ensures DirOn(layers, p, node.InsertChild(n, x))
  {
    InMergeIsOrdinary(layers, p, n);
  }

  /** A new child whose numbers are those of the disk, in a directory that did not have it. */
  lemma InsertKeepsCoherence(s: State, d: NodeId, node: Node)
    requires Coherent(s) && d in s.t.nodes && s.t.nodes[d].IsDir() && ValidName(node.name) && node.Children() == map[]
    requires node.name !in s.t.nodes[d].Children()
    requires var q := PathOf(s.t, d) + [node.name];
             NodeOn(s.layers, q, node.(parent := Some(d))) && DirOn(s.layers, q, node.(parent := Some(d)))
    ensures Coherent(State(InsertChild(s.t, d, node), s.layers))
  {
    var q := PathOf(s.t, d) + [node.name];
    assert Parent(q) == PathOf(s.t, d) && Last(q) == node.name;
    assert NodeFine(s, d);
    InsertKeepsDir(s.layers, PathOf(s.t, d), s.t.nodes[d], node.name, s.t.nextId);
    InsertCoherent(s.t, s.layers, d, node);
  }

  /** Changes of a directory's whiteouts and its loaded flag. */
  lemma SetDirKeepsCoherence(s: State, d: NodeId, node: Node)
    requires Coherent(s) && d in s.t.nodes && DirOn(s.layers, PathOf(s.t, d), node)
    requires node == s.t.nodes[d].(dir := node.dir) && node.Children() == s.t.nodes[d].Children()
    requires node.IsDir() <==> s.t.nodes[d].IsDir()
    ensures Coherent(State(SetNode(s.t, d, node), s.layers))
  {
    assert NodeFine(s, d);
    SetNodeCoherent(s.t, s.layers, d, node);
  }

  lemma WhiteoutKeepsCoherence(s: State, d: NodeId, n: Name)
    requires Coherent(s) && d in s.t.nodes && s.t.nodes[d].IsDir()
    requires !InMerge(s.layers, PathOf(s.t, d), n) && !IsWh(n)
    ensures Coherent(State(SetNode(s.t, d, s.t.nodes[d].InsertWhiteout(n)), s.layers))
  {
    assert NodeFine(s, d);
    SetDirKeepsCoherence(s, d, s.t.nodes[d].InsertWhiteout(n));
  }

  lemma FoundKeepsCoherence(s: State, d: NodeId, n: Name, seen: Seen, out: State)
    requires Coherent(s) && d in s.t.nodes && d in s.t.chains && s.t.nodes[d].IsDir() && n !in s.t.nodes[d].Children()
    requires var q := PathOf(s.t, d) + [n]; IsTopmost(s.layers, q, seen) && forall j :: seen.last < j < |s.layers| ==> q !in s.layers[j]
    requires InMerge(s.layers, PathOf(s.t, d), n)
    requires out.layers == s.layers && LookedUp(s.t, d, n, Found(seen), out.t)
    ensures Coherent(out) && d in out.t.nodes && n in out.t.nodes[d].Children()
  {
    var p := PathOf(s.t, d);
    var key :| out.t == InsertChild(s.t, d, NewNode(n, seen.layer, key, seen.isDir).(last := seen.last));
    var node := NewNode(n, seen.layer, key, seen.isDir).(last := seen.last);
    assert Parent(p + [n]) == p && Last(p + [n]) == n;
    InMergeIsOrdinary(s.layers, p, n);
    SeenNodeOn(s.layers, p + [n], seen, node.(parent := Some(d)));
    InsertKeepsCoherence(s, d, node);
  }

  /** A lookup keeps the session coherent, and finds the name exactly if it is shown. */
  lemma LookKeepsCoherence(s: State, d: NodeId, n: Name, out: State)
    requires Coherent(s) && Looks(s, d, n, out) && !IsWh(n)
    ensures Coherent(out)
    ensures d in out.t.nodes && (n in out.t.nodes[d].Children() <==> InMerge(s.layers, PathOf(s.t, d), n))
  {
    var p, bound := PathOf(s.t, d), s.t.nodes[d].last;
    DirScannable(s, d);
    if Ordinary(n) {
      CleanLookup(s.layers, p, bound, n);
    } else {
      CleanLookupNone(s.layers, p, bound, n);
    }
    hide LazyResult;
    match LazyResult(ViewsOf(s.layers, p), bound, n)
    case Found(seen) => FoundKeepsCoherence(s, d, n, seen, out);
    case HiddenBy(w) => WhiteoutKeepsCoherence(s, d, n);
    case NotFound =>
  }
}
