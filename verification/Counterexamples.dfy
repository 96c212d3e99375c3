/** Runs that show where the engine does not do what users expect, one for each condition that is
    proved exact elsewhere: the conditions are not vacuous. */
module Counterexamples {
  import opened Wrappers
  import opened Names
  import opened NodeTree
  import opened TreeOps
  import opened TreeRuns
  import opened Layers
  import opened Merge
  import opened LazyLookup
  import opened FreshMount
  import opened DiskChanges
  import opened Removal
  import opened CleanDisk
  import opened Filling
  import opened Session
  import opened SessionFrame
  import opened SessionScan
  import opened SessionDisk
  import opened DiskRename
  import opened SessionRename
  import opened Clearing
  import opened RenameUncovered
  import opened DiskExchange
  import opened SessionExchange
  import opened Unregistered
  import opened OverlayRename
  import opened OpaqueLookups
  import opened Coherence

  const EMPTY_FILE := File(Regular([]))
  const ROOT: NodeId := 1
  const KEY := InodeKey(0, 0)

  // ---- A lookup goes on where the scan stops ----

  /** An opaque directory on the upper layer over one that lists a name: the scan stops at the opaque
      one, and the lookup of the name looks past it. */
  lemma LookupSeesPastOpaque()
    ensures var layers := [OPAQUE_D, WITH_DA];
            && LayersOk(layers) && "a" !in ScanOf(layers, ["d"], 1).children
            && LazyResult(ViewsOf(layers, ["d"]), 1, "a") == Found(Seen(1, 1, false))
            && !Agree(ViewsOf(layers, ["d"]), 1, "a")
  {
    var layers := [OPAQUE_D, WITH_DA];
    var v := ViewsOf(layers, ["d"]);
    assert LayerOk(OPAQUE_D) && LayerOk(WITH_DA) by {
      assert Last(["d"]) == "d" && Parent(["d"]) == [] && Parent(["d", "a"]) == ["d"] && Last(["d", "a"]) == "a";
      assert EntryPlaced(OPAQUE_D, ["d"]) && EntryPlaced(WITH_DA, ["d"]) && EntryPlaced(WITH_DA, ["d", "a"]);
    }
    OpaqueView();
    LowerView();
    FoundOnSecond(v, 1, "a");
    EagerScanIsMerge(v, Some(1));
    assert ScanEnd(v, Some(1)) == 1;
  }

  const OPAQUE_D: Layer := map[[] := Entry.Dir(false), ["d"] := Entry.Dir(true)]
  const WITH_DA: Layer := map[[] := Entry.Dir(false), ["d"] := Entry.Dir(false), ["d", "a"] := EMPTY_FILE]

  lemma OpaqueView()
    ensures ViewOf(OPAQUE_D, ["d"]) == Listing(map[], true)
  {
    assert forall n: Name :: ["d"] + [n] !in OPAQUE_D;
    assert Listed(OPAQUE_D, ["d"]) == {};
  }

  lemma LowerView()
    ensures ViewOf(WITH_DA, ["d"]) == Listing(map["a" := FileItem], false)
  {
    forall n: Name
      ensures ["d"] + [n] in WITH_DA <==> n == "a"
    {
      assert (["d"] + [n])[1] == n && ["d", "a"][1] == "a";
      assert ["d"] + ["a"] == ["d", "a"];
    }
    assert OPAQUE_WHITEOUT != "a" by { assert |OPAQUE_WHITEOUT| == 12; }
    assert Listed(WITH_DA, ["d"]) == {"a"};
  }

  /** The same below the layer that a directory is found on: its lookup does not ask whether the next layer
      has it as an opaque one, and the lookup of a name in it looks past that layer. */
  lemma LookupSeesPastLowerOpaque()
    ensures var layers := [WITH_D, OPAQUE_D, WITH_DA];
            && LayersOk(layers) && IsOpaque(layers[1], ["d"])
            && Lookup(layers, [], 0, "d") == Found(Seen(0, 2, true))
            && Lookup(layers, ["d"], 2, "a").Found? && Lookup(layers, ["d"], 2, "a").seen.layer == 2
            && "a" !in ScanOf(layers, ["d"], 2).children
  {
    hide Lookup;
    hide ScanOf;
    var layers := [WITH_D, OPAQUE_D, WITH_DA];
    ThreeLayersOk();
    FindsD(layers);
    FirstA(layers);
    assert [] + ["d"] == ["d"];
    FirstDecides(layers, ["d"], 2, "a", 2);
    ScanStopsAtOpaque(layers);
  }

  lemma ThreeLayersOk()
    ensures LayersOk([WITH_D, OPAQUE_D, WITH_DA])
  {
    assert Last(["d"]) == "d" && Parent(["d"]) == [] && Parent(["d", "a"]) == ["d"] && Last(["d", "a"]) == "a";
    assert EntryPlaced(WITH_D, ["d"]) && EntryPlaced(OPAQUE_D, ["d"]) && EntryPlaced(WITH_DA, ["d"]) && EntryPlaced(WITH_DA, ["d", "a"]);
    assert LayerOk(WITH_D) && LayerOk(OPAQUE_D) && LayerOk(WITH_DA);
  }

  lemma FindsD(layers: seq<Layer>)
    requires layers == [WITH_D, OPAQUE_D, WITH_DA] && LayersOk(layers)
    ensures Lookup(layers, [], 0, "d") == Found(Seen(0, 2, true))
  {
    hide ViewsOf;
    hide LayersOk;
    forall i: nat | i < 3
      ensures var v := ViewsOf(layers, [])[i]; !v.StatFailed? && "d" in Items(v) && WhName("d") !in Items(v)
      ensures Items(ViewsOf(layers, [])[i])["d"] == ItemAt(layers[i], ["d"])
    {
      DInLayers(layers[i]);
      ItemsOnDisk(layers, [], i, "d");
      ItemsOnDisk(layers, [], i, WhName("d"));
    }
    assert ["d"] + [OPAQUE_WHITEOUT] !in WITH_D by { assert |["d"] + [OPAQUE_WHITEOUT]| == 2; }
    FoundThroughout(ViewsOf(layers, []), "d");
  }

  lemma DInLayers(l: Layer)
    requires l in {WITH_D, OPAQUE_D, WITH_DA}
    ensures [] + ["d"] == ["d"] && [] + ["d"] in l && l[["d"]].Dir? && [] + [WhName("d")] !in l
  {
    assert ([] + [WhName("d")])[0] == WhName("d") && |WhName("d")| == 5;
  }

  lemma FoundThroughout(views: seq<View>, n: Name)
    requires |views| == 3 && !IsWh(n)
    requires forall i :: 0 <= i < 3 ==> !views[i].StatFailed? && n in Items(views[i]) && WhName(n) !in Items(views[i])
    requires Items(views[0])[n] == DirItem(false)
    ensures LazyResult(views, 0, n) == Found(Seen(0, 2, true))
  {
    LookupOutcome(views, 0, n, Found(Seen(0, 2, true)));
  }

  lemma FirstA(layers: seq<Layer>)
    requires layers == [WITH_D, OPAQUE_D, WITH_DA]
    ensures FirstOn(layers, ["d"], "a", 2) && IsOpaque(layers[1], ["d"])
  {
    assert ["d"] + ["a"] == ["d", "a"];
    assert (["d"] + [WhName("a")])[1] == WhName("a") && |WhName("a")| == 5;
  }

  lemma ScanStopsAtOpaque(layers: seq<Layer>)
    requires layers == [WITH_D, OPAQUE_D, WITH_DA]
    ensures "a" !in ScanOf(layers, ["d"], 2).children
  {
    var views := ViewsOf(layers, ["d"]);
    OpaqueView();
    forall n: Name
      ensures ["d"] + [n] !in WITH_D
    {}
    assert Listed(WITH_D, ["d"]) == {};
    ScanShowsWhatIsReached(views, Some(2), "a");
    assert views[1] == Listing(map[], true);
  }

  /** A lookup that finds a file on the second of two layers. */
  lemma FoundOnSecond(v: seq<View>, bound: nat, n: Name)
    requires |v| == 2 && v[0].Listing? && v[1].Listing? && !IsWh(n) && bound <= 1
    requires n !in v[0].items && WhName(n) !in v[0].items
    requires n in v[1].items && v[1].items[n] == FileItem && WhName(n) !in v[1].items
    ensures LazyResult(v, bound, n) == Found(Seen(1, 1, false))
  {
    assert LazyFrom(v, bound, 2, n, Some(Seen(1, 1, false))) == Found(Seen(1, 1, false));
    assert LazyFrom(v, bound, 1, n, None) == Found(Seen(1, 1, false));
  }

  /** The marker of `.opq`, beside a marker that hides it: the scan passes over it, and the lookup
      remembers `.opq` as a whiteout. */
  lemma LookupRemembersOpq()
    ensures var layers := [OPQ_MARKED];
            && LayersOk(layers) && LazyResult(ViewsOf(layers, []), 0, ".opq") == HiddenBy(".opq")
            && ".opq" !in ScanOf(layers, [], 0).whiteouts
  {
    hide LazyResult;
    hide LayerOk;
    hide ViewOf;
    hide ScanFrom;
    var v := ViewsOf([OPQ_MARKED], []);
    OpqView();
    OpqLayerOk();
    OpqNames();
    HiddenOnFirst(v, 0, ".opq");
    OpqNotHidden(v);
  }

  lemma OpqLayerOk()
    ensures LayerOk(OPQ_MARKED)
  {
    assert Last([".wh..opq"]) == ".wh..opq" && Last([OPAQUE_WHITEOUT]) == OPAQUE_WHITEOUT;
    assert Parent([".wh..opq"]) == [] && Parent([OPAQUE_WHITEOUT]) == [];
  }

  lemma OpqNames()
    ensures WhName(".opq") == ".wh..opq" && WhName(".wh..opq") == OPAQUE_WHITEOUT
    ensures ".opq" != ".wh..opq" && ".opq" != OPAQUE_WHITEOUT && ".wh..opq" != OPAQUE_WHITEOUT
  {
    assert |".opq"| == 4 && |".wh..opq"| == 8 && |OPAQUE_WHITEOUT| == 12;
  }

  lemma OpqNotHidden(v: seq<View>)
    requires |v| == 1 && v[0] == Listing(map[".wh..opq" := FileItem, OPAQUE_WHITEOUT := FileItem], true)
    ensures ".opq" !in ScanFrom(v, Some(0), 0, EMPTY).whiteouts
  {
    OpqNames();
    HidesUnfolded(v, 0, ".opq");
    EagerScanIsMerge(v, Some(0));
  }

  const OPQ_MARKED: Layer := map[[] := Entry.Dir(false), [".wh..opq"] := EMPTY_FILE, [OPAQUE_WHITEOUT] := EMPTY_FILE]

  lemma OpqListed()
    ensures Listed(OPQ_MARKED, []) == {".wh..opq", OPAQUE_WHITEOUT} && forall n: Name :: [] + [n] == [n]
  {
    var root: Path := [];
    forall n: Name
      ensures root + [n] == [n] && ([n] in OPQ_MARKED <==> n == ".wh..opq" || n == OPAQUE_WHITEOUT)
    {
      assert [n][0] == n && [".wh..opq"][0] == ".wh..opq" && [OPAQUE_WHITEOUT][0] == OPAQUE_WHITEOUT;
    }
  }

  lemma OpqView()
    ensures ViewOf(OPQ_MARKED, []) == Listing(map[".wh..opq" := FileItem, OPAQUE_WHITEOUT := FileItem], true)
  {
    hide Listed;
    OpqNames();
    OpqListed();
    assert ItemAt(OPQ_MARKED, [] + [".wh..opq"]) == FileItem;
    assert ItemAt(OPQ_MARKED, [] + [OPAQUE_WHITEOUT]) == FileItem;
  }

  // ---- What single steps do to the tree ----

  lemma Inserts(t: Tree, d: NodeId, node: Node)
    requires TreeOk(t) && d in t.nodes && t.nodes[d].IsDir() && ValidName(node.name) && node.Children() == map[]
    ensures var u, x := InsertChild(t, d, node), t.nextId;
            && TreeOk(u) && d in u.nodes && d in u.chains && x in u.nodes && x != d && x != u.root && u.root == t.root
            && u.nodes == t.nodes[x := node.(parent := Some(d))][d := t.nodes[d].InsertChild(node.name, x)]
            && PathOf(u, x) == PathOf(t, d) + [node.name] && PathOf(u, d) == PathOf(t, d) && EntryOk(u, d, node.name)
  {
    InsertChildOk(t, d, node);
    InsertChildInserts(t, d, node);
  }

  lemma Removes1(t: Tree, d: NodeId, n: Name)
    requires TreeOk(t) && d in t.nodes && n in t.nodes[d].Children()
    ensures var u, c := RmTree(t, d, n), t.nodes[d].Children()[n];
            && TreeOk(u) && d in u.nodes && d in u.chains && u.root == t.root && c != d && c in t.nodes && c != t.root
            && u.nodes == t.nodes[d := t.nodes[d].SetLoaded(false).RemoveChild(n)] - {c}
            && PathOf(u, d) == PathOf(t, d) && EntryOk(t, d, n) && PathOf(t, c) == PathOf(t, d) + [n]
  {
    RmTreeOk(t, d, n);
    RmNodes(t, d, n);
    ChildNotAbove(t, d, n);
    ChildPathOfEntry(t, d, n);
  }

  lemma Sets(t: Tree, id: NodeId, node: Node)
    requires TreeOk(t) && id in t.nodes && node.parent == t.nodes[id].parent && node.name == t.nodes[id].name
    requires node.Children() == t.nodes[id].Children() && (node.IsDir() <==> t.nodes[id].IsDir())
    ensures var u := SetNode(t, id, node);
            && TreeOk(u) && u.root == t.root && u.nodes == t.nodes[id := node] && u.chains == t.chains && u.nextId == t.nextId
            && forall x :: x in t.nodes ==> PathOf(u, x) == PathOf(t, x)
  {
    SetNodeOk(t, id, node);
    forall x | x in t.nodes
      ensures PathOf(SetNode(t, id, node), x) == PathOf(t, x)
    {
      SameLinksSamePaths(t, SetNode(t, id, node), x);
    }
  }

  // ---- Unlink, create, unlink ----

  const BARE: Layer := map[[] := Entry.Dir(false)]
  const WITH_A: Layer := map[[] := Entry.Dir(false), ["a"] := EMPTY_FILE]

  /** The root directory over a lower layer with the file `a`. */
  ghost function Mounted(): State {
    State(MountTree(), [BARE, WITH_A])
  }

  lemma LayersAreOk()
    ensures LayersOk([BARE, WITH_A]) && CleanLower(WITH_A)
  {
    assert Last(["a"]) == "a" && Parent(["a"]) == [];
    assert LayerOk(BARE) && LayerOk(WITH_A);
    assert forall p :: p in WITH_A ==> CleanEntry(WITH_A, p);
  }

  lemma MountedIsMount()
    ensures Mounts(Mounted()) && Coherent(Mounted())
  {
    LayersAreOk();
    MountIsCoherent(Mounted());
  }

  /** What the root lists on a layer with at most the entry `a`. */
  lemma RootItems(l: Layer)
    requires l.Keys <= {[], ["a"]} && [] in l && l[[]] == Entry.Dir(false)
    ensures ViewOf(l, []).Listing?
    ensures forall n :: n in ViewOf(l, []).items <==> n == "a" && ["a"] in l
    ensures ["a"] in l && !l[["a"]].Dir? ==> ViewOf(l, []).items["a"] == if l[["a"]] == Whiteout then WhiteoutItem else FileItem
    ensures "a" != WhName("a")
  {
    var root: Path := [];
    forall n: Name
      ensures root + [n] == [n] && (root + [n] in l <==> n == "a" && ["a"] in l)
    {
      assert [n][0] == n && ["a"][0] == "a";
    }
    assert |WhName("a")| == 5;
  }

  /** The root with the given maps and, if it lists `a`, the node for it. */
  ghost predicate AtRoot(s: State, whiteouts: set<Name>, child: Option<(NodeId, Node)>, upper: Layer) {
    && TreeOk(s.t) && s.t.root == ROOT && ROOT in s.t.nodes && ROOT in s.t.chains && PathOf(s.t, ROOT) == [] && s.layers == [upper, WITH_A]
    && s.t.nodes[ROOT].layer == 0 && s.t.nodes[ROOT].last == 0
    && if child.None? then s.t.nodes[ROOT].dir == DirState.Dir(map[], whiteouts, false)
       else
         var (c, node) := child.value;
         && c in s.t.nodes && c != ROOT && s.t.nodes[ROOT].dir == DirState.Dir(map["a" := c], whiteouts, false)
         && s.t.nodes[c] == node && PathOf(s.t, c) == ["a"] && EntryOk(s.t, ROOT, "a")
  }

  function FileNode(layer: nat, last: nat): Node {
    Node(Some(ROOT), "a", DirState.NotADir, layer, last, KEY, false)
  }

  lemma MountFacts()
    ensures var t := Mounted().t;
            && TreeOk(t) && ROOT in t.nodes && ROOT in t.chains && t.nodes[ROOT] == NewNode("", 0, KEY, true) && PathOf(t, ROOT) == []
    ensures LazyResult(ViewsOf(Mounted().layers, []), 0, "a") == Found(Seen(1, 1, false))
  {
    MountedIsMount();
    RootItems(BARE);
    RootItems(WITH_A);
    FoundOnSecond(ViewsOf(Mounted().layers, []), 0, "a");
  }

  lemma FirstLook(s: State) returns (out: State, c: NodeId)
    requires s == Mounted()
    ensures Step(s, Op.Look(ROOT, "a"), out) && AtRoot(out, {}, Some((c, FileNode(1, 1))), BARE)
  {
    hide TreeOk;
    hide LazyResult;
    hide InsertChild;
    var node := NewNode("a", 1, KEY, false).(last := 1);
    MountFacts();
    Inserts(s.t, ROOT, node);
    assert [] + ["a"] == ["a"];
    out, c := State(InsertChild(s.t, ROOT, node), s.layers), s.t.nextId;
    assert LookedUp(s.t, ROOT, "a", Found(Seen(1, 1, false)), out.t);
    assert map[]["a" := c] == map["a" := c] && {} - {"a"} == {};
  }

  lemma CopiedUp(s: State, c: NodeId) returns (out: State)
    requires AtRoot(s, {}, Some((c, FileNode(1, 1))), BARE)
    ensures Step(s, Op.CopyUp(c), out) && AtRoot(out, {}, Some((c, FileNode(0, 1))), WITH_A)
  {
    hide TreeOk;
    Sets(s.t, c, FileNode(0, 1));
    assert BARE[["a"] := EMPTY_FILE] == WITH_A;
    out := State(SetNode(s.t, c, FileNode(0, 1)), [WITH_A, WITH_A]);
    assert EntryOk(out.t, ROOT, "a");
    assert out.layers == WithUpper(s.layers, WITH_A);
  }

  lemma Unlinked(s: State, c: NodeId, last: nat, cover: Cover, upper: Layer) returns (out: State)
    requires AtRoot(s, {}, Some((c, FileNode(0, last))), WITH_A)
    requires cover == if last > 0 then Device else Nothing
    requires upper == if last > 0 then BARE[["a"] := Entry.Whiteout] else BARE
    ensures Step(s, Op.Remove(ROOT, "a", cover), out) && AtRoot(out, {}, None, upper)
  {
    hide TreeOk;
    Removes1(s.t, ROOT, "a");
    assert [] + ["a"] == ["a"];
    assert map["a" := c] - {"a"} == map[];
    assert WithoutSubtree(WITH_A, ["a"]) == BARE;
    out := State(RmTree(s.t, ROOT, "a"), [upper, WITH_A]);
    assert out.layers == Removed(s.layers, ["a"], cover);
  }

  lemma WhitedA()
    ensures LazyResult(ViewsOf([BARE[["a"] := Entry.Whiteout], WITH_A], []), 0, "a") == HiddenBy("a") && !IsWh("a")
  {
    RootItems(BARE[["a"] := Entry.Whiteout]);
  }

  lemma SecondLook(s: State) returns (out: State)
    requires AtRoot(s, {}, None, BARE[["a"] := Entry.Whiteout])
    ensures Step(s, Op.Look(ROOT, "a"), out) && AtRoot(out, {"a"}, None, BARE[["a"] := Entry.Whiteout])
  {
    hide TreeOk;
    hide LazyResult;
    WhitedA();
    Sets(s.t, ROOT, s.t.nodes[ROOT].InsertWhiteout("a"));
    assert {} + {"a"} == {"a"};
    out := State(SetNode(s.t, ROOT, s.t.nodes[ROOT].InsertWhiteout("a")), s.layers);
  }

  lemma Created(s: State) returns (out: State, c: NodeId)
    requires AtRoot(s, {"a"}, None, BARE[["a"] := Entry.Whiteout])
    ensures Step(s, Op.Create(ROOT, "a", EMPTY_FILE, true, false, KEY), out) && AtRoot(out, {}, Some((c, FileNode(0, 0))), WITH_A)
  {
    hide TreeOk;
    var node := NewNode("a", 0, KEY, false).SetLoaded(true);
    Inserts(s.t, ROOT, node);
    assert [] + ["a"] == ["a"];
    assert {"a"} - {"a"} == {};
    assert |WhName("a")| == 5 && MarkerOf(["a"]) != ["a"];
    assert MadeUpper(BARE[["a"] := Entry.Whiteout], ["a"], EMPTY_FILE, false) == WITH_A;
    out, c := State(InsertChild(s.t, ROOT, node), [WITH_A, WITH_A]), s.t.nextId;
    assert out.layers == WithUpper(s.layers, WITH_A);
  }

  /** Unlink, create and unlink the name `a` of the root, which a lower layer has: the disk is again
      what it was at the beginning, and the lower `a` is shown, although unlink succeeded. The created
      node and the root, whose last layer is always 0, do not know of the lower layer. */
  lemma UnlinkedNameShowsAgain()
    returns (start: State, looked: State, up: State, gone: State, known: State, made: State, end: State, c: NodeId)
    ensures Mounts(start) && Step(start, Op.Look(ROOT, "a"), looked) && Step(looked, Op.CopyUp(c), up)
    ensures Step(up, Op.Remove(ROOT, "a", Device), gone) && Step(gone, Op.Look(ROOT, "a"), known)
    ensures Step(known, Op.Create(ROOT, "a", EMPTY_FILE, true, false, KEY), made)
    ensures Step(made, Op.Remove(ROOT, "a", Nothing), end)
    ensures end.layers == start.layers && Fresh(end.layers, ["a"]).Some? && !RemovedExactly(made.layers, end.layers, ["a"])
  {
    hide Step;
    hide Mounts;
    hide AtRoot;
    hide Mounted;
    hide RemovedExactly;
    start := Mounted();
    looked, c := FirstLook(start);
    up := CopiedUp(looked, c);
    gone := Unlinked(up, c, 1, Device, BARE[["a"] := Entry.Whiteout]);
    known := SecondLook(gone);
    var d;
    made, d := Created(known);
    end := Unlinked(made, d, 0, Nothing, BARE);
    LowerIsShown();
    ShownIsNotRemoved(made, end, d);
  }

  lemma ShownIsNotRemoved(s: State, out: State, c: NodeId)
    requires AtRoot(s, {}, Some((c, FileNode(0, 0))), WITH_A) && AtRoot(out, {}, None, BARE) && Fresh([BARE, WITH_A], ["a"]).Some?
    ensures out.layers == Mounted().layers && Fresh(out.layers, ["a"]).Some? && !RemovedExactly(s.layers, out.layers, ["a"])
  {
    assert ["a"] <= ["a"];
  }

  lemma LowerIsShown()
    ensures Mounts(Mounted()) && Fresh([BARE, WITH_A], ["a"]).Some?
  {
    MountedIsMount();
    var s := Mounted();
    var root: Path := [];
    assert root + ["a"] == ["a"] && (root + [WhName("a")])[0] == WhName("a") && |WhName("a")| == 5;
    assert PathOf(s.t, ROOT) == [];
    InLowerAt(s.layers, ["a"], 1);
    FreshInDir(s, ROOT, "a");
  }

  // ---- A file renamed to a name with a marker ----

  const WITH_D: Layer := map[[] := Entry.Dir(false), ["d"] := Entry.Dir(false)]
  const WITH_X: Layer := WITH_D[["d", "x"] := EMPTY_FILE]
  const MARKED: Layer := WITH_D[["d", ".wh.x"] := EMPTY_FILE]
  const WITH_Y: Layer := MARKED[["d", "y"] := EMPTY_FILE]
  const RENAMED: Layer := MARKED[["d", "x"] := EMPTY_FILE]

  /** The directory `d` of the upper layer, over the same on a lower one, with the given maps. */
  ghost predicate AtD(s: State, d: NodeId, children: map<Name, NodeId>, whiteouts: set<Name>, upper: Layer) {
    && Coherent(s) && d in s.t.nodes && d in s.t.chains && PathOf(s.t, d) == ["d"] && s.layers == [upper, WITH_D]
    && s.t.nodes[d].layer == 0 && s.t.nodes[d].last == 1 && s.t.nodes[d].dir == DirState.Dir(children, whiteouts, false)
    && forall n :: n in children ==> children[n] in s.t.nodes && s.t.nodes[children[n]] == Node(Some(d), n, DirState.NotADir, 0, 0, KEY, false)
  }

  ghost function MountedD(): State {
    State(MountTree(), [BARE, WITH_D])
  }

  lemma MountedDIsMount()
    ensures Mounts(MountedD()) && Coherent(MountedD())
  {
    assert Last(["d"]) == "d" && Parent(["d"]) == [];
    assert LayerOk(BARE) && LayerOk(WITH_D);
    assert forall p :: p in WITH_D ==> CleanEntry(WITH_D, p);
    MountIsCoherent(MountedD());
  }

  /** What `d` lists on a layer with nothing but files in it. */
  lemma DItems(l: Layer)
    requires forall p :: p in l && |p| == 2 && p[0] == "d" ==> l[p] == EMPTY_FILE
    requires ["d"] in l && l[["d"]] == Entry.Dir(false)
    ensures ViewOf(l, ["d"]).Listing?
    ensures forall n :: n in ViewOf(l, ["d"]).items <==> ["d", n] in l
    ensures forall n :: ["d", n] in l ==> ViewOf(l, ["d"]).items[n] == FileItem
  {
    forall n: Name
      ensures ["d"] + [n] == ["d", n]
    {}
  }

  /** A name that no layer has or hides. */
  lemma FoundNowhere(v: seq<View>, bound: nat, n: Name)
    requires |v| == 2 && v[0].Listing? && v[1].Listing? && bound <= 1
    requires n !in v[0].items && WhName(n) !in v[0].items && n !in v[1].items && WhName(n) !in v[1].items
    ensures LazyResult(v, bound, n) == NotFound
  {
    assert LazyFrom(v, bound, 2, n, None) == NotFound;
    assert LazyFrom(v, bound, 1, n, None) == NotFound;
  }

  lemma ShortNames()
    ensures WhName("x") == ".wh.x" && WhName("y") == ".wh.y" && ".wh.x" != "y" && ".wh.y" != "x" && ".wh.x" != "x"
    ensures ".wh.x" != ".wh.y" && Ordinary("x") && Ordinary("y") && !IsWh("x") && !IsWh("y")
    ensures ["d"] + ["x"] == ["d", "x"] && ["d"] + ["y"] == ["d", "y"] && ["d"] + [".wh.x"] == ["d", ".wh.x"]
    ensures ["d"] + [".wh.y"] == ["d", ".wh.y"] && ["d", ".wh.y"] != ["d", ".wh.x"]
  {
    assert |".wh.x"| == 5 && ".wh.x"[4] == 'x' && ".wh.y"[4] == 'y';
    assert ["d", ".wh.y"][1] == ".wh.y" && ["d", ".wh.x"][1] == ".wh.x";
  }

  lemma NotBelowLower(n: Name)
    ensures !InLower([WITH_D, WITH_D], ["d"] + [n]) && forall up: Layer :: !InLower([up, WITH_D], ["d"] + [n])
  {
    assert |["d"] + [n]| == 2;
  }

  /** A file is created in `d` in place. */
  lemma CreatedInD(s: State, d: NodeId, n: Name, whiteouts: set<Name>, upper: Layer) returns (out: State, c: NodeId)
    requires AtD(s, d, map[], whiteouts, upper) && Ordinary(n) && n !in whiteouts
    requires LazyResult(ViewsOf(s.layers, ["d"]), 1, n) == NotFound
    ensures Step(s, Op.Create(d, n, EMPTY_FILE, false, false, KEY), out)
    ensures AtD(out, d, map[n := c], whiteouts, upper[["d"] + [n] := EMPTY_FILE])
  {
    hide TreeOk;
    hide Coherent;
    hide InsertChild;
    hide LazyResult;
    CoherentTree(s);
    var node := NewNode(n, 0, KEY, false).SetLoaded(true);
    Inserts(s.t, d, node);
    out, c := State(InsertChild(s.t, d, node), [upper[["d"] + [n] := EMPTY_FILE], WITH_D]), s.t.nextId;
    assert out.layers == WithUpper(s.layers, upper[["d"] + [n] := EMPTY_FILE]);
    NotBelowLower(n);
    assert map[][n := c] == map[n := c] && whiteouts - {n} == whiteouts;
    CreateKeepsCoherence(s, d, n, EMPTY_FILE, false, false, KEY, out);
  }

  lemma CoherentTree(s: State)
    requires Coherent(s)
    ensures TreeOk(s.t)
  {}

  lemma LookedD(s: State) returns (out: State, d: NodeId)
    requires s == MountedD()
    ensures Step(s, Op.Look(ROOT, "d"), out) && Coherent(out) && out.layers == [BARE, WITH_D]
    ensures d in out.t.nodes && d != out.t.root && out.t.nodes[d] == Node(Some(ROOT), "d", DirState.Dir(map[], {}, false), 1, 1, KEY, false)
    ensures PathOf(out.t, d) == ["d"] && ROOT in out.t.nodes && out.t.nodes[ROOT].layer == 0
  {
    hide TreeOk;
    hide LazyResult;
    hide InsertChild;
    MountedDFacts();
    var node := NewNode("d", 1, KEY, true).(last := 1);
    Inserts(s.t, ROOT, node);
    assert [] + ["d"] == ["d"];
    out, d := State(InsertChild(s.t, ROOT, node), s.layers), s.t.nextId;
    assert LookedUp(s.t, ROOT, "d", Found(Seen(1, 1, true)), out.t);
    LookKeepsCoherence(s, ROOT, "d", out);
  }

  lemma DRootViews()
    ensures ViewOf(BARE, []).Listing? && ViewOf(BARE, []).items == map[]
    ensures ViewOf(WITH_D, []).Listing? && ViewOf(WITH_D, []).items == map["d" := DirItem(false)]
  {
    var root: Path := [];
    forall n: Name
      ensures root + [n] == [n] && [n] !in BARE && ([n] in WITH_D <==> n == "d")
    {
      assert [n][0] == n && ["d"][0] == "d";
    }
    assert ["d"] + [OPAQUE_WHITEOUT] !in WITH_D by { assert |["d"] + [OPAQUE_WHITEOUT]| == 2; }
    assert ViewOf(BARE, []).items.Keys == {};
    assert ViewOf(WITH_D, []).items.Keys == {"d"};
  }

  /** A lookup that finds a directory on the second of two layers. */
  lemma DirOnSecond(v: seq<View>, bound: nat, n: Name)
    requires |v| == 2 && v[0].Listing? && v[1].Listing? && !IsWh(n) && bound <= 1
    requires n !in v[0].items && WhName(n) !in v[0].items
    requires n in v[1].items && v[1].items[n] == DirItem(false) && WhName(n) !in v[1].items
    ensures LazyResult(v, bound, n) == Found(Seen(1, 1, true))
  {
    assert LazyFrom(v, bound, 2, n, Some(Seen(1, 1, true))) == Found(Seen(1, 1, true));
    assert LazyFrom(v, bound, 1, n, None) == Found(Seen(1, 1, true));
  }

  lemma MountedDFacts()
    ensures var t := MountedD().t;
            && TreeOk(t) && ROOT in t.nodes && ROOT in t.chains && t.nodes[ROOT] == NewNode("", 0, KEY, true) && PathOf(t, ROOT) == []
    ensures Coherent(MountedD()) && !IsWh("d") && ValidName("d")
    ensures LazyResult(ViewsOf(MountedD().layers, []), 0, "d") == Found(Seen(1, 1, true))
  {
    hide ViewOf;
    hide LazyResult;
    MountedDIsMount();
    DRootViews();
    assert |WhName("d")| == 5;
    DirOnSecond(ViewsOf(MountedD().layers, []), 0, "d");
  }

  lemma CopiedD(s: State, d: NodeId) returns (out: State)
    requires Coherent(s) && s.layers == [BARE, WITH_D] && d in s.t.nodes && d != s.t.root && PathOf(s.t, d) == ["d"]
    requires s.t.nodes[d] == Node(Some(ROOT), "d", DirState.Dir(map[], {}, false), 1, 1, KEY, false)
    requires ROOT in s.t.nodes && s.t.nodes[ROOT].layer == 0
    ensures Step(s, Op.CopyUp(d), out) && AtD(out, d, map[], {}, WITH_D)
  {
    hide TreeOk;
    hide Coherent;
    CoherentTree(s);
    var node := s.t.nodes[d].(layer := 0);
    Sets(s.t, d, node);
    assert BARE[["d"] := Entry.Dir(false)] == WITH_D;
    out := State(SetNode(s.t, d, node), [WITH_D, WITH_D]);
    assert out.layers == WithUpper(s.layers, WITH_D);
    CopyKeepsCoherence(s, d, out);
    ChainOf(out, d);
  }

  lemma ChainOf(s: State, d: NodeId)
    requires Coherent(s) && d in s.t.nodes
    ensures d in s.t.chains
  {}

  lemma RemovedX(s: State, d: NodeId, c: NodeId) returns (out: State)
    requires AtD(s, d, map["x" := c], {}, WITH_X)
    ensures Step(s, Op.Remove(d, "x", Marker), out) && AtD(out, d, map[], {}, MARKED)
  {
    hide TreeOk;
    hide RmTree;
    hide Coherent;
    ShortNames();
    CoherentTree(s);
    Removes1(s.t, d, "x");
    assert map["x" := c] - {"x"} == map[];
    assert WithoutSubtree(WITH_X, ["d", "x"]) == WITH_D;
    out := State(RmTree(s.t, d, "x"), [MARKED, WITH_D]);
    assert MarkerOf(["d", "x"]) == ["d", ".wh.x"];
    assert out.layers == Removed(s.layers, ["d", "x"], Marker);
    RemoveKeepsCoherence(s, d, "x", Marker, out);
  }

  lemma WhitedX(s: State, d: NodeId) returns (out: State)
    requires AtD(s, d, map[], {}, MARKED)
    ensures Step(s, Op.Look(d, "x"), out) && AtD(out, d, map[], {"x"}, MARKED)
  {
    hide TreeOk;
    hide LazyResult;
    ShortNames();
    CoherentTree(s);
    NotInD();
    Sets(s.t, d, s.t.nodes[d].InsertWhiteout("x"));
    assert {} + {"x"} == {"x"};
    out := State(SetNode(s.t, d, s.t.nodes[d].InsertWhiteout("x")), s.layers);
    LookKeepsCoherence(s, d, "x", out);
  }

  lemma DViews()
    ensures ViewOf(WITH_D, ["d"]).Listing? && ViewOf(WITH_D, ["d"]).items == map[]
    ensures ViewOf(MARKED, ["d"]).Listing? && ViewOf(MARKED, ["d"]).items.Keys == {".wh.x"}
  {
    ShortNames();
    DItems(WITH_D);
    DItems(MARKED);
    forall n
      ensures n in ViewOf(MARKED, ["d"]).items <==> n == ".wh.x"
    {
      assert ["d", n][1] == n && ["d", ".wh.x"][1] == ".wh.x";
    }
    assert ViewOf(WITH_D, ["d"]).items.Keys == {};
  }

  lemma NotInD()
    ensures LazyResult(ViewsOf([WITH_D, WITH_D], ["d"]), 1, "x") == NotFound
    ensures LazyResult(ViewsOf([MARKED, WITH_D], ["d"]), 1, "y") == NotFound
    ensures LazyResult(ViewsOf([MARKED, WITH_D], ["d"]), 1, "x") == HiddenBy("x")
  {
    hide ViewOf;
    hide LazyResult;
    ShortNames();
    DViews();
    FoundNowhere(ViewsOf([WITH_D, WITH_D], ["d"]), 1, "x");
    FoundNowhere(ViewsOf([MARKED, WITH_D], ["d"]), 1, "y");
    HiddenOnFirst(ViewsOf([MARKED, WITH_D], ["d"]), 1, "x");
  }

  lemma HiddenOnFirst(v: seq<View>, bound: nat, n: Name)
    requires v != [] && v[0].Listing? && n !in v[0].items && WhName(n) in v[0].items
    ensures LazyResult(v, bound, n) == HiddenBy(n)
  {}

  lemma MovedUpper()
    ensures RenamedUpper(WITH_Y, Move(["d", "y"], ["d", "x"], false, Nothing)) == RENAMED
  {
    ShortNames();
    var mv := Move(["d", "y"], ["d", "x"], false, Nothing);
    assert ["d", "y"][1] == "y" && ["d", "x"][1] == "x" && ["d", ".wh.x"][1] == ".wh.x";
    ShiftBack(mv.src, mv.dst, mv.src);
    ShiftBack(mv.dst, mv.src, mv.dst);
    var up := RenamedUpper(WITH_Y, mv);
    forall p
      ensures p in up <==> p in RENAMED
      ensures p in up ==> up[p] == RENAMED[p]
    {
      MovedUpperAt(p);
    }
  }

  lemma MovedUpperAt(p: Path)
    ensures var up := RenamedUpper(WITH_Y, Move(["d", "y"], ["d", "x"], false, Nothing));
            (p in up <==> p in RENAMED) && (p in up ==> up[p] == RENAMED[p])
  {
    var src, dst := ["d", "y"], ["d", "x"];
    assert src[1] == "y" && dst[1] == "x" && ["d", ".wh.x"][1] == ".wh.x";
    assert forall r :: r in WITH_Y ==> |r| <= 2;
    assert Shift(src, dst, src) == dst;
    if dst <= p {
      ShiftBack(dst, src, p);
      var r := Shift(dst, src, p);
      assert r in WITH_Y && src <= r ==> r == src;
    }
  }

  lemma RenamedLayers()
    ensures LayersOk([RENAMED, WITH_D]) && MarkersPlain(RENAMED)
  {
    ShortNames();
    assert LayerOk(RENAMED) && LayerOk(WITH_D) by {
      assert Parent(["d"]) == [] && Last(["d"]) == "d" && Parent(["d", "x"]) == ["d"] && Parent(["d", ".wh.x"]) == ["d"];
      assert Last(["d", "x"]) == "x" && Last(["d", ".wh.x"]) == ".wh.x" && ValidName(".wh.x");
    }
    forall d: Path, x
      ensures d + [WhName(WhName(x))] !in RENAMED
    {
      LongName(d, x);
    }
  }

  lemma LongName(d: Path, x: Name)
    ensures d + [WhName(WhName(x))] !in RENAMED
  {
    var q := d + [WhName(WhName(x))];
    assert Last(q) == WhName(WhName(x)) && |WhName(WhName(x))| >= 8 && q != [];
    assert Last(["d"]) == "d" && Last(["d", "x"]) == "x" && Last(["d", ".wh.x"]) == ".wh.x";
    assert forall p :: p in RENAMED && p != [] ==> |Last(p)| <= 5;
  }

  /** What stands beside its marker is not shown. */
  lemma MarkedIsNotShown(layers: seq<Layer>, q: Path)
    requires LayersOk(layers) && MarkersPlain(layers[0]) && q != [] && q in layers[0] && MarkerOf(q) in layers[0]
    ensures Fresh(layers, q) == None
  {
    if Fresh(layers, q).Some? {
      FreshIsTopmost(layers, q);
      ShownHasNoMarker(layers, q);
    }
  }

  lemma RenameStands(s: State, d: NodeId, c: NodeId)
    requires AtD(s, d, map["y" := c], {"x"}, WITH_Y)
    ensures TreeOk(s.t) && RenameAllowed(s.t, d, "y", d, "x") && Replaceable(s, d, "x", false)
  {
    ShortNames();
    CoherentTree(s);
    ChildNotAbove(s.t, d, "y");
  }

  lemma RenamedToX(s: State, d: NodeId, c: NodeId) returns (out: State)
    requires AtD(s, d, map["y" := c], {"x"}, WITH_Y)
    ensures Step(s, Op.Rename(d, "y", d, "x", Nothing), out) && TreeOk(out.t) && out.layers == [RENAMED, WITH_D]
    ensures d in out.t.nodes && "x" in out.t.nodes[d].Children() && PathOf(out.t, d) == ["d"] && !Coherent(out)
  {
    hide RenameTree;
    hide RenamedUpper;
    hide RenameAllowed;
    hide TreeOk;
    ShortNames();
    CoherentTree(s);
    MovedUpper();
    RenameStands(s, d, c);
    ChildNotAbove(s.t, d, "y");
    out := State(RenameTree(s.t, d, "y", d, "x"), [RENAMED, WITH_D]);
    assert out.layers == WithUpper(s.layers, RENAMED);
    NewNameListed(s, d, "y", d, "x");
    MarkedChildIsHidden(out, d, "x");
  }

  lemma XIsNotShown()
    ensures ["d", "x"] in RENAMED && Fresh([RENAMED, WITH_D], ["d", "x"]) == None
  {
    ShortNames();
    RenamedLayers();
    assert MarkerOf(["d", "x"]) == ["d", ".wh.x"];
    MarkedIsNotShown([RENAMED, WITH_D], ["d", "x"]);
  }

  lemma MadeX(s: State, d: NodeId) returns (out: State, c: NodeId)
    requires AtD(s, d, map[], {}, WITH_D)
    ensures Step(s, Op.Create(d, "x", EMPTY_FILE, false, false, KEY), out) && AtD(out, d, map["x" := c], {}, WITH_X)
  {
    hide LazyResult;
    ShortNames();
    NotInD();
    out, c := CreatedInD(s, d, "x", {}, WITH_D);
  }

  lemma MadeY(s: State, d: NodeId) returns (out: State, c: NodeId)
    requires AtD(s, d, map[], {"x"}, MARKED)
    ensures Step(s, Op.Create(d, "y", EMPTY_FILE, false, false, KEY), out) && AtD(out, d, map["y" := c], {"x"}, WITH_Y)
    ensures Coherent(out)
  {
    hide LazyResult;
    ShortNames();
    NotInD();
    out, c := CreatedInD(s, d, "y", {"x"}, MARKED);
  }

  /** In a directory that a lower layer has too, with markers in use: create and unlink `x`, create
      `y`, and rename it to `x`. All calls succeed, the file stands on the upper layer and in the cache,
      and it is not shown. Up to the rename the session is a session as in Coherence. */
  lemma RenamedFileIsLost()
    returns (start: State, looked: State, up: State, made: State, gone: State, known: State, again: State, end: State, d: NodeId)
    ensures Mounts(start) && Step(start, Op.Look(ROOT, "d"), looked) && Step(looked, Op.CopyUp(d), up)
    ensures Step(up, Op.Create(d, "x", EMPTY_FILE, false, false, KEY), made) && Step(made, Op.Remove(d, "x", Marker), gone)
    ensures Step(gone, Op.Look(d, "x"), known) && Step(known, Op.Create(d, "y", EMPTY_FILE, false, false, KEY), again)
    ensures Coherent(again) && Step(again, Op.Rename(d, "y", d, "x", Nothing), end)
    ensures TreeOk(end.t) && d in end.t.nodes && "x" in end.t.nodes[d].Children() && PathOf(end.t, d) == ["d"]
    ensures end.layers != [] && ["d", "x"] in end.layers[0] && Fresh(end.layers, ["d", "x"]) == None && !Coherent(end)
  {
    hide Step;
    hide Mounts;
    hide MountedD;
    hide AtD;
    hide Coherent;
    hide TreeOk;
    hide Fresh;
    XIsNotShown();
    MountedDIsMount();
    start := MountedD();
    looked, d := LookedD(start);
    up := CopiedD(looked, d);
    var c, e;
    made, c := MadeX(up, d);
    gone := RemovedX(made, d, c);
    known := WhitedX(gone, d);
    again, e := MadeY(known, d);
    end := RenamedToX(again, d, e);
  }

  // ---- An exchange with a name that only the upper layer has ----

  const WITH_B: Layer := BARE[["b"] := EMPTY_FILE]
  const WITH_AB: Layer := WITH_A[["b"] := EMPTY_FILE]

  function RootFile(n: Name, last: nat): Node {
    FileNode(0, last).(name := n)
  }

  lemma IdsBelowNext(t: Tree, x: NodeId)
    requires TreeOk(t) && x in t.nodes
    ensures x < t.nextId
  {}

  /** The files `a` and `b` in the root, by their nodes. */
  ghost predicate TwoAtRoot(s: State, a: NodeId, nodeA: Node, b: NodeId, nodeB: Node, upper: Layer) {
    && TreeOk(s.t) && s.t.root == ROOT && ROOT in s.t.nodes && ROOT in s.t.chains && PathOf(s.t, ROOT) == []
    && s.layers == [upper, WITH_A] && a != b && a != ROOT && b != ROOT && a in s.t.nodes && b in s.t.nodes
    && s.t.nodes[ROOT].layer == 0 && s.t.nodes[ROOT].last == 0
    && s.t.nodes[ROOT].dir == DirState.Dir(map["a" := a, "b" := b], {}, false)
    && s.t.nodes[a] == nodeA && s.t.nodes[b] == nodeB && nodeA.parent == nodeB.parent == Some(ROOT)
    && nodeA.name == "a" && nodeB.name == "b" && nodeA.dir == nodeB.dir == DirState.NotADir
  }

  lemma BNowhereOver(l: Layer)
    requires l.Keys <= {[], ["a"]} && [] in l && l[[]] == Entry.Dir(false)
    ensures LazyResult(ViewsOf([l, WITH_A], []), 0, "b") == NotFound
  {
    hide LazyResult;
    RootItems(l);
    RootItems(WITH_A);
    hide ViewOf;
    assert |WhName("b")| == 5;
    FoundNowhere(ViewsOf([l, WITH_A], []), 0, "b");
  }

  lemma BNowhere()
    ensures LazyResult(ViewsOf([WITH_A, WITH_A], []), 0, "b") == NotFound && ValidName("b") && Ordinary("b") && Ordinary("a")
    ensures LazyResult(ViewsOf([BARE, WITH_A], []), 0, "b") == NotFound
  {
    hide LazyResult;
    hide ViewOf;
    BNowhereOver(WITH_A);
    BNowhereOver(BARE);
  }

  lemma CreatedB(s: State, a: NodeId, layer: nat, upper: Layer) returns (out: State, b: NodeId)
    requires AtRoot(s, {}, Some((a, FileNode(layer, 1))), upper) && (upper == WITH_A || upper == BARE)
    ensures Step(s, Op.Create(ROOT, "b", EMPTY_FILE, false, false, KEY), out)
    ensures TwoAtRoot(out, a, FileNode(layer, 1), b, RootFile("b", 0), upper[["b"] := EMPTY_FILE])
  {
    hide TreeOk;
    hide LazyResult;
    hide InsertChild;
    BNowhere();
    IdsBelowNext(s.t, a);
    var node := NewNode("b", 0, KEY, false).SetLoaded(true);
    Inserts(s.t, ROOT, node);
    assert [] + ["b"] == ["b"] && map["a" := a]["b" := s.t.nextId] == map["a" := a, "b" := s.t.nextId] && {} - {"b"} == {};
    out, b := State(InsertChild(s.t, ROOT, node), [upper[["b"] := EMPTY_FILE], WITH_A]), s.t.nextId;
    assert out.layers == WithUpper(s.layers, upper[["b"] := EMPTY_FILE]);
    assert s.t.nodes[a].name == "a";
  }

  lemma BIsCoherent(s: State, a: NodeId, layer: nat, upper: Layer, out: State)
    requires Coherent(s) && AtRoot(s, {}, Some((a, FileNode(layer, 1))), upper)
    requires Step(s, Op.Create(ROOT, "b", EMPTY_FILE, false, false, KEY), out)
    ensures Coherent(out)
  {
    hide Coherent;
    hide LazyResult;
    hide Creates;
    BNowhere();
    var root: Path := [];
    assert root + ["b"] == ["b"] && ["b"] !in WITH_A by { assert ["b"][0] == "b" && ["a"][0] == "a"; }
    CreateKeepsCoherence(s, ROOT, "b", EMPTY_FILE, false, false, KEY, out);
  }

  /** Two files of one kind trade places: the layer is as it was. */
  lemma SameAfterExchange()
    ensures ExchangedUpper(WITH_AB, ["a"], ["b"]) == WITH_AB
  {
    hide ExchangedUpper;
    hide Swap;
    assert ["a"][0] == "a" && ["b"][0] == "b";
    forall p
      ensures p in ExchangedUpper(WITH_AB, ["a"], ["b"]) <==> p in WITH_AB
      ensures p in WITH_AB ==> ExchangedUpper(WITH_AB, ["a"], ["b"])[p] == WITH_AB[p]
    {
      ExchangedAt(WITH_AB, ["a"], ["b"], p);
      SwapIsInvolution(["a"], ["b"], p);
      RootStays(["a"], ["b"]);
    }
  }

  lemma FilesExchangeable(s: State, a: NodeId, b: NodeId)
    requires Coherent(s) && TwoAtRoot(s, a, RootFile("a", 1), b, RootFile("b", 0), WITH_AB)
    ensures ExchangeAllowed(s.t, ROOT, "a", ROOT, "b")
  {
    var t := s.t;
    ChildNotAbove(t, ROOT, "a");
    ChildNotAbove(t, ROOT, "b");
    ChildPathOfEntry(t, ROOT, "a");
    ChildPathOfEntry(t, ROOT, "b");
    CoherentListed(s);
    assert ([] + ["a"])[0] == "a" && ([] + ["b"])[0] == "b";
    PathsBelow(t, a, b);
    PathsBelow(t, b, a);
  }

  lemma ExchangedAB(s: State, a: NodeId, b: NodeId) returns (out: State)
    requires Coherent(s) && TwoAtRoot(s, a, RootFile("a", 1), b, RootFile("b", 0), WITH_AB)
    ensures Step(s, Op.Exchange(ROOT, "a", ROOT, "b"), out) && TwoAtRoot(out, b, RootFile("a", 0), a, RootFile("b", 1), WITH_AB)
    ensures ExchangeAllowed(s.t, ROOT, "a", ROOT, "b") && !ExchangeFits(s, ROOT, "a", ROOT, "b") && !Coherent(out)
  {
    hide Coherent;
    hide TreeOk;
    hide ExchangeTree;
    hide ExchangedUpper;
    hide ExchangeAllowed;
    FilesExchangeable(s, a, b);
    out := State(ExchangeTree(s.t, ROOT, "a", ROOT, "b"), [WITH_AB, WITH_A]);
    ExchangeNodes(s.t, ROOT, "a", ROOT, "b", ROOT);
    ExchangeNodes(s.t, ROOT, "a", ROOT, "b", a);
    ExchangeNodes(s.t, ROOT, "a", ROOT, "b", b);
    assert map["a" := b, "b" := a] == (map["a" := a, "b" := b] - {"a"} - {"b"})["b" := a]["a" := b];
    SameAfterExchange();
    var root: Path := [];
    assert root + ["a"] == ["a"] && root + ["b"] == ["b"];
    assert out.layers == WithUpper(s.layers, WITH_AB);
    InLowerAt(s.layers, ["a"], 1);
    RootOfTree(out.t);
    ExchangeIsCoherentIff(s, ROOT, "a", ROOT, "b", out);
  }

  lemma RootOfTree(t: Tree)
    requires TreeOk(t)
    ensures t.root in t.chains && PathOf(t, t.root) == []
  {}

  lemma UnlinkedAB(s: State, a: NodeId, b: NodeId) returns (out: State)
    requires TwoAtRoot(s, b, RootFile("a", 0), a, RootFile("b", 1), WITH_AB)
    ensures Step(s, Op.Remove(ROOT, "a", Nothing), out) && out.layers == [WITH_B, WITH_A]
  {
    hide TreeOk;
    hide RmTree;
    Removes1(s.t, ROOT, "a");
    var root: Path := [];
    assert root + ["a"] == ["a"] && ["a"][0] == "a" && ["b"][0] == "b";
    assert WithoutSubtree(WITH_AB, ["a"]) == WITH_B;
    out := State(RmTree(s.t, ROOT, "a"), [WITH_B, WITH_A]);
    assert out.layers == Removed(s.layers, ["a"], Nothing);
  }

  lemma CleanUnderB()
    ensures Clean([WITH_B, WITH_A])
  {
    var layers := [WITH_B, WITH_A];
    LayersAreOk();
    assert ["a"][0] == "a" && ["b"][0] == "b" && Last(["b"]) == "b" && Parent(["b"]) == [];
    assert MarkerOf(["b"]) == [WhName("b")] && |WhName("b")| == 5 && [WhName("b")][0] == WhName("b");
    assert LayerOk(WITH_B);
    assert UpperEntry(WITH_B, ["b"]) && UpperEntry(WITH_B, []);
    forall p
      ensures UpperOpaque(layers, p)
    {
      assert Last(p + [OPAQUE_WHITEOUT]) == OPAQUE_WHITEOUT && |OPAQUE_WHITEOUT| == 12;
    }
  }

  /** What a fresh mount of a clean disk of two layers shows in its root. */
  lemma ShownInRoot(layers: seq<Layer>, n: Name)
    requires Clean(layers) && |layers| == 2 && !IsWh(n) && [WhName(n)] !in layers[0]
    requires if [n] in layers[0] then layers[0][[n]] == EMPTY_FILE && [n] !in layers[1]
             else [n] in layers[1] && layers[1][[n]] == EMPTY_FILE
    ensures Fresh(layers, [n]) == Some(if [n] in layers[0] then Seen(0, 0, false) else Seen(1, 1, false))
  {
    hide Clean;
    hide Fresh;
    hide Scannable;
    var root: Path := [];
    RootIsFresh(layers);
    assert root + [n] == [n] && root + [WhName(n)] == [WhName(n)] && Parent([n]) == [] && Last([n]) == n;
    CleanFresh(layers, [n]);
    assert InMerge(layers, [], n);
    assert IsTopmost(layers, [n], Fresh(layers, [n]).value);
  }

  lemma RootIsFresh(layers: seq<Layer>)
    ensures Fresh(layers, []) == Some(Seen(0, 0, true))
  {}

  lemma LowerUnderB()
    ensures Fresh([WITH_B, WITH_A], ["a"]) == Some(Seen(1, 1, false))
    ensures Fresh([WITH_B, WITH_A], ["b"]) == Some(Seen(0, 0, false))
  {
    hide Clean;
    hide Fresh;
    CleanUnderB();
    assert ["a"][0] == "a" && ["b"][0] == "b" && |WhName("a")| == 5 && |WhName("b")| == 5;
    assert [WhName("a")][0] == WhName("a") && [WhName("b")][0] == WhName("b");
    ShownInRoot([WITH_B, WITH_A], "a");
    ShownInRoot([WITH_B, WITH_A], "b");
  }

  /** The file `a` of the root is copied up, exchanged with a new file, and what is then at its name is
      unlinked. All calls succeed, and the lower `a` is shown. Up to the exchange, which does not fit,
      the session is a session as in Coherence. */
  lemma ExchangedNameShowsAgain()
    returns (start: State, looked: State, up: State, made: State, swapped: State, end: State, c: NodeId)
    ensures Mounts(start) && Step(start, Op.Look(ROOT, "a"), looked) && Step(looked, Op.CopyUp(c), up)
    ensures Step(up, Op.Create(ROOT, "b", EMPTY_FILE, false, false, KEY), made)
    ensures Coherent(made) && Step(made, Op.Exchange(ROOT, "a", ROOT, "b"), swapped)
    ensures ExchangeAllowed(made.t, ROOT, "a", ROOT, "b") && !ExchangeFits(made, ROOT, "a", ROOT, "b") && !Coherent(swapped)
    ensures Step(swapped, Op.Remove(ROOT, "a", Nothing), end) && Fresh(end.layers, ["a"]).Some?
  {
    hide Step;
    hide Mounts;
    hide Coherent;
    hide AtRoot;
    hide TwoAtRoot;
    hide ExchangeAllowed;
    hide ExchangeFits;
    MountedIsMount();
    start := Mounted();
    looked, c := FirstLook(start);
    up := CopiedUp(looked, c);
    CopiedIsCoherent(start, looked, up, c);
    var b;
    made, b := CreatedB(up, c, 0, WITH_A);
    BIsCoherent(up, c, 0, WITH_A, made);
    assert WITH_A[["b"] := EMPTY_FILE] == WITH_AB;
    swapped := ExchangedAB(made, c, b);
    end := UnlinkedAB(swapped, c, b);
    LowerUnderB();
  }

  lemma CopiedIsCoherent(start: State, looked: State, up: State, c: NodeId)
    requires Coherent(start) && Step(start, Op.Look(ROOT, "a"), looked) && Step(looked, Op.CopyUp(c), up)
    ensures Coherent(up)
  {
    LookIsCoherent(start, looked);
    CopyKeepsCoherence(looked, c, up);
  }

  // ---- A new file renamed to the name of a lower one ----

  lemma MovedBToAAt(p: Path)
    ensures var up := RenamedUpper(WITH_B, Move(["b"], ["a"], false, Nothing));
            (p in up <==> p in WITH_A) && (p in WITH_A ==> up[p] == WITH_A[p])
  {
    assert ["a"][0] == "a" && ["b"][0] == "b";
    assert Shift(["b"], ["a"], ["b"]) == ["a"];
    if ["a"] <= p {
      ShiftBack(["a"], ["b"], p);
      var r := Shift(["a"], ["b"], p);
      assert r in WITH_B && ["b"] <= r ==> r == ["b"];
    }
  }

  lemma MovedBToA()
    ensures RenamedUpper(WITH_B, Move(["b"], ["a"], false, Nothing)) == WITH_A
  {
    hide RenamedUpper;
    var mv := Move(["b"], ["a"], false, Nothing);
    forall p
      ensures p in RenamedUpper(WITH_B, mv) <==> p in WITH_A
      ensures p in WITH_A ==> RenamedUpper(WITH_B, mv)[p] == WITH_A[p]
    {
      MovedBToAAt(p);
    }
  }

  lemma BMayReplaceA(s: State, a: NodeId, b: NodeId)
    requires Coherent(s) && TwoAtRoot(s, a, FileNode(1, 1), b, RootFile("b", 0), WITH_B)
    ensures TreeOk(s.t) && RenameAllowed(s.t, ROOT, "b", ROOT, "a") && Replaceable(s, ROOT, "a", false)
  {
    ChildNotAbove(s.t, ROOT, "a");
    ChildNotAbove(s.t, ROOT, "b");
    ChildPathOfEntry(s.t, ROOT, "a");
    ChildPathOfEntry(s.t, ROOT, "b");
    CoherentListed(s);
    assert ([] + ["a"])[0] == "a" && ([] + ["b"])[0] == "b";
    PathsBelow(s.t, a, b);
  }

  lemma RenamedOverATree(s: State, a: NodeId, b: NodeId, out: State)
    requires Coherent(s) && TwoAtRoot(s, a, FileNode(1, 1), b, RootFile("b", 0), WITH_B)
    requires RenameAllowed(s.t, ROOT, "b", ROOT, "a") && Replaceable(s, ROOT, "a", false)
    requires out == State(RenameTree(s.t, ROOT, "b", ROOT, "a"), [WITH_A, WITH_A])
    ensures AtRoot(out, {}, Some((b, FileNode(0, 0))), WITH_A)
  {
    hide Coherent;
    hide RenameTree;
    hide RenamedNode;
    hide RenameAllowed;
    hide Replaceable;
    hide TreeOk;
    CoherentTree(s);
    var root: Path := [];
    assert root + ["a"] == ["a"] && root + ["b"] == ["b"];
    RenameNodes(s.t, ROOT, "b", ROOT, "a", ROOT);
    RenameNodes(s.t, ROOT, "b", ROOT, "a", b);
    TargetIsA(s.t, a);
    RootAfterMove(s.t, a, b);
    CoherentListed(s);
    ChildPathOfEntry(s.t, ROOT, "b");
    RenamedPathOf(s, ROOT, "b", ROOT, "a", Nothing, out.t, b);
    assert Shift(["b"], ["a"], ["b"]) == ["a"];
    RootOfTree(out.t);
  }

  lemma RootAfterMove(t: Tree, a: NodeId, b: NodeId)
    requires ROOT in t.nodes && b in t.nodes && b != ROOT && t.nodes[b].dir == DirState.NotADir
    requires t.nodes[ROOT].dir == DirState.Dir(map["a" := a, "b" := b], {}, false)
    ensures var root := RenamedNode(t, ROOT, ROOT, "b", ROOT, "a", b);
            root.dir == DirState.Dir(map["a" := b], {}, false) && root.layer == t.nodes[ROOT].layer && root.last == t.nodes[ROOT].last
    ensures RenamedNode(t, b, ROOT, "b", ROOT, "a", b) == t.nodes[b].(parent := Some(ROOT), name := "a")
  {
    assert map["a" := b] == (map["a" := a, "b" := b] - {"a"} - {"b"})["a" := b];
  }

  lemma TargetIsA(t: Tree, a: NodeId)
    requires ROOT in t.nodes && t.nodes[ROOT].GetChild("a") == Some(a)
    ensures Target(t, ROOT, "a") == {a}
  {}

  lemma RenamesBToA(s: State, a: NodeId, b: NodeId, out: State)
    requires TwoAtRoot(s, a, FileNode(1, 1), b, RootFile("b", 0), WITH_B)
    requires RenameAllowed(s.t, ROOT, "b", ROOT, "a") && Replaceable(s, ROOT, "a", false)
    requires out == State(RenameTree(s.t, ROOT, "b", ROOT, "a"), [WITH_A, WITH_A])
    ensures Renames(s, ROOT, "b", ROOT, "a", Nothing, out) && Step(s, Op.Rename(ROOT, "b", ROOT, "a", Nothing), out)
  {
    hide TreeOk;
    hide RenameTree;
    hide RenamedUpper;
    hide RenameAllowed;
    hide Replaceable;
    MovedBToA();
    var root: Path := [];
    assert root + ["a"] == ["a"] && root + ["b"] == ["b"];
    assert EntryOk(s.t, ROOT, "b");
    assert MoveOf(s.t, ROOT, "b", ROOT, "a", Nothing) == Move(["b"], ["a"], false, Nothing);
    assert out.layers == WithUpper(s.layers, WITH_A);
  }

  lemma BDoesNotFit(s: State, a: NodeId, b: NodeId)
    requires TwoAtRoot(s, a, FileNode(1, 1), b, RootFile("b", 0), WITH_B) && EntryOk(s.t, ROOT, "b")
    ensures !RenameFits(s, ROOT, "b", ROOT, "a")
  {
    hide TreeOk;
    var root: Path := [];
    assert root + ["a"] == ["a"];
    InLowerAt(s.layers, ["a"], 1);
  }

  lemma RenamedOverA(s: State, a: NodeId, b: NodeId) returns (out: State)
    requires Coherent(s) && TwoAtRoot(s, a, FileNode(1, 1), b, RootFile("b", 0), WITH_B)
    ensures Step(s, Op.Rename(ROOT, "b", ROOT, "a", Nothing), out) && AtRoot(out, {}, Some((b, FileNode(0, 0))), WITH_A)
    ensures RenameAllowed(s.t, ROOT, "b", ROOT, "a") && !RenameFits(s, ROOT, "b", ROOT, "a") && !Coherent(out)
  {
    hide Coherent;
    hide TreeOk;
    hide RenameTree;
    hide RenameAllowed;
    hide RenameFits;
    hide Replaceable;
    hide Renames;
    hide Step;
    hide AtRoot;
    BNowhere();
    BMayReplaceA(s, a, b);
    ChildNotAbove(s.t, ROOT, "b");
    out := State(RenameTree(s.t, ROOT, "b", ROOT, "a"), [WITH_A, WITH_A]);
    RenamesBToA(s, a, b, out);
    RenamedOverATree(s, a, b, out);
    BDoesNotFit(s, a, b);
    RenameIsCoherentIff(s, ROOT, "b", ROOT, "a", Nothing, out);
  }

  /** A new file is renamed to the name of a lower file, in the root, and then unlinked. All calls succeed,
      and the lower file is shown. Up to the rename, which does not fit, the session is a session as in
      Coherence. */
  lemma ReplacedNameShowsAgain()
    returns (start: State, looked: State, made: State, moved: State, end: State)
    ensures Mounts(start) && Step(start, Op.Look(ROOT, "a"), looked)
    ensures Step(looked, Op.Create(ROOT, "b", EMPTY_FILE, false, false, KEY), made)
    ensures Coherent(made) && Step(made, Op.Rename(ROOT, "b", ROOT, "a", Nothing), moved)
    ensures RenameAllowed(made.t, ROOT, "b", ROOT, "a") && !RenameFits(made, ROOT, "b", ROOT, "a") && !Coherent(moved)
    ensures Step(moved, Op.Remove(ROOT, "a", Nothing), end) && end.layers == start.layers && Fresh(end.layers, ["a"]).Some?
  {
    hide Step;
    hide Mounts;
    hide Coherent;
    hide AtRoot;
    hide TwoAtRoot;
    hide RenameAllowed;
    hide RenameFits;
    MountedIsMount();
    start := Mounted();
    var c, b;
    looked, c := FirstLook(start);
    LookIsCoherent(start, looked);
    made, b := CreatedB(looked, c, 1, BARE);
    BIsCoherent(looked, c, 1, BARE, made);
    moved := RenamedOverA(made, c, b);
    end := Unlinked(moved, b, 0, Nothing, BARE);
    LowerIsShown();
    LayersAtRoot(end);
  }

  lemma LookIsCoherent(start: State, looked: State)
    requires Coherent(start) && Step(start, Op.Look(ROOT, "a"), looked)
    ensures Coherent(looked)
  {
    LookKeepsCoherence(start, ROOT, "a", looked);
  }

  lemma LayersAtRoot(s: State)
    requires AtRoot(s, {}, None, BARE)
    ensures s.layers == [BARE, WITH_A] == Mounted().layers
  {}

  // ---- A rename whose whiteout could not be made ----

  lemma MovedAToBAt(p: Path)
    ensures var up := RenamedUpper(WITH_A, Move(["a"], ["b"], false, Nothing));
            (p in up <==> p in WITH_B) && (p in WITH_B ==> up[p] == WITH_B[p])
  {
    assert ["a"][0] == "a" && ["b"][0] == "b";
    assert Shift(["a"], ["b"], ["a"]) == ["b"];
    if ["b"] <= p {
      ShiftBack(["b"], ["a"], p);
      var r := Shift(["b"], ["a"], p);
      assert r in WITH_A && ["a"] <= r ==> r == ["a"];
    }
  }

  lemma MovedAToB()
    ensures RenamedUpper(WITH_A, Move(["a"], ["b"], false, Nothing)) == WITH_B
  {
    hide RenamedUpper;
    var mv := Move(["a"], ["b"], false, Nothing);
    forall p
      ensures p in RenamedUpper(WITH_A, mv) <==> p in WITH_B
      ensures p in WITH_B ==> RenamedUpper(WITH_A, mv)[p] == WITH_B[p]
    {
      MovedAToBAt(p);
    }
  }

  lemma RenamedToB(s: State, c: NodeId) returns (out: State)
    requires Coherent(s) && AtRoot(s, {}, Some((c, FileNode(0, 1))), WITH_A)
    ensures Step(s, Op.RenameBare(ROOT, "a", ROOT, "b"), out) && Coherent(out) && out.layers == [WITH_B, WITH_A]
  {
    hide RenameTree;
    hide RenamedUpper;
    hide Coherent;
    hide TreeOk;
    hide LazyResult;
    BNowhere();
    ChildNotAbove(s.t, ROOT, "a");
    MovedAToB();
    var root: Path := [];
    assert root + ["a"] == ["a"] && root + ["b"] == ["b"] && ["b"][0] == "b" && ["a"][0] == "a";
    assert root + [WhName("b")] == [WhName("b")] && [WhName("b")][0] == WhName("b") && |WhName("b")| == 5;
    out := State(RenameTree(s.t, ROOT, "a", ROOT, "b"), [WITH_B, WITH_A]);
    assert out.layers == WithUpper(s.layers, WITH_B);
    UncoveredKeepsCoherence(s, ROOT, "a", ROOT, "b", out);
  }

  /** The file `a` of the root is copied up and renamed, and its whiteout cannot be made. The rename
      succeeds, the session goes on as in Coherence, and the lower `a` is shown beside the moved file. */
  lemma LowerFileShowsAgain()
    returns (start: State, looked: State, up: State, end: State, c: NodeId)
    ensures Mounts(start) && Step(start, Op.Look(ROOT, "a"), looked) && Step(looked, Op.CopyUp(c), up)
    ensures Step(up, Op.RenameBare(ROOT, "a", ROOT, "b"), end) && Coherent(end)
    ensures Fresh(end.layers, ["a"]) == Some(Seen(1, 1, false)) && Fresh(end.layers, ["b"]) == Some(Seen(0, 0, false))
  {
    hide Step;
    hide Mounts;
    hide Coherent;
    hide AtRoot;
    MountedIsMount();
    start := Mounted();
    looked, c := FirstLook(start);
    up := CopiedUp(looked, c);
    CopiedIsCoherent(start, looked, up, c);
    end := RenamedToB(up, c);
    LowerUnderB();
  }

  // ---- A creation whose last stat fails ----

  ghost function MountedBare(): State {
    State(MountTree(), [BARE, BARE])
  }

  /** The root, loaded and empty. */
  ghost function LoadedBare(): State {
    var t := MountTree();
    State(SetNode(t, ROOT, t.nodes[ROOT].SetLoaded(true)), [BARE, BARE])
  }

  lemma MountedBareIsMount()
    ensures Mounts(MountedBare()) && Coherent(MountedBare())
  {
    assert LayerOk(BARE);
    MountIsCoherent(MountedBare());
  }

  lemma LoadsNothing()
    ensures Step(MountedBare(), Op.Load(ROOT), LoadedBare()) && Coherent(LoadedBare())
  {
    var s := MountedBare();
    MountedBareIsMount();
    DRootViews();
    var v := ViewsOf(s.layers, PathOf(s.t, ROOT));
    assert v[0].Listing? && v[1].Listing? && v[0].items == v[1].items == map[];
    assert CacheOf(s.t, ROOT) == EMPTY;
    ScansNothing(v);
    FilledByNothing(s.t, ROOT);
    LoadKeepsCoherence(s, ROOT, LoadedBare());
  }

  lemma ScansNothing(v: seq<View>)
    requires |v| == 2 && v[0].Listing? && v[1].Listing? && v[0].items == v[1].items == map[]
    ensures ScanFrom(v, Some(0), 0, EMPTY) == EMPTY
  {
    assert ScannedSome(EMPTY, map[], 0, {}, EMPTY) && ScannedSome(EMPTY, map[], 1, {}, EMPTY);
    ScanLayerUnique(EMPTY, map[], 0, EMPTY);
    ScanLayerUnique(EMPTY, map[], 1, EMPTY);
    assert ScanFrom(v, Some(0), 2, EMPTY) == EMPTY;
    assert ScanFrom(v, Some(0), 1, EMPTY) == EMPTY;
  }

  ghost predicate EmptyRoot(s: State) {
    && TreeOk(s.t) && ROOT in s.t.nodes && ROOT in s.t.chains && PathOf(s.t, ROOT) == []
    && s.t.nodes[ROOT] == NewNode("", 0, KEY, true).SetLoaded(true)
  }

  lemma LeavesB(s: State) returns (out: State)
    requires EmptyRoot(s) && s.layers == [BARE, BARE]
    ensures Step(s, Op.CreateBare(ROOT, "b", EMPTY_FILE, false, false, KEY), out)
    ensures out.layers == [WITH_B, BARE] && out.t == s.t
  {
    hide InsertChild;
    hide TreeOk;
    hide LazyResult;
    var root: Path := [];
    out := State(s.t, [WITH_B, BARE]);
    assert root + ["b"] == ["b"];
    assert out.layers == WithUpper(s.layers, WITH_B);
  }

  lemma IsDenied(s: State, out: State)
    requires Coherent(s) && EmptyRoot(s) && s.layers == [BARE, BARE]
    requires Step(s, Op.CreateBare(ROOT, "b", EMPTY_FILE, false, false, KEY), out)
    ensures Fresh(out.layers, ["b"]) == Some(Seen(0, 0, false)) && !Coherent(out)
  {
    hide Coherent;
    hide TreeOk;
    hide Fresh;
    hide Creates;
    hide LazyResult;
    var root: Path := [];
    BNowhere();
    assert root + ["b"] == ["b"] && !InLower(s.layers, ["b"]);
    UnregisteredIsShown(s, ROOT, "b", EMPTY_FILE, false, false, KEY, out, ["b"]);
    UnregisteredIsCoherentIff(s, ROOT, "b", EMPTY_FILE, false, false, KEY, out);
  }

  /** In a root that has been listed, a file is created whose last stat fails. The call fails, the file
      is on the disk, where a fresh mount shows it, and the engine answers from its listing that there is
      none. */
  lemma CreatedNameIsDenied()
    returns (start: State, loaded: State, end: State)
    ensures Mounts(start) && Step(start, Op.Load(ROOT), loaded) && Coherent(loaded)
    ensures Step(loaded, Op.CreateBare(ROOT, "b", EMPTY_FILE, false, false, KEY), end)
    ensures ROOT in end.t.nodes && end.t.nodes[ROOT].IsLoaded() && "b" !in end.t.nodes[ROOT].Children()
    ensures Fresh(end.layers, ["b"]) == Some(Seen(0, 0, false)) && !Coherent(end)
  {
    hide Coherent;
    hide Step;
    MountedBareIsMount();
    LoadsNothing();
    start, loaded := MountedBare(), LoadedBare();
    LoadedIsEmpty();
    end := LeavesB(loaded);
    IsDenied(loaded, end);
  }

  lemma LoadedIsEmpty()
    ensures EmptyRoot(LoadedBare())
  {
    LoadsNothing();
  }
}
