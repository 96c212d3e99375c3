/** Runs with directories that come to a name which a lower layer has. */
module DirectoryRuns {
  import opened Wrappers
  import opened Names
  import opened NodeTree
  import opened TreeOps
  import opened TreeRuns
  import opened Layers
  import opened Merge
  import opened LazyLookup
  import opened FreshMount
  import opened DiskChanges
  import opened Removal
  import opened CleanDisk
  import opened Filling
  import opened Session
  import opened SessionScan
  import opened SessionDisk
  import opened DiskRename
  import opened SessionRename
  import opened Clearing
  import opened Coherence
  import opened Descent
  import opened Recreation
  import opened Counterexamples

  // ---- A directory that moves above a lower one ----

  /** The opaque directory `d`, and a device for `e`; `e` with `e/s/g` below; `d` with `d/s` below that. */
  const UPPER_DE: Layer := map[[] := Entry.Dir(false), ["d"] := Entry.Dir(true), ["e"] := Whiteout]
  const LOWER_E: Layer :=
    map[[] := Entry.Dir(false), ["e"] := Entry.Dir(false), ["e", "s"] := Entry.Dir(false), ["e", "s", "g"] := EMPTY_FILE]
  const LOWER_D: Layer := map[[] := Entry.Dir(false), ["d"] := Entry.Dir(false), ["d", "s"] := Entry.Dir(false)]
  const MOVED_E: Layer := map[[] := Entry.Dir(false), ["e"] := Entry.Dir(true)]

  ghost function MountedDE(): State {
    State(MountTree(), [UPPER_DE, LOWER_E, LOWER_D])
  }

  lemma LayersOfDE()
    ensures LayersOk([UPPER_DE, LOWER_E, LOWER_D]) && LayersOk([MOVED_E, LOWER_E, LOWER_D])
  {
    hide LayerOk;
    UpperLayersOk();
    LowerEOk();
    LowerDOk();
  }

  lemma UpperLayersOk()
    ensures LayerOk(UPPER_DE) && LayerOk(MOVED_E)
  {
    OneName("d");
    OneName("e");
  }

  lemma OneName(n: Name)
    ensures Last([n]) == n && Parent([n]) == []
  {}

  lemma LowerEOk()
    ensures LayerOk(LOWER_E)
  {
    OneName("e");
    assert Parent(["e", "s"]) == ["e"] && Last(["e", "s"]) == "s";
    assert Parent(["e", "s", "g"]) == ["e", "s"] && Last(["e", "s", "g"]) == "g";
    assert EntryPlaced(LOWER_E, ["e"]) && EntryPlaced(LOWER_E, ["e", "s"]) && EntryPlaced(LOWER_E, ["e", "s", "g"]);
  }

  lemma LowerDOk()
    ensures LayerOk(LOWER_D)
  {
    OneName("d");
    assert Parent(["d", "s"]) == ["d"] && Last(["d", "s"]) == "s";
    assert EntryPlaced(LOWER_D, ["d"]) && EntryPlaced(LOWER_D, ["d", "s"]);
  }

  /** What a directory lists on a layer, without the dot entries. */
  lemma ViewItems(l: Layer, p: Path)
    requires p in l && l[p].Dir?
    ensures var v := ViewOf(l, p);
            && v.Listing? && (forall n :: n in v.items <==> p + [n] in l)
            && forall n :: n in v.items ==> v.items[n] == ItemAt(l, p + [n])
  {}

  lemma NoSentinel(l: Layer, p: Path)
    requires forall q :: q in l && q != [] ==> |q[|q| - 1]| == 1
    ensures p + [OPAQUE_WHITEOUT] !in l
    ensures forall n :: p + [WhName(n)] !in l
  {
    assert (p + [OPAQUE_WHITEOUT])[|p|] == OPAQUE_WHITEOUT && |OPAQUE_WHITEOUT| == 12;
    forall n
      ensures p + [WhName(n)] !in l
    {
      assert (p + [WhName(n)])[|p|] == WhName(n) && |WhName(n)| >= 4;
    }
  }

  /** What a lookup makes of an opaque directory, and of a device, on the first layer. */
  lemma OnFirst(v: seq<View>, bound: nat, n: Name)
    requires v != [] && v[0].Listing? && n in v[0].items && !IsWh(n) && WhName(n) !in v[0].items
    ensures v[0].items[n] == DirItem(true) ==> LazyResult(v, bound, n) == Found(Seen(0, 0, true))
    ensures v[0].items[n] == WhiteoutItem ==> LazyResult(v, bound, n) == HiddenBy(n)
  {}

  lemma RootViewsDE()
    ensures var v := ViewsOf([UPPER_DE, LOWER_E, LOWER_D], []);
            LazyResult(v, 0, "d") == Found(Seen(0, 0, true)) && LazyResult(v, 0, "e") == HiddenBy("e")
  {
    hide LazyResult;
    var v := ViewsOf([UPPER_DE, LOWER_E, LOWER_D], []);
    RootViewDE();
    hide ViewOf;
    assert !IsWh("d") && !IsWh("e");
    OnFirst(v, 0, "d");
    OnFirst(v, 0, "e");
  }

  lemma RootViewDE()
    ensures var v := ViewOf(UPPER_DE, []);
            && v.Listing? && "d" in v.items && v.items["d"] == DirItem(true) && "e" in v.items && v.items["e"] == WhiteoutItem
            && WhName("d") !in v.items && WhName("e") !in v.items
  {
    var root: Path := [];
    NoSentinel(UPPER_DE, []);
    NoSentinel(UPPER_DE, ["d"]);
    ViewItems(UPPER_DE, []);
    hide ViewOf;
    assert root + ["d"] == ["d"] && root + ["e"] == ["e"];
  }

  /** A lookup that finds a directory on the last of three layers, where the one between lacks the parent. */
  lemma DirOnThird(v: seq<View>, n: Name)
    requires |v| == 3 && v[0].Listing? && v[1] == Absent && v[2].Listing? && !IsWh(n)
    requires n !in v[0].items && WhName(n) !in v[0].items
    requires n in v[2].items && v[2].items[n] == DirItem(false) && WhName(n) !in v[2].items
    ensures LazyResult(v, 0, n) == Found(Seen(2, 2, true))
  {
    assert LazyFrom(v, 0, 3, n, Some(Seen(2, 2, true))) == Found(Seen(2, 2, true));
    assert LazyFrom(v, 0, 2, n, None) == Found(Seen(2, 2, true));
    assert LazyFrom(v, 0, 1, n, None) == Found(Seen(2, 2, true));
  }

  /** A lookup that finds a file on the second of three layers, the only one that has the parent. */
  lemma FileOnSecond(v: seq<View>, n: Name)
    requires |v| == 3 && v[0] == Absent && v[1].Listing? && v[2] == Absent && !IsWh(n)
    requires n in v[1].items && v[1].items[n] == FileItem && WhName(n) !in v[1].items
    ensures LazyResult(v, 2, n) == Found(Seen(1, 1, false))
  {
    assert LazyFrom(v, 2, 2, n, Some(Seen(1, 1, false))) == Found(Seen(1, 1, false));
    assert LazyFrom(v, 2, 1, n, None) == Found(Seen(1, 1, false));
  }

  lemma SubViews()
    ensures LazyResult(ViewsOf([UPPER_DE, LOWER_E, LOWER_D], ["d"]), 0, "s") == Found(Seen(2, 2, true))
  {
    hide LazyResult;
    hide ViewOf;
    UpperDView();
    LowerDView();
    NoD();
    assert !IsWh("s");
    DirOnThird(ViewsOf([UPPER_DE, LOWER_E, LOWER_D], ["d"]), "s");
  }

  lemma UpperDView()
    ensures var v := ViewOf(UPPER_DE, ["d"]); v.Listing? && "s" !in v.items && WhName("s") !in v.items
  {
    NoSentinel(UPPER_DE, ["d"]);
    ViewItems(UPPER_DE, ["d"]);
    assert |["d"] + ["s"]| == 2;
  }

  lemma LowerDView()
    ensures var v := ViewOf(LOWER_D, ["d"]);
            v.Listing? && "s" in v.items && v.items["s"] == DirItem(false) && WhName("s") !in v.items
  {
    NoSentinel(LOWER_D, ["d"]);
    NoSentinel(LOWER_D, ["d", "s"]);
    ViewItems(LOWER_D, ["d"]);
    assert ["d"] + ["s"] == ["d", "s"];
  }

  lemma NoD()
    ensures ViewOf(LOWER_E, ["d"]) == Absent
  {
    assert ["d"][0] == "d" && ["e"][0] == "e";
  }

  lemma GrandchildViews()
    ensures LazyResult(ViewsOf([MOVED_E, LOWER_E, LOWER_D], ["e", "s"]), 2, "g") == Found(Seen(1, 1, false))
  {
    hide LazyResult;
    var v := ViewsOf([MOVED_E, LOWER_E, LOWER_D], ["e", "s"]);
    NoSentinel(LOWER_E, ["e", "s"]);
    ViewItems(LOWER_E, ["e", "s"]);
    assert ["e", "s"] + ["g"] == ["e", "s", "g"];
    NoES();
    assert v[1].items["g"] == FileItem && !IsWh("g");
    FileOnSecond(v, "g");
  }

  lemma NoES()
    ensures ViewOf(MOVED_E, ["e", "s"]) == Absent && ViewOf(LOWER_D, ["e", "s"]) == Absent
  {
    assert ["e", "s"][0] == "e" && ["d", "s"][0] == "d";
  }

  /** The directory `d` of the root, by the name `n`, with at most the child `s`, which is on layer 2. */
  ghost predicate DirInRoot(s: State, d: NodeId, n: Name, x: Option<NodeId>, whiteouts: set<Name>, upper: Layer) {
    && TreeOk(s.t) && s.t.root == ROOT && ROOT in s.t.nodes && ROOT in s.t.chains && PathOf(s.t, ROOT) == []
    && s.t.nodes[ROOT].layer == 0 && s.t.nodes[ROOT].last == 0 && s.t.nodes[ROOT].dir == DirState.Dir(map[n := d], whiteouts, false)
    && s.layers == [upper, LOWER_E, LOWER_D] && d in s.t.nodes && d in s.t.chains && d != ROOT && PathOf(s.t, d) == [n]
    && s.t.nodes[d] == Node(Some(ROOT), n, DirState.Dir(if x.None? then map[] else map["s" := x.value], {}, false), 0, 0, KEY, false)
    && (x.Some? ==> SubDir(s.t, d, n, x.value)) && Grounded(true, s)
  }

  ghost predicate SubDir(t: Tree, d: NodeId, n: Name, x: NodeId)
    requires TreeOk(t)
  {
    && x in t.nodes && x in t.chains && x != ROOT && x != d && PathOf(t, x) == [n, "s"]
    && t.nodes[x] == Node(Some(d), "s", DirState.Dir(map[], {}, false), 2, 2, KEY, false)
  }

  lemma GroundedIsTree(s: State)
    requires Grounded(true, s)
    ensures TreeOk(s.t) && AllListed(s.t)
  {}

  lemma LooksD() returns (out: State, d: NodeId)
    ensures Step(MountedDE(), Op.Look(ROOT, "d"), out) && DirInRoot(out, d, "d", None, {}, UPPER_DE)
  {
    hide TreeOk;
    hide LazyResult;
    hide InsertChild;
    hide Grounded;
    hide LayersOk;
    var s := MountedDE();
    LayersOfDE();
    MountIsGrounded(true, s);
    GroundedIsTree(s);
    RootViewsDE();
    MountRoot();
    var node := NewNode("d", 0, KEY, true);
    Inserts(s.t, ROOT, node);
    assert [] + ["d"] == ["d"] && map[]["d" := s.t.nextId] == map["d" := s.t.nextId] && {} - {"d"} == {};
    out, d := State(InsertChild(s.t, ROOT, node), s.layers), s.t.nextId;
    assert node.(last := 0) == node;
    assert LookedUp(s.t, ROOT, "d", Found(Seen(0, 0, true)), out.t);
    LookKeepsGround(true, s, ROOT, "d", out);
    IdsInChains(out.t, d);
  }

  lemma MountRoot()
    ensures var t := MountTree(); t.root == ROOT && ROOT in t.nodes && ROOT in t.chains && t.nodes[ROOT] == NewNode("", 0, KEY, true)
    ensures TreeOk(MountTree()) && PathOf(MountTree(), ROOT) == []
  {
    MountedIsMount();
  }

  lemma IdsInChains(t: Tree, x: NodeId)
    requires TreeOk(t) && x in t.nodes
    ensures x in t.chains
  {}

  lemma LooksS(s: State, d: NodeId) returns (out: State, x: NodeId)
    requires DirInRoot(s, d, "d", None, {}, UPPER_DE)
    ensures Step(s, Op.Look(d, "s"), out) && DirInRoot(out, d, "d", Some(x), {}, UPPER_DE)
  {
    hide TreeOk;
    hide LazyResult;
    hide InsertChild;
    hide Grounded;
    GroundedIsTree(s);
    SubViews();
    IdsBelowNext(s.t, ROOT);
    var node := NewNode("s", 2, KEY, true);
    Inserts(s.t, d, node);
    assert ["d"] + ["s"] == ["d", "s"] && map[]["s" := s.t.nextId] == map["s" := s.t.nextId] && {} - {"s"} == {};
    out, x := State(InsertChild(s.t, d, node), s.layers), s.t.nextId;
    assert node.(last := 2) == node;
    assert LookedUp(s.t, d, "s", Found(Seen(2, 2, true)), out.t);
    LookKeepsGround(true, s, d, "s", out);
    GroundedIsTree(out);
    IdsInChains(out.t, ROOT);
    IdsInChains(out.t, x);
    RootOfTree(out.t);
  }

  lemma LooksE(s: State, d: NodeId, x: NodeId) returns (out: State)
    requires DirInRoot(s, d, "d", Some(x), {}, UPPER_DE)
    ensures Step(s, Op.Look(ROOT, "e"), out) && DirInRoot(out, d, "d", Some(x), {"e"}, UPPER_DE)
  {
    hide TreeOk;
    hide LazyResult;
    hide Grounded;
    GroundedIsTree(s);
    RootViewsDE();
    Sets(s.t, ROOT, s.t.nodes[ROOT].InsertWhiteout("e"));
    assert {} + {"e"} == {"e"} && "e" != "d" && !IsWh("e");
    out := State(SetNode(s.t, ROOT, s.t.nodes[ROOT].InsertWhiteout("e")), s.layers);
    assert LookedUp(s.t, ROOT, "e", HiddenBy("e"), out.t);
    LookKeepsGround(true, s, ROOT, "e", out);
  }

  // ---- The move ----

  lemma MovedDToE()
    ensures RenamedUpper(UPPER_DE, Move(["d"], ["e"], true, Nothing)) == MOVED_E
  {
    hide RenamedUpper;
    forall p
      ensures p in RenamedUpper(UPPER_DE, Move(["d"], ["e"], true, Nothing)) <==> p in MOVED_E
      ensures p in MOVED_E ==> RenamedUpper(UPPER_DE, Move(["d"], ["e"], true, Nothing))[p] == MOVED_E[p]
    {
      MovedDToEAt(p);
    }
  }

  lemma MovedDToEAt(p: Path)
    ensures var up := RenamedUpper(UPPER_DE, Move(["d"], ["e"], true, Nothing));
            (p in up <==> p in MOVED_E) && (p in MOVED_E ==> up[p] == MOVED_E[p])
  {
    assert ["d"][0] == "d" && ["e"][0] == "e";
    assert Shift(["d"], ["e"], ["d"]) == ["e"];
    if ["e"] <= p {
      ShiftBack(["e"], ["d"], p);
      var r := Shift(["e"], ["d"], p);
      assert r in UPPER_DE && ["d"] <= r ==> r == ["d"];
    } else {
      assert MarkerOf(["e"])[0] == WhName("e") && |WhName("e")| == 5;
    }
  }

  lemma MoveStands(s: State, d: NodeId, x: NodeId)
    requires DirInRoot(s, d, "d", Some(x), {"e"}, UPPER_DE)
    ensures TreeOk(s.t) && RenameAllowed(s.t, ROOT, "d", ROOT, "e") && Replaceable(s, ROOT, "e", true)
  {
    GroundedIsTree(s);
    ChildNotAbove(s.t, ROOT, "d");
    assert "e" != "d";
  }

  lemma MovesD(s: State, d: NodeId, x: NodeId) returns (out: State)
    requires DirInRoot(s, d, "d", Some(x), {"e"}, UPPER_DE)
    ensures Step(s, Op.Rename(ROOT, "d", ROOT, "e", Nothing), out) && TreeOk(out.t) && out.layers == [MOVED_E, LOWER_E, LOWER_D]
    ensures InLower(s.layers, ["e"]) && SubDir(out.t, d, "e", x)
  {
    hide RenameTree;
    hide RenamedUpper;
    hide RenameAllowed;
    hide Replaceable;
    hide TreeOk;
    hide Grounded;
    hide SubDir;
    GroundedIsTree(s);
    MoveStands(s, d, x);
    MovedDToE();
    ChildNotAbove(s.t, ROOT, "d");
    var root: Path := [];
    assert root + ["d"] == ["d"] && root + ["e"] == ["e"];
    out := State(RenameTree(s.t, ROOT, "d", ROOT, "e"), [MOVED_E, LOWER_E, LOWER_D]);
    assert out.layers == WithUpper(s.layers, MOVED_E);
    MovedTree(s, d, x, out.t);
    InLowerAt(s.layers, ["e"], 1);
  }

  lemma MovedTree(s: State, d: NodeId, x: NodeId, u: Tree)
    requires DirInRoot(s, d, "d", Some(x), {"e"}, UPPER_DE) && u == RenameTree(s.t, ROOT, "d", ROOT, "e")
    ensures TreeOk(u) && SubDir(u, d, "e", x)
  {
    hide RenameTree;
    hide RenamedNode;
    hide RenameAllowed;
    hide Replaceable;
    hide TreeOk;
    hide Grounded;
    GroundedIsTree(s);
    MoveStands(s, d, x);
    var root: Path := [];
    assert root + ["d"] == ["d"] && root + ["e"] == ["e"];
    RenameNodes(s.t, ROOT, "d", ROOT, "e", x);
    NoTarget(s.t);
    StaysBelow(s.t, d, x);
    RenamedPathOf(s, ROOT, "d", ROOT, "e", Nothing, u, x);
    assert Shift(["d"], ["e"], ["d", "s"]) == ["e", "s"] && ["d"] <= ["d", "s"];
    IdsInChains(u, x);
  }

  lemma NoTarget(t: Tree)
    requires ROOT in t.nodes && "e" !in t.nodes[ROOT].Children()
    ensures Target(t, ROOT, "e") == {}
  {}

  lemma StaysBelow(t: Tree, d: NodeId, x: NodeId)
    requires x in t.nodes && x != ROOT && x != d
    ensures RenamedNode(t, x, ROOT, "d", ROOT, "e", d) == t.nodes[x]
  {}

  lemma LooksG(s: State, d: NodeId, x: NodeId) returns (out: State, y: NodeId)
    requires TreeOk(s.t) && s.layers == [MOVED_E, LOWER_E, LOWER_D] && SubDir(s.t, d, "e", x)
    ensures Step(s, Op.Look(x, "g"), out) && y in out.t.nodes && !Descends(out.t, y)
  {
    hide TreeOk;
    hide LazyResult;
    hide InsertChild;
    GrandchildViews();
    var node := NewNode("g", 1, KEY, false);
    Inserts(s.t, x, node);
    assert !IsWh("g");
    out, y := State(InsertChild(s.t, x, node), s.layers), s.t.nextId;
    assert node.(last := 1) == node;
    assert LookedUp(s.t, x, "g", Found(Seen(1, 1, false)), out.t);
  }

  /** The opaque directory `d`, whose lower child `s` a lookup has found past it, is renamed to the
      removed name `e`, which a layer between has, with `e/s/g`. The next lookup finds `g` there: the
      child is on a layer above its parent's. All steps but the rename are those of Descent. */
  lemma GrandchildAbove()
    returns (start: State, looked: State, within: State, known: State, moved: State, end: State, d: NodeId, x: NodeId, y: NodeId)
    ensures MountsAnything(start) && Step(start, Op.Look(ROOT, "d"), looked) && Step(looked, Op.Look(d, "s"), within)
    ensures Step(within, Op.Look(ROOT, "e"), known) && Grounded(true, known)
    ensures Step(known, Op.Rename(ROOT, "d", ROOT, "e", Nothing), moved) && LayersOk(moved.layers) && InLower(known.layers, ["e"])
    ensures Step(moved, Op.Look(x, "g"), end) && y in end.t.nodes && !Descends(end.t, y)
  {
    hide Step;
    hide Grounded;
    hide LayersOk;
    hide TreeOk;
    hide Descends;
    LayersOfDE();
    start := MountedDE();
    looked, d := LooksD();
    within, x := LooksS(looked, d);
    known := LooksE(within, d, x);
    moved := MovesD(known, d, x);
    end, y := LooksG(moved, d, x);
  }

  // ---- A directory that is removed and made again ----

  /** The upper layer with a device for `d/x`, and with one for `d`; the lower one is `WITH_X`. */
  const WHITED_X: Layer := WITH_D[["d", "x"] := Whiteout]
  const WHITED_D: Layer := BARE[["d"] := Whiteout]

  ghost function MountedX(): State {
    State(MountTree(), [BARE, WITH_X])
  }

  lemma MountedXIsMount()
    ensures Mounts(MountedX()) && Coherent(MountedX())
  {
    OneName("d");
    assert Parent(["d", "x"]) == ["d"] && Last(["d", "x"]) == "x";
    assert LayerOk(BARE) && LayerOk(WITH_X);
    assert forall p :: p in WITH_X ==> CleanEntry(WITH_X, p);
    MountIsCoherent(MountedX());
  }

  /** A layer where `d` holds `x` and nothing else. */
  lemma HoldsX(l: Layer)
    requires ["d"] in l && l[["d"]] == Entry.Dir(false) && ["d", "x"] in l && !l[["d", "x"]].Dir?
    requires forall p :: p in l && |p| == 2 ==> p == ["d", "x"]
    ensures ViewOf(l, ["d"]).Listing?
    ensures ViewOf(l, ["d"]).items == map["x" := if l[["d", "x"]] == Whiteout then WhiteoutItem else FileItem]
  {
    ViewItems(l, ["d"]);
    var items := ViewOf(l, ["d"]).items;
    hide ViewOf;
    assert ["d"] + ["x"] == ["d", "x"];
    forall n: Name
      ensures ["d"] + [n] in l <==> n == "x"
    {
      assert |["d"] + [n]| == 2 && (["d"] + [n])[1] == n && ["d", "x"][1] == "x";
    }
    assert items.Keys == {"x"};
  }

  /** A layer whose root lists `d`. */
  lemma HoldsD(l: Layer)
    requires [] in l && l[[]] == Entry.Dir(false) && ["d"] in l && !l[["d"]].File? && (l[["d"]].Dir? ==> !l[["d"]].opq)
    requires forall p :: p in l && p != [] ==> |p[|p| - 1]| == 1
    ensures var v := ViewOf(l, []);
            && v.Listing? && "d" in v.items && v.items["d"] == (if l[["d"]] == Whiteout then WhiteoutItem else DirItem(false))
            && WhName("d") !in v.items
  {
    var root: Path := [];
    ViewItems(l, []);
    hide ViewOf;
    NoSentinel(l, []);
    NoSentinel(l, ["d"]);
    assert root + ["d"] == ["d"];
  }

  lemma XViews()
    ensures ViewOf(WITH_X, []).Listing? && "d" in ViewOf(WITH_X, []).items && ViewOf(WITH_X, []).items["d"] == DirItem(false)
    ensures WhName("d") !in ViewOf(WITH_X, []).items
    ensures ViewOf(WITH_X, ["d"]).Listing? && ViewOf(WITH_X, ["d"]).items == map["x" := FileItem]
  {
    hide ViewOf;
    HoldsD(WITH_X);
    HoldsX(WITH_X);
  }

  lemma WhitedViews()
    ensures ViewOf(WHITED_X, ["d"]).Listing? && ViewOf(WHITED_X, ["d"]).items == map["x" := WhiteoutItem]
    ensures ViewOf(WHITED_D, []).Listing? && "d" in ViewOf(WHITED_D, []).items && ViewOf(WHITED_D, []).items["d"] == WhiteoutItem
    ensures WhName("d") !in ViewOf(WHITED_D, []).items
  {
    hide ViewOf;
    HoldsX(WHITED_X);
    HoldsD(WHITED_D);
  }

  lemma LookupsX()
    ensures LazyResult(ViewsOf([BARE, WITH_X], []), 0, "d") == Found(Seen(1, 1, true))
    ensures LazyResult(ViewsOf([WITH_D, WITH_X], ["d"]), 1, "x") == Found(Seen(1, 1, false))
    ensures LazyResult(ViewsOf([WHITED_X, WITH_X], ["d"]), 1, "x") == HiddenBy("x")
    ensures LazyResult(ViewsOf([WHITED_D, WITH_X], []), 0, "d") == HiddenBy("d")
  {
    hide ViewOf;
    hide LazyResult;
    XViews();
    WhitedViews();
    DRootViews();
    DViews();
    assert !IsWh("d") && !IsWh("x") && |WhName("x")| == 5;
    DirOnSecond(ViewsOf([BARE, WITH_X], []), 0, "d");
    FoundOnSecond(ViewsOf([WITH_D, WITH_X], ["d"]), 1, "x");
    OnFirst(ViewsOf([WHITED_X, WITH_X], ["d"]), 1, "x");
    OnFirst(ViewsOf([WHITED_D, WITH_X], []), 0, "d");
  }

  /** The directory `d`, on layer `k`, with its maps and, if it lists `x`, the node and the layer of that. */
  ghost predicate InD(s: State, d: NodeId, k: nat, x: Option<(NodeId, nat)>, whiteouts: set<Name>, loaded: bool, upper: Layer) {
    && TreeOk(s.t) && s.t.root == ROOT && ROOT in s.t.nodes && ROOT in s.t.chains && PathOf(s.t, ROOT) == []
    && s.t.nodes[ROOT] == NewNode("", 0, KEY, true).InsertChild("d", d).SetLoaded(false)
    && s.layers == [upper, WITH_X] && d in s.t.nodes && d in s.t.chains && d != ROOT && PathOf(s.t, d) == ["d"]
    && s.t.nodes[d] == Node(Some(ROOT), "d", DirState.Dir(if x.None? then map[] else map["x" := x.value.0], whiteouts, loaded), k, 1, KEY, false)
    && (x.Some? ==> XInD(s.t, d, x.value.0, x.value.1)) && Coherent(s)
  }

  ghost predicate XInD(t: Tree, d: NodeId, x: NodeId, k: nat)
    requires TreeOk(t)
  {
    && x in t.nodes && x != ROOT && x != d && PathOf(t, x) == ["d", "x"]
    && t.nodes[x] == Node(Some(d), "x", DirState.NotADir, k, 1, KEY, false)
  }

  lemma LooksAtD() returns (out: State, d: NodeId)
    ensures Step(MountedX(), Op.Look(ROOT, "d"), out) && InD(out, d, 1, None, {}, false, BARE)
  {
    hide TreeOk;
    hide LazyResult;
    hide InsertChild;
    hide Coherent;
    var s := MountedX();
    MountedXIsMount();
    CoherentTree(s);
    LookupsX();
    MountRoot();
    var node := NewNode("d", 1, KEY, true).(last := 1);
    Inserts(s.t, ROOT, node);
    assert [] + ["d"] == ["d"] && map[]["d" := s.t.nextId] == map["d" := s.t.nextId] && {} - {"d"} == {} && !IsWh("d");
    out, d := State(InsertChild(s.t, ROOT, node), s.layers), s.t.nextId;
    assert LookedUp(s.t, ROOT, "d", Found(Seen(1, 1, true)), out.t);
    LookKeepsCoherence(s, ROOT, "d", out);
    CoherentTree(out);
    IdsInChains(out.t, d);
  }

  lemma CopiesD(s: State, d: NodeId) returns (out: State)
    requires InD(s, d, 1, None, {}, false, BARE)
    ensures Step(s, Op.CopyUp(d), out) && InD(out, d, 0, None, {}, false, WITH_D)
  {
    hide TreeOk;
    hide Coherent;
    CoherentTree(s);
    var node := s.t.nodes[d].(layer := 0);
    Sets(s.t, d, node);
    assert BARE[["d"] := Entry.Dir(false)] == WITH_D && WITH_X[["d"]] == Entry.Dir(false);
    out := State(SetNode(s.t, d, node), [WITH_D, WITH_X]);
    assert out.layers == WithUpper(s.layers, WITH_D);
    CopyKeepsCoherence(s, d, out);
  }

  lemma LooksAtX(s: State, d: NodeId) returns (out: State, x: NodeId)
    requires InD(s, d, 0, None, {}, false, WITH_D)
    ensures Step(s, Op.Look(d, "x"), out) && InD(out, d, 0, Some((x, 1)), {}, false, WITH_D)
  {
    hide TreeOk;
    hide LazyResult;
    hide InsertChild;
    hide Coherent;
    CoherentTree(s);
    LookupsX();
    IdsBelowNext(s.t, ROOT);
    var node := NewNode("x", 1, KEY, false).(last := 1);
    Inserts(s.t, d, node);
    assert ["d"] + ["x"] == ["d", "x"] && map[]["x" := s.t.nextId] == map["x" := s.t.nextId] && {} - {"x"} == {} && !IsWh("x");
    out, x := State(InsertChild(s.t, d, node), s.layers), s.t.nextId;
    assert LookedUp(s.t, d, "x", Found(Seen(1, 1, false)), out.t);
    LookKeepsCoherence(s, d, "x", out);
    CoherentTree(out);
    IdsInChains(out.t, ROOT);
    RootOfTree(out.t);
  }

  lemma CopiesX(s: State, d: NodeId, x: NodeId) returns (out: State)
    requires InD(s, d, 0, Some((x, 1)), {}, false, WITH_D)
    ensures Step(s, Op.CopyUp(x), out) && InD(out, d, 0, Some((x, 0)), {}, false, WITH_X)
  {
    hide TreeOk;
    hide Coherent;
    CoherentTree(s);
    var node := s.t.nodes[x].(layer := 0);
    Sets(s.t, x, node);
    assert WITH_D[["d", "x"] := EMPTY_FILE] == WITH_X;
    out := State(SetNode(s.t, x, node), [WITH_X, WITH_X]);
    assert out.layers == WithUpper(s.layers, WITH_X);
    CopyKeepsCoherence(s, x, out);
  }

  lemma RemovesX(s: State, d: NodeId, x: NodeId) returns (out: State)
    requires InD(s, d, 0, Some((x, 0)), {}, false, WITH_X)
    ensures Step(s, Op.Remove(d, "x", Device), out) && InD(out, d, 0, None, {}, false, WHITED_X)
  {
    hide TreeOk;
    hide RmTree;
    hide Coherent;
    CoherentTree(s);
    Removes1(s.t, d, "x");
    assert map["x" := x] - {"x"} == map[] && ["d"] + ["x"] == ["d", "x"];
    assert WithoutSubtree(WITH_X, ["d", "x"]) == WITH_D;
    out := State(RmTree(s.t, d, "x"), [WHITED_X, WITH_X]);
    assert out.layers == Removed(s.layers, ["d", "x"], Device);
    RemoveKeepsCoherence(s, d, "x", Device, out);
    CoherentTree(out);
    IdsInChains(out.t, ROOT);
    RootOfTree(out.t);
  }

  lemma LooksAgainAtX(s: State, d: NodeId) returns (out: State)
    requires InD(s, d, 0, None, {}, false, WHITED_X)
    ensures Step(s, Op.Look(d, "x"), out) && InD(out, d, 0, None, {"x"}, false, WHITED_X)
  {
    hide TreeOk;
    hide LazyResult;
    hide Coherent;
    CoherentTree(s);
    LookupsX();
    Sets(s.t, d, s.t.nodes[d].InsertWhiteout("x"));
    assert {} + {"x"} == {"x"} && !IsWh("x");
    out := State(SetNode(s.t, d, s.t.nodes[d].InsertWhiteout("x")), s.layers);
    assert LookedUp(s.t, d, "x", HiddenBy("x"), out.t);
    LookKeepsCoherence(s, d, "x", out);
  }

  lemma RescansX(v: seq<View>)
    requires |v| == 2 && v[0].Listing? && v[1].Listing? && v[0].items == map["x" := WhiteoutItem] && v[1].items == map["x" := FileItem]
    ensures ScanFrom(v, Some(1), 0, Cache(map[], {"x"})) == Cache(map[], {"x"})
  {
    var c := Cache(map[], {"x"});
    OneWhiteout(c, v[0].items, 0);
    OneWhiteout(c, v[1].items, 1);
    assert ScanFrom(v, Some(1), 2, c) == c;
    assert ScanFrom(v, Some(1), 1, c) == c;
  }

  lemma OneWhiteout(c: Cache, items: map<Name, Item>, i: nat)
    requires c == Cache(map[], {"x"}) && items.Keys == {"x"}
    ensures ScanLayer(c, items, i) == c
  {
    forall n
      ensures WhName(n) != "x" && (WhitedOut(c, items, items.Keys, n) ==> n == "x")
    {
      assert |WhName(n)| >= 4;
    }
    assert ScannedSome(c, items, i, items.Keys, c);
    ScanLayerUnique(c, items, i, c);
  }

  lemma LoadsD(s: State, d: NodeId) returns (out: State)
    requires InD(s, d, 0, None, {"x"}, false, WHITED_X)
    ensures Step(s, Op.Load(d), out) && InD(out, d, 0, None, {"x"}, true, WHITED_X)
  {
    hide TreeOk;
    hide Coherent;
    hide ScanFrom;
    hide ViewOf;
    hide Filled;
    CoherentTree(s);
    XViews();
    WhitedViews();
    RescansX(ViewsOf(s.layers, ["d"]));
    assert CacheOf(s.t, d) == Cache(map[], {"x"});
    FilledByNothing(s.t, d);
    var node := s.t.nodes[d].SetLoaded(true);
    Sets(s.t, d, node);
    out := State(SetNode(s.t, d, node), s.layers);
    assert Filled(s.t, s.t, d, Rescan(s, d));
    LoadKeepsCoherence(s, d, out);
  }

  /** The root, with the name `d` remembered as a whiteout or not. */
  ghost predicate WithoutD(s: State, whiteouts: set<Name>) {
    && TreeOk(s.t) && s.t.root == ROOT && ROOT in s.t.nodes && ROOT in s.t.chains && PathOf(s.t, ROOT) == []
    && s.t.nodes[ROOT].layer == 0 && s.t.nodes[ROOT].last == 0 && s.t.nodes[ROOT].dir == DirState.Dir(map[], whiteouts, false)
    && s.layers == [WHITED_D, WITH_X] && Coherent(s)
  }

  lemma RemovesD(s: State, d: NodeId) returns (out: State)
    requires InD(s, d, 0, None, {"x"}, true, WHITED_X)
    ensures Step(s, Op.Remove(ROOT, "d", Device), out) && WithoutD(out, {})
  {
    hide TreeOk;
    hide RmTree;
    hide Coherent;
    CoherentTree(s);
    Removes1(s.t, ROOT, "d");
    var root: Path := [];
    assert map["d" := d] - {"d"} == map[] && root + ["d"] == ["d"] && {} - {"d"} == {};
    assert WithoutSubtree(WHITED_X, ["d"]) == BARE;
    out := State(RmTree(s.t, ROOT, "d"), [WHITED_D, WITH_X]);
    assert out.layers == Removed(s.layers, ["d"], Device);
    RemoveKeepsCoherence(s, ROOT, "d", Device, out);
    CoherentTree(out);
    RootOfTree(out.t);
  }

  lemma LooksAgainAtD(s: State) returns (out: State)
    requires WithoutD(s, {})
    ensures Step(s, Op.Look(ROOT, "d"), out) && WithoutD(out, {"d"})
  {
    hide TreeOk;
    hide LazyResult;
    hide Coherent;
    CoherentTree(s);
    LookupsX();
    Sets(s.t, ROOT, s.t.nodes[ROOT].InsertWhiteout("d"));
    assert {} + {"d"} == {"d"} && !IsWh("d");
    out := State(SetNode(s.t, ROOT, s.t.nodes[ROOT].InsertWhiteout("d")), s.layers);
    assert LookedUp(s.t, ROOT, "d", HiddenBy("d"), out.t);
    LookKeepsCoherence(s, ROOT, "d", out);
  }

  lemma MakesD(s: State) returns (out: State)
    requires WithoutD(s, {"d"})
    ensures Step(s, Op.Create(ROOT, "d", Entry.Dir(false), true, false, KEY), out) && out.layers == [WITH_D, WITH_X]
  {
    hide TreeOk;
    hide LazyResult;
    hide Coherent;
    hide InsertChild;
    CoherentTree(s);
    var root: Path := [];
    assert root + ["d"] == ["d"] && |MarkerOf(["d"])[0]| == 5;
    assert MadeUpper(WHITED_D, ["d"], Entry.Dir(false), false) == WITH_D;
    out := State(InsertChild(s.t, ROOT, NewNode("d", 0, KEY, true).SetLoaded(true)), [WITH_D, WITH_X]);
    assert out.layers == WithUpper(s.layers, WITH_D);
  }

  lemma LowerXShows(s: State, out: State)
    requires WithoutD(s, {"d"}) && Step(s, Op.Create(ROOT, "d", Entry.Dir(false), true, false, KEY), out)
    ensures Fresh(out.layers, ["d", "x"]).Some? && !Coherent(out)
  {
    hide Coherent;
    hide Fresh;
    CoherentTree(s);
    var root: Path := [];
    assert root + ["d"] == ["d"] && ["d"] + ["x"] == ["d", "x"] && Ordinary("d");
    OneName("d");
    InLowerAt(s.layers, ["d"], 1);
    InLowerAt(s.layers, ["d", "x"], 1);
    CreatedOnFree(s, ROOT, "d", Entry.Dir(false), true, false, KEY, out);
    LowerShowsThrough(s.layers, ["d"], "x");
    CreationIsCoherentIff(s, ROOT, "d", Entry.Dir(false), true, false, KEY, out);
  }

  /** The directory `d` of the root, with the file `d/x` on a lower layer: `d/x` is unlinked, `d` is removed
      and made again. All calls succeed, and the lower `d/x` is shown in the new directory. Until `d` is
      made, the session is a session as in Coherence. */
  lemma RemadeDirectoryIsNotEmpty()
    returns (start: State, a: State, b: State, c: State, e: State, f: State, g: State, h: State, i: State, j: State, end: State, d: NodeId, x: NodeId)
    ensures Mounts(start) && Step(start, Op.Look(ROOT, "d"), a) && Step(a, Op.CopyUp(d), b)
    ensures Step(b, Op.Look(d, "x"), c) && Step(c, Op.CopyUp(x), e) && Step(e, Op.Remove(d, "x", Device), f)
    ensures Step(f, Op.Look(d, "x"), g) && Step(g, Op.Load(d), h) && Step(h, Op.Remove(ROOT, "d", Device), i)
    ensures Step(i, Op.Look(ROOT, "d"), j) && Coherent(j)
    ensures Step(j, Op.Create(ROOT, "d", Entry.Dir(false), true, false, KEY), end)
    ensures Fresh(end.layers, ["d", "x"]).Some? && !Coherent(end)
  {
    hide Step;
    hide Mounts;
    hide InD;
    hide WithoutD;
    MountedXIsMount();
    start := MountedX();
    a, d := LooksAtD();
    b := CopiesD(a, d);
    c, x := LooksAtX(b, d);
    e := CopiesX(c, d, x);
    f := RemovesX(e, d, x);
    g := LooksAgainAtX(f, d);
    h := LoadsD(g, d);
    i := RemovesD(h, d);
    j := LooksAgainAtD(i);
    StillCoherent(j);
    end := MakesD(j);
    LowerXShows(j, end);
  }

  lemma StillCoherent(s: State)
    requires WithoutD(s, {"d"})
    ensures Coherent(s)
  {}
}
