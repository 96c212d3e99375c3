/** A rename of a file that reaches below the upper layer, whose whiteout could not be made: the code
    ignores that failure. The session stays coherent, and the old name shows the lower file again. */
module RenameUncovered {
  import opened Wrappers
  import opened Names
  import opened NodeTree
  import opened TreeOps
  import opened TreeRuns
  import opened Layers
  import opened Merge
  import opened FreshMount
  import opened Removal
  import opened CleanDisk
  import opened Session
  import opened SessionFrame
  import opened SessionDisk
  import opened DiskRename
  import opened SessionRename
  import opened RenameSeen
  import opened Clearing

  ghost predicate RenamesUncovered(s: State, sp: NodeId, n: Name, dp: NodeId, m: Name, out: State) {
    && TreeOk(s.t) && s.layers != [] && RenameAllowed(s.t, sp, n, dp, m)
    && var c := s.t.nodes[s.t.nodes[sp].Children()[n]];
       && c.layer == 0 && !c.IsDir() && c.last > 0
       && s.t.nodes[dp].layer == 0 && Replaceable(s, dp, m, false)
       && out == State(RenameTree(s.t, sp, n, dp, m),
                       WithUpper(s.layers, RenamedUpper(s.layers[0], MoveOf(s.t, sp, n, dp, m, Nothing))))
  }

  /** The rename as it would have been with a device in place of the old name. */
  ghost function WithDevice(s: State, sp: NodeId, n: Name, dp: NodeId, m: Name): State
    requires TreeOk(s.t) && s.layers != [] && RenameAllowed(s.t, sp, n, dp, m)
  {
    State(RenameTree(s.t, sp, n, dp, m),
          WithUpper(s.layers, RenamedUpper(s.layers[0], MoveOf(s.t, sp, n, dp, m, Device))))
  }

  lemma DeviceAndBack(up: Layer, mv: Move)
    requires mv.src != [] && mv.dst != [] && !(mv.dst <= mv.src)
    ensures var covered := RenamedUpper(up, mv.(cover := Device));
            && mv.src in covered && covered[mv.src] == Whiteout
            && covered - {mv.src} == RenamedUpper(up, mv.(cover := Nothing))
  {
    var bare := RenamedUpper(up, mv.(cover := Nothing));
    assert mv.src !in bare;
    assert bare[mv.src := Whiteout] - {mv.src} == bare;
  }

  lemma DeviceIsRename(s: State, sp: NodeId, n: Name, dp: NodeId, m: Name, out: State)
    requires Coherent(s) && RenamesUncovered(s, sp, n, dp, m, out)
    requires Ordinary(m) && RenameFits(s, sp, n, dp, m) && NoStaleMarker(s, sp, n, dp, m)
    ensures Renames(s, sp, n, dp, m, Device, WithDevice(s, sp, n, dp, m)) && Coherent(WithDevice(s, sp, n, dp, m))
    ensures Movable(s.layers, MoveOf(s.t, sp, n, dp, m, Device))
  {
    hide RenameTree;
    hide RenamedUpper;
    RenameMoves(s, sp, n, dp, m, Device, WithDevice(s, sp, n, dp, m));
    RenameKeepsCoherence(s, sp, n, dp, m, Device, WithDevice(s, sp, n, dp, m));
  }

  /** The directory of the old name: as it was, but for the name, and marked for a new scan. */
  ghost predicate OldDirectory(s: State, sp: NodeId, n: Name, mid: State)
    requires TreeOk(s.t) && TreeOk(mid.t) && sp in s.t.nodes
  {
    && sp in mid.t.nodes && PathOf(mid.t, sp) == PathOf(s.t, sp)
    && var node := mid.t.nodes[sp];
       && node.IsDir() && !node.IsLoaded() && !node.IsWhiteout(n) && n !in node.Children()
       && node.layer == s.t.nodes[sp].layer
  }

  lemma OldDirectoryStays(s: State, sp: NodeId, n: Name, dp: NodeId, m: Name)
    requires Coherent(s) && RenameAllowed(s.t, sp, n, dp, m) && !s.t.nodes[s.t.nodes[sp].Children()[n]].IsDir()
    requires Replaceable(s, dp, m, false)
    requires TreeOk(RenameTree(s.t, sp, n, dp, m))
    ensures OldDirectory(s, sp, n, WithDevice(s, sp, n, dp, m))
  {
    hide RenameTree;
    hide RenamedUpper;
    var mid, c := WithDevice(s, sp, n, dp, m), s.t.nodes[sp].Children()[n];
    ChildShown(s, sp, n);
    TargetApartIf(s, sp, n, dp, m);
    RenameNodes(s.t, sp, n, dp, m, sp);
    CoherentListed(s);
    RenamedPathOf(s, sp, n, dp, m, Device, mid.t, sp);
    assert NodeFine(s, sp);
    ChildNotAbove(s.t, sp, n);
    OldNameDropped(s.t, sp, n, dp, m, c);
  }

  lemma DeviceGoes(s: State, sp: NodeId, n: Name, dp: NodeId, m: Name, out: State)
    requires TreeOk(s.t) && RenamesUncovered(s, sp, n, dp, m, out) && TreeOk(out.t) && sp in out.t.nodes
    requires PathOf(out.t, sp) == PathOf(s.t, sp) && !(PathOf(s.t, dp) + [m] <= PathOf(s.t, sp) + [n])
    ensures Uncovers(WithDevice(s, sp, n, dp, m), sp, n, out)
  {
    hide RenameTree;
    hide RenamedUpper;
    hide TreeOk;
    var mid, mv := WithDevice(s, sp, n, dp, m), MoveOf(s.t, sp, n, dp, m, Device);
    DeviceAndBack(s.layers[0], mv);
    assert WithUpper(mid.layers, mid.layers[0] - {mv.src}) == out.layers;
  }

  /** It is the rename with a device, and then the device goes. */
  lemma UncoveredSteps(s: State, sp: NodeId, n: Name, dp: NodeId, m: Name, out: State)
    requires Coherent(s) && RenamesUncovered(s, sp, n, dp, m, out)
    requires Ordinary(m) && RenameFits(s, sp, n, dp, m) && NoStaleMarker(s, sp, n, dp, m)
    ensures var mid := WithDevice(s, sp, n, dp, m);
            && Renames(s, sp, n, dp, m, Device, mid) && Coherent(mid) && Ordinary(n)
            && OldDirectory(s, sp, n, mid) && Uncovers(mid, sp, n, out)
  {
    hide RenameTree;
    hide RenamedUpper;
    hide Coherent;
    hide Uncovers;
    hide Renames;
    DeviceIsRename(s, sp, n, dp, m, out);
    CoherentParts(s);
    CoherentParts(WithDevice(s, sp, n, dp, m));
    OldDirectoryStays(s, sp, n, dp, m);
    ChildShown(s, sp, n);
    InMergeIsOrdinary(s.layers, PathOf(s.t, sp), n);
    DeviceGoes(s, sp, n, dp, m, out);
  }

  lemma CoherentParts(s: State)
    requires Coherent(s)
    ensures TreeOk(s.t) && Clean(s.layers)
  {}

  lemma SourceDirOnUpper(s: State, sp: NodeId, n: Name)
    requires Coherent(s) && sp in s.t.nodes && n in s.t.nodes[sp].Children() && EntryOk(s.t, sp, n)
    ensures s.t.nodes[s.t.nodes[sp].Children()[n]].layer == 0 ==> s.t.nodes[sp].layer == 0
  {
    ChildShown(s, sp, n);
    LayersDescend(s, s.t.nodes[sp].Children()[n]);
  }

  lemma OldNameDropped(t: Tree, sp: NodeId, n: Name, dp: NodeId, m: Name, c: NodeId)
    requires sp in t.nodes && n in t.nodes[sp].Children() && (sp == dp ==> n != m) && c != sp
    ensures var node := RenamedNode(t, sp, sp, n, dp, m, c);
            && node.IsDir() && !node.IsLoaded() && n !in node.Children() && node.layer == t.nodes[sp].layer
            && (node.IsWhiteout(n) ==> t.nodes[sp].IsWhiteout(n))
  {}

  lemma UncoveredKeepsCoherence(s: State, sp: NodeId, n: Name, dp: NodeId, m: Name, out: State)
    requires Coherent(s) && RenamesUncovered(s, sp, n, dp, m, out)
    requires Ordinary(m) && RenameFits(s, sp, n, dp, m) && NoStaleMarker(s, sp, n, dp, m)
    ensures Coherent(out)
  {
    UncoveredSteps(s, sp, n, dp, m, out);
    UncoverKeepsCoherence(WithDevice(s, sp, n, dp, m), sp, n, out);
  }

  lemma UncoveredIsCoherentIff(s: State, sp: NodeId, n: Name, dp: NodeId, m: Name, out: State)
    requires Coherent(s) && RenamesUncovered(s, sp, n, dp, m, out) && Ordinary(m) && NoStaleMarker(s, sp, n, dp, m)
    ensures Coherent(out) <==> RenameFits(s, sp, n, dp, m)
  {
    hide RenameTree;
    hide RenamedUpper;
    if RenameFits(s, sp, n, dp, m) {
      UncoveredKeepsCoherence(s, sp, n, dp, m, out);
    }
    if Coherent(out) {
      CoherentRenameFits(s, sp, n, dp, m, out);
    }
  }

  /** The file of the topmost lower layer that has the path is shown there. */
  ghost predicate LowerFileShown(layers: seq<Layer>, out: seq<Layer>, q: Path) {
    Fresh(out, q).Some? &&
      var k := Fresh(out, q).value.layer;
      && 1 <= k < |layers| && q in layers[k] && layers[k][q].File? && (forall j :: 1 <= j < k ==> q !in layers[j])
      && !Fresh(out, q).value.isDir && EntryAt(out, q) == Some(layers[k][q])
  }

  /** What is shown at a path then: the moved file at its new place; at the old one the lower file,
      if there is one; elsewhere what was shown. */
  ghost predicate SeenUncovered(layers: seq<Layer>, mv: Move, out: seq<Layer>, r: Path) {
    if !(mv.src <= r) then ShowsMoved(layers, mv, out, r)
    else if r == mv.src && InLower(layers, r) then LowerFileShown(layers, out, r)
    else Fresh(out, r) == None
  }

  lemma UncoveredShows(s: State, sp: NodeId, n: Name, dp: NodeId, m: Name, out: State, r: Path)
    requires Coherent(s) && RenamesUncovered(s, sp, n, dp, m, out)
    requires Ordinary(m) && RenameFits(s, sp, n, dp, m) && NoStaleMarker(s, sp, n, dp, m)
    ensures SeenUncovered(s.layers, MoveOf(s.t, sp, n, dp, m, Nothing), out.layers, r)
  {
    hide RenameTree;
    hide RenamedUpper;
    hide Coherent;
    var mid, src := WithDevice(s, sp, n, dp, m), PathOf(s.t, sp) + [n];
    UncoveredSteps(s, sp, n, dp, m, out);
    if src <= r {
      UncoveredSource(s, sp, n, dp, m, out);
      if r != src {
        NothingBelowFile(out.layers, src, r);
      }
    } else {
      SourceDirOnUpper(s, sp, n);
      UncoveredKeepsCoherence(s, sp, n, dp, m, out);
      UncoverShows(mid, sp, n, out, r);
      RenameShowsMoved(s, sp, n, dp, m, Device, mid, r);
    }
  }

  lemma UncoveredSource(s: State, sp: NodeId, n: Name, dp: NodeId, m: Name, out: State)
    requires Coherent(s) && RenamesUncovered(s, sp, n, dp, m, out)
    requires Ordinary(m) && RenameFits(s, sp, n, dp, m) && NoStaleMarker(s, sp, n, dp, m)
    ensures var src := PathOf(s.t, sp) + [n];
            && (Fresh(out.layers, src).Some? ==> !Fresh(out.layers, src).value.isDir)
            && if InLower(s.layers, src) then LowerFileShown(s.layers, out.layers, src) else Fresh(out.layers, src) == None
  {
    hide RenameTree;
    hide RenamedUpper;
    hide Coherent;
    var mid, src := WithDevice(s, sp, n, dp, m), PathOf(s.t, sp) + [n];
    UncoveredSteps(s, sp, n, dp, m, out);
    SourceDirOnUpper(s, sp, n);
    UncoveredKeepsCoherence(s, sp, n, dp, m, out);
    UncoverShows(mid, sp, n, out, src);
    LowerKept(s.layers, mid.layers[0], src);
    CoherentParts(s);
    CoherentParts(out);
    CleanFresh(out.layers, src);
    ChildShown(s, sp, n);
    UpperKind(s, s.t.nodes[sp].Children()[n]);
    if Fresh(out.layers, src).Some? {
      LowerKind(s.layers, out.layers, src);
    }
  }

  /** Where the upper layer had a file, what lower layers show is a file. */
  lemma LowerKind(layers: seq<Layer>, out: seq<Layer>, src: Path)
    requires Clean(layers) && src in layers[0] && layers[0][src].File?
    requires |out| == |layers| && src !in out[0] && out == WithUpper(layers, out[0])
    requires Fresh(out, src).Some? && IsTopmost(out, src, Fresh(out, src).value)
    ensures LowerFileShown(layers, out, src)
  {
    hide Fresh;
    var f := Fresh(out, src).value;
    assert f.layer > 0;
    forall j | 1 <= j < |layers|
      ensures out[j] == layers[j]
    {}
    assert NoClash(layers, 0, f.layer, src);
  }

  /** A node on layer 0 has its kind on the upper layer. */
  lemma UpperKind(s: State, x: NodeId)
    requires Coherent(s) && x in s.t.nodes && x != s.t.root && s.t.nodes[x].layer == 0
    ensures var q := PathOf(s.t, x);
            q in s.layers[0] && s.layers[0][q] != Whiteout && (s.layers[0][q].Dir? <==> s.t.nodes[x].IsDir())
  {
    assert NodeFine(s, x);
  }

  lemma {:induction false} NothingBelowFile(layers: seq<Layer>, q: Path, r: Path)
    requires q <= r && q != r && (Fresh(layers, q).Some? ==> !Fresh(layers, q).value.isDir)
    ensures Fresh(layers, r) == None
    decreases |r|
  {
    if Parent(r) != q {
      assert q <= Parent(r) by {
        assert q == r[..|q|] == Parent(r)[..|q|];
      }
      NothingBelowFile(layers, q, Parent(r));
    }
  }
}
