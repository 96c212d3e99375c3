/** What a rename shows: the moved subtree at its new place, nothing at the old one, and all else
    as it was. */
module RenameSeen {
  import opened Wrappers
  import opened Names
  import opened NodeTree
  import opened TreeOps
  import opened TreeRuns
  import opened Layers
  import opened Merge
  import opened FreshMount
  import opened DiskChanges
  import opened Removal
  import opened CleanDisk
  import opened Session
  import opened SessionFrame
  import opened SessionDisk
  import opened DiskRename
  import opened SessionRename
  import opened Clearing

  /** The upper layer with only the old place changed. */
  ghost function HalfRenamed(up: Layer, mv: Move): Layer
    requires mv.src != [] && mv.dst != []
  {
    var after := RenamedUpper(up, mv);
    map p | p in up.Keys + after.Keys && (if mv.src <= p || p == MarkerOf(mv.src) then p in after else p in up) ::
      if mv.src <= p || p == MarkerOf(mv.src) then after[p] else up[p]
  }

  lemma TwoChanges(layers: seq<Layer>, mv: Move)
    requires Movable(layers, mv)
    ensures var mid := HalfRenamed(layers[0], mv);
            ChangedAt(layers[0], mid, mv.src) && ChangedAt(mid, RenamedUpper(layers[0], mv), mv.dst)
  {
    var up := RenamedUpper(layers[0], mv);
    var mid := HalfRenamed(layers[0], mv);
    forall p | !(mv.dst <= p) && p != MarkerOf(mv.dst)
      ensures (p in mid <==> p in up) && (p in mid ==> mid[p] == up[p])
    {
      RenamedAt(layers, mv, p);
    }
  }

  lemma RenameElsewhere(layers: seq<Layer>, mv: Move, r: Path)
    requires Movable(layers, mv) && !(mv.src <= r) && !(mv.dst <= r)
    ensures Fresh(WithUpper(layers, RenamedUpper(layers[0], mv)), r) == Fresh(layers, r)
    ensures EntryAt(WithUpper(layers, RenamedUpper(layers[0], mv)), r) == EntryAt(layers, r)
  {
    var mid := HalfRenamed(layers[0], mv);
    TwoChanges(layers, mv);
    assert LayerOk(layers[0]) && EntryPlaced(layers[0], mv.src);
    FreshElsewhere(layers, mid, mv.src, r);
    EntryElsewhere(layers, mid, mv.src, r);
    assert Parent(mv.dst) in mid && mid[Parent(mv.dst)].Dir? by {
      PrefixOfParent(mv.src, mv.dst);
      assert UpperEntry(layers[0], Parent(mv.dst));
      MarkerHoldsNothing(layers, mv.src);
    }
    FreshElsewhere(WithUpper(layers, mid), RenamedUpper(layers[0], mv), mv.dst, r);
    EntryElsewhere(WithUpper(layers, mid), RenamedUpper(layers[0], mv), mv.dst, r);
    assert WithUpper(WithUpper(layers, mid), RenamedUpper(layers[0], mv)) == WithUpper(layers, RenamedUpper(layers[0], mv));
  }

  lemma MarkerHoldsNothing(layers: seq<Layer>, q: Path)
    requires Clean(layers) && q != []
    ensures MarkerOf(q) in layers[0] ==> !layers[0][MarkerOf(q)].Dir?
  {
    WhNameInverse(Last(q), Last(q));
    assert Last(MarkerOf(q)) == WhName(Last(q));
    assert MarkerOf(q) in layers[0] ==> UpperEntry(layers[0], MarkerOf(q));
  }

  /** A moved directory lists what it listed. */
  lemma ShiftedView(layers: seq<Layer>, mv: Move, p: Path)
    requires Movable(layers, mv) && mv.isDir && mv.src <= p
    ensures ViewsOf(WithUpper(layers, RenamedUpper(layers[0], mv)), Shift(mv.src, mv.dst, p)) == ViewsOf(layers, p)
  {
    var up, r := RenamedUpper(layers[0], mv), Shift(mv.src, mv.dst, p);
    var v, w := ViewsOf(layers, p), ViewsOf(WithUpper(layers, up), r);
    ShiftedUpperView(layers, mv, p);
    NotInLowerBelow(layers, mv.dst, r);
    NotInLowerBelow(layers, mv.src, p);
    forall i | 1 <= i < |layers|
      ensures v[i] == w[i]
    {
      assert p !in layers[i] && r !in layers[i];
    }
  }

  lemma ShiftedEntry(layers: seq<Layer>, mv: Move, p: Path, x: Name)
    requires Movable(layers, mv) && mv.src <= p
    ensures var up, r := RenamedUpper(layers[0], mv), Shift(mv.src, mv.dst, p);
            && (r in up <==> p in layers[0]) && (r in up ==> up[r] == layers[0][p])
            && (r + [x] in up <==> p + [x] in layers[0]) && (r + [x] in up ==> up[r + [x]] == layers[0][p + [x]])
  {
    var r := Shift(mv.src, mv.dst, p);
    ShiftSnoc(mv.src, mv.dst, p, x);
    ShiftBack(mv.src, mv.dst, p);
    ShiftBack(mv.src, mv.dst, p + [x]);
    RenamedAt(layers, mv, r);
    RenamedAt(layers, mv, r + [x]);
  }

  lemma SameListing(a: Layer, p: Path, b: Layer, r: Path)
    requires (p in a <==> r in b) && (p in a ==> a[p] == b[r]) && (IsOpaque(a, p) <==> IsOpaque(b, r))
    requires forall x :: p + [x] in a <==> r + [x] in b
    requires forall x :: p + [x] in a && r + [x] in b ==> ItemAt(a, p + [x]) == ItemAt(b, r + [x])
    ensures ViewOf(a, p) == ViewOf(b, r)
  {
    assert Listed(a, p) == Listed(b, r);
  }

  lemma ShiftedItem(layers: seq<Layer>, mv: Move, p: Path, x: Name)
    requires Movable(layers, mv) && mv.src <= p
    ensures var up, r := RenamedUpper(layers[0], mv), Shift(mv.src, mv.dst, p);
            && (r + [x] in up <==> p + [x] in layers[0])
            && (r + [x] in up && p + [x] in layers[0] ==> ItemAt(up, r + [x]) == ItemAt(layers[0], p + [x]))
  {
    ShiftedEntry(layers, mv, p, x);
    ShiftSnoc(mv.src, mv.dst, p, x);
    ShiftedEntry(layers, mv, p + [x], OPAQUE_WHITEOUT);
  }

  lemma ShiftedUpperView(layers: seq<Layer>, mv: Move, p: Path)
    requires Movable(layers, mv) && mv.src <= p
    ensures ViewOf(RenamedUpper(layers[0], mv), Shift(mv.src, mv.dst, p)) == ViewOf(layers[0], p)
  {
    var up, r := RenamedUpper(layers[0], mv), Shift(mv.src, mv.dst, p);
    forall x
      ensures p + [x] in layers[0] <==> r + [x] in up
      ensures p + [x] in layers[0] && r + [x] in up ==> ItemAt(layers[0], p + [x]) == ItemAt(up, r + [x])
    {
      ShiftedItem(layers, mv, p, x);
    }
    ShiftedEntry(layers, mv, p, OPAQUE_WHITEOUT);
    SameListing(layers[0], p, up, r);
  }

  /** Below a moved directory, what was shown is shown at the new place. */
  lemma {:induction false} ShiftedFresh(layers: seq<Layer>, mv: Move, p: Path)
    requires Movable(layers, mv) && mv.isDir && mv.src <= p
    requires Fresh(WithUpper(layers, RenamedUpper(layers[0], mv)), mv.dst) == Fresh(layers, mv.src)
    ensures Fresh(WithUpper(layers, RenamedUpper(layers[0], mv)), Shift(mv.src, mv.dst, p)) == Fresh(layers, p)
    decreases |p|
  {
    if p == mv.src {
      ShiftBack(mv.src, mv.dst, p);
    } else {
      ShiftParent(mv.src, mv.dst, p);
      ShiftedFresh(layers, mv, Parent(p));
      ShiftedView(layers, mv, Parent(p));
    }
  }

  /** The contents that are shown at a path after the rename: those of where it comes from. */
  ghost function EntryAfterRename(layers: seq<Layer>, mv: Move, r: Path): Option<Entry> {
    if mv.dst <= r then EntryAt(layers, Shift(mv.dst, mv.src, r))
    else if mv.src <= r then None
    else EntryAt(layers, r)
  }

  /** What stands on the upper layer moves as it is; on lower layers nothing does. */
  lemma MovedEntry(layers: seq<Layer>, mv: Move, r: Path, s: Seen)
    requires Movable(layers, mv) && mv.dst <= r
    requires Fresh(WithUpper(layers, RenamedUpper(layers[0], mv)), r) == Some(s)
    requires var f := Fresh(layers, Shift(mv.dst, mv.src, r)); f.Some? && f.value.layer == s.layer
    requires s.layer > 0 ==> mv.isDir
    ensures EntryAt(WithUpper(layers, RenamedUpper(layers[0], mv)), r) == EntryAt(layers, Shift(mv.dst, mv.src, r))
  {
    hide RenamedUpper;
    hide Fresh;
    var p := Shift(mv.dst, mv.src, r);
    RenamedAt(layers, mv, r);
    FreshIsTopmost(layers, p);
    if s.layer > 0 {
      NotInLowerBelow(layers, mv.src, p);
      InLowerAt(layers, p, s.layer);
    }
  }

  /** What is shown at a path after the rename, other than the new name. */
  ghost function SeenAfterRename(layers: seq<Layer>, mv: Move, r: Path): Option<Seen> {
    if mv.dst <= r then Fresh(layers, Shift(mv.dst, mv.src, r))
    else if mv.src <= r then None
    else Fresh(layers, r)
  }

  /** The node at a path and its contents are those of where it comes from. */
  ghost predicate ShowsMoved(layers: seq<Layer>, mv: Move, out: seq<Layer>, r: Path) {
    && (if r == mv.dst then OnUpper(out, r, mv.isDir, InLower(layers, r)) else Fresh(out, r) == SeenAfterRename(layers, mv, r))
    && EntryAt(out, r) == EntryAfterRename(layers, mv, r)
  }

  /** A node of the given kind on the upper layer, that reaches below or not. */
  ghost predicate OnUpper(layers: seq<Layer>, q: Path, isDir: bool, reaches: bool) {
    var f := Fresh(layers, q);
    f.Some? && f.value.layer == 0 && (f.value.isDir <==> isDir) && (f.value.last > 0 <==> reaches)
  }

  lemma RenameShowsMoved(s: State, sp: NodeId, n: Name, dp: NodeId, m: Name, cover: Cover, out: State, r: Path)
    requires Coherent(s) && Renames(s, sp, n, dp, m, cover, out)
    requires Ordinary(m) && RenameFits(s, sp, n, dp, m) && NoStaleMarker(s, sp, n, dp, m)
    ensures ShowsMoved(s.layers, MoveOf(s.t, sp, n, dp, m, cover), out.layers, r)
  {
    var c, mv := s.t.nodes[sp].Children()[n], MoveOf(s.t, sp, n, dp, m, cover);
    RenameMoves(s, sp, n, dp, m, cover, out);
    RenameKeepsCoherence(s, sp, n, dp, m, cover, out);
    if mv.dst <= r {
      DestinationShown(s, sp, n, dp, m, cover, out);
      if r != mv.dst {
        BelowDestination(s, sp, n, dp, m, cover, out, r);
      }
      DestinationEntry(s, sp, n, dp, m, cover, out, r);
    } else if mv.src <= r {
      SourceGone(s, sp, n, dp, m, cover, out);
      NothingBelow(out.layers, mv.src, r);
    } else {
      RenameElsewhere(s.layers, mv, r);
    }
  }

  lemma OnUpperAlone(layers: seq<Layer>, q: Path, isDir: bool)
    requires OnUpper(layers, q, isDir, false)
    ensures Fresh(layers, q) == Some(Seen(0, 0, isDir))
  {}

  /** A node on the upper layer, with or without lower entries of its path. */
  lemma UpperNodeShown(s: State, x: NodeId)
    requires Coherent(s) && x in s.t.nodes && x != s.t.root && s.t.nodes[x].layer == 0
    ensures OnUpper(s.layers, PathOf(s.t, x), s.t.nodes[x].IsDir(), InLower(s.layers, PathOf(s.t, x)))
  {
    var q := PathOf(s.t, x);
    PathSplits(s.t, x);
    CoherentFresh(s, x);
    CleanFresh(s.layers, q);
    var f := Fresh(s.layers, q).value;
    if f.last > 0 {
      InLowerAt(s.layers, q, f.last);
    }
  }

  lemma DestinationShown(s: State, sp: NodeId, n: Name, dp: NodeId, m: Name, cover: Cover, out: State)
    requires Coherent(s) && Renames(s, sp, n, dp, m, cover, out) && Coherent(out)
    requires Movable(s.layers, MoveOf(s.t, sp, n, dp, m, cover))
    ensures var mv, c := MoveOf(s.t, sp, n, dp, m, cover), s.t.nodes[sp].Children()[n];
            && OnUpper(out.layers, mv.dst, mv.isDir, InLower(s.layers, mv.dst))
            && c in out.t.nodes && PathOf(out.t, c) == mv.dst && (out.t.nodes[c].IsDir() <==> mv.isDir)
  {
    var mv, c := MoveOf(s.t, sp, n, dp, m, cover), s.t.nodes[sp].Children()[n];
    ChildShown(s, sp, n);
    RenameNodes(s.t, sp, n, dp, m, c);
    TargetApartIf(s, sp, n, dp, m);
    CoherentListed(s);
    RenamedPathOf(s, sp, n, dp, m, cover, out.t, c);
    ShiftBack(mv.src, mv.dst, mv.src);
    LowerKept(s.layers, out.layers[0], mv.dst);
    UpperNodeShown(out, c);
  }

  lemma BelowDestination(s: State, sp: NodeId, n: Name, dp: NodeId, m: Name, cover: Cover, out: State, r: Path)
    requires Coherent(s) && Renames(s, sp, n, dp, m, cover, out) && Coherent(out)
    requires Movable(s.layers, MoveOf(s.t, sp, n, dp, m, cover))
    requires var mv := MoveOf(s.t, sp, n, dp, m, cover); mv.dst <= r && r != mv.dst
    ensures var mv := MoveOf(s.t, sp, n, dp, m, cover); Fresh(out.layers, r) == Fresh(s.layers, Shift(mv.dst, mv.src, r))
  {
    var mv, c := MoveOf(s.t, sp, n, dp, m, cover), s.t.nodes[sp].Children()[n];
    var p := Shift(mv.dst, mv.src, r);
    DestinationShown(s, sp, n, dp, m, cover, out);
    ShiftBack(mv.dst, mv.src, r);
    ChildShown(s, sp, n);
    if mv.isDir {
      UpperNodeIsShown(s, c);
      OnUpperAlone(out.layers, mv.dst, true);
      ShiftedFresh(s.layers, mv, p);
    } else {
      NothingInDir(out, c, r);
      ShiftParent(mv.dst, mv.src, r);
      NothingInDir(s, c, p);
    }
  }

  lemma DestinationEntry(s: State, sp: NodeId, n: Name, dp: NodeId, m: Name, cover: Cover, out: State, r: Path)
    requires Coherent(s) && Renames(s, sp, n, dp, m, cover, out)
    requires Movable(s.layers, MoveOf(s.t, sp, n, dp, m, cover))
    requires var mv := MoveOf(s.t, sp, n, dp, m, cover);
             && mv.dst <= r
             && if r == mv.dst then OnUpper(out.layers, r, mv.isDir, InLower(s.layers, r))
                else Fresh(out.layers, r) == SeenAfterRename(s.layers, mv, r)
    ensures EntryAt(out.layers, r) == EntryAfterRename(s.layers, MoveOf(s.t, sp, n, dp, m, cover), r)
  {
    hide RenameTree;
    hide RenamedUpper;
    hide Movable;
    var mv, c := MoveOf(s.t, sp, n, dp, m, cover), s.t.nodes[sp].Children()[n];
    var p := Shift(mv.dst, mv.src, r);
    ChildShown(s, sp, n);
    CoherentFresh(s, c);
    ShiftBack(mv.dst, mv.src, r);
    if p != mv.src && !mv.isDir {
      NothingInDir(s, c, p);
    }
    if Fresh(out.layers, r).Some? {
      MovedEntry(s.layers, mv, r, Fresh(out.layers, r).value);
    }
  }

  lemma SourceGone(s: State, sp: NodeId, n: Name, dp: NodeId, m: Name, cover: Cover, out: State)
    requires Coherent(s) && Renames(s, sp, n, dp, m, cover, out) && Coherent(out)
    requires Movable(s.layers, MoveOf(s.t, sp, n, dp, m, cover))
    ensures Fresh(out.layers, MoveOf(s.t, sp, n, dp, m, cover).src) == None
  {
    var mv := MoveOf(s.t, sp, n, dp, m, cover);
    assert Parent(mv.src) == PathOf(s.t, sp) && Last(mv.src) == n;
    OldNameGone(s.layers, mv);
    RenameNodes(s.t, sp, n, dp, m, sp);
    TargetApartIf(s, sp, n, dp, m);
    CoherentListed(s);
    RenamedPathOf(s, sp, n, dp, m, cover, out.t, sp);
    FreshInDir(out, sp, n);
  }
}
