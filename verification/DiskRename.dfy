/** The replacing branch of `rename` on a clean disk: the upper entry moves with all that is below
    it, an entry at the new place is replaced, and the old name is covered where one is called for. */
module DiskRename {
  import opened Wrappers
  import opened Names
  import opened NodeTree
  import opened Layers
  import opened Merge
  import opened FreshMount
  import opened DiskChanges
  import opened Removal
  import opened CleanDisk
  import opened Filling
  import opened Session
  import opened SessionFrame
  import opened SessionDisk
  import opened Disks

  datatype Move = Move(src: Path, dst: Path, isDir: bool, cover: Cover)

  function Shift(src: Path, dst: Path, p: Path): (r: Path)
    requires src <= p
    ensures dst <= r
  {
    dst + p[|src|..]
  }

  lemma ShiftBack(src: Path, dst: Path, p: Path)
    requires src <= p
    ensures Shift(dst, src, Shift(src, dst, p)) == p
    ensures Shift(src, dst, p) == dst <==> p == src
  {
    assert p == src + p[|src|..];
  }

  /** The marker at the destination is deleted only when a directory moves. */
  function RenamedUpper(up: Layer, mv: Move): Layer
    requires mv.src != [] && mv.dst != []
  {
    var kept := map p | p in up && !(mv.src <= p) && !(mv.dst <= p) && !(mv.isDir && p == MarkerOf(mv.dst)) :: up[p];
    var places := set p | p in up && mv.src <= p :: Shift(mv.src, mv.dst, p);
    var moved := map r | r in places && mv.dst <= r && Shift(mv.dst, mv.src, r) in up :: up[Shift(mv.dst, mv.src, r)];
    match mv.cover
    case Device => (kept + moved)[mv.src := Whiteout]
    case Marker => (kept + moved)[MarkerOf(mv.src) := File(Regular([]))]
    case Nothing => kept + moved
  }

  /** What lower layers have at the path are files. */
  ghost predicate LowerFiles(layers: seq<Layer>, q: Path) {
    forall i :: 1 <= i < |layers| && q in layers[i] ==> layers[i][q].File?
  }

  /** What a rename that succeeds, of a shown entry, can count on: if a lower layer has the new name, it
      is the name of a file there, and a file comes to it. A file may only move to a name that has no
      marker. */
  ghost predicate Movable(layers: seq<Layer>, mv: Move) {
    && Clean(layers) && mv.src != [] && mv.dst != [] && !(mv.src <= mv.dst) && !(mv.dst <= mv.src)
    && Ordinary(Last(mv.src)) && Ordinary(Last(mv.dst))
    && (InLower(layers, mv.dst) ==> !mv.isDir && LowerFiles(layers, mv.dst))
    && mv.src in layers[0] && layers[0][mv.src] != Whiteout && (layers[0][mv.src].Dir? <==> mv.isDir)
    && (InLower(layers, mv.src) ==> mv.cover != Nothing && !mv.isDir) && (mv.isDir ==> mv.cover == Nothing)
    && (!mv.isDir ==> MarkerOf(mv.dst) !in layers[0])
    && Parent(mv.dst) in layers[0] && layers[0][Parent(mv.dst)].Dir?
  }

  lemma MarkerNextTo(q: Path, r: Path)
    requires q != [] && r != [] && !(r <= q) && !IsWh(Last(r))
    ensures !(r <= MarkerOf(q))
  {
    var w := MarkerOf(q);
    assert Last(w) == WhName(Last(q));
    WhNameInverse(Last(q), Last(q));
    assert |w| == |q|;
    assert |r| < |q| ==> w[..|r|] == q[..|r|];
  }

  /** The upper layer, entry by entry. */
  lemma RenamedAt(layers: seq<Layer>, mv: Move, p: Path)
    requires Movable(layers, mv)
    ensures var up := RenamedUpper(layers[0], mv);
            if mv.dst <= p then
              (p in up <==> Shift(mv.dst, mv.src, p) in layers[0])
              && (p in up ==> up[p] == layers[0][Shift(mv.dst, mv.src, p)])
            else if mv.src <= p then
              (p in up <==> mv.cover.Device? && p == mv.src) && (p in up ==> up[p] == Whiteout)
            else if p == MarkerOf(mv.src) then
              (p in up <==> mv.cover.Marker?) && (p in up ==> up[p] == File(Regular([])))
            else if p == MarkerOf(mv.dst) then p !in up
            else SameEntry(layers[0], up, p)
  {
    assert UpperEntry(layers[0], mv.src);
    MarkersDiffer(mv.src, mv.dst);
    MarkerNextTo(mv.src, mv.dst);
    MarkerNextTo(mv.dst, mv.src);
    MarkerNotBelow(mv.src);
    MarkerNotBelow(mv.dst);
    if mv.dst <= p {
      ShiftBack(mv.dst, mv.src, p);
    }
  }

  lemma SameAwayFromBoth(layers: seq<Layer>, mv: Move, p: Path, k: Name)
    requires Movable(layers, mv) && !(mv.src <= p) && !(mv.dst <= p) && !IsWh(k)
    ensures || (p == Parent(mv.src) && k == Last(mv.src)) || (p == Parent(mv.dst) && k == Last(mv.dst))
            || SameName(layers[0], RenamedUpper(layers[0], mv), p, k)
  {
    var r, w := p + [k], p + [WhName(k)];
    assert Parent(r) == p && Last(r) == k && Parent(w) == p && Last(w) == WhName(k);
    ExtendAway(mv.src, p, k);
    ExtendAway(mv.src, p, WhName(k));
    ExtendAway(mv.dst, p, k);
    ExtendAway(mv.dst, p, WhName(k));
    WhNameInverse(k, k);
    assert w == MarkerOf(r);
    MarkersDiffer(r, mv.src);
    MarkersDiffer(r, mv.dst);
    MarkersDiffer(mv.src, r);
    MarkersDiffer(mv.dst, r);
    RenamedAt(layers, mv, r);
    RenamedAt(layers, mv, w);
  }

  // ---- The disk stays clean ----

  lemma RenamedPlaced(layers: seq<Layer>, mv: Move, p: Path)
    requires Movable(layers, mv) && p != [] && p in RenamedUpper(layers[0], mv)
    ensures EntryPlaced(RenamedUpper(layers[0], mv), p)
  {
    var up := RenamedUpper(layers[0], mv);
    RenamedAt(layers, mv, p);
    RenamedAt(layers, mv, Parent(p));
    if p == mv.dst {
      RenamedParent(layers, mv, Parent(mv.dst));
    } else if mv.dst <= p {
      ShiftParent(mv.dst, mv.src, p);
      assert EntryPlaced(layers[0], Shift(mv.dst, mv.src, p));
    } else if mv.src <= p || p == MarkerOf(mv.src) {
      assert EntryPlaced(layers[0], mv.src);
      RenamedParent(layers, mv, Parent(mv.src));
      WhNameInverse(Last(mv.src), Last(mv.src));
    } else {
      assert EntryPlaced(layers[0], p);
      RenamedParent(layers, mv, Parent(p));
    }
  }

  lemma ShiftParent(src: Path, dst: Path, p: Path)
    requires src <= p && src != p
    ensures src <= Parent(p) && Shift(src, dst, p) != [] && Parent(Shift(src, dst, p)) == Shift(src, dst, Parent(p))
    ensures Last(Shift(src, dst, p)) == Last(p)
  {
    assert src == p[..|src|] == Parent(p)[..|src|];
  }

  /** Directories outside the moved and the replaced subtree stay. */
  lemma RenamedParent(layers: seq<Layer>, mv: Move, p: Path)
    requires Movable(layers, mv) && p in layers[0] && layers[0][p].Dir? && !(mv.src <= p) && !(mv.dst <= p)
    ensures var up := RenamedUpper(layers[0], mv); p in up && up[p].Dir?
  {
    RenamedAt(layers, mv, p);
    assert UpperEntry(layers[0], p);
    WhNameInverse(Last(mv.src), Last(mv.src));
    WhNameInverse(Last(mv.dst), Last(mv.dst));
    assert Last(MarkerOf(mv.src)) == WhName(Last(mv.src)) && Last(MarkerOf(mv.dst)) == WhName(Last(mv.dst));
  }

  lemma ShiftMarker(src: Path, dst: Path, p: Path)
    requires src <= p && src != p
    ensures src <= MarkerOf(p) && Shift(src, dst, MarkerOf(p)) == MarkerOf(Shift(src, dst, p))
  {
    ShiftParent(src, dst, p);
    assert src <= MarkerOf(p) by {
      assert MarkerOf(p)[..|src|] == Parent(p)[..|src|];
    }
  }

  lemma RenamedEntry(layers: seq<Layer>, mv: Move, p: Path)
    requires Movable(layers, mv) && p in RenamedUpper(layers[0], mv)
    ensures UpperEntry(RenamedUpper(layers[0], mv), p)
  {
    RenamedAt(layers, mv, p);
    if p != [] {
      RenamedAt(layers, mv, MarkerOf(p));
      MarkersDiffer(p, mv.src);
      MarkersDiffer(p, mv.dst);
      if p == mv.dst {
        MarkerNotBelow(mv.dst);
        MarkerNextTo(mv.dst, mv.src);
      } else if mv.dst <= p {
        ShiftMarker(mv.dst, mv.src, p);
        ShiftParent(mv.dst, mv.src, p);
        assert UpperEntry(layers[0], Shift(mv.dst, mv.src, p));
      } else {
        MarkerNextTo(p, mv.dst);
        RenamedOldEntry(layers, mv, p);
      }
    }
  }

  lemma RenamedOldEntry(layers: seq<Layer>, mv: Move, p: Path)
    requires Movable(layers, mv) && p in RenamedUpper(layers[0], mv) && p != [] && !(mv.dst <= p) && !(mv.dst <= MarkerOf(p))
    ensures UpperEntry(RenamedUpper(layers[0], mv), p)
  {
    RenamedAt(layers, mv, p);
    RenamedAt(layers, mv, MarkerOf(p));
    MarkersDiffer(p, mv.src);
    assert UpperEntry(layers[0], mv.src);
    if p == MarkerOf(mv.src) {
      MarkerOfMarker(layers, mv.src);
      WhNameInverse(Last(mv.src), Last(mv.src));
      assert Last(p) == WhName(Last(mv.src));
      MarkersDiffer(p, mv.dst);
      MarkerNextTo(p, mv.src);
      MarkerNotBelow(mv.src);
    } else if p == mv.src {
      MarkerNotBelow(mv.src);
    } else {
      assert UpperEntry(layers[0], p);
      MarkerNextTo(p, mv.src);
    }
  }

  /** Where a file moves, nothing is below it. */
  lemma FileMovesAlone(layers: seq<Layer>, mv: Move, p: Path)
    requires Movable(layers, mv) && !mv.isDir && mv.dst <= p
    ensures var up := RenamedUpper(layers[0], mv);
            (p in up <==> p == mv.dst) && (p in up ==> up[p].File?)
  {
    RenamedAt(layers, mv, p);
    ShiftBack(mv.dst, mv.src, p);
    if p != mv.dst {
      NothingInside(layers[0], mv.src, Shift(mv.dst, mv.src, p));
    }
  }

  lemma RenamedOpacity(layers: seq<Layer>, mv: Move, p: Path)
    requires Movable(layers, mv)
    ensures IsOpaque(RenamedUpper(layers[0], mv), p) ==> !InLower(layers, p)
  {
    hide RenamedUpper;
    if mv.dst <= p {
      if mv.isDir {
        NotInLowerBelow(layers, mv.dst, p);
      } else {
        FileMovesAlone(layers, mv, p);
      }
    } else {
      RenamedAt(layers, mv, p);
      RenamedAt(layers, mv, p + [OPAQUE_WHITEOUT]);
      ExtendAway(mv.dst, p, OPAQUE_WHITEOUT);
      SentinelName();
      if !(mv.src <= p) {
        ExtendAway(mv.src, p, OPAQUE_WHITEOUT);
        MarkerIsNotSentinel(mv.src, p);
        MarkerIsNotSentinel(mv.dst, p);
        assert UpperOpaque(layers, p);
      }
    }
  }

  lemma RenamedClean(layers: seq<Layer>, mv: Move)
    requires Movable(layers, mv)
    ensures Clean(WithUpper(layers, RenamedUpper(layers[0], mv)))
  {
    var up := RenamedUpper(layers[0], mv);
    forall p | p in up && p != []
      ensures EntryPlaced(up, p)
    {
      RenamedPlaced(layers, mv, p);
    }
    RenamedAt(layers, mv, []);
    forall p | p in up
      ensures UpperEntry(up, p)
    {
      RenamedEntry(layers, mv, p);
    }
    forall p | IsOpaque(up, p)
      ensures !InLower(layers, p)
    {
      RenamedOpacity(layers, mv, p);
    }
    forall j, p | 1 <= j < |layers| && p in up && p in layers[j] && up[p] != Whiteout
      ensures up[p].Dir? == layers[j][p].Dir?
    {
      InLowerAt(layers, p, j);
      if mv.dst <= p {
        RenamedKind(layers, mv, p, j);
      } else {
        RenamedAt(layers, mv, p);
        LowerOrdinary(layers, p, j);
        assert NoClash(layers, 0, j, p);
      }
    }
    CleanAfter(layers, up);
  }

  lemma RenamedKind(layers: seq<Layer>, mv: Move, p: Path, j: nat)
    requires Movable(layers, mv) && mv.dst <= p && 1 <= j < |layers| && p in layers[j]
    ensures var up := RenamedUpper(layers[0], mv); p in up && up[p] != Whiteout ==> up[p].Dir? == layers[j][p].Dir?
  {
    hide RenamedUpper;
    if mv.isDir {
      InLowerAt(layers, p, j);
      NotInLowerBelow(layers, mv.dst, p);
    } else {
      FileMovesAlone(layers, mv, p);
      if p == mv.dst {
        InLowerAt(layers, p, j);
      }
    }
  }

  lemma LowerOrdinary(layers: seq<Layer>, p: Path, j: nat)
    requires Clean(layers) && 1 <= j < |layers| && p in layers[j]
    ensures layers[j][p] != Whiteout && (p != [] ==> forall q :: q != [] ==> p != MarkerOf(q))
  {
    assert CleanEntry(layers[j], p);
    forall q: Path | q != []
      ensures p != MarkerOf(q)
    {
      WhNameInverse(Last(q), Last(q));
      assert Last(MarkerOf(q)) == WhName(Last(q));
    }
  }

  // ---- Nodes ----

  /** The moved node at its new path. */
  lemma MovedNode(layers: seq<Layer>, mv: Move, node: Node)
    requires Movable(layers, mv) && NodeOn(layers, mv.src, node) && node.layer == 0 && (node.IsDir() <==> mv.isDir)
    requires InLower(layers, mv.dst) ==> node.last > 0
    ensures NodeOn(WithUpper(layers, RenamedUpper(layers[0], mv)), mv.dst, node)
  {
    MovedShown(layers, mv);
    if !InLower(layers, mv.dst) {
      UpperNodeOn(WithUpper(layers, RenamedUpper(layers[0], mv)), mv.dst, node);
    }
  }

  lemma MovedShown(layers: seq<Layer>, mv: Move)
    requires Movable(layers, mv)
    ensures var up := RenamedUpper(layers[0], mv);
            && mv.dst in up && up[mv.dst] == layers[0][mv.src]
            && (InLower(WithUpper(layers, up), mv.dst) <==> InLower(layers, mv.dst))
            && InMerge(WithUpper(layers, up), Parent(mv.dst), Last(mv.dst))
  {
    var up := RenamedUpper(layers[0], mv);
    RenamedAt(layers, mv, mv.dst);
    RenamedAt(layers, mv, MarkerOf(mv.dst));
    ShiftBack(mv.src, mv.dst, mv.src);
    ShiftBack(mv.dst, mv.src, mv.dst);
    MarkerNotBelow(mv.dst);
    MarkerNextTo(mv.dst, mv.src);
    MarkersDiffer(mv.dst, mv.src);
    LowerKept(layers, up, mv.dst);
    assert Parent(mv.dst) + [Last(mv.dst)] == mv.dst;
  }

  /** Below a moved directory everything is on the upper layer. */
  lemma ShiftedName(layers: seq<Layer>, mv: Move, p: Path, k: Name)
    requires Movable(layers, mv) && mv.isDir && mv.src <= p
    ensures var out := WithUpper(layers, RenamedUpper(layers[0], mv));
            && (InMerge(out, Shift(mv.src, mv.dst, p), k) <==> InMerge(layers, p, k))
            && (UpperHides(out, Shift(mv.src, mv.dst, p), k) <==> UpperHides(layers, p, k))
            && !InLower(layers, p + [k]) && !InLower(out, Shift(mv.src, mv.dst, p) + [k])
  {
    var up, r := RenamedUpper(layers[0], mv), Shift(mv.src, mv.dst, p);
    ShiftBack(mv.src, mv.dst, p);
    ShiftSnoc(mv.src, mv.dst, p, k);
    ShiftSnoc(mv.src, mv.dst, p, WhName(k));
    ShiftSnoc(mv.dst, mv.src, r, k);
    ShiftSnoc(mv.dst, mv.src, r, WhName(k));
    RenamedAt(layers, mv, r + [k]);
    RenamedAt(layers, mv, r + [WhName(k)]);
    NotInLowerBelow(layers, mv.dst, r + [k]);
    NotInLowerBelow(layers, mv.src, p + [k]);
    LowerKept(layers, up, r + [k]);
  }

  lemma ShiftSnoc(src: Path, dst: Path, p: Path, k: Name)
    requires src <= p
    ensures src <= p + [k] && Shift(src, dst, p + [k]) == Shift(src, dst, p) + [k]
  {
    assert (p + [k])[|src|..] == p[|src|..] + [k];
  }

  /** On a path that no lower layer has, a node agrees with the disk if the upper entry is its own. */
  lemma UpperNodeOn(layers: seq<Layer>, q: Path, node: Node)
    requires layers != [] && q != [] && !InLower(layers, q) && q in layers[0]
    ensures NodeOn(layers, q, node) <==>
            && InMerge(layers, Parent(q), Last(q)) && !node.hidden && node.layer == 0 && node.last < |layers|
            && layers[0][q] != Whiteout && (node.IsDir() <==> layers[0][q].Dir?) && (node.IsDir() ==> node.last == 0)
  {
    if NodeOn(layers, q, node) {
      OnlyOnUpper(layers, q, node.layer);
    }
  }

  lemma ShiftedShown(layers: seq<Layer>, mv: Move, p: Path)
    requires Movable(layers, mv) && mv.isDir && mv.src <= p && p != mv.src
    ensures p != [] && Shift(mv.src, mv.dst, p) != []
    ensures var out, r := WithUpper(layers, RenamedUpper(layers[0], mv)), Shift(mv.src, mv.dst, p);
            && (InMerge(out, Parent(r), Last(r)) <==> InMerge(layers, Parent(p), Last(p)))
            && !InLower(layers, p) && !InLower(out, r)
  {
    var r := Shift(mv.src, mv.dst, p);
    ShiftParent(mv.src, mv.dst, p);
    ShiftedName(layers, mv, Parent(p), Last(p));
    assert p == Parent(p) + [Last(p)];
    assert r == Parent(r) + [Last(r)];
  }

  lemma ShiftedNode(layers: seq<Layer>, mv: Move, p: Path, node: Node)
    requires Movable(layers, mv) && mv.isDir && mv.src <= p && p != mv.src && NodeOn(layers, p, node)
    ensures NodeOn(WithUpper(layers, RenamedUpper(layers[0], mv)), Shift(mv.src, mv.dst, p), node)
  {
    var up, r := RenamedUpper(layers[0], mv), Shift(mv.src, mv.dst, p);
    ShiftedShown(layers, mv, p);
    ShiftBack(mv.src, mv.dst, p);
    RenamedAt(layers, mv, r);
    OnlyOnUpper(layers, p, node.layer);
    UpperNodeOn(layers, p, node);
    UpperNodeOn(WithUpper(layers, up), r, node);
  }

  lemma OnlyOnUpper(layers: seq<Layer>, p: Path, k: nat)
    requires k < |layers| && p in layers[k] && !InLower(layers, p)
    ensures k == 0
  {
    if k > 0 {
      InLowerAt(layers, p, k);
    }
  }

  lemma ShiftedDir(layers: seq<Layer>, mv: Move, p: Path, node: Node)
    requires Movable(layers, mv) && mv.isDir && mv.src <= p && p in layers[0] && DirOn(layers, p, node)
    ensures DirOn(WithUpper(layers, RenamedUpper(layers[0], mv)), Shift(mv.src, mv.dst, p), node)
  {
    var out, r := WithUpper(layers, RenamedUpper(layers[0], mv)), Shift(mv.src, mv.dst, p);
    DirOnAt(layers, p, node);
    if node.IsDir() {
      forall k
        ensures DirAt(out, r, node, k)
      {
        assert DirAt(layers, p, node, k);
        ShiftedName(layers, mv, p, k);
      }
      DirFromAt(out, r, node);
    }
  }

  /** A node outside the two subtrees. */
  lemma UnmovedNode(layers: seq<Layer>, mv: Move, p: Path, node: Node)
    requires Movable(layers, mv) && !(mv.src <= p) && !(mv.dst <= p) && NodeOn(layers, p, node)
    ensures NodeOn(WithUpper(layers, RenamedUpper(layers[0], mv)), p, node)
  {
    assert Parent(p) + [Last(p)] == p && Parent(mv.src) + [Last(mv.src)] == mv.src && Parent(mv.dst) + [Last(mv.dst)] == mv.dst;
    PrefixOfParent(mv.src, p);
    PrefixOfParent(mv.dst, p);
    SameAwayFromBoth(layers, mv, Parent(p), Last(p));
    NodeKept(layers, RenamedUpper(layers[0], mv), p, node);
  }

  /** The old name is gone. */
  lemma OldNameGone(layers: seq<Layer>, mv: Move)
    requires Movable(layers, mv)
    ensures !InMerge(WithUpper(layers, RenamedUpper(layers[0], mv)), Parent(mv.src), Last(mv.src))
  {
    var up := RenamedUpper(layers[0], mv);
    assert Parent(mv.src) + [Last(mv.src)] == mv.src;
    RenamedAt(layers, mv, mv.src);
    RenamedAt(layers, mv, MarkerOf(mv.src));
    MarkerNotBelow(mv.src);
    MarkerNextTo(mv.src, mv.dst);
    LowerKept(layers, up, mv.src);
  }

  /** A directory outside the two subtrees, with the maps that a rename leaves it: if a name went
      or came, it is marked for a new scan and has the new name in its children map only. */
  lemma UnmovedDir(layers: seq<Layer>, mv: Move, p: Path, node: Node, node': Node)
    requires Movable(layers, mv) && !(mv.src <= p) && !(mv.dst <= p) && DirOn(layers, p, node)
    requires p != [] ==> !IsWh(Last(p))
    requires node.IsDir() <==> node'.IsDir()
    requires p != Parent(mv.src) && p != Parent(mv.dst) ==> node' == node
    requires node.IsDir() && (p == Parent(mv.src) || p == Parent(mv.dst)) ==>
               !node'.IsLoaded() && node'.dir.whiteouts == if p == Parent(mv.dst) then node.dir.whiteouts - {Last(mv.dst)} else node.dir.whiteouts
    ensures DirOn(WithUpper(layers, RenamedUpper(layers[0], mv)), p, node')
  {
    var up := RenamedUpper(layers[0], mv);
    var changed := (if p == Parent(mv.src) then {Last(mv.src)} else {}) + (if p == Parent(mv.dst) then {Last(mv.dst)} else {});
    OldNameGone(layers, mv);
    DirOnAt(layers, p, node);
    if node.IsDir() {
      forall k
        ensures k !in changed ==> DirAt(layers, p, node', k)
      {
        assert DirAt(layers, p, node, k);
      }
      forall k | k in changed
        ensures DirAt(WithUpper(layers, up), p, node', k)
      {
        assert k == Last(mv.src) || k == Last(mv.dst);
      }
    }
    forall k | k !in changed && !IsWh(k)
      ensures SameName(layers[0], up, p, k)
    {
      SameAwayFromBoth(layers, mv, p, k);
    }
    RenamedAt(layers, mv, p);
    MarkersDiffer(mv.src, mv.dst);
    NotAMarker(p, mv.src);
    NotAMarker(p, mv.dst);
    DirKept(layers, up, p, node', changed);
  }

  lemma NotAMarker(p: Path, q: Path)
    requires q != [] && (p != [] ==> !IsWh(Last(p)))
    ensures p != MarkerOf(q)
  {
    WhNameInverse(Last(q), Last(q));
    assert Last(MarkerOf(q)) == WhName(Last(q));
  }

  // ---- The calls that a rename makes ----

  /** The entries strictly below `q` may have gone, and nothing else changed. */
  ghost predicate OnlyInsideGone(up: Layer, up': Layer, q: Path) {
    forall p ::
      && (p in up' ==> p in up && up'[p] == up[p])
      && (p in up && p !in up' ==> q <= p && p != q)
  }

  /** Before the rename itself: what was below the destination may have been cleared away, and its
      whiteouts may have been deleted. */
  ghost predicate Cleared(up: Layer, up': Layer, dst: Path)
    requires dst != []
  {
    forall p ::
      && (p in up' ==> p in up && up'[p] == up[p])
      && (p in up && p !in up' ==> dst <= p || p == MarkerOf(dst))
  }

  lemma SubtreeAt(l: Layer, q: Path, r: Path)
    ensures r in Subtree(l, q) <==> q + r in l
    ensures r in Subtree(l, q) ==> Subtree(l, q)[r] == l[q + r]
  {
    assert q <= q + r && (q + r)[|q|..] == r;
  }

  /** The rename then gives the move, whatever was cleared before it, if the marker of the new name
      is where the move wants it: gone for a directory, untouched for a file. */
  lemma PlantedIsRenamed(up: Layer, cleared: Layer, mv: Move)
    requires mv.src != [] && mv.dst != [] && !(mv.src <= mv.dst) && !(mv.dst <= mv.src) && mv.cover == Nothing
    requires !IsWh(Last(mv.src)) && Cleared(up, cleared, mv.dst)
    requires MarkerOf(mv.dst) in cleared <==> MarkerOf(mv.dst) in up && !mv.isDir
    ensures Planted(WithoutSubtree(cleared, mv.src), mv.dst, Subtree(cleared, mv.src)) == RenamedUpper(up, mv)
  {
    var out, want := Planted(WithoutSubtree(cleared, mv.src), mv.dst, Subtree(cleared, mv.src)), RenamedUpper(up, mv);
    forall p
      ensures p in out <==> p in want
      ensures p in out ==> out[p] == want[p]
    {
      PlantedRenamedAt(up, cleared, mv, p);
    }
  }

  lemma PlantedRenamedAt(up: Layer, cleared: Layer, mv: Move, p: Path)
    requires mv.src != [] && mv.dst != [] && !(mv.src <= mv.dst) && !(mv.dst <= mv.src) && mv.cover == Nothing
    requires !IsWh(Last(mv.src)) && Cleared(up, cleared, mv.dst)
    requires MarkerOf(mv.dst) in cleared <==> MarkerOf(mv.dst) in up && !mv.isDir
    ensures var out, want := Planted(WithoutSubtree(cleared, mv.src), mv.dst, Subtree(cleared, mv.src)), RenamedUpper(up, mv);
            (p in out <==> p in want) && (p in out ==> out[p] == want[p])
  {
    PlantedAt(WithoutSubtree(cleared, mv.src), mv.dst, Subtree(cleared, mv.src), p);
    if mv.dst <= p {
      SubtreeAt(cleared, mv.src, p[|mv.dst|..]);
      ShiftBack(mv.dst, mv.src, p);
      SourceUntouched(up, cleared, mv, Shift(mv.dst, mv.src, p));
    } else {
      MarkerNextTo(mv.dst, mv.src);
      MarkerNotBelow(mv.dst);
    }
  }

  /** Two prefixes of one path. */
  lemma PrefixesCompare(a: Path, b: Path, p: Path)
    ensures a <= p && b <= p ==> a <= b || b <= a
  {
    assert a <= p && |a| <= |p| ==> a == p[..|a|];
    assert b <= p && |b| <= |p| ==> b == p[..|b|];
    if |a| <= |b| <= |p| {
      assert p[..|b|][..|a|] == p[..|a|];
    } else if |b| < |a| <= |p| {
      assert p[..|a|][..|b|] == p[..|b|];
    }
  }

  lemma SourceUntouched(up: Layer, cleared: Layer, mv: Move, p: Path)
    requires mv.src != [] && mv.dst != [] && !(mv.src <= mv.dst) && !(mv.dst <= mv.src)
    requires !IsWh(Last(mv.src)) && Cleared(up, cleared, mv.dst) && mv.src <= p
    ensures SameEntry(up, cleared, p)
  {
    MarkerNextTo(mv.dst, mv.src);
    PrefixesCompare(mv.src, mv.dst, p);
  }
}
