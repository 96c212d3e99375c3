/** Disks as a session leaves them that started with an empty upper layer over lower layers without
    whiteouts, opaque directories and file/directory clashes, and that created no name that occurs
    in a lower layer. On such disks what a directory shows has a simple closed form. */
module CleanDisk {
  import opened Wrappers
  import opened Names
  import opened Layers
  import opened Merge
  import opened LazyLookup
  import opened FreshMount

  /** Names that users create: no marker, and not the inner name of the sentinel. */
  predicate Ordinary(n: Name) {
    ValidName(n) && !IsWh(n) && n != ".opq"
  }

  ghost predicate InLower(layers: seq<Layer>, p: Path) {
    exists i :: 1 <= i < |layers| && p in layers[i]
  }

  ghost predicate CleanLower(l: Layer) {
    forall p :: p in l ==> CleanEntry(l, p)
  }

  ghost predicate CleanEntry(l: Layer, p: Path)
    requires p in l
  {
    l[p] != Whiteout && (l[p].Dir? ==> !l[p].opq) && (p != [] ==> Ordinary(Last(p)))
  }

  /** Entries of the upper layer have ordinary names, but for markers of ordinary names and the
      sentinel, which are files; and no entry stands beside its own marker. */
  ghost predicate UpperEntry(up: Layer, p: Path)
    requires p in up
  {
    p != [] ==>
      MarkerOf(p) !in up &&
      if IsWh(Last(p)) then up[p].File? && (Ordinary(Last(p)[4..]) || Last(p) == OPAQUE_WHITEOUT)
      else Ordinary(Last(p))
  }

  ghost predicate UpperOpaque(layers: seq<Layer>, p: Path)
    requires layers != []
  {
    IsOpaque(layers[0], p) ==> !InLower(layers, p)
  }

  /** A path that two layers have, other than as a whiteout, is a directory in both or in neither. */
  ghost predicate NoClash(layers: seq<Layer>, i: int, j: int, p: Path)
    requires 0 <= i < |layers| && 0 <= j < |layers|
  {
    p in layers[i] && p in layers[j] && layers[i][p] != Whiteout && layers[j][p] != Whiteout ==>
      layers[i][p].Dir? == layers[j][p].Dir?
  }

  ghost predicate Clean(layers: seq<Layer>) {
    && LayersOk(layers)
    && (forall i :: 1 <= i < |layers| ==> CleanLower(layers[i]))
    && (forall p :: p in layers[0] ==> UpperEntry(layers[0], p))
    && (forall p {:trigger UpperOpaque(layers, p)} :: UpperOpaque(layers, p))
    && (forall i, j, p {:trigger NoClash(layers, i, j, p)} :: 0 <= i < |layers| && 0 <= j < |layers| ==> NoClash(layers, i, j, p))
  }

  /** The closed form: no marker, and the upper entry if there is one, else some lower entry. */
  ghost predicate InMerge(layers: seq<Layer>, d: Path, n: Name)
    requires layers != []
  {
    && !IsWh(n) && d + [WhName(n)] !in layers[0]
    && if d + [n] in layers[0] then layers[0][d + [n]] != Whiteout else InLower(layers, d + [n])
  }

  /** The upper layer hides the name. */
  ghost predicate UpperHides(layers: seq<Layer>, d: Path, n: Name)
    requires layers != []
  {
    d + [WhName(n)] in layers[0] || (d + [n] in layers[0] && layers[0][d + [n]] == Whiteout)
  }

  /** The path is a directory in every layer that has it. */
  ghost predicate DirEverywhere(layers: seq<Layer>, p: Path) {
    forall i :: 0 <= i < |layers| && p in layers[i] ==> layers[i][p].Dir?
  }

  /** A bound that leaves out no layer with the path. */
  ghost predicate Covers(layers: seq<Layer>, p: Path, bound: nat) {
    bound > 0 ==> bound < |layers| && forall i :: 0 <= i < |layers| && p in layers[i] ==> i <= bound
  }

  // ---- The views of a directory of a clean disk ----

  lemma InLowerAt(layers: seq<Layer>, p: Path, i: int)
    requires 1 <= i < |layers| && p in layers[i]
    ensures InLower(layers, p)
  {}

  lemma CleanView(layers: seq<Layer>, p: Path, i: nat)
    requires Clean(layers) && DirEverywhere(layers, p) && i < |layers|
    ensures var v := ViewsOf(layers, p)[i];
            && (v == Absent || v.Listing?) && (v == Absent <==> p !in layers[i])
            && ClearView(v)
            && (v.Listing? ==> forall n :: n in v.items <==> p + [n] in layers[i])
            && (v.Listing? && v.opq ==> i == 0 && !InLower(layers, p))
            && (i > 0 ==> forall n :: n in Items(v) ==> Ordinary(n) && !Items(v)[n].WhiteoutItem?)
  {
    var v := ViewsOf(layers, p)[i];
    SentinelInView(layers[i], p);
    if v.Listing? {
      forall n
        ensures WhName(WhName(n)) in v.items ==> WhName(WhName(n)) == OPAQUE_WHITEOUT
      {
        if WhName(WhName(n)) in v.items {
          NoMarkedMarker(layers, p, i, WhName(n));
        }
      }
      if i > 0 {
        forall n | n in v.items
          ensures Ordinary(n) && !v.items[n].WhiteoutItem?
        {
          assert CleanEntry(layers[i], p + [n]) && Last(p + [n]) == n;
        }
        assert CleanEntry(layers[i], p);
        assert OPAQUE_WHITEOUT !in v.items by { assert IsWh(OPAQUE_WHITEOUT); }
      } else {
        assert UpperOpaque(layers, p);
      }
    }
  }

  lemma SentinelInView(l: Layer, p: Path)
    ensures ViewOf(l, p).Listing? && OPAQUE_WHITEOUT in ViewOf(l, p).items ==> ViewOf(l, p).opq
  {}

  /** A marker-like name of a marker-like name is the sentinel, and then its inner name is absent. */
  lemma NoMarkedMarker(layers: seq<Layer>, p: Path, i: nat, m: Name)
    requires Clean(layers) && i < |layers| && IsWh(m) && p + [WhName(m)] in layers[i]
    ensures i == 0 && WhName(m) == OPAQUE_WHITEOUT && p + [m] !in layers[i]
  {
    WhNameInverse(m, m);
    var q := p + [WhName(m)];
    assert Last(q) == WhName(m) && Last(p + [m]) == m;
    assert ".wh..opq"[4..] == ".opq" && OPAQUE_WHITEOUT[4..] == ".wh..opq";
    assert i > 0 ==> CleanEntry(layers[i], q);
  }

  // ---- Scan and lookup in closed form ----

  /** Where a directory can be scanned in full. */
  ghost predicate Scannable(layers: seq<Layer>, p: Path, bound: nat) {
    Clean(layers) && DirEverywhere(layers, p) && Covers(layers, p, bound)
  }

  /** The layers below the end of the scan, down to the bound, do not have the directory. */
  lemma {:induction false} ScanReachesAll(layers: seq<Layer>, p: Path, bound: nat, i: nat)
    requires Scannable(layers, p, bound) && i <= |layers|
    requires bound > 0 ==> i <= bound
    requires i > 0 ==> !(p in layers[0] && IsOpaque(layers[0], p))
    ensures var e := ScanEndFrom(ViewsOf(layers, p), Some(bound), i);
            forall j :: e <= j < |layers| ==> p !in layers[j]
    decreases |layers| - i
  {
    if i < |layers| {
      var v := ViewsOf(layers, p);
      CleanView(layers, p, i);
      if Stops(v, Some(bound), i) {
        forall j | i < j < |layers|
          ensures p !in layers[j]
        {
          if !AtBound(Some(bound), i) && p in layers[j] {
            InLowerAt(layers, p, j);
          }
        }
      } else {
        ScanReachesAll(layers, p, bound, i + 1);
      }
    }
  }

  lemma HidesIsUpperHides(layers: seq<Layer>, p: Path, i: nat, n: Name)
    requires Clean(layers) && DirEverywhere(layers, p) && i < |layers| && !IsWh(n)
    ensures i > 0 ==> !Hides(ViewsOf(layers, p), i, n)
    ensures Hides(ViewsOf(layers, p), 0, n) ==> p in layers[0] && UpperHides(layers, p, n)
    ensures p in layers[0] && UpperHides(layers, p, n) && Ordinary(n) ==> Hides(ViewsOf(layers, p), 0, n)
  {
    if i > 0 {
      LowerHidesNothing(layers, p, i, n);
    }
    HidesOnTop(layers, p, n);
  }

  lemma LowerHidesNothing(layers: seq<Layer>, p: Path, i: nat, n: Name)
    requires Clean(layers) && DirEverywhere(layers, p) && 0 < i < |layers| && !IsWh(n)
    ensures !Hides(ViewsOf(layers, p), i, n)
  {
    WhNameInverse(n, n);
    CleanView(layers, p, i);
    HidesUnfolded(ViewsOf(layers, p), i, n);
  }

  /** The sentinel marks no ordinary name. */
  lemma SentinelMarksNoName(n: Name)
    requires !IsWh(n)
    ensures WhName(n) != OPAQUE_WHITEOUT
  {
    WhNameInverse(n, OPAQUE_WHITEOUT);
    assert OPAQUE_WHITEOUT[4..] == ".wh..opq" && IsWh(".wh..opq");
  }

  lemma HidesOnTop(layers: seq<Layer>, p: Path, n: Name)
    requires Clean(layers) && DirEverywhere(layers, p) && !IsWh(n)
    ensures Hides(ViewsOf(layers, p), 0, n) ==> p in layers[0] && UpperHides(layers, p, n)
    ensures p in layers[0] && UpperHides(layers, p, n) && Ordinary(n) ==> Hides(ViewsOf(layers, p), 0, n)
  {
    var v := ViewsOf(layers, p);
    WhNameInverse(n, n);
    SentinelMarksNoName(n);
    CleanView(layers, p, 0);
    HidesUnfolded(v, 0, n);
    assert v[0].Listing? && n in v[0].items ==> v[0].items[n] == ItemAt(layers[0], p + [n]);
    if Ordinary(n) {
      NoMarkedName(layers, p, n);
    }
  }

  /** The marker of an ordinary name has no marker. */
  lemma NoMarkedName(layers: seq<Layer>, p: Path, n: Name)
    requires Clean(layers) && Ordinary(n)
    ensures p + [WhName(WhName(n))] !in layers[0]
  {
    WhNameInverse(n, n);
    assert ".wh..opq"[4..] == ".opq" && OPAQUE_WHITEOUT[4..] == ".wh..opq";
    WhNameInverse(WhName(n), n);
    if p + [WhName(WhName(n))] in layers[0] {
      NoMarkedMarker(layers, p, 0, WhName(n));
    }
  }

  lemma InMergeIsOrdinary(layers: seq<Layer>, p: Path, n: Name)
    requires Clean(layers) && InMerge(layers, p, n)
    ensures Ordinary(n) && !UpperHides(layers, p, n)
  {
    var q := p + [n];
    assert Last(q) == n;
    if q in layers[0] {
      assert UpperEntry(layers[0], q);
    } else {
      var i :| 1 <= i < |layers| && q in layers[i];
      assert CleanEntry(layers[i], q);
    }
  }

  /** The name shows in the merge of the scanned layers exactly if the closed form says so. */
  lemma VisibleIsInMerge(layers: seq<Layer>, p: Path, bound: nat, n: Name)
    requires Scannable(layers, p, bound)
    ensures var v := ViewsOf(layers, p); Visible(v, ScanEnd(v, Some(bound)), n) <==> InMerge(layers, p, n)
  {
    var v := ViewsOf(layers, p);
    var e := ScanEnd(v, Some(bound));
    ScanReachesAll(layers, p, bound, 0);
    if InMerge(layers, p, n) {
      InMergeIsOrdinary(layers, p, n);
      var i := UpperOrLower(layers, p, n);
      ShownAt(layers, p, n, i);
      assert i < e && Shows(v, i, n);
    }
    if Visible(v, e, n) {
      var i: nat :| i < e && Shows(v, i, n);
      ShownIsInMerge(layers, p, n, i);
    }
  }

  lemma UpperOrLower(layers: seq<Layer>, p: Path, n: Name) returns (i: nat)
    requires Clean(layers) && InMerge(layers, p, n)
    ensures i < |layers| && p + [n] in layers[i] && p in layers[i]
    ensures i > 0 ==> p + [n] !in layers[0]
  {
    assert Parent(p + [n]) == p;
    if p + [n] in layers[0] {
      i := 0;
    } else {
      i :| 1 <= i < |layers| && p + [n] in layers[i];
    }
    assert EntryPlaced(layers[i], p + [n]);
  }

  lemma ShownAt(layers: seq<Layer>, p: Path, n: Name, i: nat)
    requires Clean(layers) && DirEverywhere(layers, p) && i < |layers|
    requires InMerge(layers, p, n) && Ordinary(n) && !UpperHides(layers, p, n)
    requires p in layers[i] && p + [n] in layers[i]
    ensures Shows(ViewsOf(layers, p), i, n)
  {
    var v := ViewsOf(layers, p);
    CleanView(layers, p, i);
    WhNameInverse(n, n);
    assert PlainAt(v, i, n);
    forall j: nat | j <= i
      ensures !Hides(v, j, n)
    {
      HidesIsUpperHides(layers, p, j, n);
    }
  }

  lemma ShownIsInMerge(layers: seq<Layer>, p: Path, n: Name, i: nat)
    requires Clean(layers) && DirEverywhere(layers, p) && i < |layers| && Shows(ViewsOf(layers, p), i, n)
    ensures InMerge(layers, p, n)
  {
    var v, q := ViewsOf(layers, p), p + [n];
    CleanView(layers, p, i);
    HidesIsUpperHides(layers, p, 0, n);
    assert Last(q) == n && Parent(q) == p && Parent(p + [WhName(n)]) == p && Last(p + [WhName(n)]) == WhName(n);
    WhNameInverse(n, n);
    assert q in layers[i];
    if i > 0 {
      InLowerAt(layers, q, i);
      assert CleanEntry(layers[i], q);
      assert !Hides(v, 0, n);
    } else {
      assert UpperEntry(layers[0], q);
    }
    assert q in layers[0] ==> EntryPlaced(layers[0], q);
    assert p + [WhName(n)] in layers[0] ==> EntryPlaced(layers[0], p + [WhName(n)]);
  }

  /** What a full scan of a directory of a clean disk caches. */
  lemma CleanScan(layers: seq<Layer>, p: Path, bound: nat, n: Name)
    requires Scannable(layers, p, bound)
    ensures var c := ScanOf(layers, p, bound);
            && (n in c.children <==> InMerge(layers, p, n))
            && (n in c.children ==>
                  && IsTopmost(layers, p + [n], c.children[n])
                  && forall j :: c.children[n].last < j < |layers| ==> p + [n] !in layers[j])
            && (n in c.whiteouts ==> !InMerge(layers, p, n) && !IsWh(n))
            && (Ordinary(n) && p in layers[0] && UpperHides(layers, p, n) ==> n in c.whiteouts)
  {
    var v := ViewsOf(layers, p);
    var e, c := ScanEnd(v, Some(bound)), ScanOf(layers, p, bound);
    EagerScanIsMerge(v, Some(bound));
    VisibleIsInMerge(layers, p, bound, n);
    if n in c.children {
      TopOnDisk(layers, p, n, bound, c.children[n]);
      LastOnDisk(layers, p, bound, n);
    } else if n in c.whiteouts && IsWh(n) {
      CleanMarkers(layers, p);
      MarkersAllUnhidden(v, e, n);
    } else if Ordinary(n) && p in layers[0] && UpperHides(layers, p, n) {
      HidesIsUpperHides(layers, p, 0, n);
      assert 0 < e && Hides(v, 0, n);
    }
    if InMerge(layers, p, n) {
      InMergeIsOrdinary(layers, p, n);
    }
  }

  lemma CleanMarkers(layers: seq<Layer>, p: Path)
    requires Clean(layers) && DirEverywhere(layers, p)
    ensures PlainMarkers(ViewsOf(layers, p))
  {
    var v := ViewsOf(layers, p);
    forall i: nat, m | i < |v| && v[i].Listing? && IsWh(m) && WhName(m) in v[i].items
      ensures WhName(m) == OPAQUE_WHITEOUT && m !in v[i].items
    {
      CleanView(layers, p, i);
      NoMarkedMarker(layers, p, i, m);
    }
  }

  lemma MarkersAllUnhidden(v: seq<View>, e: nat, m: Name)
    requires e <= |v| && PlainMarkers(v) && IsWh(m)
    ensures !Hidden(v, e, m)
  {
    if i: nat :| i < e && Hides(v, i, m) {
      MarkersStayUnhidden(v, i, m);
    }
  }

  lemma LastOnDisk(layers: seq<Layer>, p: Path, bound: nat, n: Name)
    requires Scannable(layers, p, bound)
    requires var v := ViewsOf(layers, p); Visible(v, ScanEnd(v, Some(bound)), n)
    ensures var v := ViewsOf(layers, p);
            forall j :: Bottom(v, ScanEnd(v, Some(bound)), n) < j < |layers| ==> p + [n] !in layers[j]
  {
    var v := ViewsOf(layers, p);
    var e := ScanEnd(v, Some(bound));
    ScanReachesAll(layers, p, bound, 0);
    forall j | Bottom(v, e, n) < j < |layers|
      ensures p + [n] !in layers[j]
    {
      assert Parent(p + [n]) == p;
      assert p + [n] in layers[j] ==> EntryPlaced(layers[j], p + [n]);
      ItemsOfViews(layers, p, j, n);
      assert j < e ==> !Lists(v, j, n);
    }
  }

  /** What the lookup of an ordinary name in a directory of a clean disk finds. */
  lemma CleanLookup(layers: seq<Layer>, p: Path, bound: nat, n: Name)
    requires Scannable(layers, p, bound) && Ordinary(n)
    ensures var r := LazyResult(ViewsOf(layers, p), bound, n);
            && (r.Found? <==> InMerge(layers, p, n))
            && (r.Found? ==>
                  && IsTopmost(layers, p + [n], r.seen)
                  && forall j :: r.seen.last < j < |layers| ==> p + [n] !in layers[j])
            && (r.HiddenBy? ==> r.whiteout == n)
            && (r == NotFound && p in layers[0] ==> !UpperHides(layers, p, n))
  {
    var v := ViewsOf(layers, p);
    var r := LazyResult(v, bound, n);
    CleanLookupAgrees(layers, p, bound, n);
    hide LazyResult;
    hide Agree;
    hide Scannable;
    if r.Found? {
      CleanLookupLast(layers, p, bound, n);
    } else if p in layers[0] && UpperHides(layers, p, n) {
      BlockedOnTop(layers, p, bound, n);
    }
  }

  lemma CleanLookupAgrees(layers: seq<Layer>, p: Path, bound: nat, n: Name)
    requires Scannable(layers, p, bound) && Ordinary(n)
    ensures var v := ViewsOf(layers, p);
            var r, c := LazyResult(v, bound, n), EagerScan(v, bound);
            && (r.Found? <==> InMerge(layers, p, n)) && (r.Found? ==> LastFound(v, bound, n, r.seen))
            && (r.Found? ==> n in c.children && r.seen.layer == c.children[n].layer && r.seen.isDir == c.children[n].isDir)
            && (r.HiddenBy? ==> r.whiteout == n)
  {
    hide Shows;
    hide InMerge;
    hide LastFound;
    var v := ViewsOf(layers, p);
    CleanIsClear(layers, p);
    assert forall j: nat :: j < |v| ==> ClearView(v[j]);
    ScanReachesAll(layers, p, bound, 0);
    CoveredEnd(v, bound, 0);
    LazyFinds(v, bound, 0, n);
    LazyLast(v, bound, 0, n);
    assert !ShownBelow(v, bound, n);
    LazyAgreesExactly(v, bound, n);
    CleanScan(layers, p, bound, n);
  }

  /** A name that no entry of a clean disk can have is not found, and nothing is recorded. */
  lemma CleanLookupNone(layers: seq<Layer>, p: Path, bound: nat, n: Name)
    requires Scannable(layers, p, bound) && !IsWh(n) && !Ordinary(n)
    ensures LazyResult(ViewsOf(layers, p), bound, n) == NotFound && !InMerge(layers, p, n)
  {
    var v := ViewsOf(layers, p);
    CleanIsClear(layers, p);
    WhNameInverse(n, n);
    assert OPAQUE_WHITEOUT[4..] == ".wh..opq" && IsWh(".wh..opq");
    forall i: nat | i < |layers|
      ensures n !in Items(v[i]) && WhName(n) !in Items(v[i])
    {
      CleanView(layers, p, i);
      assert Last(p + [n]) == n && Last(p + [WhName(n)]) == WhName(n);
      assert p + [n] in layers[0] ==> UpperEntry(layers[0], p + [n]);
      assert p + [WhName(n)] in layers[0] ==> UpperEntry(layers[0], p + [WhName(n)]);
    }
    LazyFinds(v, bound, 0, n);
    if InMerge(layers, p, n) {
      InMergeIsOrdinary(layers, p, n);
    }
  }

  lemma CleanIsClear(layers: seq<Layer>, p: Path)
    requires Clean(layers) && DirEverywhere(layers, p)
    ensures Clear(ViewsOf(layers, p))
    ensures forall j: nat :: j < |layers| ==> !ViewsOf(layers, p)[j].StatFailed?
  {
    forall i: nat | i < |layers|
      ensures ClearView(ViewsOf(layers, p)[i])
    {
      CleanView(layers, p, i);
    }
  }

  lemma BlockedOnTop(layers: seq<Layer>, p: Path, bound: nat, n: Name)
    requires Scannable(layers, p, bound) && Ordinary(n) && p in layers[0] && UpperHides(layers, p, n)
    ensures LazyResult(ViewsOf(layers, p), bound, n) == HiddenBy(n)
  {
    var v := ViewsOf(layers, p);
    CleanView(layers, p, 0);
    assert n in v[0].items ==> v[0].items[n] == ItemAt(layers[0], p + [n]);
    assert Blocks(v, 0, n);
    BlockedAtOnce(v, bound, n);
  }

  /** A name that the top layer blocks is not looked for below. */
  lemma BlockedAtOnce(v: seq<View>, bound: nat, n: Name)
    requires |v| > 0 && Blocks(v, 0, n) && !IsWh(n) && !v[0].StatFailed?
    ensures LazyResult(v, bound, n) == HiddenBy(n)
  {}

  lemma CleanOpaque(layers: seq<Layer>, q: Path, i: nat)
    requires Clean(layers) && i < |layers|
    ensures IsOpaque(layers[i], q) ==> i == 0 && !InLower(layers, q)
  {
    assert UpperOpaque(layers, q);
    assert Last(q + [OPAQUE_WHITEOUT]) == OPAQUE_WHITEOUT && IsWh(OPAQUE_WHITEOUT);
    assert i > 0 && q + [OPAQUE_WHITEOUT] in layers[i] ==> CleanEntry(layers[i], q + [OPAQUE_WHITEOUT]);
  }

  lemma CleanLookupLast(layers: seq<Layer>, p: Path, bound: nat, n: Name)
    requires Scannable(layers, p, bound) && Ordinary(n)
    requires var r := LazyResult(ViewsOf(layers, p), bound, n);
             r.Found? && n in EagerScan(ViewsOf(layers, p), bound).children
             && r.seen.layer == EagerScan(ViewsOf(layers, p), bound).children[n].layer
             && r.seen.isDir == EagerScan(ViewsOf(layers, p), bound).children[n].isDir
             && LastFound(ViewsOf(layers, p), bound, n, r.seen)
    ensures var r := LazyResult(ViewsOf(layers, p), bound, n);
            && IsTopmost(layers, p + [n], r.seen)
            && forall j :: r.seen.last < j < |layers| ==> p + [n] !in layers[j]
  {
    var v := ViewsOf(layers, p);
    var s := LazyResult(v, bound, n).seen;
    CleanScan(layers, p, bound, n);
    CleanView(layers, p, s.last);
    forall j | s.last < j < |layers|
      ensures p + [n] !in layers[j]
    {
      NotListedBelowLast(layers, p, bound, n, s, j);
    }
  }

  lemma NotListedBelowLast(layers: seq<Layer>, p: Path, bound: nat, n: Name, s: Seen, j: nat)
    requires Scannable(layers, p, bound) && LastFound(ViewsOf(layers, p), bound, n, s) && s.last < j < |layers|
    ensures p + [n] !in layers[j]
  {
    hide Clean;
    hide InLower;
    OpaqueItem(layers, p, s.layer, n);
    CleanView(layers, p, j);
    if p + [n] in layers[j] {
      ScannableOk(layers, p, bound);
      assert Parent(p + [n]) == p && EntryPlaced(layers[j], p + [n]);
      InLowerAt(layers, p + [n], j);
      assert false;
    }
  }

  lemma ScannableOk(layers: seq<Layer>, p: Path, bound: nat)
    requires Scannable(layers, p, bound)
    ensures LayersOk(layers)
  {}

  lemma OpaqueItem(layers: seq<Layer>, p: Path, i: nat, n: Name)
    requires Clean(layers) && DirEverywhere(layers, p) && i < |layers|
    requires n in Items(ViewsOf(layers, p)[i])
    ensures Items(ViewsOf(layers, p)[i])[n] == DirItem(true) ==> !InLower(layers, p + [n])
  {
    CleanView(layers, p, i);
    CleanOpaque(layers, p + [n], i);
  }
}
