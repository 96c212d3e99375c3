/** Unlink and rmdir on disk (`hide_node` of src/overlay.rs, src/whiteout.rs): the entry leaves the
    upper layer, and a device 0/0 or a marker takes its place where one is called for. */
module Removal {
  import opened Wrappers
  import opened Names
  import opened Layers
  import opened Merge
  import opened FreshMount
  import opened DiskChanges

  /** How the name is kept from showing through: RENAME_WHITEOUT leaves a device 0/0, the fallback
      writes a marker, and a plain rename leaves nothing. */
  datatype Cover = Device | Marker | Nothing

  /** `hide_node` asks for a whiteout when the node or its parent reaches below the upper layer. */
  predicate NeedsWhiteout(nodeLast: nat, parentLast: nat) {
    nodeLast > 0 || parentLast > 0
  }

  function WithoutSubtree(l: Layer, q: Path): Layer {
    map p | p in l && !(q <= p) :: l[p]
  }

  function RemovedUpper(up: Layer, q: Path, cover: Cover): Layer
    requires q != []
  {
    match cover
    case Device => WithoutSubtree(up, q)[q := Whiteout]
    case Marker => WithoutSubtree(up, q)[MarkerOf(q) := File(Regular([]))]
    case Nothing => WithoutSubtree(up, q)
  }

  /** A node on the upper layer. */
  ghost predicate CanRemove(layers: seq<Layer>, q: Path) {
    && LayersOk(layers) && MarkersPlain(layers[0])
    && q != [] && Fresh(layers, q).Some? && Fresh(layers, q).value.layer == 0
  }

  ghost function Removed(layers: seq<Layer>, q: Path, cover: Cover): seq<Layer>
    requires layers != [] && q != []
  {
    WithUpper(layers, RemovedUpper(layers[0], q, cover))
  }

  lemma RemovedChange(layers: seq<Layer>, q: Path, cover: Cover)
    requires CanRemove(layers, q)
    ensures !IsWh(Last(q)) && q in layers[0] && Parent(q) in layers[0] && layers[0][Parent(q)].Dir?
    ensures ChangedAt(layers[0], RemovedUpper(layers[0], q, cover), q)
    ensures var up := RemovedUpper(layers[0], q, cover);
            && (q in up <==> cover.Device?) && (q in up ==> up[q] == Whiteout)
            && (MarkerOf(q) in up <==> cover.Marker? || MarkerOf(q) in layers[0])
  {
    FreshIsTopmost(layers, q);
    assert EntryPlaced(layers[0], q);
    MarkerNotBelow(q);
  }

  lemma MarkerNotBelow(q: Path)
    requires q != []
    ensures !(q <= MarkerOf(q)) && MarkerOf(q) != q
  {
    assert |q| == |MarkerOf(q)|;
    assert Last(MarkerOf(q)) == WhName(Last(q)) && |WhName(Last(q))| == |Last(q)| + 4;
  }

  /** The listing of the parent before and after. */
  lemma RemovedViews(layers: seq<Layer>, q: Path, cover: Cover)
    requires CanRemove(layers, q)
    ensures !IsWh(Last(q))
    ensures var n := Last(q);
            var v, w := ViewsOf(layers, Parent(q)), ViewsOf(Removed(layers, q, cover), Parent(q));
            && DifferAt(v, w, n)
            && (n in w[0].items <==> cover.Device?) && (n in w[0].items ==> w[0].items[n].WhiteoutItem?)
            && WhName(n) !in v[0].items
            && (WhName(n) in w[0].items <==> cover.Marker?)
            && (WhName(WhName(n)) in w[0].items ==> w[0].opq)
            && (WhName(WhName(n)) in v[0].items ==> v[0].opq)
  {
    var d, n := Parent(q), Last(q);
    var v, w := ViewsOf(layers, d), ViewsOf(Removed(layers, q, cover), d);
    assert d + [n] == q;
    RemovedChange(layers, q, cover);
    ViewsDiffer(layers, RemovedUpper(layers[0], q, cover), q);
    ShownHasNoMarker(layers, q);
    SentinelSeals(layers[0], d);
    SentinelSeals(Removed(layers, q, cover)[0], d);
    WhNameInverse(n, n);
    WhNameInverse(WhName(n), n);
    assert WhName(WhName(n)) in v[0].items ==> d + [WhName(WhName(n))] in layers[0];
  }

  lemma ShownHasNoMarker(layers: seq<Layer>, q: Path)
    requires CanRemove(layers, q)
    ensures MarkerOf(q) !in layers[0] && WhName(Last(q)) !in Items(ViewsOf(layers, Parent(q))[0])
  {
    var d, n := Parent(q), Last(q);
    var s, bound := FreshUnfolded(layers, q);
    TopFacts(ViewsOf(layers, d), Some(bound), n);
  }

  // ---- What shows after the removal ----

  lemma CoveredIsHidden(w: seq<View>, bound: nat, n: Name)
    requires |w| > 0 && w[0].Listing? && !IsWh(n)
    requires n !in w[0].items || w[0].items[n].WhiteoutItem?
    requires n in w[0].items || WhName(n) in w[0].items
    requires WhName(WhName(n)) in w[0].items ==> w[0].opq
    ensures !Visible(w, ScanEnd(w, Some(bound)), n)
  {
    var e := ScanEnd(w, Some(bound));
    HidesUnfolded(w, 0, n);
    WhNameInverse(n, n);
    WhNameInverse(n, OPAQUE_WHITEOUT);
    assert OPAQUE_WHITEOUT[4..] == ".wh..opq" && IsWh(".wh..opq");
    if Visible(w, e, n) {
      TopFacts(w, Some(bound), n);
      assert false;
    }
  }

  /** Layers below the upper one show the name by themselves. */
  ghost predicate ShownByLower(v: seq<View>, bound: nat, n: Name) {
    exists i: nat :: 1 <= i < ScanEnd(v, Some(bound)) && PlainAt(v, i, n)
                     && forall j: nat :: 1 <= j <= i ==> !Hides(v, j, n)
  }

  /** With nothing left on the upper layer, the name shows exactly if lower layers show it. */
  lemma UncoveredShowsLower(v: seq<View>, w: seq<View>, bound: nat, n: Name)
    requires DifferAt(v, w, n) && !IsWh(n) && n !in w[0].items && WhName(n) !in w[0].items
    requires n in v[0].items && WhName(n) !in v[0].items
    requires WhName(WhName(n)) in v[0].items ==> v[0].opq
    requires WhName(WhName(n)) in w[0].items ==> w[0].opq
    ensures Visible(w, ScanEnd(w, Some(bound)), n) <==> ShownByLower(v, bound, n)
  {
    var e := ScanEnd(v, Some(bound));
    EndUnaffected(v, w, n, bound, 0);
    HidesUnfolded(w, 0, n);
    forall i: nat | 1 <= i < e
      ensures Hides(w, i, n) <==> Hides(v, i, n)
      ensures PlainAt(w, i, n) <==> PlainAt(v, i, n)
    {
      LowerHidesSame(v, w, bound, n, i);
    }
    if ShownByLower(v, bound, n) {
      var i: nat :| 1 <= i < e && PlainAt(v, i, n) && forall j: nat :: 1 <= j <= i ==> !Hides(v, j, n);
      assert forall j: nat :: j <= i ==> !Hides(w, j, n);
      assert i < e && Shows(w, i, n);
    }
    if Visible(w, e, n) {
      var i: nat :| i < e && Shows(w, i, n);
      assert i > 0 && PlainAt(v, i, n);
      assert forall j: nat :: 1 <= j <= i ==> !Hides(v, j, n);
    }
  }

  lemma LowerHidesSame(v: seq<View>, w: seq<View>, bound: nat, n: Name, i: nat)
    requires DifferAt(v, w, n) && !IsWh(n) && n !in w[0].items && WhName(n) !in w[0].items
    requires n in v[0].items && WhName(n) !in v[0].items
    requires WhName(WhName(n)) in v[0].items ==> v[0].opq
    requires WhName(WhName(n)) in w[0].items ==> w[0].opq
    requires 1 <= i < ScanEnd(v, Some(bound))
    ensures Hides(w, i, n) <==> Hides(v, i, n)
    ensures PlainAt(w, i, n) <==> PlainAt(v, i, n)
  {
    HidesUnfolded(v, i, n);
    HidesUnfolded(w, i, n);
    forall j: nat | j < i
      ensures Hides(v, j, WhName(n)) <==> Hides(w, j, WhName(n))
    {
      MarkerHidesSame(v, w, bound, n, j);
    }
    HiddenUnaffected(v, w, i, WhName(n));
  }

  lemma MarkerHidesSame(v: seq<View>, w: seq<View>, bound: nat, n: Name, j: nat)
    requires DifferAt(v, w, n) && !IsWh(n) && WhName(n) !in w[0].items && WhName(n) !in v[0].items
    requires WhName(WhName(n)) in v[0].items ==> v[0].opq
    requires WhName(WhName(n)) in w[0].items ==> w[0].opq
    requires j < ScanEnd(v, Some(bound)) - 1
    ensures Hides(v, j, WhName(n)) <==> Hides(w, j, WhName(n))
  {
    HidesUnfolded(v, j, WhName(n));
    HidesUnfolded(w, j, WhName(n));
    assert !Stops(v, Some(bound), 0);
    assert WhName(WhName(n)) !in v[0].items && WhName(WhName(n)) !in w[0].items;
    if j > 0 {
      var m := WhName(WhName(n));
      WhNameInverse(n, n);
      WhNameInverse(WhName(n), n);
      WhNameInverse(WhName(m), n);
      forall k: nat | k < j
        ensures Hides(v, k, m) <==> Hides(w, k, m)
      {
        HidesUnaffected(v, w, n, k, m);
      }
      HiddenUnaffected(v, w, j, m);
    }
  }

  /** Whether the name is gone: always behind a device or a marker, and behind nothing exactly if
      no lower layer shows it. */
  lemma RemovedNode(layers: seq<Layer>, q: Path, cover: Cover)
    requires CanRemove(layers, q)
    ensures Fresh(layers, Parent(q)).Some?
    ensures Fresh(Removed(layers, q, cover), q) == None <==>
            cover != Nothing || !ShownByLower(ViewsOf(layers, Parent(q)), Fresh(layers, Parent(q)).value.last, Last(q))
  {
    var d, n, out := Parent(q), Last(q), Removed(layers, q, cover);
    var s, bound := FreshUnfolded(layers, q);
    RemovedChange(layers, q, cover);
    RemovedViews(layers, q, cover);
    assert !(q <= d);
    FreshElsewhere(layers, out[0], q, d);
    var v, w := ViewsOf(layers, d), ViewsOf(out, d);
    EagerScanIsMerge(w, Some(bound));
    if cover == Nothing {
      TopFacts(v, Some(bound), n);
      UncoveredShowsLower(v, w, bound, n);
    } else {
      CoveredIsHidden(w, bound, n);
    }
  }

  /** After a removal the merged file system has lost the entry and what was below it, and nothing
      else has changed anywhere: neither nodes nor contents. */
  ghost predicate RemovedExactly(layers: seq<Layer>, out: seq<Layer>, q: Path) {
    forall r :: if q <= r then Fresh(out, r) == None
                else Fresh(out, r) == Fresh(layers, r) && EntryAt(out, r) == EntryAt(layers, r)
  }

  lemma RemovalIsExactly(layers: seq<Layer>, q: Path, cover: Cover)
    requires CanRemove(layers, q)
    ensures Fresh(layers, Parent(q)).Some?
    ensures RemovedExactly(layers, Removed(layers, q, cover), q) <==>
            cover != Nothing || !ShownByLower(ViewsOf(layers, Parent(q)), Fresh(layers, Parent(q)).value.last, Last(q))
  {
    var out := Removed(layers, q, cover);
    RemovedNode(layers, q, cover);
    RemovedChange(layers, q, cover);
    if Fresh(out, q) == None {
      forall r
        ensures if q <= r then Fresh(out, r) == None
                else Fresh(out, r) == Fresh(layers, r) && EntryAt(out, r) == EntryAt(layers, r)
      {
        if q <= r {
          NothingBelow(out, q, r);
        } else {
          FreshElsewhere(layers, out[0], q, r);
          EntryElsewhere(layers, out[0], q, r);
        }
      }
    } else {
      assert q <= q;
    }
  }

  /** The choice that `hide_node` makes is right whenever it asks for a whiteout, and otherwise
      exactly if no lower layer shows the name; with the numbers of a fresh scan it always is. */
  lemma HideRemovesExactlyOne(layers: seq<Layer>, q: Path, nodeLast: nat, parentLast: nat, cover: Cover)
    requires CanRemove(layers, q) && (cover == Nothing <==> !NeedsWhiteout(nodeLast, parentLast))
    ensures Fresh(layers, Parent(q)).Some?
    ensures RemovedExactly(layers, Removed(layers, q, cover), q) <==>
            NeedsWhiteout(nodeLast, parentLast)
            || !ShownByLower(ViewsOf(layers, Parent(q)), Fresh(layers, Parent(q)).value.last, Last(q))
    ensures nodeLast == Fresh(layers, q).value.last ==> RemovedExactly(layers, Removed(layers, q, cover), q)
  {
    RemovalIsExactly(layers, q, cover);
    if nodeLast == Fresh(layers, q).value.last && cover == Nothing {
      var s, bound := FreshUnfolded(layers, q);
      var v, n := ViewsOf(layers, Parent(q)), Last(q);
      forall i: nat | 1 <= i < ScanEnd(v, Some(bound))
        ensures !PlainAt(v, i, n)
      {
        assert !Lists(v, i, n);
      }
    }
  }

  /** A name that no lower layer has is not shown by lower layers. */
  lemma AbsentBelowIsNotShown(layers: seq<Layer>, q: Path, bound: nat)
    requires LayersOk(layers) && q != [] && forall i :: 1 <= i < |layers| ==> q !in layers[i]
    ensures !ShownByLower(ViewsOf(layers, Parent(q)), bound, Last(q))
  {
    var v, n := ViewsOf(layers, Parent(q)), Last(q);
    forall i: nat | 1 <= i < |layers|
      ensures !PlainAt(v, i, n)
    {
      assert Parent(q) + [n] == q;
      ItemsOfViews(layers, Parent(q), i, n);
      assert !Lists(v, i, n);
    }
  }
}
