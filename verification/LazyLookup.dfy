/** The per-name lookup `do_lazy_lookup` (src/overlay.rs) and its agreement with the eager scan;
    scans that start from maps that are not empty. */
module LazyLookup {
  import opened Wrappers
  import opened Names
  import opened Layers
  import opened Merge

  datatype Outcome = Found(seen: Seen) | HiddenBy(whiteout: Name) | NotFound

  function Finish(found: Option<Seen>): Outcome {
    if found.Some? then Found(found.value) else NotFound
  }

  /** The lookup of `n` from layer `i` on; `found` is what the layers above gave. The opacity and
      kind of the directory itself are not looked at. */
  function LazyFrom(views: seq<View>, bound: nat, i: nat, n: Name, found: Option<Seen>): Outcome
    requires i <= |views|
    decreases |views| - i
  {
    if i == |views| then Finish(found)
    else
      var last := AtBound(Some(bound), i);
      var items := Items(views[i]);
      if views[i].StatFailed? && !views[i].denied then NotFound
      else if n !in items then
        if found == None && WhName(n) in items then HiddenBy(n)
        else if last then Finish(found)
        else LazyFrom(views, bound, i + 1, n, found)
      else if found.Some? then
        var seen := found.value.(last := i);
        if last then Found(seen) else LazyFrom(views, bound, i + 1, n, Some(seen))
      else if WhName(n) in items then HiddenBy(n)
      else if WhPrefixName(n).Some? then HiddenBy(WhPrefixName(n).value)
      else if items[n].WhiteoutItem? then HiddenBy(n)
      else
        var seen := Seen(i, i, items[n].DirItem?);
        if last || items[n] == DirItem(true) then Found(seen)
        else LazyFrom(views, bound, i + 1, n, Some(seen))
  }

  // ---- What it finds ----

  /** The layers that a lookup may reach. */
  function LazyEnd(views: seq<View>, bound: nat): (r: nat)
    ensures r <= |views|
  {
    if 0 < bound < |views| then bound + 1 else |views|
  }

  /** Layer `i` makes the lookup give up: a marker, or a device 0/0. */
  predicate Blocks(views: seq<View>, i: nat, n: Name)
    requires i < |views|
  {
    var items := Items(views[i]);
    WhName(n) in items || (n in items && items[n].WhiteoutItem?)
  }

  /** Layer `i` has the name, and no layer at or above it blocks it. */
  ghost predicate LazyShows(views: seq<View>, i: nat, n: Name)
    requires i < |views|
  {
    n in Items(views[i]) && forall j: nat :: j <= i ==> !Blocks(views, j, n)
  }

  /** Once something was found, no layer below can change its layer or its kind. */
  lemma {:induction false} FoundStays(views: seq<View>, bound: nat, i: nat, n: Name, found: Seen)
    requires i <= |views| && forall j: nat :: i <= j < |views| ==> !views[j].StatFailed?
    ensures var r := LazyFrom(views, bound, i, n, Some(found));
            r.Found? && r.seen.layer == found.layer && r.seen.isDir == found.isDir
    decreases |views| - i
  {
    if i < |views| && !AtBound(Some(bound), i) {
      FoundStays(views, bound, i + 1, n, if n in Items(views[i]) then found.(last := i) else found);
    }
  }

  /** The lookup of an ordinary name is the topmost layer that has it, down to the bound, unless
      a layer at or above that one blocks it. */
  lemma {:induction false} LazyFinds(views: seq<View>, bound: nat, i: nat, n: Name)
    requires (i < LazyEnd(views, bound) || i == |views|) && !IsWh(n)
    requires forall j: nat :: j < |views| ==> !views[j].StatFailed?
    requires forall j: nat :: j < i ==> !Blocks(views, j, n) && n !in Items(views[j])
    ensures var r := LazyFrom(views, bound, i, n, None);
            && (r.Found? <==> exists j: nat :: j < LazyEnd(views, bound) && LazyShows(views, j, n))
            && (r.Found? ==>
                  && r.seen.layer < LazyEnd(views, bound) && LazyShows(views, r.seen.layer, n)
                  && (forall j: nat :: j < r.seen.layer ==> n !in Items(views[j]))
                  && r.seen.isDir == Items(views[r.seen.layer])[n].DirItem?)
            && (r.HiddenBy? ==> r.whiteout == n && exists j: nat :: j < LazyEnd(views, bound) && Blocks(views, j, n))
    decreases |views| - i
  {
    var r := LazyFrom(views, bound, i, n, None);
    if i < LazyEnd(views, bound) {
      var items := Items(views[i]);
      if Blocks(views, i, n) {
        assert r == HiddenBy(n);
      } else if n in items {
        assert LazyShows(views, i, n);
        if !AtBound(Some(bound), i) && items[n] != DirItem(true) {
          FoundStays(views, bound, i + 1, n, Seen(i, i, items[n].DirItem?));
        }
      } else if AtBound(Some(bound), i) {
        assert LazyEnd(views, bound) == i + 1;
        assert forall j: nat :: j < i + 1 ==> !LazyShows(views, j, n);
      } else {
        LazyFinds(views, bound, i + 1, n);
      }
    }
  }

  /** The last layer that the lookup has listed the name on; an opaque directory ends it at once. */
  ghost predicate LastFound(views: seq<View>, bound: nat, n: Name, s: Seen) {
    && s.layer <= s.last < LazyEnd(views, bound)
    && n in Items(views[s.layer]) && n in Items(views[s.last])
    && (if Items(views[s.layer])[n] == DirItem(true) then s.last == s.layer
        else forall j: nat :: s.last < j < LazyEnd(views, bound) ==> n !in Items(views[j]))
  }

  lemma {:induction false} FoundLast(views: seq<View>, bound: nat, i: nat, n: Name, found: Seen)
    requires i < LazyEnd(views, bound) || i == |views|
    requires found.last < i && forall j: nat :: j < |views| ==> !views[j].StatFailed?
    ensures var r := LazyFrom(views, bound, i, n, Some(found));
            && r.Found? && found.last <= r.seen.last
            && (r.seen.last == found.last || (r.seen.last < LazyEnd(views, bound) && n in Items(views[r.seen.last])))
            && forall j: nat :: i <= j < LazyEnd(views, bound) && j > r.seen.last ==> n !in Items(views[j])
    decreases |views| - i
  {
    if i < |views| && !AtBound(Some(bound), i) {
      FoundLast(views, bound, i + 1, n, if n in Items(views[i]) then found.(last := i) else found);
    }
  }

  lemma {:induction false} LazyLast(views: seq<View>, bound: nat, i: nat, n: Name)
    requires (i < LazyEnd(views, bound) || i == |views|) && !IsWh(n)
    requires forall j: nat :: j < |views| ==> !views[j].StatFailed?
    ensures var r := LazyFrom(views, bound, i, n, None);
            r.Found? ==> i <= r.seen.layer && LastFound(views, bound, n, r.seen)
    decreases |views| - i
  {
    var r := LazyFrom(views, bound, i, n, None);
    if i < |views| {
      var items := Items(views[i]);
      if n in items && r.Found? {
        if !AtBound(Some(bound), i) && items[n] != DirItem(true) {
          FoundLast(views, bound, i + 1, n, Seen(i, i, items[n].DirItem?));
          FoundStays(views, bound, i + 1, n, Seen(i, i, items[n].DirItem?));
        }
      } else if r.Found? && !AtBound(Some(bound), i) {
        LazyLast(views, bound, i + 1, n);
      }
    }
  }

  // ---- The outcome without the loop, on any views ----

  /** The layer cannot be asked, and that is not a matter of permission. */
  predicate Fails(views: seq<View>, i: nat)
    requires i < |views|
  {
    views[i].StatFailed? && !views[i].denied
  }

  /** The layer has the name or its marker. */
  predicate Mentions(views: seq<View>, i: nat, n: Name)
    requires i < |views|
  {
    n in Items(views[i]) || WhName(n) in Items(views[i])
  }

  /** No marker, other than the opaque sentinel, which hides no name. */
  predicate IsPlainName(n: Name) {
    WH_PREFIX <= n ==> n == OPAQUE_WHITEOUT
  }

  /** Nothing above the layer decides the lookup. */
  predicate Undecided(views: seq<View>, k: nat, n: Name)
    requires k <= |views|
  {
    forall j: nat :: j < k ==> !Fails(views, j) && !Mentions(views, j, n)
  }

  /** The name is found on the first layer that mentions it. For an opaque directory that is the last layer
      too; otherwise the last layer is the lowest in reach that has the name, and none in reach fails. */
  ghost predicate FoundOn(views: seq<View>, bound: nat, n: Name, s: Seen) {
    && s.layer <= s.last < LazyEnd(views, bound) && Undecided(views, s.layer, n)
    && n in Items(views[s.layer]) && IsPlainName(n) && !Blocks(views, s.layer, n)
    && s.isDir == Items(views[s.layer])[n].DirItem?
    && if Items(views[s.layer])[n] == DirItem(true) then s.last == s.layer
       else && n in Items(views[s.last])
            && forall j: nat :: s.layer < j < LazyEnd(views, bound) ==> !Fails(views, j) && (s.last < j ==> n !in Items(views[j]))
  }

  /** The first layer that mentions the name hides it, or the name is itself a marker. */
  ghost predicate HiddenAt(views: seq<View>, bound: nat, n: Name, k: nat, w: Name) {
    && k < LazyEnd(views, bound) && Undecided(views, k, n) && Mentions(views, k, n)
    && if WhName(n) in Items(views[k]) then w == n
       else if !IsPlainName(n) then n == WhName(w)
       else Items(views[k])[n].WhiteoutItem? && w == n
  }

  ghost predicate HiddenOn(views: seq<View>, bound: nat, n: Name, w: Name) {
    exists k: nat :: HiddenAt(views, bound, n, k, w)
  }

  /** No layer mentions the name before one fails, or one fails after it was found. */
  ghost predicate NothingOn(views: seq<View>, bound: nat, n: Name) {
    forall k: nat :: k < LazyEnd(views, bound) && Undecided(views, k, n) && Mentions(views, k, n) ==>
      n in Items(views[k]) && IsPlainName(n) && !Blocks(views, k, n) && FailsBelow(views, bound, n, k)
  }

  ghost predicate FailsBelow(views: seq<View>, bound: nat, n: Name, k: nat)
    requires k < |views| && n in Items(views[k])
  {
    Items(views[k])[n] != DirItem(true) && exists j: nat :: k < j < LazyEnd(views, bound) && Fails(views, j)
  }

  ghost predicate IsOutcome(views: seq<View>, bound: nat, n: Name, r: Outcome) {
    match r
    case Found(s) => FoundOn(views, bound, n, s)
    case HiddenBy(w) => HiddenOn(views, bound, n, w)
    case NotFound => NothingOn(views, bound, n)
  }

  /** After something was found, only a failure or the last layer is left open. */
  ghost predicate FoundUnlessFails(views: seq<View>, bound: nat, i: nat, n: Name, found: Seen, r: Outcome) {
    match r
    case Found(s) =>
      && s == found.(last := s.last) && found.last <= s.last
      && (s.last == found.last || (i <= s.last < LazyEnd(views, bound) && n in Items(views[s.last])))
      && forall j: nat :: i <= j < LazyEnd(views, bound) ==> !Fails(views, j) && (s.last < j ==> n !in Items(views[j]))
    case HiddenBy(_) => false
    case NotFound => exists j: nat :: i <= j < LazyEnd(views, bound) && Fails(views, j)
  }

  lemma {:induction false} AfterFound(views: seq<View>, bound: nat, i: nat, n: Name, found: Seen)
    requires (i < LazyEnd(views, bound) || i == |views|) && found.last < i
    ensures FoundUnlessFails(views, bound, i, n, found, LazyFrom(views, bound, i, n, Some(found)))
    decreases |views| - i
  {
    if i < |views| && !Fails(views, i) && !AtBound(Some(bound), i) {
      AfterFound(views, bound, i + 1, n, if n in Items(views[i]) then found.(last := i) else found);
    }
  }

  lemma {:induction false} OutcomeFrom(views: seq<View>, bound: nat, i: nat, n: Name)
    requires (i < LazyEnd(views, bound) || i == |views|) && Undecided(views, i, n)
    ensures IsOutcome(views, bound, n, LazyFrom(views, bound, i, n, None))
    decreases |views| - i
  {
    if i < LazyEnd(views, bound) && !Fails(views, i) {
      if Mentions(views, i, n) {
        OutcomeAt(views, bound, i, n);
      } else if !AtBound(Some(bound), i) {
        OutcomeFrom(views, bound, i + 1, n);
      }
    }
  }

  /** The first layer that mentions the name decides. */
  lemma OutcomeAt(views: seq<View>, bound: nat, i: nat, n: Name)
    requires i < LazyEnd(views, bound) && Undecided(views, i, n) && !Fails(views, i) && Mentions(views, i, n)
    ensures IsOutcome(views, bound, n, LazyFrom(views, bound, i, n, None))
  {
    var items, r := Items(views[i]), LazyFrom(views, bound, i, n, None);
    WhNameInverse(n, n);
    if n in items && WhName(n) !in items && IsPlainName(n) && !items[n].WhiteoutItem? {
      if !AtBound(Some(bound), i) && items[n] != DirItem(true) {
        AfterFound(views, bound, i + 1, n, Seen(i, i, items[n].DirItem?));
      }
    } else {
      assert r.HiddenBy? && HiddenAt(views, bound, n, i, r.whiteout);
    }
  }

  /** The outcome is determined: the first layer that mentions the name is one. */
  lemma OneOutcome(views: seq<View>, bound: nat, n: Name, a: Outcome, b: Outcome)
    requires IsOutcome(views, bound, n, a) && IsOutcome(views, bound, n, b)
    ensures a == b
  {
    if !a.NotFound? && !b.NotFound? {
      var j := Decider(views, bound, n, a);
      var k := Decider(views, bound, n, b);
      assert j == k;
      if a.HiddenBy? && b.HiddenBy? {
        WhNameInverse(a.whiteout, b.whiteout);
      }
    } else if !a.NotFound? {
      var j := Decider(views, bound, n, a);
    } else if !b.NotFound? {
      var j := Decider(views, bound, n, b);
    }
  }

  /** The layer that decides a lookup. */
  lemma Decider(views: seq<View>, bound: nat, n: Name, r: Outcome) returns (k: nat)
    requires IsOutcome(views, bound, n, r) && !r.NotFound?
    ensures k < LazyEnd(views, bound) && Undecided(views, k, n) && Mentions(views, k, n)
    ensures match r
            case Found(s) => k == s.layer
            case HiddenBy(w) => HiddenAt(views, bound, n, k, w)
            case NotFound => false
  {
    if r.Found? {
      k := r.seen.layer;
    } else {
      k :| HiddenAt(views, bound, n, k, r.whiteout);
    }
  }

  /** Exactly what a lookup gives, whatever the views. */
  lemma LookupOutcome(views: seq<View>, bound: nat, n: Name, r: Outcome)
    ensures LazyResult(views, bound, n) == r <==> IsOutcome(views, bound, n, r)
  {
    OutcomeFrom(views, bound, 0, n);
    if IsOutcome(views, bound, n, r) {
      OneOutcome(views, bound, n, LazyResult(views, bound, n), r);
    }
  }

  // ---- Agreement with the eager scan ----

  /** Layers as they are on a disk without errors: an absent path, a non-directory, or a directory
      that can be listed, and that is opaque if it has the sentinel; no marker of a marker. */
  ghost predicate Clear(views: seq<View>) {
    forall i: nat :: i < |views| ==> ClearView(views[i])
  }

  ghost predicate ClearView(v: View) {
    && !v.StatFailed? && !v.Unlistable?
    && (v.Listing? && OPAQUE_WHITEOUT in v.items ==> v.opq)
    && forall n :: WhName(WhName(n)) in Items(v) ==> WhName(WhName(n)) == OPAQUE_WHITEOUT
  }

  /** In a layer that is not opaque, blocking and hiding an ordinary name are the same. */
  lemma BlocksIsHides(views: seq<View>, i: nat, n: Name)
    requires Clear(views) && i < |views| && !IsWh(n)
    requires forall j: nat :: j <= i ==> !(views[j].Listing? && views[j].opq)
    ensures Blocks(views, i, n) <==> Hides(views, i, n)
  {
    HidesUnfolded(views, i, n);
    WhNameInverse(n, n);
    assert ClearView(views[i]);
    if Hidden(views, i, WhName(n)) {
      var j: nat :| j < i && Hides(views, j, WhName(n));
      HidesUnfolded(views, j, WhName(n));
      WhNameInverse(WhName(n), n);
      assert ClearView(views[j]);
    }
  }

  /** Up to where the eager scan stops, both see the same names. */
  lemma LazyShowsIsShows(views: seq<View>, bound: nat, i: nat, n: Name)
    requires Clear(views) && !IsWh(n) && i < ScanEnd(views, Some(bound))
    ensures LazyShows(views, i, n) <==> Shows(views, i, n)
  {
    assert ClearView(views[i]);
    HidesUnfolded(views, i, n);
    ShowsUnfolded(views, i, n);
    BlockedAbove(views, bound, i, n);
    WhNameInverse(n, n);
    assert PlainAt(views, i, n) && !Hides(views, i, n) <==> n in Items(views[i]) && !Blocks(views, i, n);
    assert LazyShows(views, i, n) <==>
           n in Items(views[i]) && !Blocks(views, i, n) && !exists j: nat :: j < i && Blocks(views, j, n);
  }

  lemma BlockedAbove(views: seq<View>, bound: nat, i: nat, n: Name)
    requires Clear(views) && !IsWh(n) && i < ScanEnd(views, Some(bound))
    ensures Hidden(views, i, n) <==> exists j: nat :: j < i && Blocks(views, j, n)
  {
    forall j: nat | j < i
      ensures Blocks(views, j, n) <==> Hides(views, j, n)
    {
      forall k: nat | k <= j
        ensures !(views[k].Listing? && views[k].opq)
      {
        assert !Stops(views, Some(bound), k);
      }
      BlocksIsHides(views, j, n);
    }
    if Hidden(views, i, n) {
      var j: nat :| j < i && Hides(views, j, n);
      assert Blocks(views, j, n);
    }
    if j: nat :| j < i && Blocks(views, j, n) {
      assert Hides(views, j, n);
    }
  }

  /** The directory's layers are all scanned: no non-directory and no opaque directory stands
      above the last layer that the bound allows. */
  ghost predicate Covered(views: seq<View>, bound: nat) {
    forall i: nat :: i < LazyEnd(views, bound) - 1 ==> !views[i].NotADir? && !(views[i].Listing? && views[i].opq)
  }

  lemma {:induction false} CoveredEnd(views: seq<View>, bound: nat, i: nat)
    requires Clear(views) && (i < LazyEnd(views, bound) || i == LazyEnd(views, bound) == |views|)
    requires forall j: nat :: j < i ==> !Stops(views, Some(bound), j)
    ensures ScanEndFrom(views, Some(bound), i) <= LazyEnd(views, bound)
    ensures Covered(views, bound) && i < LazyEnd(views, bound) ==> ScanEndFrom(views, Some(bound), i) == LazyEnd(views, bound)
    decreases |views| - i
  {
    if i < LazyEnd(views, bound) {
      assert ClearView(views[i]);
      if !Stops(views, Some(bound), i) {
        CoveredEnd(views, bound, i + 1);
      }
    }
  }

  ghost function EagerScan(views: seq<View>, bound: nat): Cache {
    ScanFrom(views, Some(bound), 0, EMPTY)
  }

  function LazyResult(views: seq<View>, bound: nat, n: Name): Outcome {
    LazyFrom(views, bound, 0, n, None)
  }

  /** Lookup and scan agree on a name: found or not, and on which layer. */
  ghost predicate Agree(views: seq<View>, bound: nat, n: Name) {
    var r, c := LazyResult(views, bound, n), EagerScan(views, bound);
    && (r.Found? <==> n in c.children)
    && (r.Found? ==> r.seen.layer == c.children[n].layer && r.seen.isDir == c.children[n].isDir)
  }

  /** A layer below the end of the eager scan shows the name. */
  ghost predicate ShownBelow(views: seq<View>, bound: nat, n: Name) {
    exists i: nat :: ScanEnd(views, Some(bound)) <= i < LazyEnd(views, bound) && LazyShows(views, i, n)
  }

  lemma EagerScanAt(views: seq<View>, bound: nat, n: Name)
    ensures var c, e := EagerScan(views, bound), ScanEnd(views, Some(bound));
            && (n in c.children <==> Visible(views, e, n))
            && (n in c.children ==>
                  c.children[n] == Seen(Top(views, e, n), Bottom(views, e, n), views[Top(views, e, n)].items[n].DirItem?))
  {
    EagerScanIsMerge(views, Some(bound));
  }

  lemma FirstShown(views: seq<View>, i: nat, j: nat, n: Name)
    requires i < |views| && j < |views| && LazyShows(views, i, n) && LazyShows(views, j, n)
    requires forall k: nat :: k < i ==> n !in Items(views[k])
    ensures i <= j
  {}

  /** The exact condition for one ordinary name: the scan has it, or no layer below the end of the
      scan, but within the bound, shows it. Only an early stop can make the difference. */
  lemma LazyAgreesExactly(views: seq<View>, bound: nat, n: Name)
    requires Clear(views) && !IsWh(n)
    ensures Agree(views, bound, n) <==> Visible(views, ScanEnd(views, Some(bound)), n) || !ShownBelow(views, bound, n)
  {
    var e, l := ScanEnd(views, Some(bound)), LazyEnd(views, bound);
    var r := LazyResult(views, bound, n);
    CoveredEnd(views, bound, 0);
    assert forall j: nat :: j < |views| ==> ClearView(views[j]);
    LazyFinds(views, bound, 0, n);
    EagerScanAt(views, bound, n);
    if Visible(views, e, n) {
      var t := Top(views, e, n);
      LazyShowsIsShows(views, bound, t, n);
      assert t < l && LazyShows(views, t, n);
      FirstShown(views, r.seen.layer, t, n);
      LazyShowsIsShows(views, bound, r.seen.layer, n);
    } else {
      assert r.Found? ==> ShownBelow(views, bound, n) by {
        if r.Found? && r.seen.layer < e {
          LazyShowsIsShows(views, bound, r.seen.layer, n);
        }
      }
    }
  }

  /** What blocks an ordinary name hides it, but for the name whose marker the sentinel hides. */
  lemma BlockedIsHidden(views: seq<View>, i: nat, n: Name)
    requires Clear(views) && i < |views| && !IsWh(n) && n != ".opq" && Blocks(views, i, n)
    ensures Hides(views, i, n)
  {
    WhNameInverse(n, n);
    assert WhName(WhName(n)) != OPAQUE_WHITEOUT by {
      assert WhName(WhName(n))[8..] == n && OPAQUE_WHITEOUT[8..] == ".opq";
    }
    assert ClearView(views[i]);
    HidesUnfolded(views, i, n);
    forall j: nat | j < i
      ensures !Hides(views, j, WhName(n))
    {
      HidesUnfolded(views, j, WhName(n));
      assert ClearView(views[j]);
    }
  }

  /** A directory that is absent, or a directory that is not opaque, in every layer above the last
      one: lookup and scan agree on every ordinary name, and what the lookup records as a whiteout
      the scan records too. (The scan passes over the marker of `.opq` where the sentinel hides it.) */
  lemma LazyAgrees(views: seq<View>, bound: nat, n: Name)
    requires Clear(views) && !IsWh(n) && Covered(views, bound)
    ensures Agree(views, bound, n)
    ensures LazyResult(views, bound, n).HiddenBy? ==>
              && LazyResult(views, bound, n).whiteout == n && n !in EagerScan(views, bound).children
              && (n != ".opq" ==> n in EagerScan(views, bound).whiteouts)
  {
    CoveredEnd(views, bound, 0);
    assert forall j: nat :: j < |views| ==> ClearView(views[j]);
    LazyFinds(views, bound, 0, n);
    LazyAgreesExactly(views, bound, n);
    EagerScanIsMerge(views, Some(bound));
    if LazyResult(views, bound, n).HiddenBy? && n != ".opq" {
      var j: nat :| j < LazyEnd(views, bound) && Blocks(views, j, n);
      BlockedIsHidden(views, j, n);
      assert j < ScanEnd(views, Some(bound)) && Hides(views, j, n);
    }
  }

  // ---- Scans from maps that are not empty ----

  /** Maps that agree with the merge of the first `k` layers as far as they go. */
  ghost predicate Consistent(views: seq<View>, k: nat, c: Cache)
    requires k <= |views|
  {
    && (forall n :: n in c.children ==> Visible(views, k, n))
    && (forall n :: n in c.whiteouts ==> !Visible(views, k, n) && !IsWh(n))
  }

  /** No markers of markers, and no marker of the sentinel's own inner name. */
  ghost predicate PlainMarkers(views: seq<View>) {
    forall i: nat, m :: i < |views| && views[i].Listing? && IsWh(m) && WhName(m) in views[i].items ==>
      WhName(m) == OPAQUE_WHITEOUT && m !in views[i].items
  }

  /** The maps after `k` layers of a scan that started from `c0`, at one name. */
  ghost predicate RescannedAt(views: seq<View>, k: nat, c0: Cache, c: Cache, n: Name)
    requires k <= |views|
  {
    && (n in c.children <==> n in c0.children || Visible(views, k, n))
    && (n in c.children ==>
          if n in c0.children then
            c.children[n] == c0.children[n].(last := if Visible(views, k, n) then Bottom(views, k, n) else c.children[n].last)
          else
            c.children[n] == Seen(Top(views, k, n), Bottom(views, k, n), views[Top(views, k, n)].items[n].DirItem?))
    && (n in c.whiteouts ==> (n in c0.whiteouts || Hidden(views, k, n)) && !IsWh(n) && n !in c.children)
    && (n in c0.whiteouts || (Hidden(views, k, n) && n !in c.children) ==> n in c.whiteouts)
  }

  ghost predicate Rescanned(views: seq<View>, k: nat, c0: Cache, c: Cache)
    requires k <= |views|
  {
    forall n :: RescannedAt(views, k, c0, c, n)
  }

  ghost predicate ConsistentAt(views: seq<View>, k: nat, c: Cache, n: Name)
    requires k <= |views|
  {
    && (n in c.children ==> Visible(views, k, n))
    && (n in c.whiteouts ==> !Visible(views, k, n) && !IsWh(n))
  }

  lemma RescanStep(views: seq<View>, k: nat, e: nat, c0: Cache, c: Cache)
    requires k < e <= |views| && PlainMarkers(views) && Consistent(views, e, c0)
    requires Rescanned(views, k, c0, c)
    ensures Rescanned(views, k + 1, c0, ScanView(c, views[k], k))
  {
    var r, next := ScanView(c, views[k], k), k + 1;
    forall n
      ensures RescannedAt(views, next, c0, r, n)
    {
      assert RescannedAt(views, k, c0, c, n) && RescannedAt(views, k, c0, c, WhName(n));
      assert ConsistentAt(views, e, c0, n) && ConsistentAt(views, e, c0, WhName(n));
      MarkersStayUnhidden(views, k, n);
      MarkersStayUnhidden(views, k, WhName(n));
      RescanStepAt(views, k, e, c0, c, n);
    }
  }

  lemma RescanStepAt(views: seq<View>, k: nat, e: nat, c0: Cache, c: Cache, n: Name)
    requires k < e <= |views|
    requires RescannedAt(views, k, c0, c, n) && RescannedAt(views, k, c0, c, WhName(n))
    requires ConsistentAt(views, e, c0, n) && ConsistentAt(views, e, c0, WhName(n))
    requires IsWh(n) ==> !Hidden(views, k, n) && !Hides(views, k, n)
    requires !Hidden(views, k, WhName(n)) && !Hides(views, k, WhName(n))
    ensures RescannedAt(views, k + 1, c0, ScanView(c, views[k], k), n)
  {
    VisibleStep(views, k, n);
    HidesUnfolded(views, k, n);
    ShowsUnfolded(views, k, n);
    WhNameInverse(n, n);
    VisibleIsOrdinary(views, e, WhName(n));
    VisibleIsOrdinary(views, k, WhName(n));
    if Shows(views, k, n) {
      assert Visible(views, e, n);
    }
    MarkerUnseen(views, k, e, c0, c, n);
    if views[k].Listing? {
      RescanLayerAt(views, k, c0, c, n);
    }
  }

  /** The marker of a name is in neither map. */
  lemma MarkerUnseen(views: seq<View>, k: nat, e: nat, c0: Cache, c: Cache, n: Name)
    requires k < e <= |views|
    requires RescannedAt(views, k, c0, c, WhName(n)) && ConsistentAt(views, e, c0, WhName(n))
    ensures WhName(n) !in c.children && WhName(n) !in c.whiteouts
  {
    WhNameInverse(n, n);
    VisibleIsOrdinary(views, e, WhName(n));
    VisibleIsOrdinary(views, k, WhName(n));
  }

  lemma RescanLayerAt(views: seq<View>, k: nat, c0: Cache, c: Cache, n: Name)
    requires k < |views| && views[k].Listing?
    requires RescannedAt(views, k, c0, c, n)
    requires WhName(n) !in c.children && WhName(n) !in c.whiteouts
    requires Visible(views, k + 1, n) <==> Visible(views, k, n) || Shows(views, k, n)
    requires Hidden(views, k + 1, n) <==> Hidden(views, k, n) || Hides(views, k, n)
    requires Visible(views, k, n) ==> Top(views, k + 1, n) == Top(views, k, n)
    requires !Visible(views, k, n) && Shows(views, k, n) ==> Top(views, k + 1, n) == k && Bottom(views, k + 1, n) == k
    requires Visible(views, k, n) ==> Bottom(views, k + 1, n) == if Lists(views, k, n) then k else Bottom(views, k, n)
    requires Hides(views, k, n) <==> HiddenEntry(views[k].items, n) || Marked(views[k].items, n)
    requires Shows(views, k, n) <==> Plain(views[k].items, n) && !Hidden(views, k, n) && !Hides(views, k, n)
    requires IsWh(n) ==> !Hides(views, k, n) && !Hidden(views, k, n)
    requires n in c0.whiteouts ==> !Shows(views, k, n)
    ensures RescannedAt(views, k + 1, c0, ScanView(c, views[k], k), n)
  {
    var items, r := views[k].items, ScanLayer(c, views[k].items, k);
    assert n in r.children <==> n in c.children || (Plain(items, n) && n !in c.whiteouts);
    assert n in r.children ==> r.children[n] == SeenAfter(c, items, k, items.Keys, n);
    assert n in r.whiteouts <==> n in c.whiteouts || WhitedOut(c, items, items.Keys, n);
  }

  lemma VisibleIsOrdinary(views: seq<View>, k: nat, n: Name)
    requires k <= |views|
    ensures Visible(views, k, n) ==> !IsWh(n)
  {}

  lemma MarkersStayUnhidden(views: seq<View>, k: nat, m: Name)
    requires k < |views| && PlainMarkers(views)
    ensures IsWh(m) ==> !Hidden(views, k, m) && !Hides(views, k, m)
  {
    if IsWh(m) {
      forall i: nat | i <= k
        ensures !Hides(views, i, m)
      {
        HidesUnfolded(views, i, m);
      }
    }
  }

  lemma {:induction false} RescanFrom(views: seq<View>, bound: Option<nat>, i: nat, e: nat, c0: Cache, c: Cache)
    requires i <= |views| && e == ScanEndFrom(views, bound, i) && PlainMarkers(views) && Consistent(views, e, c0)
    requires Rescanned(views, i, c0, c)
    ensures Rescanned(views, e, c0, ScanFrom(views, bound, i, c))
    decreases |views| - i
  {
    if i < |views| {
      RescanStep(views, i, e, c0, c);
      if !Stops(views, bound, i) {
        RescanFrom(views, bound, i + 1, e, c0, ScanView(c, views[i], i));
      }
    }
  }

  /** A scan that starts from maps which agree with the merge as far as they go ends with all of
      it: every missing child is added with the right layer, and nothing else. */
  lemma RescanCompletes(views: seq<View>, bound: Option<nat>, c0: Cache)
    requires PlainMarkers(views) && Consistent(views, ScanEnd(views, bound), c0)
    ensures var c, m := ScanFrom(views, bound, 0, c0), ScanFrom(views, bound, 0, EMPTY);
            && c.children.Keys == m.children.Keys
            && (forall n :: n in c.children ==>
                  c.children[n] == if n in c0.children then c0.children[n].(last := m.children[n].last) else m.children[n])
            && c.whiteouts == c0.whiteouts + m.whiteouts
            && Consistent(views, ScanEnd(views, bound), c)
  {
    var e := ScanEnd(views, bound);
    var c, m := ScanFrom(views, bound, 0, c0), ScanFrom(views, bound, 0, EMPTY);
    forall n
      ensures RescannedAt(views, 0, c0, c0, n)
    {
      assert ConsistentAt(views, e, c0, n);
    }
    RescanFrom(views, bound, 0, e, c0, c0);
    EagerScanIsMerge(views, bound);
    RescanMatches(views, e, c0, c, m);
  }

  lemma RescanMatches(views: seq<View>, e: nat, c0: Cache, c: Cache, m: Cache)
    requires e <= |views| && Rescanned(views, e, c0, c) && Consistent(views, e, c0) && IsMerge(views, e, m)
    ensures c.children.Keys == m.children.Keys
    ensures forall n :: n in c.children ==>
              c.children[n] == if n in c0.children then c0.children[n].(last := m.children[n].last) else m.children[n]
    ensures c.whiteouts == c0.whiteouts + m.whiteouts
    ensures Consistent(views, e, c)
  {
    forall n
      ensures n in c.children <==> n in m.children
      ensures n in c.children ==>
                c.children[n] == if n in c0.children then c0.children[n].(last := m.children[n].last) else m.children[n]
      ensures n in c.whiteouts <==> n in c0.whiteouts + m.whiteouts
      ensures ConsistentAt(views, e, c, n)
    {
      assert RescannedAt(views, e, c0, c, n) && ConsistentAt(views, e, c0, n);
    }
    assert c.children.Keys == m.children.Keys;
    assert c.whiteouts == c0.whiteouts + m.whiteouts;
    forall n
      ensures n in c.children ==> Visible(views, e, n)
      ensures n in c.whiteouts ==> !Visible(views, e, n) && !IsWh(n)
    {
      assert ConsistentAt(views, e, c, n);
    }
  }
}
