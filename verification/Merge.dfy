/** What a merged directory contains (src/overlay.rs): the eager scan `load_dir_impl` over all
    layers, the per-name `do_lazy_lookup`, and the declarative merge that both are compared with. */
module Merge {
  import opened Wrappers
  import opened Names
  import opened Layers

  /** A cached child: the layer it was found on, the last scanned layer that lists its name,
      and whether it is a directory. */
  datatype Seen = Seen(layer: nat, last: nat, isDir: bool)

  datatype Cache = Cache(children: map<Name, Seen>, whiteouts: set<Name>)

  const EMPTY := Cache(map[], {})

  // ---- One layer of the eager scan ----

  /** The effect of one directory entry `n` of layer `i`, with the branches of the scan in order. */
  function ScanEntry(c: Cache, items: map<Name, Item>, i: nat, n: Name): Cache
    requires n in items
  {
    if n == OPAQUE_WHITEOUT then c
    else if n in c.children then c.(children := c.children[n := c.children[n].(last := i)])
    else if n in c.whiteouts then c
    else if WhName(n) in items then c.(whiteouts := c.whiteouts + {n})
    else if IsWh(n) then
      if n[4..] in c.children then c else c.(whiteouts := c.whiteouts + {n[4..]})
    else if items[n].WhiteoutItem? then c.(whiteouts := c.whiteouts + {n})
    else c.(children := c.children[n := Seen(i, i, items[n].DirItem?)])
  }

  /** A name of the layer that is an ordinary, unhidden entry. */
  predicate Plain(items: map<Name, Item>, n: Name) {
    n in items && !IsWh(n) && !items[n].WhiteoutItem? && WhName(n) !in items
  }

  /** The name is hidden by its own entry: a `.wh.` marker beside it, or a device 0/0. */
  predicate HiddenEntry(items: map<Name, Item>, n: Name) {
    n in items && n != OPAQUE_WHITEOUT && (WhName(n) in items || (!IsWh(n) && items[n].WhiteoutItem?))
  }

  /** The marker of `n` is in the layer and is not itself hidden there. */
  predicate Marked(items: map<Name, Item>, n: Name) {
    WhName(n) in items && WhName(n) != OPAQUE_WHITEOUT && WhName(WhName(n)) !in items
  }

  /** The cache after the entries in `done`, in whatever order they were listed. */
  ghost predicate ScannedSome(c: Cache, items: map<Name, Item>, i: nat, done: set<Name>, r: Cache) {
    && (forall n :: n in r.children <==> n in c.children || (n in done && Plain(items, n) && n !in c.whiteouts))
    && (forall n :: n in r.children ==> r.children[n] == SeenAfter(c, items, i, done, n))
    && (forall n :: n in r.whiteouts <==> n in c.whiteouts || WhitedOut(c, items, done, n))
  }

  ghost function SeenAfter(c: Cache, items: map<Name, Item>, i: nat, done: set<Name>, n: Name): Seen
  {
    if n in c.children then
      if n in done && n != OPAQUE_WHITEOUT then c.children[n].(last := i) else c.children[n]
    else Seen(i, i, n in items && items[n].DirItem?)
  }

  ghost predicate WhitedOut(c: Cache, items: map<Name, Item>, done: set<Name>, n: Name) {
    n !in c.children &&
    (|| (n in done && HiddenEntry(items, n))
     || (WhName(n) in done && Marked(items, n) && WhName(n) !in c.whiteouts && WhName(n) !in c.children))
  }

  /** Taking one more entry, the set of entries taken alone determines the cache. */
  lemma ScanEntryStep(c: Cache, items: map<Name, Item>, i: nat, done: set<Name>, r: Cache, n: Name)
    requires ScannedSome(c, items, i, done, r) && done <= items.Keys && n in items && n !in done
    ensures ScannedSome(c, items, i, done + {n}, ScanEntry(r, items, i, n))
  {
    WhNameInverse(n, n);
    var s := ScanEntry(r, items, i, n);
    forall m
      ensures WhName(m) == n <==> IsWh(n) && n[4..] == m
    {
      WhNameInverse(m, n);
    }
  }

  /** The cache after all entries of a layer, in whatever order they were listed. */
  ghost function ScanLayer(c: Cache, items: map<Name, Item>, i: nat): (r: Cache)
    ensures ScannedSome(c, items, i, items.Keys, r)
  {
    var added := set n | n in items && Plain(items, n) && n !in c.whiteouts;
    var hidden := set n | n in items && WhitedOut(c, items, items.Keys, n);
    var marked := set m | m in items && IsWh(m) && WhitedOut(c, items, items.Keys, m[4..]) :: m[4..];
    var r := Cache(map n | n in c.children.Keys + added :: SeenAfter(c, items, i, items.Keys, n),
                   c.whiteouts + hidden + marked);
    assert forall n :: n in marked ==> WhitedOut(c, items, items.Keys, n);
    assert forall n :: WhitedOut(c, items, items.Keys, n) ==> n in hidden + marked by {
      forall n | WhitedOut(c, items, items.Keys, n)
        ensures n in hidden + marked
      {
        WhNameInverse(n, WhName(n));
        assert n !in hidden ==> WhName(n) in items && IsWh(WhName(n)) && WhName(n)[4..] == n;
      }
    }
    r
  }

  lemma ScanLayerUnique(c: Cache, items: map<Name, Item>, i: nat, r: Cache)
    requires ScannedSome(c, items, i, items.Keys, r)
    ensures r == ScanLayer(c, items, i)
  {
    var s := ScanLayer(c, items, i);
    assert r.children == s.children by {
      assert r.children.Keys == s.children.Keys;
    }
    assert r.whiteouts == s.whiteouts;
  }

  // ---- The eager scan over all layers ----

  /** The layer at which a bounded scan stops. A bound of 0 is no bound. */
  predicate AtBound(bound: Option<nat>, i: nat) {
    bound == Some(i) && i > 0
  }

  /** The scan does not look below this layer: a non-directory or an error in the way, the bound,
      or an opaque directory. */
  predicate Stops(views: seq<View>, bound: Option<nat>, i: nat)
    requires i < |views|
  {
    || views[i].NotADir? || views[i].StatFailed?
    || AtBound(bound, i)
    || (views[i].Listing? && views[i].opq)
  }

  /** What one layer adds. Layers without the directory, and layers that cannot be listed, are
      skipped. */
  ghost function ScanView(c: Cache, v: View, i: nat): Cache {
    if v.Listing? then ScanLayer(c, v.items, i) else c
  }

  ghost function ScanFrom(views: seq<View>, bound: Option<nat>, i: nat, c: Cache): Cache
    requires i <= |views|
    decreases |views| - i
  {
    if i == |views| then c
    else if Stops(views, bound, i) then ScanView(c, views[i], i)
    else ScanFrom(views, bound, i + 1, ScanView(c, views[i], i))
  }

  // ---- The declarative merge ----

  /** How many layers a scan looks at. */
  function ScanEnd(views: seq<View>, bound: Option<nat>): nat
  {
    ScanEndFrom(views, bound, 0)
  }

  function ScanEndFrom(views: seq<View>, bound: Option<nat>, i: nat): (r: nat)
    requires i <= |views|
    ensures i <= r <= |views|
    ensures forall j :: i <= j < r - 1 ==> !Stops(views, bound, j)
    ensures r < |views| ==> r > i && Stops(views, bound, r - 1)
    decreases |views| - i
  {
    if i == |views| then i
    else if Stops(views, bound, i) then i + 1
    else ScanEndFrom(views, bound, i + 1)
  }

  /** Layer `i` lists the name. */
  predicate Lists(views: seq<View>, i: nat, n: Name)
    requires i < |views|
  {
    views[i].Listing? && n in views[i].items
  }

  predicate PlainAt(views: seq<View>, i: nat, n: Name)
    requires i < |views|
  {
    views[i].Listing? && Plain(views[i].items, n)
  }

  /** Layer `i` whiteouts the name: by its own entry, or by a marker that is not itself hidden. */
  ghost predicate Hides(views: seq<View>, i: nat, n: Name)
    requires i < |views|
    decreases i
  {
    views[i].Listing? &&
    (|| HiddenEntry(views[i].items, n)
     || (Marked(views[i].items, n) && forall j: nat :: j < i ==> !Hides(views, j, WhName(n))))
  }

  /** Layer `i` holds a plain entry, and no layer at or above it whiteouts the name. */
  ghost predicate Shows(views: seq<View>, i: nat, n: Name)
    requires i < |views|
  {
    PlainAt(views, i, n) && forall j: nat :: j <= i ==> !Hides(views, j, n)
  }

  /** The name is in the merge of the first `k` layers. */
  ghost predicate Visible(views: seq<View>, k: nat, n: Name)
    requires k <= |views|
  {
    exists i: nat :: i < k && Shows(views, i, n)
  }

  ghost predicate Hidden(views: seq<View>, k: nat, n: Name)
    requires k <= |views|
  {
    exists i: nat :: i < k && Hides(views, i, n)
  }

  /** The topmost of the first `k` layers that shows the name. */
  ghost function Top(views: seq<View>, k: nat, n: Name): (i: nat)
    requires k <= |views| && Visible(views, k, n)
    ensures i < k && Shows(views, i, n)
    ensures forall j: nat :: j < i ==> !PlainAt(views, j, n)
    decreases k
  {
    if Visible(views, k - 1, n) then Top(views, k - 1, n)
    else
      assert Shows(views, k - 1, n);
      assert forall j: nat :: j < k - 1 && PlainAt(views, j, n) ==> Shows(views, j, n);
      k - 1
  }

  /** The lowest of the first `k` layers that lists the name at all. */
  ghost function Bottom(views: seq<View>, k: nat, n: Name): (i: nat)
    requires k <= |views| && Visible(views, k, n)
    ensures i < k && Lists(views, i, n)
    ensures forall j: nat :: i < j < k ==> !Lists(views, j, n)
    decreases k
  {
    if Lists(views, k - 1, n) then k - 1
    else
      var i: nat :| i < k && Shows(views, i, n);
      Bottom(views, k - 1, n)
  }

  /** The cache that the merge of the first `k` layers calls for. */
  ghost predicate IsMerge(views: seq<View>, k: nat, c: Cache)
    requires k <= |views|
  {
    && (forall n :: n in c.children <==> Visible(views, k, n))
    && (forall n :: n in c.children ==>
          c.children[n] == Seen(Top(views, k, n), Bottom(views, k, n),
                                views[Top(views, k, n)].items[n].DirItem?))
    && (forall n :: n in c.whiteouts <==> !Visible(views, k, n) && Hidden(views, k, n))
  }

  /** What is visible after one more layer. */
  lemma VisibleStep(views: seq<View>, k: nat, n: Name)
    requires k < |views|
    ensures Visible(views, k + 1, n) <==> Visible(views, k, n) || Shows(views, k, n)
    ensures Hidden(views, k + 1, n) <==> Hidden(views, k, n) || Hides(views, k, n)
    ensures Visible(views, k, n) ==> Top(views, k + 1, n) == Top(views, k, n)
    ensures !Visible(views, k, n) && Shows(views, k, n) ==> Top(views, k + 1, n) == k && Bottom(views, k + 1, n) == k
    ensures Visible(views, k, n) ==> Bottom(views, k + 1, n) == if Lists(views, k, n) then k else Bottom(views, k, n)
  {
    if Visible(views, k + 1, n) {
      var i: nat :| i < k + 1 && Shows(views, i, n);
      assert i < k || i == k;
    }
    if Shows(views, k, n) {
      assert k < k + 1 && Shows(views, k, n);
    }
    if Hidden(views, k + 1, n) {
      var i: nat :| i < k + 1 && Hides(views, i, n);
      assert i < k || i == k;
    }
    if Visible(views, k, n) {
      var i: nat :| i < k && Shows(views, i, n);
      assert i < k + 1 && Shows(views, i, n);
    }
  }

  lemma MarkersAreNeverShown(views: seq<View>, k: nat, n: Name)
    requires k <= |views| && IsWh(n)
    ensures !Visible(views, k, n)
  {}

  lemma EmptyIsMerge(views: seq<View>)
    ensures IsMerge(views, 0, EMPTY)
  {}

  lemma ScanViewIsMerge(views: seq<View>, k: nat, c: Cache)
    requires k < |views| && IsMerge(views, k, c)
    ensures IsMerge(views, k + 1, ScanView(c, views[k], k))
  {
    var r := ScanView(c, views[k], k);
    forall n
      ensures n in r.children <==> Visible(views, k + 1, n)
      ensures n in r.whiteouts <==> !Visible(views, k + 1, n) && Hidden(views, k + 1, n)
      ensures n in r.children ==>
                r.children[n] == Seen(Top(views, k + 1, n), Bottom(views, k + 1, n),
                                      views[Top(views, k + 1, n)].items[n].DirItem?)
    {
      ScanViewAt(views, k, c, n);
    }
  }

  lemma HidesUnfolded(views: seq<View>, k: nat, n: Name)
    requires k < |views|
    ensures Hides(views, k, n) <==>
            views[k].Listing? && (HiddenEntry(views[k].items, n) ||
                                  (Marked(views[k].items, n) && !Hidden(views, k, WhName(n))))
  {
    if Hidden(views, k, WhName(n)) {
      var i: nat :| i < k && Hides(views, i, WhName(n));
    }
  }

  lemma ShowsUnfolded(views: seq<View>, k: nat, n: Name)
    requires k < |views|
    ensures Shows(views, k, n) <==> PlainAt(views, k, n) && !Hidden(views, k, n) && !Hides(views, k, n)
  {
    if Hidden(views, k, n) {
      var i: nat :| i < k && Hides(views, i, n);
    }
  }

  lemma ScanViewAt(views: seq<View>, k: nat, c: Cache, n: Name)
    requires k < |views| && IsMerge(views, k, c)
    ensures var r := ScanView(c, views[k], k);
            && (n in r.children <==> Visible(views, k + 1, n))
            && (n in r.whiteouts <==> !Visible(views, k + 1, n) && Hidden(views, k + 1, n))
            && (n in r.children ==>
                  r.children[n] == Seen(Top(views, k + 1, n), Bottom(views, k + 1, n),
                                        views[Top(views, k + 1, n)].items[n].DirItem?))
  {
    var v, r := views[k], ScanView(c, views[k], k);
    VisibleStep(views, k, n);
    WhNameInverse(n, n);
    MarkersAreNeverShown(views, k, WhName(n));
    HidesUnfolded(views, k, n);
    ShowsUnfolded(views, k, n);
  }

  lemma {:induction false} ScanFromIsMerge(views: seq<View>, bound: Option<nat>, i: nat, c: Cache)
    requires i <= |views| && IsMerge(views, i, c)
    ensures IsMerge(views, ScanEndFrom(views, bound, i), ScanFrom(views, bound, i, c))
    decreases |views| - i
  {
    if i < |views| {
      ScanViewIsMerge(views, i, c);
      if !Stops(views, bound, i) {
        ScanFromIsMerge(views, bound, i + 1, ScanView(c, views[i], i));
      }
    }
  }

  /** The eager scan from empty maps is the declarative merge of the layers it looks at. */
  lemma EagerScanIsMerge(views: seq<View>, bound: Option<nat>)
    ensures IsMerge(views, ScanEnd(views, bound), ScanFrom(views, bound, 0, EMPTY))
  {
    EmptyIsMerge(views);
    ScanFromIsMerge(views, bound, 0, EMPTY);
  }

  // ---- The merge without a stopping point ----

  /** Whether a scan gets to a layer: the bound allows it, and every layer above it either does not have the
      directory or has it as one that is not opaque, or that cannot be listed. */
  predicate Reached(views: seq<View>, bound: Option<nat>, k: nat)
    requires k < |views|
  {
    && (bound == None || bound == Some(0) || k <= bound.value)
    && forall j: nat :: j < k ==> views[j].Absent? || views[j].Unlistable? || (views[j].Listing? && !views[j].opq)
  }

  /** A name is shown by the first layer reached that has it as a plain entry, if no layer at or above
      that one hides it; its last layer is the lowest reached that lists it. */
  ghost predicate IsChild(views: seq<View>, bound: Option<nat>, n: Name, s: Seen) {
    && s.layer <= s.last < |views| && Reached(views, bound, s.layer) && Reached(views, bound, s.last)
    && Shows(views, s.layer, n) && (forall j: nat :: j < s.layer ==> !PlainAt(views, j, n))
    && views[s.last].Listing? && n in views[s.last].items
    && (forall j: nat :: s.last < j < |views| && Reached(views, bound, j) && views[j].Listing? ==> n !in views[j].items)
    && s.isDir == views[s.layer].items[n].DirItem?
  }

  ghost predicate SomeShows(views: seq<View>, bound: Option<nat>, n: Name) {
    exists k: nat :: k < |views| && Reached(views, bound, k) && Shows(views, k, n)
  }

  ghost predicate SomeHides(views: seq<View>, bound: Option<nat>, n: Name) {
    exists k: nat :: k < |views| && Reached(views, bound, k) && Hides(views, k, n)
  }

  /** A scan looks at the layers that it reaches by that definition, and at no other. */
  lemma ScannedIsReached(views: seq<View>, bound: Option<nat>, k: nat)
    requires k < |views|
    ensures k < ScanEnd(views, bound) <==> Reached(views, bound, k)
  {
    var e := ScanEnd(views, bound);
    if k < e {
      forall j: nat | j < k
        ensures !AtBound(bound, j) && (views[j].Absent? || views[j].Unlistable? || (views[j].Listing? && !views[j].opq))
      {
        assert !Stops(views, bound, j);
      }
      assert bound.Some? && 0 < bound.value < k ==> AtBound(bound, bound.value);
    } else {
      assert Stops(views, bound, e - 1) && e - 1 < k;
    }
  }

  /** What a scan from empty maps leaves, whatever the views: a name is a child exactly if some layer
      that is reached shows it, and a whiteout exactly if none does and one hides it. */
  lemma ScanShowsWhatIsReached(views: seq<View>, bound: Option<nat>, n: Name)
    ensures var c := ScanFrom(views, bound, 0, EMPTY);
            && (n in c.children <==> SomeShows(views, bound, n))
            && (n in c.children ==> IsChild(views, bound, n, c.children[n]))
            && (n in c.whiteouts <==> !SomeShows(views, bound, n) && SomeHides(views, bound, n))
  {
    var c, e := ScanFrom(views, bound, 0, EMPTY), ScanEnd(views, bound);
    EagerScanIsMerge(views, bound);
    forall k: nat | k < |views|
      ensures k < e <==> Reached(views, bound, k)
    {
      ScannedIsReached(views, bound, k);
    }
    assert Visible(views, e, n) <==> SomeShows(views, bound, n);
    assert Hidden(views, e, n) <==> SomeHides(views, bound, n);
    if Visible(views, e, n) {
      TopFacts(views, bound, n);
      var s := c.children[n];
      assert Shows(views, s.layer, n) && Lists(views, s.last, n);
      forall j: nat | s.last < j < |views| && Reached(views, bound, j) && views[j].Listing?
        ensures n !in views[j].items
      {
        assert !Lists(views, j, n);
      }
    }
  }

  /** The layer a visible name comes from, and those above it. */
  lemma TopFacts(views: seq<View>, bound: Option<nat>, n: Name)
    requires Visible(views, ScanEnd(views, bound), n)
    ensures var e := ScanEnd(views, bound);
            var k := Top(views, e, n);
            && k <= Bottom(views, e, n) && PlainAt(views, k, n) && Lists(views, k, n) && !IsWh(n)
            && forall j: nat :: j < k ==> !Stops(views, bound, j) && !PlainAt(views, j, n) && !Hides(views, j, n)
  {
    var e := ScanEnd(views, bound);
    var k := Top(views, e, n);
    assert Shows(views, k, n) && k < e;
    assert Lists(views, k, n);
  }
}
