/** The two kinds of change that copy-up and removal make to the upper layer, against the fresh
    mount: a copied entry is invisible, and a removed one takes away exactly its own subtree. */
module DiskChanges {
  import opened Wrappers
  import opened Names
  import opened Layers
  import opened Merge
  import opened FreshMount

  /** Nothing but the sentinel looks like a marker of a marker. */
  ghost predicate MarkersPlain(up: Layer) {
    forall d: Path, x :: d + [WhName(WhName(x))] in up ==> WhName(WhName(x)) == OPAQUE_WHITEOUT
  }

  lemma {:induction false} AbsentBelow(l: Layer, q: Path, p: Path)
    requires LayerOk(l) && q !in l && q <= p
    ensures p !in l
    decreases |p|
  {
    if p != q {
      assert q <= Parent(p) by {
        assert q == p[..|q|] == Parent(p)[..|q|];
      }
      AbsentBelow(l, q, Parent(p));
      assert p in l ==> EntryPlaced(l, p);
    }
  }

  // ---- Copy-up ----

  /** The entry that copy-up publishes: the same file, or an empty directory that is not opaque
      (overlay xattrs are not copied). */
  function CopyOf(e: Entry): Entry {
    if e.Dir? then Dir(false) else e
  }

  /** A visible entry of a lower layer whose parent is on the upper layer. */
  ghost predicate CanPublish(layers: seq<Layer>, q: Path) {
    && LayersOk(layers) && MarkersPlain(layers[0])
    && q != [] && Fresh(layers, q).Some? && Fresh(layers, q).value.layer > 0
    && Parent(q) in layers[0] && layers[0][Parent(q)].Dir?
  }

  ghost function Published(layers: seq<Layer>, q: Path): seq<Layer>
    requires CanPublish(layers, q)
  {
    FreshIsTopmost(layers, q);
    WithUpper(layers, layers[0][q := CopyOf(layers[Fresh(layers, q).value.layer][q])])
  }

  lemma PublishedChange(layers: seq<Layer>, q: Path)
    requires CanPublish(layers, q)
    ensures q !in layers[0] && !IsWh(Last(q)) && ChangedAt(layers[0], Published(layers, q)[0], q)
    ensures Published(layers, q) == WithUpper(layers, Published(layers, q)[0])
  {
    FreshIsTopmost(layers, q);
    assert q !in layers[0];
  }

  /** Where the top layer has a listing that does not end the scan, a name that a layer below it
      shows has no marker there. */
  lemma NoMarkerAboveShown(v: seq<View>, bound: nat, n: Name)
    requires |v| > 0 && v[0].Listing? && !IsWh(n)
    requires OPAQUE_WHITEOUT in v[0].items ==> v[0].opq
    requires WhName(WhName(n)) in v[0].items ==> WhName(WhName(n)) == OPAQUE_WHITEOUT
    requires Visible(v, ScanEnd(v, Some(bound)), n) && Top(v, ScanEnd(v, Some(bound)), n) > 0
    ensures WhName(n) !in v[0].items
  {
    TopFacts(v, Some(bound), n);
    assert !Stops(v, Some(bound), 0) && !Hides(v, 0, n);
    HidesUnfolded(v, 0, n);
    WhNameInverse(n, n);
    assert OPAQUE_WHITEOUT[4..] == ".wh..opq" && IsWh(".wh..opq");
    WhNameInverse(n, OPAQUE_WHITEOUT);
  }

  /** The name is added to the top layer, where it has no marker: it is found there now. */
  lemma AddedOnTop(v: seq<View>, w: seq<View>, bound: nat, n: Name)
    requires DifferAt(v, w, n) && !IsWh(n)
    requires Visible(v, ScanEnd(v, Some(bound)), n) && Top(v, ScanEnd(v, Some(bound)), n) > 0
    requires n in w[0].items && !w[0].items[n].WhiteoutItem? && WhName(n) !in w[0].items
    ensures var e := ScanEnd(v, Some(bound));
            && ScanEnd(w, Some(bound)) == e && Visible(w, e, n) && Top(w, e, n) == 0
            && Bottom(w, e, n) == Bottom(v, e, n)
  {
    var e := ScanEnd(v, Some(bound));
    EndUnaffected(v, w, n, bound, 0);
    HidesUnfolded(w, 0, n);
    ShowsUnfolded(w, 0, n);
    assert 0 < e && Shows(w, 0, n);
    TopFacts(v, Some(bound), n);
    assert PlainAt(w, 0, n);
    var b := Bottom(v, e, n);
    assert Lists(w, b, n);
    forall j: nat | b < j < e
      ensures !Lists(w, j, n)
    {
      assert !Lists(v, j, n);
    }
  }

  lemma SentinelSeals(l: Layer, p: Path)
    ensures ViewOf(l, p).Listing? && OPAQUE_WHITEOUT in ViewOf(l, p).items ==> ViewOf(l, p).opq
  {}

  /** The parent's listing of the upper layer, with one more entry. */
  lemma AddedItems(up: Layer, d: Path, n: Name, e: Entry)
    requires d in up && up[d].Dir?
    ensures var w := ViewOf(up[d + [n] := e], d);
            && w.Listing? && n in w.items && (w.items[n].WhiteoutItem? <==> e == Whiteout) && (w.items[n].DirItem? <==> e.Dir?)
            && forall x :: x != n ==> (x in w.items <==> d + [x] in up)
  {
    var up' := up[d + [n] := e];
    assert d + [n] != d;
    forall x | x != n
      ensures d + [x] in up' <==> d + [x] in up
    {
      assert Last(d + [x]) == x && Last(d + [n]) == n;
    }
  }

  /** The parent's listings before and after an entry without a marker is added. */
  lemma AddedViews(layers: seq<Layer>, q: Path, e: Entry)
    requires layers != [] && q != [] && !IsWh(Last(q)) && e != Whiteout
    requires Parent(q) in layers[0] && layers[0][Parent(q)].Dir? && Parent(q) + [WhName(Last(q))] !in layers[0]
    requires ChangedAt(layers[0], layers[0][q := e], q)
    ensures var v, w, n := ViewsOf(layers, Parent(q)), ViewsOf(WithUpper(layers, layers[0][q := e]), Parent(q)), Last(q);
            && DifferAt(v, w, n)
            && n in w[0].items && !w[0].items[n].WhiteoutItem? && WhName(n) !in w[0].items && (w[0].items[n].DirItem? <==> e.Dir?)
  {
    var d, n := Parent(q), Last(q);
    assert d + [n] == q;
    ViewsDiffer(layers, layers[0][q := e], q);
    AddedItems(layers[0], d, n, e);
    NamesDiffer(n);
  }

  lemma NamesDiffer(n: Name)
    ensures WhName(n) != n
  {
    assert |WhName(n)| == |n| + 4;
  }

  lemma NoMarkerInParent(layers: seq<Layer>, d: Path, n: Name, bound: nat)
    requires layers != [] && MarkersPlain(layers[0]) && d in layers[0] && layers[0][d].Dir? && !IsWh(n)
    requires var v := ViewsOf(layers, d);
             Visible(v, ScanEnd(v, Some(bound)), n) && Top(v, ScanEnd(v, Some(bound)), n) > 0
    ensures d + [WhName(n)] !in layers[0]
  {
    SentinelSeals(layers[0], d);
    ItemsOfViews(layers, d, 0, WhName(n));
    ItemsOfViews(layers, d, 0, WhName(WhName(n)));
    assert d + [WhName(WhName(n))] in layers[0] ==> WhName(WhName(n)) == OPAQUE_WHITEOUT;
    NoMarkerAboveShown(ViewsOf(layers, d), bound, n);
  }

  lemma PublishedIsNode(layers: seq<Layer>, q: Path)
    requires CanPublish(layers, q)
    ensures Fresh(Published(layers, q), q) == Some(Fresh(layers, q).value.(layer := 0))
  {
    var d, n, out := Parent(q), Last(q), Published(layers, q);
    PublishedChange(layers, q);
    FreshIsTopmost(layers, q);
    var s, bound := FreshUnfolded(layers, q);
    assert !(q <= d);
    FreshElsewhere(layers, out[0], q, d);
    NoMarkerInParent(layers, d, n, bound);
    AddedViews(layers, q, CopyOf(layers[s.layer][q]));
    AddedOnTop(ViewsOf(layers, d), ViewsOf(out, d), bound, n);
    EagerScanIsMerge(ViewsOf(out, d), Some(bound));
  }

  lemma {:induction false} SuffixScan(v: seq<View>, w: seq<View>, bound: nat, i: nat, c: Cache)
    requires |v| == |w| && i <= |v| && forall j :: i <= j < |v| ==> v[j] == w[j]
    ensures ScanFrom(v, Some(bound), i, c) == ScanFrom(w, Some(bound), i, c)
    decreases |v| - i
  {
    if i < |v| && !Stops(v, Some(bound), i) {
      SuffixScan(v, w, bound, i + 1, ScanView(c, v[i], i));
    }
  }

  /** An empty listing adds nothing to a scan. */
  lemma EmptyLayerScan()
    ensures ScanView(EMPTY, Listing(map[], false), 0) == EMPTY
  {
    var none: map<Name, Item> := map[];
    assert ScannedSome(EMPTY, none, 0, none.Keys, EMPTY);
    ScanLayerUnique(EMPTY, none, 0, EMPTY);
  }

  /** A published directory adds nothing to its own listing. */
  lemma PublishedScan(layers: seq<Layer>, q: Path, p: Path, bound: nat)
    requires CanPublish(layers, q) && q <= p && Fresh(layers, q).value.isDir
    ensures ScanOf(Published(layers, q), p, bound) == ScanOf(layers, p, bound)
  {
    var out := Published(layers, q);
    PublishedChange(layers, q);
    FreshIsTopmost(layers, q);
    AbsentBelow(layers[0], q, p);
    forall x
      ensures p + [x] !in out[0]
    {
      AbsentBelow(layers[0], q, p + [x]);
      assert p + [x] != q;
    }
    var v, w := ViewsOf(layers, p), ViewsOf(out, p);
    assert v[0] == Absent;
    if p == q {
      assert Listed(out[0], q) == {};
      assert p + [OPAQUE_WHITEOUT] !in out[0];
      assert w[0] == Listing(map[], false);
      EmptyLayerScan();
      SuffixScan(v, w, bound, 1, EMPTY);
    } else {
      assert w[0] == Absent;
      assert v == w;
    }
  }

  /** What is seen at every path after an entry was published. */
  lemma {:induction false} PublishedFresh(layers: seq<Layer>, q: Path, r: Path)
    requires CanPublish(layers, q)
    ensures Fresh(Published(layers, q), r) ==
            if r == q then Some(Fresh(layers, q).value.(layer := 0)) else Fresh(layers, r)
    decreases |r|
  {
    var out := Published(layers, q);
    PublishedChange(layers, q);
    if r == q {
      PublishedIsNode(layers, q);
    } else if q <= r {
      var p := Parent(r);
      assert q <= p by {
        assert q == r[..|q|] == p[..|q|];
      }
      PublishedFresh(layers, q, p);
      if Fresh(layers, p).Some? && Fresh(layers, p).value.isDir {
        AncestorIsDir(layers, q, p);
        PublishedScan(layers, q, p, Fresh(layers, p).value.last);
      }
    } else {
      FreshElsewhere(layers, out[0], q, r);
    }
  }

  lemma {:induction false} AncestorIsDir(layers: seq<Layer>, q: Path, p: Path)
    requires q <= p && Fresh(layers, p).Some? && Fresh(layers, p).value.isDir
    ensures Fresh(layers, q).Some? && Fresh(layers, q).value.isDir
    decreases |p|
  {
    if q != p {
      assert q <= Parent(p) by {
        assert q == p[..|q|] == Parent(p)[..|q|];
      }
      AncestorIsDir(layers, q, Parent(p));
    }
  }

  // ---- The same view ----

  /** Two disks show the same at a path: nothing in both, or a node with the same kind, the same
      last layer, and, if it is no directory, the same contents. */
  ghost predicate SameAt(a: seq<Layer>, b: seq<Layer>, p: Path)
    requires LayersOk(a) && LayersOk(b)
  {
    match (Fresh(a, p), Fresh(b, p))
    case (None, None) => true
    case (Some(s), Some(t)) =>
      && s.last == t.last && s.isDir == t.isDir
      && (p != [] && !s.isDir ==>
            && s.layer < |a| && p in a[s.layer] && t.layer < |b| && p in b[t.layer]
            && a[s.layer][p] == b[t.layer][p])
    case _ => false
  }

  /** The merged file system is the same. */
  ghost predicate SameView(a: seq<Layer>, b: seq<Layer>) {
    LayersOk(a) && LayersOk(b) && forall p :: SameAt(a, b, p)
  }

  lemma SameViewReflexive(a: seq<Layer>)
    requires LayersOk(a)
    ensures SameView(a, a)
  {
    forall p
      ensures SameAt(a, a, p)
    {
      if p != [] && Fresh(a, p).Some? {
        FreshIsTopmost(a, p);
      }
    }
  }

  lemma SameViewTransitive(a: seq<Layer>, b: seq<Layer>, c: seq<Layer>)
    requires SameView(a, b) && SameView(b, c)
    ensures SameView(a, c)
  {
    forall p
      ensures SameAt(a, c, p)
    {
      assert SameAt(a, b, p) && SameAt(b, c, p);
    }
  }

  lemma PublishedOk(layers: seq<Layer>, q: Path)
    requires CanPublish(layers, q)
    ensures LayersOk(Published(layers, q)) && MarkersPlain(Published(layers, q)[0])
  {
    var out := Published(layers, q);
    PublishedChange(layers, q);
    FreshIsTopmost(layers, q);
    var k := Fresh(layers, q).value.layer;
    assert EntryPlaced(layers[k], q);
    forall p | p in out[0] && p != []
      ensures EntryPlaced(out[0], p)
    {
      assert p != q ==> EntryPlaced(layers[0], p);
    }
    forall i | 0 <= i < |out|
      ensures LayerOk(out[i])
    {
      assert i > 0 ==> LayerOk(layers[i]);
    }
    forall d: Path, x | d + [WhName(WhName(x))] in out[0]
      ensures WhName(WhName(x)) == OPAQUE_WHITEOUT
    {
      WhNameInverse(WhName(x), x);
      assert Last(d + [WhName(WhName(x))]) == WhName(WhName(x));
    }
  }

  /** Copy-up of one entry is invisible: at every path the same node, kind and contents. */
  lemma PublishIsInvisible(layers: seq<Layer>, q: Path)
    requires CanPublish(layers, q)
    ensures SameView(layers, Published(layers, q))
  {
    var out := Published(layers, q);
    PublishedOk(layers, q);
    PublishedChange(layers, q);
    forall p
      ensures SameAt(layers, out, p)
    {
      PublishedFresh(layers, q, p);
      if p != [] && Fresh(layers, p).Some? {
        FreshIsTopmost(layers, p);
        FreshIsTopmost(out, p);
      }
    }
  }
}
