/** What a fresh mount of the layers shows: at each path, the node that scans from the root down
    would produce. It is the yardstick for the disk operations of copy-up and removal. */
module FreshMount {
  import opened Wrappers
  import opened Names
  import opened Layers
  import opened Merge

  /** The scan of a directory with the given bound, from empty maps. */
  ghost function ScanOf(layers: seq<Layer>, p: Path, bound: nat): Cache {
    ScanFrom(ViewsOf(layers, p), Some(bound), 0, EMPTY)
  }

  /** The node at `p`: found in the scan of its parent, which is bounded by the last layer that
      listed the parent. The root is a directory without a bound. */
  ghost function Fresh(layers: seq<Layer>, p: Path): Option<Seen>
    decreases |p|
  {
    if p == [] then Some(Seen(0, 0, true))
    else
      match Fresh(layers, Parent(p))
      case Some(d) =>
        if !d.isDir then None
        else
          var c := ScanOf(layers, Parent(p), d.last);
          if Last(p) in c.children then Some(c.children[Last(p)]) else None
      case None => None
  }

  /** The entry that is shown at `p`: that of the layer which the node is on. */
  ghost function EntryAt(layers: seq<Layer>, p: Path): Option<Entry> {
    match Fresh(layers, p)
    case Some(s) => if s.layer < |layers| && p in layers[s.layer] then Some(layers[s.layer][p]) else None
    case None => None
  }

  ghost predicate LayersOk(layers: seq<Layer>) {
    layers != [] && forall i :: 0 <= i < |layers| ==> LayerOk(layers[i])
  }

  // ---- What a node of a fresh mount says about the disk ----

  lemma ItemsOfViews(layers: seq<Layer>, p: Path, i: nat, n: Name)
    requires i < |layers|
    ensures Lists(ViewsOf(layers, p), i, n) <==> p in layers[i] && layers[i][p].Dir? && p + [n] in layers[i]
    ensures Lists(ViewsOf(layers, p), i, n) ==> ViewsOf(layers, p)[i].items[n] == ItemAt(layers[i], p + [n])
  {}

  /** A directory layer that neither shows nor hides an ordinary name does not list it. */
  lemma NotListed(layers: seq<Layer>, d: Path, n: Name, j: nat)
    requires LayersOk(layers) && j < |layers| && !IsWh(n)
    requires var v := ViewsOf(layers, d); !v[j].NotADir? && !PlainAt(v, j, n) && !Hides(v, j, n)
    ensures d + [n] !in layers[j]
  {
    HidesUnfolded(ViewsOf(layers, d), j, n);
    ItemsOfViews(layers, d, j, n);
    assert Parent(d + [n]) == d;
    assert d + [n] in layers[j] ==> EntryPlaced(layers[j], d + [n]);
  }

  /** The parent's scan, as the merge of layers that it is. */
  lemma FreshUnfolded(layers: seq<Layer>, p: Path) returns (s: Seen, bound: nat)
    requires p != [] && Fresh(layers, p).Some?
    ensures Fresh(layers, p) == Some(s)
    ensures Fresh(layers, Parent(p)).Some? && Fresh(layers, Parent(p)).value.isDir
    ensures bound == Fresh(layers, Parent(p)).value.last
    ensures var views, n := ViewsOf(layers, Parent(p)), Last(p);
            var e := ScanEnd(views, Some(bound));
            && Visible(views, e, n)
            && s == Seen(Top(views, e, n), Bottom(views, e, n), views[Top(views, e, n)].items[n].DirItem?)
  {
    s, bound := Fresh(layers, p).value, Fresh(layers, Parent(p)).value.last;
    EagerScanIsMerge(ViewsOf(layers, Parent(p)), Some(bound));
  }

  /** The node's layer is the topmost one that has the path, and holds it as the kind the node has. */
  ghost predicate IsTopmost(layers: seq<Layer>, p: Path, s: Seen) {
    && s.layer <= s.last < |layers| && p in layers[s.layer] && p in layers[s.last]
    && layers[s.layer][p] != Whiteout && s.isDir == layers[s.layer][p].Dir?
    && forall j :: 0 <= j < s.layer ==> p !in layers[j]
  }

  lemma FreshIsTopmost(layers: seq<Layer>, p: Path)
    requires LayersOk(layers) && p != [] && Fresh(layers, p).Some?
    ensures IsTopmost(layers, p, Fresh(layers, p).value) && !IsWh(Last(p))
  {
    var d, n := Parent(p), Last(p);
    assert d + [n] == p;
    var s, bound := FreshUnfolded(layers, p);
    TopOnDisk(layers, d, n, bound, s);
    assert IsTopmost(layers, p, s);
  }

  lemma TopOnDisk(layers: seq<Layer>, d: Path, n: Name, bound: nat, s: Seen)
    requires LayersOk(layers) && Visible(ViewsOf(layers, d), ScanEnd(ViewsOf(layers, d), Some(bound)), n)
    requires var views := ViewsOf(layers, d);
             var e := ScanEnd(views, Some(bound));
             s == Seen(Top(views, e, n), Bottom(views, e, n), views[Top(views, e, n)].items[n].DirItem?)
    ensures IsTopmost(layers, d + [n], s) && !IsWh(n)
  {
    var views := ViewsOf(layers, d);
    TopFacts(views, Some(bound), n);
    ItemsOfViews(layers, d, s.layer, n);
    ItemsOfViews(layers, d, s.last, n);
    forall j | 0 <= j < s.layer
      ensures d + [n] !in layers[j]
    {
      assert !Stops(views, Some(bound), j);
      NotListed(layers, d, n, j);
    }
  }

  /** Nothing is shown from below a file or an opaque directory: above the layers that a node is taken
      from, its directory is absent or a directory that is not opaque. */
  lemma NothingFromBelowAnObstacle(layers: seq<Layer>, p: Path, j: nat)
    requires LayersOk(layers) && p != [] && Fresh(layers, p).Some? && j < Fresh(layers, p).value.last
    ensures j < |layers| && (Parent(p) in layers[j] ==> layers[j][Parent(p)].Dir? && !IsOpaque(layers[j], Parent(p)))
    ensures Fresh(layers, Parent(p)).Some? && Fresh(layers, Parent(p)).value.isDir
    ensures var last := Fresh(layers, Parent(p)).value.last; last > 0 ==> Fresh(layers, p).value.last <= last
  {
    hide LayersOk;
    var s, bound := FreshUnfolded(layers, p);
    var views := ViewsOf(layers, Parent(p));
    ScanShowsWhatIsReached(views, Some(bound), Last(p));
    assert Reached(views, Some(bound), s.last);
    assert views[j] == ViewOf(layers[j], Parent(p));
  }

  /** A layer of the disk that the scan of a directory gets to. */
  ghost predicate DirReached(layers: seq<Layer>, d: Path, last: nat, k: nat) {
    && k < |layers| && (last == 0 || k <= last)
    && forall j :: 0 <= j < k && d in layers[j] ==> layers[j][d].Dir? && !IsOpaque(layers[j], d)
  }

  /** And all that is not covered by one is shown: a path is a node exactly if its directory is one, and a
      layer that is reached there shows the name. */
  lemma FreshIffReached(layers: seq<Layer>, p: Path)
    requires p != []
    ensures Fresh(layers, p).Some? <==>
            && Fresh(layers, Parent(p)).Some? && Fresh(layers, Parent(p)).value.isDir
            && exists k :: DirReached(layers, Parent(p), Fresh(layers, Parent(p)).value.last, k) && Shows(ViewsOf(layers, Parent(p)), k, Last(p))
  {
    if Fresh(layers, Parent(p)).Some? && Fresh(layers, Parent(p)).value.isDir {
      hide Reached;
      hide DirReached;
      hide Shows;
      var views, bound := ViewsOf(layers, Parent(p)), Fresh(layers, Parent(p)).value.last;
      ScanShowsWhatIsReached(views, Some(bound), Last(p));
      forall k: nat | k < |layers|
        ensures Reached(views, Some(bound), k) <==> DirReached(layers, Parent(p), bound, k)
      {
        ReachedOnDisk(layers, Parent(p), bound, k);
      }
    }
  }

  lemma ReachedOnDisk(layers: seq<Layer>, d: Path, bound: nat, k: nat)
    requires k < |layers|
    ensures Reached(ViewsOf(layers, d), Some(bound), k) <==> DirReached(layers, d, bound, k)
  {
    assert forall j: nat :: j < k ==> ViewsOf(layers, d)[j] == ViewOf(layers[j], d);
  }

  // ---- Changes of the upper layer at one path ----

  /** `up'` is `up` but for the path `q`, what is below it, and the marker of `q`. */
  ghost predicate ChangedAt(up: Layer, up': Layer, q: Path)
    requires q != []
  {
    forall p :: !(q <= p) && p != MarkerOf(q) ==>
      (p in up <==> p in up') && (p in up ==> up[p] == up'[p])
  }

  ghost function WithUpper(layers: seq<Layer>, up: Layer): seq<Layer>
    requires layers != []
  {
    layers[0 := up]
  }

  /** Views that agree but for one name and its marker in the top layer. */
  ghost predicate DifferAt(v: seq<View>, w: seq<View>, n: Name) {
    && |v| == |w| > 0
    && (forall i :: 0 < i < |v| ==> v[i] == w[i])
    && v[0].Listing? && w[0].Listing? && v[0].opq == w[0].opq
    && forall m :: m != n && m != WhName(n) ==>
         (m in v[0].items <==> m in w[0].items) && (m in v[0].items ==> v[0].items[m] == w[0].items[m])
  }

  lemma {:induction false} HidesUnaffected(v: seq<View>, w: seq<View>, n: Name, i: nat, x: Name)
    requires DifferAt(v, w, n) && !IsWh(n) && x != n && x != WhName(n) && i < |v|
    ensures Hides(v, i, x) <==> Hides(w, i, x)
    decreases i
  {
    HidesUnfolded(v, i, x);
    HidesUnfolded(w, i, x);
    WhNameInverse(x, n);
    WhNameInverse(WhName(x), n);
    assert WhName(x) != n && WhName(WhName(x)) != n && WhName(x) != WhName(n);
    forall j: nat | j < i
      ensures Hides(v, j, WhName(x)) <==> Hides(w, j, WhName(x))
    {
      HidesUnaffected(v, w, n, j, WhName(x));
    }
    HiddenUnaffected(v, w, i, WhName(x));
    WhNameInverse(WhName(WhName(x)), n);
    assert WhName(WhName(x)) == WhName(n) <==> WhName(x) == n by {
      WhNameInverse(WhName(x), n);
    }
  }

  lemma HiddenUnaffected(v: seq<View>, w: seq<View>, k: nat, x: Name)
    requires |v| == |w| && k <= |v| && forall j: nat :: j < k ==> (Hides(v, j, x) <==> Hides(w, j, x))
    ensures Hidden(v, k, x) <==> Hidden(w, k, x)
  {
    if j: nat :| j < k && Hides(v, j, x) {
      assert Hides(w, j, x);
    }
    if j: nat :| j < k && Hides(w, j, x) {
      assert Hides(v, j, x);
    }
  }

  lemma ShowsUnaffected(v: seq<View>, w: seq<View>, n: Name, i: nat, x: Name)
    requires DifferAt(v, w, n) && !IsWh(n) && x != n && x != WhName(n) && i < |v|
    ensures Shows(v, i, x) <==> Shows(w, i, x)
    ensures Lists(v, i, x) <==> Lists(w, i, x)
    ensures Lists(v, i, x) ==> v[i].items[x] == w[i].items[x]
    ensures PlainAt(v, i, x) <==> PlainAt(w, i, x)
  {
    ShowsUnfolded(v, i, x);
    ShowsUnfolded(w, i, x);
    WhNameInverse(x, n);
    forall j: nat | j <= i
      ensures Hides(v, j, x) <==> Hides(w, j, x)
    {
      HidesUnaffected(v, w, n, j, x);
    }
    HiddenUnaffected(v, w, i, x);
  }

  lemma {:induction false} TopUnaffected(v: seq<View>, w: seq<View>, n: Name, k: nat, x: Name)
    requires DifferAt(v, w, n) && !IsWh(n) && x != n && x != WhName(n) && k <= |v|
    ensures Visible(v, k, x) <==> Visible(w, k, x)
    ensures Visible(v, k, x) ==> Top(v, k, x) == Top(w, k, x) && Bottom(v, k, x) == Bottom(w, k, x)
    decreases k
  {
    if k > 0 {
      TopUnaffected(v, w, n, k - 1, x);
      ShowsUnaffected(v, w, n, k - 1, x);
      VisibleStep(v, k - 1, x);
      VisibleStep(w, k - 1, x);
    }
  }

  lemma {:induction false} EndUnaffected(v: seq<View>, w: seq<View>, n: Name, bound: nat, i: nat)
    requires DifferAt(v, w, n) && i <= |v|
    ensures ScanEndFrom(v, Some(bound), i) == ScanEndFrom(w, Some(bound), i)
    decreases |v| - i
  {
    if i < |v| {
      EndUnaffected(v, w, n, bound, i + 1);
    }
  }

  /** Of the two scans, only the one name can tell a difference. */
  lemma OthersUnaffected(v: seq<View>, w: seq<View>, n: Name, bound: nat, x: Name)
    requires DifferAt(v, w, n) && !IsWh(n) && x != n
    ensures var c, d := ScanFrom(v, Some(bound), 0, EMPTY), ScanFrom(w, Some(bound), 0, EMPTY);
            (x in c.children <==> x in d.children) && (x in c.children ==> c.children[x] == d.children[x])
  {
    EagerScanIsMerge(v, Some(bound));
    EagerScanIsMerge(w, Some(bound));
    EndUnaffected(v, w, n, bound, 0);
    var e := ScanEnd(v, Some(bound));
    if x == WhName(n) {
      WhNameInverse(n, n);
      MarkersAreNeverShown(v, e, x);
      MarkersAreNeverShown(w, e, x);
    } else {
      TopUnaffected(v, w, n, e, x);
      if Visible(v, e, x) {
        ShowsUnaffected(v, w, n, Top(v, e, x), x);
      }
    }
  }

  lemma ExtendAway(q: Path, p: Path, x: Name)
    requires q != [] && !(q <= p)
    ensures q <= p + [x] ==> q == p + [x] && p == Parent(q) && x == Last(q)
  {
    if q <= p + [x] {
      assert |q| == |p| + 1;
      assert q == p + [x];
    }
  }

  function MarkerOf(q: Path): Path
    requires q != []
  {
    Parent(q) + [WhName(Last(q))]
  }

  lemma MarkerIsNotSentinel(q: Path, p: Path)
    requires q != [] && !IsWh(Last(q))
    ensures p + [OPAQUE_WHITEOUT] != MarkerOf(q)
    ensures !(q <= p) ==> !(q <= p + [OPAQUE_WHITEOUT])
  {
    WhNameInverse(Last(q), OPAQUE_WHITEOUT);
    assert OPAQUE_WHITEOUT[4..] == ".wh..opq" && IsWh(".wh..opq");
    assert Last(p + [OPAQUE_WHITEOUT]) == OPAQUE_WHITEOUT && Last(MarkerOf(q)) == WhName(Last(q));
    assert IsWh(OPAQUE_WHITEOUT);
    if !(q <= p) {
      ExtendAway(q, p, OPAQUE_WHITEOUT);
    }
  }

  lemma OpacityKept(up: Layer, up': Layer, q: Path, p: Path)
    requires q != [] && ChangedAt(up, up', q) && !IsWh(Last(q)) && !(q <= p) && p != MarkerOf(q)
    ensures p in up <==> p in up'
    ensures p in up ==> up[p] == up'[p]
    ensures IsOpaque(up, p) <==> IsOpaque(up', p)
  {
    MarkerIsNotSentinel(q, p);
  }

  lemma ItemKept(up: Layer, up': Layer, q: Path, p: Path, x: Name)
    requires q != [] && ChangedAt(up, up', q) && !IsWh(Last(q)) && !(q <= p)
    requires p == Parent(q) ==> x != Last(q) && x != WhName(Last(q))
    ensures p + [x] in up <==> p + [x] in up'
    ensures p + [x] in up ==> ItemAt(up, p + [x]) == ItemAt(up', p + [x])
  {
    ExtendAway(q, p, x);
    assert p + [x] != MarkerOf(q) by {
      assert Parent(p + [x]) == p && Last(p + [x]) == x;
      assert Parent(MarkerOf(q)) == Parent(q) && Last(MarkerOf(q)) == WhName(Last(q));
    }
    OpacityKept(up, up', q, p + [x]);
  }

  /** Away from the changed path, a directory's view is the same. */
  lemma ViewKept(up: Layer, up': Layer, q: Path, p: Path)
    requires q != [] && ChangedAt(up, up', q) && !IsWh(Last(q)) && !(q <= p)
    requires p != Parent(q) && p != MarkerOf(q)
    ensures ViewOf(up', p) == ViewOf(up, p)
  {
    OpacityKept(up, up', q, p);
    forall x
      ensures p + [x] in up <==> p + [x] in up'
      ensures p + [x] in up ==> ItemAt(up, p + [x]) == ItemAt(up', p + [x])
    {
      ItemKept(up, up', q, p, x);
    }
    assert Listed(up, p) == Listed(up', p);
  }

  /** In the directory of the changed path, the views differ in the one name and its marker. */
  lemma ViewsDiffer(layers: seq<Layer>, up': Layer, q: Path)
    requires layers != [] && q != [] && ChangedAt(layers[0], up', q) && !IsWh(Last(q))
    requires Parent(q) in layers[0] && layers[0][Parent(q)].Dir?
    ensures DifferAt(ViewsOf(layers, Parent(q)), ViewsOf(WithUpper(layers, up'), Parent(q)), Last(q))
  {
    var p, up := Parent(q), layers[0];
    assert p != MarkerOf(q) && !(q <= p);
    OpacityKept(up, up', q, p);
    var v, w := ViewsOf(layers, p), ViewsOf(WithUpper(layers, up'), p);
    forall x | x != Last(q) && x != WhName(Last(q))
      ensures x in v[0].items <==> x in w[0].items
      ensures x in v[0].items ==> v[0].items[x] == w[0].items[x]
    {
      ItemKept(up, up', q, p, x);
    }
  }

  /** A change of the upper layer at `q` is not seen at any path that does not lie below `q`. */
  lemma {:induction false} FreshElsewhere(layers: seq<Layer>, up': Layer, q: Path, r: Path)
    requires layers != [] && q != [] && ChangedAt(layers[0], up', q) && !IsWh(Last(q)) && !(q <= r)
    requires Parent(q) in layers[0] && layers[0][Parent(q)].Dir?
    ensures Fresh(WithUpper(layers, up'), r) == Fresh(layers, r)
    decreases |r|
  {
    if r != [] {
      var p := Parent(r);
      PrefixOfParent(q, r);
      FreshElsewhere(layers, up', q, p);
      assert r == p + [Last(r)];
      if p == MarkerOf(q) {
        WhNameInverse(Last(q), Last(q));
        MarkerIsNoNode(layers, p);
      } else if Fresh(layers, p).Some? {
        hide ScanOf;
        ScanElsewhere(layers, up', q, p, Last(r), Fresh(layers, p).value.last);
      }
    }
  }

  /** Nor is it found in a scan of another name. */
  lemma ScanElsewhere(layers: seq<Layer>, up': Layer, q: Path, p: Path, n: Name, bound: nat)
    requires layers != [] && q != [] && ChangedAt(layers[0], up', q) && !IsWh(Last(q)) && !(q <= p + [n]) && !(q <= p)
    requires Parent(q) in layers[0] && layers[0][Parent(q)].Dir? && p != MarkerOf(q)
    ensures var c, d := ScanOf(layers, p, bound), ScanOf(WithUpper(layers, up'), p, bound);
            (n in c.children <==> n in d.children) && (n in c.children ==> c.children[n] == d.children[n])
  {
    if p == Parent(q) {
      ViewsDiffer(layers, up', q);
      assert n != Last(q) by { assert p + [Last(q)] == q; }
      OthersUnaffected(ViewsOf(layers, p), ViewsOf(WithUpper(layers, up'), p), Last(q), bound, n);
    } else {
      ViewKept(layers[0], up', q, p);
      assert ViewsOf(layers, p) == ViewsOf(WithUpper(layers, up'), p);
    }
  }

  /** Nor is another entry shown there. */
  lemma EntryElsewhere(layers: seq<Layer>, up': Layer, q: Path, r: Path)
    requires layers != [] && q != [] && ChangedAt(layers[0], up', q) && !IsWh(Last(q)) && !(q <= r)
    requires Parent(q) in layers[0] && layers[0][Parent(q)].Dir?
    ensures EntryAt(WithUpper(layers, up'), r) == EntryAt(layers, r)
  {
    FreshElsewhere(layers, up', q, r);
    if r == MarkerOf(q) {
      WhNameInverse(Last(q), Last(q));
      MarkerIsNoNode(layers, r);
    }
  }

  lemma PrefixOfParent(q: Path, r: Path)
    requires r != [] && !(q <= r)
    ensures !(q <= Parent(r))
  {}

  /** A marker is never a node of a mount. */
  lemma MarkerIsNoNode(layers: seq<Layer>, p: Path)
    requires p != [] && IsWh(Last(p))
    ensures Fresh(layers, p) == None
  {
    if Fresh(layers, Parent(p)).Some? {
      var views, bound := ViewsOf(layers, Parent(p)), Fresh(layers, Parent(p)).value.last;
      EagerScanIsMerge(views, Some(bound));
      MarkersAreNeverShown(views, ScanEnd(views, Some(bound)), Last(p));
    }
  }

  /** Nothing is below a path that is no node. */
  lemma {:induction false} NothingBelow(layers: seq<Layer>, q: Path, r: Path)
    requires q != [] && q <= r && Fresh(layers, q) == None
    ensures Fresh(layers, r) == None
    decreases |r|
  {
    if q != r {
      assert q <= Parent(r) by {
        assert q == r[..|q|] == Parent(r)[..|q|];
      }
      NothingBelow(layers, q, Parent(r));
    }
  }
}
