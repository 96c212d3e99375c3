/** RENAME_EXCHANGE on a clean disk: two entries of the upper layer, with all that is below them, trade
    places. Nothing is covered and nothing is deleted. */
module DiskExchange {
  import opened Wrappers
  import opened Names
  import opened NodeTree
  import opened Layers
  import opened Merge
  import opened FreshMount
  import opened DiskChanges
  import opened Removal
  import opened CleanDisk
  import opened Session
  import opened SessionFrame
  import opened SessionDisk
  import opened Clearing
  import opened DiskRename
  import opened Disks

  /** Where a path goes. */
  function Swap(a: Path, b: Path, p: Path): Path {
    if a <= p then Shift(a, b, p) else if b <= p then Shift(b, a, p) else p
  }

  function ExchangedUpper(up: Layer, a: Path, b: Path): Layer {
    var places := set p | p in up :: Swap(a, b, p);
    map r | r in places && Swap(a, b, r) in up :: up[Swap(a, b, r)]
  }

  /** Neither path is above the other. */
  predicate Apart(a: Path, b: Path) {
    a != [] && b != [] && !(a <= b) && !(b <= a)
  }

  lemma SwapIsInvolution(a: Path, b: Path, p: Path)
    requires Apart(a, b)
    ensures Swap(a, b, Swap(a, b, p)) == p
    ensures a <= p <==> b <= Swap(a, b, p)
    ensures b <= p <==> a <= Swap(a, b, p)
    ensures (Swap(a, b, p) == a <==> p == b) && (Swap(a, b, p) == b <==> p == a)
  {
    PrefixesCompare(a, b, p);
    if a <= p {
      ShiftBack(a, b, p);
      PrefixesCompare(a, b, Shift(a, b, p));
      ShiftBack(b, a, Shift(a, b, p));
    } else if b <= p {
      ShiftBack(b, a, p);
      PrefixesCompare(a, b, Shift(b, a, p));
    }
  }

  /** The upper layer, entry by entry. */
  lemma ExchangedAt(up: Layer, a: Path, b: Path, p: Path)
    requires Apart(a, b)
    ensures var out := ExchangedUpper(up, a, b);
            (p in out <==> Swap(a, b, p) in up) && (p in out ==> out[p] == up[Swap(a, b, p)])
  {
    SwapIsInvolution(a, b, p);
  }

  /** A name goes with its directory, unless it is one of the two that are exchanged. */
  lemma SwapSnoc(a: Path, b: Path, p: Path, k: Name)
    requires Apart(a, b) && p + [k] != a && p + [k] != b
    ensures Swap(a, b, p + [k]) == Swap(a, b, p) + [k]
  {
    ExtendedBelow(a, p, k);
    ExtendedBelow(b, p, k);
    if a <= p {
      ShiftSnoc(a, b, p, k);
    } else if b <= p {
      ShiftSnoc(b, a, p, k);
    }
  }

  lemma ExtendedBelow(a: Path, p: Path, k: Name)
    requires a != [] && p + [k] != a
    ensures a <= p + [k] <==> a <= p
  {
    PrefixOfSnoc(a, p, k);
  }

  lemma SwapParent(a: Path, b: Path, p: Path)
    requires Apart(a, b) && p != [] && p != a && p != b
    ensures Swap(a, b, p) != [] && Parent(Swap(a, b, p)) == Swap(a, b, Parent(p)) && Last(Swap(a, b, p)) == Last(p)
  {
    assert p == Parent(p) + [Last(p)];
    SwapSnoc(a, b, Parent(p), Last(p));
  }

  /** What an exchange that is carried out on shown entries can count on. If a lower layer has one of
      the names, neither entry is a directory. */
  ghost predicate Swappable(layers: seq<Layer>, a: Path, b: Path) {
    && Clean(layers) && Apart(a, b) && Ordinary(Last(a)) && Ordinary(Last(b))
    && a in layers[0] && layers[0][a] != Whiteout && b in layers[0] && layers[0][b] != Whiteout
    && (InLower(layers, a) || InLower(layers, b) ==> !layers[0][a].Dir? && !layers[0][b].Dir?)
  }

  lemma SwappableBoth(layers: seq<Layer>, a: Path, b: Path)
    requires Swappable(layers, a, b)
    ensures Swappable(layers, b, a)
    ensures MarkerOf(a) !in layers[0] && MarkerOf(b) !in layers[0]
    ensures Parent(a) in layers[0] && layers[0][Parent(a)].Dir? && Parent(b) in layers[0] && layers[0][Parent(b)].Dir?
  {
    assert UpperEntry(layers[0], a) && UpperEntry(layers[0], b);
    assert LayerOk(layers[0]) && EntryPlaced(layers[0], a) && EntryPlaced(layers[0], b);
  }

  /** Below the two names there is nothing on lower layers. */
  lemma NothingLowerInside(layers: seq<Layer>, a: Path, b: Path, p: Path)
    requires Swappable(layers, a, b) && a <= p && p != a
    ensures !InLower(layers, p)
  {
    if i :| 1 <= i < |layers| && p in layers[i] {
      if a in layers[i] {
        InLowerAt(layers, a, i);
        assert NoClash(layers, 0, i, a) && CleanEntry(layers[i], a);
        NothingInside(layers[i], a, p);
      } else {
        AbsentBelow(layers[i], a, p);
      }
    }
  }

  /** The two names and their directories stay; so do markers beside them. */
  lemma SwapFixes(layers: seq<Layer>, a: Path, b: Path)
    requires Swappable(layers, a, b)
    ensures Swap(a, b, Parent(a)) == Parent(a) && Swap(a, b, MarkerOf(a)) == MarkerOf(a)
  {
    MarkerNotBelow(a);
    MarkerNextTo(a, b);
    PrefixOfParent(b, a);
  }

  // ---- Names ----

  /** A name of a directory before, and of the same directory after. */
  lemma SwappedName(layers: seq<Layer>, a: Path, b: Path, p: Path, k: Name)
    requires Swappable(layers, a, b) && p + [k] != a && p + [k] != b && !IsWh(k)
    ensures var out := WithUpper(layers, ExchangedUpper(layers[0], a, b));
            && (InMerge(out, Swap(a, b, p), k) <==> InMerge(layers, p, k))
            && (UpperHides(out, Swap(a, b, p), k) <==> UpperHides(layers, p, k))
  {
    var up, r := ExchangedUpper(layers[0], a, b), Swap(a, b, p);
    var q, w := p + [k], p + [WhName(k)];
    NotTheMarker(layers, a, b, p, k);
    SwapSnoc(a, b, p, k);
    SwapSnoc(a, b, p, WhName(k));
    SwapIsInvolution(a, b, q);
    SwapIsInvolution(a, b, w);
    ExchangedAt(layers[0], a, b, r + [k]);
    ExchangedAt(layers[0], a, b, r + [WhName(k)]);
    LowerKept(layers, up, r + [k]);
    SameLower(layers, a, b, q);
  }

  lemma NotTheMarker(layers: seq<Layer>, a: Path, b: Path, p: Path, k: Name)
    requires Swappable(layers, a, b)
    ensures p + [WhName(k)] != a && p + [WhName(k)] != b
  {
    WhNameInverse(k, k);
    assert Last(p + [WhName(k)]) == WhName(k);
  }

  /** Apart from the two names themselves, a path and its new place are on the same lower layers. */
  lemma SameLower(layers: seq<Layer>, a: Path, b: Path, q: Path)
    requires Swappable(layers, a, b) && q != a && q != b
    ensures forall j :: 1 <= j < |layers| ==> (q in layers[j] <==> Swap(a, b, q) in layers[j])
    ensures InLower(layers, q) <==> InLower(layers, Swap(a, b, q))
    ensures q != Swap(a, b, q) ==> !InLower(layers, q)
  {
    SwapIsInvolution(a, b, q);
    SwappableBoth(layers, a, b);
    var r := Swap(a, b, q);
    if a <= q {
      NothingLowerInside(layers, a, b, q);
      NothingLowerInside(layers, b, a, r);
    } else if b <= q {
      NothingLowerInside(layers, b, a, q);
      NothingLowerInside(layers, a, b, r);
    }
    forall j | 1 <= j < |layers|
      ensures q in layers[j] <==> r in layers[j]
    {
      if q in layers[j] {
        InLowerAt(layers, q, j);
      }
      if r in layers[j] {
        InLowerAt(layers, r, j);
      }
    }
  }

  /** Both names are shown afterwards. */
  lemma SwappedShown(layers: seq<Layer>, a: Path, b: Path)
    requires Swappable(layers, a, b)
    ensures var out := WithUpper(layers, ExchangedUpper(layers[0], a, b));
            && a in out[0] && out[0][a] == layers[0][b] && InMerge(out, Parent(a), Last(a))
            && !UpperHides(out, Parent(a), Last(a)) && MarkerOf(a) !in out[0]
  {
    SwappableBoth(layers, a, b);
    SwapFixes(layers, a, b);
    ShiftBack(a, b, a);
    ExchangedAt(layers[0], a, b, a);
    ExchangedAt(layers[0], a, b, MarkerOf(a));
    assert Parent(a) + [Last(a)] == a;
  }

  lemma SwapCommutes(a: Path, b: Path, p: Path)
    requires Apart(a, b)
    ensures Swap(a, b, p) == Swap(b, a, p)
  {
    PrefixesCompare(a, b, p);
  }

  lemma ExchangedCommutes(up: Layer, a: Path, b: Path)
    requires Apart(a, b)
    ensures ExchangedUpper(up, a, b) == ExchangedUpper(up, b, a)
  {
    var x, y := ExchangedUpper(up, a, b), ExchangedUpper(up, b, a);
    forall p
      ensures p in x <==> p in y
      ensures p in x ==> x[p] == y[p]
    {
      SwapCommutes(a, b, p);
      ExchangedAt(up, a, b, p);
      ExchangedAt(up, b, a, p);
    }
  }

  // ---- The disk stays clean ----

  lemma ExchangedPlaced(layers: seq<Layer>, a: Path, b: Path, p: Path)
    requires Swappable(layers, a, b) && p != [] && p in ExchangedUpper(layers[0], a, b)
    ensures EntryPlaced(ExchangedUpper(layers[0], a, b), p)
  {
    SwappableBoth(layers, a, b);
    SwapIsInvolution(a, b, p);
    ExchangedAt(layers[0], a, b, p);
    ExchangedAt(layers[0], a, b, Parent(p));
    if p == a {
      SwapFixes(layers, a, b);
    } else if p == b {
      SwapFixes(layers, b, a);
      SwapCommutes(a, b, Parent(b));
    } else {
      SwapParent(a, b, p);
      assert EntryPlaced(layers[0], Swap(a, b, p));
    }
  }

  lemma ExchangedEntry(layers: seq<Layer>, a: Path, b: Path, p: Path)
    requires Swappable(layers, a, b) && p in ExchangedUpper(layers[0], a, b)
    ensures UpperEntry(ExchangedUpper(layers[0], a, b), p)
  {
    SwappableBoth(layers, a, b);
    SwapIsInvolution(a, b, p);
    ExchangedAt(layers[0], a, b, p);
    if p == a {
      SwappedShown(layers, a, b);
    } else if p == b {
      SwappedShown(layers, b, a);
      ExchangedCommutes(layers[0], a, b);
    } else if p != [] {
      SwapParent(a, b, p);
      NotTheMarker(layers, a, b, Parent(p), Last(p));
      SwapSnoc(a, b, Parent(p), WhName(Last(p)));
      ExchangedAt(layers[0], a, b, MarkerOf(p));
      assert UpperEntry(layers[0], Swap(a, b, p));
    }
  }

  lemma ExchangedOpacity(layers: seq<Layer>, a: Path, b: Path, p: Path)
    requires Swappable(layers, a, b) && IsOpaque(ExchangedUpper(layers[0], a, b), p)
    ensures !InLower(layers, p)
  {
    SentinelName();
    assert Last(p + [OPAQUE_WHITEOUT]) == OPAQUE_WHITEOUT;
    SwapSnoc(a, b, p, OPAQUE_WHITEOUT);
    ExchangedAt(layers[0], a, b, p);
    ExchangedAt(layers[0], a, b, p + [OPAQUE_WHITEOUT]);
    SwapIsInvolution(a, b, p);
    assert IsOpaque(layers[0], Swap(a, b, p));
    assert UpperOpaque(layers, Swap(a, b, p));
    if p != a && p != b {
      SameLower(layers, a, b, p);
    }
  }

  lemma ExchangedKind(layers: seq<Layer>, a: Path, b: Path, j: nat, p: Path)
    requires Swappable(layers, a, b) && 1 <= j < |layers| && p in layers[j]
    requires var up := ExchangedUpper(layers[0], a, b); p in up && up[p] != Whiteout
    ensures ExchangedUpper(layers[0], a, b)[p].Dir? == layers[j][p].Dir?
  {
    ExchangedAt(layers[0], a, b, p);
    SwapIsInvolution(a, b, p);
    InLowerAt(layers, p, j);
    assert CleanEntry(layers[j], p) && NoClash(layers, 0, j, p);
    if p != a && p != b {
      SameLower(layers, a, b, p);
    }
  }

  lemma ExchangedClean(layers: seq<Layer>, a: Path, b: Path)
    requires Swappable(layers, a, b)
    ensures Clean(WithUpper(layers, ExchangedUpper(layers[0], a, b)))
  {
    var up := ExchangedUpper(layers[0], a, b);
    forall p | p in up && p != []
      ensures EntryPlaced(up, p)
    {
      ExchangedPlaced(layers, a, b, p);
    }
    ExchangedAt(layers[0], a, b, []);
    forall p | p in up
      ensures UpperEntry(up, p)
    {
      ExchangedEntry(layers, a, b, p);
    }
    forall p | IsOpaque(up, p)
      ensures !InLower(layers, p)
    {
      ExchangedOpacity(layers, a, b, p);
    }
    forall j, p | 1 <= j < |layers| && p in up && p in layers[j] && up[p] != Whiteout
      ensures up[p].Dir? == layers[j][p].Dir?
    {
      ExchangedKind(layers, a, b, j, p);
    }
    CleanAfter(layers, up);
  }

  // ---- Nodes ----

  /** A node other than the two, at its new place. */
  lemma SwappedNode(layers: seq<Layer>, a: Path, b: Path, p: Path, node: Node)
    requires Swappable(layers, a, b) && p != a && p != b && NodeOn(layers, p, node)
    ensures NodeOn(WithUpper(layers, ExchangedUpper(layers[0], a, b)), Swap(a, b, p), node)
  {
    var up, r := ExchangedUpper(layers[0], a, b), Swap(a, b, p);
    var out := WithUpper(layers, up);
    SwapParent(a, b, p);
    assert Parent(p) + [Last(p)] == p;
    SwappedName(layers, a, b, Parent(p), Last(p));
    SameLower(layers, a, b, p);
    SwapIsInvolution(a, b, p);
    ExchangedAt(layers[0], a, b, r);
    LowerKept(layers, up, r);
    SameEverywhere(layers, a, b, p);
    NodeOnElsewhere(layers, p, out, r, node);
  }

  /** A path and its new place are on the same layers, as the same entries. */
  lemma SameEverywhere(layers: seq<Layer>, a: Path, b: Path, p: Path)
    requires Swappable(layers, a, b) && p != a && p != b
    ensures var out, r := WithUpper(layers, ExchangedUpper(layers[0], a, b)), Swap(a, b, p);
            forall j :: 0 <= j < |layers| ==> (p in layers[j] <==> r in out[j]) && (p in layers[j] ==> layers[j][p] == out[j][r])
  {
    SwapIsInvolution(a, b, p);
    ExchangedAt(layers[0], a, b, Swap(a, b, p));
    SameLower(layers, a, b, p);
    forall j | 1 <= j < |layers| && p in layers[j]
      ensures Swap(a, b, p) == p
    {
      InLowerAt(layers, p, j);
    }
  }

  lemma NodeOnElsewhere(layers: seq<Layer>, p: Path, out: seq<Layer>, r: Path, node: Node)
    requires layers != [] && |out| == |layers| && NodeOn(layers, p, node) && r != []
    requires InMerge(out, Parent(r), Last(r)) && (InLower(out, r) <==> InLower(layers, p))
    requires forall j :: 0 <= j < |layers| ==> (p in layers[j] <==> r in out[j]) && (p in layers[j] ==> layers[j][p] == out[j][r])
    ensures NodeOn(out, r, node)
  {}

  /** The maps of a directory other than the two parents, at its new place. */
  lemma SwappedDir(layers: seq<Layer>, a: Path, b: Path, p: Path, node: Node, node': Node)
    requires Swappable(layers, a, b) && DirOn(layers, p, node) && (node'.IsDir() ==> node.IsDir())
    requires node'.IsDir() ==> node'.dir.whiteouts <= node.dir.whiteouts
    requires node'.IsDir() && p == Parent(a) ==> Last(a) !in node'.dir.whiteouts && !node'.IsLoaded()
    requires node'.IsDir() && p == Parent(b) ==> Last(b) !in node'.dir.whiteouts && !node'.IsLoaded()
    requires node'.IsLoaded() ==> node' == node
    ensures DirOn(WithUpper(layers, ExchangedUpper(layers[0], a, b)), Swap(a, b, p), node')
  {
    var out, r := WithUpper(layers, ExchangedUpper(layers[0], a, b)), Swap(a, b, p);
    DirOnAt(layers, p, node);
    if node'.IsDir() {
      forall k
        ensures DirAt(out, r, node', k)
      {
        SwappedDirAt(layers, a, b, p, node, node', k);
      }
      DirFromAt(out, r, node');
    }
  }

  lemma SwappedDirAt(layers: seq<Layer>, a: Path, b: Path, p: Path, node: Node, node': Node, k: Name)
    requires Swappable(layers, a, b) && node.IsDir() && node'.IsDir() && DirAt(layers, p, node, k)
    requires node'.dir.whiteouts <= node.dir.whiteouts
    requires p == Parent(a) ==> Last(a) !in node'.dir.whiteouts && !node'.IsLoaded()
    requires p == Parent(b) ==> Last(b) !in node'.dir.whiteouts && !node'.IsLoaded()
    requires node'.IsLoaded() ==> node' == node
    ensures DirAt(WithUpper(layers, ExchangedUpper(layers[0], a, b)), Swap(a, b, p), node', k)
  {
    assert Parent(p + [k]) == p && Last(p + [k]) == k;
    if p + [k] != a && p + [k] != b && !IsWh(k) {
      SwappedName(layers, a, b, p, k);
      SwapIsInvolution(a, b, p);
      ExchangedAt(layers[0], a, b, Swap(a, b, p));
    }
  }

  /** What the call does is the exchange. */
  lemma TradedIsExchanged(up: Layer, a: Path, b: Path)
    requires CanExchange(up, a, b)
    ensures Traded(up, a, b) == ExchangedUpper(up, a, b)
  {
    var x, y := Traded(up, a, b), ExchangedUpper(up, a, b);
    forall p
      ensures p in x <==> p in y
      ensures p in x ==> x[p] == y[p]
    {
      PlantedAt(up, a, Subtree(up, b), p);
      PlantedAt(Planted(up, a, Subtree(up, b)), b, Subtree(up, a), p);
      ExchangedAt(up, a, b, p);
      PrefixesCompare(a, b, p);
      if a <= p {
        SubtreeAt(up, b, p[|a|..]);
      } else if b <= p {
        SubtreeAt(up, a, p[|b|..]);
      }
    }
  }
}
