/** Lookups on a disk, one after the other: of a directory, and then of a name in it. The opacity of a
    directory is looked at only when the directory itself is looked up. */
module OpaqueLookups {
  import opened Wrappers
  import opened Names
  import opened Layers
  import opened Merge
  import opened LazyLookup
  import opened FreshMount

  function Lookup(layers: seq<Layer>, p: Path, bound: nat, n: Name): Outcome {
    LazyResult(ViewsOf(layers, p), bound, n)
  }

  /** What a layer has in a directory is what it has at the longer path. */
  lemma ItemsOnDisk(layers: seq<Layer>, p: Path, i: nat, n: Name)
    requires LayersOk(layers) && i < |layers|
    ensures !ViewsOf(layers, p)[i].StatFailed?
    ensures n in Items(ViewsOf(layers, p)[i]) <==> p + [n] in layers[i]
    ensures p + [n] in layers[i] ==> Items(ViewsOf(layers, p)[i])[n] == ItemAt(layers[i], p + [n])
  {
    assert Parent(p + [n]) == p;
    assert p + [n] in layers[i] ==> EntryPlaced(layers[i], p + [n]);
  }

  /** A directory that is opaque on the layer it is found on, not the upper one, ends every lookup in it
      there. */
  lemma NothingBelowOpaque(layers: seq<Layer>, p: Path, bound: nat, d: Name, n: Name)
    requires LayersOk(layers) && Lookup(layers, p, bound, d).Found?
    requires var k := Lookup(layers, p, bound, d).seen.layer; 0 < k < |layers| && IsOpaque(layers[k], p + [d])
    ensures var k := Lookup(layers, p, bound, d).seen.layer;
            var r := Lookup(layers, p + [d], Lookup(layers, p, bound, d).seen.last, n);
            r.Found? ==> r.seen.layer <= k
  {
    var s := Lookup(layers, p, bound, d).seen;
    LookupOutcome(ViewsOf(layers, p), bound, d, Found(s));
    ItemsOnDisk(layers, p, s.layer, d);
    var r := Lookup(layers, p + [d], s.last, n);
    LookupOutcome(ViewsOf(layers, p + [d]), s.last, n, r);
  }

  /** The name is on layer `j`, not hidden there, and on no layer above. */
  ghost predicate FirstOn(layers: seq<Layer>, q: Path, n: Name, j: nat) {
    && j < |layers| && !IsWh(n) && q + [n] in layers[j] && layers[j][q + [n]] != Whiteout && q + [WhName(n)] !in layers[j]
    && forall i :: 0 <= i < j ==> q + [n] !in layers[i] && q + [WhName(n)] !in layers[i]
  }

  lemma FirstDecides(layers: seq<Layer>, q: Path, bound: nat, n: Name, j: nat)
    requires LayersOk(layers) && FirstOn(layers, q, n, j)
    ensures j < LazyEnd(ViewsOf(layers, q), bound) <==> Lookup(layers, q, bound, n).Found? && Lookup(layers, q, bound, n).seen.layer == j
  {
    var views := ViewsOf(layers, q);
    var r := Lookup(layers, q, bound, n);
    forall i: nat | i < |layers|
      ensures !views[i].StatFailed? && (n in Items(views[i]) <==> q + [n] in layers[i])
      ensures WhName(n) in Items(views[i]) <==> q + [WhName(n)] in layers[i]
    {
      ItemsOnDisk(layers, q, i, n);
      ItemsOnDisk(layers, q, i, WhName(n));
    }
    ItemsOnDisk(layers, q, j, n);
    assert Undecided(views, j, n) && Mentions(views, j, n) && !Blocks(views, j, n);
    LookupOutcome(views, bound, n, r);
    if !r.NotFound? {
      var k := Decider(views, bound, n, r);
      assert j == k;
    }
  }

  /** The exact condition. A lookup in a directory that was found finds what lies below one of its opaque
      layers exactly if the directory was found on the upper layer and is opaque there, or the layer it
      was found on is not opaque and the first lookup reached that far. */
  lemma FoundBelowOpaqueIff(layers: seq<Layer>, p: Path, bound: nat, d: Name, m: nat, n: Name, j: nat)
    requires LayersOk(layers) && Lookup(layers, p, bound, d).Found?
    requires m < LazyEnd(ViewsOf(layers, p), bound) && IsOpaque(layers[m], p + [d]) && m < j && FirstOn(layers, p + [d], n, j)
    ensures var s := Lookup(layers, p, bound, d).seen;
            var r := Lookup(layers, p + [d], s.last, n);
            && s.layer <= m
            && (r.Found? && r.seen.layer == j <==>
                if IsOpaque(layers[s.layer], p + [d]) then s.layer == 0 else j < LazyEnd(ViewsOf(layers, p), bound))
  {
    var views, s := ViewsOf(layers, p), Lookup(layers, p, bound, d).seen;
    LookupOutcome(views, bound, d, Found(s));
    ItemsOnDisk(layers, p, m, d);
    ItemsOnDisk(layers, p, j, d);
    ItemsOnDisk(layers, p, s.layer, d);
    FirstDecides(layers, p + [d], s.last, n, j);
    assert p + [d] in layers[j] by {
      assert Parent(p + [d] + [n]) == p + [d] && EntryPlaced(layers[j], p + [d] + [n]);
    }
    assert s.layer <= m by {
      assert Mentions(views, m, d);
    }
  }
}
