/** Creations at a name that a lower layer has, which an unlink or rmdir has hidden. The entry is shown,
    but the session does not know that the name reaches below; and a new directory is empty only if it is
    opaque, which `mkdir` makes it by the last layer of the parent. */
module Recreation {
  import opened Wrappers
  import opened Names
  import opened NodeTree
  import opened TreeOps
  import opened TreeRuns
  import opened Layers
  import opened Merge
  import opened FreshMount
  import opened DiskChanges
  import opened CleanDisk
  import opened Session
  import opened SessionFrame
  import opened SessionScan
  import opened SessionDisk
  import opened Clearing
  import opened RenameUncovered

  /** Some lower layer has something in the directory. */
  ghost predicate LowerHasIn(layers: seq<Layer>, q: Path) {
    exists k :: InLower(layers, q + [k])
  }

  /** Nothing of the lower layers shows through the new entry. */
  ghost predicate Sealed(layers: seq<Layer>, q: Path, e: Entry, sentinel: bool) {
    e.Dir? ==> e.opq || sentinel || !LowerHasIn(layers, q)
  }

  // ---- The new entry is shown ----

  lemma MadeLayersOk(layers: seq<Layer>, q: Path, e: Entry, sentinel: bool)
    requires Free(layers, q) && (sentinel ==> e.Dir?)
    ensures LayersOk(WithUpper(layers, MadeUpper(layers[0], q, e, sentinel)))
  {
    hide MadeUpper;
    MadeLayerOk(layers, q, e, sentinel);
    assert forall i :: 1 <= i < |layers| ==> LayerOk(layers[i]);
  }

  /** An upper entry with no marker beside it is in every scan of its directory. */
  lemma UpperIsScanned(layers: seq<Layer>, p: Path, n: Name, bound: nat)
    requires LayersOk(layers) && p in layers[0] && layers[0][p].Dir? && !IsWh(n)
    requires p + [n] in layers[0] && layers[0][p + [n]] != Whiteout && p + [WhName(n)] !in layers[0]
    ensures n in ScanOf(layers, p, bound).children
  {
    var v := ViewsOf(layers, p);
    var e := ScanEnd(v, Some(bound));
    EagerScanIsMerge(v, Some(bound));
    HidesUnfolded(v, 0, n);
    assert Shows(v, 0, n);
    assert e > 0;
    assert Visible(v, e, n);
  }

  lemma MadeIsShown(layers: seq<Layer>, q: Path, e: Entry, sentinel: bool)
    requires Free(layers, q) && e != Whiteout && (sentinel ==> e.Dir?)
    requires Fresh(layers, Parent(q)).Some? && Fresh(layers, Parent(q)).value.isDir
    ensures var out := WithUpper(layers, MadeUpper(layers[0], q, e, sentinel));
            && LayersOk(out) && Fresh(out, q).Some? && Fresh(out, q).value.layer == 0 && (Fresh(out, q).value.isDir <==> e.Dir?)
            && EntryAt(out, q) == Some(e)
  {
    hide MadeUpper;
    var p, n, out := Parent(q), Last(q), WithUpper(layers, MadeUpper(layers[0], q, e, sentinel));
    hide Free;
    MadeOnUpper(layers, q, e, sentinel);
    UpperIsScanned(out, p, n, Fresh(out, p).value.last);
    FreshIsTopmost(out, q);
  }

  lemma MadeOnUpper(layers: seq<Layer>, q: Path, e: Entry, sentinel: bool)
    requires Free(layers, q) && e != Whiteout && (sentinel ==> e.Dir?)
    ensures var p, n, out := Parent(q), Last(q), WithUpper(layers, MadeUpper(layers[0], q, e, sentinel));
            && q != [] && q == p + [n] && LayersOk(layers) && LayersOk(out) && Fresh(out, p) == Fresh(layers, p) && !IsWh(n)
            && p in out[0] && out[0][p].Dir? && q in out[0] && out[0][q] == e && p + [WhName(n)] !in out[0]
  {
    hide MadeUpper;
    hide Fresh;
    var p, n, out := Parent(q), Last(q), WithUpper(layers, MadeUpper(layers[0], q, e, sentinel));
    MadeLayersOk(layers, q, e, sentinel);
    MadeChange(layers, q, e, sentinel);
    assert p + [n] == q && !(q <= p) && MarkerOf(q) == p + [WhName(n)];
    FreshElsewhere(layers, out[0], q, p);
    assert p != MarkerOf(q) by { assert |MarkerOf(q)| == |q|; }
  }

  // ---- What is shown in it ----

  lemma MadeHoldsNothing(layers: seq<Layer>, q: Path, e: Entry, sentinel: bool, k: Name)
    requires Free(layers, q) && !IsWh(k)
    ensures q + [k] !in MadeUpper(layers[0], q, e, sentinel)
  {
    hide MadeUpper;
    MadeChange(layers, q, e, sentinel);
    SentinelName();
    assert q <= q + [k] && Last(q + [k]) == k && Last(q + [OPAQUE_WHITEOUT]) == OPAQUE_WHITEOUT && |q + [k]| != |q|;
  }

  /** An opaque directory ends the scan, so a scan finds what the upper layer lists. */
  lemma OpaqueScan(layers: seq<Layer>, q: Path, bound: nat, k: Name)
    requires LayersOk(layers) && IsOpaque(layers[0], q) && k in ScanOf(layers, q, bound).children
    ensures q + [k] in layers[0] && !IsWh(k)
  {
    var v := ViewsOf(layers, q);
    EagerScanIsMerge(v, Some(bound));
    assert Stops(v, Some(bound), 0);
    assert ScanEnd(v, Some(bound)) == 1;
    var i: nat :| i < 1 && Shows(v, i, k);
    assert PlainAt(v, 0, k);
  }

  lemma SealedIsEmpty(layers: seq<Layer>, q: Path, e: Entry, sentinel: bool, k: Name)
    requires Free(layers, q) && e != Whiteout && (sentinel ==> e.Dir?) && Sealed(layers, q, e, sentinel)
    requires Fresh(layers, Parent(q)).Some? && Fresh(layers, Parent(q)).value.isDir
    ensures Fresh(WithUpper(layers, MadeUpper(layers[0], q, e, sentinel)), q + [k]) == None
  {
    hide MadeUpper;
    var r, out := q + [k], WithUpper(layers, MadeUpper(layers[0], q, e, sentinel));
    assert Parent(r) == q && Last(r) == k;
    MadeIsShown(layers, q, e, sentinel);
    if Fresh(out, r).Some? {
      FreshIsTopmost(out, r);
      MadeHoldsNothing(layers, q, e, sentinel, k);
      if e.opq || sentinel {
        MadeOpaque(layers, q, e, sentinel);
        OpaqueScan(out, q, Fresh(out, q).value.last, k);
      }
    }
  }

  lemma MadeOpaque(layers: seq<Layer>, q: Path, e: Entry, sentinel: bool)
    requires Free(layers, q) && e.Dir? && (e.opq || sentinel)
    ensures IsOpaque(MadeUpper(layers[0], q, e, sentinel), q)
  {
    MadeChange(layers, q, e, sentinel);
  }

  /** A plain directory on top of lower directories leaves the disk clean, so the closed form holds of it. */
  lemma PlainDirClean(layers: seq<Layer>, q: Path)
    requires Free(layers, q) && LowerHasIn(layers, q)
    ensures Clean(WithUpper(layers, MadeUpper(layers[0], q, Entry.Dir(false), false)))
  {
    hide MadeUpper;
    var e := Entry.Dir(false);
    var up := MadeUpper(layers[0], q, e, false);
    MadeLayerOk(layers, q, e, false);
    MadeChange(layers, q, e, false);
    LowerIsDir(layers, q);
    forall p | p in up
      ensures UpperEntry(up, p)
    {
      MadeEntryFits(layers, q, e, p);
    }
    forall p | IsOpaque(up, p)
      ensures !InLower(layers, p)
    {
      PlainOpacity(layers, q, p);
    }
    forall j, p | 1 <= j < |layers| && p in up && p in layers[j] && up[p] != Whiteout
      ensures up[p].Dir? == layers[j][p].Dir?
    {
      if !(q <= p) {
        InLowerAt(layers, p, j);
        LowerIsNoMarker(layers, q, p, j);
        assert NoClash(layers, 0, j, p) && CleanEntry(layers[j], p);
      }
    }
    CleanAfter(layers, up);
  }

  lemma LowerIsNoMarker(layers: seq<Layer>, q: Path, p: Path, j: int)
    requires Clean(layers) && q != [] && 1 <= j < |layers| && p in layers[j]
    ensures p != MarkerOf(q)
  {
    WhNameInverse(Last(q), Last(q));
    assert CleanEntry(layers[j], p) && Last(MarkerOf(q)) == WhName(Last(q));
  }

  lemma MadeEntryFits(layers: seq<Layer>, q: Path, e: Entry, p: Path)
    requires Free(layers, q) && e == Entry.Dir(false) && p in MadeUpper(layers[0], q, e, false)
    ensures UpperEntry(MadeUpper(layers[0], q, e, false), p)
  {
    MadeChange(layers, q, e, false);
    assert p in layers[0] && p != q ==> UpperEntry(layers[0], p);
  }

  lemma PlainOpacity(layers: seq<Layer>, q: Path, p: Path)
    requires Free(layers, q)
    ensures IsOpaque(MadeUpper(layers[0], q, Entry.Dir(false), false), p) ==> !InLower(layers, p)
  {
    hide MadeUpper;
    MadeChange(layers, q, Entry.Dir(false), false);
    assert UpperOpaque(layers, p);
    assert q <= q + [OPAQUE_WHITEOUT] && q + [OPAQUE_WHITEOUT] != q;
    if !(q <= p) {
      MarkerIsNotSentinel(q, p);
    }
  }

  /** Where a lower layer has something in the directory, it is a directory in all of them. */
  lemma LowerIsDir(layers: seq<Layer>, q: Path)
    requires Clean(layers) && LowerHasIn(layers, q)
    ensures forall j :: 1 <= j < |layers| && q in layers[j] ==> layers[j][q].Dir?
  {
    var k :| InLower(layers, q + [k]);
    var i :| 1 <= i < |layers| && q + [k] in layers[i];
    assert Parent(q + [k]) == q && EntryPlaced(layers[i], q + [k]);
    forall j | 1 <= j < |layers| && q in layers[j]
      ensures layers[j][q].Dir?
    {
      assert NoClash(layers, i, j, q) && CleanEntry(layers[j], q);
    }
  }

  lemma LowerShowsThrough(layers: seq<Layer>, q: Path, k: Name)
    requires Free(layers, q) && InLower(layers, q + [k])
    requires Fresh(layers, Parent(q)).Some? && Fresh(layers, Parent(q)).value.isDir
    ensures Fresh(WithUpper(layers, MadeUpper(layers[0], q, Entry.Dir(false), false)), q + [k]).Some?
  {
    hide MadeUpper;
    var e := Entry.Dir(false);
    var r, out := q + [k], WithUpper(layers, MadeUpper(layers[0], q, e, false));
    assert Parent(r) == q && Last(r) == k;
    PlainDirClean(layers, q);
    MadeIsShown(layers, q, e, false);
    LowerNameOrdinary(layers, q, k);
    MadeHoldsNothing(layers, q, e, false, k);
    MadeHoldsNoMarker(layers, q, k);
    LowerKept(layers, out[0], r);
    CleanFresh(out, r);
  }

  lemma LowerNameOrdinary(layers: seq<Layer>, q: Path, k: Name)
    requires Clean(layers) && InLower(layers, q + [k])
    ensures Ordinary(k)
  {
    var i :| 1 <= i < |layers| && q + [k] in layers[i];
    assert CleanEntry(layers[i], q + [k]) && Last(q + [k]) == k;
  }

  lemma MadeHoldsNoMarker(layers: seq<Layer>, q: Path, k: Name)
    requires Free(layers, q)
    ensures q + [WhName(k)] !in MadeUpper(layers[0], q, Entry.Dir(false), false)
  {
    hide MadeUpper;
    MadeChange(layers, q, Entry.Dir(false), false);
    assert q <= q + [WhName(k)] && q + [WhName(k)] != q;
  }

  // ---- Creations ----

  /** What is seen of a creation at any ordinary name: the entry, on the upper layer, and nothing changed
      elsewhere; and nothing is below the entry exactly if it is no directory, is opaque, or no lower layer
      has anything there. */
  lemma CreationIsSeen(s: State, d: NodeId, n: Name, e: Entry, staged: bool, sentinel: bool, key: InodeKey, out: State)
    requires Coherent(s) && Creates(s, d, n, e, staged, sentinel, key, out) && Ordinary(n)
    ensures var q := PathOf(s.t, d) + [n];
            && Fresh(s.layers, q) == None
            && Fresh(out.layers, q).Some? && Fresh(out.layers, q).value.layer == 0
            && (Fresh(out.layers, q).value.isDir <==> e.Dir?) && EntryAt(out.layers, q) == Some(e)
            && (forall r :: !(q <= r) ==> Fresh(out.layers, r) == Fresh(s.layers, r) && EntryAt(out.layers, r) == EntryAt(s.layers, r))
            && ((forall r :: q <= r && r != q ==> Fresh(out.layers, r) == None) <==> Sealed(s.layers, q, e, sentinel))
  {
    hide MadeUpper;
    hide Coherent;
    hide Fresh;
    var q := PathOf(s.t, d) + [n];
    assert Parent(q) == PathOf(s.t, d) && Last(q) == n;
    CreatedOnFree(s, d, n, e, staged, sentinel, key, out);
    MadeIsShown(s.layers, q, e, sentinel);
    hide Free;
    hide EntryAt;
    forall r | !(q <= r)
      ensures Fresh(out.layers, r) == Fresh(s.layers, r) && EntryAt(out.layers, r) == EntryAt(s.layers, r)
    {
      MadeIsLocal(s.layers, q, e, sentinel, r);
    }
    MadeIsEmptyIff(s.layers, q, e, sentinel);
  }

  lemma MadeIsLocal(layers: seq<Layer>, q: Path, e: Entry, sentinel: bool, r: Path)
    requires Free(layers, q) && e != Whiteout && (sentinel ==> e.Dir?) && !(q <= r)
    ensures var out := WithUpper(layers, MadeUpper(layers[0], q, e, sentinel));
            LayersOk(layers) && LayersOk(out) && Fresh(out, r) == Fresh(layers, r) && EntryAt(out, r) == EntryAt(layers, r)
  {
    hide MadeUpper;
    hide Fresh;
    var out := WithUpper(layers, MadeUpper(layers[0], q, e, sentinel));
    MadeLayersOk(layers, q, e, sentinel);
    MadeChange(layers, q, e, sentinel);
    FreshElsewhere(layers, out[0], q, r);
    EntryElsewhere(layers, out[0], q, r);
  }

  /** Nothing is below what is made exactly if it is sealed. */
  lemma MadeIsEmptyIff(layers: seq<Layer>, q: Path, e: Entry, sentinel: bool)
    requires Free(layers, q) && e != Whiteout && (sentinel ==> e.Dir?)
    requires Fresh(layers, Parent(q)).Some? && Fresh(layers, Parent(q)).value.isDir
    ensures var out := WithUpper(layers, MadeUpper(layers[0], q, e, sentinel));
            LayersOk(out) && ((forall r :: q <= r && r != q ==> Fresh(out, r) == None) <==> Sealed(layers, q, e, sentinel))
  {
    hide MadeUpper;
    hide Fresh;
    var out := WithUpper(layers, MadeUpper(layers[0], q, e, sentinel));
    MadeLayersOk(layers, q, e, sentinel);
    if Sealed(layers, q, e, sentinel) {
      forall r | q <= r && r != q
        ensures Fresh(out, r) == None
      {
        NextOnTheWay(q, r);
        SealedIsEmpty(layers, q, e, sentinel, r[|q|]);
        NothingBelow(out, q + [r[|q|]], r);
      }
    } else {
      var k :| InLower(layers, q + [k]);
      LowerShowsThrough(layers, q, k);
      assert q <= q + [k] && q + [k] != q;
    }
  }

  lemma CreatedOnFree(s: State, d: NodeId, n: Name, e: Entry, staged: bool, sentinel: bool, key: InodeKey, out: State)
    requires Coherent(s) && Creates(s, d, n, e, staged, sentinel, key, out) && Ordinary(n)
    ensures var q := PathOf(s.t, d) + [n];
            && Free(s.layers, q) && e != Whiteout && (sentinel ==> e.Dir?) && Fresh(s.layers, q) == None
            && out.layers == WithUpper(s.layers, MadeUpper(s.layers[0], q, e, sentinel))
            && Fresh(s.layers, PathOf(s.t, d)).Some? && Fresh(s.layers, PathOf(s.t, d)).value.isDir
  {
    CreatedUpper(s, d, n, e, staged, sentinel, key, out);
    CreationIsFree(s, d, n);
    FreshInDir(s, d, n);
    CoherentFresh(s, d);
  }

  /** `mkdir` asks for opacity exactly if the parent reaches below the upper layer. If it is made so, the new
      directory is empty exactly if the parent does, or no lower layer has anything there. The root never
      does: its last layer is always 0. */
  lemma MkdirIsEmptyIff(s: State, d: NodeId, n: Name, e: Entry, sentinel: bool, key: InodeKey, out: State)
    requires Coherent(s) && Creates(s, d, n, e, true, sentinel, key, out) && Ordinary(n) && e.Dir?
    requires s.t.nodes[d].last > 0 ==> e.opq || sentinel
    ensures var q := PathOf(s.t, d) + [n];
            (forall r :: q <= r && r != q ==> Fresh(out.layers, r) == None) <==> s.t.nodes[d].last > 0 || !LowerHasIn(s.layers, q)
  {
    hide Coherent;
    hide Fresh;
    CreationIsSeen(s, d, n, e, true, sentinel, key, out);
  }

  /** The exact condition for the session: a creation keeps it coherent if no lower layer has the name, and
      only then. The new node is taken to reach nothing below. */
  lemma CreationIsCoherentIff(s: State, d: NodeId, n: Name, e: Entry, staged: bool, sentinel: bool, key: InodeKey, out: State)
    requires Coherent(s) && Creates(s, d, n, e, staged, sentinel, key, out) && Ordinary(n)
    ensures Coherent(out) <==> !InLower(s.layers, PathOf(s.t, d) + [n])
  {
    hide Coherent;
    hide Creates;
    CoherentParts(s);
    var q, x := PathOf(s.t, d) + [n], s.t.nextId;
    if !InLower(s.layers, q) {
      CreateKeepsCoherence(s, d, n, e, staged, sentinel, key, out);
    } else {
      CreatedNode(s, d, n, e, staged, sentinel, key, out);
      if Coherent(out) {
        ReachesNothing(out, x);
      }
    }
  }

  lemma CreatedNode(s: State, d: NodeId, n: Name, e: Entry, staged: bool, sentinel: bool, key: InodeKey, out: State)
    requires Coherent(s) && Creates(s, d, n, e, staged, sentinel, key, out) && Ordinary(n)
    ensures var x := s.t.nextId;
            && TreeOk(out.t) && x in out.t.nodes && x != out.t.root && out.t.nodes[x].last == 0
            && PathOf(out.t, x) == PathOf(s.t, d) + [n]
    ensures InLower(out.layers, PathOf(s.t, d) + [n]) <==> InLower(s.layers, PathOf(s.t, d) + [n])
  {
    NewNodeStands(s, d, NewNode(n, 0, key, e.Dir?).SetLoaded(true));
    LowerKept(s.layers, out.layers[0], PathOf(s.t, d) + [n]);
  }

  /** The session takes a directory that was just made for empty, and looks no name up in it. (A lookup would
      look past it, opaque or not: on the upper layer that does not end one.) */
  lemma NewDirectoryIsNotLookedUp(s: State, d: NodeId, n: Name, e: Entry, staged: bool, sentinel: bool, key: InodeKey, out: State)
    requires Coherent(s) && Creates(s, d, n, e, staged, sentinel, key, out) && Ordinary(n) && e.Dir?
    ensures d in out.t.nodes && out.t.nodes[d].GetChild(n).Some?
    ensures var x := out.t.nodes[d].GetChild(n).value;
            x in out.t.nodes && out.t.nodes[x].Children() == map[] && forall k, u :: !Looks(out, x, k, u)
  {
    assert s.t.nextId !in s.t.chains;
  }

  lemma ReachesNothing(s: State, x: NodeId)
    requires Coherent(s) && x in s.t.nodes && x != s.t.root && s.t.nodes[x].last == 0
    ensures !InLower(s.layers, PathOf(s.t, x))
  {
    assert NodeFine(s, x);
  }
}
