/** The file system calls of the engine, on the layers and the workdir. Each call may fail; one that
    succeeds has the effect that the system call promises. */
module Disks {
  import opened Wrappers
  import opened Names
  import opened Layers
  import opened FreshMount
  import opened Removal

  datatype Status = Ok | Err(e: Errno)

  datatype Errno = EEXIST | ENOTEMPTY | ENOTDIR | ENOENT | OtherError

  /** How the calls that examine a directory on one layer go: well, or with an error of stat, which
      may be a matter of permission, or of opening it for listing. */
  datatype Fault = Fine | StatDenied | StatError | ListError

  /** What is seen of a directory. */
  function SeenUnder(there: View, fault: Fault): View {
    match fault
    case Fine => there
    case StatDenied => StatFailed(true)
    case StatError => StatFailed(false)
    case ListError => if there.Listing? then Unlistable(there.items) else there
  }

  function ViewsUnder(layers: seq<Layer>, p: Path, faults: seq<Fault>): (r: seq<View>)
    requires |faults| == |layers|
    ensures |r| == |layers|
  {
    seq(|layers|, i requires 0 <= i < |layers| => SeenUnder(ViewOf(layers[i], p), faults[i]))
  }

  predicate NoFaults(faults: seq<Fault>) {
    forall f :: f in faults ==> f == Fine
  }

  lemma NoFaultsSeeAll(layers: seq<Layer>, p: Path, faults: seq<Fault>)
    requires |faults| == |layers| && NoFaults(faults)
    ensures ViewsUnder(layers, p, faults) == ViewsOf(layers, p)
  {
    forall i | 0 <= i < |layers|
      ensures faults[i] == Fine
    {
      assert faults[i] in faults;
    }
  }

  /** An entry in the workdir with all that is below it; `[]` is the entry itself. */
  ghost predicate WorkOk(tree: Layer) {
    [] in tree && forall p {:trigger EntryPlaced(tree, p)} :: p in tree && p != [] ==> EntryPlaced(tree, p)
  }

  function Subtree(l: Layer, q: Path): Layer {
    var below := set p | p in l && q <= p :: p[|q|..];
    map r | r in below && q + r in l :: l[q + r]
  }

  /** The upper layer with a workdir entry put at `q` in place of what was there. */
  function Planted(up: Layer, q: Path, tree: Layer): Layer {
    var places := set r | r in tree :: q + r;
    WithoutSubtree(up, q) + map p | p in places && q <= p && p[|q|..] in tree :: tree[p[|q|..]]
  }

  /** Where `renameat` can put an entry. */
  predicate CanPlace(up: Layer, q: Path, isDir: bool) {
    && q != [] && ValidName(Last(q)) && Parent(q) in up && up[Parent(q)].Dir?
    && (q in up ==> if isDir then up[q].Dir? && Listed(up, q) == {} else !up[q].Dir?)
  }

  /** A directory is to be put where something stands that is none. */
  predicate DirOverOther(up: Layer, q: Path, isDir: bool) {
    && isDir && q != [] && ValidName(Last(q)) && Parent(q) in up && up[Parent(q)].Dir? && q in up && !up[q].Dir?
  }

  /** What `renameat` can move within the upper layer. */
  predicate CanMove(up: Layer, src: Path, dst: Path) {
    src in up && src != [] && !(src <= dst) && !(dst <= src) && CanPlace(up, dst, up[src].Dir?)
  }

  /** What `renameat2` can exchange. */
  predicate CanExchange(up: Layer, src: Path, dst: Path) {
    src in up && dst in up && src != [] && dst != [] && !(src <= dst) && !(dst <= src)
  }

  /** Each of the two entries is put, with all that is below it, in place of the other. */
  function Traded(up: Layer, src: Path, dst: Path): Layer {
    Planted(Planted(up, src, Subtree(up, dst)), dst, Subtree(up, src))
  }

  lemma TradedOk(up: Layer, src: Path, dst: Path)
    requires LayerOk(up) && CanExchange(up, src, dst)
    ensures LayerOk(Traded(up, src, dst))
  {
    SubtreeOk(up, src);
    SubtreeOk(up, dst);
    assert EntryPlaced(up, src) && EntryPlaced(up, dst);
    PlantedOk(up, src, Subtree(up, dst));
    PlantedAt(up, src, Subtree(up, dst), Parent(dst));
    PrefixOfParent(src, dst);
    PlantedOk(Planted(up, src, Subtree(up, dst)), dst, Subtree(up, src));
  }

  /** Where a new entry can be made. */
  predicate HasRoom(up: Layer, q: Path) {
    q != [] && q !in up && Parent(q) in up && up[Parent(q)].Dir? && ValidName(Last(q))
  }

  lemma PlantedAt(up: Layer, q: Path, tree: Layer, p: Path)
    ensures var out := Planted(up, q, tree);
            && (p in out <==> if q <= p then p[|q|..] in tree else p in up)
            && (p in out ==> out[p] == if q <= p then tree[p[|q|..]] else up[p])
  {
    if q <= p {
      assert q + p[|q|..] == p;
    }
  }

  lemma PlantedOk(up: Layer, q: Path, tree: Layer)
    requires LayerOk(up) && WorkOk(tree) && q != [] && ValidName(Last(q)) && Parent(q) in up && up[Parent(q)].Dir?
    ensures LayerOk(Planted(up, q, tree))
  {
    var out := Planted(up, q, tree);
    PlantedAt(up, q, tree, []);
    forall p | p in out && p != []
      ensures EntryPlaced(out, p)
    {
      PlantedAt(up, q, tree, p);
      PlantedAt(up, q, tree, Parent(p));
      if q <= p && q != p {
        assert q <= Parent(p) by { assert q == p[..|q|] == Parent(p)[..|q|]; }
        assert Parent(p)[|q|..] == Parent(p[|q|..]);
        assert EntryPlaced(tree, p[|q|..]);
      } else if !(q <= p) {
        assert EntryPlaced(up, p);
      }
    }
  }

  /** One entry alone. */
  lemma PlantedOne(up: Layer, q: Path, e: Entry)
    requires forall p :: p in up && q <= p ==> p == q
    ensures Planted(up, q, map[[] := e]) == up[q := e]
  {
    var out := Planted(up, q, map[[] := e]);
    forall p
      ensures p in out <==> p in up[q := e]
      ensures p in out ==> out[p] == up[q := e][p]
    {
      PlantedAt(up, q, map[[] := e], p);
      if q <= p && |p| == |q| {
        assert p == q;
      }
    }
  }

  lemma WithoutOk(l: Layer, q: Path)
    requires LayerOk(l) && q != []
    ensures LayerOk(WithoutSubtree(l, q))
  {
    forall p | p in WithoutSubtree(l, q) && p != []
      ensures EntryPlaced(WithoutSubtree(l, q), p)
    {
      assert EntryPlaced(l, p);
      assert !(q <= Parent(p));
    }
  }

  lemma SubtreeOk(l: Layer, q: Path)
    requires LayerOk(l) && q in l
    ensures WorkOk(Subtree(l, q))
  {
    var tree := Subtree(l, q);
    assert q[|q|..] == [] && q + [] == q;
    forall r | r in tree && r != []
      ensures EntryPlaced(tree, r)
    {
      assert EntryPlaced(l, q + r);
      assert Parent(q + r) == q + Parent(r) && Last(q + r) == Last(r);
      assert (q + Parent(r))[|q|..] == Parent(r) && q <= q + Parent(r);
    }
  }

  class Disk {
    var layers: seq<Layer>
    var work: map<nat, Layer>
    /** Every state that the layers have been in, up to now. */
    ghost var history: seq<seq<Layer>>
    /** How many calls were refused for reasons that the layers and the workdir do not show. */
    ghost var refusals: nat

    ghost predicate Valid()
      reads this
    {
      && LayersOk(layers) && history != [] && history[|history| - 1] == layers
      && forall w :: w in work ==> WorkOk(work[w])
    }

    constructor (mounted: seq<Layer>)
      requires LayersOk(mounted)
      ensures Valid() && layers == mounted && work == map[] && history == [mounted]
    {
      layers := mounted;
      work := map[];
      history := [mounted];
      refusals := 0;
    }

    method Stat(i: nat, p: Path) returns (e: Option<Entry>)
      requires i < |layers|
      modifies this`refusals
      ensures e.Some? ==> p in layers[i] && e.value == layers[i][p]
      ensures old(refusals) <= refusals
      ensures refusals == old(refusals) ==> (e.Some? <==> p in layers[i])
    {
      var failed: bool := *;
      if failed {
        refusals := refusals + 1;
        return None;
      }
      e := if p in layers[i] then Some(layers[i][p]) else None;
    }

    /** A call on something that was just made, of which only the success matters: an open, or setting
        what the layers do not hold. */
    method Reach() returns (ok: bool)
      modifies this`refusals
      ensures old(refusals) <= refusals && (refusals == old(refusals) ==> ok)
    {
      ok := *;
      if !ok {
        refusals := refusals + 1;
      }
    }

    // ---- The workdir ----

    /** mkdirat, symlinkat, mknodat or an open that creates, in the workdir. */
    method MakeWork(w: nat, e: Entry) returns (ok: bool)
      requires Valid() && w !in work
      modifies this`work, this`refusals
      ensures Valid() && work == if ok then old(work)[w := map[[] := e]] else old(work)
      ensures old(refusals) <= refusals && (refusals == old(refusals) ==> ok)
    {
      ok := Reach();
      if ok {
        work := work[w := map[[] := e]];
      }
    }

    /** The contents of a file in the workdir, as far as they have been written. */
    method FillWork(w: nat, bytes: seq<int>)
      requires Valid() && w in work && work[w] == map[[] := File(Regular([]))]
      modifies this`work
      ensures Valid() && work == old(work)[w := map[[] := File(Regular(bytes))]]
    {
      work := work[w := map[[] := File(Regular(bytes))]];
    }

    /** An opaque xattr on a directory in the workdir. */
    method SetOpaqueXattr(w: nat) returns (ok: bool)
      requires Valid() && w in work && work[w] == map[[] := Entry.Dir(false)]
      modifies this`work, this`refusals
      ensures Valid() && work == if ok then old(work)[w := map[[] := Entry.Dir(true)]] else old(work)
      ensures old(refusals) <= refusals && (refusals == old(refusals) ==> ok)
    {
      ok := Reach();
      if ok {
        work := work[w := map[[] := Entry.Dir(true)]];
      }
    }

    /** An empty file inside a directory in the workdir. */
    method MakeInWork(w: nat, name: Name) returns (ok: bool)
      requires Valid() && w in work && work[w].Keys == {[]} && work[w][[]].Dir? && ValidName(name)
      modifies this`work, this`refusals
      ensures Valid() && work == if ok then old(work)[w := old(work)[w][[name] := File(Regular([]))]] else old(work)
      ensures old(refusals) <= refusals && (refusals == old(refusals) ==> ok)
    {
      ok := Reach();
      if ok {
        var tree := work[w][[name] := File(Regular([]))];
        assert Parent([name]) == [] && Last([name]) == name;
        assert EntryPlaced(tree, [name]);
        work := work[w := tree];
      }
    }

    method RemoveWork(w: nat)
      requires Valid()
      modifies this`work
      ensures Valid() && (work == old(work) || work == old(work) - {w})
    {
      var ok: bool := *;
      if ok {
        work := work - {w};
      }
    }

    // ---- The upper layer ----

    /** The layers after a change of the upper one. */
    method SetUpper(up: Layer)
      requires Valid() && LayerOk(up)
      modifies this`layers, this`history
      ensures Valid() && layers == WithUpper(old(layers), up) && history == old(history) + [layers]
    {
      ghost var was := layers;
      layers := layers[0 := up];
      history := history + [layers];
      assert forall i :: 0 < i < |layers| ==> layers[i] == was[i];
    }

    /** renameat from the workdir. */
    method RenameIn(w: nat, q: Path) returns (r: Status)
      requires Valid() && w in work
      modifies this
      ensures Valid()
      ensures r.Ok? ==>
                && CanPlace(old(layers[0]), q, old(work)[w][[]].Dir?)
                && layers == WithUpper(old(layers), Planted(old(layers[0]), q, old(work)[w]))
                && work == old(work) - {w} && history == old(history) + [layers]
      ensures !r.Ok? ==> layers == old(layers) && work == old(work) && history == old(history)
      ensures old(refusals) <= refusals
      ensures refusals == old(refusals) ==> (r.Ok? <==> CanPlace(old(layers[0]), q, old(work)[w][[]].Dir?))
      ensures refusals == old(refusals) && DirOverOther(old(layers[0]), q, old(work)[w][[]].Dir?) ==> r == Err(ENOTDIR)
    {
      var up, tree := layers[0], work[w];
      assert LayerOk(up);
      var failure: Status := *;
      if failure.Err? {
        refusals := refusals + 1;
        r := failure;
      } else if CanPlace(up, q, tree[[]].Dir?) {
        PlantedOk(up, q, tree);
        SetUpper(Planted(up, q, tree));
        work := work - {w};
        r := Ok;
      } else if q == [] || Parent(q) !in up || !up[Parent(q)].Dir? || !ValidName(Last(q)) || q !in up {
        r := Err(ENOENT);
      } else if tree[[]].Dir? && up[q].Dir? {
        r := Err(ENOTEMPTY);
      } else if tree[[]].Dir? {
        r := Err(ENOTDIR);
      } else {
        r := Err(OtherError);
      }
    }

    /** renameat2 with RENAME_EXCHANGE between the workdir and the upper layer. */
    method ExchangeIn(w: nat, q: Path) returns (ok: bool)
      requires Valid() && w in work
      modifies this
      ensures Valid()
      ensures ok ==>
                && q != [] && q in old(layers[0])
                && layers == WithUpper(old(layers), Planted(old(layers[0]), q, old(work)[w]))
                && work == old(work)[w := Subtree(old(layers[0]), q)] && history == old(history) + [layers]
      ensures !ok ==> layers == old(layers) && work == old(work) && history == old(history)
      ensures old(refusals) <= refusals
      ensures refusals == old(refusals) ==> (ok <==> q != [] && q in old(layers[0]))
    {
      var up, tree := layers[0], work[w];
      assert LayerOk(up);
      ok := *;
      if !ok {
        refusals := refusals + 1;
        return false;
      }
      if q == [] || q !in up {
        return false;
      }
      assert EntryPlaced(up, q);
      PlantedOk(up, q, tree);
      SubtreeOk(up, q);
      SetUpper(Planted(up, q, tree));
      work := work[w := Subtree(up, q)];
    }

    /** renameat into the workdir; with RENAME_WHITEOUT a device 0/0 stays behind. */
    method RenameOut(q: Path, w: nat, whiteout: bool) returns (ok: bool)
      requires Valid() && w !in work
      modifies this
      ensures Valid()
      ensures ok ==>
                && q != [] && q in old(layers[0])
                && layers == WithUpper(old(layers), RemovedUpper(old(layers[0]), q, if whiteout then Device else Nothing))
                && work == old(work)[w := Subtree(old(layers[0]), q)] && history == old(history) + [layers]
      ensures !ok ==> layers == old(layers) && work == old(work) && history == old(history)
      ensures old(refusals) <= refusals
      ensures refusals == old(refusals) ==> (ok <==> q != [] && q in old(layers[0]))
    {
      var up := layers[0];
      assert LayerOk(up);
      ok := *;
      if !ok {
        refusals := refusals + 1;
        return false;
      }
      if q == [] || q !in up {
        return false;
      }
      var gone := WithoutSubtree(up, q);
      WithoutOk(up, q);
      SubtreeOk(up, q);
      assert EntryPlaced(up, q) && !(q <= Parent(q));
      if whiteout {
        AddedOk(gone, q, Entry.Whiteout);
        SetUpper(gone[q := Entry.Whiteout]);
      } else {
        SetUpper(gone);
      }
      work := work[w := Subtree(up, q)];
    }

    /** renameat within the upper layer. */
    method RenameWithin(src: Path, dst: Path) returns (ok: bool)
      requires Valid()
      modifies this`layers, this`history, this`refusals
      ensures Valid()
      ensures ok ==>
                && CanMove(old(layers[0]), src, dst)
                && layers == WithUpper(old(layers), Planted(WithoutSubtree(old(layers[0]), src), dst, Subtree(old(layers[0]), src)))
                && history == old(history) + [layers]
      ensures !ok ==> layers == old(layers) && history == old(history)
      ensures old(refusals) <= refusals
      ensures refusals == old(refusals) ==> (ok <==> CanMove(old(layers[0]), src, dst))
    {
      var up := layers[0];
      assert LayerOk(up);
      ok := *;
      if !ok {
        refusals := refusals + 1;
        return false;
      }
      if !CanMove(up, src, dst) {
        return false;
      }
      WithoutOk(up, src);
      SubtreeOk(up, src);
      PrefixOfParent(src, dst);
      PlantedOk(WithoutSubtree(up, src), dst, Subtree(up, src));
      SetUpper(Planted(WithoutSubtree(up, src), dst, Subtree(up, src)));
    }

    /** renameat2 with RENAME_EXCHANGE within the upper layer. */
    method ExchangeWithin(src: Path, dst: Path) returns (ok: bool)
      requires Valid()
      modifies this`layers, this`history, this`refusals
      ensures Valid()
      ensures ok ==>
                && CanExchange(old(layers[0]), src, dst)
                && layers == WithUpper(old(layers), Traded(old(layers[0]), src, dst))
                && history == old(history) + [layers]
      ensures !ok ==> layers == old(layers) && history == old(history)
      ensures old(refusals) <= refusals
      ensures refusals == old(refusals) ==> (ok <==> CanExchange(old(layers[0]), src, dst))
    {
      var up := layers[0];
      assert LayerOk(up);
      ok := *;
      if !ok {
        refusals := refusals + 1;
        return false;
      }
      if !CanExchange(up, src, dst) {
        return false;
      }
      TradedOk(up, src, dst);
      SetUpper(Traded(up, src, dst));
    }

    /** unlinkat of an empty directory. */
    method Rmdir(q: Path) returns (ok: bool)
      requires Valid()
      modifies this`layers, this`history, this`refusals
      ensures Valid()
      ensures ok ==> q != [] && q in old(layers[0]) && layers == WithUpper(old(layers), old(layers[0]) - {q})
      ensures !ok ==> layers == old(layers)
      ensures old(refusals) <= refusals
      ensures refusals == old(refusals) ==> (ok <==> q != [] && q in old(layers[0]) && old(layers[0])[q].Dir? && Listed(old(layers[0]), q) == {})
    {
      var up := layers[0];
      assert LayerOk(up);
      ok := *;
      if !ok {
        refusals := refusals + 1;
        return false;
      }
      if q == [] || q !in up || !up[q].Dir? || Listed(up, q) != {} {
        return false;
      }
      EmptyOk(up, q);
      SetUpper(up - {q});
    }

    /** mknodat of a device 0/0. */
    method Mknod(q: Path) returns (r: Status, unsupported: bool)
      requires Valid()
      modifies this`layers, this`history, this`refusals
      ensures Valid()
      ensures r.Ok? ==> q != [] && q !in old(layers[0]) && layers == WithUpper(old(layers), old(layers[0])[q := Whiteout])
                        && history == old(history) + [layers]
      ensures !r.Ok? ==> layers == old(layers) && history == old(history)
      ensures r == Err(EEXIST) <==> q in old(layers[0])
      ensures unsupported ==> r.Err? && q !in old(layers[0])
      ensures old(refusals) <= refusals
      ensures refusals == old(refusals) && !unsupported ==> (r.Ok? <==> HasRoom(old(layers[0]), q))
    {
      var up := layers[0];
      assert LayerOk(up);
      var ok: bool := *;
      unsupported := false;
      if q in up {
        r := Err(EEXIST);
      } else if !ok {
        unsupported := *;
        refusals := if unsupported then refusals else refusals + 1;
        r := Err(OtherError);
      } else if !HasRoom(up, q) {
        r := Err(OtherError);
      } else {
        AddedOk(up, q, Entry.Whiteout);
        SetUpper(up[q := Entry.Whiteout]);
        r := Ok;
      }
    }

    /** An open for writing that creates an empty file where there is none. */
    method Touch(q: Path) returns (ok: bool)
      requires Valid()
      modifies this`layers, this`history, this`refusals
      ensures Valid()
      ensures ok && q !in old(layers[0]) ==> q != [] && layers == WithUpper(old(layers), old(layers[0])[q := File(Regular([]))])
      ensures ok && q !in old(layers[0]) ==> history == old(history) + [layers]
      ensures !ok || q in old(layers[0]) ==> layers == old(layers) && history == old(history)
      ensures old(refusals) <= refusals
      ensures refusals == old(refusals) ==>
                (ok <==> if q in old(layers[0]) then !old(layers[0])[q].Dir? else HasRoom(old(layers[0]), q))
    {
      var up := layers[0];
      assert LayerOk(up);
      ok := *;
      if !ok {
        refusals := refusals + 1;
        return false;
      }
      if q in up {
        ok := !up[q].Dir?;
      } else if !HasRoom(up, q) {
        ok := false;
      } else {
        AddedOk(up, q, File(Regular([])));
        SetUpper(up[q := File(Regular([]))]);
      }
    }

    /** unlinkat of something that is no directory. */
    method Unlink(q: Path) returns (r: Status)
      requires Valid()
      modifies this`layers, this`history, this`refusals
      ensures Valid()
      ensures r.Ok? ==> q in old(layers[0]) && layers == WithUpper(old(layers), old(layers[0]) - {q}) && history == old(history) + [layers]
      ensures !r.Ok? ==> layers == old(layers) && history == old(history)
      ensures r == Err(ENOENT) <==> q !in old(layers[0])
      ensures old(refusals) <= refusals
      ensures refusals == old(refusals) && q in old(layers[0]) ==> (r.Ok? <==> !old(layers[0])[q].Dir?)
    {
      var up := layers[0];
      assert LayerOk(up);
      var ok: bool := *;
      if q !in up {
        r := Err(ENOENT);
      } else if !ok {
        refusals := refusals + 1;
        r := Err(OtherError);
      } else if up[q].Dir? {
        r := Err(OtherError);
      } else {
        LeafOk(up, q);
        SetUpper(up - {q});
        r := Ok;
      }
    }
  }

  lemma AddedOk(up: Layer, q: Path, e: Entry)
    requires LayerOk(up) && q != [] && q !in up && ValidName(Last(q)) && Parent(q) in up && up[Parent(q)].Dir?
    ensures LayerOk(up[q := e])
  {
    var out := up[q := e];
    forall p | p in out && p != []
      ensures EntryPlaced(out, p)
    {
      assert p != q ==> EntryPlaced(up, p);
    }
  }

  lemma EmptyOk(up: Layer, q: Path)
    requires LayerOk(up) && q in up && q != [] && Listed(up, q) == {}
    ensures LayerOk(up - {q})
  {
    var out := up - {q};
    forall p | p in out && p != []
      ensures EntryPlaced(out, p)
    {
      assert EntryPlaced(up, p);
      assert Parent(p) + [Last(p)] == p;
      assert Last(p) !in Listed(up, q);
    }
  }

  lemma LeafOk(up: Layer, q: Path)
    requires LayerOk(up) && q in up && !up[q].Dir?
    ensures LayerOk(up - {q})
  {
    var out := up - {q};
    forall p | p in out && p != []
      ensures EntryPlaced(out, p)
    {
      assert EntryPlaced(up, p);
    }
  }
}
