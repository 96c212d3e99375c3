/** The inode table (src/node.rs): physical inodes to table entries, and the numbers issued to
    the kernel back to physical inodes. Numbers of recycled inodes stay behind as tombstones.

    u64 values are natural numbers below 2^64, with the wrap-around written out. */
module InodeTable {
  import opened Wrappers
  import opened Names
  import opened NodeTree

  const U64 := 0x1_0000_0000_0000_0000
  const I64_MAX := 0x7fff_ffff_ffff_ffff
  const ROOT_INO := 1
  const FALLBACK_START := 0x8000_0000_0000_0000

  datatype OvlIno = OvlIno(nodes: set<NodeId>, lookups: int, mode: nat, fuseIno: nat)

  datatype Inodes = Inodes(table: map<InodeKey, OvlIno>, fuseMap: map<nat, InodeKey>,
                           sameDevice: bool, nextFallback: nat)

  // ---- compute_fuse_ino ----

  /** Bitwise exclusive or. */
  function Xor(a: nat, b: nat): nat
    decreases a + b
  {
    if a == 0 then b
    else if b == 0 then a
    else 2 * Xor(a / 2, b / 2) + (a + b) % 2
  }

  function WrappingMul(a: nat, b: nat): nat {
    (a * b) % U64
  }

  /** The two odd factors of the hash. */
  const SPREAD := 0x9e37_79b9_7f4a_7c15
  const SCRAMBLE := 0x517c_c1b7_2722_0a95

  /** The multi-device hash. The exclusive or of two words is a word (`InodeNumbers.XorIsWord`), so the last
      remainder changes nothing. */
  function HashIno(ino: nat, dev: nat): (h: nat)
    ensures h < U64
  {
    var mixed := WrappingMul(Xor(ino, WrappingMul(dev, SPREAD)), SCRAMBLE);
    Xor(mixed, mixed / 0x1_0000_0000) % U64
  }

  /** Never one of the two reserved numbers. */
  function ComputeFuseIno(ino: nat, dev: nat, sameDevice: bool): (r: nat)
    requires ino < U64 && dev < U64
    ensures 2 <= r < U64
  {
    var h := if sameDevice then ino else HashIno(ino, dev);
    if h <= 1 then h + 2 else h
  }

  // ---- The fallback counter ----

  /** How many numbers there are besides the reserved 0 and 1. */
  const CYCLE := U64 - 2

  /** `wrapping_add(1)`, with the reserved values skipped. */
  function NextFallback(n: nat): nat {
    var w := (n + 1) % U64;
    if w <= 1 then 2 else w
  }

  /** The counter after `k` steps from `start`. */
  function Nth(start: nat, k: nat): (r: nat)
    requires 2 <= start < U64
    ensures 2 <= r < U64
  {
    2 + (start - 2 + k) % CYCLE
  }

  lemma NthZero(start: nat)
    requires 2 <= start < U64
    ensures Nth(start, 0) == start
  {}

  lemma NthStep(start: nat, k: nat)
    requires 2 <= start < U64
    ensures Nth(start, k + 1) == NextFallback(Nth(start, k))
  {
    var x := start - 2 + k;
    assert (x + 1) % CYCLE == if x % CYCLE + 1 == CYCLE then 0 else x % CYCLE + 1;
  }

  /** The counter does not repeat within one cycle. */
  lemma NthInjective(start: nat, i: nat, j: nat)
    requires 2 <= start < U64 && i < j < CYCLE
    ensures Nth(start, i) != Nth(start, j)
  {
  }

  /** If the first `k` values of the counter are all taken, at least `k` numbers are taken. */
  lemma {:induction false} Pigeonhole(used: set<nat>, start: nat, k: nat)
    requires 2 <= start < U64 && k <= CYCLE
    requires forall j: nat :: j < k ==> Nth(start, j) in used
    ensures k <= |used|
    decreases k
  {
    if k > 0 {
      var last := Nth(start, k - 1);
      forall j: nat | j < k - 1
        ensures Nth(start, j) in used - {last}
      {
        NthInjective(start, j, k - 1);
      }
      Pigeonhole(used - {last}, start, k - 1);
    }
  }

  // ---- Specification of the operations ----

  /** `f` is the first number that is not taken: the computed one, else the first free value of
      the fallback counter, which is left just past it. */
  ghost predicate Issued(taken: map<nat, InodeKey>, start: nat, computed: nat, f: nat, next: nat)
    requires 2 <= start < U64
  {
    if computed !in taken then f == computed && next == start
    else exists k: nat :: FallbackIssued(taken, start, k, f, next)
  }

  ghost predicate FallbackIssued(taken: map<nat, InodeKey>, start: nat, k: nat, f: nat, next: nat)
    requires 2 <= start < U64
  {
    && k < CYCLE && f == Nth(start, k) && f !in taken && next == Nth(start, k + 1)
    && forall j: nat :: j < k ==> Nth(start, j) in taken
  }

  function Candidates(t: Inodes, key: InodeKey, live: set<NodeId>): set<NodeId> {
    if key in t.table then t.table[key].nodes * live else {}
  }

  /** Some node of the entry is still in the arena. */
  predicate HasLiveNode(t: Inodes, key: InodeKey, live: set<NodeId>) {
    key in t.table && t.table[key].nodes * live != {}
  }

  /** `register`: `live` are the nodes in the arena, `same` those that are directories or have
      the path of the node being registered. */
  ghost predicate Registered(t: Inodes, live: set<NodeId>, same: set<NodeId>, id: NodeId,
                             key: InodeKey, mode: nat, u: Inodes, f: nat)
    requires 2 <= t.nextFallback < U64 && key.ino < U64 && key.dev < U64
  {
    if HasLiveNode(t, key, live) then RegisteredAgain(t, live, same, id, key, mode, u, f)
    else RegisteredNew(t, id, key, mode, u, f)
  }

  /** Another node of an inode that has one: same number, and a duplicate is not recorded. */
  predicate RegisteredAgain(t: Inodes, live: set<NodeId>, same: set<NodeId>, id: NodeId,
                            key: InodeKey, mode: nat, u: Inodes, f: nat)
    requires key in t.table
  {
    var entry := t.table[key];
    var kept := entry.nodes * live;
    && f == entry.fuseIno
    && u == t.(table := t.table[key := if kept * same != {} then entry.(nodes := kept)
                                       else entry.(nodes := kept + {id}, mode := mode)])
  }

  /** A first node, or the first of a new incarnation: a number that is not in the map. */
  ghost predicate RegisteredNew(t: Inodes, id: NodeId, key: InodeKey, mode: nat, u: Inodes, f: nat)
    requires 2 <= t.nextFallback < U64 && key.ino < U64 && key.dev < U64
  {
    && Issued(t.fuseMap, t.nextFallback, ComputeFuseIno(key.ino, key.dev, t.sameDevice), f, u.nextFallback)
    && u.table == t.table[key := OvlIno({id}, 0, mode, f)]
    && u.fuseMap == t.fuseMap[f := key]
    && u.sameDevice == t.sameDevice
  }

  lemma RegisteredNewIgnoresOld(t: Inodes, s: Inodes, id: NodeId, key: InodeKey, mode: nat, u: Inodes, f: nat)
    requires 2 <= t.nextFallback < U64 && key.ino < U64 && key.dev < U64
    requires s == t || s == t.(table := t.table - {key})
    requires RegisteredNew(s, id, key, mode, u, f)
    ensures RegisteredNew(t, id, key, mode, u, f)
  {
    assert s.table[key := OvlIno({id}, 0, mode, f)] == t.table[key := OvlIno({id}, 0, mode, f)];
  }

  function WithLookup(t: Inodes, key: InodeKey): Inodes {
    if key in t.table then t.(table := t.table[key := t.table[key].(lookups := t.table[key].lookups + 1)]) else t
  }

  function WithoutNode(t: Inodes, key: InodeKey, id: NodeId): Inodes {
    if key in t.table then t.(table := t.table[key := t.table[key].(nodes := t.table[key].nodes - {id})]) else t
  }

  /** `nlookup as i64`. */
  function AsI64(n: nat): int {
    if n <= I64_MAX then n else n - U64
  }

  function Forgotten(t: Inodes, f: nat, n: nat): Inodes {
    if f == ROOT_INO || f == 0 || f !in t.fuseMap then t
    else
      var key := t.fuseMap[f];
      if key in t.table && t.table[key].fuseIno == f then
        var left := t.table[key].lookups - AsI64(n);
        if left <= 0 then t.(fuseMap := t.fuseMap - {f}, table := t.table - {key})
        else t.(table := t.table[key := t.table[key].(lookups := left)])
      else t.(fuseMap := t.fuseMap - {f})
  }

  // ---- The invariant ----

  ghost predicate TableOk(t: Inodes) {
    && (forall k :: k in t.table ==> t.table[k].fuseIno in t.fuseMap && t.fuseMap[t.table[k].fuseIno] == k)
    && (forall f :: f in t.fuseMap ==> 2 <= f < U64)
    && 2 <= t.nextFallback < U64
  }

  /** The number of a live entry; every other number in the map is a tombstone. */
  predicate Live(t: Inodes, f: nat) {
    f in t.fuseMap && t.fuseMap[f] in t.table && t.table[t.fuseMap[f]].fuseIno == f
  }

  lemma LiveNumbersDiffer(t: Inodes, k1: InodeKey, k2: InodeKey)
    requires TableOk(t) && k1 in t.table && k2 in t.table && k1 != k2
    ensures t.table[k1].fuseIno != t.table[k2].fuseIno
  {
    assert t.fuseMap[t.table[k1].fuseIno] == k1;
  }

  /** A number is issued only while it is not in the map at all, so neither a live entry nor a
      tombstone has it. */
  lemma RegisterKeepsTable(t: Inodes, live: set<NodeId>, same: set<NodeId>, id: NodeId, key: InodeKey,
                           mode: nat, u: Inodes, f: nat)
    requires TableOk(t) && key.ino < U64 && key.dev < U64
    requires Registered(t, live, same, id, key, mode, u, f)
    ensures TableOk(u) && key in u.table && u.table[key].fuseIno == f && 2 <= f < U64
    ensures t.fuseMap.Keys <= u.fuseMap.Keys
    ensures HasLiveNode(t, key, live) ==> u.fuseMap == t.fuseMap && u.table[key].lookups == t.table[key].lookups
    ensures !HasLiveNode(t, key, live) ==> f !in t.fuseMap && u.table[key].lookups == 0
  {
    if !HasLiveNode(t, key, live) && ComputeFuseIno(key.ino, key.dev, t.sameDevice) in t.fuseMap {
      var k: nat :| FallbackIssued(t.fuseMap, t.nextFallback, k, f, u.nextFallback);
    }
  }

  /** The entry of an inode has the nodes in the arena that were registered for it, but for one at the place
      of another: after registering, the node is among them or one at its place is, those that are in the
      arena stay, and no other remains. Other inodes keep their entries. */
  lemma RegisterRecordsNode(t: Inodes, live: set<NodeId>, same: set<NodeId>, id: NodeId, key: InodeKey,
                            mode: nat, u: Inodes, f: nat)
    requires TableOk(t) && key.ino < U64 && key.dev < U64
    requires Registered(t, live, same, id, key, mode, u, f)
    ensures key in u.table && (id in live ==> u.table[key].nodes <= live)
    ensures id in u.table[key].nodes || exists e :: e in u.table[key].nodes && e in same
    ensures (forall e :: e in Candidates(t, key, live) ==> e !in same) ==> id in u.table[key].nodes
    ensures Candidates(t, key, live) <= u.table[key].nodes <= Candidates(t, key, live) + {id}
    ensures u.table - {key} == t.table - {key}
  {
    if HasLiveNode(t, key, live) {
      var kept := t.table[key].nodes * live;
      if kept * same != {} {
        var e :| e in kept * same;
        assert e in u.table[key].nodes;
      }
    }
  }

  /** Once the last node of an inode that is in the arena was dropped, and not before, the next registration
      starts a new incarnation. */
  lemma LastNodeDropped(t: Inodes, key: InodeKey, id: NodeId, live: set<NodeId>)
    ensures HasLiveNode(WithoutNode(t, key, id), key, live) <==> exists e :: e in Candidates(t, key, live) && e != id
    ensures WithoutNode(t, key, id).fuseMap == t.fuseMap && WithoutNode(t, key, id).table - {key} == t.table - {key}
  {
    var u := WithoutNode(t, key, id);
    if e :| e in Candidates(t, key, live) && e != id {
      assert e in u.table[key].nodes * live;
    }
    if HasLiveNode(u, key, live) {
      var e :| e in u.table[key].nodes * live;
      assert e in Candidates(t, key, live) && e != id;
    }
  }

  /** One `forget` of a tombstone removes it and nothing else. */
  lemma ForgetTombstone(t: Inodes, f: nat, n: nat)
    requires TableOk(t) && f in t.fuseMap && !Live(t, f)
    ensures Forgotten(t, f, n) == t.(fuseMap := t.fuseMap - {f})
    ensures TableOk(Forgotten(t, f, n))
  {}

  lemma ForgetKeepsTable(t: Inodes, f: nat, n: nat)
    requires TableOk(t)
    ensures TableOk(Forgotten(t, f, n))
    ensures Forgotten(t, f, n).fuseMap.Keys >= t.fuseMap.Keys - {f}
  {}

  // ---- The class ----

  /** A node that stands for the place of another: a directory, which has no second name, or a node with
      the same path. */
  ghost predicate StandsFor(t: Tree, e: NodeId, id: NodeId)
    requires TreeOk(t) && id in t.nodes
  {
    e in t.nodes && (t.nodes[e].IsDir() || Render(PathOf(t, e)) == Render(PathOf(t, id)))
  }

  class InodeTable {
    var table: map<InodeKey, OvlIno>
    var fuseMap: map<nat, InodeKey>
    var sameDevice: bool
    var nextFallback: nat
    /** The statistics counter STAT_INODES. */
    var statInodes: int

    function State(): Inodes
      reads this
    {
      Inodes(table, fuseMap, sameDevice, nextFallback)
    }

    ghost predicate Valid()
      reads this
    {
      TableOk(State()) && statInodes == |table|
    }

    constructor ()
      ensures Valid() && State() == Inodes(map[], map[], true, FALLBACK_START)
    {
      table, fuseMap, sameDevice, nextFallback, statInodes := map[], map[], true, FALLBACK_START, 0;
    }

    method SetSameDevice(same: bool)
      requires Valid()
      modifies this
      ensures Valid() && State() == old(State()).(sameDevice := same)
    {
      sameDevice := same;
    }

    method FuseToIno(f: nat) returns (r: Option<OvlIno>)
      requires Valid()
      ensures r.Some? <==> f in fuseMap && fuseMap[f] in table
      ensures r.Some? ==> r.value == table[fuseMap[f]]
      ensures r.Some? ==> (r.value.fuseIno == f <==> Live(State(), f))
    {
      r := if f in fuseMap && fuseMap[f] in table then Some(table[fuseMap[f]]) else None;
    }

    method KeyToFuseIno(key: InodeKey) returns (r: Option<nat>)
      requires Valid()
      ensures r.Some? <==> key in table
      ensures r.Some? ==> Live(State(), r.value) && fuseMap[r.value] == key
    {
      r := if key in table then Some(table[key].fuseIno) else None;
    }

    /** The collision loop. Fewer than 2^64-2 numbers are taken, so it comes to an end. */
    method IssueNumber(computed: nat) returns (f: nat)
      requires Valid() && 2 <= computed < U64 && |fuseMap| < CYCLE
      modifies this`nextFallback
      ensures Valid()
      ensures Issued(fuseMap, old(nextFallback), computed, f, nextFallback)
    {
      f := computed;
      ghost var start, i := nextFallback, 0;
      NthZero(start);
      while f in fuseMap || f <= 1
        invariant 0 <= i <= CYCLE && Valid()
        invariant i == 0 ==> f == computed && nextFallback == start
        invariant i > 0 ==> computed in fuseMap && f == Nth(start, i - 1)
        invariant nextFallback == Nth(start, i)
        invariant forall j: nat :: j < i - 1 ==> Nth(start, j) in fuseMap
        decreases CYCLE - i
      {
        if i > 0 {
          Pigeonhole(fuseMap.Keys, start, i);
        }
        NthStep(start, i);
        f := nextFallback;
        nextFallback := (nextFallback + 1) % U64;
        if nextFallback <= 1 {
          nextFallback := 2;
        }
        i := i + 1;
      }
      if i > 0 {
        assert FallbackIssued(fuseMap, start, i - 1, f, nextFallback);
      }
    }

    /** The nodes among `candidates` that are directories or share the path of `id`. */
    ghost function SamePlace(t: Tree, candidates: set<NodeId>, id: NodeId): set<NodeId>
      requires TreeOk(t)
    {
      set e | e in candidates && e in t.nodes &&
              (t.nodes[e].IsDir() || Render(PathOf(t, e)) == Render(PathOf(t, id)))
    }

    /** Whether one of the nodes already stands for this name. */
    method FindSamePlace(nodes: Arena, ghost t: Tree, candidates: set<NodeId>, id: NodeId) returns (found: bool)
      requires TreeOk(t) && nodes == t.nodes && id in nodes && candidates <= nodes.Keys
      ensures found <==> SamePlace(t, candidates, id) != {}
    {
      var newPath := ComputePath(nodes, id, t);
      var rest := candidates;
      while rest != {}
        invariant rest <= candidates
        invariant SamePlace(t, candidates - rest, id) == {}
        decreases |rest|
      {
        var e :| e in rest;
        var path := ComputePath(nodes, e, t);
        if nodes[e].IsDir() || path == newPath {
          assert e in SamePlace(t, candidates, id);
          return true;
        }
        rest := rest - {e};
      }
      assert candidates - rest == candidates;
      return false;
    }

    method Register(nodes: Arena, ghost t: Tree, id: NodeId, ino: nat, dev: nat, mode: nat) returns (f: nat)
      requires Valid() && ino < U64 && dev < U64 && |fuseMap| < CYCLE
      requires TreeOk(t) && nodes == t.nodes && id in nodes
      modifies this
      ensures Valid()
      ensures Registered(old(State()), nodes.Keys, SamePlace(t, Candidates(old(State()), InodeKey(ino, dev), nodes.Keys), id),
                         id, InodeKey(ino, dev), mode, State(), f)
      ensures var key := InodeKey(ino, dev);
              key in table && (id in table[key].nodes || exists e :: e in table[key].nodes && StandsFor(t, e, id))
      ensures var key := InodeKey(ino, dev);
              (forall e :: key in old(table) && e in old(table)[key].nodes && e in nodes ==> !StandsFor(t, e, id)) ==> id in table[key].nodes
    {
      var key := InodeKey(ino, dev);
      ghost var was, same := State(), SamePlace(t, Candidates(State(), key, nodes.Keys), id);
      if key in table {
        if table[key].nodes * nodes.Keys != {} {
          f := LinkExisting(nodes, t, id, key, mode);
          RegisterRecordsNode(was, nodes.Keys, same, id, key, mode, State(), f);
          return;
        }
        DropRecycled(key);
      }
      ghost var before := State();
      f := NewEntry(key, id, mode);
      RegisteredNewIgnoresOld(was, before, id, key, mode, State(), f);
      RegisterRecordsNode(was, nodes.Keys, same, id, key, mode, State(), f);
    }

    /** The first part of `register`: another name for an inode that has a live node. */
    method LinkExisting(nodes: Arena, ghost t: Tree, id: NodeId, key: InodeKey, mode: nat) returns (f: nat)
      requires Valid() && key in table && table[key].nodes * nodes.Keys != {}
      requires TreeOk(t) && nodes == t.nodes && id in nodes
      modifies this`table
      ensures Valid()
      ensures RegisteredAgain(old(State()), nodes.Keys,
                              SamePlace(t, Candidates(old(State()), key, nodes.Keys), id), id, key, mode, State(), f)
    {
      var existing := table[key];
      existing := existing.(nodes := existing.nodes * nodes.Keys);
      var known := FindSamePlace(nodes, t, existing.nodes, id);
      assert existing.nodes * SamePlace(t, existing.nodes, id) == SamePlace(t, existing.nodes, id);
      if !known {
        existing := existing.(nodes := existing.nodes + {id}, mode := mode);
      }
      table := table[key := existing];
      return existing.fuseIno;
    }

    /** All nodes of the entry are gone: it goes too, but its number stays as a tombstone. */
    method DropRecycled(key: InodeKey)
      requires Valid() && key in table
      modifies this`table, this`statInodes
      ensures Valid() && table == old(table) - {key}
    {
      table := table - {key};
      statInodes := statInodes - 1;
    }

    /** The last part of `register`: a number and an entry for a key that has none. */
    method NewEntry(key: InodeKey, id: NodeId, mode: nat) returns (f: nat)
      requires Valid() && key.ino < U64 && key.dev < U64 && |fuseMap| < CYCLE && key !in table
      modifies this
      ensures Valid() && RegisteredNew(old(State()), id, key, mode, State(), f)
    {
      f := IssueNumber(ComputeFuseIno(key.ino, key.dev, sameDevice));
      statInodes := statInodes + 1;
      fuseMap := fuseMap[f := key];
      table := table[key := OvlIno({id}, 0, mode, f)];
    }

    method RemoveNodeId(key: InodeKey, id: NodeId)
      requires Valid()
      modifies this`table
      ensures Valid() && State() == WithoutNode(old(State()), key, id)
    {
      if key in table {
        table := table[key := table[key].(nodes := table[key].nodes - {id})];
      }
    }

    method IncLookup(key: InodeKey)
      requires Valid()
      modifies this`table
      ensures Valid() && State() == WithLookup(old(State()), key)
    {
      if key in table {
        table := table[key := table[key].(lookups := table[key].lookups + 1)];
      }
    }

    method Forget(f: nat, nlookup: nat) returns (r: bool)
      requires Valid() && nlookup < U64
      modifies this
      ensures Valid() && State() == Forgotten(old(State()), f, nlookup)
      ensures r <==> f >= 2 && f in old(fuseMap)
    {
      if f == ROOT_INO || f == 0 {
        return false;
      }
      if f !in fuseMap {
        return false;
      }
      var key := fuseMap[f];
      if key in table {
        if table[key].fuseIno != f {
          fuseMap := fuseMap - {f};
          return true;
        }
        var prev := table[key].lookups;
        table := table[key := table[key].(lookups := prev - AsI64(nlookup))];
        if prev - AsI64(nlookup) <= 0 {
          statInodes := statInodes - 1;
          fuseMap := fuseMap - {f};
          table := table - {key};
          assert table == old(table) - {key};
        }
        return true;
      } else {
        fuseMap := fuseMap - {f};
        return true;
      }
    }
  }
}
