/** The inode table against its peer, the kernel, which counts the references it was given and
    hands them back with `forget` (src/node.rs, and the counting in src/overlay.rs).

    The arena may change in any way between two events: `live` and `same` of an event are
    arbitrary sets. */
module KernelRefs {
  import opened Names
  import opened NodeTree
  import opened InodeTable

  /** The table, and for each number the references the kernel holds on it. */
  datatype Mount = Mount(t: Inodes, held: map<nat, nat>)

  function Held(k: Mount, f: nat): nat {
    if f in k.held then k.held[f] else 0
  }

  function Give(k: Mount, f: nat): map<nat, nat> {
    k.held[f := Held(k, f) + 1]
  }

  datatype Event =
    /** `register`, `inc_lookup` and a reply: lookup on the slow path, create, mkdir, mknod,
        symlink, link, and a `readdirplus` entry that fits. */
    | Reply(live: set<NodeId>, same: set<NodeId>, id: NodeId, key: InodeKey, mode: nat)
    /** The fast path of lookup: the entry exists, it is only counted. */
    | FastReply(key: InodeKey)
    /** A `readdirplus` entry is registered and counted before it turns out not to fit. */
    | CountOnly(live: set<NodeId>, same: set<NodeId>, id: NodeId, key: InodeKey, mode: nat)
    /** A lazy lookup registers without counting. */
    | RegisterOnly(live: set<NodeId>, same: set<NodeId>, id: NodeId, key: InodeKey, mode: nat)
    /** Unlink, rmdir and rename drop a node of an inode. */
    | DropNode(key: InodeKey, id: NodeId)
    | Forget(f: nat, n: nat)

  ghost predicate RegisterStep(t: Inodes, e: Event, u: Inodes, f: nat)
    requires TableOk(t) && (e.Reply? || e.CountOnly? || e.RegisterOnly?)
  {
    e.key.ino < U64 && e.key.dev < U64 && Registered(t, e.live, e.same, e.id, e.key, e.mode, u, f)
  }

  /** The kernel forgets no more than it was given. */
  ghost predicate Next(k: Mount, e: Event, f: nat, k': Mount)
    requires TableOk(k.t)
  {
    match e
    case Reply(_, _, _, _, _) =>
      exists u :: RegisterStep(k.t, e, u, f) && k' == Mount(WithLookup(u, e.key), Give(k, f))
    case FastReply(key) =>
      key in k.t.table && f == k.t.table[key].fuseIno && k' == Mount(WithLookup(k.t, key), Give(k, f))
    case CountOnly(_, _, _, _, _) =>
      exists u :: RegisterStep(k.t, e, u, f) && k' == Mount(WithLookup(u, e.key), k.held)
    case RegisterOnly(_, _, _, _, _) =>
      exists u :: RegisterStep(k.t, e, u, f) && k' == Mount(u, k.held)
    case DropNode(key, id) =>
      k' == Mount(WithoutNode(k.t, key, id), k.held)
    case Forget(g, n) =>
      && n <= Held(k, g) && n <= I64_MAX
      && k' == Mount(Forgotten(k.t, g, n), k.held[g := Held(k, g) - n])
  }

  /** A recycled number is forgotten in one message. The reference count of a tombstone is gone,
      so a first partial `forget` would already release the number. */
  ghost predicate ForgetsWhole(k: Mount, e: Event) {
    e.Forget? && !Live(k.t, e.f) ==> e.n == Held(k, e.f)
  }

  /** Every number the kernel holds is in the map, and if it is live, its count covers what the
      kernel holds. */
  ghost predicate MountOk(k: Mount) {
    && TableOk(k.t)
    && forall f :: Covered(k, f)
  }

  ghost predicate Covered(k: Mount, f: nat) {
    && (Held(k, f) > 0 ==> f in k.t.fuseMap)
    && (Live(k.t, f) ==> k.t.table[k.t.fuseMap[f]].lookups >= Held(k, f))
  }

  lemma RegisterCovers(k: Mount, e: Event, u: Inodes, f: nat)
    requires MountOk(k) && (e.Reply? || e.CountOnly? || e.RegisterOnly?) && RegisterStep(k.t, e, u, f)
    ensures MountOk(Mount(u, k.held)) && e.key in u.table && u.table[e.key].fuseIno == f
    ensures Live(u, f) && u.fuseMap[f] == e.key && u.table[e.key].lookups >= Held(k, f)
  {
    RegisterKeepsTable(k.t, e.live, e.same, e.id, e.key, e.mode, u, f);
    var v := Mount(u, k.held);
    forall g
      ensures Covered(v, g)
    {
      assert Covered(k, g);
    }
    assert Covered(v, f);
  }

  lemma LookupCovers(k: Mount, key: InodeKey)
    requires MountOk(k) && key in k.t.table
    ensures var f := k.t.table[key].fuseIno;
            && MountOk(Mount(WithLookup(k.t, key), k.held))
            && MountOk(Mount(WithLookup(k.t, key), Give(k, f)))
  {
    var f, u := k.t.table[key].fuseIno, WithLookup(k.t, key);
    var a, b := Mount(u, k.held), Mount(u, Give(k, f));
    forall g
      ensures Covered(a, g) && Covered(b, g)
    {
      assert Covered(k, g);
      assert Live(u, g) <==> Live(k.t, g);
    }
  }

  lemma DropCovers(k: Mount, key: InodeKey, id: NodeId)
    requires MountOk(k)
    ensures MountOk(Mount(WithoutNode(k.t, key, id), k.held))
  {
    var a := Mount(WithoutNode(k.t, key, id), k.held);
    forall g
      ensures Covered(a, g)
    {
      assert Covered(k, g);
    }
  }

  lemma ForgetCovers(k: Mount, f: nat, n: nat)
    requires MountOk(k) && n <= Held(k, f) && n <= I64_MAX
    requires !Live(k.t, f) ==> n == Held(k, f)
    ensures MountOk(Mount(Forgotten(k.t, f, n), k.held[f := Held(k, f) - n]))
  {
    var a := Mount(Forgotten(k.t, f, n), k.held[f := Held(k, f) - n]);
    ForgetKeepsTable(k.t, f, n);
    assert Covered(k, f);
    forall g
      ensures Covered(a, g)
    {
      assert Covered(k, g);
    }
  }

  /** The hypothesis on tombstones is exact: a `forget` of `n` references releases the number
      while the kernel holds others just when the number is a tombstone and `n` is not all of them. */
  lemma ForgetKeepsHeldNumber(k: Mount, f: nat, n: nat)
    requires MountOk(k) && n <= Held(k, f) && n <= I64_MAX
    ensures (n < Held(k, f) ==> f in Forgotten(k.t, f, n).fuseMap) <==> Live(k.t, f) || n == Held(k, f)
  {
    assert Covered(k, f);
  }

  lemma NextKeepsMount(k: Mount, e: Event, f: nat, k': Mount)
    requires MountOk(k) && Next(k, e, f, k') && ForgetsWhole(k, e)
    ensures MountOk(k')
  {
    match e
    case Reply(_, _, _, key, _) =>
      var u :| RegisterStep(k.t, e, u, f) && k' == Mount(WithLookup(u, e.key), Give(k, f));
      RegisterCovers(k, e, u, f);
      LookupCovers(Mount(u, k.held), e.key);
    case FastReply(key) =>
      LookupCovers(k, key);
    case CountOnly(_, _, _, key, _) =>
      var u :| RegisterStep(k.t, e, u, f) && k' == Mount(WithLookup(u, e.key), k.held);
      RegisterCovers(k, e, u, f);
      LookupCovers(Mount(u, k.held), e.key);
    case RegisterOnly(_, _, _, key, _) =>
      var u :| RegisterStep(k.t, e, u, f) && k' == Mount(u, k.held);
      RegisterCovers(k, e, u, f);
    case DropNode(key, id) =>
      DropCovers(k, key, id);
    case Forget(g, n) =>
      ForgetCovers(k, g, n);
  }

  /** A run, as the mounts it goes through, the events and the numbers they issue or use. */
  ghost predicate IsRun(run: seq<Mount>, events: seq<Event>, numbers: seq<nat>) {
    && |run| == |events| + 1 == |numbers| + 1
    && (exists same: bool :: run[0] == Mount(Inodes(map[], map[], same, FALLBACK_START), map[]))
    && forall i :: 0 <= i < |events| ==> RunStep(run[i], events[i], numbers[i], run[i + 1])
  }

  ghost predicate RunStep(k: Mount, e: Event, f: nat, k': Mount) {
    TableOk(k.t) ==> Next(k, e, f, k') && ForgetsWhole(k, e)
  }

  lemma {:induction false} RunKeepsMount(run: seq<Mount>, events: seq<Event>, numbers: seq<nat>, i: nat)
    requires IsRun(run, events, numbers) && i < |run|
    ensures MountOk(run[i])
  {
    if i > 0 {
      RunKeepsMount(run, events, numbers, i - 1);
      assert RunStep(run[i - 1], events[i - 1], numbers[i - 1], run[i - 1 + 1]);
      NextKeepsMount(run[i - 1], events[i - 1], numbers[i - 1], run[i]);
    }
  }

  /** Whether registering `key` starts a new incarnation: the key has no entry, or all nodes of
      its entry are gone. */
  predicate NewIncarnation(k: Mount, e: Event)
    requires e.Reply? || e.CountOnly? || e.RegisterOnly?
  {
    !HasLiveNode(k.t, e.key, e.live)
  }

  /** No number is reused while the kernel holds it. In every state of every run a held number is
      in the map, and `register` issues it only for the key it belongs to, and not for a new
      incarnation of that key. */
  lemma HeldNumbersAreNotReused(run: seq<Mount>, events: seq<Event>, numbers: seq<nat>, i: nat, f: nat)
    requires IsRun(run, events, numbers) && i < |run| && Held(run[i], f) > 0
    ensures TableOk(run[i].t) && f in run[i].t.fuseMap
    ensures i < |events| && (events[i].Reply? || events[i].CountOnly? || events[i].RegisterOnly?) && numbers[i] == f ==>
              run[i].t.fuseMap[f] == events[i].key && !NewIncarnation(run[i], events[i])
  {
    RunKeepsMount(run, events, numbers, i);
    assert Covered(run[i], f);
    if i < |events| && (events[i].Reply? || events[i].CountOnly? || events[i].RegisterOnly?) && numbers[i] == f {
      var k, e := run[i], events[i];
      assert RunStep(k, e, f, run[i + 1]);
      var u :| RegisterStep(k.t, e, u, f);
      RegisterKeepsTable(k.t, e.live, e.same, e.id, e.key, e.mode, u, f);
    }
  }

  // ---- The exact count ----

  predicate Registers(e: Event) {
    e.Reply? || e.CountOnly? || e.RegisterOnly?
  }

  /** What was counted for a number and not given to the kernel: it starts from nothing with each new
      incarnation. */
  function Surplus(run: seq<Mount>, events: seq<Event>, numbers: seq<nat>, i: nat, f: nat): nat
    requires |run| == |events| + 1 == |numbers| + 1 && i < |run|
  {
    if i == 0 then 0
    else
      var e, before := events[i - 1], Surplus(run, events, numbers, i - 1, f);
      if Registers(e) && numbers[i - 1] == f then
        (if NewIncarnation(run[i - 1], e) then 0 else before) + (if e.CountOnly? then 1 else 0)
      else before
  }

  ghost predicate CountIs(t: Inodes, f: nat, count: nat) {
    Live(t, f) ==> t.table[t.fuseMap[f]].lookups == count
  }

  /** Registering leaves the counts of all numbers as they are; that of a new incarnation is 0. */
  lemma RegisterCounts(t: Inodes, e: Event, u: Inodes, f: nat, g: nat, count: nat)
    requires TableOk(t) && Registers(e) && RegisterStep(t, e, u, f) && CountIs(t, g, count)
    ensures TableOk(u) && e.key in u.table && u.table[e.key].fuseIno == f && u.fuseMap[f] == e.key
    ensures CountIs(u, g, if g == f && !HasLiveNode(t, e.key, e.live) then 0 else count)
  {
    RegisterKeepsTable(t, e.live, e.same, e.id, e.key, e.mode, u, f);
    if g != f && Live(u, g) {
      assert u.fuseMap[g] != e.key;
      assert Live(t, g) && u.table[u.fuseMap[g]] == t.table[t.fuseMap[g]];
    }
  }

  lemma LookupCounts(t: Inodes, key: InodeKey, g: nat, count: nat)
    requires TableOk(t) && key in t.table && CountIs(t, g, count)
    ensures CountIs(WithLookup(t, key), g, if g == t.table[key].fuseIno then count + 1 else count)
  {
    assert Live(WithLookup(t, key), g) <==> Live(t, g);
  }

  /** Of all numbers, `forget` counts down its own. */
  lemma ForgetCounts(t: Inodes, f: nat, n: nat, g: nat, count: nat)
    requires TableOk(t) && CountIs(t, g, count) && n <= I64_MAX && (g == f ==> n <= count)
    ensures CountIs(Forgotten(t, f, n), g, if g == f then count - n else count)
  {
    if Live(Forgotten(t, f, n), g) {
      assert Live(t, g);
    }
  }

  /** One step: the count of a number changes by what the kernel gets or gives back, and by what is counted
      only. */
  lemma NextCounts(k: Mount, e: Event, f: nat, k': Mount, g: nat, surplus: nat)
    requires MountOk(k) && Next(k, e, f, k') && CountIs(k.t, g, Held(k, g) + surplus)
    ensures var s := if Registers(e) && g == f then
                       (if NewIncarnation(k, e) then 0 else surplus) + (if e.CountOnly? then 1 else 0)
                     else surplus;
            CountIs(k'.t, g, Held(k', g) + s)
  {
    hide CountIs;
    hide Forgotten;
    hide WithLookup;
    hide TableOk;
    match e
    case Reply(_, _, _, key, _) =>
      var u :| RegisterStep(k.t, e, u, f) && k' == Mount(WithLookup(u, e.key), Give(k, f));
      RegisterCounts(k.t, e, u, f, g, Held(k, g) + surplus);
      NewHoldsNothing(k, e, u, f);
      LookupCounts(u, e.key, g, if g == f && NewIncarnation(k, e) then 0 else Held(k, g) + surplus);
    case FastReply(key) =>
      LookupCounts(k.t, key, g, Held(k, g) + surplus);
    case CountOnly(_, _, _, key, _) =>
      var u :| RegisterStep(k.t, e, u, f) && k' == Mount(WithLookup(u, e.key), k.held);
      RegisterCounts(k.t, e, u, f, g, Held(k, g) + surplus);
      NewHoldsNothing(k, e, u, f);
      LookupCounts(u, e.key, g, if g == f && NewIncarnation(k, e) then 0 else Held(k, g) + surplus);
    case RegisterOnly(_, _, _, key, _) =>
      var u :| RegisterStep(k.t, e, u, f) && k' == Mount(u, k.held);
      RegisterCounts(k.t, e, u, f, g, Held(k, g) + surplus);
      NewHoldsNothing(k, e, u, f);
    case DropNode(key, id) =>
      DropCounts(k.t, key, id, g, Held(k, g) + surplus);
    case Forget(h, n) =>
      ForgetCounts(k.t, h, n, g, Held(k, g) + surplus);
  }

  /** The kernel holds nothing of a number that is about to be issued. */
  lemma NewHoldsNothing(k: Mount, e: Event, u: Inodes, f: nat)
    requires MountOk(k) && Registers(e) && RegisterStep(k.t, e, u, f)
    ensures NewIncarnation(k, e) ==> Held(k, f) == 0
  {
    RegisterKeepsTable(k.t, e.live, e.same, e.id, e.key, e.mode, u, f);
    assert Covered(k, f);
  }

  lemma DropCounts(t: Inodes, key: InodeKey, id: NodeId, g: nat, count: nat)
    requires CountIs(t, g, count)
    ensures CountIs(WithoutNode(t, key, id), g, count)
  {}

  /** In every state of every run the lookup count of a live number is what the kernel holds of it, and what
      was counted only. */
  lemma {:induction false} CountIsExact(run: seq<Mount>, events: seq<Event>, numbers: seq<nat>, i: nat, f: nat)
    requires IsRun(run, events, numbers) && i < |run|
    ensures Live(run[i].t, f) ==>
              run[i].t.table[run[i].t.fuseMap[f]].lookups == Held(run[i], f) + Surplus(run, events, numbers, i, f)
  {
    if i > 0 {
      CountIsExact(run, events, numbers, i - 1, f);
      RunKeepsMount(run, events, numbers, i - 1);
      assert RunStep(run[i - 1], events[i - 1], numbers[i - 1], run[i - 1 + 1]);
      NextCounts(run[i - 1], events[i - 1], numbers[i - 1], run[i], f, Surplus(run, events, numbers, i - 1, f));
    }
  }

  lemma {:induction false} NoSurplus(run: seq<Mount>, events: seq<Event>, numbers: seq<nat>, i: nat, f: nat)
    requires |run| == |events| + 1 == |numbers| + 1 && i < |run|
    requires forall j :: 0 <= j < i ==> !events[j].CountOnly?
    ensures Surplus(run, events, numbers, i, f) == 0
  {
    if i > 0 {
      NoSurplus(run, events, numbers, i - 1, f);
    }
  }

  /** What a `forget` of a live number does: it takes the number and its inode away exactly if it returns
      all that the kernel holds and nothing was counted beside; and it touches no other number or inode. */
  lemma ForgetReleasesIff(run: seq<Mount>, events: seq<Event>, numbers: seq<nat>, i: nat)
    requires IsRun(run, events, numbers) && i < |events| && events[i].Forget? && Live(run[i].t, events[i].f)
    ensures var f, n, t, u := events[i].f, events[i].n, run[i].t, run[i + 1].t;
            var key := t.fuseMap[f];
            && (f !in u.fuseMap && key !in u.table <==> n == Held(run[i], f) && Surplus(run, events, numbers, i, f) == 0)
            && (f in u.fuseMap || key in u.table ==> Live(u, f) && u.fuseMap[f] == key)
            && u.fuseMap - {f} == t.fuseMap - {f} && u.table - {key} == t.table - {key}
  {
    var f, n, t := events[i].f, events[i].n, run[i].t;
    CountIsExact(run, events, numbers, i, f);
    RunKeepsMount(run, events, numbers, i);
    assert RunStep(run[i], events[i], numbers[i], run[i + 1]);
    var u, key := run[i + 1].t, t.fuseMap[f];
    assert u.table == if key in u.table then t.table[key := u.table[key]] else t.table - {key};
  }

  /** If nothing is counted beside, the last reference that comes back releases number and inode, and no
      other one does. */
  lemma LastForgetReleases(run: seq<Mount>, events: seq<Event>, numbers: seq<nat>, i: nat)
    requires IsRun(run, events, numbers) && i < |events| && events[i].Forget? && Live(run[i].t, events[i].f)
    requires forall j :: 0 <= j < i ==> !events[j].CountOnly?
    ensures events[i].n == Held(run[i], events[i].f) <==>
            events[i].f !in run[i + 1].t.fuseMap && run[i].t.fuseMap[events[i].f] !in run[i + 1].t.table
  {
    NoSurplus(run, events, numbers, i, events[i].f);
    ForgetReleasesIff(run, events, numbers, i);
  }

  // ---- Nodes of an inode ----

  /** The event leaves the node with its inode: it does not drop it, and finds it in the arena. */
  predicate Spares(e: Event, key: InodeKey, id: NodeId) {
    && !(e.DropNode? && e.key == key && e.id == id)
    && (Registers(e) && e.key == key ==> id in e.live)
  }

  lemma NextKeepsNode(k: Mount, e: Event, f: nat, k': Mount, key: InodeKey, id: NodeId)
    requires TableOk(k.t) && Next(k, e, f, k') && Spares(e, key, id)
    requires key in k.t.table && id in k.t.table[key].nodes && key in k'.t.table
    ensures id in k'.t.table[key].nodes && k'.t.table[key].fuseIno == k.t.table[key].fuseIno
  {
    hide TableOk;
    match e
    case Reply(_, _, _, _, _) =>
      var u :| RegisterStep(k.t, e, u, f) && k' == Mount(WithLookup(u, e.key), Give(k, f));
      RegisterKeepsNode(k.t, e, u, f, key, id);
    case CountOnly(_, _, _, _, _) =>
      var u :| RegisterStep(k.t, e, u, f) && k' == Mount(WithLookup(u, e.key), k.held);
      RegisterKeepsNode(k.t, e, u, f, key, id);
    case RegisterOnly(_, _, _, _, _) =>
      var u :| RegisterStep(k.t, e, u, f) && k' == Mount(u, k.held);
      RegisterKeepsNode(k.t, e, u, f, key, id);
    case _ =>
  }

  lemma RegisterKeepsNode(t: Inodes, e: Event, u: Inodes, f: nat, key: InodeKey, id: NodeId)
    requires TableOk(t) && Registers(e) && RegisterStep(t, e, u, f) && Spares(e, key, id)
    requires key in t.table && id in t.table[key].nodes
    ensures key in u.table && id in u.table[key].nodes && u.table[key].fuseIno == t.table[key].fuseIno
  {
    RegisterRecordsNode(t, e.live, e.same, e.id, e.key, e.mode, u, f);
    if e.key == key {
      assert id in Candidates(t, key, e.live);
    } else {
      assert key in u.table - {e.key} && key in t.table - {e.key};
    }
  }

  /** A node that was registered under a new path stays among the nodes of its inode, under the same number,
      for as long as the entry is there, the node is in the arena and it is not dropped. */
  lemma {:induction false} RecordedNodeStays(run: seq<Mount>, events: seq<Event>, numbers: seq<nat>, i: nat, j: nat, key: InodeKey, id: NodeId)
    requires IsRun(run, events, numbers) && i <= j < |run|
    requires forall l :: i <= l <= j ==> key in run[l].t.table
    requires forall l :: i <= l < j ==> Spares(events[l], key, id)
    requires id in run[i].t.table[key].nodes
    ensures id in run[j].t.table[key].nodes && run[j].t.table[key].fuseIno == run[i].t.table[key].fuseIno
    decreases j
  {
    if i < j {
      RecordedNodeStays(run, events, numbers, i, j - 1, key, id);
      RunKeepsMount(run, events, numbers, j - 1);
      assert RunStep(run[j - 1], events[j - 1], numbers[j - 1], run[j - 1 + 1]);
      NextKeepsNode(run[j - 1], events[j - 1], numbers[j - 1], run[j], key, id);
    }
  }

  // ---- A tombstone that is forgotten in parts ----

  /** Without the hypothesis on tombstones the claim fails. Node 1 of inode (5, 1) is looked up
      twice and removed; inode number 5 is recycled, which leaves number 5 behind as a tombstone;
      the kernel forgets one of its two references, and number 5 is free for the next inode. */
  lemma PartialForgetOfTombstoneReleases()
    ensures var key := InodeKey(5, 1);
            var t0 := Inodes(map[key := OvlIno({1}, 2, 0, 5)], map[5 := key], true, FALLBACK_START);
            var t1 := Inodes(map[key := OvlIno({2}, 1, 0, FALLBACK_START)], map[5 := key, FALLBACK_START := key], true, FALLBACK_START + 1);
            && MountOk(Mount(t0, map[5 := 2]))
            && Registered(t0, {2}, {}, 2, key, 0, t1.(table := t1.table[key := OvlIno({2}, 0, 0, FALLBACK_START)]), FALLBACK_START)
            && MountOk(Mount(t1, map[5 := 2, FALLBACK_START := 1]))
            && 5 !in Forgotten(t1, 5, 1).fuseMap
  {
    var key := InodeKey(5, 1);
    var t0 := Inodes(map[key := OvlIno({1}, 2, 0, 5)], map[5 := key], true, FALLBACK_START);
    assert ComputeFuseIno(5, 1, true) == 5;
    NthZero(FALLBACK_START);
    NthStep(FALLBACK_START, 0);
    assert FallbackIssued(t0.fuseMap, FALLBACK_START, 0, FALLBACK_START, FALLBACK_START + 1);
    assert {1} * {2} == {};
  }
}
