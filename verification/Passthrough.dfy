/** Passthrough backing ids (src/overlay.rs: open, create, release). Concurrent requests share one
    backing per FUSE inode, counted in `inode_backings`; `fh_to_ino` says which handle counts for
    which inode. Each map has its own lock, so requests interleave between their sections.

    The class holds the maps with one method for each locked section. The state machine
    interleaves the sections of any number of requests in every order. */
module Passthrough {
  import opened Wrappers

  type Ino = nat
  type Fh = nat

  datatype Backing = Backing(id: nat, count: nat)

  type Backings = map<Ino, Backing>

  // ---- The locked sections on `inode_backings` ----

  function Claimed(b: Backings, ino: Ino): Backings
    requires ino in b
  {
    b[ino := b[ino].(count := b[ino].count + 1)]
  }

  /** The re-check: join the entry that another request inserted meanwhile, or insert one. */
  function ClaimedOrInserted(b: Backings, ino: Ino, id: nat): Backings {
    if ino in b then Claimed(b, ino) else b[ino := Backing(id, 1)]
  }

  function Dropped(b: Backings, ino: Ino): Backings
    requires ino in b ==> b[ino].count > 0
  {
    if ino !in b then b
    else if b[ino].count == 1 then b - {ino}
    else b[ino := b[ino].(count := b[ino].count - 1)]
  }

  class Locks {
    var inodeBackings: Backings
    var fhToIno: map<Fh, Ino>
    var openFiles: set<Fh>
    var nextFh: Fh

    constructor ()
      ensures inodeBackings == map[] && fhToIno == map[] && openFiles == {} && nextFh == 1
    {
      inodeBackings, fhToIno, openFiles, nextFh := map[], map[], {}, 1;
    }

    /** The first section of open: an existing backing is claimed with a new handle. */
    method CheckBacking(ino: Ino) returns (hit: bool, fh: Fh, id: nat)
      modifies this`inodeBackings, this`nextFh
      ensures hit <==> ino in old(inodeBackings)
      ensures hit ==> fh == old(nextFh) && id == old(inodeBackings)[ino].id && nextFh == old(nextFh) + 1
      ensures hit ==> inodeBackings == Claimed(old(inodeBackings), ino)
      ensures !hit ==> inodeBackings == old(inodeBackings) && nextFh == old(nextFh)
    {
      fh, id, hit := 0, 0, false;
      if ino in inodeBackings {
        fh := nextFh;
        nextFh := nextFh + 1;
        id := inodeBackings[ino].id;
        inodeBackings := inodeBackings[ino := Backing(id, inodeBackings[ino].count + 1)];
        hit := true;
      }
    }

    /** The second section of open, with a backing that this request created. */
    method RecheckBacking(ino: Ino, created: nat) returns (id: nat)
      modifies this`inodeBackings
      ensures inodeBackings == ClaimedOrInserted(old(inodeBackings), ino, created)
      ensures id == inodeBackings[ino].id
      ensures id == if ino in old(inodeBackings) then old(inodeBackings)[ino].id else created
    {
      if ino in inodeBackings {
        id := inodeBackings[ino].id;
        inodeBackings := inodeBackings[ino := Backing(id, inodeBackings[ino].count + 1)];
      } else {
        id := created;
        inodeBackings := inodeBackings[ino := Backing(created, 1)];
      }
    }

    /** The section of create. */
    method InsertBacking(ino: Ino, created: nat)
      modifies this`inodeBackings
      ensures inodeBackings == old(inodeBackings)[ino := Backing(created, 1)]
    {
      inodeBackings := inodeBackings[ino := Backing(created, 1)];
    }

    method StoreFile(fh: Fh)
      modifies this`openFiles
      ensures openFiles == old(openFiles) + {fh}
    {
      openFiles := openFiles + {fh};
    }

    method RegisterHandle(fh: Fh, ino: Ino)
      modifies this`fhToIno
      ensures fhToIno == old(fhToIno)[fh := ino]
    {
      fhToIno := fhToIno[fh := ino];
    }

    /** The first section of release. */
    method TakeHandle(fh: Fh) returns (hadBacking: bool, ino: Ino)
      modifies this`fhToIno
      ensures hadBacking <==> fh in old(fhToIno)
      ensures hadBacking ==> ino == old(fhToIno)[fh]
      ensures fhToIno == old(fhToIno) - {fh}
    {
      hadBacking := fh in fhToIno;
      ino := if hadBacking then fhToIno[fh] else 0;
      fhToIno := fhToIno - {fh};
    }

    /** The second section of release; the count is at least 1, so it does not underflow. */
    method DropBacking(ino: Ino)
      requires ino in inodeBackings ==> inodeBackings[ino].count > 0
      modifies this`inodeBackings
      ensures inodeBackings == Dropped(old(inodeBackings), ino)
    {
      if ino in inodeBackings {
        var count := inodeBackings[ino].count - 1;
        inodeBackings := inodeBackings[ino := Backing(inodeBackings[ino].id, count)];
        if count == 0 {
          inodeBackings := inodeBackings - {ino};
          assert inodeBackings == old(inodeBackings) - {ino};
        }
      }
    }
  }

  // ---- The interleaving of requests ----

  /** How far a request that holds a claim has come. */
  datatype Stage = Holding | FileStored | Registered

  datatype Flight = Flight(ino: Ino, id: nat, stage: Stage)

  datatype Handle = Handle(ino: Ino, id: nat)

  /** The shared maps, and what each request in flight knows.
      - `waiting`: requests that saw no backing and are about to create one
      - `candidates`: requests that created a backing and are about to re-check
      - `flights`: requests with a claim, on the way to their reply
      - `open`: handles the kernel has and may release
      - `releasing`: releases between their two sections */
  datatype State = State(
    backings: Backings, fhToIno: map<Fh, Ino>,
    waiting: multiset<Ino>, candidates: map<Fh, Handle>, flights: map<Fh, Flight>,
    open: map<Fh, Handle>, releasing: map<Fh, Ino>,
    nextFh: Fh, nextId: nat)

  const START := State(map[], map[], multiset{}, map[], map[], map[], map[], 1, 0)

  datatype Step =
    | CheckHit(ino: Ino)
    | CheckMiss(ino: Ino)
    | BackingCreated(ino: Ino)
    | BackingRefused(ino: Ino)
    | Recheck(fh: Fh)
    | Create(ino: Ino)
    | StoreFile(fh: Fh)
    | RegisterHandle(fh: Fh)
    | Reply(fh: Fh)
    | ReleaseTake(fh: Fh)
    | ReleaseDrop(fh: Fh)

  predicate Enabled(s: State, step: Step) {
    match step
    case CheckHit(ino) => ino in s.backings
    case CheckMiss(ino) => ino !in s.backings
    case BackingCreated(ino) => ino in s.waiting
    case BackingRefused(ino) => ino in s.waiting
    case Recheck(fh) => fh in s.candidates
    case Create(ino) => true
    case StoreFile(fh) => fh in s.flights && s.flights[fh].stage == Holding
    case RegisterHandle(fh) => fh in s.flights && s.flights[fh].stage == FileStored
    case Reply(fh) => fh in s.flights && s.flights[fh].stage == Registered
    case ReleaseTake(fh) => fh in s.open && fh in s.fhToIno
    case ReleaseDrop(fh) => fh in s.releasing && (s.releasing[fh] in s.backings ==> s.backings[s.releasing[fh]].count > 0)
  }

  function Apply(s: State, step: Step): State
    requires Enabled(s, step)
  {
    match step
    case CheckHit(ino) =>
      s.(backings := Claimed(s.backings, ino),
         flights := s.flights[s.nextFh := Flight(ino, s.backings[ino].id, Holding)], nextFh := s.nextFh + 1)
    case CheckMiss(ino) =>
      s.(waiting := s.waiting + multiset{ino})
    case BackingCreated(ino) =>
      s.(waiting := s.waiting - multiset{ino},
         candidates := s.candidates[s.nextFh := Handle(ino, s.nextId)], nextFh := s.nextFh + 1, nextId := s.nextId + 1)
    case BackingRefused(ino) =>
      s.(waiting := s.waiting - multiset{ino})
    case Recheck(fh) =>
      var c := s.candidates[fh];
      var b := ClaimedOrInserted(s.backings, c.ino, c.id);
      s.(backings := b, candidates := s.candidates - {fh},
         flights := s.flights[fh := Flight(c.ino, b[c.ino].id, Holding)])
    case Create(ino) =>
      s.(backings := s.backings[ino := Backing(s.nextId, 1)],
         flights := s.flights[s.nextFh := Flight(ino, s.nextId, Holding)], nextFh := s.nextFh + 1, nextId := s.nextId + 1)
    case StoreFile(fh) =>
      s.(flights := s.flights[fh := s.flights[fh].(stage := FileStored)])
    case RegisterHandle(fh) =>
      s.(fhToIno := s.fhToIno[fh := s.flights[fh].ino],
         flights := s.flights[fh := s.flights[fh].(stage := Registered)])
    case Reply(fh) =>
      s.(flights := s.flights - {fh}, open := s.open[fh := Handle(s.flights[fh].ino, s.flights[fh].id)])
    case ReleaseTake(fh) =>
      s.(fhToIno := s.fhToIno - {fh}, open := s.open - {fh}, releasing := s.releasing[fh := s.fhToIno[fh]])
    case ReleaseDrop(fh) =>
      s.(backings := Dropped(s.backings, s.releasing[fh]), releasing := s.releasing - {fh})
  }

  /** `create` makes a new file, whose FUSE number has no backing yet. */
  predicate CreatesNewNumber(s: State, step: Step) {
    step.Create? ==> step.ino !in s.backings
  }

  // ---- The invariant ----

  /** The handles that count for an inode: opens in flight, open handles, releases in flight. */
  function Users(s: State, ino: Ino): set<Fh> {
    (set fh | fh in s.flights && s.flights[fh].ino == ino)
    + (set fh | fh in s.open && s.open[fh].ino == ino)
    + (set fh | fh in s.releasing && s.releasing[fh] == ino)
  }

  ghost predicate HandlesOk(s: State) {
    && (forall fh :: fh in s.flights ==> fh < s.nextFh && fh !in s.open && fh !in s.releasing && fh !in s.candidates)
    && (forall fh :: fh in s.open ==> fh < s.nextFh && fh !in s.releasing && fh !in s.candidates)
    && (forall fh :: fh in s.releasing ==> fh < s.nextFh && fh !in s.candidates)
    && (forall fh :: fh in s.candidates ==> fh < s.nextFh)
  }

  /** `fh_to_ino` has exactly the handles that were registered and not yet taken. */
  ghost predicate RegistryOk(s: State) {
    && (forall fh :: fh in s.fhToIno <==> fh in s.open || (fh in s.flights && s.flights[fh].stage == Registered))
    && (forall fh :: fh in s.open ==> s.fhToIno[fh] == s.open[fh].ino)
    && (forall fh :: fh in s.flights && s.flights[fh].stage == Registered ==> s.fhToIno[fh] == s.flights[fh].ino)
  }

  /** The count of an inode is the number of its users, and an entry exists just when there is one. */
  ghost predicate CountOk(s: State, ino: Ino) {
    Counts(s.backings, ino, Users(s, ino))
  }

  ghost predicate Counts(b: Backings, ino: Ino, users: set<Fh>) {
    if ino in b then b[ino].count == |users| && users != {} else users == {}
  }

  /** Whoever uses an inode uses the backing id of its entry. */
  ghost predicate IdsOk(s: State) {
    && (forall fh :: fh in s.flights ==> s.flights[fh].ino in s.backings && s.flights[fh].id == s.backings[s.flights[fh].ino].id)
    && (forall fh :: fh in s.open ==> s.open[fh].ino in s.backings && s.open[fh].id == s.backings[s.open[fh].ino].id)
  }

  ghost predicate StateOk(s: State) {
    HandlesOk(s) && RegistryOk(s) && IdsOk(s) && forall ino :: CountOk(s, ino)
  }

  // ---- Preservation ----

  predicate IsClaim(step: Step) {
    step.CheckHit? || step.Recheck? || step.Create?
  }

  predicate IsProgress(step: Step) {
    step.StoreFile? || step.RegisterHandle? || step.Reply? || step.ReleaseTake?
  }

  predicate IsRelease(step: Step) {
    step.ReleaseDrop?
  }

  /** The inode and the handle of a step that claims a count. */
  function ClaimOf(s: State, step: Step): (Ino, Fh)
    requires IsClaim(step) && Enabled(s, step)
  {
    match step
    case Recheck(fh) => (s.candidates[fh].ino, fh)
    case _ => (step.ino, s.nextFh)
  }

  lemma ClaimKeepsRegistry(s: State, step: Step)
    requires HandlesOk(s) && RegistryOk(s) && Enabled(s, step) && IsClaim(step)
    ensures HandlesOk(Apply(s, step)) && RegistryOk(Apply(s, step))
  {
    var fh, t := ClaimOf(s, step).1, Apply(s, step);
    assert t.candidates == s.candidates - {fh};
    NewFlightKeepsRegistry(s, t, fh);
  }

  lemma NewFlightKeepsRegistry(s: State, t: State, fh: Fh)
    requires HandlesOk(s) && RegistryOk(s)
    requires t.fhToIno == s.fhToIno && t.open == s.open && t.releasing == s.releasing
    requires t.candidates == s.candidates - {fh} && s.nextFh <= t.nextFh && fh < t.nextFh
    requires fh !in s.flights && fh !in s.open && fh !in s.releasing
    requires fh in t.flights && t.flights[fh].stage == Holding && t.flights == s.flights[fh := t.flights[fh]]
    ensures HandlesOk(t) && RegistryOk(t)
  {}

  lemma ProgressKeepsRegistry(s: State, step: Step)
    requires HandlesOk(s) && RegistryOk(s) && Enabled(s, step) && IsProgress(step)
    ensures HandlesOk(Apply(s, step)) && RegistryOk(Apply(s, step))
  {
    match step
    case StoreFile(fh) => StageKeepsRegistry(s, step, fh);
    case RegisterHandle(fh) => StageKeepsRegistry(s, step, fh);
    case _ => HandOverKeepsRegistry(s, step);
  }

  lemma StageKeepsRegistry(s: State, step: Step, fh: Fh)
    requires HandlesOk(s) && RegistryOk(s) && Enabled(s, step) && (step == StoreFile(fh) || step == RegisterHandle(fh))
    ensures HandlesOk(Apply(s, step)) && RegistryOk(Apply(s, step))
  {}

  lemma HandOverKeepsRegistry(s: State, step: Step)
    requires HandlesOk(s) && RegistryOk(s) && Enabled(s, step) && (step.Reply? || step.ReleaseTake?)
    ensures HandlesOk(Apply(s, step)) && RegistryOk(Apply(s, step))
  {}

  lemma OtherKeepsRegistry(s: State, step: Step)
    requires HandlesOk(s) && RegistryOk(s) && Enabled(s, step) && !IsClaim(step) && !IsProgress(step)
    ensures HandlesOk(Apply(s, step)) && RegistryOk(Apply(s, step))
  {}

  lemma ApplyKeepsRegistry(s: State, step: Step)
    requires StateOk(s) && Enabled(s, step)
    ensures HandlesOk(Apply(s, step)) && RegistryOk(Apply(s, step))
  {
    if IsClaim(step) {
      ClaimKeepsRegistry(s, step);
    } else if IsProgress(step) {
      ProgressKeepsRegistry(s, step);
    } else {
      OtherKeepsRegistry(s, step);
    }
  }

  /** A claim adds its handle to the users of its inode. */
  lemma UsersAfterClaim(s: State, step: Step, ino: Ino)
    requires HandlesOk(s) && Enabled(s, step) && IsClaim(step)
    ensures var (i, fh) := ClaimOf(s, step);
            fh !in Users(s, ino) && Users(Apply(s, step), ino) == Users(s, ino) + (if i == ino then {fh} else {})
  {}

  /** A request that moves on stays a user of its inode. */
  lemma UsersAfterProgress(s: State, step: Step, ino: Ino)
    requires HandlesOk(s) && RegistryOk(s) && Enabled(s, step) && IsProgress(step)
    ensures Users(Apply(s, step), ino) == Users(s, ino) && Apply(s, step).backings == s.backings
  {
    if step.ReleaseTake? {
      assert s.fhToIno[step.fh] == s.open[step.fh].ino;
    }
  }

  lemma UsersAfterRelease(s: State, step: Step, ino: Ino)
    requires HandlesOk(s) && Enabled(s, step) && IsRelease(step)
    ensures Users(Apply(s, step), ino) == Users(s, ino) - {step.fh}
    ensures step.fh in Users(s, ino) <==> s.releasing[step.fh] == ino
    ensures Apply(s, step).backings == Dropped(s.backings, s.releasing[step.fh])
  {}

  lemma ApplyKeepsCount(s: State, step: Step, ino: Ino)
    requires StateOk(s) && Enabled(s, step) && CreatesNewNumber(s, step)
    ensures CountOk(Apply(s, step), ino)
  {
    hide Users;
    hide Apply;
    hide Counts;
    assert CountOk(s, ino);
    if IsClaim(step) {
      var (i, fh) := ClaimOf(s, step);
      UsersAfterClaim(s, step, ino);
      ClaimShape(s, step);
      ClaimCounts(s.backings, Apply(s, step).backings, i, ino, Users(s, ino), fh);
    } else if IsProgress(step) {
      UsersAfterProgress(s, step, ino);
    } else if IsRelease(step) {
      UsersAfterRelease(s, step, ino);
      DropCounts(s.backings, s.releasing[step.fh], ino, Users(s, ino), step.fh);
    } else {
      UsersOtherwise(s, step, ino);
    }
  }

  /** Requests that hold no claim change no count. */
  lemma UsersOtherwise(s: State, step: Step, ino: Ino)
    requires Enabled(s, step) && !IsClaim(step) && !IsProgress(step) && !IsRelease(step)
    ensures Users(Apply(s, step), ino) == Users(s, ino) && Apply(s, step).backings == s.backings
  {}

  /** What the three claiming steps have in common. */
  ghost predicate ClaimsOne(b: Backings, c: Backings, ino: Ino) {
    && c.Keys == b.Keys + {ino}
    && (forall j :: j in b && j != ino ==> c[j] == b[j])
    && (if ino in b then c[ino] == Backing(b[ino].id, b[ino].count + 1) else c[ino].count == 1)
  }

  lemma ClaimShape(s: State, step: Step)
    requires Enabled(s, step) && CreatesNewNumber(s, step) && IsClaim(step)
    ensures var (ino, fh) := ClaimOf(s, step);
            var t := Apply(s, step);
            && ClaimsOne(s.backings, t.backings, ino) && t.open == s.open
            && t.flights == s.flights[fh := Flight(ino, t.backings[ino].id, Holding)]
  {}

  lemma ClaimCounts(b: Backings, c: Backings, claimed: Ino, ino: Ino, users: set<Fh>, fh: Fh)
    requires Counts(b, ino, users) && ClaimsOne(b, c, claimed) && fh !in users
    ensures Counts(c, ino, users + if claimed == ino then {fh} else {})
  {
    if claimed == ino {
      assert |users + {fh}| == |users| + 1;
    } else {
      assert users + {} == users;
      assert ino in c <==> ino in b;
    }
  }

  lemma DropCounts(b: Backings, dropped: Ino, ino: Ino, users: set<Fh>, fh: Fh)
    requires Counts(b, ino, users) && (fh in users <==> dropped == ino)
    requires dropped in b ==> b[dropped].count > 0
    ensures Counts(Dropped(b, dropped), ino, users - {fh})
  {
    if dropped == ino {
      assert |users - {fh}| == |users| - 1;
      assert users - {fh} == {} <==> |users - {fh}| == 0;
    } else {
      assert users - {fh} == users;
    }
  }

  lemma ApplyKeepsIds(s: State, step: Step)
    requires StateOk(s) && Enabled(s, step) && CreatesNewNumber(s, step)
    ensures IdsOk(Apply(s, step))
  {
    if IsClaim(step) {
      ClaimShape(s, step);
      ClaimKeepsIds(s, Apply(s, step), ClaimOf(s, step).0, ClaimOf(s, step).1);
    } else if IsRelease(step) {
      ReleaseKeepsIds(s, step);
    }
  }

  lemma ClaimKeepsIds(s: State, t: State, ino: Ino, fh: Fh)
    requires IdsOk(s) && ClaimsOne(s.backings, t.backings, ino) && t.open == s.open
    requires t.flights == s.flights[fh := Flight(ino, t.backings[ino].id, Holding)]
    ensures IdsOk(t)
  {}

  lemma ReleaseKeepsIds(s: State, step: Step)
    requires StateOk(s) && Enabled(s, step) && IsRelease(step)
    ensures IdsOk(Apply(s, step))
  {
    hide HandlesOk;
    hide RegistryOk;
    hide Apply;
    hide CountOk;
    var ino, t := s.releasing[step.fh], Apply(s, step);
    ApplyKeepsCount(s, step, ino);
    UsersHaveEntry(t, ino);
    ReleaseShape(s, step);
  }

  /** A release changes no entry but that of its inode, and not the id of that one. */
  lemma ReleaseShape(s: State, step: Step)
    requires Enabled(s, step) && IsRelease(step)
    ensures var t := Apply(s, step);
            && t.flights == s.flights && t.open == s.open && t.backings.Keys <= s.backings.Keys
            && (forall j :: j in s.backings && j != s.releasing[step.fh] ==> j in t.backings)
            && (forall j :: j in t.backings ==> t.backings[j].id == s.backings[j].id)
  {}

  lemma UsersHaveEntry(t: State, ino: Ino)
    requires CountOk(t, ino)
    ensures forall g :: g in t.flights && t.flights[g].ino == ino ==> ino in t.backings
    ensures forall g :: g in t.open && t.open[g].ino == ino ==> ino in t.backings
  {
    assert forall g :: g in t.flights && t.flights[g].ino == ino ==> g in Users(t, ino);
    assert forall g :: g in t.open && t.open[g].ino == ino ==> g in Users(t, ino);
  }

  lemma ApplyKeepsState(s: State, step: Step)
    requires StateOk(s) && Enabled(s, step) && CreatesNewNumber(s, step)
    ensures StateOk(Apply(s, step))
  {
    ApplyKeepsRegistry(s, step);
    ApplyKeepsIds(s, step);
    forall ino
      ensures CountOk(Apply(s, step), ino)
    {
      ApplyKeepsCount(s, step, ino);
    }
  }

  /** What `create` relies on: inserting over an entry that is in use would lose its count. This
      justifies the hypothesis of the runs below; that the number of a file that was just created could
      be in use is not claimed. */
  lemma CreateNeedsNewNumber(s: State, ino: Ino)
    requires StateOk(s)
    ensures StateOk(Apply(s, Create(ino))) <==> ino !in s.backings
  {
    var t := Apply(s, Create(ino));
    if ino in s.backings {
      UsersAfterClaim(s, Create(ino), ino);
      assert CountOk(s, ino);
      assert !CountOk(t, ino);
    } else {
      ApplyKeepsState(s, Create(ino));
    }
  }

  ghost predicate IsRun(run: seq<State>, steps: seq<Step>) {
    && |run| == |steps| + 1 && run[0] == START
    && forall i :: 0 <= i < |steps| ==> RunStep(run[i], steps[i], run[i + 1])
  }

  ghost predicate RunStep(s: State, step: Step, t: State) {
    Enabled(s, step) && CreatesNewNumber(s, step) && t == Apply(s, step)
  }

  lemma {:induction false} RunKeepsState(run: seq<State>, steps: seq<Step>, i: nat)
    requires IsRun(run, steps) && i < |run|
    ensures StateOk(run[i])
  {
    if i == 0 {
      forall ino
        ensures CountOk(START, ino)
      {
        assert Users(START, ino) == {};
      }
    } else {
      RunKeepsState(run, steps, i - 1);
      assert RunStep(run[i - 1], steps[i - 1], run[i - 1 + 1]);
      ApplyKeepsState(run[i - 1], steps[i - 1]);
    }
  }

  /** In every state of every interleaving all handles open on one inode share one backing id. */
  lemma OpenHandlesShareBacking(run: seq<State>, steps: seq<Step>, i: nat, a: Fh, b: Fh)
    requires IsRun(run, steps) && i < |run|
    requires a in run[i].open && b in run[i].open && run[i].open[a].ino == run[i].open[b].ino
    ensures run[i].open[a].id == run[i].open[b].id
  {
    RunKeepsState(run, steps, i);
  }

  /** The entry of an inode exists exactly as long as something uses it, with the exact count. */
  lemma EntryLivesWhileUsed(run: seq<State>, steps: seq<Step>, i: nat, ino: Ino)
    requires IsRun(run, steps) && i < |run|
    ensures ino in run[i].backings <==> Users(run[i], ino) != {}
    ensures ino in run[i].backings ==> run[i].backings[ino].count == |Users(run[i], ino)|
  {
    RunKeepsState(run, steps, i);
    assert CountOk(run[i], ino);
  }

  /** A release never finds its entry missing or at zero, and the kernel's handle is registered
      whenever it may be released. */
  lemma ReleaseNeverUnderflows(run: seq<State>, steps: seq<Step>, i: nat, fh: Fh)
    requires IsRun(run, steps) && i < |run|
    ensures fh in run[i].releasing ==>
              run[i].releasing[fh] in run[i].backings && run[i].backings[run[i].releasing[fh]].count > 0
    ensures fh in run[i].open ==> Enabled(run[i], ReleaseTake(fh))
    ensures fh in run[i].releasing ==> Enabled(run[i], ReleaseDrop(fh))
  {
    RunKeepsState(run, steps, i);
    if fh in run[i].releasing {
      var ino := run[i].releasing[fh];
      assert CountOk(run[i], ino);
      assert fh in Users(run[i], ino);
    }
  }

  // ---- Whose handle and whose backing it is ----

  /** The inode that the request asked for, at the step that gives it its handle. */
  function AskedInode(step: Step): Option<Ino> {
    match step
    case CheckHit(ino) => Some(ino)
    case BackingCreated(ino) => Some(ino)
    case Create(ino) => Some(ino)
    case _ => None
  }

  /** The inode of the request, at the step that makes a backing for it. */
  function MadeInode(step: Step): Option<Ino> {
    if step.CheckHit? then None else AskedInode(step)
  }

  /** The handles that were given out before state `i`, each with the inode that was asked for. */
  ghost function Asked(run: seq<State>, steps: seq<Step>, i: nat): set<(Fh, Ino)>
    requires |run| == |steps| + 1 && i < |run|
  {
    set j | 0 <= j < i && AskedInode(steps[j]).Some? :: (run[j].nextFh, AskedInode(steps[j]).value)
  }

  /** The backings that were made before state `i`, each with the inode it was made for. */
  ghost function Made(run: seq<State>, steps: seq<Step>, i: nat): set<(nat, Ino)>
    requires |run| == |steps| + 1 && i < |run|
  {
    set j | 0 <= j < i && MadeInode(steps[j]).Some? :: (run[j].nextId, MadeInode(steps[j]).value)
  }

  /** A handle in any stage of its life is for the inode that its request asked for, and so is the backing
      that it has; an entry has a backing that was made for its inode. */
  ghost predicate Belongs(s: State, asked: set<(Fh, Ino)>, made: set<(nat, Ino)>) {
    && (forall fh :: fh in s.candidates ==> (fh, s.candidates[fh].ino) in asked && (s.candidates[fh].id, s.candidates[fh].ino) in made)
    && (forall fh :: fh in s.flights ==> (fh, s.flights[fh].ino) in asked && (s.flights[fh].id, s.flights[fh].ino) in made)
    && (forall fh :: fh in s.open ==> (fh, s.open[fh].ino) in asked && (s.open[fh].id, s.open[fh].ino) in made)
    && (forall fh :: fh in s.releasing ==> (fh, s.releasing[fh]) in asked)
    && (forall ino :: ino in s.backings ==> (s.backings[ino].id, ino) in made)
  }

  lemma MoreBelong(s: State, asked: set<(Fh, Ino)>, made: set<(nat, Ino)>, asked': set<(Fh, Ino)>, made': set<(nat, Ino)>)
    requires Belongs(s, asked, made) && asked <= asked' && made <= made'
    ensures Belongs(s, asked', made')
  {}

  lemma ApplyKeepsBelongings(s: State, step: Step, asked: set<(Fh, Ino)>, made: set<(nat, Ino)>)
    requires RegistryOk(s) && IdsOk(s) && Enabled(s, step) && Belongs(s, asked, made)
    requires AskedInode(step).Some? ==> (s.nextFh, AskedInode(step).value) in asked
    requires MadeInode(step).Some? ==> (s.nextId, MadeInode(step).value) in made
    ensures Belongs(Apply(s, step), asked, made)
  {
    if IsClaim(step) {
      ClaimBelongs(s, step, asked, made);
    } else if IsProgress(step) {
      ProgressBelongs(s, step, asked, made);
    }
  }

  lemma ClaimBelongs(s: State, step: Step, asked: set<(Fh, Ino)>, made: set<(nat, Ino)>)
    requires IsClaim(step) && Enabled(s, step) && Belongs(s, asked, made)
    requires AskedInode(step).Some? ==> (s.nextFh, AskedInode(step).value) in asked
    requires MadeInode(step).Some? ==> (s.nextId, MadeInode(step).value) in made
    ensures Belongs(Apply(s, step), asked, made)
  {}

  lemma ProgressBelongs(s: State, step: Step, asked: set<(Fh, Ino)>, made: set<(nat, Ino)>)
    requires IsProgress(step) && RegistryOk(s) && Enabled(s, step) && Belongs(s, asked, made)
    ensures Belongs(Apply(s, step), asked, made)
  {
    if step.ReleaseTake? {
      assert s.fhToIno[step.fh] == s.open[step.fh].ino;
    }
  }

  /** What has been given out and made stays on record, with what the last step adds. */
  lemma RecordsGrow(run: seq<State>, steps: seq<Step>, i: nat)
    requires |run| == |steps| + 1 && 0 < i < |run|
    ensures Asked(run, steps, i) == Asked(run, steps, i - 1) +
            if AskedInode(steps[i - 1]).Some? then {(run[i - 1].nextFh, AskedInode(steps[i - 1]).value)} else {}
    ensures Made(run, steps, i) == Made(run, steps, i - 1) +
            if MadeInode(steps[i - 1]).Some? then {(run[i - 1].nextId, MadeInode(steps[i - 1]).value)} else {}
  {}

  lemma {:induction false} RunKeepsBelongings(run: seq<State>, steps: seq<Step>, i: nat)
    requires IsRun(run, steps) && i < |run|
    ensures Belongs(run[i], Asked(run, steps, i), Made(run, steps, i))
  {
    if i > 0 {
      hide Apply;
      hide Belongs;
      hide Asked;
      hide Made;
      RunKeepsBelongings(run, steps, i - 1);
      RunKeepsState(run, steps, i - 1);
      RecordsGrow(run, steps, i);
      assert RunStep(run[i - 1], steps[i - 1], run[i - 1 + 1]);
      MoreBelong(run[i - 1], Asked(run, steps, i - 1), Made(run, steps, i - 1), Asked(run, steps, i), Made(run, steps, i));
      ApplyKeepsBelongings(run[i - 1], steps[i - 1], Asked(run, steps, i), Made(run, steps, i));
    }
  }

  lemma ApplyGrows(s: State, step: Step)
    requires Enabled(s, step)
    ensures s.nextFh <= Apply(s, step).nextFh && s.nextId <= Apply(s, step).nextId
    ensures AskedInode(step).Some? ==> s.nextFh < Apply(s, step).nextFh
    ensures MadeInode(step).Some? ==> s.nextId < Apply(s, step).nextId
  {}

  /** Handles and ids are given out in order, each of them once. */
  lemma {:induction false} NumbersGrow(run: seq<State>, steps: seq<Step>, j: nat, k: nat)
    requires IsRun(run, steps) && j < k < |run|
    ensures run[j].nextFh <= run[k].nextFh && run[j].nextId <= run[k].nextId
    ensures AskedInode(steps[j]).Some? ==> run[j].nextFh < run[k].nextFh
    ensures MadeInode(steps[j]).Some? ==> run[j].nextId < run[k].nextId
    decreases k
  {
    hide Apply;
    hide AskedInode;
    hide MadeInode;
    assert RunStep(run[k - 1], steps[k - 1], run[k - 1 + 1]);
    ApplyGrows(run[k - 1], steps[k - 1]);
    if j < k - 1 {
      NumbersGrow(run, steps, j, k - 1);
    }
  }

  /** No handle is given out, and no id made, for two inodes. */
  lemma OneInodeEach(run: seq<State>, steps: seq<Step>, i: nat, x: nat, a: Ino, b: Ino)
    requires IsRun(run, steps) && i < |run|
    ensures (x, a) in Asked(run, steps, i) && (x, b) in Asked(run, steps, i) ==> a == b
    ensures (x, a) in Made(run, steps, i) && (x, b) in Made(run, steps, i) ==> a == b
  {
    hide AskedInode;
    hide MadeInode;
    forall j, k | 0 <= j < k < i
      ensures AskedInode(steps[j]).Some? ==> run[j].nextFh < run[k].nextFh
      ensures MadeInode(steps[j]).Some? ==> run[j].nextId < run[k].nextId
    {
      NumbersGrow(run, steps, j, k);
    }
  }

  /** In every state of every interleaving: a handle, from the step that gives it out to its release, is for
      the inode that its own open or create asked for and for no other, and its backing is one that was made
      for that inode and for no other. */
  lemma HandleIsForWhatWasAsked(run: seq<State>, steps: seq<Step>, i: nat, fh: Fh, ino: Ino)
    requires IsRun(run, steps) && i < |run|
    ensures var s, asked, made := run[i], Asked(run, steps, i), Made(run, steps, i);
            && (fh in s.candidates ==> (s.candidates[fh].ino == ino <==> (fh, ino) in asked) && (s.candidates[fh].ino == ino <==> (s.candidates[fh].id, ino) in made))
            && (fh in s.flights ==> (s.flights[fh].ino == ino <==> (fh, ino) in asked) && (s.flights[fh].ino == ino <==> (s.flights[fh].id, ino) in made))
            && (fh in s.open ==> (s.open[fh].ino == ino <==> (fh, ino) in asked) && (s.open[fh].ino == ino <==> (s.open[fh].id, ino) in made))
            && (fh in s.releasing ==> (s.releasing[fh] == ino <==> (fh, ino) in asked))
  {
    hide Asked;
    hide Made;
    RunKeepsBelongings(run, steps, i);
    forall x: nat, a: Ino
      ensures (x, a) in Asked(run, steps, i) && (x, ino) in Asked(run, steps, i) ==> a == ino
      ensures (x, a) in Made(run, steps, i) && (x, ino) in Made(run, steps, i) ==> a == ino
    {
      OneInodeEach(run, steps, i, x, a, ino);
    }
  }

  /** A backing serves one inode: handles and entries with the same id have the same inode. */
  lemma BackingServesOneInode(run: seq<State>, steps: seq<Step>, i: nat, a: Fh, b: Fh, ino: Ino)
    requires IsRun(run, steps) && i < |run| && a in run[i].open
    ensures var s := run[i];
            && (b in s.open && s.open[b].id == s.open[a].id ==> s.open[b].ino == s.open[a].ino)
            && (b in s.flights && s.flights[b].id == s.open[a].id ==> s.flights[b].ino == s.open[a].ino)
            && (ino in s.backings ==> (s.backings[ino].id == s.open[a].id <==> ino == s.open[a].ino))
  {
    hide Asked;
    hide Made;
    RunKeepsBelongings(run, steps, i);
    RunKeepsState(run, steps, i);
    var h := run[i].open[a];
    HandleIsForWhatWasAsked(run, steps, i, a, ino);
    if b in run[i].open {
      OneInodeEach(run, steps, i, h.id, h.ino, run[i].open[b].ino);
    }
    if b in run[i].flights {
      OneInodeEach(run, steps, i, h.id, h.ino, run[i].flights[b].ino);
    }
  }

  /** The requests that wait for a backing are those that asked and saw none, and have not been answered. */
  lemma {:induction false} WaitingAskedAndSawNone(run: seq<State>, steps: seq<Step>, i: nat, ino: Ino)
    requires IsRun(run, steps) && i < |run|
    ensures var past := multiset(steps[..i]);
            past[CheckMiss(ino)] == run[i].waiting[ino] + past[BackingCreated(ino)] + past[BackingRefused(ino)]
  {
    if i > 0 {
      WaitingAskedAndSawNone(run, steps, i - 1, ino);
      assert steps[..i] == steps[..i - 1] + [steps[i - 1]];
      assert RunStep(run[i - 1], steps[i - 1], run[i - 1 + 1]);
    }
  }
}
