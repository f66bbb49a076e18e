/**
  Leases: a small record under one key, taken by creating it or by overwriting an expired
  one, extended by a conditional write and given back by a conditional delete.

  The protocol is a state machine. Every await point of the code is a step boundary, so
  reading the clock, reading the record and writing it are three separate steps, a request
  may be applied after its sender gave up, and any mutation may meet any `Fault`.
 */
module Lease {
  import opened Prelude
  import opened VersionedStore
  import Runs

  /** A lease may be taken over only this long after its expiry (milliseconds). */
  const SKEW_TOLERANCE: int := 2000

  const UNIX_EPOCH: int := 0

  datatype LeaseRecord = LeaseRecord(holder: string, purpose: string, expiresAt: Option<int>, epoch: nat)

  datatype Guard = Guard(holder: string, purpose: string, version: nat, expiresAt: int, epoch: nat)

  datatype AcquireResult = Acquired(guard: Guard) | HeldByOther | AcquireFailed(error: StoreError)

  datatype BeatResult = Extended | LeaseLost | BeatFailed(error: StoreError)

  function Expiry(lease: LeaseRecord): int {
    if lease.expiresAt.Some? then lease.expiresAt.value else UNIX_EPOCH
  }

  function MakeLease(holder: string, purpose: string, now: int, ttl: int, epoch: nat): LeaseRecord {
    LeaseRecord(holder, purpose, Some(now + ttl), epoch)
  }

  // ---------------------------------------------------------------------------
  // The write halves of the operations, as functions of the register
  // ---------------------------------------------------------------------------

  /** The write half of `try_acquire`, for a caller that read `now` and then `seen`. */
  function AcquireWrite(register: Register<LeaseRecord>, seen: Option<Object<LeaseRecord>>,
                        holder: string, purpose: string, now: int, ttl: int, fault: Fault)
    : (Register<LeaseRecord>, AcquireResult)
  {
    if seen.Some? && now < Expiry(seen.value.value) + SKEW_TOLERANCE then
      (register, HeldByOther)
    else
      var mode := if seen.Some? then Update(seen.value.version) else Create;
      var epoch := if seen.Some? then seen.value.value.epoch + 1 else 0;
      var put := FaultyPut(register, mode, MakeLease(holder, purpose, now, ttl, epoch), fault);
      match put.result
      case Ok(version) => (put.register, Acquired(Guard(holder, purpose, version, now + ttl, epoch)))
      case Err(PreconditionFailed) => (put.register, HeldByOther)
      case Err(error) => (put.register, AcquireFailed(error))
  }

  /** The record can be taken: there is none, or it expired at least two seconds ago; one without an
      expiry expired at the epoch. */
  predicate Takeable(record: Option<Object<LeaseRecord>>, now: int) {
    match record
    case None => true
    case Some(Object(_, LeaseRecord(_, _, Some(expiry), _))) => expiry + 2000 <= now
    case Some(Object(_, LeaseRecord(_, _, None, _))) => 2000 <= now
  }

  /** The write half of `heartbeat`; `guard.epoch` was already incremented. */
  function BeatWrite(register: Register<LeaseRecord>, guard: Guard, now: int, ttl: int, fault: Fault)
    : (Register<LeaseRecord>, Guard, BeatResult)
  {
    var lease := MakeLease(guard.holder, guard.purpose, now, ttl, guard.epoch);
    var put := FaultyPut(register, Update(guard.version), lease, fault);
    match put.result
    case Ok(version) => (put.register, guard.(version := version, expiresAt := now + ttl), Extended)
    case Err(PreconditionFailed) => (put.register, guard, LeaseLost)
    case Err(error) => (put.register, guard, BeatFailed(error))
  }

  // ---------------------------------------------------------------------------
  // The protocol
  // ---------------------------------------------------------------------------

  /** A `try_acquire` in progress: `seen` is set once the record has been read. */
  datatype Attempt = Attempt(proc: nat, holder: string, purpose: string, now: int, ttl: int,
                             seen: Option<Option<Object<LeaseRecord>>>)

  /** A heartbeat in flight. */
  datatype Beat = Beat(now: int, ttl: int)

  /** A guard handed out to a process, with the ttl its expiry was computed from. */
  datatype Holder = Holder(proc: nat, guard: Guard, ttl: int, beat: Option<Beat>, released: bool)

  /** `author` records which attempt produced each version written through the protocol. */
  datatype State = State(
    clocks: seq<int>,
    register: Register<LeaseRecord>,
    attempts: map<nat, Attempt>,
    holders: map<nat, Holder>,
    author: map<nat, nat>,
    nextId: nat)

  datatype Step =
    | Tick(clocks: seq<int>)
    | ElsewhereInBucket(writes: nat)
    | ReadClock(proc: nat, holder: string, purpose: string, ttl: int)
    | ReadRecord(id: nat)
    | WriteRecord(id: nat, fault: Fault)
    | BeatStart(id: nat, ttl: int)
    | BeatFinish(id: nat, fault: Fault)
    | LetGo(id: nat)
    | DeleteRecord(id: nat, fault: Fault)

  /** Any two clocks are at most two seconds apart. */
  predicate ClocksAgree(clocks: seq<int>) {
    forall i, j | 0 <= i < |clocks| && 0 <= j < |clocks| :: clocks[i] - clocks[j] <= 2000
  }

  /** What the environment promises: clocks never run backwards and stay within two seconds
      of one another, and a heartbeat never asks for less time than the guard
      already has. Everything else may happen in any order. */
  predicate Enabled(s: State, step: Step) {
    match step
    case Tick(clocks) =>
      && |clocks| == |s.clocks|
      && ClocksAgree(clocks)
      && (forall i | 0 <= i < |clocks| :: s.clocks[i] <= clocks[i])
    case ElsewhereInBucket(_) => true
    case ReadClock(proc, _, _, _) => proc < |s.clocks|
    case ReadRecord(id) => id in s.attempts && s.attempts[id].seen.None?
    case WriteRecord(id, _) => id in s.attempts && s.attempts[id].seen.Some?
    case BeatStart(id, ttl) =>
      && id in s.holders && s.holders[id].proc < |s.clocks|
      && !s.holders[id].released && s.holders[id].beat.None? && s.holders[id].ttl <= ttl
    case BeatFinish(id, _) => id in s.holders && s.holders[id].beat.Some?
    case LetGo(id) => id in s.holders
    case DeleteRecord(id, _) => id in s.holders && s.holders[id].released
  }

  /** The register after `id` wrote it: a new version is credited to `id`. */
  function Credit(s: State, register: Register<LeaseRecord>, id: nat): map<nat, nat> {
    if register.counter > s.register.counter then s.author[register.counter := id] else s.author
  }

  function Apply(s: State, step: Step): State
    requires Enabled(s, step)
  {
    match step
    case Tick(clocks) => s.(clocks := clocks)
    case ElsewhereInBucket(writes) => s.(register := s.register.(counter := s.register.counter + writes))
    case ReadClock(proc, holder, purpose, ttl) =>
      s.(attempts := s.attempts[s.nextId := Attempt(proc, holder, purpose, s.clocks[proc], ttl, None)],
         nextId := s.nextId + 1)
    case ReadRecord(id) =>
      s.(attempts := s.attempts[id := s.attempts[id].(seen := Some(s.register.slot))])
    case WriteRecord(id, fault) =>
      var a := s.attempts[id];
      var (register, result) := AcquireWrite(s.register, a.seen.value, a.holder, a.purpose, a.now, a.ttl, fault);
      s.(register := register, attempts := s.attempts - {id}, author := Credit(s, register, id),
         holders := if result.Acquired? then s.holders[id := Holder(a.proc, result.guard, a.ttl, None, false)]
                    else s.holders)
    case BeatStart(id, ttl) =>
      var h := s.holders[id];
      s.(holders := s.holders[id := h.(guard := h.guard.(epoch := h.guard.epoch + 1),
                                       beat := Some(Beat(s.clocks[h.proc], ttl)))])
    case BeatFinish(id, fault) =>
      var h := s.holders[id];
      var (register, guard, result) := BeatWrite(s.register, h.guard, h.beat.value.now, h.beat.value.ttl, fault);
      s.(register := register, author := Credit(s, register, id),
         holders := s.holders[id := h.(guard := guard, beat := None,
                                       ttl := if result.Extended? then h.beat.value.ttl else h.ttl)])
    case LetGo(id) => s.(holders := s.holders[id := s.holders[id].(released := true)])
    case DeleteRecord(id, fault) =>
      s.(register := FaultyDelete(s.register, Some(s.holders[id].guard.version), fault).register)
  }

  /** Any record may already be stored, written by something outside this run. */
  predicate Init(s: State) {
    && ClocksAgree(s.clocks)
    && Sound(s.register)
    && s.attempts == map[] && s.holders == map[] && s.author == map[]
  }

  ghost predicate Next(s: State, t: State) {
    exists step :: Enabled(s, step) && t == Apply(s, step)
  }

  ghost predicate IsRun(run: seq<State>) {
    Runs.IsRun(Init, Next, run)
  }

  /** The holder believes it still has the lease: not let go, and not expired on its own clock. */
  predicate Live(s: State, id: nat) {
    && id in s.holders
    && !s.holders[id].released
    && s.holders[id].proc < |s.clocks|
    && s.clocks[s.holders[id].proc] < s.holders[id].guard.expiresAt
  }

  // ---------------------------------------------------------------------------
  // The invariant
  // ---------------------------------------------------------------------------

  predicate AttemptOk(s: State, a: Attempt) {
    && a.proc < |s.clocks|
    && a.now <= s.clocks[a.proc]
    && (a.seen.Some? && a.seen.value.Some? ==>
          && a.seen.value.value.version <= s.register.counter
          && (Holds(s.register, a.seen.value.value.version) ==> s.register.slot == a.seen.value))
  }

  predicate HolderOk(s: State, id: nat, h: Holder) {
    && h.proc < |s.clocks|
    && h.guard.version <= s.register.counter
    && h.guard.version in s.author && s.author[h.guard.version] == id
    && h.guard.expiresAt - h.ttl <= s.clocks[h.proc]
    && (h.beat.Some? ==>
          h.beat.value.now <= s.clocks[h.proc] && h.guard.expiresAt <= h.beat.value.now + h.beat.value.ttl)
    && (Holds(s.register, h.guard.version) ==>
          s.register.slot.value.value.epoch + (if h.beat.Some? then 1 else 0) <= h.guard.epoch)
  }

  /** A live holder's own record is the one stored, and it expires no earlier than the guard. */
  predicate Protected(s: State, id: nat)
    requires id in s.holders
  {
    && s.register.slot.Some?
    && s.register.slot.value.version in s.author
    && s.author[s.register.slot.value.version] == id
    && s.holders[id].guard.expiresAt <= Expiry(s.register.slot.value.value)
  }

  ghost predicate Frame(s: State) {
    && ClocksAgree(s.clocks)
    && Sound(s.register)
    && (forall v | v in s.author :: v <= s.register.counter)
    && (forall id | id in s.attempts :: id < s.nextId && id !in s.holders)
    && (forall id | id in s.holders :: id < s.nextId)
  }

  ghost predicate Inv(s: State) {
    && Frame(s)
    && (forall id | id in s.attempts :: AttemptOk(s, s.attempts[id]))
    && (forall id | id in s.holders :: HolderOk(s, id, s.holders[id]))
    && (forall id | id in s.holders :: Live(s, id) ==> Protected(s, id))
  }

  /** Taking over an expired record is safe: nobody can still believe in it. */
  lemma NobodyLiveAtTakeover(s: State, id: nat, fault: Fault, other: nat)
    requires Inv(s) && Enabled(s, WriteRecord(id, fault))
    requires Apply(s, WriteRecord(id, fault)).register != s.register
    ensures !Live(s, other)
  {
    if other in s.holders && Protected(s, other) {
      var a := s.attempts[id];
      assert AttemptOk(s, a) && HolderOk(s, other, s.holders[other]);
      assert s.clocks[a.proc] - s.clocks[s.holders[other].proc] <= 2000;
    }
  }

  lemma AttemptStaysOk(s: State, step: Step, id: nat)
    requires Inv(s) && Enabled(s, step)
    requires id in Apply(s, step).attempts
    ensures AttemptOk(Apply(s, step), Apply(s, step).attempts[id])
  {
    if id in s.attempts {
      assert AttemptOk(s, s.attempts[id]);
      OldAttemptStaysOk(s, step, id);
    }
  }

  lemma OldAttemptStaysOk(s: State, step: Step, id: nat)
    requires Frame(s) && Enabled(s, step) && id in s.attempts && AttemptOk(s, s.attempts[id])
    requires id in Apply(s, step).attempts
    ensures AttemptOk(Apply(s, step), Apply(s, step).attempts[id])
  {
  }

  lemma HolderOkAfterWrite(s: State, writer: nat, fault: Fault, id: nat)
    requires Inv(s) && Enabled(s, WriteRecord(writer, fault))
    requires id in Apply(s, WriteRecord(writer, fault)).holders
    ensures var t := Apply(s, WriteRecord(writer, fault)); HolderOk(t, id, t.holders[id])
  {
    if id in s.holders {
      assert HolderOk(s, id, s.holders[id]);
      OtherHolderOkAfterWrite(s, writer, fault, id);
    } else {
      assert AttemptOk(s, s.attempts[writer]);
    }
  }

  lemma OtherHolderOkAfterWrite(s: State, writer: nat, fault: Fault, id: nat)
    requires Frame(s) && Enabled(s, WriteRecord(writer, fault))
    requires id in s.holders && HolderOk(s, id, s.holders[id])
    ensures var t := Apply(s, WriteRecord(writer, fault)); t.holders[id] == s.holders[id] && HolderOk(t, id, t.holders[id])
  {
  }

  lemma HolderOkAfterBeat(s: State, writer: nat, fault: Fault, id: nat)
    requires Inv(s) && Enabled(s, BeatFinish(writer, fault))
    requires id in s.holders
    ensures var t := Apply(s, BeatFinish(writer, fault)); HolderOk(t, id, t.holders[id])
  {
    assert HolderOk(s, writer, s.holders[writer]);
    assert HolderOk(s, id, s.holders[id]);
  }

  lemma HolderStaysOk(s: State, step: Step, id: nat)
    requires Inv(s) && Enabled(s, step)
    requires id in Apply(s, step).holders
    ensures HolderOk(Apply(s, step), id, Apply(s, step).holders[id])
  {
    match step
    case WriteRecord(writer, fault) => HolderOkAfterWrite(s, writer, fault, id);
    case BeatFinish(writer, fault) => HolderOkAfterBeat(s, writer, fault, id);
    case _ =>
      assert HolderOk(s, id, s.holders[id]);
      HolderOkAfterQuiet(s, step, id);
  }

  lemma HolderOkAfterQuiet(s: State, step: Step, id: nat)
    requires Frame(s) && Enabled(s, step) && !step.WriteRecord? && !step.BeatFinish?
    requires id in s.holders && HolderOk(s, id, s.holders[id])
    ensures var t := Apply(s, step); id in t.holders && HolderOk(t, id, t.holders[id])
  {
  }

  lemma LiveStaysProtected(s: State, step: Step, id: nat)
    requires Inv(s) && Enabled(s, step)
    requires Live(Apply(s, step), id)
    ensures Protected(Apply(s, step), id)
  {
    match step
    case WriteRecord(writer, fault) => LiveAfterWrite(s, writer, fault, id);
    case BeatFinish(writer, fault) => LiveAfterBeat(s, writer, fault, id);
    case DeleteRecord(owner, fault) => LiveAfterDelete(s, owner, fault, id);
    case _ => assert Protected(s, id) by {
      assert Live(s, id);
    }
  }

  lemma LiveAfterWrite(s: State, writer: nat, fault: Fault, id: nat)
    requires Inv(s) && Enabled(s, WriteRecord(writer, fault)) && Live(Apply(s, WriteRecord(writer, fault)), id)
    ensures Protected(Apply(s, WriteRecord(writer, fault)), id)
  {
    if Live(s, id) {
      assert Protected(s, id);
      if Apply(s, WriteRecord(writer, fault)).register != s.register {
        NobodyLiveAtTakeover(s, writer, fault, id);
      }
    }
  }

  lemma LiveAfterBeat(s: State, writer: nat, fault: Fault, id: nat)
    requires Inv(s) && Enabled(s, BeatFinish(writer, fault)) && Live(Apply(s, BeatFinish(writer, fault)), id)
    ensures Protected(Apply(s, BeatFinish(writer, fault)), id)
  {
    assert HolderOk(s, writer, s.holders[writer]);
    if Live(s, id) {
      assert Protected(s, id);
      assert HolderOk(s, id, s.holders[id]);
    }
  }

  lemma LiveAfterDelete(s: State, owner: nat, fault: Fault, id: nat)
    requires Inv(s) && Enabled(s, DeleteRecord(owner, fault)) && Live(s, id)
    ensures Protected(Apply(s, DeleteRecord(owner, fault)), id)
  {
    assert Protected(s, id) && HolderOk(s, owner, s.holders[owner]);
  }

  lemma FrameStays(s: State, step: Step)
    requires Frame(s) && Enabled(s, step)
    ensures Frame(Apply(s, step))
  {
  }

  lemma StepKeepsInv(s: State, step: Step, t: State)
    requires Inv(s) && Enabled(s, step) && t == Apply(s, step)
    ensures Inv(t)
  {
    FrameStays(s, step);
    forall id | id in t.attempts ensures AttemptOk(t, t.attempts[id]) {
      AttemptStaysOk(s, step, id);
    }
    forall id | id in t.holders ensures HolderOk(t, id, t.holders[id]) {
      HolderStaysOk(s, step, id);
    }
    forall id | id in t.holders && Live(t, id) ensures Protected(t, id) {
      LiveStaysProtected(s, step, id);
    }
  }

  lemma Inductive()
    ensures forall s :: Init(s) ==> Inv(s)
    ensures forall s, t :: Inv(s) && Next(s, t) ==> Inv(t)
  {
    forall s, t | Inv(s) && Next(s, t) ensures Inv(t) {
      var step :| Enabled(s, step) && t == Apply(s, step);
      StepKeepsInv(s, step, t);
    }
  }

  // ---------------------------------------------------------------------------
  // The theorems
  // ---------------------------------------------------------------------------

  /** Exclusion: at every moment of every run at most one holder is live, and the stored
      record outlasts its guard. */
  lemma AtMostOneLive(run: seq<State>, i: nat, a: nat, b: nat)
    requires IsRun(run) && i < |run|
    requires Live(run[i], a) && Live(run[i], b)
    ensures a == b
    ensures run[i].register.slot.Some?
    ensures run[i].holders[a].guard.expiresAt <= Expiry(run[i].register.slot.value.value)
  {
    Inductive();
    Runs.Always(Init, Next, Inv, run, i);
    assert Protected(run[i], a) && Protected(run[i], b);
  }

  /** A holder whose version is no longer the stored one has been taken over (or lost track
      of its own last write). */
  predicate Superseded(s: State, id: nat) {
    id in s.holders && !Holds(s.register, s.holders[id].guard.version)
  }

  lemma StaysSuperseded(s: State, step: Step, id: nat)
    requires Inv(s) && Enabled(s, step) && Superseded(s, id)
    ensures Superseded(Apply(s, step), id)
  {
    assert HolderOk(s, id, s.holders[id]);
  }

  /** Once superseded, always superseded. */
  lemma SupersededForever(run: seq<State>, i: nat, j: nat, id: nat)
    requires IsRun(run) && i <= j < |run|
    requires Superseded(run[i], id)
    ensures Superseded(run[j], id)
  {
    Inductive();
    forall s, t | Inv(s) && Superseded(s, id) && Next(s, t) ensures Superseded(t, id) {
      var step :| Enabled(s, step) && t == Apply(s, step);
      StaysSuperseded(s, step, id);
    }
    Runs.Henceforth(Init, Next, Inv, (s: State) => Superseded(s, id), run, i, j);
  }

  /** From the moment it is superseded, whatever a holder still tries changes nothing. */
  lemma SupersededIsPowerless(run: seq<State>, i: nat, j: nat, id: nat, fault: Fault)
    requires IsRun(run) && i <= j < |run|
    requires Superseded(run[i], id)
    ensures Enabled(run[j], BeatFinish(id, fault)) ==>
              Apply(run[j], BeatFinish(id, fault)).register == run[j].register
    ensures Enabled(run[j], DeleteRecord(id, fault)) ==>
              Apply(run[j], DeleteRecord(id, fault)).register == run[j].register
  {
    SupersededForever(run, i, j, id);
  }

  predicate Stored(s: State) {
    s.register.slot.Some?
  }

  /** The same record, or a later one with a strictly larger epoch. */
  predicate EpochRose(s: State, t: State) {
    Stored(s) && Stored(t) ==>
      var before, after := s.register.slot.value, t.register.slot.value;
      after == before || (before.version < after.version && before.value.epoch < after.value.epoch)
  }

  lemma StepRaisesEpoch(s: State, step: Step)
    requires Inv(s) && Enabled(s, step)
    ensures EpochRose(s, Apply(s, step))
  {
    match step
    case WriteRecord(id, fault) =>
      assert AttemptOk(s, s.attempts[id]);
      WriteRaisesEpoch(s, id, fault);
    case BeatFinish(id, fault) =>
      assert HolderOk(s, id, s.holders[id]);
      BeatRaisesEpoch(s, id, fault);
    case _ =>
      QuietKeepsRecord(s, step);
  }

  lemma WriteRaisesEpoch(s: State, id: nat, fault: Fault)
    requires Sound(s.register) && Enabled(s, WriteRecord(id, fault)) && AttemptOk(s, s.attempts[id])
    ensures EpochRose(s, Apply(s, WriteRecord(id, fault)))
  {
  }

  lemma BeatRaisesEpoch(s: State, id: nat, fault: Fault)
    requires Sound(s.register) && Enabled(s, BeatFinish(id, fault)) && HolderOk(s, id, s.holders[id])
    ensures EpochRose(s, Apply(s, BeatFinish(id, fault)))
  {
  }

  lemma QuietKeepsRecord(s: State, step: Step)
    requires Enabled(s, step) && !step.WriteRecord? && !step.BeatFinish?
    ensures EpochRose(s, Apply(s, step))
  {
  }

  /** While the key exists, every new version carries a strictly larger epoch. */
  lemma EpochRisesBetweenDeletions(run: seq<State>, i: nat, j: nat)
    requires IsRun(run) && i <= j < |run|
    requires forall k | i <= k <= j :: Stored(run[k])
    ensures EpochRose(run[i], run[j])
  {
    Inductive();
    forall r, s, t | Inv(s) && Stored(s) && Stored(t) && EpochRose(r, s) && Next(s, t) ensures EpochRose(r, t) {
      var step :| Enabled(s, step) && t == Apply(s, step);
      StepRaisesEpoch(s, step);
    }
    Runs.Throughout(Init, Next, Inv, Stored, EpochRose, run, i, j);
  }

  // ---------------------------------------------------------------------------
  // A lease that changes hands
  // ---------------------------------------------------------------------------

  ghost predicate Ends(run: seq<State>, s: State) {
    IsRun(run) && run[|run| - 1] == s
  }

  lemma Extend(run: seq<State>, s: State, step: Step) returns (longer: seq<State>)
    requires Ends(run, s) && Enabled(s, step)
    ensures Ends(longer, Apply(s, step))
  {
    longer := run + [Apply(s, step)];
    assert Next(s, Apply(s, step));
    forall i | 0 < i < |longer| ensures Next(longer[i - 1], longer[i]) {
      assert i < |run| ==> longer[i - 1] == run[i - 1] && longer[i] == run[i];
    }
  }

  /** One undisturbed acquire, from the clock to the write. */
  lemma Acquire(run: seq<State>, s: State, proc: nat, holder: string, ttl: int) returns (longer: seq<State>, t: State)
    requires Ends(run, s) && proc < |s.clocks| && s.nextId !in s.attempts && Takeable(s.register.slot, s.clocks[proc])
    ensures Ends(longer, t) && t.clocks == s.clocks && t.nextId == s.nextId + 1 && t.attempts == s.attempts
    ensures var epoch := if s.register.slot.Some? then s.register.slot.value.value.epoch + 1 else 0;
            var version, expiry := s.register.counter + 1, s.clocks[proc] + ttl;
            && t.register == Register(Some(Object(version, LeaseRecord(holder, "", Some(expiry), epoch))), version)
            && t.holders == s.holders[s.nextId := Holder(proc, Guard(holder, "", version, expiry, epoch), ttl, None, false)]
  {
    var id := s.nextId;
    var s1 := Apply(s, ReadClock(proc, holder, "", ttl));
    var s2 := Apply(s1, ReadRecord(id));
    longer := Extend(run, s, ReadClock(proc, holder, "", ttl));
    longer := Extend(longer, s1, ReadRecord(id));
    longer := Extend(longer, s2, WriteRecord(id, Proceed));
    t := Apply(s2, WriteRecord(id, Proceed));
    assert t.attempts == s.attempts;
  }

  /** An undisturbed heartbeat extends the lease from the clock of its holder; an undisturbed release
      ends it. */
  lemma UndisturbedGuard(s: State, id: nat, ttl: int)
    requires Enabled(s, BeatStart(id, ttl)) && Holds(s.register, s.holders[id].guard.version)
    ensures var begun := Apply(s, BeatStart(id, ttl));
            && Enabled(begun, BeatFinish(id, Proceed))
            && var t, expiry := Apply(begun, BeatFinish(id, Proceed)), s.clocks[s.holders[id].proc] + ttl;
               && t.holders[id].guard.expiresAt == expiry && t.holders[id].guard.epoch == s.holders[id].guard.epoch + 1
               && Holds(t.register, t.holders[id].guard.version) && t.register.slot.value.value.expiresAt == Some(expiry)
    ensures var gone := Apply(s, LetGo(id));
            && Enabled(gone, DeleteRecord(id, Proceed)) && !Live(gone, id)
            && Apply(gone, DeleteRecord(id, Proceed)).register.slot.None?
  {
  }

  /** A run in which a lease is taken, runs out at 1000, and is taken over by another process at 3000
      and not before; the first guard is dead and the epoch has moved. */
  lemma LeaseChangesHands() returns (run: seq<State>)
    ensures IsRun(run)
    ensures var s := run[|run| - 1];
            && Live(s, 1) && 0 in s.holders && !Live(s, 0) && s.clocks == [3000, 3000]
            && s.holders[0].guard.expiresAt == 1000 && s.holders[1].guard.epoch == 1
  {
    var start := State([0, 0], Register(None, 0), map[], map[], map[], 0);
    run := [start];
    var first, second, later;
    run, first := Acquire(run, start, 0, "a", 1000);
    run := Extend(run, first, Tick([3000, 3000]));
    later := Apply(first, Tick([3000, 3000]));
    run, second := Acquire(run, later, 1, "b", 1000);
  }

  // ---------------------------------------------------------------------------
  // The guard as the object the server holds
  // ---------------------------------------------------------------------------

  /** The write half of `try_acquire`, on the store: `now` and `seen` were read earlier. */
  method AcquireFrom(store: MemoryStore<string, LeaseRecord>, key: string, seen: Option<Object<LeaseRecord>>,
                     holder: string, purpose: string, now: int, ttl: int, fault: Fault) returns (r: AcquireResult)
    requires store.Valid()
    modifies store
    ensures store.Valid()
    ensures (store.At(key), r) == AcquireWrite(old(store.At(key)), seen, holder, purpose, now, ttl, fault)
    ensures store.SameElsewhere(old(store.objects), key)
  {
    var epoch: nat := 0;
    var mode := Create;
    match seen {
      case None =>
      case Some(existing) =>
        if now < Expiry(existing.value) + SKEW_TOLERANCE {
          return HeldByOther;
        }
        epoch := existing.value.epoch + 1;
        mode := Update(existing.version);
    }
    var put := store.PutThrough(key, mode, MakeLease(holder, purpose, now, ttl, epoch), fault);
    match put
    case Ok(version) => r := Acquired(Guard(holder, purpose, version, now + ttl, epoch));
    case Err(PreconditionFailed) => r := HeldByOther;
    case Err(error) => r := AcquireFailed(error);
  }

  /** What a returned guard means for the record and for what was read. */
  lemma AcquiredMeans(register: Register<LeaseRecord>, seen: Option<Object<LeaseRecord>>, holder: string, purpose: string,
                      now: int, ttl: int, fault: Fault)
    requires AcquireWrite(register, seen, holder, purpose, now, ttl, fault).1.Acquired?
    ensures var (next, r) := AcquireWrite(register, seen, holder, purpose, now, ttl, fault);
            && Holds(next, r.guard.version) && r.guard.version == register.counter + 1
            && next.slot.value.value == LeaseRecord(holder, purpose, Some(now + ttl), r.guard.epoch)
            && r.guard == Guard(holder, purpose, r.guard.version, now + ttl, if seen.Some? then seen.value.value.epoch + 1 else 0)
            && Takeable(seen, now)
  {
  }

  /** Exactly when an acquire succeeds: undisturbed, if and only if the record can be taken. One that
      cannot is left alone, whatever the network would have done. */
  lemma AcquireAnswers(register: Register<LeaseRecord>, seen: Option<Object<LeaseRecord>>, holder: string, purpose: string,
                       now: int, ttl: int, fault: Fault)
    requires seen.Some? && Holds(register, seen.value.version) ==> register.slot == seen
    ensures var (next, r) := AcquireWrite(register, seen, holder, purpose, now, ttl, fault);
            && (r.Acquired? ==> fault == Proceed && register.slot == seen)
            && (fault == Proceed && register.slot == seen ==> (r.Acquired? <==> Takeable(seen, now)))
            && (fault == Proceed && !r.Acquired? ==> r == HeldByOther && next == register)
            && (!Takeable(seen, now) ==> r == HeldByOther && next == register)
  {
  }

  /** `try_acquire`: read the record, let the world move on, then write. Whatever happened in
      between, a returned guard names the version now stored, and it was obtained by creating
      the key or by replacing exactly the record that was read, past its grace period. `met` is the
      record the write met; undisturbed, the acquire succeeds exactly when the record can be taken. */
  method TryAcquire(store: MemoryStore<string, LeaseRecord>, key: string, holder: string, purpose: string,
                    now: int, ttl: int, fault: Fault) returns (r: AcquireResult, ghost met: Option<Object<LeaseRecord>>)
    requires store.Valid()
    modifies store
    ensures store.Valid()
    ensures r.Acquired? ==>
              && Holds(store.At(key), r.guard.version) && old(store.counter) < r.guard.version
              && store.objects[key].value == LeaseRecord(holder, purpose, Some(now + ttl), r.guard.epoch)
              && r.guard == Guard(holder, purpose, r.guard.version, now + ttl,
                                  if key in old(store.objects) then old(store.objects[key].value.epoch) + 1 else 0)
              && Takeable(old(store.At(key).slot), now) && fault == Proceed && met == old(store.At(key).slot)
    ensures fault == Proceed && met == old(store.At(key).slot) ==> (r.Acquired? <==> Takeable(met, now))
    ensures fault == Proceed && !r.Acquired? ==> r == HeldByOther && store.At(key).slot == met
    ensures !Takeable(old(store.At(key).slot), now) ==> r == HeldByOther && store.At(key).slot == met
  {
    var got := store.Get(key, None, None);
    var seen := if got.Ok? && got.value.Found? then Some(got.value.found) else None;
    assert seen == store.At(key).slot;
    store.OtherClients();
    ghost var before := store.At(key);
    met := before.slot;
    r := AcquireFrom(store, key, seen, holder, purpose, now, ttl, fault);
    AcquireAnswers(before, seen, holder, purpose, now, ttl, fault);
    if r.Acquired? {
      AcquiredMeans(before, seen, holder, purpose, now, ttl, fault);
    }
  }

  class LeaseGuard {
    const store: MemoryStore<string, LeaseRecord>
    const key: string
    const holder: string
    const purpose: string
    var version: nat
    var expiresAt: int
    var epoch: nat
    var released: bool

    function View(): Guard
      reads this
    {
      Guard(holder, purpose, version, expiresAt, epoch)
    }

    constructor (store: MemoryStore<string, LeaseRecord>, key: string, guard: Guard)
      ensures this.store == store && this.key == key
      ensures View() == guard && !released
    {
      this.store, this.key, holder, purpose := store, key, guard.holder, guard.purpose;
      version, expiresAt, epoch, released := guard.version, guard.expiresAt, guard.epoch, false;
    }

    /** The epoch moves even when the write fails; version and expiry only when it is confirmed. */
    method Heartbeat(now: int, ttl: int, fault: Fault) returns (r: BeatResult)
      requires store.Valid()
      modifies this`version, this`expiresAt, this`epoch, store
      ensures store.Valid()
      ensures (store.At(key), View(), r) ==
              BeatWrite(old(store.At(key)), old(View()).(epoch := old(epoch) + 1), now, ttl, fault)
      ensures store.SameElsewhere(old(store.objects), key)
      ensures epoch == old(epoch) + 1
      ensures r == Extended <==> fault == Proceed && key in old(store.objects) && old(store.objects[key].version) == old(version)
      ensures r == Extended ==>
                && key in store.objects && store.objects[key].version == version && old(store.counter) < version
                && store.objects[key].value == LeaseRecord(holder, purpose, Some(now + ttl), epoch) && expiresAt == now + ttl
      ensures r != Extended ==> version == old(version) && expiresAt == old(expiresAt)
      ensures fault == Proceed && r != Extended ==> r == LeaseLost && store.objects == old(store.objects)
    {
      epoch := epoch + 1;
      var put := store.PutThrough(key, Update(version), MakeLease(holder, purpose, now, ttl, epoch), fault);
      match put
      case Ok(written) =>
        version, expiresAt := written, now + ttl;
        r := Extended;
      case Err(PreconditionFailed) => r := LeaseLost;
      case Err(error) => r := BeatFailed(error);
    }

    /** A lease that is gone or taken over counts as released. */
    method Release(fault: Fault) returns (r: Result<(), StoreError>)
      requires store.Valid()
      modifies this`released, store`objects
      ensures store.Valid() && released
      ensures store.At(key) == FaultyDelete(old(store.At(key)), Some(old(version)), fault).register
      ensures fault == Proceed && key in old(store.objects) && old(store.objects[key].version) == version ==> key !in store.objects
      ensures !(key in old(store.objects) && old(store.objects[key].version) == version) ==> store.objects == old(store.objects)
      ensures r.Err? <==> fault.ErrBefore? || (fault.ErrAfter? && Holds(old(store.At(key)), old(version)))
      ensures store.SameElsewhere(old(store.objects), key)
    {
      released := true;
      r := store.DeleteThrough(key, Some(version), fault);
      if r == Err(PreconditionFailed) || r == Err(NotFound) {
        r := Ok(());
      }
    }
  }
}
