/**
  The generic read-modify-write loop. Any number of clients run it against one key, their
  reads and conditional writes interleaved arbitrarily and every write subject to faults.
 */
module CasLoop {
  import opened Prelude
  import opened VersionedStore
  import Runs

  /** What a client's update function says about the value it was shown. */
  datatype Verdict<+T> = Abort | Refuse | Write(value: T)

  /** The update function also sees how many attempts failed so far, since it may be stateful. */
  type UpdateFn<!T> = (nat, Option<T>) -> Verdict<T>

  datatype Outcome<+T> =
    | Committed(version: nat, value: T)
    | Aborted
    | Refused
    | RetriesExhausted(attempts: nat)
    | StoreFailed

  datatype Phase<+T> = Reading | Writing(seen: Option<Object<T>>, next: T) | Finished(outcome: Outcome<T>)

  /** `writes` counts puts sent, `lost` the puts that were applied but reported as transient errors. */
  datatype Client<+T> = Client(attempts: nat, phase: Phase<T>, writes: nat, lost: nat)

  /** One applied write: who, on which attempt, and the version it created. */
  datatype Commit = Commit(client: nat, attempt: nat, version: nat)

  datatype State<!T> = State(
    updates: map<nat, UpdateFn<T>>,
    maxRetries: map<nat, nat>,
    initial: Option<T>,
    register: Register<T>,
    clients: map<nat, Client<T>>,
    commits: seq<Commit>)

  datatype Step = Read(client: nat) | ReadFails(client: nat) | Send(client: nat, fault: Fault) | Elsewhere(writes: nat)

  function Content<T>(slot: Option<Object<T>>): Option<T> {
    if slot.Some? then Some(slot.value.value) else None
  }

  function ModeFor<T>(seen: Option<Object<T>>): PutMode {
    if seen.Some? then Update(seen.value.version) else Create
  }

  function AfterRead<T>(c: Client<T>, slot: Option<Object<T>>, update: UpdateFn<T>): Client<T> {
    match update(c.attempts, Content(slot))
    case Abort => c.(phase := Finished(Aborted))
    case Refuse => c.(phase := Finished(Refused))
    case Write(next) => c.(phase := Writing(slot, next))
  }

  /** How the client takes the answer to its put. */
  function AfterSend<T>(c: Client<T>, result: Result<nat, StoreError>, applied: bool, maxRetries: nat): Client<T>
    requires c.phase.Writing?
  {
    var sent := c.(writes := c.writes + 1);
    match result
    case Ok(version) => sent.(phase := Finished(Committed(version, c.phase.next)))
    case Err(NotFound) => sent.(phase := Finished(StoreFailed))
    case Err(_) =>
      var retried := sent.(attempts := c.attempts + 1, lost := c.lost + (if applied then 1 else 0));
      if c.attempts + 1 > maxRetries then retried.(phase := Finished(RetriesExhausted(c.attempts + 1)))
      else retried.(phase := Reading)
  }

  predicate Enabled<T>(s: State<T>, step: Step) {
    match step
    case Read(id) => id in s.clients && id in s.updates && s.clients[id].phase.Reading?
    case ReadFails(id) => id in s.clients && s.clients[id].phase.Reading?
    case Send(id, _) => id in s.clients && id in s.maxRetries && s.clients[id].phase.Writing?
    case Elsewhere(_) => true
  }

  function Apply<T>(s: State<T>, step: Step): State<T>
    requires Enabled(s, step)
  {
    match step
    case Read(id) =>
      s.(clients := s.clients[id := AfterRead(s.clients[id], s.register.slot, s.updates[id])])
    case ReadFails(id) =>
      s.(clients := s.clients[id := s.clients[id].(phase := Finished(StoreFailed))])
    case Send(id, fault) =>
      var c := s.clients[id];
      var put := FaultyPut(s.register, ModeFor(c.phase.seen), c.phase.next, fault);
      var applied := put.register.counter > s.register.counter;
      s.(register := put.register,
         clients := s.clients[id := AfterSend(c, put.result, applied, s.maxRetries[id])],
         commits := if applied then s.commits + [Commit(id, c.attempts, put.register.counter)] else s.commits)
    case Elsewhere(writes) => s.(register := s.register.(counter := s.register.counter + writes))
  }

  ghost predicate Init<T(!new)>(s: State<T>) {
    && Sound(s.register)
    && s.initial == Content(s.register.slot)
    && s.commits == []
    && s.clients.Keys == s.updates.Keys == s.maxRetries.Keys
    && forall id | id in s.clients :: s.clients[id] == Client(0, Reading, 0, 0)
  }

  ghost predicate Next<T(!new)>(s: State<T>, t: State<T>) {
    exists step :: Enabled(s, step) && t == Apply(s, step)
  }

  ghost predicate IsRun<T(!new)>(run: seq<State<T>>) {
    Runs.IsRun(Init, Next, run)
  }

  // ---------------------------------------------------------------------------
  // What the committed writes amount to
  // ---------------------------------------------------------------------------

  /** The composition, in commit order, of the update functions that committed. */
  function Compose<T>(updates: map<nat, UpdateFn<T>>, initial: Option<T>, commits: seq<Commit>): Option<T>
    decreases |commits|
  {
    if commits == [] then initial
    else
      var last := commits[|commits| - 1];
      var before := Compose(updates, initial, commits[..|commits| - 1]);
      if last.client !in updates then before
      else
        match updates[last.client](last.attempt, before)
        case Write(value) => Some(value)
        case _ => before
  }

  function CountBy(commits: seq<Commit>, client: nat): nat {
    if commits == [] then 0
    else CountBy(commits[..|commits| - 1], client) + (if commits[|commits| - 1].client == client then 1 else 0)
  }

  lemma ComposeSnoc<T>(updates: map<nat, UpdateFn<T>>, initial: Option<T>, commits: seq<Commit>, c: Commit)
    requires c.client in updates
    ensures var before := Compose(updates, initial, commits);
            Compose(updates, initial, commits + [c]) ==
              match updates[c.client](c.attempt, before) case Write(value) => Some(value) case _ => before
  {
    assert (commits + [c])[..|commits|] == commits;
  }

  lemma CountSnoc(commits: seq<Commit>, c: Commit, id: nat)
    ensures CountBy(commits + [c], id) == CountBy(commits, id) + (if c.client == id then 1 else 0)
  {
    assert (commits + [c])[..|commits|] == commits;
  }

  // ---------------------------------------------------------------------------
  // The invariant
  // ---------------------------------------------------------------------------

  predicate Budget<T>(c: Client<T>, maxRetries: nat) {
    && c.lost <= c.attempts
    && match c.phase
       case Finished(Committed(_, _)) => c.attempts <= maxRetries && c.writes == c.attempts + 1
       case Finished(RetriesExhausted(n)) => n == c.attempts == c.writes == maxRetries + 1
       case Finished(StoreFailed) => c.attempts <= maxRetries && c.writes == c.attempts
       case _ => c.attempts <= maxRetries && c.writes == c.attempts
  }

  /** A read to be written back is what its version still stands for. */
  ghost predicate Fresh<T>(register: Register<T>, update: UpdateFn<T>, c: Client<T>) {
    c.phase.Writing? ==>
      && update(c.attempts, Content(c.phase.seen)) == Write(c.phase.next)
      && (c.phase.seen.Some? ==>
            && c.phase.seen.value.version <= register.counter
            && (Holds(register, c.phase.seen.value.version) ==> register.slot == c.phase.seen))
  }

  /** Commit `k` is this one, and the composition had this value there. */
  ghost predicate CommitAt<T>(updates: map<nat, UpdateFn<T>>, initial: Option<T>, commits: seq<Commit>, k: nat, commit: Commit, value: T)
  {
    k < |commits| && commits[k] == commit && Compose(updates, initial, commits[..k + 1]) == Some(value)
  }

  /** A committed answer names a commit of this client and the value the composition had there. */
  ghost predicate Answered<T>(updates: map<nat, UpdateFn<T>>, initial: Option<T>, commits: seq<Commit>, id: nat, c: Client<T>) {
    c.phase.Finished? && c.phase.outcome.Committed? ==>
      exists k: nat :: CommitAt(updates, initial, commits, k, Commit(id, c.attempts, c.phase.outcome.version), c.phase.outcome.value)
  }

  ghost predicate AnswerIsTrue<T>(s: State<T>, id: nat)
    requires id in s.clients
  {
    Answered(s.updates, s.initial, s.commits, id, s.clients[id])
  }

  /** How often the client's update must be in the stored value, by its own books. */
  function Contribution<T>(c: Client<T>): nat {
    c.lost + (if c.phase.Finished? && c.phase.outcome.Committed? then 1 else 0)
  }

  predicate Accounted<T>(s: State<T>, id: nat)
    requires id in s.clients
  {
    CountBy(s.commits, id) == Contribution(s.clients[id])
  }

  ghost predicate ClientOk<T(!new)>(s: State<T>, id: nat)
    requires id in s.clients && id in s.updates && id in s.maxRetries
  {
    Budget(s.clients[id], s.maxRetries[id]) && Fresh(s.register, s.updates[id], s.clients[id]) && AnswerIsTrue(s, id) && Accounted(s, id)
  }

  ghost predicate Inv<T(!new)>(s: State<T>) {
    && Sound(s.register)
    && s.clients.Keys == s.updates.Keys == s.maxRetries.Keys
    && Content(s.register.slot) == Compose(s.updates, s.initial, s.commits)
    && forall id | id in s.clients :: ClientOk(s, id)
  }

  /** A write that is applied landed on what its client had read. */
  lemma AppliedOnWhatWasRead<T>(register: Register<T>, seen: Option<Object<T>>, next: T, fault: Fault)
    requires Sound(register)
    requires seen.Some? && Holds(register, seen.value.version) ==> register.slot == seen
    ensures var put := FaultyPut(register, ModeFor(seen), next, fault);
            && Sound(put.register)
            && (if put.register.counter > register.counter
                then register.slot == seen && put.register == Register(Some(Object(register.counter + 1, next)), register.counter + 1)
                else put.register == register)
  {
  }

  /** Every applied write applied its client's update function to exactly what was stored. */
  lemma SendExtendsComposition<T(!new)>(s: State<T>, id: nat, fault: Fault)
    requires Sound(s.register) && id in s.updates && Enabled(s, Send(id, fault)) && Fresh(s.register, s.updates[id], s.clients[id])
    requires Content(s.register.slot) == Compose(s.updates, s.initial, s.commits)
    ensures var t := Apply(s, Send(id, fault));
            && Sound(t.register)
            && Content(t.register.slot) == Compose(t.updates, t.initial, t.commits)
            && (t.commits != s.commits ==> Content(t.register.slot) == Some(s.clients[id].phase.next))
  {
    var c := s.clients[id];
    AppliedOnWhatWasRead(s.register, c.phase.seen, c.phase.next, fault);
    ComposeSnoc(s.updates, s.initial, s.commits, Commit(id, c.attempts, s.register.counter + 1));
  }

  lemma AnswerStaysTrue<T(!new)>(updates: map<nat, UpdateFn<T>>, initial: Option<T>, commits: seq<Commit>, more: seq<Commit>, id: nat, c: Client<T>)
    requires commits <= more && Answered(updates, initial, commits, id, c)
    ensures Answered(updates, initial, more, id, c)
  {
    if c.phase.Finished? && c.phase.outcome.Committed? {
      var commit, value := Commit(id, c.attempts, c.phase.outcome.version), c.phase.outcome.value;
      var k: nat :| CommitAt(updates, initial, commits, k, commit, value);
      assert more[..k + 1] == commits[..k + 1];
      assert CommitAt(updates, initial, more, k, commit, value);
    }
  }

  lemma LastCommitAnswers<T(!new)>(updates: map<nat, UpdateFn<T>>, initial: Option<T>, commits: seq<Commit>, commit: Commit, value: T)
    requires Compose(updates, initial, commits + [commit]) == Some(value)
    ensures CommitAt(updates, initial, commits + [commit], |commits|, commit, value)
  {
    assert (commits + [commit])[..|commits| + 1] == commits + [commit];
  }

  /** A write by somebody else: the register is as it was or has a new version. */
  lemma FreshStays<T(!new)>(register: Register<T>, next: Register<T>, update: UpdateFn<T>, c: Client<T>)
    requires Fresh(register, update, c)
    requires next == register || (next.counter == register.counter + 1 && next.slot.Some? && next.slot.value.version == next.counter)
    ensures Fresh(next, update, c)
  {
  }

  lemma AnswerKeepsBudget<T>(c: Client<T>, result: Result<nat, StoreError>, applied: bool, maxRetries: nat)
    requires Budget(c, maxRetries) && c.phase.Writing? && result != Err(NotFound)
    ensures Budget(AfterSend(c, result, applied, maxRetries), maxRetries)
  {
  }

  lemma AnswerCounts<T>(register: Register<T>, c: Client<T>, fault: Fault, maxRetries: nat)
    requires c.phase.Writing?
    ensures var put := FaultyPut(register, ModeFor(c.phase.seen), c.phase.next, fault);
            var applied := put.register.counter > register.counter;
            Contribution(AfterSend(c, put.result, applied, maxRetries)) == Contribution(c) + (if applied then 1 else 0)
  {
  }

  /** What a send does to the register and to the list of commits. */
  lemma SendOutcome<T(!new)>(s: State<T>, id: nat, fault: Fault)
    requires Sound(s.register) && id in s.updates && Enabled(s, Send(id, fault)) && Fresh(s.register, s.updates[id], s.clients[id])
    ensures var t, c := Apply(s, Send(id, fault)), s.clients[id];
            var commit := Commit(id, c.attempts, s.register.counter + 1);
            && ((t.register == s.register && t.commits == s.commits)
                || (t.register == Register(Some(Object(s.register.counter + 1, c.phase.next)), s.register.counter + 1)
                    && t.commits == s.commits + [commit]))
            && (t.clients[id].phase.Finished? && t.clients[id].phase.outcome.Committed? ==>
                  && t.commits == s.commits + [commit] && t.clients[id].attempts == c.attempts
                  && t.clients[id].phase.outcome == Committed(commit.version, c.phase.next))
            && !t.clients[id].phase.Writing?
  {
    AppliedOnWhatWasRead(s.register, s.clients[id].phase.seen, s.clients[id].phase.next, fault);
  }

  lemma SenderIsAccounted<T(!new)>(s: State<T>, id: nat, fault: Fault)
    requires id in s.clients && Accounted(s, id) && Enabled(s, Send(id, fault))
    ensures Accounted(Apply(s, Send(id, fault)), id)
  {
    var put := FaultyPut(s.register, ModeFor(s.clients[id].phase.seen), s.clients[id].phase.next, fault);
    CountSnoc(s.commits, Commit(id, s.clients[id].attempts, put.register.counter), id);
    AnswerCounts(s.register, s.clients[id], fault, s.maxRetries[id]);
  }

  lemma SenderIsAnswered<T(!new)>(s: State<T>, id: nat, fault: Fault)
    requires Sound(s.register) && id in s.updates && Enabled(s, Send(id, fault)) && Fresh(s.register, s.updates[id], s.clients[id])
    requires Content(s.register.slot) == Compose(s.updates, s.initial, s.commits)
    ensures AnswerIsTrue(Apply(s, Send(id, fault)), id)
  {
    SendExtendsComposition(s, id, fault);
    SendOutcome(s, id, fault);
    var t, c := Apply(s, Send(id, fault)), s.clients[id];
    if t.clients[id].phase.Finished? && t.clients[id].phase.outcome.Committed? {
      LastCommitAnswers(s.updates, s.initial, s.commits, Commit(id, c.attempts, s.register.counter + 1), c.phase.next);
    }
  }

  lemma SendKeepsSender<T(!new)>(s: State<T>, id: nat, fault: Fault, t: State<T>)
    requires Inv(s) && Enabled(s, Send(id, fault)) && t == Apply(s, Send(id, fault))
    ensures ClientOk(t, id)
  {
    assert ClientOk(s, id);
    SenderIsAccounted(s, id, fault);
    SenderIsAnswered(s, id, fault);
    SendOutcome(s, id, fault);
    SenderKeepsBudget(s, id, fault);
  }

  lemma SenderKeepsBudget<T(!new)>(s: State<T>, id: nat, fault: Fault)
    requires Enabled(s, Send(id, fault)) && Budget(s.clients[id], s.maxRetries[id])
    ensures Budget(Apply(s, Send(id, fault)).clients[id], s.maxRetries[id])
  {
    var put := FaultyPut(s.register, ModeFor(s.clients[id].phase.seen), s.clients[id].phase.next, fault);
    AnswerKeepsBudget(s.clients[id], put.result, put.register.counter > s.register.counter, s.maxRetries[id]);
  }

  lemma SendKeepsOthers<T(!new)>(s: State<T>, id: nat, fault: Fault, other: nat)
    requires Inv(s) && Enabled(s, Send(id, fault)) && other in s.clients && other != id
    ensures ClientOk(Apply(s, Send(id, fault)), other)
  {
    assert ClientOk(s, id) && ClientOk(s, other);
    OtherIsKept(s, id, fault, other);
  }

  lemma OtherIsKept<T(!new)>(s: State<T>, id: nat, fault: Fault, other: nat)
    requires Sound(s.register) && id in s.updates && Enabled(s, Send(id, fault)) && Fresh(s.register, s.updates[id], s.clients[id])
    requires other != id && other in s.clients && other in s.updates && other in s.maxRetries && ClientOk(s, other)
    ensures ClientOk(Apply(s, Send(id, fault)), other)
  {
    var t := Apply(s, Send(id, fault));
    SendOutcome(s, id, fault);
    FreshStays(s.register, t.register, s.updates[other], s.clients[other]);
    AnswerStaysTrue(s.updates, s.initial, s.commits, t.commits, other, s.clients[other]);
    CountSnoc(s.commits, Commit(id, s.clients[id].attempts, s.register.counter + 1), other);
  }

  lemma QuietStepKeepsClient<T(!new)>(s: State<T>, step: Step, id: nat)
    requires Inv(s) && Enabled(s, step) && !step.Send? && id in s.clients
    ensures ClientOk(Apply(s, step), id)
  {
    assert ClientOk(s, id);
  }

  lemma StepKeepsInv<T(!new)>(s: State<T>, step: Step, t: State<T>)
    requires Inv(s) && Enabled(s, step) && t == Apply(s, step)
    ensures Inv(t)
  {
    if step.Send? {
      SendExtendsComposition(s, step.client, step.fault);
    }
    forall id | id in t.clients ensures ClientOk(t, id) {
      match step
      case Send(sender, fault) =>
        if id == sender {
          SendKeepsSender(s, sender, fault, t);
        } else {
          SendKeepsOthers(s, sender, fault, id);
        }
      case _ => QuietStepKeepsClient(s, step, id);
    }
  }

  lemma Inductive<T(!new)>()
    ensures forall s: State<T> :: Init(s) ==> Inv(s)
    ensures forall s: State<T>, t :: Inv(s) && Next(s, t) ==> Inv(t)
  {
    forall s: State<T>, t | Inv(s) && Next(s, t) ensures Inv(t) {
      var step :| Enabled(s, step) && t == Apply(s, step);
      StepKeepsInv(s, step, t);
    }
  }

  // ---------------------------------------------------------------------------
  // The theorems
  // ---------------------------------------------------------------------------

  /** Linearization: the stored value is always the composition of the committed updates. */
  lemma StoredIsComposition<T(!new)>(run: seq<State<T>>, i: nat)
    requires IsRun(run) && i < |run|
    ensures Content(run[i].register.slot) == Compose(run[i].updates, run[i].initial, run[i].commits)
  {
    Inductive<T>();
    Runs.Always(Init, Next, Inv, run, i);
  }

  ghost predicate Extends<T(!new)>(s: State<T>, t: State<T>) {
    s.commits <= t.commits && s.updates == t.updates && s.initial == t.initial && s.maxRetries == t.maxRetries
  }

  /** No committed update is ever lost or reordered. */
  lemma CommitsOnlyGrow<T(!new)>(run: seq<State<T>>, i: nat, j: nat)
    requires IsRun(run) && i <= j < |run|
    ensures Extends(run[i], run[j])
  {
    Inductive<T>();
    forall r: State<T>, s, t | Extends(r, s) && Next(s, t) ensures Extends(r, t) {
      var step :| Enabled(s, step) && t == Apply(s, step);
    }
    Runs.Throughout(Init, Next, Inv, (s: State<T>) => true, Extends, run, i, j);
  }

  /** Each client sends at most `maxRetries + 1` puts. It committed once if it was told so, plus
      once for every put that was applied behind a transient error; a success it reports is one
      of its own commits, with the value the composition had there. It gives up only when every put
      of its budget is used, or when a read fails. */
  lemma ClientsAreAccountedFor<T(!new)>(run: seq<State<T>>, i: nat, id: nat)
    requires IsRun(run) && i < |run| && id in run[i].clients
    ensures id in run[i].maxRetries
    ensures var c := run[i].clients[id];
            && c.writes <= run[i].maxRetries[id] + 1
            && c.lost <= c.attempts
            && CountBy(run[i].commits, id) == Contribution(c)
            && (c.phase.Finished? && c.phase.outcome.RetriesExhausted? ==> c.writes == run[i].maxRetries[id] + 1)
            && (c.phase.Finished? && c.phase.outcome.StoreFailed? ==> c.writes == c.attempts)
    ensures AnswerIsTrue(run[i], id)
  {
    Inductive<T>();
    Runs.Always(Init, Next, Inv, run, i);
    assert ClientOk(run[i], id);
  }

  /** A read and a write with nothing in between commit exactly when the update function asks for it. */
  lemma UndisturbedCommits<T(!new)>(s: State<T>, id: nat)
    requires id in s.clients && id in s.updates && id in s.maxRetries && s.clients[id].phase.Reading?
    ensures Enabled(s, Read(id))
    ensures var current := if s.register.slot.Some? then Some(s.register.slot.value.value) else None;
            var read := Apply(s, Read(id));
            match s.updates[id](s.clients[id].attempts, current)
            case Write(value) =>
              && Enabled(read, Send(id, Proceed))
              && var t := Apply(read, Send(id, Proceed));
                 && t.clients[id].phase == Finished(Committed(s.register.counter + 1, value))
                 && t.register == Register(Some(Object(s.register.counter + 1, value)), s.register.counter + 1)
            case Abort => read.clients[id].phase == Finished(Aborted) && read.register == s.register
            case Refuse => read.clients[id].phase == Finished(Refused) && read.register == s.register
  {
  }

  // ---------------------------------------------------------------------------
  // The loop one client runs
  // ---------------------------------------------------------------------------

  /** One conditional write, sent after other clients had their turn. */
  method SendOnce<T>(store: MemoryStore<string, T>, key: string, seen: Option<Object<T>>, next: T, fault: Fault)
    returns (r: Result<nat, StoreError>, ghost before: Register<T>)
    requires store.Valid() && seen == store.At(key).slot
    modifies store
    ensures store.Valid()
    ensures PutOutcome(store.At(key), r) == FaultyPut(before, ModeFor(seen), next, fault)
    ensures r.Ok? ==> before.slot == seen
  {
    store.OtherClients();
    before := store.At(key);
    r := store.PutThrough(key, ModeFor(seen), next, fault);
  }

  method ReadAfterOthers<T>(store: MemoryStore<string, T>, key: string) returns (seen: Option<Object<T>>, ghost before: Register<T>)
    requires store.Valid()
    modifies store
    ensures store.Valid() && before == store.At(key) && seen == before.slot
  {
    store.OtherClients();
    before := store.At(key);
    var got := store.Get(key, None, None);
    seen := if got.Ok? && got.value.Found? then Some(got.value.found) else None;
  }

  /** `cas_update` with the rest of the world running between its read and its write; the put of
      attempt `n` meets `faults(n)`, its read fails if `readFails(n)`. On success `before` is the
      register the put landed on: the update function was applied to exactly its content. A write
      that did not succeed is tried again until the budget is used up. */
  method CasUpdate<T>(store: MemoryStore<string, T>, key: string, maxRetries: nat, update: UpdateFn<T>, faults: nat -> Fault,
                      readFails: nat -> bool)
    returns (r: Outcome<T>, writes: nat, ghost before: Register<T>)
    requires store.Valid()
    modifies store
    ensures store.Valid()
    ensures writes <= maxRetries + 1 && forall n | 0 <= n < writes :: !readFails(n)
    ensures r.StoreFailed? ==> readFails(writes) && writes <= maxRetries && before == store.At(key)
    ensures r.Aborted? || r.Refused? ==> !readFails(writes) && writes <= maxRetries
    ensures r.Committed? ==>
              && writes > 0 && faults(writes - 1) == Proceed
              && update(writes - 1, Content(before.slot)) == Write(r.value)
              && PutOutcome(store.At(key), Ok(r.version)) == PutAt(before, ModeFor(before.slot), r.value)
    ensures r.RetriesExhausted? ==> r.attempts == writes == maxRetries + 1
    ensures r.Aborted? ==> update(writes, Content(before.slot)) == Abort && before == store.At(key)
    ensures r.Refused? ==> update(writes, Content(before.slot)) == Refuse && before == store.At(key)
  {
    var attempts: nat := 0;
    writes := 0;
    before := store.At(key);
    while true
      invariant store.Valid() && writes == attempts <= maxRetries
      invariant before == store.At(key) && forall n | 0 <= n < writes :: !readFails(n)
      decreases maxRetries - attempts
    {
      if readFails(attempts) {
        return StoreFailed, writes, before;
      }
      var seen;
      seen, before := ReadAfterOthers(store, key);
      var next;
      match update(attempts, Content(seen)) {
        case Abort => return Aborted, writes, before;
        case Refuse => return Refused, writes, before;
        case Write(value) => next := value;
      }
      var put;
      put, before := SendOnce(store, key, seen, next, faults(attempts));
      writes := writes + 1;
      match put {
        case Ok(version) => return Committed(version, next), writes, before;
        case Err(_) =>
          attempts := attempts + 1;
          if attempts > maxRetries {
            return RetriesExhausted(attempts), writes, before;
          }
          before := store.At(key);
      }
    }
  }
}
