/**
  The event bridge: publish everything committed after a durable cursor to every sink, then
  advance the cursor. Any number of bridges run at once, sinks fail, checkpoints fold the log, and
  the cursor is only ever moved by compare-and-swap.

  The log is the set of its sequence numbers; `checkpoint` is the last one folded away.
 */
module Bridge {
  import opened Prelude
  import opened VersionedStore
  import Runs
  import Wal
  import LogReader
  import Checkpoint
  import CheckpointSafety

  /** Where one run of `catch_up` is: it has synced a manifest, loaded the cursor, fetched the
      entries, and sent them to the first `sent` sinks. */
  datatype Phase =
    | Synced(head: nat, readable: nat)
    | Loaded(head: nat, readable: nat, cursor: Option<nat>, version: Option<nat>)
    | Sending(head: nat, readable: nat, cursor: Option<nat>, version: Option<nat>, batch: set<nat>, sent: nat)

  /** `delivered` is per sink, `gaps` are the numbers reported as lost, and `initial` is the last
      number that was folded when the first cursor was created. */
  datatype State = State(
    committed: set<nat>,
    head: nat,
    checkpoint: nat,
    cursor: Register<nat>,
    bridges: map<nat, Phase>,
    delivered: seq<set<nat>>,
    gaps: set<nat>,
    initial: Option<nat>)

  datatype Step =
    | Publish(numbers: set<nat>, head: nat)
    | Fold(upTo: nat)
    | Start(b: nat)
    | LoadCursor(b: nat)
    | Fetch(b: nat)
    | Send(b: nat)
    | Put(b: nat, fault: Fault)
    | Fail(b: nat)
    | OtherWrites(n: nat)

  /** The newest number that counts as published before anything is sent. */
  function From(p: Phase): nat
    requires !p.Synced?
  {
    if p.cursor.Some? && p.cursor.value > p.readable then p.cursor.value else p.readable
  }

  /** What a log read after `from` returns when everything up to `checkpoint` is folded. */
  function Readable(committed: set<nat>, checkpoint: nat, from: nat, head: nat): set<nat> {
    set n | n in committed && from < n <= head && checkpoint < n
  }

  /** A batch has reached every sink, or there was nothing to read. */
  predicate ReadyToPut(s: State, p: Phase) {
    (p.Sending? && p.sent == |s.delivered|) || (p.Loaded? && p.head <= From(p))
  }

  predicate Enabled(s: State, step: Step) {
    match step
    case Publish(numbers, head) => head in numbers && forall n | n in numbers :: s.head < n <= head
    case Fold(upTo) => upTo in s.committed && s.checkpoint <= upTo
    case Start(b) => b !in s.bridges
    case LoadCursor(b) => b in s.bridges && s.bridges[b].Synced?
    case Fetch(b) => b in s.bridges && s.bridges[b].Loaded? && s.bridges[b].head > From(s.bridges[b])
    case Send(b) => b in s.bridges && s.bridges[b].Sending? && s.bridges[b].sent < |s.delivered|
    case Put(b, _) => b in s.bridges && ReadyToPut(s, s.bridges[b])
    case Fail(b) => b in s.bridges
    case OtherWrites(_) => true
  }

  function PutCursor(s: State, p: Phase, fault: Fault): Register<nat>
    requires !p.Synced?
  {
    if p.cursor == Some(p.head) then s.cursor
    else FaultyPut(s.cursor, if p.version.Some? then Update(p.version.value) else Create, p.head, fault).register
  }

  function Apply(s: State, step: Step): State
    requires Enabled(s, step)
  {
    match step
    case Publish(numbers, head) => s.(committed := s.committed + numbers, head := head)
    case Fold(upTo) => s.(checkpoint := upTo)
    case Start(b) => s.(bridges := s.bridges[b := Synced(s.head, s.checkpoint)])
    case LoadCursor(b) =>
      var p := s.bridges[b];
      var loaded := if s.cursor.slot.Some? then
                      Loaded(p.head, p.readable, Some(s.cursor.slot.value.value), Some(s.cursor.slot.value.version))
                    else Loaded(p.head, p.readable, None, None);
      s.(bridges := s.bridges[b := loaded],
         gaps := if loaded.cursor.Some? then s.gaps + Readable(s.committed, 0, loaded.cursor.value, p.readable) else s.gaps)
    case Fetch(b) =>
      var p := s.bridges[b];
      s.(bridges := s.bridges[b := Sending(p.head, p.readable, p.cursor, p.version,
                                           Readable(s.committed, s.checkpoint, From(p), p.head), 0)])
    case Send(b) =>
      var p := s.bridges[b];
      s.(bridges := s.bridges[b := p.(sent := p.sent + 1)],
         delivered := s.delivered[p.sent := s.delivered[p.sent] + p.batch])
    case Put(b, fault) =>
      var p := s.bridges[b];
      var put := PutCursor(s, p, fault);
      s.(cursor := put, bridges := s.bridges - {b},
         initial := if s.cursor.slot.None? && put.slot.Some? then Some(p.readable) else s.initial)
    case Fail(b) => s.(bridges := s.bridges - {b})
    case OtherWrites(n) => s.(cursor := s.cursor.(counter := s.cursor.counter + n))
  }

  /** No checkpoint past what this bridge counts as published commits between its sync and its log
      read. The code does not check this. */
  predicate NotOverrun(s: State, step: Step) {
    step.Fetch? && Enabled(s, step) ==> s.checkpoint <= From(s.bridges[step.b])
  }

  ghost predicate Init(s: State) {
    && (forall n | n in s.committed :: n <= s.head) && (s.head > 0 ==> s.head in s.committed)
    && (s.checkpoint == 0 || s.checkpoint in s.committed)
    && s.cursor.slot.None? && s.bridges == map[] && s.gaps == {} && s.initial == None
  }

  /** Any step, and any step under the premise. */
  ghost predicate Moves(s: State, t: State) {
    exists step :: Enabled(s, step) && t == Apply(s, step)
  }

  ghost predicate Next(s: State, t: State) {
    exists step :: Enabled(s, step) && NotOverrun(s, step) && t == Apply(s, step)
  }

  ghost predicate IsRun(run: seq<State>) {
    Runs.IsRun(Init, Next, run)
  }

  // ---------------------------------------------------------------------------
  // Reading the log
  // ---------------------------------------------------------------------------

  lemma RangeMembers(log: seq<Wal.LogEntry>, c: nat, h: nat, from: nat, head: nat, e: Wal.LogEntry)
    requires Wal.Increasing(log) && Wal.Pos(log, c) <= Wal.Pos(log, h) && head <= h
    ensures e in LogReader.InRange(log[Wal.Pos(log, c)..Wal.Pos(log, h)], from + 1, head) <==>
            e in log && from < e.seqNo <= head && c < e.seqNo
  {
    LogReader.SliceMembers(log, c, h, e);
    LogReader.InRangeHas(log[Wal.Pos(log, c)..Wal.Pos(log, h)], from + 1, head, e);
  }

  lemma ReadMembers(log: seq<Wal.LogEntry>, read: Option<seq<Wal.LogEntry>>, c: nat, h: nat, from: nat, head: nat, e: Wal.LogEntry)
    requires Wal.Increasing(log) && Wal.Pos(log, c) <= Wal.Pos(log, h) && head <= h
    requires read == Some(LogReader.InRange(log[Wal.Pos(log, c)..Wal.Pos(log, h)], from + 1, head))
    ensures e in read.value <==> e in log && from < e.seqNo <= head && c < e.seqNo
  {
    RangeMembers(log, c, h, from, head, e);
  }

  /** The log reader returns exactly the entries that `Readable` names. */
  lemma ReadsExactly(b: Checkpoint.Bucket, m: Wal.Manifest, from: nat, head: nat, e: Wal.LogEntry)
    requires Wal.Increasing(b.log) && CheckpointSafety.Covers(b, m) && from < head <= m.headSeq
    ensures LogReader.ReadLogAt(b.segments, m, from + 1, Some(head)).Some?
    ensures e in LogReader.ReadLogAt(b.segments, m, from + 1, Some(head)).value <==>
            e in b.log && from < e.seqNo <= head && Wal.CheckpointSeq(m) < e.seqNo
  {
    assert LogReader.Top(m, Some(head)) == head;
    LogReader.ReadLogExact(b, m, from + 1, Some(head));
    ReadMembers(b.log, LogReader.ReadLogAt(b.segments, m, from + 1, Some(head)), Wal.CheckpointSeq(m), m.headSeq, from, head, e);
  }

  /** The exact condition: a fetch misses nothing if and only if the checkpoint of the manifest it
      reads is not past what the bridge counts as published. */
  lemma FetchIsCompleteIff(s: State, b: nat)
    requires Inv(s) && Enabled(s, Fetch(b))
    ensures var p := s.bridges[b];
            Readable(s.committed, s.checkpoint, From(p), p.head) == Readable(s.committed, 0, From(p), p.head)
            <==> NotOverrun(s, Fetch(b))
  {
    var p := s.bridges[b];
    assert PhaseOk(s, p);
    if s.checkpoint > From(p) {
      var lost := if s.checkpoint < p.head then s.checkpoint else p.head;
      assert lost in Readable(s.committed, 0, From(p), p.head);
      assert lost !in Readable(s.committed, s.checkpoint, From(p), p.head);
    } else {
      assert Readable(s.committed, s.checkpoint, From(p), p.head) == Readable(s.committed, 0, From(p), p.head);
    }
  }

  // ---------------------------------------------------------------------------
  // The invariant
  // ---------------------------------------------------------------------------

  /** Every sink got it. */
  predicate Delivered(s: State, n: nat) {
    forall k | 0 <= k < |s.delivered| :: n in s.delivered[k]
  }

  /** Delivered, reported lost, or gone before the first cursor. */
  predicate Accounted(s: State, n: nat) {
    Delivered(s, n) || n in s.gaps || (s.initial.Some? && n <= s.initial.value)
  }

  predicate AccountedUpTo(s: State, c: nat) {
    forall n | n in s.committed && 0 < n <= c :: Accounted(s, n)
  }

  /** What a bridge knows of the numbers up to `From`: accounted for if there was a cursor. */
  predicate PhaseOk(s: State, p: Phase) {
    && p.readable <= p.head <= s.head && (p.head > 0 ==> p.head in s.committed)
    && (!p.Synced? ==>
          && (p.cursor.Some? <==> p.version.Some?)
          && (p.cursor.Some? ==> s.cursor.slot.Some? && p.cursor.value <= s.head && AccountedUpTo(s, From(p)))
          && (p.version.Some? ==> p.version.value <= s.cursor.counter))
    && (p.Sending? ==>
          && p.sent <= |s.delivered| && p.head > From(p)
          && p.batch == Readable(s.committed, 0, From(p), p.head)
          && forall k | 0 <= k < p.sent :: p.batch <= s.delivered[k])
  }

  ghost predicate Inv(s: State) {
    && Sound(s.cursor)
    && (forall n | n in s.committed :: n <= s.head) && (s.head > 0 ==> s.head in s.committed)
    && (s.checkpoint == 0 || s.checkpoint in s.committed)
    && (s.cursor.slot.Some? ==> s.cursor.slot.value.value <= s.head && AccountedUpTo(s, s.cursor.slot.value.value))
    && (s.cursor.slot.Some? <==> s.initial.Some?)
    && forall b | b in s.bridges :: PhaseOk(s, s.bridges[b])
  }

  /** Nothing that was delivered, reported or committed is taken back, and new numbers are new. */
  ghost predicate Grows(s: State, t: State) {
    && s.head <= t.head && s.committed <= t.committed && (forall n | n in t.committed && n !in s.committed :: n > s.head)
    && |s.delivered| == |t.delivered| && (forall k | 0 <= k < |s.delivered| :: s.delivered[k] <= t.delivered[k])
    && s.gaps <= t.gaps && (s.initial.Some? ==> t.initial == s.initial)
    && (s.cursor.slot.Some? ==> t.cursor.slot.Some?) && s.cursor.counter <= t.cursor.counter
  }

  lemma AccountedStays(s: State, t: State, c: nat)
    requires Grows(s, t) && AccountedUpTo(s, c) && c <= s.head
    ensures AccountedUpTo(t, c)
  {
    forall n | n in t.committed && 0 < n <= c ensures Accounted(t, n) {
      assert Accounted(s, n);
    }
  }

  lemma PhaseStays(s: State, t: State, p: Phase)
    requires Grows(s, t) && PhaseOk(s, p)
    ensures PhaseOk(t, p)
  {
    if !p.Synced? && p.cursor.Some? {
      AccountedStays(s, t, From(p));
    }
    if p.Sending? {
      assert Readable(t.committed, 0, From(p), p.head) == Readable(s.committed, 0, From(p), p.head);
    }
  }

  lemma StepGrows(s: State, step: Step)
    requires Inv(s) && Enabled(s, step)
    ensures Grows(s, Apply(s, step))
  {
  }

  lemma LoadedIsOk(s: State, b: nat)
    requires Inv(s) && Enabled(s, LoadCursor(b))
    ensures var t := Apply(s, LoadCursor(b)); PhaseOk(t, t.bridges[b])
  {
    var t := Apply(s, LoadCursor(b));
    var p := t.bridges[b];
    assert PhaseOk(s, s.bridges[b]);
    if p.cursor.Some? {
      StepGrows(s, LoadCursor(b));
      AccountedStays(s, t, p.cursor.value);
      forall n | n in t.committed && 0 < n <= From(p) ensures Accounted(t, n) {
        if n > p.cursor.value {
          assert n in Readable(s.committed, 0, p.cursor.value, p.readable);
        }
      }
    }
  }

  lemma FetchedIsOk(s: State, b: nat)
    requires Inv(s) && Enabled(s, Fetch(b)) && NotOverrun(s, Fetch(b))
    ensures var t := Apply(s, Fetch(b)); PhaseOk(t, t.bridges[b])
  {
    var t := Apply(s, Fetch(b));
    var p := s.bridges[b];
    assert PhaseOk(s, p) && From(t.bridges[b]) == From(p);
    assert Readable(s.committed, s.checkpoint, From(p), p.head) == Readable(s.committed, 0, From(p), p.head);
  }

  lemma SentIsOk(s: State, b: nat)
    requires Inv(s) && Enabled(s, Send(b))
    ensures var t := Apply(s, Send(b)); PhaseOk(t, t.bridges[b])
  {
    assert PhaseOk(s, s.bridges[b]);
    StepGrows(s, Send(b));
    PhaseStays(s, Apply(s, Send(b)), s.bridges[b]);
  }

  /** When the cursor moves, everything up to its new value is accounted for. */
  lemma PutIsAccounted(s: State, b: nat, fault: Fault)
    requires Inv(s) && Enabled(s, Put(b, fault)) && Apply(s, Put(b, fault)).cursor != s.cursor
    ensures var t := Apply(s, Put(b, fault));
            t.cursor.slot.Some? && t.initial.Some? && t.cursor.slot.value.value == s.bridges[b].head
            && AccountedUpTo(t, s.bridges[b].head)
  {
    var t, p := Apply(s, Put(b, fault)), s.bridges[b];
    StepGrows(s, Put(b, fault));
    assert PhaseOk(s, p);
    if p.cursor.Some? {
      AccountedStays(s, t, From(p));
    }
    forall n | n in t.committed && 0 < n <= p.head ensures Accounted(t, n) {
      if n > From(p) {
        assert n in Readable(s.committed, 0, From(p), p.head);
        assert Delivered(t, n);
      }
    }
  }

  lemma OthersStayOk(s: State, step: Step, b: nat)
    requires Inv(s) && Enabled(s, step) && b in s.bridges
    ensures PhaseOk(Apply(s, step), s.bridges[b])
  {
    StepGrows(s, step);
    PhaseStays(s, Apply(s, step), s.bridges[b]);
  }

  lemma BridgesStayOk(s: State, step: Step, b: nat)
    requires Inv(s) && Enabled(s, step) && NotOverrun(s, step) && b in Apply(s, step).bridges
    ensures PhaseOk(Apply(s, step), Apply(s, step).bridges[b])
  {
    if step.LoadCursor? && step.b == b {
      LoadedIsOk(s, b);
    } else if step.Fetch? && step.b == b {
      FetchedIsOk(s, b);
    } else if step.Send? && step.b == b {
      SentIsOk(s, b);
    } else if b in s.bridges {
      OthersStayOk(s, step, b);
    }
  }

  lemma StepKeepsInv(s: State, step: Step)
    requires Inv(s) && Enabled(s, step) && NotOverrun(s, step)
    ensures Inv(Apply(s, step))
  {
    var t := Apply(s, step);
    StepGrows(s, step);
    forall b | b in t.bridges ensures PhaseOk(t, t.bridges[b]) {
      BridgesStayOk(s, step, b);
    }
    if step.Put? && t.cursor != s.cursor {
      PutIsAccounted(s, step.b, step.fault);
      assert PhaseOk(s, s.bridges[step.b]);
    } else if s.cursor.slot.Some? {
      AccountedStays(s, t, s.cursor.slot.value.value);
    }
  }

  lemma Inductive()
    ensures forall s :: Init(s) ==> Inv(s)
    ensures forall s, t :: Inv(s) && Next(s, t) ==> Inv(t)
  {
    forall s, t | Inv(s) && Next(s, t) ensures Inv(t) {
      var step :| Enabled(s, step) && NotOverrun(s, step) && t == Apply(s, step);
      StepKeepsInv(s, step);
    }
  }

  /** Delivery never skips: in every run, each committed number at or below the stored cursor
      reached every sink, was reported in a gap, or was folded before the first cursor existed. */
  lemma DeliveryNeverSkips(run: seq<State>, i: nat, n: nat)
    requires IsRun(run) && i < |run| && run[i].cursor.slot.Some?
    requires n in run[i].committed && 0 < n <= run[i].cursor.slot.value.value
    ensures Delivered(run[i], n) || n in run[i].gaps || (run[i].initial.Some? && n <= run[i].initial.value)
  {
    Inductive();
    Runs.Always(Init, Next, Inv, run, i);
    assert Accounted(run[i], n);
  }

  /** Without the premise it can skip: entry 1 is folded between the bridge's sync and its log
      read. Nothing is sent, nothing is reported, and the cursor moves past it. */
  lemma OverrunSkipsAnEntry() returns (run: seq<State>)
    ensures Runs.IsRun(Init, Moves, run)
    ensures var last := run[|run| - 1];
            && last.cursor.slot.Some? && last.cursor.slot.value.value == 1 && 1 in last.committed
            && last.delivered == [{}] && last.gaps == {} && last.initial == Some(0)
  {
    var before := SyncThenFold();
    var s4 := before[4];
    var s5 := Move(s4, Fetch(0));
    assert s5.bridges[0].batch == {};
    var s6 := Move(s5, Send(0));
    assert s6.delivered[0] == {};
    var s7 := Move(s6, Put(0, Proceed));
    run := before + [s5, s6, s7];
    forall i | 0 < i < |run| ensures Moves(run[i - 1], run[i]) {
      assert i < 5 ==> run[i - 1] == before[i - 1] && run[i] == before[i];
    }
  }

  lemma SyncThenFold() returns (run: seq<State>)
    ensures |run| == 5 && Runs.IsRun(Init, Moves, run)
    ensures run[4] == State({1}, 1, 1, Register(None, 0), map[0 := Loaded(1, 0, None, None)], [{}], {}, None)
  {
    var s0 := State({}, 0, 0, Register(None, 0), map[], [{}], {}, None);
    var s1 := Move(s0, Publish({1}, 1));
    var s2 := Move(s1, Start(0));
    var s3 := Move(s2, LoadCursor(0));
    var s4 := Move(s3, Fold(1));
    run := [s0, s1, s2, s3, s4];
  }

  lemma Move(s: State, step: Step) returns (t: State)
    requires Enabled(s, step)
    ensures t == Apply(s, step) && Moves(s, t)
  {
    t := Apply(s, step);
  }

  /** A loaded cursor is the stored one for as long as its version is. */
  ghost predicate Paired(s: State) {
    && Sound(s.cursor)
    && forall b | b in s.bridges && !s.bridges[b].Synced? && s.bridges[b].version.Some? ::
         var p := s.bridges[b];
         p.version.value <= s.cursor.counter && (Holds(s.cursor, p.version.value) ==> p.cursor == Some(s.cursor.slot.value.value))
  }

  lemma PairedAlways(run: seq<State>, i: nat)
    requires IsRun(run) && i < |run|
    ensures Paired(run[i])
  {
    Inductive();
    forall s, t | Paired(s) && Next(s, t) ensures Paired(t) {
      var step :| Enabled(s, step) && NotOverrun(s, step) && t == Apply(s, step);
      PairedStep(s, step);
    }
    forall s | Init(s) ensures Paired(s) {
      assert Inv(s);
    }
    Runs.Always(Init, Next, Paired, run, i);
  }

  lemma PairedStep(s: State, step: Step)
    requires Paired(s) && Enabled(s, step)
    ensures Paired(Apply(s, step))
  {
  }

  /** In every run, the stored cursor goes back exactly when a bridge that synced its manifest
      earlier loaded a cursor that was already past its head, and its write is accepted. */
  lemma CursorGoesBackIff(run: seq<State>, i: nat, b: nat, fault: Fault)
    requires IsRun(run) && i < |run| && Enabled(run[i], Put(b, fault))
    requires run[i].cursor.slot.Some? && Apply(run[i], Put(b, fault)).cursor != run[i].cursor
    ensures var s, t := run[i], Apply(run[i], Put(b, fault));
            && t.cursor.slot.Some? && s.bridges[b].cursor.Some?
            && (t.cursor.slot.value.value < s.cursor.slot.value.value <==> s.bridges[b].cursor.value > s.bridges[b].head)
  {
    PairedAlways(run, i);
  }

  // ---------------------------------------------------------------------------
  // Nothing is reported or sent that should not be
  // ---------------------------------------------------------------------------

  /** Every reported number was committed and is folded into a checkpoint, and no bridge counts more
      as folded than is. */
  ghost predicate GapsAreFolded(s: State) {
    && (forall n | n in s.gaps :: n in s.committed && 0 < n <= s.checkpoint)
    && (forall b | b in s.bridges :: s.bridges[b].readable <= s.checkpoint)
  }

  lemma GapsStayFolded(s: State, step: Step)
    requires GapsAreFolded(s) && Enabled(s, step)
    ensures GapsAreFolded(Apply(s, step))
  {
  }

  /** In every run, even one that skips entries, a gap is reported exactly for the committed numbers
      past the cursor that the bridge saw folded, and only for folded ones. */
  lemma GapIff(run: seq<State>, i: nat, b: nat, n: nat)
    requires Runs.IsRun(Init, Moves, run) && i < |run| && Enabled(run[i], LoadCursor(b))
    ensures var s, t := run[i], Apply(run[i], LoadCursor(b));
            && (n in t.gaps <==>
                  n in s.gaps || (s.cursor.slot.Some? && n in s.committed && s.cursor.slot.value.value < n <= s.bridges[b].readable))
            && (n in t.gaps ==> n in s.committed && n <= s.checkpoint)
  {
    forall s | Init(s) ensures GapsAreFolded(s) {
    }
    forall s, t | GapsAreFolded(s) && Moves(s, t) ensures GapsAreFolded(t) {
      var step :| Enabled(s, step) && t == Apply(s, step);
      GapsStayFolded(s, step);
    }
    Runs.Always(Init, Moves, GapsAreFolded, run, i);
  }

  /** A bridge that syncs and at once loads a cursor reports exactly what is folded past it. */
  lemma UndisturbedReport(s: State, b: nat, n: nat)
    requires b !in s.bridges && s.cursor.slot.Some?
    ensures Enabled(s, Start(b)) && Enabled(Apply(s, Start(b)), LoadCursor(b))
    ensures var t := Apply(Apply(s, Start(b)), LoadCursor(b));
            && (n in t.gaps <==> n in s.gaps || (n in s.committed && s.cursor.slot.value.value < n <= s.checkpoint))
            && t.bridges[b].head == s.head && t.bridges[b].cursor == Some(s.cursor.slot.value.value)
  {
  }

  /** What a bridge sends is exactly the committed numbers up to the head it synced that are past its
      cursor, past what it counts as folded, and not folded by then. */
  lemma BatchIff(s: State, b: nat, n: nat)
    requires Enabled(s, Fetch(b))
    ensures var p, t := s.bridges[b], Apply(s, Fetch(b));
            && t.bridges[b].Sending?
            && (n in t.bridges[b].batch <==>
                  && n in s.committed && n <= p.head && p.readable < n && s.checkpoint < n
                  && (p.cursor.Some? ==> p.cursor.value < n))
            && t.delivered == s.delivered && t.gaps == s.gaps
  {
  }

  /** A cursor write that nothing disturbs moves the cursor to the head the bridge synced. */
  lemma UndisturbedPut(s: State, b: nat)
    requires Enabled(s, Put(b, Proceed)) && var p := s.bridges[b];
             if p.version.Some? then Holds(s.cursor, p.version.value) && p.cursor == Some(s.cursor.slot.value.value)
             else s.cursor.slot.None? && p.cursor.None?
    ensures var t := Apply(s, Put(b, Proceed)); t.cursor.slot.Some? && t.cursor.slot.value.value == s.bridges[b].head
  {
  }

  lemma Extend(run: seq<State>, step: Step) returns (longer: seq<State>)
    requires IsRun(run) && Enabled(run[|run| - 1], step) && NotOverrun(run[|run| - 1], step)
    ensures IsRun(longer) && longer[|longer| - 1] == Apply(run[|run| - 1], step)
  {
    longer := run + [Apply(run[|run| - 1], step)];
    assert Next(run[|run| - 1], Apply(run[|run| - 1], step));
    forall i | 0 < i < |longer| ensures Next(longer[i - 1], longer[i]) {
      assert i < |run| ==> longer[i - 1] == run[i - 1] && longer[i] == run[i];
    }
  }

  lemma SecondBridgeAhead() returns (run: seq<State>)
    ensures IsRun(run)
    ensures var s := run[|run| - 1];
            && s.cursor == Register(Some(Object(1, 2)), 1) && s.head == 2 && s.checkpoint == 0
            && s.bridges == map[0 := Synced(1, 0)]
  {
    var s0 := State({}, 0, 0, Register(None, 0), map[], [{}], {}, None);
    run := [s0];
    run := Extend(run, Publish({1}, 1));
    run := Extend(run, Start(0));
    run := Extend(run, Publish({2}, 2));
    run := Extend(run, Start(1));
    assert run[|run| - 1] == State({1, 2}, 2, 0, Register(None, 0), map[0 := Synced(1, 0), 1 := Synced(2, 0)], [{}], {}, None);
    run := CatchUpOne(run);
  }

  lemma CatchUpOne(run: seq<State>) returns (longer: seq<State>)
    requires IsRun(run)
    requires run[|run| - 1] == State({1, 2}, 2, 0, Register(None, 0), map[0 := Synced(1, 0), 1 := Synced(2, 0)], [{}], {}, None)
    ensures IsRun(longer)
    ensures var s := longer[|longer| - 1];
            && s.cursor == Register(Some(Object(1, 2)), 1) && s.head == 2 && s.checkpoint == 0
            && s.bridges == map[0 := Synced(1, 0)]
  {
    longer := Extend(run, LoadCursor(1));
    longer := Extend(longer, Fetch(1));
    longer := Extend(longer, Send(1));
    longer := Extend(longer, Put(1, Proceed));
    assert longer[|longer| - 1].bridges == map[0 := Synced(1, 0)];
  }

  /** A run in which the cursor goes from 2 back to 1: what was delivered may be delivered again. It
      takes a build without overflow checks: with them, the gauge of how far the cursor is behind,
      an unsigned subtraction, panics before the cursor is written. */
  lemma CursorGoesBack() returns (run: seq<State>)
    ensures IsRun(run) && |run| >= 2
    ensures var s, t := run[|run| - 2], run[|run| - 1];
            s.cursor.slot.Some? && t.cursor.slot.Some? && s.cursor.slot.value.value == 2 && t.cursor.slot.value.value == 1
  {
    var ahead := SecondBridgeAhead();
    var loaded := Extend(ahead, LoadCursor(0));
    var s := loaded[|loaded| - 1];
    assert s.bridges[0] == Loaded(1, 0, Some(2), Some(1));
    run := loaded + [Apply(s, Put(0, Proceed))];
    assert Next(s, Apply(s, Put(0, Proceed))) by {
      assert NotOverrun(s, Put(0, Proceed));
    }
    forall i | 0 < i < |run| ensures Next(run[i - 1], run[i]) {
      assert i < |loaded| ==> run[i - 1] == loaded[i - 1] && run[i] == loaded[i];
    }
  }
}
