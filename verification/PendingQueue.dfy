/**
  The pending-marker queue. A push commits its entry to the manifest and then overwrites the
  repository's marker; a maintainer lists the marker, plans on a freshly read manifest until there
  is nothing left to do, and deletes the marker only if it still has the version it listed.

  A compaction publishes like a push. Each read, decision and write is a step of its own. A
  maintainer's manifest is freshly read, that is, the freshness time-to-live is zero.
 */
module PendingQueue {
  import opened Prelude
  import opened VersionedStore
  import Runs

  /** `listed` is the marker version, `seen` the head of the manifest last read, `idle` the head on
      which this maintainer found nothing left to do. */
  datatype Maintainer = Maintainer(listed: nat, seen: Option<nat>, idle: Option<nat>)

  /** `committing` are pushes between their manifest write and their marker write. The rest is
      history: the marker version each push wrote, how many marker writes were applied, the version
      and the head at the last of them, and every head on which a maintainer was idle. */
  datatype State = State(
    head: nat,
    marker: Register<()>,
    committing: map<nat, nat>,
    maintainers: map<nat, Maintainer>,
    marked: map<nat, nat>,
    writes: nat,
    last: nat,
    covered: nat,
    idles: set<nat>)

  datatype Step =
    | PushCommit(p: nat, entries: nat)
    | PushMark(p: nat, fault: Fault)
    | PushCrash(p: nat)
    | ListMarker(m: nat)
    | ReadManifest(m: nat)
    | RunUnit(m: nat)
    | DecideIdle(m: nat)
    | DeleteMarker(m: nat, fault: Fault)
    | Leave(m: nat)
    | OtherWrites(n: nat)

  predicate Enabled(s: State, step: Step) {
    match step
    case PushCommit(p, entries) => p !in s.committing && entries > 0
    case PushMark(p, _) => p in s.committing
    case PushCrash(p) => p in s.committing
    case ListMarker(m) => m !in s.maintainers && s.marker.slot.Some?
    case ReadManifest(m) => m in s.maintainers
    case RunUnit(m) => m in s.maintainers && s.maintainers[m].seen.Some?
    case DecideIdle(m) => m in s.maintainers && s.maintainers[m].seen.Some?
    case DeleteMarker(m, _) => m in s.maintainers && s.maintainers[m].idle.Some?
    case Leave(m) => m in s.maintainers
    case OtherWrites(_) => true
  }

  function Apply(s: State, step: Step): State
    requires Enabled(s, step)
  {
    match step
    case PushCommit(p, entries) => s.(head := s.head + entries, committing := s.committing[p := s.head + entries])
    case PushMark(p, fault) =>
      var put := FaultyPut(s.marker, Overwrite, (), fault).register;
      if put == s.marker then s.(committing := s.committing - {p})
      else s.(marker := put, committing := s.committing - {p}, marked := s.marked[s.committing[p] := put.counter],
              writes := s.writes + 1, last := put.counter, covered := s.head)
    case PushCrash(p) => s.(committing := s.committing - {p})
    case ListMarker(m) => s.(maintainers := s.maintainers[m := Maintainer(s.marker.slot.value.version, None, None)])
    case ReadManifest(m) => s.(maintainers := s.maintainers[m := s.maintainers[m].(seen := Some(s.head), idle := None)])
    case RunUnit(m) => s.(maintainers := s.maintainers[m := s.maintainers[m].(seen := None, idle := None)])
    case DecideIdle(m) =>
      s.(maintainers := s.maintainers[m := s.maintainers[m].(idle := s.maintainers[m].seen)],
         idles := s.idles + {s.maintainers[m].seen.value})
    case DeleteMarker(m, fault) =>
      s.(marker := FaultyDelete(s.marker, Some(s.maintainers[m].listed), fault).register, maintainers := s.maintainers - {m})
    case Leave(m) => s.(maintainers := s.maintainers - {m})
    case OtherWrites(n) => s.(marker := s.marker.(counter := s.marker.counter + n))
  }

  ghost predicate Init(s: State) {
    && Sound(s.marker)
    && s.committing == map[] && s.maintainers == map[] && s.marked == map[] && s.idles == {}
    && s.writes == 0 && s.last == 0 && s.covered == 0
  }

  ghost predicate Next(s: State, t: State) {
    exists step :: Enabled(s, step) && t == Apply(s, step)
  }

  ghost predicate IsRun(run: seq<State>) {
    Runs.IsRun(Init, Next, run)
  }

  // ---------------------------------------------------------------------------
  // The invariant
  // ---------------------------------------------------------------------------

  /** Someone was idle on a manifest that already had this push. */
  ghost predicate Served(s: State, seqNo: nat) {
    exists h | h in s.idles :: seqNo <= h
  }

  /** The last marker written is still there. */
  predicate Waiting(s: State) {
    s.marker.slot.Some? && s.last <= s.marker.slot.value.version
  }

  ghost predicate MarkedOk(s: State) {
    forall n | n in s.marked :: n <= s.covered && s.marked[n] <= s.last
  }

  /** What the last marker write stands for is waiting or served. */
  ghost predicate LastOk(s: State) {
    && s.last <= s.marker.counter && s.covered <= s.head
    && (s.writes == 0 ==> s.covered == 0 && s.last == 0)
    && (s.writes > 0 ==> (Holds(s.marker, s.last) || (s.marker.slot.None? && Served(s, s.covered))))
  }

  /** A manifest read after the last marker was listed has every push that the marker stands for. */
  predicate MaintainerOk(s: State, x: Maintainer) {
    && x.listed <= s.marker.counter
    && (x.seen.Some? ==> x.seen.value <= s.head && (x.listed >= s.last ==> s.covered <= x.seen.value))
    && (x.idle.Some? ==> x.idle.value in s.idles && (x.listed >= s.last ==> s.covered <= x.idle.value))
  }

  ghost predicate Inv(s: State) {
    && Sound(s.marker)
    && (forall p | p in s.committing :: s.committing[p] <= s.head)
    && MarkedOk(s) && LastOk(s)
    && (forall m | m in s.maintainers :: MaintainerOk(s, s.maintainers[m]))
  }

  lemma MarkKeepsInv(s: State, p: nat, fault: Fault)
    requires Inv(s) && p in s.committing
    ensures Inv(Apply(s, PushMark(p, fault)))
  {
    var t := Apply(s, PushMark(p, fault));
    assert t.writes == s.writes ==> t == s.(committing := s.committing - {p});
    assert Served(s, s.covered) ==> Served(t, s.covered);
    forall m | m in t.maintainers ensures MaintainerOk(t, t.maintainers[m]) {
      assert MaintainerOk(s, s.maintainers[m]);
    }
  }

  lemma IdleKeepsInv(s: State, m: nat)
    requires Inv(s) && Enabled(s, DecideIdle(m))
    ensures Inv(Apply(s, DecideIdle(m)))
  {
    var t := Apply(s, DecideIdle(m));
    assert Served(s, s.covered) ==> Served(t, t.covered);
    forall x | x in t.maintainers ensures MaintainerOk(t, t.maintainers[x]) {
      assert MaintainerOk(s, s.maintainers[x]);
    }
  }

  /** A delete that goes through removes exactly the listed marker, and everything it stood for
      was in the manifest on which this maintainer was idle. */
  lemma DeleteKeepsInv(s: State, m: nat, fault: Fault)
    requires Inv(s) && Enabled(s, DeleteMarker(m, fault))
    ensures Inv(Apply(s, DeleteMarker(m, fault)))
  {
    var t := Apply(s, DeleteMarker(m, fault));
    var x := s.maintainers[m];
    assert MaintainerOk(s, x);
    assert Served(s, s.covered) ==> Served(t, t.covered);
    if t.marker.slot != s.marker.slot {
      assert s.marker.slot.value.version == x.listed;
      assert s.writes > 0 ==> x.idle.value in t.idles && t.covered <= x.idle.value;
    }
  }

  lemma QuietKeepsInv(s: State, step: Step)
    requires Inv(s) && Enabled(s, step) && !step.PushMark? && !step.DecideIdle? && !step.DeleteMarker?
    ensures Inv(Apply(s, step))
  {
    var t := Apply(s, step);
    assert Served(s, s.covered) ==> Served(t, t.covered);
    forall x | x in t.maintainers ensures MaintainerOk(t, t.maintainers[x]) {
      assert x in s.maintainers ==> MaintainerOk(s, s.maintainers[x]);
    }
  }

  lemma StepKeepsInv(s: State, step: Step)
    requires Inv(s) && Enabled(s, step)
    ensures Inv(Apply(s, step))
  {
    match step
    case PushMark(p, fault) => MarkKeepsInv(s, p, fault);
    case DecideIdle(m) => IdleKeepsInv(s, m);
    case DeleteMarker(m, fault) => DeleteKeepsInv(s, m, fault);
    case _ => QuietKeepsInv(s, step);
  }

  lemma Inductive()
    ensures forall s :: Init(s) ==> Inv(s)
    ensures forall s, t :: Inv(s) && Next(s, t) ==> Inv(t)
  {
    forall s, t | Inv(s) && Next(s, t) ensures Inv(t) {
      var step :| Enabled(s, step) && t == Apply(s, step);
      StepKeepsInv(s, step);
    }
  }

  /** No lost wake-up: in every run, whatever was committed when a marker write was applied either
      still has a marker at least as new, or some maintainer was idle on a manifest whose head was
      at or past it. A push whose own marker write was applied is among them. */
  lemma NoLostWakeUp(run: seq<State>, i: nat, seqNo: nat)
    requires IsRun(run) && i < |run| && 0 < seqNo
    ensures seqNo <= run[i].covered ==> Waiting(run[i]) || Served(run[i], seqNo)
    ensures seqNo <= run[i].covered && run[i].marker.slot.None? ==> Served(run[i], seqNo)
    ensures seqNo in run[i].marked ==> seqNo <= run[i].covered && run[i].marked[seqNo] <= run[i].last
  {
    Inductive();
    Runs.Always(Init, Next, Inv, run, i);
    assert Served(run[i], run[i].covered) && seqNo <= run[i].covered ==> Served(run[i], seqNo);
  }

  /** No marker, nobody at work, and nobody was ever idle past this push. */
  ghost predicate Asleep(s: State, seqNo: nat) {
    s.marker.slot.None? && s.maintainers == map[] && !Served(s, seqNo)
  }

  lemma AsleepStays(s: State, step: Step, seqNo: nat)
    requires Asleep(s, seqNo) && Enabled(s, step)
    ensures Apply(s, step).writes == s.writes ==> Asleep(Apply(s, step), seqNo)
  {
  }

  ghost predicate Since(s: State, t: State, seqNo: nat) {
    s.writes <= t.writes && s.head <= t.head && (t.writes == s.writes ==> Asleep(t, seqNo)) && (t.writes > s.writes ==> s.head <= t.covered)
  }

  lemma SinceStep(r: State, s: State, step: Step, seqNo: nat)
    requires Since(r, s, seqNo) && Enabled(s, step)
    ensures Since(r, Apply(s, step), seqNo)
  {
    if s.writes == r.writes {
      AsleepStays(s, step, seqNo);
    }
  }

  /** Exactly when a push that nothing is going to wake anybody for is noticed after all: it has a
      marker or was served at a later moment if and only if a marker write was applied in between. */
  lemma WakesUpIff(run: seq<State>, i: nat, j: nat, seqNo: nat)
    requires IsRun(run) && i <= j < |run| && 0 < seqNo <= run[i].head && Asleep(run[i], seqNo)
    ensures Waiting(run[j]) || Served(run[j], seqNo) <==> run[j].writes > run[i].writes
  {
    SinceAlong(run, i, j, seqNo);
    NoLostWakeUp(run, j, seqNo);
  }

  lemma {:induction false} SinceAlong(run: seq<State>, i: nat, j: nat, seqNo: nat)
    requires IsRun(run) && i <= j < |run| && Asleep(run[i], seqNo)
    ensures Since(run[i], run[j], seqNo)
    decreases j
  {
    if i < j {
      SinceAlong(run, i, j - 1, seqNo);
      assert Next(run[j - 1], run[j]);
      var step :| Enabled(run[j - 1], step) && run[j] == Apply(run[j - 1], step);
      SinceStep(run[i], run[j - 1], step, seqNo);
    }
  }

  ghost predicate Remembers(s: State, t: State) {
    s.head <= t.head && s.idles <= t.idles && s.writes <= t.writes && s.covered <= t.covered && forall n | n in s.marked :: n in t.marked && s.marked[n] <= t.marked[n]
  }

  /** A decision to be idle was about a manifest that existed: its head never exceeds the head at
      any later moment, and no push is forgotten. */
  lemma HistoryIsKept(run: seq<State>, i: nat, j: nat)
    requires IsRun(run) && i <= j < |run|
    ensures Remembers(run[i], run[j])
    ensures forall h | h in run[j].idles :: h <= run[j].head
  {
    Inductive();
    IdleHeadsExist();
    forall r, s, t | Inv(s) && Remembers(r, s) && Next(s, t) ensures Remembers(r, t) {
      var step :| Enabled(s, step) && t == Apply(s, step);
      StepRemembers(s, step);
    }
    Runs.Throughout(Init, Next, Inv, (s: State) => true, Remembers, run, i, j);
    Runs.Always(Init, Next, IdleHeads, run, j);
  }

  ghost predicate IdleHeads(s: State) {
    Inv(s) && forall h | h in s.idles :: h <= s.head
  }

  lemma IdleHeadsExist()
    ensures forall s :: Init(s) ==> IdleHeads(s)
    ensures forall s, t :: IdleHeads(s) && Next(s, t) ==> IdleHeads(t)
  {
    Inductive();
    forall s, t | IdleHeads(s) && Next(s, t) ensures IdleHeads(t) {
      var step :| Enabled(s, step) && t == Apply(s, step);
      assert step.DecideIdle? ==> MaintainerOk(s, s.maintainers[step.m]);
    }
  }

  lemma StepRemembers(s: State, step: Step)
    requires Inv(s) && Enabled(s, step)
    ensures Remembers(s, Apply(s, step))
  {
  }

  /** The marker write is best effort. If it does not reach the store, the push stands without a
      marker and nobody need ever be idle past it. */
  lemma LostMarkerLosesTheWakeUp() returns (run: seq<State>)
    ensures IsRun(run)
    ensures var last := run[|run| - 1];
            last.head == 1 && last.committing == map[] && Asleep(last, 1)
  {
    var s := State(0, Register(None, 0), map[], map[], map[], 0, 0, 0, {});
    var t := Apply(s, PushCommit(0, 1));
    var u := Apply(t, PushMark(0, ErrBefore));
    run := [s, t, u];
    assert Next(s, t) by {
      assert Enabled(s, PushCommit(0, 1));
    }
    assert Next(t, u) by {
      assert Enabled(t, PushMark(0, ErrBefore));
    }
  }

  /** A visit that nothing disturbs serves the head and removes the marker. */
  lemma UndisturbedVisit(s: State, m: nat)
    requires m !in s.maintainers && s.marker.slot.Some?
    ensures Enabled(s, ListMarker(m))
    ensures var listed := Apply(s, ListMarker(m));
            && Enabled(listed, ReadManifest(m))
            && var read := Apply(listed, ReadManifest(m));
               && Enabled(read, DecideIdle(m))
               && var idle := Apply(read, DecideIdle(m));
                  && Enabled(idle, DeleteMarker(m, Proceed))
                  && var t := Apply(idle, DeleteMarker(m, Proceed));
                     t.marker.slot.None? && s.head in t.idles && t.head == s.head && m !in t.maintainers
  {
  }

  /** A marker written after the listing is not the one that is deleted; one that was listed goes,
      unless the delete is lost. */
  lemma MarkerRemovedIff(s: State, m: nat, fault: Fault)
    requires Enabled(s, DeleteMarker(m, fault)) && s.marker.slot.Some?
    ensures Apply(s, DeleteMarker(m, fault)).marker.slot.None? <==>
            (fault == Proceed || fault == ErrAfter) && s.marker.slot.value.version == s.maintainers[m].listed
  {
  }

  /** A marker write that reaches the store leaves a marker with a new version. */
  lemma MarkIsWritten(s: State, p: nat, fault: Fault)
    requires Enabled(s, PushMark(p, fault))
    ensures var t := Apply(s, PushMark(p, fault));
            if fault == Proceed || fault == ErrAfter then Holds(t.marker, s.marker.counter + 1) else t.marker == s.marker
  {
  }
}
