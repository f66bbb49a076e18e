/** A run after which a rewind gives refs that were never those of its target. */
module RewindRuns {
  import opened Prelude
  import opened VersionedStore
  import opened Wal
  import opened Checkpoint
  import opened CheckpointRuns
  import opened LogReader
  import opened Rewind

  /** Instance 0 has planned a checkpoint of the first push and taken its refs after the second. */
  predicate TakenLate(s: State) {
    && s.bucket.initial == Unborn && s.bucket.log == [E1, E2] && s.bucket.segments == map[1 := [E1], 2 := [E2]]
    && s.bucket.refsObjects == map[1 := AAndB] && s.bucket.packObjects == map[1 := []]
    && s.register == Register(Some(Object(2, M2)), 2)
  }

  const AAndB: RefState := RefState(map["a" := "1", "b" := "2"], "a", "")

  /** Planned at 1, with the second push published. */
  predicate PlannedEarly(s: State) {
    && s.bucket.initial == Unborn && s.bucket.log == [E1, E2] && s.bucket.segments == map[1 := [E1], 2 := [E2]]
    && s.bucket.refsObjects == map[] && s.bucket.packObjects == map[]
    && s.register == Register(Some(Object(2, M2)), 2)
    && 0 in s.handles && s.handles[0] == Handle(M1, Some(1), OnlyA, None, Some(Job(1, [], None, false, false, None, None)), None)
  }

  lemma PlanThenPush() returns (run: seq<State>, s: State)
    ensures Ends(run, s) && PlannedEarly(s)
  {
    var s0;
    run, s0 := SyncFirst();
    run := Take(run, s0, Plan(0));
    var s1 := Apply(s0, Plan(0));
    run := CheckpointRuns.Push(run, s1, 2, "b", "2");
    s := Pushed(s1, E2);
    FirstPushes();
    assert s.bucket.log == [E1] + [E2];
  }

  lemma AheadToTwo()
    ensures Pos([E1, E2], 1) == 1 && ApplyEntries(OnlyA, [E1, E2][1..2]) == AAndB
  {
    PosIs([E1, E2], 1, 1);
    assert [E1, E2][1..2] == [E2];
    PushSets(OnlyA, 2, "b", "2");
  }

  lemma TakeLate() returns (run: seq<State>, s: State)
    ensures Ends(run, s) && TakenLate(s)
  {
    var s0;
    run, s0 := PlanThenPush();
    AheadToTwo();
    run := Take(run, s0, RefsAhead(0, 2));
    var s1 := Apply(s0, RefsAhead(0, 2));
    run := Take(run, s1, TakeSnapshot(0));
    var s2 := Apply(s1, TakeSnapshot(0));
    run := PutBoth(run, s2, 0);
    s := run[|run| - 1];
  }

  const TwoSegments: map<nat, seq<LogEntry>> := map[1 := [E1], 2 := [E2]]

  lemma NothingAfterOne()
    ensures Formed(TwoSegments) && ReadLogAt(TwoSegments, M2, 2, Some(1)) == Some([])
  {
  }

  lemma RewoundToOne(b: Bucket)
    requires b.segments == TwoSegments && b.refsObjects == map[1 := AAndB] && b.packObjects == map[1 := []]
    ensures Formed(b.segments) && Rebuild(b, Some(1), M2, M2, 1) == Ok((AAndB, []))
  {
    NothingAfterOne();
    assert Gather(b.segments, M2, M2, 1, 1) == Ok([]);
    assert Replayed([], 1, 1) == [];
    assert LoadSnapshot(b.initial, AAndB) == AAndB;
  }

  lemma RightAtOne()
    ensures StateAt(Unborn, [E1, E2], Pos([E1, E2], 1)) == OnlyA
  {
    AtFirst();
    assert [E1, E2][..1] == [E1][..1];
  }

  /** A checkpoint of the first push whose refs are read after the second has landed locally. Both its
      objects are written; its manifest write never happens, and it is listed all the same. Rewinding
      to 1 gives the second push too, though no number was burned and nothing was collected. */
  lemma LateSnapshotMisleadsRewind() returns (run: seq<State>)
    ensures IsRun(run)
    ensures var b, register := run[|run| - 1].bucket, run[|run| - 1].register;
            && register.slot.Some?
            && var m := register.slot.value.value;
               && IsRetained(m, [1], 1, Some(1)) && (forall n | 1 <= n <= 2 :: Numbered(b.log, n)) && Formed(b.segments)
               && Rebuild(b, Some(1), m, m, 1) == Ok((AAndB, []))
               && StateAt(b.initial, b.log, Pos(b.log, 1)) == OnlyA
  {
    var s;
    run, s := TakeLate();
    RewoundToOne(s.bucket);
    RightAtOne();
    assert s.bucket.log[0].seqNo == 1 && s.bucket.log[1].seqNo == 2;
  }
}
