/**
  Runs that lose a push once a premise of the checkpoint protocol is dropped, and what the code
  would have to lock for one of the premises to hold by itself.
 */
module CheckpointRuns {
  import opened Prelude
  import opened VersionedStore
  import opened Wal
  import opened Checkpoint
  import opened CheckpointSafety
  import Runs

  // ---------------------------------------------------------------------------
  // Reads that no sync comes between
  // ---------------------------------------------------------------------------

  lemma StepMoves(s: State, step: Step)
    requires Enabled(s, step)
    ensures Moved(s.register, Apply(s, step).register)
  {
    match step
    case Commit(p, now, fault) => CommitOutcome(s.register, s.handles[p], now, fault);
    case Annotate(p, packs, updatedAt, fault) =>
      EditOutcome(s.register, s.handles[p], AnnotatedManifest(s.handles[p].edit.value.base, packs, updatedAt), fault);
    case CompactPut(p, e, size, updatedAt, fault) =>
      EditOutcome(s.register, s.handles[p], PublishManifest(s.handles[p].edit.value.base, [e], size, updatedAt), fault);
    case _ =>
  }

  lemma KnownStays(register: Register<Manifest>, next: Register<Manifest>, m: Manifest, version: nat)
    requires Known(register, m, version) && Moved(register, next)
    ensures Known(next, m, version)
  {
  }

  /** A version and the manifest it was read with stay a pair for the rest of the run. */
  lemma PairStays(run: seq<State>, i: nat, j: nat, m: Manifest, version: nat)
    requires IsRun(run) && i <= j < |run| && Known(run[i].register, m, version)
    ensures Known(run[j].register, m, version)
  {
    Inductive();
    var paired := (s: State) => Known(s.register, m, version);
    forall s, t | Inv(s) && paired(s) && Next(s, t) ensures paired(t) {
      var step :| Enabled(s, step) && Unovertaken(s, step) && Matched(s, step) && t == Apply(s, step);
      StepMoves(s, step);
      KnownStays(s.register, t.register, m, version);
    }
    Runs.Henceforth(Init, Next, Inv, paired, run, i, j);
  }

  predicate HasRead(s: State, p: nat, m: Manifest) {
    p in s.handles && s.handles[p].job.Some? && s.handles[p].job.value.base == Some(m)
  }

  ghost predicate Unsynced(s: State, t: State, p: nat) {
    exists step :: Enabled(s, step) && step != SyncApply(p) && t == Apply(s, step)
  }

  /** While a writer holds the manifest it read, only a sync gives its instance another one. */
  lemma OnlySyncMovesManifest(s: State, t: State, p: nat, m: Manifest)
    requires HasRead(s, p, m) && HasRead(t, p, m) && Unsynced(s, t, p)
    ensures t.handles[p].manifest == s.handles[p].manifest
  {
  }

  predicate HasManifest(s: State, p: nat, m: Manifest) {
    p in s.handles && s.handles[p].manifest == m
  }

  lemma {:induction false} ManifestStands(run: seq<State>, i: nat, j: nat, p: nat, m: Manifest)
    requires i <= j < |run| && HasManifest(run[i], p, m)
    requires forall k | i < k <= j :: HasManifest(run[k - 1], p, m) ==> HasManifest(run[k], p, m)
    ensures HasManifest(run[j], p, m)
    decreases j
  {
    if i < j {
      ManifestStands(run, i, j - 1, p, m);
    }
  }

  lemma ManifestUntilSync(run: seq<State>, i: nat, j: nat, p: nat, m: Manifest)
    requires i <= j < |run| && HasRead(run[i], p, m) && HasRead(run[j], p, m)
    requires forall k | i <= k <= j :: HasRead(run[k], p, m)
    requires forall k | i < k <= j :: Unsynced(run[k - 1], run[k], p)
    ensures run[j].handles[p].manifest == run[i].handles[p].manifest
  {
    var held := run[i].handles[p].manifest;
    forall k | i < k <= j ensures HasManifest(run[k - 1], p, held) ==> HasManifest(run[k], p, held) {
      OnlySyncMovesManifest(run[k - 1], run[k], p, m);
    }
    ManifestStands(run, i, j, p, held);
  }

  /** The premise on the two reads holds by itself if no sync of the instance falls between them:
      the manifest is read by state `i`, the version by state `j`, the write comes at state `k`. */
  lemma UnsplitReadsMatch(run: seq<State>, i: nat, j: nat, k: nat, p: nat, m: Manifest, now: Option<int>, fault: Fault)
    requires IsRun(run) && i <= j <= k < |run|
    requires HasRead(run[i], p, m) && HasRead(run[j], p, m) && run[i].handles[p].manifest == m
    requires forall x | i <= x <= j :: HasRead(run[x], p, m)
    requires forall x | i < x <= j :: Unsynced(run[x - 1], run[x], p)
    requires HasRead(run[k], p, m) && run[k].handles[p].job.value.version == Some(run[j].handles[p].version)
    ensures Matched(run[k], Commit(p, now, fault))
  {
    ManifestUntilSync(run, i, j, p, m);
    var version := run[j].handles[p].version;
    if version.Some? {
      HandlePair(run, j, p);
      PairStays(run, j, k, m, version.value);
      PairMatches(run[k].register, run[k].handles[p], m, version.value);
    }
  }

  lemma HandlePair(run: seq<State>, j: nat, p: nat)
    requires IsRun(run) && j < |run| && p in run[j].handles && run[j].handles[p].version.Some?
    ensures Known(run[j].register, run[j].handles[p].manifest, run[j].handles[p].version.value)
  {
    ReachableInv(run, j);
    assert HandleOk(run[j].bucket, run[j].register, run[j].handles[p]);
  }

  lemma PairMatches(register: Register<Manifest>, h: Handle, m: Manifest, version: nat)
    requires Known(register, m, version) && h.job.Some? && h.job.value.base == Some(m) && h.job.value.version == Some(Some(version))
    ensures OnStoredHead(register, h)
  {
  }

  predicate HasEdit(s: State, p: nat, m: Manifest) {
    p in s.handles && s.handles[p].edit.Some? && s.handles[p].edit.value.base == m
  }

  ghost predicate Uninstalled(s: State, t: State, p: nat) {
    exists step :: Enabled(s, step) && step != SyncApply(p) && !(step.Commit? && step.p == p) && t == Apply(s, step)
  }

  lemma OnlyInstallsMoveManifest(s: State, t: State, p: nat, m: Manifest)
    requires HasEdit(s, p, m) && HasEdit(t, p, m) && Uninstalled(s, t, p)
    ensures t.handles[p].manifest == s.handles[p].manifest
  {
  }

  lemma ManifestUntilInstall(run: seq<State>, i: nat, j: nat, p: nat, m: Manifest)
    requires i <= j < |run| && forall k | i <= k <= j :: HasEdit(run[k], p, m)
    requires forall k | i < k <= j :: Uninstalled(run[k - 1], run[k], p)
    ensures HasEdit(run[i], p, m) && HasEdit(run[j], p, m) && run[j].handles[p].manifest == run[i].handles[p].manifest
  {
    var held := run[i].handles[p].manifest;
    forall k | i < k <= j ensures HasManifest(run[k - 1], p, held) ==> HasManifest(run[k], p, held) {
      OnlyInstallsMoveManifest(run[k - 1], run[k], p, m);
    }
    ManifestStands(run, i, j, p, held);
  }

  /** The same for an annotation or a compaction, if no sync and no checkpoint commit of the instance
      falls between its two reads. */
  lemma UnsplitEditMatches(run: seq<State>, i: nat, j: nat, k: nat, p: nat, m: Manifest, step: Step)
    requires IsRun(run) && i <= j <= k < |run| && (step.Annotate? || step.CompactPut?) && step.p == p
    requires forall x | i <= x <= j :: HasEdit(run[x], p, m)
    requires forall x | i < x <= j :: Uninstalled(run[x - 1], run[x], p)
    requires HasEdit(run[i], p, m) && run[i].handles[p].manifest == m
    requires HasEdit(run[j], p, m) && HasEdit(run[k], p, m) && run[k].handles[p].edit.value.version == Some(run[j].handles[p].version)
    ensures Matched(run[k], step)
  {
    ManifestUntilInstall(run, i, j, p, m);
    var version := run[j].handles[p].version;
    if version.Some? {
      HandlePair(run, j, p);
      PairStays(run, j, k, m, version.value);
      EditPairMatches(run[k].register, run[k].handles[p], m, version.value);
    }
  }

  lemma EditPairMatches(register: Register<Manifest>, h: Handle, m: Manifest, version: nat)
    requires Known(register, m, version) && h.edit == Some(Edit(m, Some(Some(version))))
    ensures EditsStoredHead(register, h)
  {
  }

  // ---------------------------------------------------------------------------
  // Building runs
  // ---------------------------------------------------------------------------

  ghost predicate Ends(run: seq<State>, s: State) {
    IsRun(run) && run[|run| - 1] == s
  }

  lemma Take(run: seq<State>, s: State, step: Step) returns (longer: seq<State>)
    requires Ends(run, s) && Enabled(s, step) && Unovertaken(s, step) && Matched(s, step)
    ensures Ends(longer, Apply(s, step))
  {
    longer := run + [Apply(s, step)];
    assert Next(s, Apply(s, step));
    forall i | 0 < i < |longer| ensures Next(longer[i - 1], longer[i]) {
      assert i < |run| ==> longer[i - 1] == run[i - 1] && longer[i] == run[i];
    }
  }

  function WithHandle(s: State, p: nat, h: Handle): State {
    s.(handles := s.handles[p := h])
  }

  /** What publishing one entry leaves. */
  function Pushed(s: State, e: LogEntry): State
    requires s.register.slot.Some?
  {
    var version := s.register.counter + 1;
    State(Appended(s.bucket, [e]),
          Register(Some(Object(version, PublishManifest(s.register.slot.value.value, [e], 1, None))), version),
          s.handles)
  }

  lemma PublishOne(run: seq<State>, s: State, e: LogEntry) returns (longer: seq<State>)
    requires Ends(run, s) && s.register.slot.Some? && e.seqNo > HeadOf(s.bucket.log) && e.seqNo !in s.bucket.segments
    requires WellFormed([e]) && e.kind != Compact
    ensures Ends(longer, Pushed(s, e))
  {
    longer := Take(run, s, Publish([e], 1, None));
  }

  lemma PushIsWellFormed(e: LogEntry)
    requires e.txn.Some? && KeepsHead(e.txn.value.updates) && e.kind != Compact && e.supersedes == []
    ensures WellFormed([e])
  {
    assert [e][..0] == [] && UpdatesOf([e][..0]) == [];
    assert UpdatesOf([e]) == [] + e.txn.value.updates;
  }

  lemma Push(run: seq<State>, s: State, seqNo: nat, name: string, oid: string) returns (longer: seq<State>)
    requires Ends(run, s) && s.register.slot.Some? && seqNo > HeadOf(s.bucket.log) && seqNo !in s.bucket.segments
    requires name != HEAD
    ensures Ends(longer, Pushed(s, PushEntry(seqNo, name, oid)))
  {
    PushIsWellFormed(PushEntry(seqNo, name, oid));
    longer := PublishOne(run, s, PushEntry(seqNo, name, oid));
  }

  /** What a sync leaves. */
  function SyncedTo(s: State, p: nat): State
    requires p in s.handles && s.register.slot.Some?
  {
    var h, stored := s.handles[p], s.register.slot.value;
    WithHandle(s, p, h.(manifest := stored.value, version := Some(stored.version), fetched := None,
                        refs := StateAt(s.bucket.initial, s.bucket.log, |s.bucket.log|)))
  }

  lemma Sync(run: seq<State>, s: State, p: nat) returns (longer: seq<State>)
    requires Ends(run, s) && p in s.handles
    ensures s.register.slot.Some? && Ends(longer, SyncedTo(s, p))
  {
    ReachableInv(run, |run| - 1);
    SyncIsExact(run, |run| - 1, p);
    var fetched := Apply(s, SyncFetch(p));
    var middle := Take(run, s, SyncFetch(p));
    longer := Take(middle, fetched, SyncApply(p));
    SyncedState(s, fetched, p);
  }

  lemma SyncedState(s: State, fetched: State, p: nat)
    requires Enabled(s, SyncFetch(p)) && fetched == Apply(s, SyncFetch(p)) && Enabled(fetched, SyncApply(p))
    requires SyncedRefs(s.bucket, s.handles[p].refs, s.handles[p].manifest.headSeq, s.register.slot.value.value)
             == StateAt(s.bucket.initial, s.bucket.log, |s.bucket.log|)
    ensures Apply(fetched, SyncApply(p)) == SyncedTo(s, p)
  {
    assert Apply(fetched, SyncApply(p)).handles == SyncedTo(s, p).handles;
  }

  /** What planning a checkpoint and writing its two objects leaves. */
  function Prepared(s: State, p: nat): State
    requires p in s.handles
  {
    var h, b := s.handles[p], s.bucket;
    var c := h.manifest.headSeq;
    State(b.(refsObjects := b.refsObjects[c := h.refs], packObjects := b.packObjects[c := h.manifest.packs]), s.register,
          s.handles[p := h.(job := Some(Job(c, h.manifest.packs, Some(h.refs), true, true, None, None)))])
  }

  lemma Prepare(run: seq<State>, s: State, p: nat) returns (longer: seq<State>)
    requires Ends(run, s) && Enabled(s, Plan(p))
    ensures Ends(longer, Prepared(s, p))
  {
    var h := s.handles[p];
    var planned := WithHandle(s, p, h.(job := Some(Job(h.manifest.headSeq, h.manifest.packs, Some(h.refs), false, false, None, None))));
    longer := PlanAndSnapshot(run, s, p, planned);
    longer := PutBoth(longer, planned, p);
    assert s.handles[p := planned.handles[p]][p := Prepared(s, p).handles[p]] == Prepared(s, p).handles;
  }

  lemma PlanAndSnapshot(run: seq<State>, s: State, p: nat, planned: State) returns (longer: seq<State>)
    requires Ends(run, s) && Enabled(s, Plan(p))
    requires var h := s.handles[p];
             planned == WithHandle(s, p, h.(job := Some(Job(h.manifest.headSeq, h.manifest.packs, Some(h.refs), false, false, None, None))))
    ensures Ends(longer, planned)
  {
    var s1 := Apply(s, Plan(p));
    longer := Take(run, s, Plan(p));
    longer := Take(longer, s1, TakeSnapshot(p));
    assert Apply(s1, TakeSnapshot(p)).handles == planned.handles;
  }

  lemma PutBoth(run: seq<State>, s: State, p: nat) returns (longer: seq<State>)
    requires Ends(run, s) && s.register.slot.Some? && p in s.handles && s.handles[p].job.Some? && s.handles[p].job.value.snapshot.Some?
    ensures var b, job := s.bucket, s.handles[p].job.value;
            Ends(longer, State(b.(refsObjects := b.refsObjects[job.seqNo := job.snapshot.value],
                                  packObjects := b.packObjects[job.seqNo := job.packs]), s.register,
                               s.handles[p := s.handles[p].(job := Some(job.(refsPut := true, packsPut := true)))]))
  {
    var s1 := Apply(s, PutRefs(p));
    longer := Take(run, s, PutRefs(p));
    longer := Take(longer, s1, PutPacks(p));
    assert Apply(s1, PutPacks(p)).handles == s.handles[p := Apply(s1, PutPacks(p)).handles[p]];
  }

  lemma Begin() returns (run: seq<State>, s: State)
    ensures Ends(run, s)
    ensures s == State(Bucket(Unborn, [], {0}, {}, map[], map[], map[]), Register(Some(Object(0, EmptyManifest)), 0),
                       map[0 := Handle(EmptyManifest, None, Unborn, None, None, None), 1 := Handle(EmptyManifest, None, Unborn, None, None, None)])
  {
    var empty := State(Bucket(Unborn, [], {0}, {}, map[], map[], map[]), Register(Some(Object(0, EmptyManifest)), 0), map[]);
    run := [empty];
    run := Take(run, empty, Open(0));
    var one := Apply(empty, Open(0));
    run := Take(run, one, Open(1));
    s := Apply(one, Open(1));
  }

  // ---------------------------------------------------------------------------
  // One push and a writer that has prepared a checkpoint of it
  // ---------------------------------------------------------------------------

  const E1: LogEntry := PushEntry(1, "a", "1")
  const E2: LogEntry := PushEntry(2, "b", "2")
  const E3: LogEntry := PushEntry(3, "c", "3")

  const M1: Manifest := Manifest(1, 0, None, [SegmentRef(1, 1, 1)], [], None, 2)
  const M2: Manifest := Manifest(2, 0, None, [SegmentRef(1, 1, 1), SegmentRef(2, 2, 1)], [], None, 3)

  const OnlyA: RefState := RefState(map["a" := "1"], "a", "")

  lemma FirstPushes()
    ensures PublishManifest(EmptyManifest, [E1], 1, None) == M1
    ensures PublishManifest(M1, [E2], 1, None) == M2
    ensures ApplyEntries(Unborn, [E1]) == OnlyA
  {
    NoNewPacks([], E1);
    NoNewPacks([], E2);
    PushSets(Unborn, 1, "a", "1");
  }

  lemma NoNewPacks(packs: seq<PackRef>, e: LogEntry)
    requires e.pack.None?
    ensures PublishPacks(packs, [e]) == packs
  {
    assert [e][..0] == [];
  }

  /** What a later run needs to know about the state in which instance 0 has prepared a checkpoint of
      the first push. */
  predicate OneInFlight(s: State) {
    && s.bucket.initial == Unborn && s.bucket.log == [E1] && s.bucket.segments == map[1 := [E1]]
    && s.bucket.refsObjects == map[1 := OnlyA]
    && s.register == Register(Some(Object(1, M1)), 1)
    && 0 in s.handles && s.handles[0] == Handle(M1, Some(1), OnlyA, None, Some(Job(1, [], Some(OnlyA), true, true, None, None)), None)
    && 1 in s.handles && s.handles[1] == Handle(EmptyManifest, None, Unborn, None, None, None)
  }

  predicate FirstPushed(s: State) {
    && s.bucket.initial == Unborn && s.bucket.log == [E1] && s.bucket.segments == map[1 := [E1]]
    && s.bucket.refsObjects == map[] && s.bucket.packObjects == map[] && s.register == Register(Some(Object(1, M1)), 1)
    && 0 in s.handles && s.handles[0] == Handle(EmptyManifest, None, Unborn, None, None, None)
    && 1 in s.handles && s.handles[1] == Handle(EmptyManifest, None, Unborn, None, None, None)
  }

  predicate FirstSynced(s: State) {
    && s.bucket.initial == Unborn && s.bucket.log == [E1] && s.bucket.segments == map[1 := [E1]]
    && s.bucket.refsObjects == map[] && s.bucket.packObjects == map[] && s.register == Register(Some(Object(1, M1)), 1)
    && 0 in s.handles && s.handles[0] == Handle(M1, Some(1), OnlyA, None, None, None)
    && 1 in s.handles && s.handles[1] == Handle(EmptyManifest, None, Unborn, None, None, None)
  }

  lemma PushFirst() returns (run: seq<State>, s: State)
    ensures Ends(run, s) && FirstPushed(s)
  {
    var s0;
    run, s0 := Begin();
    run := Push(run, s0, 1, "a", "1");
    s := Pushed(s0, E1);
    assert s.register == Register(Some(Object(1, M1)), 1) by {
      FirstPushes();
    }
    assert s.bucket.log == [] + [E1];
  }

  lemma AtFirst()
    ensures StateAt(Unborn, [E1], 1) == OnlyA
  {
    FirstPushes();
    assert [E1][..1] == [E1];
  }

  lemma SyncFirst() returns (run: seq<State>, s: State)
    ensures Ends(run, s) && FirstSynced(s)
  {
    var pushed;
    run, pushed := PushFirst();
    run := Sync(run, pushed, 0);
    s := SyncedTo(pushed, 0);
    AtFirst();
  }

  lemma PrepareFirst() returns (run: seq<State>, s: State)
    ensures Ends(run, s) && OneInFlight(s)
  {
    var synced;
    run, synced := SyncFirst();
    run := Prepare(run, synced, 0);
    s := Prepared(synced, 0);
  }

  // ---------------------------------------------------------------------------
  // A sync between the two reads
  // ---------------------------------------------------------------------------

  /** Instance 0 has read the manifest of the first push and the version of the second. */
  predicate SplitReads(s: State) {
    && s.bucket.initial == Unborn && s.bucket.log == [E1, E2]
    && s.bucket.refsObjects == map[1 := OnlyA]
    && s.register == Register(Some(Object(2, M2)), 2)
    && 0 in s.handles && s.handles[0].job == Some(Job(1, [], Some(OnlyA), true, true, Some(M1), Some(Some(2))))
  }

  /** Instance 0 has read the manifest of the first push; the second has just been published. */
  predicate HalfRead(s: State) {
    && s.bucket.initial == Unborn && s.bucket.log == [E1, E2]
    && s.bucket.refsObjects == map[1 := OnlyA]
    && s.register == Register(Some(Object(2, M2)), 2)
    && 0 in s.handles && s.handles[0].job == Some(Job(1, [], Some(OnlyA), true, true, Some(M1), None))
  }

  lemma ReadThenPush() returns (run: seq<State>, s: State)
    ensures Ends(run, s) && HalfRead(s)
  {
    var s0;
    run, s0 := PrepareFirst();
    run := Take(run, s0, ReadManifest(0));
    var s1 := Apply(s0, ReadManifest(0));
    run := Push(run, s1, 2, "b", "2");
    s := Pushed(s1, E2);
    FirstPushes();
    assert s.bucket.log == [E1] + [E2];
  }

  lemma PrepareSplit() returns (run: seq<State>, s: State)
    ensures Ends(run, s) && SplitReads(s)
  {
    var s2;
    run, s2 := ReadThenPush();
    run := Sync(run, s2, 0);
    var s3 := SyncedTo(s2, 0);
    run := Take(run, s3, ReadVersion(0));
    s := Apply(s3, ReadVersion(0));
  }

  lemma BackToFirst(b: Bucket)
    requires b.refsObjects == map[1 := OnlyA]
    ensures CommitManifest(M1, 1, None).segments == []
    ensures SyncedRefs(b, Unborn, 0, CommitManifest(M1, 1, None)) == OnlyA
  {
    assert M1.segments[..0] == [];
    assert Trim(M1.segments, 1) == [];
  }

  lemma BothPushes()
    ensures StateAt(Unborn, [E1, E2], 2) == RefState(map["a" := "1", "b" := "2"], "a", "")
  {
    FirstPushes();
    assert [E1, E2][..2] == [E1] + [E2];
    ReplayConcat(Unborn, [E1], [E2]);
    PushSets(OnlyA, 2, "b", "2");
  }

  /** A writer reads the manifest, its instance syncs to a push, and the writer reads the new
      version. Its write is accepted, the head goes back and the push is gone from every cold
      start, although the writer was not overtaken. */
  lemma SplitReadsLoseAPush() returns (run: seq<State>)
    ensures IsRun(run)
    ensures var s, step := run[|run| - 1], Commit(0, None, Proceed);
            && Enabled(s, step) && Unovertaken(s, step) && !Matched(s, step)
            && StateAt(s.bucket.initial, s.bucket.log, |s.bucket.log|).refs == map["a" := "1", "b" := "2"]
            && var t := Apply(s, step);
               && t.bucket == s.bucket && t.register.slot.Some? && t.register.slot.value.value.headSeq == 1
               && Readable(t.bucket.segments, t.register.slot.value.value.segments)
               && SyncedRefs(t.bucket, t.bucket.initial, 0, t.register.slot.value.value).refs == map["a" := "1"]
  {
    var s;
    run, s := PrepareSplit();
    BackToFirst(s.bucket);
    BothPushes();
    assert Apply(s, Commit(0, None, Proceed)).register == Register(Some(Object(3, CommitManifest(M1, 1, None))), 3);
  }

  // ---------------------------------------------------------------------------
  // An annotation whose two reads are split
  // ---------------------------------------------------------------------------

  const P1: PackRef := PackRef("p", 1, false, 1, 1, 0)
  const F1: LogEntry := E1.(pack := Some(P1))
  const N1: Manifest := M1.(packs := [P1])
  const N2: Manifest := M2.(packs := [P1])

  lemma PackPushes()
    ensures PublishManifest(EmptyManifest, [F1], 1, None) == N1
    ensures PublishManifest(N1, [E2], 1, None) == N2
  {
    assert [F1][..0] == [] && PublishPacks([], [F1][..0]) == [];
    assert PublishPacks([], [F1]) == [] + [P1];
    NoNewPacks([P1], E2);
  }

  lemma PushWithPack() returns (run: seq<State>, s: State)
    ensures Ends(run, s) && s.register == Register(Some(Object(1, N1)), 1)
    ensures s.bucket.log == [F1] && s.bucket.segments == map[1 := [F1]]
    ensures 0 in s.handles && s.handles[0].edit.None?
  {
    var s0;
    run, s0 := Begin();
    PushIsWellFormed(F1);
    run := PublishOne(run, s0, F1);
    s := Pushed(s0, F1);
    PackPushes();
    assert s.bucket.log == [] + [F1];
  }

  /** Instance 0 has read the manifest of the first push for an annotation; the second has just been published. */
  lemma EditThenPush() returns (run: seq<State>, s: State)
    ensures Ends(run, s) && s.register == Register(Some(Object(2, N2)), 2) && s.bucket.log == [F1, E2]
    ensures 0 in s.handles && s.handles[0].edit == Some(Edit(N1, None))
  {
    var pushed;
    run, pushed := PushWithPack();
    run := Sync(run, pushed, 0);
    var synced := SyncedTo(pushed, 0);
    run := Take(run, synced, EditManifest(0));
    var read := Apply(synced, EditManifest(0));
    run := Push(run, read, 2, "b", "2");
    s := Pushed(read, E2);
    PackPushes();
    assert s.bucket.log == [F1] + [E2];
  }

  /** An annotation reads the manifest, its instance syncs to a push, and the annotation reads the
      new version. Its write is accepted, the head goes back and the push is listed nowhere. */
  lemma SplitAnnotationLosesAPush() returns (run: seq<State>)
    ensures IsRun(run)
    ensures var s, step := run[|run| - 1], Annotate(0, [P1.(hasRev := true)], None, Proceed);
            && Enabled(s, step) && !Matched(s, step) && s.register.slot.Some?
            && s.register.slot.value.value.headSeq == 2 == HeadOf(s.bucket.log)
            && var t := Apply(s, step);
               t.bucket == s.bucket && t.register.slot.Some? && t.register.slot.value.value == N1.(packs := [P1.(hasRev := true)], revision := 3)
  {
    var s2;
    run, s2 := EditThenPush();
    run := Sync(run, s2, 0);
    var s3 := SyncedTo(s2, 0);
    run := Take(run, s3, EditVersion(0));
    var s := Apply(s3, EditVersion(0));
    assert Checksums([P1.(hasRev := true)]) == {"p"} == Checksums([P1]);
  }

  // ---------------------------------------------------------------------------
  // A writer that was overtaken
  // ---------------------------------------------------------------------------

  const CheckpointedAtTwo: Manifest := Manifest(2, 3, Some(CheckpointRef(2, None)), [], [], None, 4)
  const M3: Manifest := Manifest(3, 3, Some(CheckpointRef(2, None)), [SegmentRef(3, 3, 1)], [], None, 5)

  lemma ThirdManifest()
    ensures CommitManifest(M2, 2, None) == CheckpointedAtTwo
    ensures PublishManifest(CheckpointedAtTwo, [E3], 1, None) == M3
    ensures CommitManifest(M3, 1, None).segments == [SegmentRef(3, 3, 1)]
  {
    assert M2.segments[..1][..0] == [] && M2.segments[..1] == [SegmentRef(1, 1, 1)];
    assert Trim(M2.segments[..1], 2) == [];
    NoNewPacks([], E3);
    assert M3.segments[..0] == [];
  }

  /** Instance 1 has committed a checkpoint of both pushes; instance 0 still holds its own of the first. */
  predicate Overtaken(s: State) {
    && s.bucket.initial == Unborn && s.bucket.log == [E1, E2] && s.bucket.segments == map[1 := [E1], 2 := [E2]]
    && 1 in s.bucket.refsObjects && s.bucket.refsObjects[1] == OnlyA
    && s.register == Register(Some(Object(3, CheckpointedAtTwo)), 3)
    && 0 in s.handles && s.handles[0] == Handle(M1, Some(1), OnlyA, None, Some(Job(1, [], Some(OnlyA), true, true, None, None)), None)
  }

  /** Both pushes are in; instance 0 still holds its checkpoint of the first. */
  predicate TwoPushed(s: State) {
    && s.bucket.initial == Unborn && s.bucket.log == [E1, E2] && s.bucket.segments == map[1 := [E1], 2 := [E2]]
    && 1 in s.bucket.refsObjects && s.bucket.refsObjects[1] == OnlyA
    && s.register == Register(Some(Object(2, M2)), 2)
    && 0 in s.handles && s.handles[0] == Handle(M1, Some(1), OnlyA, None, Some(Job(1, [], Some(OnlyA), true, true, None, None)), None)
    && 1 in s.handles
  }

  /** Instance 1 is about to read for its commit. */
  predicate Overtaking(s: State) {
    && TwoPushed(s) && s.handles[1].job.Some? && s.handles[1].manifest == M2 && s.handles[1].version == Some(2)
    && var job := s.handles[1].job.value; job.seqNo == 2 && job.refsPut && job.packsPut && job.base == None && job.version == None
  }

  /** Instance 1 has read both. */
  predicate ReadyToOvertake(s: State) {
    && TwoPushed(s) && s.handles[1].job.Some?
    && var job := s.handles[1].job.value; job.seqNo == 2 && job.base == Some(M2) && job.version == Some(Some(2))
  }

  lemma PushSecond() returns (run: seq<State>, s: State)
    ensures Ends(run, s) && TwoPushed(s) && s.handles[1] == Handle(EmptyManifest, None, Unborn, None, None, None)
  {
    var s0;
    run, s0 := PrepareFirst();
    run := Push(run, s0, 2, "b", "2");
    s := Pushed(s0, E2);
    FirstPushes();
    assert s.bucket.log == [E1] + [E2];
  }

  lemma PrepareOvertaking() returns (run: seq<State>, s: State)
    ensures Ends(run, s) && Overtaking(s)
  {
    var s1;
    run, s1 := PushSecond();
    run := Sync(run, s1, 1);
    var s2 := SyncedTo(s1, 1);
    run := Prepare(run, s2, 1);
    s := Prepared(s2, 1);
  }

  lemma ReadToOvertake() returns (run: seq<State>, s: State)
    ensures Ends(run, s) && ReadyToOvertake(s)
  {
    var s0;
    run, s0 := PrepareOvertaking();
    run := Take(run, s0, ReadManifest(1));
    var s1 := Apply(s0, ReadManifest(1));
    run := Take(run, s1, ReadVersion(1));
    s := Apply(s1, ReadVersion(1));
  }

  lemma Overtake() returns (run: seq<State>, s: State)
    ensures Ends(run, s) && Overtaken(s)
  {
    var s0;
    run, s0 := ReadToOvertake();
    ThirdManifest();
    run := Take(run, s0, Commit(1, None, Proceed));
    s := Apply(s0, Commit(1, None, Proceed));
  }

  /** Instance 0 is about to commit over a newer checkpoint. */
  predicate SlowWriter(s: State) {
    && s.bucket.initial == Unborn && s.bucket.log == [E1, E2, E3]
    && 3 in s.bucket.segments && s.bucket.segments[3] == [E3]
    && 1 in s.bucket.refsObjects && s.bucket.refsObjects[1] == OnlyA
    && s.register == Register(Some(Object(4, M3)), 4)
    && 0 in s.handles && s.handles[0].job == Some(Job(1, [], Some(OnlyA), true, true, Some(M3), Some(Some(4))))
  }

  /** The third push is published over the newer checkpoint; instance 0 has not synced yet. */
  predicate ThirdPushed(s: State) {
    && s.bucket.initial == Unborn && s.bucket.log == [E1, E2, E3]
    && 3 in s.bucket.segments && s.bucket.segments[3] == [E3]
    && 1 in s.bucket.refsObjects && s.bucket.refsObjects[1] == OnlyA
    && s.register == Register(Some(Object(4, M3)), 4)
    && 0 in s.handles && s.handles[0] == Handle(M1, Some(1), OnlyA, None, Some(Job(1, [], Some(OnlyA), true, true, None, None)), None)
  }

  lemma PushThird() returns (run: seq<State>, s: State)
    ensures Ends(run, s) && ThirdPushed(s)
  {
    var s0;
    run, s0 := Overtake();
    run := Push(run, s0, 3, "c", "3");
    s := Pushed(s0, E3);
    ThirdManifest();
    assert s.bucket.log == [E1, E2] + [E3];
  }

  /** Instance 0 has synced to the third push. */
  predicate ThirdSynced(s: State) {
    && s.bucket.initial == Unborn && s.bucket.log == [E1, E2, E3]
    && 3 in s.bucket.segments && s.bucket.segments[3] == [E3]
    && 1 in s.bucket.refsObjects && s.bucket.refsObjects[1] == OnlyA
    && s.register == Register(Some(Object(4, M3)), 4)
    && 0 in s.handles && s.handles[0].manifest == M3 && s.handles[0].version == Some(4)
    && s.handles[0].job == Some(Job(1, [], Some(OnlyA), true, true, None, None))
  }

  lemma SyncThird() returns (run: seq<State>, s: State)
    ensures Ends(run, s) && ThirdSynced(s)
  {
    var s0;
    run, s0 := PushThird();
    run := Sync(run, s0, 0);
    s := SyncedTo(s0, 0);
  }

  lemma PrepareSlowWriter() returns (run: seq<State>, s: State)
    ensures Ends(run, s) && SlowWriter(s)
  {
    var s0;
    run, s0 := SyncThird();
    run := Take(run, s0, ReadManifest(0));
    var s1 := Apply(s0, ReadManifest(0));
    run := Take(run, s1, ReadVersion(0));
    s := Apply(s1, ReadVersion(0));
  }

  lemma AllPushes()
    ensures StateAt(Unborn, [E1, E2, E3], 3).refs == map["a" := "1", "b" := "2", "c" := "3"]
  {
    BothPushes();
    assert [E1, E2, E3][..3] == [E1, E2] + [E3] && [E1, E2][..2] == [E1, E2];
    ReplayConcat(Unborn, [E1, E2], [E3]);
    PushSets(StateAt(Unborn, [E1, E2], 2), 3, "c", "3");
  }

  lemma ColdStartFromOne(b: Bucket)
    requires 3 in b.segments && b.segments[3] == [E3] && 1 in b.refsObjects && b.refsObjects[1] == OnlyA
    ensures Readable(b.segments, CommitManifest(M3, 1, None).segments)
    ensures SyncedRefs(b, Unborn, 0, CommitManifest(M3, 1, None)).refs == map["a" := "1", "c" := "3"]
  {
    ThirdManifest();
    var refs := CommitManifest(M3, 1, None).segments;
    assert refs[..0] == [] && Listed(b.segments, refs) == [] + [E3];
    PosIs([E3], 1, 0);
    PushSets(OnlyA, 3, "c", "3");
  }

  /** One writer prepares a checkpoint of the first push; another commits one of the second; after a
      third push the first one syncs, reads manifest and version together and commits. The second
      push is gone from every instance that starts cold. */
  lemma OvertakenWriterLosesAPush() returns (run: seq<State>)
    ensures IsRun(run)
    ensures var s, step := run[|run| - 1], Commit(0, None, Proceed);
            && Enabled(s, step) && Matched(s, step) && !Unovertaken(s, step)
            && StateAt(s.bucket.initial, s.bucket.log, |s.bucket.log|).refs == map["a" := "1", "b" := "2", "c" := "3"]
            && var t := Apply(s, step);
               && t.bucket == s.bucket && t.register.slot.Some?
               && Readable(t.bucket.segments, t.register.slot.value.value.segments)
               && SyncedRefs(t.bucket, t.bucket.initial, 0, t.register.slot.value.value).refs == map["a" := "1", "c" := "3"]
  {
    var s;
    run, s := PrepareSlowWriter();
    AllPushes();
    ColdStartFromOne(s.bucket);
    assert Apply(s, Commit(0, None, Proceed)).register == Register(Some(Object(5, CommitManifest(M3, 1, None))), 5);
  }
}
