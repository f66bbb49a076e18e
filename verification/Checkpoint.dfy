/**
  Writing checkpoints while pushes, compactions, crashes and other checkpoint writers go on.

  A checkpoint is two immutable objects (a ref snapshot and a pack list, keyed by a sequence
  number) followed by a compare-and-swap of the manifest that points at them and drops the log
  segments they fold. `Bucket` is what is durable, together with the committed log, the past
  heads and the committed segment keys, which the code never reads.
 */
module Checkpoint {
  import opened Prelude
  import opened VersionedStore
  import opened Wal
  import Runs

  datatype Bucket = Bucket(
    initial: RefState,
    log: seq<LogEntry>,
    heads: set<nat>,
    committed: set<nat>,
    segments: map<nat, seq<LogEntry>>,
    refsObjects: map<nat, RefState>,
    packObjects: map<nat, seq<PackRef>>)

  /** `snapshot` is taken after `seqNo` was read; both objects are written before the manifest.
      For the manifest write, `base` and then `version` are read from the instance, one at a time. */
  datatype Job = Job(
    seqNo: nat,
    packs: seq<PackRef>,
    snapshot: Option<RefState>,
    refsPut: bool,
    packsPut: bool,
    base: Option<Manifest>,
    version: Option<Option<nat>>)

  /** An annotation or a compaction in progress: what it read of the instance, one at a time. */
  datatype Edit = Edit(base: Manifest, version: Option<Option<nat>>)

  /** One instance's view of the repository: its manifest, its local refs, a sync, a checkpoint and
      an edit of the manifest in progress. */
  datatype Handle = Handle(
    manifest: Manifest,
    version: Option<nat>,
    refs: RefState,
    fetched: Option<(Manifest, nat)>,
    job: Option<Job>,
    edit: Option<Edit>)

  datatype State = State(bucket: Bucket, register: Register<Manifest>, handles: map<nat, Handle>)

  datatype Step =
    | Publish(entries: seq<LogEntry>, size: nat, updatedAt: Option<int>)
    | Orphan(entries: seq<LogEntry>)
    | Sweep(first: nat)
    | EditManifest(p: nat)
    | EditVersion(p: nat)
    | Annotate(p: nat, packs: seq<PackRef>, updatedAt: Option<int>, fault: Fault)
    | CompactPut(p: nat, e: LogEntry, size: nat, updatedAt: Option<int>, fault: Fault)
    | DropEdit(p: nat)
    | Open(p: nat)
    | Crash(p: nat)
    | SyncFetch(p: nat)
    | SyncApply(p: nat)
    | RefsAhead(p: nat, upTo: nat)
    | Plan(p: nat)
    | TakeSnapshot(p: nat)
    | PutRefs(p: nat)
    | PutPacks(p: nat)
    | Abandon(p: nat)
    | ReadManifest(p: nat)
    | ReadVersion(p: nat)
    | Commit(p: nat, now: Option<int>, fault: Fault)

  const EmptyManifest: Manifest := Manifest(0, 0, None, [], [], None, 1)

  /** An instance that has just opened the repository. */
  function FreshHandle(b: Bucket): Handle {
    Handle(EmptyManifest, None, b.initial, None, None, None)
  }

  function HeadOf(log: seq<LogEntry>): nat {
    if log == [] then 0 else log[|log| - 1].seqNo
  }

  // ---------------------------------------------------------------------------
  // What the code computes
  // ---------------------------------------------------------------------------

  predicate Readable(segments: map<nat, seq<LogEntry>>, refs: seq<SegmentRef>) {
    forall i | 0 <= i < |refs| :: refs[i].first in segments
  }

  /** The entries of the manifest's log segments, in order. */
  function Listed(segments: map<nat, seq<LogEntry>>, refs: seq<SegmentRef>): seq<LogEntry>
    requires Readable(segments, refs)
  {
    if refs == [] then []
    else Listed(segments, refs[..|refs| - 1]) + segments[refs[|refs| - 1].first]
  }

  /** The segments a checkpoint at `c` leaves in the manifest. */
  function Trim(refs: seq<SegmentRef>, c: nat): seq<SegmentRef> {
    if refs == [] then []
    else
      var last := refs[|refs| - 1];
      Trim(refs[..|refs| - 1], c) + (if last.last > c then [last] else [])
  }

  /** A push appends its pack; a compaction replaces what it supersedes, and any copy of itself. */
  function PublishPacks(packs: seq<PackRef>, entries: seq<LogEntry>): seq<PackRef> {
    if entries == [] then packs
    else
      var before, e := PublishPacks(packs, entries[..|entries| - 1]), entries[|entries| - 1];
      if e.pack.None? then before
      else if e.kind == Compact then Retain(before, e.supersedes + [e.pack.value.checksum]) + [e.pack.value]
      else before + [e.pack.value]
  }

  function PublishManifest(m: Manifest, entries: seq<LogEntry>, size: nat, updatedAt: Option<int>): Manifest
    requires entries != []
  {
    var first, last := entries[0].seqNo, entries[|entries| - 1].seqNo;
    m.(headSeq := last, packs := PublishPacks(m.packs, entries),
       segments := m.segments + [SegmentRef(first, last, size)], updatedAt := updatedAt, revision := m.revision + 1)
  }

  function CommitManifest(m: Manifest, c: nat, now: Option<int>): Manifest {
    m.(checkpoint := Some(CheckpointRef(c, now)), minSeq := c + 1, segments := Trim(m.segments, c),
       updatedAt := now, revision := m.revision + 1)
  }

  /** Bring local refs to manifest `m`: load its checkpoint if that is ahead, then replay. */
  function SyncedRefs(b: Bucket, refs: RefState, applied: nat, m: Manifest): RefState
    requires Readable(b.segments, m.segments)
  {
    var c := CheckpointSeq(m);
    var load := applied < c && c in b.refsObjects;
    var base := if load then LoadSnapshot(refs, b.refsObjects[c]) else refs;
    ApplyEntries(base, After(Listed(b.segments, m.segments), if load then c else applied))
  }

  // ---------------------------------------------------------------------------
  // Steps
  // ---------------------------------------------------------------------------

  predicate Consecutive(entries: seq<LogEntry>) {
    && entries != []
    && forall i | 0 <= i < |entries| :: entries[i].seqNo == entries[0].seqNo + i
  }

  /** What publishers write: pushes supersede nothing, a compaction has a pack and does not
      supersede it, and no transaction deletes HEAD. */
  predicate WellFormed(entries: seq<LogEntry>) {
    KeepsHead(UpdatesOf(entries)) && PacksWellFormed(entries)
  }

  predicate PacksWellFormed(entries: seq<LogEntry>) {
    forall i | 0 <= i < |entries| ::
      && (entries[i].kind != Compact ==> entries[i].supersedes == [])
      && (entries[i].kind == Compact ==>
            entries[i].pack.Some? && entries[i].pack.value.checksum !in entries[i].supersedes)
  }

  predicate Enabled(s: State, step: Step) {
    s.register.slot.Some? &&
    match step
    case Publish(entries, _, _) =>
      Consecutive(entries) && WellFormed(entries) && entries[0].seqNo > HeadOf(s.bucket.log)
      && entries[0].seqNo !in s.bucket.segments && forall i | 0 <= i < |entries| :: entries[i].kind != Compact
    case Orphan(entries) =>
      Consecutive(entries) && entries[0].seqNo > HeadOf(s.bucket.log) && entries[0].seqNo !in s.bucket.segments
    case Sweep(first) => first !in s.bucket.committed
    case EditManifest(p) => p in s.handles && s.handles[p].edit.None?
    case EditVersion(p) => p in s.handles && s.handles[p].edit.Some? && s.handles[p].edit.value.version.None?
    case Annotate(p, packs, _, _) =>
      p in s.handles && ReadyToEdit(s.handles[p]) && Checksums(packs) == Checksums(s.handles[p].edit.value.base.packs)
    case CompactPut(p, e, _, _, _) =>
      p in s.handles && ReadyToEdit(s.handles[p]) && e.kind == Compact && e.txn.None? && PacksWellFormed([e])
      && e.seqNo > s.handles[p].edit.value.base.headSeq && e.seqNo !in s.bucket.segments
      && InTurn(s.register, s.handles[p], e.seqNo)
    case DropEdit(p) => p in s.handles
    case Open(p) => p !in s.handles
    case Crash(p) => p in s.handles
    case Abandon(p) => p in s.handles
    case SyncFetch(p) => p in s.handles
    case SyncApply(p) =>
      p in s.handles && s.handles[p].fetched.Some?
      && Readable(s.bucket.segments, s.handles[p].fetched.value.0.segments)
    case RefsAhead(p, upTo) =>
      p in s.handles && Pos(s.bucket.log, s.handles[p].manifest.headSeq) <= upTo <= |s.bucket.log|
    case Plan(p) =>
      && p in s.handles && s.handles[p].job.None? && s.handles[p].manifest.headSeq > 0
      && (s.handles[p].manifest.checkpoint.Some? ==>
            s.handles[p].manifest.checkpoint.value.seqNo != s.handles[p].manifest.headSeq)
    case TakeSnapshot(p) => p in s.handles && s.handles[p].job.Some? && s.handles[p].job.value.snapshot.None?
    case PutRefs(p) => p in s.handles && s.handles[p].job.Some? && s.handles[p].job.value.snapshot.Some?
    case PutPacks(p) => p in s.handles && s.handles[p].job.Some?
    case ReadManifest(p) =>
      && p in s.handles && s.handles[p].job.Some?
      && s.handles[p].job.value.refsPut && s.handles[p].job.value.packsPut && s.handles[p].job.value.base.None?
    case ReadVersion(p) =>
      && p in s.handles && s.handles[p].job.Some?
      && s.handles[p].job.value.base.Some? && s.handles[p].job.value.version.None?
    case Commit(p, _, _) => p in s.handles && ReadyToCommit(s.handles[p])
  }

  predicate ReadyToEdit(h: Handle) {
    h.edit.Some? && h.edit.value.version.Some?
  }

  /** A compaction skips a taken slot only above the stored head. */
  predicate InTurn(register: Register<Manifest>, h: Handle, seqNo: nat)
    requires ReadyToEdit(h) && register.slot.Some?
  {
    Admits(register, CommitMode(h.edit.value.version.value)) && seqNo > h.edit.value.base.headSeq + 1 ==>
      register.slot.value.value.headSeq <= h.edit.value.base.headSeq
  }

  /** The manifest write of an annotation or a compaction. */
  function EditPut(register: Register<Manifest>, h: Handle, updated: Manifest, fault: Fault): PutOutcome<Manifest>
    requires ReadyToEdit(h)
  {
    FaultyPut(register, CommitMode(h.edit.value.version.value), updated, fault)
  }

  function AnnotatedManifest(m: Manifest, packs: seq<PackRef>, updatedAt: Option<int>): Manifest {
    m.(packs := packs, updatedAt := updatedAt, revision := m.revision + 1)
  }

  /** The bucket with entries committed. */
  function Appended(b: Bucket, entries: seq<LogEntry>): Bucket
    requires entries != []
  {
    b.(log := b.log + entries, heads := b.heads + {HeadOf(entries)}, committed := b.committed + {entries[0].seqNo},
       segments := b.segments[entries[0].seqNo := entries])
  }

  predicate ReadyToCommit(h: Handle) {
    h.job.Some? && h.job.value.base.Some? && h.job.value.version.Some?
  }

  function CommitMode(version: Option<nat>): PutMode {
    if version.Some? then Update(version.value) else Create
  }

  /** The manifest write of round two. */
  function CommitPut(register: Register<Manifest>, h: Handle, now: Option<int>, fault: Fault): PutOutcome<Manifest>
    requires ReadyToCommit(h)
  {
    FaultyPut(register, CommitMode(h.job.value.version.value), Committed(h, now), fault)
  }

  /** The manifest it writes. */
  function Committed(h: Handle, now: Option<int>): Manifest
    requires ReadyToCommit(h)
  {
    CommitManifest(h.job.value.base.value, h.job.value.seqNo, now)
  }

  function CommitHandle(h: Handle, now: Option<int>, result: Result<nat, StoreError>): Handle
    requires ReadyToCommit(h)
  {
    match result
    case Ok(version) =>
      h.(manifest := Committed(h, now), version := Some(version), job := None)
    case Err(PreconditionFailed) => h.(job := Some(h.job.value.(base := None, version := None)))
    case Err(_) => h.(job := None)
  }

  function Apply(s: State, step: Step): State
    requires Enabled(s, step)
  {
    var b := s.bucket;
    match step
    case Publish(entries, size, updatedAt) =>
      s.(bucket := Appended(b, entries),
         register := PutAt(s.register, Overwrite,
                           PublishManifest(s.register.slot.value.value, entries, size, updatedAt)).register)
    case Orphan(entries) => s.(bucket := b.(segments := b.segments[entries[0].seqNo := entries]))
    case Sweep(first) => s.(bucket := b.(segments := b.segments - {first}))
    case EditManifest(p) =>
      var h := s.handles[p];
      s.(handles := s.handles[p := h.(edit := Some(Edit(h.manifest, None)))])
    case EditVersion(p) =>
      var h := s.handles[p];
      s.(handles := s.handles[p := h.(edit := Some(h.edit.value.(version := Some(h.version))))])
    case Annotate(p, packs, updatedAt, fault) => AnnotateState(s, p, packs, updatedAt, fault)
    case CompactPut(p, e, size, updatedAt, fault) => CompactState(s, p, e, size, updatedAt, fault)
    case DropEdit(p) => s.(handles := s.handles[p := s.handles[p].(edit := None)])
    case Open(p) => s.(handles := s.handles[p := FreshHandle(b)])
    case Crash(p) => s.(handles := s.handles - {p})
    case Abandon(p) => s.(handles := s.handles[p := s.handles[p].(job := None)])
    case SyncFetch(p) =>
      s.(handles := s.handles[p := s.handles[p].(fetched := Some((s.register.slot.value.value, s.register.slot.value.version)))])
    case SyncApply(p) =>
      var h := s.handles[p];
      var (m, version) := h.fetched.value;
      s.(handles := s.handles[p := h.(manifest := m, version := Some(version), fetched := None,
                                      refs := SyncedRefs(b, h.refs, h.manifest.headSeq, m))])
    case RefsAhead(p, upTo) =>
      var h := s.handles[p];
      s.(handles := s.handles[p := h.(refs := ApplyEntries(h.refs, b.log[Pos(b.log, h.manifest.headSeq)..upTo]))])
    case Plan(p) =>
      var h := s.handles[p];
      s.(handles := s.handles[p := h.(job := Some(Job(h.manifest.headSeq, h.manifest.packs, None, false, false, None, None)))])
    case TakeSnapshot(p) =>
      var h := s.handles[p];
      s.(handles := s.handles[p := h.(job := Some(h.job.value.(snapshot := Some(h.refs))))])
    case PutRefs(p) =>
      var h := s.handles[p];
      s.(bucket := b.(refsObjects := b.refsObjects[h.job.value.seqNo := h.job.value.snapshot.value]),
         handles := s.handles[p := h.(job := Some(h.job.value.(refsPut := true)))])
    case PutPacks(p) =>
      var h := s.handles[p];
      s.(bucket := b.(packObjects := b.packObjects[h.job.value.seqNo := h.job.value.packs]),
         handles := s.handles[p := h.(job := Some(h.job.value.(packsPut := true)))])
    case ReadManifest(p) =>
      var h := s.handles[p];
      s.(handles := s.handles[p := h.(job := Some(h.job.value.(base := Some(h.manifest))))])
    case ReadVersion(p) =>
      var h := s.handles[p];
      s.(handles := s.handles[p := h.(job := Some(h.job.value.(version := Some(h.version))))])
    case Commit(p, now, fault) => CommitState(s, p, now, fault)
  }

  function AnnotateState(s: State, p: nat, packs: seq<PackRef>, updatedAt: Option<int>, fault: Fault): State
    requires p in s.handles && ReadyToEdit(s.handles[p])
  {
    var h := s.handles[p];
    State(s.bucket, EditPut(s.register, h, AnnotatedManifest(h.edit.value.base, packs, updatedAt), fault).register,
          s.handles[p := h.(edit := None)])
  }

  /** The compaction's log object is written first; without its manifest write it is a leftover. */
  function CompactState(s: State, p: nat, e: LogEntry, size: nat, updatedAt: Option<int>, fault: Fault): State
    requires p in s.handles && ReadyToEdit(s.handles[p])
  {
    var h := s.handles[p];
    var put := EditPut(s.register, h, PublishManifest(h.edit.value.base, [e], size, updatedAt), fault);
    State(if put.register != s.register then Appended(s.bucket, [e])
          else s.bucket.(segments := s.bucket.segments[e.seqNo := [e]]),
          put.register, s.handles[p := h.(edit := None)])
  }

  function CommitState(s: State, p: nat, now: Option<int>, fault: Fault): State
    requires p in s.handles && ReadyToCommit(s.handles[p])
  {
    var h := s.handles[p];
    if CheckpointSeq(h.job.value.base.value) >= h.job.value.base.value.headSeq then
      s.(handles := s.handles[p := h.(job := None)])
    else
      var put := CommitPut(s.register, h, now, fault);
      State(s.bucket, put.register, s.handles[p := CommitHandle(h, now, put.result)])
  }

  /** No newer checkpoint committed since this writer read its sequence number. The write itself
      does not check this; the per-repository checkpoint lease is what provides it. */
  predicate Unovertaken(s: State, step: Step) {
    step.Commit? && step.p in s.handles ==> InOrder(s.handles[step.p])
  }

  predicate InOrder(h: Handle) {
    ReadyToCommit(h) ==> CheckpointSeq(h.job.value.base.value) <= h.job.value.seqNo
  }

  /** A write that is going to be accepted is built on a manifest with the stored head. It is if
      no sync of the instance fell between the two reads; the code does not lock them together, not
      for checkpoints and not for annotations and compactions. */
  predicate Matched(s: State, step: Step) {
    && (step.Commit? && step.p in s.handles ==> OnStoredHead(s.register, s.handles[step.p]))
    && ((step.Annotate? || step.CompactPut?) && step.p in s.handles ==> EditsStoredHead(s.register, s.handles[step.p]))
  }

  predicate EditsStoredHead(register: Register<Manifest>, h: Handle) {
    ReadyToEdit(h) && register.slot.Some? && Admits(register, CommitMode(h.edit.value.version.value)) ==>
      register.slot.value.value.headSeq == h.edit.value.base.headSeq
  }

  predicate OnStoredHead(register: Register<Manifest>, h: Handle) {
    ReadyToCommit(h) && register.slot.Some? && Admits(register, CommitMode(h.job.value.version.value)) ==>
      register.slot.value.value.headSeq == h.job.value.base.value.headSeq
  }

  ghost predicate Init(s: State) {
    && s.bucket == Bucket(s.bucket.initial, [], {0}, {}, map[], map[], map[])
    && HasHead(s.bucket.initial)
    && s.register.slot.Some? && Sound(s.register) && s.register.slot.value.value == EmptyManifest
    && s.handles == map[]
  }

  ghost predicate Next(s: State, t: State) {
    exists step :: Enabled(s, step) && Unovertaken(s, step) && Matched(s, step) && t == Apply(s, step)
  }

  ghost predicate IsRun(run: seq<State>) {
    Runs.IsRun(Init, Next, run)
  }
}
