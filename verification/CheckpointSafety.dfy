/**
  Checkpointing preserves meaning: in every run the manifest's segments are exactly the log
  after its checkpoint, and checkpoint plus segments rebuild what replaying the whole log gives.
 */
module CheckpointSafety {
  import opened Prelude
  import opened VersionedStore
  import opened Wal
  import opened Checkpoint
  import LastWrite
  import Runs

  // ---------------------------------------------------------------------------
  // The invariant
  // ---------------------------------------------------------------------------

  /** The object tagged `c` holds refs taken at `c` or later. */
  ghost predicate Tagged(b: Bucket, x: RefState, c: nat) {
    Blend(x, b.initial, b.log, Pos(b.log, c), |b.log|)
  }

  ghost predicate PacksAt(b: Bucket, packs: seq<PackRef>, c: nat) {
    Checksums(packs) == Checksums(ReplayPacks([], b.log[..Pos(b.log, c)]))
  }

  /** The number of a committed entry, or 0. */
  ghost predicate NumbersHead(log: seq<LogEntry>, h: nat) {
    h <= HeadOf(log) && (h > 0 ==> Pos(log, h) > 0 && log[Pos(log, h) - 1].seqNo == h)
  }

  /** Every past head is the number of a committed entry (0 before the first). */
  ghost predicate HeadsOk(b: Bucket) {
    && Increasing(b.log) && Pos(b.log, 0) == 0
    && 0 in b.heads && HeadOf(b.log) in b.heads
    && (forall h | h in b.heads :: NumbersHead(b.log, h))
  }

  ghost predicate BucketOk(b: Bucket) {
    && HeadsOk(b)
    && (forall k | 0 <= k <= |b.log| :: HasHead(StateAt(b.initial, b.log, k)))
    && (forall c | c in b.refsObjects :: c in b.heads && Tagged(b, b.refsObjects[c], c))
    && (forall c | c in b.packObjects :: c in b.heads && PacksAt(b, b.packObjects[c], c))
  }

  /** A committed segment: its object is there and no past head falls inside it. */
  ghost predicate SegmentOk(b: Bucket, seg: SegmentRef) {
    && seg.first in b.committed && seg.first in b.segments && seg.last in b.heads
    && b.segments[seg.first] != []
    && Increasing(b.segments[seg.first])
    && b.segments[seg.first][0].seqNo == seg.first
    && HeadOf(b.segments[seg.first]) == seg.last
    && forall h | h in b.heads :: h < seg.first || seg.last <= h
  }

  ghost predicate SegmentsOk(b: Bucket, refs: seq<SegmentRef>) {
    forall i | 0 <= i < |refs| :: SegmentOk(b, refs[i])
  }

  /** The manifest's segments are exactly the log after its checkpoint. */
  ghost predicate Covers(b: Bucket, m: Manifest) {
    && SegmentsOk(b, m.segments)
    && Pos(b.log, CheckpointSeq(m)) <= Pos(b.log, m.headSeq)
    && Listed(b.segments, m.segments) == b.log[Pos(b.log, CheckpointSeq(m))..Pos(b.log, m.headSeq)]
  }

  ghost predicate ManifestOk(b: Bucket, m: Manifest) {
    && m.headSeq in b.heads && CheckpointSeq(m) in b.heads && CheckpointSeq(m) <= m.headSeq
    && (m.checkpoint.None? ==> m.minSeq == 0)
    && (m.checkpoint.Some? ==>
          CheckpointSeq(m) > 0 && m.minSeq == CheckpointSeq(m) + 1
          && CheckpointSeq(m) in b.refsObjects && CheckpointSeq(m) in b.packObjects)
    && Covers(b, m)
    && PacksAt(b, m.packs, m.headSeq)
  }

  predicate Known(register: Register<Manifest>, m: Manifest, version: nat) {
    version <= register.counter && (Holds(register, version) ==> register.slot.value.value == m)
  }

  ghost predicate JobOk(b: Bucket, h: Handle, job: Job) {
    && job.seqNo in b.heads && 0 < job.seqNo <= h.manifest.headSeq
    && PacksAt(b, job.packs, job.seqNo)
    && (job.snapshot.Some? ==> Tagged(b, job.snapshot.value, job.seqNo))
    && (job.refsPut ==> job.seqNo in b.refsObjects)
    && (job.packsPut ==> job.seqNo in b.packObjects)
    && (job.base.Some? ==> job.refsPut && job.packsPut && BaseOk(b, h, job.seqNo, job.base.value))
  }

  /** The manifest a writer builds on: a good one, if perhaps an old one. */
  ghost predicate BaseOk(b: Bucket, h: Handle, c: nat, base: Manifest) {
    ManifestOk(b, base) && c <= base.headSeq <= h.manifest.headSeq
  }

  ghost predicate HandleOk(b: Bucket, register: Register<Manifest>, h: Handle) {
    && ManifestOk(b, h.manifest)
    && (h.version.Some? ==> Known(register, h.manifest, h.version.value))
    && Tagged(b, h.refs, h.manifest.headSeq)
    && (h.fetched.Some? ==>
          && ManifestOk(b, h.fetched.value.0) && Known(register, h.fetched.value.0, h.fetched.value.1)
          && h.manifest.headSeq <= h.fetched.value.0.headSeq)
    && (h.job.Some? ==> JobOk(b, h, h.job.value))
    && (h.edit.Some? ==> ManifestOk(b, h.edit.value.base))
  }

  ghost predicate RegisterOk(b: Bucket, register: Register<Manifest>) {
    && register.slot.Some? && Sound(register)
    && ManifestOk(b, register.slot.value.value)
    && register.slot.value.value.headSeq == HeadOf(b.log)
  }

  ghost predicate Inv(s: State) {
    && BucketOk(s.bucket)
    && RegisterOk(s.bucket, s.register)
    && forall p | p in s.handles :: HandleOk(s.bucket, s.register, s.handles[p])
  }

  // ---------------------------------------------------------------------------
  // The bucket only grows
  // ---------------------------------------------------------------------------

  ghost predicate Grows(b: Bucket, c: Bucket) {
    && c.initial == b.initial && b.log <= c.log && b.heads <= c.heads && b.committed <= c.committed
    && (forall k | k in b.committed && k in b.segments :: k in c.segments && c.segments[k] == b.segments[k])
    && (forall k | k in b.refsObjects :: k in c.refsObjects)
    && (forall k | k in b.packObjects :: k in c.packObjects)
    && (forall i, h | |b.log| <= i < |c.log| && h in b.heads :: h < c.log[i].seqNo)
    && (forall h | h in c.heads && h !in b.heads :: HeadOf(b.log) <= h)
  }

  lemma PosStays(b: Bucket, c: Bucket, h: nat)
    requires HeadsOk(b) && Grows(b, c) && Increasing(c.log) && h in b.heads
    ensures Pos(c.log, h) == Pos(b.log, h)
    ensures c.log[..Pos(c.log, h)] == b.log[..Pos(b.log, h)]
  {
    assert NumbersHead(b.log, h);
    PosInLonger(b.log, c.log, h);
  }

  lemma PosInLonger(log: seq<LogEntry>, longer: seq<LogEntry>, h: nat)
    requires Increasing(log) && Increasing(longer) && log <= longer
    requires forall i | |log| <= i < |longer| :: h < longer[i].seqNo
    ensures Pos(longer, h) == Pos(log, h)
    ensures longer[..Pos(longer, h)] == log[..Pos(log, h)]
  {
    PosIs(longer, h, Pos(log, h));
  }

  lemma TaggedStays(b: Bucket, c: Bucket, x: RefState, h: nat)
    requires BucketOk(b) && Grows(b, c) && Increasing(c.log) && h in b.heads && Tagged(b, x, h)
    ensures Tagged(c, x, h)
  {
    PosStays(b, c, h);
    BlendWidens(x, b.initial, b.log, Pos(b.log, h), |b.log|, c.log, Pos(b.log, h), |c.log|);
  }

  lemma SegmentStays(b: Bucket, c: Bucket, seg: SegmentRef)
    requires BucketOk(b) && Grows(b, c) && SegmentOk(b, seg)
    ensures SegmentOk(c, seg)
  {
    assert seg.last <= HeadOf(b.log);
  }

  lemma {:induction false} ListedStays(b: Bucket, c: Bucket, refs: seq<SegmentRef>)
    requires BucketOk(b) && Grows(b, c) && SegmentsOk(b, refs)
    ensures SegmentsOk(c, refs)
    ensures Listed(c.segments, refs) == Listed(b.segments, refs)
    decreases |refs|
  {
    forall i | 0 <= i < |refs| ensures SegmentOk(c, refs[i]) {
      SegmentStays(b, c, refs[i]);
    }
    if refs != [] {
      ListedStays(b, c, refs[..|refs| - 1]);
      assert SegmentOk(b, refs[|refs| - 1]);
    }
  }

  lemma ManifestStays(b: Bucket, c: Bucket, m: Manifest)
    requires BucketOk(b) && Grows(b, c) && Increasing(c.log) && ManifestOk(b, m)
    ensures ManifestOk(c, m)
  {
    PosStays(b, c, m.headSeq);
    PosStays(b, c, CheckpointSeq(m));
    ListedStays(b, c, m.segments);
    assert c.log[Pos(b.log, CheckpointSeq(m))..Pos(b.log, m.headSeq)] == b.log[Pos(b.log, CheckpointSeq(m))..Pos(b.log, m.headSeq)];
  }

  lemma JobStays(b: Bucket, c: Bucket, h: Handle, job: Job)
    requires BucketOk(b) && Grows(b, c) && Increasing(c.log) && JobOk(b, h, job)
    ensures JobOk(c, h, job)
  {
    PosStays(b, c, job.seqNo);
    if job.snapshot.Some? {
      TaggedStays(b, c, job.snapshot.value, job.seqNo);
    }
    if job.base.Some? {
      ManifestStays(b, c, job.base.value);
    }
  }

  lemma HandleStays(b: Bucket, c: Bucket, register: Register<Manifest>, h: Handle)
    requires BucketOk(b) && Grows(b, c) && Increasing(c.log) && HandleOk(b, register, h)
    ensures HandleOk(c, register, h)
  {
    ManifestStays(b, c, h.manifest);
    TaggedStays(b, c, h.refs, h.manifest.headSeq);
    if h.fetched.Some? {
      ManifestStays(b, c, h.fetched.value.0);
    }
    if h.job.Some? {
      JobStays(b, c, h, h.job.value);
    }
    if h.edit.Some? {
      ManifestStays(b, c, h.edit.value.base);
    }
  }

  // ---------------------------------------------------------------------------
  // Trimming
  // ---------------------------------------------------------------------------

  lemma {:induction false} TrimKeepsTail(b: Bucket, refs: seq<SegmentRef>, c: nat)
    requires SegmentsOk(b, refs) && c in b.heads && Increasing(Listed(b.segments, refs))
    ensures SegmentsOk(b, Trim(refs, c))
    ensures Listed(b.segments, Trim(refs, c)) == After(Listed(b.segments, refs), c)
    decreases |refs|
  {
    if refs != [] {
      var init, last := refs[..|refs| - 1], refs[|refs| - 1];
      var front, block := Listed(b.segments, init), b.segments[last.first];
      assert SegmentOk(b, last);
      AfterConcat(front, block, c);
      TrimKeepsTail(b, init, c);
      if last.last > c {
        SnocSegments(b, Trim(init, c), last);
      }
    }
  }

  /** What a checkpoint at `c` leaves in the manifest: everything after `c` that was still there. */
  lemma TrimmedLog(b: Bucket, m: Manifest, c: nat)
    requires Increasing(b.log) && Covers(b, m) && c in b.heads && c <= m.headSeq
    ensures SegmentsOk(b, Trim(m.segments, c))
    ensures var from := Pos(b.log, if c < CheckpointSeq(m) then CheckpointSeq(m) else c);
            from <= Pos(b.log, m.headSeq) && Listed(b.segments, Trim(m.segments, c)) == b.log[from..Pos(b.log, m.headSeq)]
  {
    var a, n := Pos(b.log, CheckpointSeq(m)), Pos(b.log, m.headSeq);
    IncreasingSlice(b.log, a, n);
    TrimKeepsTail(b, m.segments, c);
    AfterSlice(b.log, a, n, c);
    PosMonotone(b.log, c, m.headSeq);
    if c < CheckpointSeq(m) {
      PosMonotone(b.log, c, CheckpointSeq(m));
    } else {
      PosMonotone(b.log, CheckpointSeq(m), c);
    }
  }

  /** The exact condition. Committing a checkpoint at `c` over manifest `m` keeps the log complete
      if and only if `m` does not already have a newer checkpoint: the segments between the two
      are gone from the manifest and going back to `c` would need them. */
  lemma CommitCoversIff(b: Bucket, m: Manifest, c: nat, now: Option<int>)
    requires HeadsOk(b) && Covers(b, m) && CheckpointSeq(m) in b.heads && c in b.heads && c <= m.headSeq
    ensures Covers(b, CommitManifest(m, c, now)) <==> CheckpointSeq(m) <= c
  {
    var updated := CommitManifest(m, c, now);
    var from, n := Pos(b.log, if c < CheckpointSeq(m) then CheckpointSeq(m) else c), Pos(b.log, m.headSeq);
    TrimmedLog(b, m, c);
    PosMonotone(b.log, c, m.headSeq);
    assert CheckpointSeq(updated) == c && updated.segments == Trim(m.segments, c) && updated.headSeq == m.headSeq;
    assert Covers(b, updated) <==> b.log[from..n] == b.log[Pos(b.log, c)..n];
    if c < CheckpointSeq(m) {
      NewerIsFurther(b, c, CheckpointSeq(m));
    }
  }

  lemma NewerIsFurther(b: Bucket, c: nat, newer: nat)
    requires HeadsOk(b) && newer in b.heads && c < newer
    ensures Pos(b.log, c) < Pos(b.log, newer)
  {
    PosMonotone(b.log, c, newer);
  }

  // ---------------------------------------------------------------------------
  // Publishing
  // ---------------------------------------------------------------------------

  lemma ChecksumsSnoc(packs: seq<PackRef>, p: PackRef)
    ensures Checksums(packs + [p]) == Checksums(packs) + {p.checksum}
  {
  }

  /** The live set a publisher writes into the manifest is the set replay computes. */
  lemma {:induction false} PublishedPacksAgree(packs: seq<PackRef>, other: seq<PackRef>, entries: seq<LogEntry>)
    requires PacksWellFormed(entries) && Checksums(packs) == Checksums(other)
    ensures Checksums(PublishPacks(packs, entries)) == Checksums(ReplayPacks(other, entries))
    decreases |entries|
  {
    if entries != [] {
      var init, e := entries[..|entries| - 1], entries[|entries| - 1];
      PublishedPacksAgree(packs, other, init);
      var before, replayed := PublishPacks(packs, init), ReplayPacks(other, init);
      if e.pack.Some? {
        RetainDrops(replayed + [e.pack.value], e.supersedes);
        ChecksumsSnoc(replayed, e.pack.value);
        if e.kind == Compact {
          RetainDrops(before, e.supersedes + [e.pack.value.checksum]);
          ChecksumsSnoc(Retain(before, e.supersedes + [e.pack.value.checksum]), e.pack.value);
        } else {
          ChecksumsSnoc(before, e.pack.value);
        }
      } else {
        RetainDrops(replayed, e.supersedes);
      }
    }
  }

  lemma ConsecutiveIncreasing(log: seq<LogEntry>, entries: seq<LogEntry>)
    requires Increasing(log) && Consecutive(entries) && entries[0].seqNo > HeadOf(log)
    ensures Increasing(log + entries) && Increasing(entries)
    ensures HeadOf(log + entries) == HeadOf(entries) > HeadOf(log)
  {
    var all := log + entries;
    forall i, j | 0 <= i < j < |all| ensures all[i].seqNo < all[j].seqNo {
      if i < |log| <= j {
        assert log[i].seqNo <= log[|log| - 1].seqNo;
      }
    }
  }

  predicate Appends(b: Bucket, c: Bucket, entries: seq<LogEntry>) {
    Consecutive(entries) && entries[0].seqNo > HeadOf(b.log) && entries[0].seqNo !in b.segments && c == Appended(b, entries)
  }

  lemma AppendGrows(b: Bucket, c: Bucket, entries: seq<LogEntry>)
    requires HeadsOk(b) && Appends(b, c, entries)
    ensures Grows(b, c)
  {
    ConsecutiveIncreasing(b.log, entries);
    forall i, h | |b.log| <= i < |c.log| && h in b.heads ensures h < c.log[i].seqNo {
      assert c.log[i] == entries[i - |b.log|];
    }
  }

  lemma OldHeadStays(log: seq<LogEntry>, entries: seq<LogEntry>, h: nat)
    requires Increasing(log) && Consecutive(entries) && entries[0].seqNo > HeadOf(log) && NumbersHead(log, h)
    ensures NumbersHead(log + entries, h) && Pos(log + entries, h) == Pos(log, h)
  {
    ConsecutiveIncreasing(log, entries);
    PosIs(log + entries, h, Pos(log, h));
  }

  lemma AppendKeepsHeads(b: Bucket, c: Bucket, entries: seq<LogEntry>)
    requires HeadsOk(b) && Appends(b, c, entries)
    ensures HeadsOk(c)
  {
    ConsecutiveIncreasing(b.log, entries);
    WholeLog(c.log);
    OldHeadStays(b.log, entries, 0);
    forall h | h in c.heads ensures NumbersHead(c.log, h) {
      if h in b.heads {
        OldHeadStays(b.log, entries, h);
      }
    }
  }

  lemma {:induction false} UpdatesPrefix(entries: seq<LogEntry>, k: nat)
    requires k <= |entries| && KeepsHead(UpdatesOf(entries))
    ensures KeepsHead(UpdatesOf(entries[..k]))
  {
    assert entries == entries[..k] + entries[k..];
    UpdatesConcat(entries[..k], entries[k..]);
    var all, some := UpdatesOf(entries), UpdatesOf(entries[..k]);
    assert forall i | 0 <= i < |some| :: some[i] == all[i];
  }

  lemma StateAppended(initial: RefState, log: seq<LogEntry>, entries: seq<LogEntry>, k: nat)
    requires k <= |entries|
    ensures StateAt(initial, log + entries, |log| + k) == ApplyEntries(StateAt(initial, log, |log|), entries[..k])
  {
    assert (log + entries)[..|log| + k] == log[..|log|] + entries[..k];
    ReplayConcat(initial, log[..|log|], entries[..k]);
  }

  lemma HeadSurvives(initial: RefState, log: seq<LogEntry>, entries: seq<LogEntry>, k: nat)
    requires k <= |entries| && KeepsHead(UpdatesOf(entries)) && HasHead(StateAt(initial, log, |log|))
    ensures HasHead(StateAt(initial, log + entries, |log| + k))
  {
    StateAppended(initial, log, entries, k);
    UpdatesPrefix(entries, k);
    HeadIsKept(StateAt(initial, log, |log|), UpdatesOf(entries[..k]));
  }

  lemma PublishKeepsHeads(b: Bucket, entries: seq<LogEntry>, k: nat)
    requires forall i | 0 <= i <= |b.log| :: HasHead(StateAt(b.initial, b.log, i))
    requires KeepsHead(UpdatesOf(entries)) && k <= |b.log + entries|
    ensures HasHead(StateAt(b.initial, b.log + entries, k))
  {
    if k <= |b.log| {
      StateBefore(b.initial, b.log, entries, k);
      assert HasHead(StateAt(b.initial, b.log, k));
    } else {
      HeadSurvives(b.initial, b.log, entries, k - |b.log|);
    }
  }

  lemma StateBefore(initial: RefState, log: seq<LogEntry>, entries: seq<LogEntry>, k: nat)
    requires k <= |log|
    ensures StateAt(initial, log + entries, k) == StateAt(initial, log, k)
  {
    assert (log + entries)[..k] == log[..k];
  }

  lemma GrowthKeepsObjects(b: Bucket, c: Bucket)
    requires BucketOk(b) && Grows(b, c) && HeadsOk(c)
    requires c.refsObjects == b.refsObjects && c.packObjects == b.packObjects
    ensures forall x | x in c.refsObjects :: x in c.heads && Tagged(c, c.refsObjects[x], x)
    ensures forall x | x in c.packObjects :: x in c.heads && PacksAt(c, c.packObjects[x], x)
  {
    forall x | x in c.refsObjects ensures x in c.heads && Tagged(c, c.refsObjects[x], x) {
      TaggedStays(b, c, b.refsObjects[x], x);
    }
    forall x | x in c.packObjects ensures x in c.heads && PacksAt(c, c.packObjects[x], x) {
      PosStays(b, c, x);
    }
  }

  lemma PublishKeepsBucket(b: Bucket, c: Bucket, entries: seq<LogEntry>)
    requires BucketOk(b) && Appends(b, c, entries) && WellFormed(entries)
    ensures BucketOk(c) && Grows(b, c)
  {
    AppendGrows(b, c, entries);
    AppendKeepsHeads(b, c, entries);
    forall k | 0 <= k <= |c.log| ensures HasHead(StateAt(c.initial, c.log, k)) {
      PublishKeepsHeads(b, entries, k);
    }
    GrowthKeepsObjects(b, c);
  }

  lemma PublishedPacksAt(b: Bucket, c: Bucket, m: Manifest, entries: seq<LogEntry>)
    requires HeadsOk(b) && PacksAt(b, m.packs, HeadOf(b.log)) && PacksWellFormed(entries)
    requires HeadsOk(c) && c.log == b.log + entries
    ensures PacksAt(c, PublishPacks(m.packs, entries), HeadOf(c.log))
  {
    WholeLog(b.log);
    WholeLog(c.log);
    PublishedPacksAgree(m.packs, ReplayPacks([], b.log), entries);
    ReplayPacksConcat([], b.log, entries);
  }

  lemma WholeLog(log: seq<LogEntry>)
    requires Increasing(log)
    ensures Pos(log, HeadOf(log)) == |log| && log[..Pos(log, HeadOf(log))] == log
  {
    PosIs(log, HeadOf(log), |log|);
  }

  lemma SnocSegments(c: Bucket, refs: seq<SegmentRef>, seg: SegmentRef)
    requires SegmentsOk(c, refs) && SegmentOk(c, seg)
    ensures SegmentsOk(c, refs + [seg])
    ensures Listed(c.segments, refs + [seg]) == Listed(c.segments, refs) + c.segments[seg.first]
  {
    assert (refs + [seg])[..|refs|] == refs;
  }

  lemma AppendedSlice(log: seq<LogEntry>, entries: seq<LogEntry>, from: nat)
    requires from <= |log|
    ensures (log + entries)[from..|log + entries|] == (log + entries)[from..|log|] + entries
  {
  }

  lemma AppendedCovers(b: Bucket, c: Bucket, m: Manifest, seg: SegmentRef, entries: seq<LogEntry>, updated: Manifest)
    requires Increasing(b.log) && Increasing(c.log) && Covers(c, m) && m.headSeq == HeadOf(b.log) && Pos(c.log, m.headSeq) == |b.log|
    requires c.log == b.log + entries && SegmentOk(c, seg) && c.segments[seg.first] == entries
    requires updated.segments == m.segments + [seg] && updated.headSeq == HeadOf(c.log) && CheckpointSeq(updated) == CheckpointSeq(m)
    ensures Covers(c, updated)
  {
    WholeLog(c.log);
    SnocSegments(c, m.segments, seg);
    AppendedSlice(b.log, entries, Pos(c.log, CheckpointSeq(m)));
  }

  lemma PublishedSegmentOk(b: Bucket, c: Bucket, entries: seq<LogEntry>, size: nat)
    requires HeadsOk(b) && Appends(b, c, entries)
    ensures SegmentOk(c, SegmentRef(entries[0].seqNo, HeadOf(entries), size))
  {
    ConsecutiveIncreasing(b.log, entries);
  }

  lemma PublishedCovers(b: Bucket, c: Bucket, m: Manifest, entries: seq<LogEntry>, size: nat, updatedAt: Option<int>)
    requires HeadsOk(b) && Appends(b, c, entries) && Grows(b, c) && Increasing(c.log)
    requires Covers(c, m) && m.headSeq == HeadOf(b.log)
    ensures Covers(c, PublishManifest(m, entries, size, updatedAt))
    ensures PublishManifest(m, entries, size, updatedAt).headSeq == HeadOf(c.log) && HeadOf(c.log) in c.heads
  {
    var updated := PublishManifest(m, entries, size, updatedAt);
    ConsecutiveIncreasing(b.log, entries);
    PosStays(b, c, m.headSeq);
    WholeLog(b.log);
    PublishedSegmentOk(b, c, entries, size);
    AppendedCovers(b, c, m, SegmentRef(entries[0].seqNo, HeadOf(entries), size), entries, updated);
  }

  lemma PublishedManifestOk(c: Bucket, m: Manifest, entries: seq<LogEntry>, size: nat, updatedAt: Option<int>)
    requires ManifestOk(c, m) && entries != [] && m.headSeq <= HeadOf(entries)
    requires Covers(c, PublishManifest(m, entries, size, updatedAt))
    requires HeadOf(entries) in c.heads && PacksAt(c, PublishPacks(m.packs, entries), HeadOf(entries))
    ensures ManifestOk(c, PublishManifest(m, entries, size, updatedAt))
  {
  }

  lemma PublishKeepsManifest(b: Bucket, c: Bucket, m: Manifest, entries: seq<LogEntry>, size: nat, updatedAt: Option<int>)
    requires BucketOk(b) && BucketOk(c) && Appends(b, c, entries) && Grows(b, c) && PacksWellFormed(entries)
    requires ManifestOk(b, m) && m.headSeq == HeadOf(b.log)
    ensures ManifestOk(c, PublishManifest(m, entries, size, updatedAt))
    ensures PublishManifest(m, entries, size, updatedAt).headSeq == HeadOf(c.log)
  {
    ConsecutiveIncreasing(b.log, entries);
    ManifestStays(b, c, m);
    PublishedCovers(b, c, m, entries, size, updatedAt);
    PublishedPacksAt(b, c, m, entries);
    PublishedManifestOk(c, m, entries, size, updatedAt);
  }

  // ---------------------------------------------------------------------------
  // Handles
  // ---------------------------------------------------------------------------

  /** A handle only trusts a manifest while it is the stored one, so a new version is harmless. */
  lemma NewVersionKeepsHandle(b: Bucket, register: Register<Manifest>, next: Register<Manifest>, h: Handle)
    requires HandleOk(b, register, h)
    requires register.counter < next.counter && next.slot.Some? && next.slot.value.version == next.counter
    ensures HandleOk(b, next, h)
  {
  }

  lemma LoadExact(b: Bucket, local: RefState, x: RefState, c: nat)
    requires BucketOk(b) && Tagged(b, x, c)
    ensures LoadSnapshot(local, x) == x
  {
    assert TakenBetween(x, b.initial, b.log, Pos(b.log, c), |b.log|, HeadCell);
    var k :| Pos(b.log, c) <= k <= |b.log| && Read(x, HeadCell) == Read(StateAt(b.initial, b.log, k), HeadCell);
    assert HasHead(StateAt(b.initial, b.log, k));
  }

  /** The entries a sync replays: everything after what is already applied. */
  lemma ReplayedTail(b: Bucket, m: Manifest, from: nat)
    requires Increasing(b.log) && Covers(b, m) && CheckpointSeq(m) <= from <= m.headSeq
    ensures Pos(b.log, from) <= Pos(b.log, m.headSeq)
    ensures After(Listed(b.segments, m.segments), from) == b.log[Pos(b.log, from)..Pos(b.log, m.headSeq)]
  {
    AfterWindow(b.log, CheckpointSeq(m), from, m.headSeq);
  }

  lemma ReplayIsTagged(b: Bucket, refs: RefState, from: nat, m: Manifest)
    requires Increasing(b.log) && Covers(b, m) && CheckpointSeq(m) <= from <= m.headSeq && Tagged(b, refs, from)
    ensures Tagged(b, ApplyEntries(refs, After(Listed(b.segments, m.segments), from)), m.headSeq)
  {
    ReplayedTail(b, m, from);
    BlendAdvances(refs, b.initial, b.log, Pos(b.log, from), Pos(b.log, m.headSeq), |b.log|);
  }

  /** Syncing to a manifest leaves refs that are at least as new as its head, never older. */
  lemma SyncIsTagged(b: Bucket, refs: RefState, applied: nat, m: Manifest)
    requires BucketOk(b) && ManifestOk(b, m) && applied <= m.headSeq && Tagged(b, refs, applied)
    ensures Tagged(b, SyncedRefs(b, refs, applied, m), m.headSeq)
  {
    var c := CheckpointSeq(m);
    if applied < c {
      LoadExact(b, refs, b.refsObjects[c], c);
      ReplayIsTagged(b, b.refsObjects[c], c, m);
    } else {
      ReplayIsTagged(b, refs, applied, m);
    }
  }

  lemma CommitKeepsManifest(b: Bucket, m: Manifest, c: nat, now: Option<int>)
    requires BucketOk(b) && ManifestOk(b, m) && CheckpointSeq(m) <= c <= m.headSeq && c in b.heads && c > 0
    requires c in b.refsObjects && c in b.packObjects
    ensures ManifestOk(b, CommitManifest(m, c, now))
  {
    CommitCoversIff(b, m, c, now);
  }

  // ---------------------------------------------------------------------------
  // Every step keeps the invariant
  // ---------------------------------------------------------------------------

  predicate Moved(before: Register<Manifest>, after: Register<Manifest>) {
    after == before || (before.counter < after.counter && after.slot.Some? && after.slot.value.version == after.counter)
  }

  lemma CarriedHandleOk(b: Bucket, c: Bucket, register: Register<Manifest>, next: Register<Manifest>, h: Handle)
    requires BucketOk(b) && BucketOk(c) && Grows(b, c) && HandleOk(b, register, h) && Moved(register, next)
    ensures HandleOk(c, next, h)
  {
    HandleStays(b, c, register, h);
    MovedKeepsHandle(c, register, next, h);
  }

  /** A step may grow the bucket and move the register: every instance stays right. */
  lemma Carry(s: State, c: Bucket, next: Register<Manifest>)
    requires Inv(s) && BucketOk(c) && Grows(s.bucket, c) && Moved(s.register, next) && RegisterOk(c, next)
    ensures Inv(State(c, next, s.handles))
  {
    forall p | p in s.handles ensures HandleOk(c, next, s.handles[p]) {
      CarriedHandleOk(s.bucket, c, s.register, next, s.handles[p]);
    }
  }

  /** It may also change one instance. */
  lemma ChangeKeepsInv(s: State, c: Bucket, next: Register<Manifest>, p: nat, h: Handle)
    requires Inv(s) && BucketOk(c) && Grows(s.bucket, c) && Moved(s.register, next) && RegisterOk(c, next) && HandleOk(c, next, h)
    ensures Inv(State(c, next, s.handles[p := h]))
  {
    Carry(s, c, next);
    ReplaceKeepsInv(State(c, next, s.handles), p, h);
  }

  lemma PublishKeepsInv(s: State, step: Step)
    requires Inv(s) && step.Publish? && Enabled(s, step)
    ensures Inv(Apply(s, step))
  {
    PublishKeepsRegister(s.bucket, s.register, s.register.slot.value.value, step.entries, step.size, step.updatedAt);
    Carry(s, Appended(s.bucket, step.entries), Apply(s, step).register);
  }

  predicate SegmentsOnly(b: Bucket, c: Bucket) {
    && c == b.(segments := c.segments)
    && forall k | k in b.committed && k in b.segments :: k in c.segments && c.segments[k] == b.segments[k]
  }

  lemma SegmentsKeepBucket(b: Bucket, c: Bucket)
    requires BucketOk(b) && SegmentsOnly(b, c)
    ensures BucketOk(c) && Grows(b, c)
  {
  }

  lemma SegmentsKeepInv(s: State, c: Bucket)
    requires Inv(s) && SegmentsOnly(s.bucket, c)
    ensures Inv(s.(bucket := c))
  {
    SegmentsKeepBucket(s.bucket, c);
    ManifestStays(s.bucket, c, s.register.slot.value.value);
    Carry(s, c, s.register);
  }

  lemma EditOutcome(register: Register<Manifest>, h: Handle, updated: Manifest, fault: Fault)
    requires ReadyToEdit(h) && register.slot.Some?
    ensures var put := EditPut(register, h, updated, fault);
            && Moved(register, put.register)
            && (put.register == register ||
                (Admits(register, CommitMode(h.edit.value.version.value))
                 && put.register == Register(Some(Object(register.counter + 1, updated)), register.counter + 1)))
  {
  }

  lemma EditedHandleOk(b: Bucket, register: Register<Manifest>, next: Register<Manifest>, h: Handle)
    requires HandleOk(b, register, h) && Moved(register, next)
    ensures HandleOk(b, next, h.(edit := None))
  {
    MovedKeepsHandle(b, register, next, h);
  }

  lemma AnnotatedManifestOk(b: Bucket, m: Manifest, packs: seq<PackRef>, updatedAt: Option<int>)
    requires ManifestOk(b, m) && Checksums(packs) == Checksums(m.packs)
    ensures ManifestOk(b, AnnotatedManifest(m, packs, updatedAt))
  {
  }

  lemma AnnotateKeepsRegister(b: Bucket, register: Register<Manifest>, h: Handle, packs: seq<PackRef>, updatedAt: Option<int>, fault: Fault)
    requires RegisterOk(b, register) && HandleOk(b, register, h) && ReadyToEdit(h) && EditsStoredHead(register, h)
    requires Checksums(packs) == Checksums(h.edit.value.base.packs)
    ensures var next := EditPut(register, h, AnnotatedManifest(h.edit.value.base, packs, updatedAt), fault).register;
            Moved(register, next) && RegisterOk(b, next)
  {
    EditOutcome(register, h, AnnotatedManifest(h.edit.value.base, packs, updatedAt), fault);
    AnnotatedManifestOk(b, h.edit.value.base, packs, updatedAt);
  }

  lemma AnnotateKeepsInv(s: State, p: nat, packs: seq<PackRef>, updatedAt: Option<int>, fault: Fault)
    requires Inv(s) && p in s.handles && ReadyToEdit(s.handles[p]) && EditsStoredHead(s.register, s.handles[p])
    requires Checksums(packs) == Checksums(s.handles[p].edit.value.base.packs)
    ensures Inv(AnnotateState(s, p, packs, updatedAt, fault))
  {
    var h, t := s.handles[p], AnnotateState(s, p, packs, updatedAt, fault);
    AnnotateKeepsRegister(s.bucket, s.register, h, packs, updatedAt, fault);
    EditedHandleOk(s.bucket, s.register, t.register, h);
    WriteKeepsInv(s, t.register, p, h.(edit := None));
  }

  lemma NoUpdates(e: LogEntry)
    requires e.txn.None? && PacksWellFormed([e])
    ensures WellFormed([e]) && Consecutive([e])
  {
    assert [e][..0] == [];
    assert UpdatesOf([e]) == UpdatesOf([e][..0]) + [];
  }

  /** What publishing `entries` over the manifest `m` stores. */
  function AfterPublish(register: Register<Manifest>, m: Manifest, entries: seq<LogEntry>, size: nat, updatedAt: Option<int>): Register<Manifest>
    requires entries != []
  {
    Register(Some(Object(register.counter + 1, PublishManifest(m, entries, size, updatedAt))), register.counter + 1)
  }

  lemma PublishKeepsRegister(b: Bucket, register: Register<Manifest>, m: Manifest, entries: seq<LogEntry>, size: nat, updatedAt: Option<int>)
    requires BucketOk(b) && ManifestOk(b, m) && m.headSeq == HeadOf(b.log) && WellFormed(entries)
    requires entries != [] && Appends(b, Appended(b, entries), entries)
    ensures var c := Appended(b, entries); BucketOk(c) && Grows(b, c)
    ensures RegisterOk(Appended(b, entries), AfterPublish(register, m, entries, size, updatedAt))
    ensures Moved(register, AfterPublish(register, m, entries, size, updatedAt))
  {
    PublishKeepsBucket(b, Appended(b, entries), entries);
    PublishKeepsManifest(b, Appended(b, entries), m, entries, size, updatedAt);
  }

  /** A compaction whose manifest write lands: its entry is committed. */
  lemma LandedCompactKeepsInv(s: State, p: nat, h: Handle, e: LogEntry, size: nat, updatedAt: Option<int>)
    requires Inv(s) && HandleOk(s.bucket, s.register, h) && h.edit.Some? && h.edit.value.base.headSeq == HeadOf(s.bucket.log)
    requires e.txn.None? && PacksWellFormed([e]) && e.seqNo > HeadOf(s.bucket.log) && e.seqNo !in s.bucket.segments
    ensures Inv(State(Appended(s.bucket, [e]), AfterPublish(s.register, h.edit.value.base, [e], size, updatedAt),
                      s.handles[p := h.(edit := None)]))
  {
    var c, next := Appended(s.bucket, [e]), AfterPublish(s.register, h.edit.value.base, [e], size, updatedAt);
    NoUpdates(e);
    PublishKeepsRegister(s.bucket, s.register, h.edit.value.base, [e], size, updatedAt);
    MovedHandleOk(s.bucket, c, s.register, next, h);
    ChangeKeepsInv(s, c, next, p, h.(edit := None));
  }

  lemma MovedHandleOk(b: Bucket, c: Bucket, register: Register<Manifest>, next: Register<Manifest>, h: Handle)
    requires BucketOk(b) && BucketOk(c) && Grows(b, c) && HandleOk(b, register, h) && Moved(register, next)
    ensures HandleOk(c, next, h.(edit := None))
  {
    CarriedHandleOk(b, c, register, next, h);
    EditHandleOk(c, next, h, None);
  }

  /** One whose manifest write does not: its log object is a leftover. */
  lemma LostCompactKeepsInv(s: State, p: nat, h: Handle, e: LogEntry)
    requires Inv(s) && HandleOk(s.bucket, s.register, h) && e.seqNo !in s.bucket.segments
    ensures Inv(State(s.bucket.(segments := s.bucket.segments[e.seqNo := [e]]), s.register, s.handles[p := h.(edit := None)]))
  {
    var c := s.bucket.(segments := s.bucket.segments[e.seqNo := [e]]);
    SegmentsKeepInv(s, c);
    SegmentsKeepBucket(s.bucket, c);
    MovedHandleOk(s.bucket, c, s.register, s.register, h);
    ReplaceKeepsInv(s.(bucket := c), p, h.(edit := None));
  }

  lemma CompactKeepsInv(s: State, p: nat, e: LogEntry, size: nat, updatedAt: Option<int>, fault: Fault)
    requires Inv(s) && p in s.handles && ReadyToEdit(s.handles[p]) && EditsStoredHead(s.register, s.handles[p])
    requires e.txn.None? && PacksWellFormed([e]) && e.seqNo > s.handles[p].edit.value.base.headSeq && e.seqNo !in s.bucket.segments
    ensures Inv(CompactState(s, p, e, size, updatedAt, fault))
  {
    var h := s.handles[p];
    assert HandleOk(s.bucket, s.register, h);
    EditOutcome(s.register, h, PublishManifest(h.edit.value.base, [e], size, updatedAt), fault);
    if EditPut(s.register, h, PublishManifest(h.edit.value.base, [e], size, updatedAt), fault).register == s.register {
      LostCompactKeepsInv(s, p, h, e);
    } else {
      LandedCompactKeepsInv(s, p, h, e, size, updatedAt);
    }
  }

  lemma EditHandleOk(b: Bucket, register: Register<Manifest>, h: Handle, version: Option<Option<nat>>)
    requires HandleOk(b, register, h)
    ensures HandleOk(b, register, h.(edit := Some(Edit(h.manifest, None))))
    ensures h.edit.Some? ==> HandleOk(b, register, h.(edit := Some(h.edit.value.(version := version))))
    ensures HandleOk(b, register, h.(edit := None))
  {
  }

  lemma EditStepKeepsInv(s: State, step: Step)
    requires Inv(s) && Enabled(s, step) && Matched(s, step)
    requires step.EditManifest? || step.EditVersion? || step.Annotate? || step.CompactPut? || step.DropEdit?
    ensures Inv(Apply(s, step))
  {
    match step
    case EditManifest(p) =>
      EditHandleOk(s.bucket, s.register, s.handles[p], None);
      ReplaceKeepsInv(s, p, s.handles[p].(edit := Some(Edit(s.handles[p].manifest, None))));
    case EditVersion(p) =>
      EditHandleOk(s.bucket, s.register, s.handles[p], Some(s.handles[p].version));
      ReplaceKeepsInv(s, p, Apply(s, step).handles[p]);
    case Annotate(p, packs, updatedAt, fault) => AnnotateKeepsInv(s, p, packs, updatedAt, fault);
    case CompactPut(p, e, size, updatedAt, fault) => CompactKeepsInv(s, p, e, size, updatedAt, fault);
    case DropEdit(p) =>
      EditHandleOk(s.bucket, s.register, s.handles[p], None);
      ReplaceKeepsInv(s, p, s.handles[p].(edit := None));
  }

  /** A step that changes only one instance. */
  lemma ReplaceKeepsInv(s: State, p: nat, h: Handle)
    requires Inv(s) && HandleOk(s.bucket, s.register, h)
    ensures Inv(s.(handles := s.handles[p := h]))
  {
  }

  lemma FreshHandleOk(b: Bucket, register: Register<Manifest>)
    requires BucketOk(b)
    ensures HandleOk(b, register, FreshHandle(b))
  {
    assert b.log[..0] == [];
    ExactIsBlend(b.initial, b.log, 0, |b.log|);
  }

  lemma FetchedHandleOk(s: State, p: nat)
    requires Inv(s) && p in s.handles
    ensures HandleOk(s.bucket, s.register,
                     s.handles[p].(fetched := Some((s.register.slot.value.value, s.register.slot.value.version))))
  {
  }

  lemma SyncedHandleOk(b: Bucket, register: Register<Manifest>, h: Handle)
    requires BucketOk(b) && HandleOk(b, register, h) && h.fetched.Some?
    requires Readable(b.segments, h.fetched.value.0.segments)
    ensures HandleOk(b, register, h.(manifest := h.fetched.value.0, version := Some(h.fetched.value.1), fetched := None,
                                     refs := SyncedRefs(b, h.refs, h.manifest.headSeq, h.fetched.value.0)))
  {
    SyncIsTagged(b, h.refs, h.manifest.headSeq, h.fetched.value.0);
  }

  lemma AheadHandleOk(b: Bucket, register: Register<Manifest>, h: Handle, upTo: nat)
    requires BucketOk(b) && HandleOk(b, register, h) && Pos(b.log, h.manifest.headSeq) <= upTo <= |b.log|
    ensures HandleOk(b, register, h.(refs := ApplyEntries(h.refs, b.log[Pos(b.log, h.manifest.headSeq)..upTo])))
  {
    var i := Pos(b.log, h.manifest.headSeq);
    BlendAdvances(h.refs, b.initial, b.log, i, upTo, |b.log|);
    BlendWidens(ApplyEntries(h.refs, b.log[i..upTo]), b.initial, b.log, upTo, |b.log|, b.log, i, |b.log|);
  }

  lemma PlannedHandleOk(b: Bucket, register: Register<Manifest>, h: Handle)
    requires HandleOk(b, register, h) && h.manifest.headSeq > 0
    ensures HandleOk(b, register, h.(job := Some(Job(h.manifest.headSeq, h.manifest.packs, None, false, false, None, None))))
  {
  }

  lemma SnapshotHandleOk(b: Bucket, register: Register<Manifest>, h: Handle)
    requires BucketOk(b) && HandleOk(b, register, h) && h.job.Some?
    ensures HandleOk(b, register, h.(job := Some(h.job.value.(snapshot := Some(h.refs)))))
  {
    var i, n := Pos(b.log, h.job.value.seqNo), Pos(b.log, h.manifest.headSeq);
    PosMonotone(b.log, h.job.value.seqNo, h.manifest.headSeq);
    BlendWidens(h.refs, b.initial, b.log, n, |b.log|, b.log, i, |b.log|);
  }

  function WithRefs(b: Bucket, c: nat, x: RefState): Bucket {
    b.(refsObjects := b.refsObjects[c := x])
  }

  lemma PutRefsKeepsBucket(b: Bucket, c: nat, x: RefState)
    requires BucketOk(b) && c in b.heads && Tagged(b, x, c)
    ensures BucketOk(WithRefs(b, c, x)) && Grows(b, WithRefs(b, c, x))
  {
  }

  function WithPacks(b: Bucket, c: nat, packs: seq<PackRef>): Bucket {
    b.(packObjects := b.packObjects[c := packs])
  }

  lemma PutPacksKeepsBucket(b: Bucket, c: nat, packs: seq<PackRef>)
    requires BucketOk(b) && c in b.heads && PacksAt(b, packs, c)
    ensures BucketOk(WithPacks(b, c, packs)) && Grows(b, WithPacks(b, c, packs))
  {
  }

  /** A step that writes a checkpoint object and changes one instance. */
  lemma ObjectKeepsInv(s: State, c: Bucket, p: nat, h: Handle)
    requires Inv(s) && BucketOk(c) && Grows(s.bucket, c) && c.log == s.bucket.log && HandleOk(c, s.register, h)
    ensures Inv(State(c, s.register, s.handles[p := h]))
  {
    ManifestStays(s.bucket, c, s.register.slot.value.value);
    ChangeKeepsInv(s, c, s.register, p, h);
  }

  lemma MarkedHandleOk(b: Bucket, register: Register<Manifest>, h: Handle, refsPut: bool, packsPut: bool)
    requires HandleOk(b, register, h) && h.job.Some?
    requires (refsPut ==> h.job.value.seqNo in b.refsObjects) && (packsPut ==> h.job.value.seqNo in b.packObjects)
    requires (h.job.value.refsPut ==> refsPut) && (h.job.value.packsPut ==> packsPut)
    ensures HandleOk(b, register, h.(job := Some(h.job.value.(refsPut := refsPut, packsPut := packsPut))))
  {
  }

  lemma RefsPutOk(b: Bucket, register: Register<Manifest>, h: Handle)
    requires BucketOk(b) && HandleOk(b, register, h) && h.job.Some? && h.job.value.snapshot.Some?
    ensures var c := WithRefs(b, h.job.value.seqNo, h.job.value.snapshot.value);
            BucketOk(c) && Grows(b, c) && HandleOk(c, register, h.(job := Some(h.job.value.(refsPut := true))))
  {
    var c := WithRefs(b, h.job.value.seqNo, h.job.value.snapshot.value);
    PutRefsKeepsBucket(b, h.job.value.seqNo, h.job.value.snapshot.value);
    HandleStays(b, c, register, h);
    MarkedHandleOk(c, register, h, true, h.job.value.packsPut);
  }

  lemma PutRefsKeepsInv(s: State, p: nat)
    requires Inv(s) && Enabled(s, PutRefs(p))
    ensures Inv(Apply(s, PutRefs(p)))
  {
    var h := s.handles[p];
    RefsPutOk(s.bucket, s.register, h);
    ObjectKeepsInv(s, WithRefs(s.bucket, h.job.value.seqNo, h.job.value.snapshot.value), p,
                   h.(job := Some(h.job.value.(refsPut := true))));
  }

  lemma PacksPutOk(b: Bucket, register: Register<Manifest>, h: Handle)
    requires BucketOk(b) && HandleOk(b, register, h) && h.job.Some?
    ensures var c := WithPacks(b, h.job.value.seqNo, h.job.value.packs);
            BucketOk(c) && Grows(b, c) && HandleOk(c, register, h.(job := Some(h.job.value.(packsPut := true))))
  {
    var c := WithPacks(b, h.job.value.seqNo, h.job.value.packs);
    PutPacksKeepsBucket(b, h.job.value.seqNo, h.job.value.packs);
    HandleStays(b, c, register, h);
    MarkedHandleOk(c, register, h, h.job.value.refsPut, true);
  }

  lemma PutPacksKeepsInv(s: State, p: nat)
    requires Inv(s) && Enabled(s, PutPacks(p))
    ensures Inv(Apply(s, PutPacks(p)))
  {
    var h := s.handles[p];
    PacksPutOk(s.bucket, s.register, h);
    ObjectKeepsInv(s, WithPacks(s.bucket, h.job.value.seqNo, h.job.value.packs), p,
                   h.(job := Some(h.job.value.(packsPut := true))));
  }

  lemma ReadHandleOk(b: Bucket, register: Register<Manifest>, h: Handle)
    requires HandleOk(b, register, h) && h.job.Some? && h.job.value.refsPut && h.job.value.packsPut
    ensures HandleOk(b, register, h.(job := Some(h.job.value.(base := Some(h.manifest)))))
  {
  }

  lemma VersionHandleOk(b: Bucket, register: Register<Manifest>, h: Handle, version: Option<Option<nat>>)
    requires HandleOk(b, register, h) && h.job.Some?
    ensures HandleOk(b, register, h.(job := Some(h.job.value.(version := version))))
  {
  }

  /** What the round-two write can do to the register and to the writer. */
  lemma CommitOutcome(register: Register<Manifest>, h: Handle, now: Option<int>, fault: Fault)
    requires ReadyToCommit(h) && register.slot.Some?
    ensures var put := CommitPut(register, h, now, fault);
            && Moved(register, put.register)
            && (put.register == register ||
                (Admits(register, CommitMode(h.job.value.version.value))
                 && put.register == Register(Some(Object(register.counter + 1, Committed(h, now))), register.counter + 1)))
            && (put.result.Ok? ==> put.register != register && put.result.value == put.register.counter)
  {
  }

  /** What is known of a writer whose manifest write is accepted. */
  lemma AcceptedBase(b: Bucket, register: Register<Manifest>, h: Handle, now: Option<int>)
    requires BucketOk(b) && RegisterOk(b, register) && HandleOk(b, register, h) && ReadyToCommit(h)
    requires InOrder(h) && OnStoredHead(register, h) && Admits(register, CommitMode(h.job.value.version.value))
    ensures ManifestOk(b, Committed(h, now))
    ensures Committed(h, now).headSeq == HeadOf(b.log) == h.manifest.headSeq
  {
    HeadIsLast(b, h.manifest.headSeq);
    CommitKeepsManifest(b, h.job.value.base.value, h.job.value.seqNo, now);
  }

  lemma HeadIsLast(b: Bucket, h: nat)
    requires HeadsOk(b) && h in b.heads
    ensures h <= HeadOf(b.log)
  {
    assert NumbersHead(b.log, h);
  }

  lemma CommittedHandleOk(b: Bucket, register: Register<Manifest>, h: Handle, updated: Manifest, version: nat)
    requires HandleOk(b, register, h) && ManifestOk(b, updated) && updated.headSeq == h.manifest.headSeq
    requires Known(register, updated, version)
    ensures HandleOk(b, register, h.(manifest := updated, version := Some(version), job := None))
  {
  }

  lemma CommitKeepsRegister(b: Bucket, register: Register<Manifest>, h: Handle, now: Option<int>, fault: Fault)
    requires BucketOk(b) && RegisterOk(b, register) && HandleOk(b, register, h) && ReadyToCommit(h)
    requires InOrder(h) && OnStoredHead(register, h)
    ensures Moved(register, CommitPut(register, h, now, fault).register)
    ensures RegisterOk(b, CommitPut(register, h, now, fault).register)
  {
    CommitOutcome(register, h, now, fault);
    if CommitPut(register, h, now, fault).register != register {
      AcceptedBase(b, register, h, now);
    }
  }

  lemma RetryHandleOk(b: Bucket, register: Register<Manifest>, h: Handle)
    requires HandleOk(b, register, h) && h.job.Some?
    ensures HandleOk(b, register, h.(job := Some(h.job.value.(base := None, version := None))))
    ensures HandleOk(b, register, h.(job := None))
  {
  }

  lemma MovedKeepsHandle(b: Bucket, register: Register<Manifest>, next: Register<Manifest>, h: Handle)
    requires HandleOk(b, register, h) && Moved(register, next)
    ensures HandleOk(b, next, h)
  {
    if next != register {
      NewVersionKeepsHandle(b, register, next, h);
    }
  }

  lemma CommitKeepsHandle(b: Bucket, register: Register<Manifest>, h: Handle, now: Option<int>, fault: Fault)
    requires BucketOk(b) && RegisterOk(b, register) && HandleOk(b, register, h) && ReadyToCommit(h)
    requires InOrder(h) && OnStoredHead(register, h)
    ensures var put := CommitPut(register, h, now, fault); HandleOk(b, put.register, CommitHandle(h, now, put.result))
  {
    var put := CommitPut(register, h, now, fault);
    CommitOutcome(register, h, now, fault);
    MovedKeepsHandle(b, register, put.register, h);
    AnsweredHandleOk(b, register, put.register, h, now, put.result);
  }

  lemma AnsweredHandleOk(b: Bucket, register: Register<Manifest>, next: Register<Manifest>, h: Handle, now: Option<int>,
                         result: Result<nat, StoreError>)
    requires BucketOk(b) && RegisterOk(b, register) && HandleOk(b, register, h) && ReadyToCommit(h)
    requires InOrder(h) && OnStoredHead(register, h) && HandleOk(b, next, h)
    requires result.Ok? ==> Admits(register, CommitMode(h.job.value.version.value)) && Known(next, Committed(h, now), result.value)
    ensures HandleOk(b, next, CommitHandle(h, now, result))
  {
    if result.Ok? {
      AcceptedBase(b, register, h, now);
      CommittedHandleOk(b, next, h, Committed(h, now), result.value);
      assert CommitHandle(h, now, result) == h.(manifest := Committed(h, now), version := Some(result.value), job := None);
    } else {
      RetryHandleOk(b, next, h);
      UnansweredHandle(h, now, result);
    }
  }

  lemma UnansweredHandle(h: Handle, now: Option<int>, result: Result<nat, StoreError>)
    requires ReadyToCommit(h) && result.Err?
    ensures || CommitHandle(h, now, result) == h.(job := Some(h.job.value.(base := None, version := None)))
            || CommitHandle(h, now, result) == h.(job := None)
  {
  }

  lemma CommitKeepsInv(s: State, p: nat, now: Option<int>, fault: Fault)
    requires Inv(s) && p in s.handles && ReadyToCommit(s.handles[p])
    requires InOrder(s.handles[p]) && OnStoredHead(s.register, s.handles[p])
    ensures Inv(CommitState(s, p, now, fault))
  {
    var h := s.handles[p];
    WrittenCommitKeepsInv(s, p, h, now, fault);
    SkippedCommitKeepsInv(s, p);
  }

  lemma SkippedCommitKeepsInv(s: State, p: nat)
    requires Inv(s) && p in s.handles
    ensures Inv(s.(handles := s.handles[p := s.handles[p].(job := None)]))
  {
    DoneHandleOk(s.bucket, s.register, s.handles[p]);
    ReplaceKeepsInv(s, p, s.handles[p].(job := None));
  }

  lemma DoneHandleOk(b: Bucket, register: Register<Manifest>, h: Handle)
    requires HandleOk(b, register, h)
    ensures HandleOk(b, register, h.(job := None))
  {
  }

  lemma WrittenCommitKeepsInv(s: State, p: nat, h: Handle, now: Option<int>, fault: Fault)
    requires Inv(s) && HandleOk(s.bucket, s.register, h) && ReadyToCommit(h) && InOrder(h) && OnStoredHead(s.register, h)
    ensures var put := CommitPut(s.register, h, now, fault);
            Inv(State(s.bucket, put.register, s.handles[p := CommitHandle(h, now, put.result)]))
  {
    var put := CommitPut(s.register, h, now, fault);
    CommitKeepsRegister(s.bucket, s.register, h, now, fault);
    CommitKeepsHandle(s.bucket, s.register, h, now, fault);
    WriteKeepsInv(s, put.register, p, CommitHandle(h, now, put.result));
  }

  /** A step that writes the manifest and changes one instance. */
  lemma WriteKeepsInv(s: State, register: Register<Manifest>, p: nat, h: Handle)
    requires Inv(s) && Moved(s.register, register) && RegisterOk(s.bucket, register) && HandleOk(s.bucket, register, h)
    ensures Inv(State(s.bucket, register, s.handles[p := h]))
  {
    ChangeKeepsInv(s, s.bucket, register, p, h);
  }

  lemma OpenKeepsInv(s: State, p: nat)
    requires Inv(s) && Enabled(s, Open(p))
    ensures Inv(Apply(s, Open(p)))
  {
    assert BucketOk(s.bucket);
    FreshKeepsInv(s, p, FreshHandle(s.bucket));
  }

  lemma FreshKeepsInv(s: State, p: nat, h: Handle)
    requires Inv(s) && h == FreshHandle(s.bucket)
    ensures Inv(s.(handles := s.handles[p := h]))
  {
    assert HandleOk(s.bucket, s.register, h) by {
      FreshHandleOk(s.bucket, s.register);
    }
    ReplaceKeepsInv(s, p, h);
  }

  lemma FetchKeepsInv(s: State, p: nat)
    requires Inv(s) && Enabled(s, SyncFetch(p))
    ensures Inv(Apply(s, SyncFetch(p)))
  {
    FetchedHandleOk(s, p);
    ReplaceKeepsInv(s, p, s.handles[p].(fetched := Some((s.register.slot.value.value, s.register.slot.value.version))));
  }

  lemma SyncKeepsInv(s: State, p: nat)
    requires Inv(s) && Enabled(s, SyncApply(p))
    ensures Inv(Apply(s, SyncApply(p)))
  {
    SyncedHandleOk(s.bucket, s.register, s.handles[p]);
    ReplaceKeepsInv(s, p, Apply(s, SyncApply(p)).handles[p]);
  }

  lemma AheadKeepsInv(s: State, p: nat, upTo: nat)
    requires Inv(s) && Enabled(s, RefsAhead(p, upTo))
    ensures Inv(Apply(s, RefsAhead(p, upTo)))
  {
    AheadHandleOk(s.bucket, s.register, s.handles[p], upTo);
    ReplaceKeepsInv(s, p, Apply(s, RefsAhead(p, upTo)).handles[p]);
  }

  lemma PlanKeepsInv(s: State, p: nat)
    requires Inv(s) && Enabled(s, Plan(p))
    ensures Inv(Apply(s, Plan(p)))
  {
    PlannedHandleOk(s.bucket, s.register, s.handles[p]);
    ReplaceKeepsInv(s, p, Apply(s, Plan(p)).handles[p]);
  }

  lemma SnapshotKeepsInv(s: State, p: nat)
    requires Inv(s) && Enabled(s, TakeSnapshot(p))
    ensures Inv(Apply(s, TakeSnapshot(p)))
  {
    SnapshotHandleOk(s.bucket, s.register, s.handles[p]);
    ReplaceKeepsInv(s, p, Apply(s, TakeSnapshot(p)).handles[p]);
  }

  lemma ReadKeepsInv(s: State, p: nat)
    requires Inv(s) && Enabled(s, ReadManifest(p))
    ensures Inv(Apply(s, ReadManifest(p)))
  {
    ReadHandleOk(s.bucket, s.register, s.handles[p]);
    ReplaceKeepsInv(s, p, Apply(s, ReadManifest(p)).handles[p]);
  }

  lemma VersionKeepsInv(s: State, p: nat)
    requires Inv(s) && Enabled(s, ReadVersion(p))
    ensures Inv(Apply(s, ReadVersion(p)))
  {
    VersionHandleOk(s.bucket, s.register, s.handles[p], Some(s.handles[p].version));
    ReplaceKeepsInv(s, p, Apply(s, ReadVersion(p)).handles[p]);
  }

  lemma SmallStepKeepsInv(s: State, step: Step)
    requires Inv(s) && Enabled(s, step) && (step.Orphan? || step.Sweep? || step.Crash?)
    ensures Inv(Apply(s, step))
  {
    if !step.Crash? {
      SegmentsKeepInv(s, Apply(s, step).bucket);
    }
  }

  lemma BucketStepKeepsInv(s: State, step: Step)
    requires Inv(s) && Enabled(s, step)
    requires step.Publish? || step.Orphan? || step.Sweep? || step.PutRefs? || step.PutPacks?
    ensures Inv(Apply(s, step))
  {
    match step
    case Publish(_, _, _) => PublishKeepsInv(s, step);
    case Orphan(_) => SmallStepKeepsInv(s, step);
    case Sweep(_) => SmallStepKeepsInv(s, step);
    case PutRefs(p) => PutRefsKeepsInv(s, p);
    case PutPacks(p) => PutPacksKeepsInv(s, p);
  }

  lemma SyncStepKeepsInv(s: State, step: Step)
    requires Inv(s) && Enabled(s, step)
    requires step.Open? || step.Crash? || step.SyncFetch? || step.SyncApply? || step.RefsAhead?
    ensures Inv(Apply(s, step))
  {
    match step
    case Open(p) => OpenKeepsInv(s, p);
    case Crash(_) => SmallStepKeepsInv(s, step);
    case SyncFetch(p) => FetchKeepsInv(s, p);
    case SyncApply(p) => SyncKeepsInv(s, p);
    case RefsAhead(p, upTo) => AheadKeepsInv(s, p, upTo);
  }

  lemma JobStepKeepsInv(s: State, step: Step)
    requires Inv(s) && Enabled(s, step)
    requires step.Plan? || step.TakeSnapshot? || step.Abandon? || step.ReadManifest? || step.ReadVersion?
    ensures Inv(Apply(s, step))
  {
    match step
    case Plan(p) => PlanKeepsInv(s, p);
    case TakeSnapshot(p) => SnapshotKeepsInv(s, p);
    case Abandon(p) => SkippedCommitKeepsInv(s, p);
    case ReadManifest(p) => ReadKeepsInv(s, p);
    case ReadVersion(p) => VersionKeepsInv(s, p);
  }

  lemma StepKeepsInv(s: State, step: Step)
    requires Inv(s) && Enabled(s, step) && Unovertaken(s, step) && Matched(s, step)
    ensures Inv(Apply(s, step))
  {
    if step.Commit? {
      CommitKeepsInv(s, step.p, step.now, step.fault);
    } else if step.Publish? || step.Orphan? || step.Sweep? || step.PutRefs? || step.PutPacks? {
      BucketStepKeepsInv(s, step);
    } else if step.EditManifest? || step.EditVersion? || step.Annotate? || step.CompactPut? || step.DropEdit? {
      EditStepKeepsInv(s, step);
    } else if step.Open? || step.Crash? || step.SyncFetch? || step.SyncApply? || step.RefsAhead? {
      SyncStepKeepsInv(s, step);
    } else {
      JobStepKeepsInv(s, step);
    }
  }

  lemma Inductive()
    ensures forall s :: Init(s) ==> Inv(s)
    ensures forall s, t :: Inv(s) && Next(s, t) ==> Inv(t)
  {
    forall s | Init(s) ensures Inv(s) {
      assert s.bucket.log[..0] == [];
    }
    forall s, t | Inv(s) && Next(s, t) ensures Inv(t) {
      var step :| Enabled(s, step) && Unovertaken(s, step) && Matched(s, step) && t == Apply(s, step);
      StepKeepsInv(s, step);
    }
  }

  // ---------------------------------------------------------------------------
  // Whole runs
  // ---------------------------------------------------------------------------

  lemma ReachableInv(run: seq<State>, i: nat)
    requires IsRun(run) && i < |run|
    ensures Inv(run[i])
  {
    Inductive();
    Runs.Always(Init, Next, Inv, run, i);
  }

  /** In every run the manifest names the head of the log, every committed entry from `minSeq` on
      is in one of its segments, in order and exactly once, and nothing else is. */
  lemma SegmentsCoverTheLog(run: seq<State>, i: nat)
    requires IsRun(run) && i < |run|
    ensures var s := run[i];
            && s.register.slot.Some?
            && var m := s.register.slot.value.value;
               && m.headSeq == HeadOf(s.bucket.log)
               && (m.minSeq == if m.checkpoint.Some? then m.checkpoint.value.seqNo + 1 else 0)
               && Readable(s.bucket.segments, m.segments)
               && Listed(s.bucket.segments, m.segments) == After(s.bucket.log, CheckpointSeq(m))
  {
    ReachableInv(run, i);
    WholeLog(run[i].bucket.log);
  }

  /** In every run, checkpoint snapshot plus replayed tail is what replaying the whole log from
      the beginning gives, and the checkpoint's pack list plus the tail is both the replayed pack
      set and the manifest's own. */
  lemma CheckpointingPreservesMeaning(run: seq<State>, i: nat, local: RefState)
    requires IsRun(run) && i < |run|
    ensures var s := run[i];
            && s.register.slot.Some?
            && var b, m := s.bucket, s.register.slot.value.value;
               && Readable(b.segments, m.segments)
               && (m.checkpoint.Some? ==> CheckpointSeq(m) in b.refsObjects && CheckpointSeq(m) in b.packObjects)
               && SyncedRefs(b, if m.checkpoint.Some? then local else b.initial, 0, m) == StateAt(b.initial, b.log, |b.log|)
               && Checksums(ReplayPacks(if m.checkpoint.Some? then b.packObjects[CheckpointSeq(m)] else [],
                                        Listed(b.segments, m.segments)))
                  == Checksums(ReplayPacks([], b.log)) == Checksums(m.packs)
  {
    ReachableInv(run, i);
    var b, m := run[i].bucket, run[i].register.slot.value.value;
    ColdRefs(b, m, local);
    ColdPacks(b, m);
  }

  /** Syncing any instance, whatever it had applied and however far its refs ran ahead, gives
      exactly the refs of the whole log. */
  lemma SyncIsExact(run: seq<State>, i: nat, p: nat)
    requires IsRun(run) && i < |run| && p in run[i].handles
    ensures var s := run[i];
            && s.register.slot.Some? && Readable(s.bucket.segments, s.register.slot.value.value.segments)
            && SyncedRefs(s.bucket, s.handles[p].refs, s.handles[p].manifest.headSeq, s.register.slot.value.value)
               == StateAt(s.bucket.initial, s.bucket.log, |s.bucket.log|)
  {
    ReachableInv(run, i);
    var s := run[i];
    WarmRefs(s.bucket, s.handles[p].refs, s.handles[p].manifest.headSeq, s.register.slot.value.value);
  }

  lemma AtTheEnd(b: Bucket, x: RefState)
    requires Increasing(b.log) && Tagged(b, x, HeadOf(b.log))
    ensures x == StateAt(b.initial, b.log, |b.log|)
  {
    WholeLog(b.log);
    assert b.log[|b.log|..|b.log|] == [];
    BlendCatchesUp(x, b.initial, b.log, |b.log|, |b.log|, |b.log|);
  }

  lemma WarmRefs(b: Bucket, refs: RefState, applied: nat, m: Manifest)
    requires BucketOk(b) && ManifestOk(b, m) && m.headSeq == HeadOf(b.log) && applied <= m.headSeq && Tagged(b, refs, applied)
    ensures SyncedRefs(b, refs, applied, m) == StateAt(b.initial, b.log, |b.log|)
  {
    SyncIsTagged(b, refs, applied, m);
    AtTheEnd(b, SyncedRefs(b, refs, applied, m));
  }

  lemma ColdRefs(b: Bucket, m: Manifest, local: RefState)
    requires BucketOk(b) && ManifestOk(b, m) && m.headSeq == HeadOf(b.log)
    ensures SyncedRefs(b, if m.checkpoint.Some? then local else b.initial, 0, m) == StateAt(b.initial, b.log, |b.log|)
  {
    if m.checkpoint.Some? {
      LoadExact(b, local, b.refsObjects[CheckpointSeq(m)], CheckpointSeq(m));
      ReplayIsTagged(b, b.refsObjects[CheckpointSeq(m)], CheckpointSeq(m), m);
      AtTheEnd(b, SyncedRefs(b, local, 0, m));
    } else {
      InitialIsTagged(b);
      WarmRefs(b, b.initial, 0, m);
    }
  }

  lemma InitialIsTagged(b: Bucket)
    requires HeadsOk(b)
    ensures Tagged(b, b.initial, 0)
  {
    assert b.log[..0] == [];
    ExactIsBlend(b.initial, b.log, 0, |b.log|);
  }

  lemma PacksFrom(log: seq<LogEntry>, k: nat, packs: seq<PackRef>)
    requires k <= |log| && Checksums(packs) == Checksums(ReplayPacks([], log[..k]))
    ensures Checksums(ReplayPacks(packs, log[k..])) == Checksums(ReplayPacks([], log))
  {
    assert log == log[..k] + log[k..];
    ReplayPacksConcat([], log[..k], log[k..]);
    ReplayPacksSameSet(packs, ReplayPacks([], log[..k]), log[k..]);
  }

  lemma ColdPacks(b: Bucket, m: Manifest)
    requires BucketOk(b) && ManifestOk(b, m) && m.headSeq == HeadOf(b.log)
    ensures Checksums(ReplayPacks(if m.checkpoint.Some? then b.packObjects[CheckpointSeq(m)] else [],
                                  Listed(b.segments, m.segments)))
            == Checksums(ReplayPacks([], b.log)) == Checksums(m.packs)
  {
    WholeLog(b.log);
    var k := Pos(b.log, CheckpointSeq(m));
    assert b.log[..0] == [];
    PacksFrom(b.log, k, if m.checkpoint.Some? then b.packObjects[CheckpointSeq(m)] else []);
  }

  // ---------------------------------------------------------------------------
  // When the premises fail
  // ---------------------------------------------------------------------------

  /** In any state reached so far, a manifest write that lands leaves a manifest with the head of
      the log and the whole log covered if and only if no newer checkpoint had been committed over
      the writer's sequence number and the manifest it was built on has the stored head. */
  lemma CommitIsSafeIff(run: seq<State>, i: nat, p: nat, now: Option<int>, fault: Fault)
    requires IsRun(run) && i < |run| && Enabled(run[i], Commit(p, now, fault))
    requires Apply(run[i], Commit(p, now, fault)).register != run[i].register
    ensures var t := Apply(run[i], Commit(p, now, fault));
            && t.register.slot.Some?
            && var m := t.register.slot.value.value;
               && (Covers(t.bucket, m) <==> Unovertaken(run[i], Commit(p, now, fault)))
               && (m.headSeq == HeadOf(t.bucket.log) <==> Matched(run[i], Commit(p, now, fault)))
  {
    WriterFacts(run, i, p);
    LandedManifest(run[i], p, now, fault);
    var job := run[i].handles[p].job.value;
    CommitCoversIff(run[i].bucket, job.base.value, job.seqNo, now);
  }

  /** What is known of a checkpoint writer about to commit. */
  lemma WriterFacts(run: seq<State>, i: nat, p: nat)
    requires IsRun(run) && i < |run| && p in run[i].handles && ReadyToCommit(run[i].handles[p])
    ensures var s, job := run[i], run[i].handles[p].job.value;
            && s.register.slot.Some? && s.register.slot.value.value.headSeq == HeadOf(s.bucket.log)
            && HeadsOk(s.bucket) && Covers(s.bucket, job.base.value) && CheckpointSeq(job.base.value) in s.bucket.heads
            && job.seqNo in s.bucket.heads && job.seqNo <= job.base.value.headSeq
  {
    ReachableInv(run, i);
    assert HandleOk(run[i].bucket, run[i].register, run[i].handles[p]);
  }

  lemma LandedManifest(s: State, p: nat, now: Option<int>, fault: Fault)
    requires Enabled(s, Commit(p, now, fault)) && Apply(s, Commit(p, now, fault)).register != s.register
    ensures var t, h := Apply(s, Commit(p, now, fault)), s.handles[p];
            && t.bucket == s.bucket && t.register.slot.Some? && Admits(s.register, CommitMode(h.job.value.version.value))
            && t.register.slot.value.value == Committed(h, now)
  {
    CommitOutcome(s.register, s.handles[p], now, fault);
  }

  /** The manifest lists the whole log after its checkpoint; `before` is the log it was built over. */
  predicate WholeTail(before: seq<LogEntry>, c: Bucket, m: Manifest) {
    && Readable(c.segments, m.segments) && Pos(before, CheckpointSeq(m)) <= |c.log|
    && Listed(c.segments, m.segments) == c.log[Pos(before, CheckpointSeq(m))..]
  }

  /** An annotation or a compaction whose manifest write lands leaves a manifest that lists the
      whole log after its checkpoint if and only if it was built on the stored head. */
  lemma EditIsSafeIff(run: seq<State>, i: nat, step: Step)
    requires IsRun(run) && i < |run| && (step.Annotate? || step.CompactPut?) && Enabled(run[i], step)
    requires Apply(run[i], step).register != run[i].register
    ensures var s, t := run[i], Apply(run[i], step);
            t.register.slot.Some? && (WholeTail(s.bucket.log, t.bucket, t.register.slot.value.value) <==> Matched(s, step))
  {
    EditorFacts(run, i, step.p);
    var s := run[i];
    match step
    case Annotate(p, packs, updatedAt, fault) => LandedAnnotation(s, p, packs, updatedAt, fault);
    case CompactPut(p, e, size, updatedAt, fault) => LandedCompaction(s, p, e, size, updatedAt, fault);
    case _ =>
  }

  ghost predicate Editing(s: State, p: nat) {
    && s.register.slot.Some? && s.register.slot.value.value.headSeq == HeadOf(s.bucket.log)
    && p in s.handles && s.handles[p].edit.Some?
    && HeadsOk(s.bucket) && Covers(s.bucket, s.handles[p].edit.value.base) && s.handles[p].edit.value.base.headSeq in s.bucket.heads
  }

  lemma LandedAnnotation(s: State, p: nat, packs: seq<PackRef>, updatedAt: Option<int>, fault: Fault)
    requires Editing(s, p) && ReadyToEdit(s.handles[p])
    requires AnnotateState(s, p, packs, updatedAt, fault).register != s.register
    ensures var t := AnnotateState(s, p, packs, updatedAt, fault);
            && t.register.slot.Some?
            && (WholeTail(s.bucket.log, t.bucket, t.register.slot.value.value) <==> EditsStoredHead(s.register, s.handles[p]))
  {
    var h, updated := s.handles[p], AnnotatedManifest(s.handles[p].edit.value.base, packs, updatedAt);
    EditOutcome(s.register, h, updated, fault);
    ShortTail(s.bucket, h.edit.value.base, []);
    assert s.bucket.log + [] == s.bucket.log;
    assert WholeTail(s.bucket.log, s.bucket, updated) <==> h.edit.value.base.headSeq == HeadOf(s.bucket.log);
  }

  lemma LandedCompaction(s: State, p: nat, e: LogEntry, size: nat, updatedAt: Option<int>, fault: Fault)
    requires Editing(s, p) && ReadyToEdit(s.handles[p]) && e.seqNo !in s.bucket.segments
    requires CompactState(s, p, e, size, updatedAt, fault).register != s.register
    ensures var t := CompactState(s, p, e, size, updatedAt, fault);
            && t.register.slot.Some?
            && (WholeTail(s.bucket.log, t.bucket, t.register.slot.value.value) <==> EditsStoredHead(s.register, s.handles[p]))
  {
    var h, updated := s.handles[p], PublishManifest(s.handles[p].edit.value.base, [e], size, updatedAt);
    EditOutcome(s.register, h, updated, fault);
    ShortTail(s.bucket, h.edit.value.base, [e]);
    AppendedListed(s.bucket, h.edit.value.base.segments, e, size);
    assert WholeTail(s.bucket.log, Appended(s.bucket, [e]), updated) <==> h.edit.value.base.headSeq == HeadOf(s.bucket.log);
  }

  lemma EditorFacts(run: seq<State>, i: nat, p: nat)
    requires IsRun(run) && i < |run| && p in run[i].handles && run[i].handles[p].edit.Some?
    ensures Editing(run[i], p)
  {
    ReachableInv(run, i);
    assert HandleOk(run[i].bucket, run[i].register, run[i].handles[p]);
  }

  lemma ShortTail(b: Bucket, m: Manifest, more: seq<LogEntry>)
    requires HeadsOk(b) && Covers(b, m) && m.headSeq in b.heads
    ensures Listed(b.segments, m.segments) + more == (b.log + more)[Pos(b.log, CheckpointSeq(m))..] <==> m.headSeq == HeadOf(b.log)
  {
    var a, n := Pos(b.log, CheckpointSeq(m)), Pos(b.log, m.headSeq);
    assert (b.log + more)[a..] == b.log[a..] + more;
    WholeLog(b.log);
    HeadIsLast(b, m.headSeq);
    if m.headSeq < HeadOf(b.log) {
      NewerIsFurther(b, m.headSeq, HeadOf(b.log));
      assert |b.log[a..n] + more| < |b.log[a..] + more|;
    } else {
      assert b.log[a..n] == b.log[a..];
    }
  }

  lemma {:induction false} SameListed(b: Bucket, c: Bucket, refs: seq<SegmentRef>)
    requires SegmentsOk(b, refs) && forall k | k in b.segments :: k in c.segments && c.segments[k] == b.segments[k]
    ensures Readable(c.segments, refs) && Listed(c.segments, refs) == Listed(b.segments, refs)
    decreases |refs|
  {
    assert forall j | 0 <= j < |refs| :: SegmentOk(b, refs[j]);
    if refs != [] {
      SameListed(b, c, refs[..|refs| - 1]);
    }
  }

  lemma AppendedListed(b: Bucket, refs: seq<SegmentRef>, e: LogEntry, size: nat)
    requires SegmentsOk(b, refs) && e.seqNo !in b.segments
    ensures var c, more := Appended(b, [e]), refs + [SegmentRef(e.seqNo, e.seqNo, size)];
            Readable(c.segments, more) && Listed(c.segments, more) == Listed(b.segments, refs) + [e]
  {
    SameListed(b, Appended(b, [e]), refs);
    assert (refs + [SegmentRef(e.seqNo, e.seqNo, size)])[..|refs|] == refs;
  }

  /** Loading `x` over `local` gives the HEAD of `x`: it has exactly one, or neither has any. */
  predicate HeadLoads(local: RefState, x: RefState) {
    || HasHead(x)
    || (x.headTarget == "" && x.headOid == "" && local.headTarget == "" && local.headOid == "")
  }

  /** Whatever the log does to HEAD: a sync ends in the refs of the whole log if and only if it does
      not load a checkpoint, or the HEAD of that checkpoint loads, or the log sets HEAD after it. */
  lemma SyncIsExactIff(b: Bucket, refs: RefState, applied: nat, m: Manifest)
    requires Increasing(b.log) && Covers(b, m) && m.headSeq == HeadOf(b.log)
    requires applied <= m.headSeq && CheckpointSeq(m) <= m.headSeq && Tagged(b, refs, applied)
    requires applied < CheckpointSeq(m) ==>
               CheckpointSeq(m) in b.refsObjects && Tagged(b, b.refsObjects[CheckpointSeq(m)], CheckpointSeq(m))
    ensures SyncedRefs(b, refs, applied, m) == StateAt(b.initial, b.log, |b.log|) <==>
              applied >= CheckpointSeq(m) || HeadLoads(refs, b.refsObjects[CheckpointSeq(m)])
              || LastWrite.Touches(Writes(b.log[Pos(b.log, CheckpointSeq(m))..]), HeadCell)
  {
    if applied >= CheckpointSeq(m) {
      ReplayIsTagged(b, refs, applied, m);
      AtTheEnd(b, SyncedRefs(b, refs, applied, m));
    } else {
      ReplayedTail(b, m, CheckpointSeq(m));
      WholeLog(b.log);
      LoadedIff(b.refsObjects[CheckpointSeq(m)], refs, b.initial, b.log, Pos(b.log, CheckpointSeq(m)));
    }
  }

  lemma LoadedIff(x: RefState, local: RefState, initial: RefState, log: seq<LogEntry>, i: nat)
    requires i <= |log| && Blend(x, initial, log, i, |log|)
    ensures ApplyEntries(LoadSnapshot(local, x), log[i..|log|]) == StateAt(initial, log, |log|) <==>
            HeadLoads(local, x) || LastWrite.Touches(Writes(log[i..]), HeadCell)
  {
    var loaded := LoadSnapshot(local, x);
    assert log[i..] == log[i..|log|];
    BlendCatchesUp(x, initial, log, i, |log|, |log|);
    RewindIff(x, initial, log, i, |log|);
    RewindIff(loaded, initial, log, i, |log|);
    assert forall name :: Read(loaded, NameCell(name)) == Read(x, NameCell(name));
    assert Read(loaded, HeadCell) == Read(x, HeadCell) <==> HeadLoads(local, x);
  }

  const HeadDeleted: LogEntry :=
    LogEntry(1, RefOnly, None, Some(RefTransaction([RefUpdate(HEAD, "", "", "")], [], false)), [], None)

  /** A push that deletes HEAD, checkpointed: an instance that loads the checkpoint keeps the HEAD
      it had, while the log says there is none. */
  lemma HeadlessCheckpointKeepsAnOldHead(b: Bucket, m: Manifest)
    requires b.initial == Unborn && b.log == [HeadDeleted] && b.refsObjects == map[1 := RefState(map[], "", "")]
    requires m == Manifest(1, 2, Some(CheckpointRef(1, None)), [], [], None, 3)
    ensures Tagged(b, b.refsObjects[1], 1)
    ensures StateAt(b.initial, b.log, 1).headTarget == "" != SyncedRefs(b, b.initial, 0, m).headTarget
  {
    var u := RefUpdate(HEAD, "", "", "");
    assert b.log[..1] == b.log && [HeadDeleted][..0] == [] && [u][..0] == [];
    assert UpdatesOf(b.log) == [] + [u];
    assert ApplyUpdates(Unborn, [u]) == ApplyUpdate(ApplyUpdates(Unborn, []), u);
    assert StateAt(b.initial, b.log, 1) == RefState(map[], "", "");
    ExactIsBlend(b.initial, b.log, 1, 1);
  }

  /** A compaction's manifest agrees with replay if and only if it does not list its own pack
      among what it supersedes: replay would drop the pack it just added. */
  lemma CompactionAgreesIff(packs: seq<PackRef>, e: LogEntry)
    requires e.kind == Compact && e.pack.Some?
    ensures Checksums(PublishPacks(packs, [e])) == Checksums(ReplayPacks(packs, [e])) <==> e.pack.value.checksum !in e.supersedes
  {
    var own := e.pack.value;
    assert [e][..0] == [];
    RetainDrops(packs + [own], e.supersedes);
    ChecksumsSnoc(packs, own);
    RetainDrops(packs, e.supersedes + [own.checksum]);
    ChecksumsSnoc(Retain(packs, e.supersedes + [own.checksum]), own);
    assert own.checksum in Checksums(PublishPacks(packs, [e]));
  }

  /** A compaction that supersedes the pack it brings: the manifest lists it, replay does not. */
  lemma CompactionSupersedesItself()
    ensures var own := PackRef("p", 1, true, 1, 1, 1);
            var e := LogEntry(1, Compact, Some(own), None, ["p"], None);
            PublishPacks([], [e]) == [own] && ReplayPacks([], [e]) == []
  {
    var own := PackRef("p", 1, true, 1, 1, 1);
    var e := LogEntry(1, Compact, Some(own), None, ["p"], None);
    assert [e][..0] == [] && [own][..0] == [];
    assert Retain([], e.supersedes + ["p"]) == [];
    assert Retain([own][..0], ["p"]) == [];
    assert [] + [own] == [own];
  }
}
