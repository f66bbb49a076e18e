/**
  The maintenance planner and the loop that runs one repository's units: checkpoint, compaction,
  reverse indexes, audit, garbage collection, in that order of priority.

  Time is a fixed `now`; every unit succeeds. What a compaction produces is a parameter.
 */
module Maintenance {
  import opened Prelude
  import opened Wal
  import opened Checkpoint
  import opened Gc

  const REV_INDEX_MIN_OBJECTS: nat := 250000

  datatype Config = Config(
    checkpoints: bool,
    compaction: bool,
    compactRole: bool,
    snapshotEvery: nat,
    tailMax: nat,
    interval: nat,
    triggerPacks: nat,
    triggerBytes: nat,
    auditInterval: nat)

  datatype Audit = Audit(seqNo: nat, at: int)

  /** `local` are the packs present on this host; `done` is how far collection got. */
  datatype Repo = Repo(manifest: Manifest, local: set<string>, audit: Option<Audit>, done: Trigger)

  datatype Unit = Checkpoint | Compact | RevIndex(checksum: string) | Fsck | Collect | Idle

  // ---------------------------------------------------------------------------
  // What is due
  // ---------------------------------------------------------------------------

  function TailBytes(segments: seq<SegmentRef>, c: nat): nat {
    if segments == [] then 0
    else
      var last := segments[|segments| - 1];
      TailBytes(segments[..|segments| - 1], c) + if last.last > c then last.size else 0
  }

  function Age(at: int, now: int): nat {
    if at < now then now - at else 0
  }

  predicate CheckpointDue(cfg: Config, m: Manifest, now: int) {
    var c := CheckpointSeq(m);
    && m.headSeq > 0 && c < m.headSeq
    && (|| (cfg.snapshotEvery > 0 && m.headSeq - c >= cfg.snapshotEvery)
        || (cfg.tailMax > 0 && TailBytes(m.segments, c) > cfg.tailMax)
        || (cfg.interval > 0 &&
            var since := if m.checkpoint.Some? then m.checkpoint.value.createdAt else m.updatedAt;
            since.Some? && Age(since.value, now) >= cfg.interval))
  }

  function Fresh(packs: seq<PackRef>): seq<PackRef> {
    if packs == [] then []
    else
      var last := packs[|packs| - 1];
      Fresh(packs[..|packs| - 1]) + if last.tier == 0 then [last] else []
  }

  function TotalSize(packs: seq<PackRef>): nat {
    if packs == [] then 0 else TotalSize(packs[..|packs| - 1]) + packs[|packs| - 1].packSize
  }

  predicate FoldDue(cfg: Config, packs: seq<PackRef>) {
    var tier0 := Fresh(packs);
    |tier0| >= 2 && (|tier0| >= cfg.triggerPacks || TotalSize(tier0) >= cfg.triggerBytes)
  }

  predicate NeedsRev(p: PackRef) {
    !p.hasRev && p.objectCount >= REV_INDEX_MIN_OBJECTS
  }

  /** The oldest big pack without a reverse index. */
  function OldestWithoutRev(packs: seq<PackRef>): Option<PackRef> {
    if packs == [] then None
    else
      var rest, last := OldestWithoutRev(packs[..|packs| - 1]), packs[|packs| - 1];
      if NeedsRev(last) && (rest.None? || last.seqNo < rest.value.seqNo) then Some(last) else rest
  }

  function AuditedSeq(r: Repo): nat {
    if r.audit.Some? then r.audit.value.seqNo else 0
  }

  predicate AuditDue(cfg: Config, r: Repo, now: int) {
    || Newest(r.manifest.packs) > AuditedSeq(r)
    || (r.audit.Some? && r.manifest.headSeq > AuditedSeq(r) && Age(r.audit.value.at, now) > cfg.auditInterval)
  }

  predicate GcDue(r: Repo) {
    TriggerOf(r.manifest) != Trigger(0, 0) && Newer(TriggerOf(r.manifest), r.done)
  }

  function NextUnit(cfg: Config, r: Repo, now: int): Unit {
    var oldest := OldestWithoutRev(r.manifest.packs);
    if cfg.checkpoints && CheckpointDue(cfg, r.manifest, now) then Checkpoint
    else if cfg.compaction && cfg.compactRole && FoldDue(cfg, r.manifest.packs) then Unit.Compact
    else if cfg.compactRole && oldest.Some? && oldest.value.checksum in r.local then RevIndex(oldest.value.checksum)
    else if AuditDue(cfg, r, now) then Fsck
    else if GcDue(r) then Collect
    else Idle
  }

  // ---------------------------------------------------------------------------
  // What a unit does
  // ---------------------------------------------------------------------------

  // What each pick means, in numbers

  /** The pack picked for a reverse index has the least number among those without one that have at
      least 250000 objects; none is picked only if there is none. */
  lemma {:induction false} OldestIsLeast(packs: seq<PackRef>)
    ensures match OldestWithoutRev(packs) {
              case None => forall p | p in packs :: p.hasRev || p.objectCount < 250000
              case Some(oldest) =>
                && oldest in packs && !oldest.hasRev && oldest.objectCount >= 250000
                && forall p | p in packs && !p.hasRev && p.objectCount >= 250000 :: oldest.seqNo <= p.seqNo
            }
    decreases |packs|
  {
    if packs != [] {
      var init, last := packs[..|packs| - 1], packs[|packs| - 1];
      OldestIsLeast(init);
      assert packs == init + [last];
    }
  }

  lemma {:induction false} FreshAreTierZero(packs: seq<PackRef>, p: PackRef)
    ensures multiset(Fresh(packs))[p] == if p.tier == 0 then multiset(packs)[p] else 0
    decreases |packs|
  {
    if packs != [] {
      var init, last := packs[..|packs| - 1], packs[|packs| - 1];
      FreshAreTierZero(init, p);
      assert packs == init + [last];
    }
  }

  lemma {:induction false} SizesAdd(a: seq<PackRef>, b: seq<PackRef>, p: PackRef)
    ensures TotalSize([]) == 0 && TotalSize([p]) == p.packSize && TotalSize(a + b) == TotalSize(a) + TotalSize(b)
    decreases |b|
  {
    assert [p][..0] == [];
    if b == [] {
      assert a + b == a;
    } else {
      assert (a + b)[..|a + b| - 1] == a + b[..|b| - 1];
      SizesAdd(a, b[..|b| - 1], p);
    }
  }

  lemma {:induction false} TailsAdd(a: seq<SegmentRef>, b: seq<SegmentRef>, seg: SegmentRef, c: nat)
    ensures TailBytes([], c) == 0 && TailBytes([seg], c) == if seg.last > c then seg.size else 0
    ensures TailBytes(a + b, c) == TailBytes(a, c) + TailBytes(b, c)
    decreases |b|
  {
    assert [seg][..0] == [];
    if b == [] {
      assert a + b == a;
    } else {
      assert (a + b)[..|a + b| - 1] == a + b[..|b| - 1];
      TailsAdd(a, b[..|b| - 1], seg, c);
    }
  }

  /** Entries since the checkpoint, bytes since it, or time since it (or since the last write, if
      there is none) reach a limit that is set. */
  predicate TailIsLong(cfg: Config, m: Manifest, now: int) {
    var c := match m.checkpoint { case Some(ref) => ref.seqNo case None => 0 };
    && c < m.headSeq
    && (|| (cfg.snapshotEvery != 0 && c + cfg.snapshotEvery <= m.headSeq)
        || (cfg.tailMax != 0 && cfg.tailMax < TailBytes(m.segments, c))
        || (cfg.interval != 0 &&
            match m.checkpoint
            case Some(CheckpointRef(_, Some(at))) => at + cfg.interval <= now
            case Some(CheckpointRef(_, None)) => false
            case None => m.updatedAt.Some? && m.updatedAt.value + cfg.interval <= now))
  }

  /** At least two packs of tier zero, and enough of them in number or size. */
  predicate ManyPacks(cfg: Config, packs: seq<PackRef>) {
    |Fresh(packs)| >= 2 && (cfg.triggerPacks <= |Fresh(packs)| || cfg.triggerBytes <= TotalSize(Fresh(packs)))
  }

  /** A compacted pack is newer than the last audit, or the log is and the audit is old. */
  predicate Unaudited(cfg: Config, r: Repo, now: int) {
    var at := match r.audit { case Some(audit) => audit.seqNo case None => 0 };
    || (exists p | p in r.manifest.packs :: p.tier > 0 && p.seqNo > at)
    || (r.audit.Some? && at < r.manifest.headSeq && r.audit.value.at + cfg.auditInterval < now)
  }

  /** Which unit comes next, in order of priority. */
  lemma NextUnitIff(cfg: Config, r: Repo, now: int)
    ensures var next, m := NextUnit(cfg, r, now), r.manifest;
            var checkpoint := cfg.checkpoints && TailIsLong(cfg, m, now);
            var fold := cfg.compaction && cfg.compactRole && ManyPacks(cfg, m.packs);
            var oldest := OldestWithoutRev(m.packs);
            var index := cfg.compactRole && oldest.Some? && oldest.value.checksum in r.local;
            && (next == Checkpoint <==> checkpoint)
            && (next == Unit.Compact <==> !checkpoint && fold)
            && (next.RevIndex? <==> !checkpoint && !fold && index)
            && (next.RevIndex? ==> next.checksum == oldest.value.checksum)
            && (next == Fsck <==> !checkpoint && !fold && !index && Unaudited(cfg, r, now))
            && (next == Collect <==> !checkpoint && !fold && !index && !Unaudited(cfg, r, now) && !NothingNew(m, r.done))
            && (next == Idle <==> !checkpoint && !fold && !index && !Unaudited(cfg, r, now) && NothingNew(m, r.done))
  {
    NewestIsLargest(r.manifest.packs);
    NewerIff(r.manifest, r.done);
    assert AuditDue(cfg, r, now) <==> Unaudited(cfg, r, now);
    assert CheckpointDue(cfg, r.manifest, now) <==> TailIsLong(cfg, r.manifest, now);
  }

  /** Advertise the reverse index on the first pack with this checksum. */
  function MarkRev(packs: seq<PackRef>, checksum: string): seq<PackRef> {
    if packs == [] then []
    else if packs[0].checksum == checksum then [packs[0].(hasRev := true)] + packs[1..]
    else [packs[0]] + MarkRev(packs[1..], checksum)
  }

  function Perform(r: Repo, unit: Unit, now: int, compact: Repo -> Repo): Repo {
    var m := r.manifest;
    match unit
    case Checkpoint => r.(manifest := CommitManifest(m, m.headSeq, Some(now)))
    case Compact => compact(r)
    case RevIndex(checksum) =>
      r.(manifest := m.(packs := MarkRev(m.packs, checksum), updatedAt := Some(now), revision := m.revision + 1))
    case Fsck => r.(audit := Some(Audit(m.headSeq, now)), local := r.local + Checksums(m.packs))
    case Collect => r.(done := TriggerOf(m))
    case Idle => r
  }

  /** No pack that needs a reverse index hides behind an earlier one of the same checksum. */
  predicate Markable(packs: seq<PackRef>) {
    forall i, j | 0 <= i < j < |packs| && NeedsRev(packs[j]) :: packs[i].checksum != packs[j].checksum
  }

  /** Where reverse indexes are this host's work, they can all be added; packs are not newer than the head. */
  predicate RepoOk(cfg: Config, r: Repo) {
    (cfg.compactRole ==> Markable(r.manifest.packs)) && forall i | 0 <= i < |r.manifest.packs| :: r.manifest.packs[i].seqNo <= r.manifest.headSeq
  }

  /** Compaction leaves nothing to fold. Nothing else is asked of it. */
  ghost predicate Folds(cfg: Config, compact: Repo -> Repo) {
    forall r | RepoOk(cfg, r) && FoldDue(cfg, r.manifest.packs) :: RepoOk(cfg, compact(r)) && !FoldDue(cfg, compact(r).manifest.packs)
  }

  // ---------------------------------------------------------------------------
  // Progress
  // ---------------------------------------------------------------------------

  function Missing(packs: seq<PackRef>): nat {
    if packs == [] then 0 else (if NeedsRev(packs[0]) then 1 else 0) + Missing(packs[1..])
  }

  function Count(b: bool): nat {
    if b then 1 else 0
  }

  /** Smaller in the lexicographic order of (fold, missing reverse indexes, checkpoint, audit, gc). */
  ghost predicate Closer(cfg: Config, after: Repo, before: Repo, now: int) {
    var a, b := after.manifest, before.manifest;
    var fa, fb := Count(FoldDue(cfg, a.packs)), Count(FoldDue(cfg, b.packs));
    var ma, mb := Missing(a.packs), Missing(b.packs);
    var ca, cb := Count(CheckpointDue(cfg, a, now)), Count(CheckpointDue(cfg, b, now));
    var ia, ib := Count(AuditDue(cfg, after, now)), Count(AuditDue(cfg, before, now));
    var ga, gb := Count(GcDue(after)), Count(GcDue(before));
    fa < fb || (fa == fb && (ma < mb || (ma == mb && (ca < cb || (ca == cb && (ia < ib || (ia == ib && ga < gb)))))))
  }

  lemma {:induction false} OldestIsThere(packs: seq<PackRef>)
    ensures OldestWithoutRev(packs).Some? ==> OldestWithoutRev(packs).value in packs && NeedsRev(OldestWithoutRev(packs).value)
    decreases |packs|
  {
    if packs != [] {
      OldestIsThere(packs[..|packs| - 1]);
    }
  }

  lemma {:induction false} MarkedOneFewer(packs: seq<PackRef>, p: PackRef)
    requires Markable(packs) && p in packs && NeedsRev(p)
    ensures Missing(MarkRev(packs, p.checksum)) < Missing(packs)
    decreases |packs|
  {
    if packs[0].checksum == p.checksum {
      var j :| 0 <= j < |packs| && packs[j] == p;
      assert j == 0;
      assert MarkRev(packs, p.checksum)[1..] == packs[1..];
    } else {
      MarkedOneFewer(packs[1..], p);
      assert MarkRev(packs, p.checksum)[1..] == MarkRev(packs[1..], p.checksum);
    }
  }

  predicate SameButRev(a: seq<PackRef>, b: seq<PackRef>) {
    |a| == |b| && forall i | 0 <= i < |a| :: a[i].(hasRev := true) == b[i].(hasRev := true)
  }

  lemma {:induction false} MarkKeepsRest(packs: seq<PackRef>, checksum: string)
    ensures SameButRev(packs, MarkRev(packs, checksum))
    decreases |packs|
  {
    if packs != [] {
      MarkKeepsRest(packs[1..], checksum);
      var after := MarkRev(packs, checksum);
      forall i | 0 <= i < |packs| ensures packs[i].(hasRev := true) == after[i].(hasRev := true) {
        assert i > 0 ==> packs[i] == packs[1..][i - 1];
      }
    }
  }

  lemma {:induction false} SameFold(a: seq<PackRef>, b: seq<PackRef>)
    requires SameButRev(a, b)
    ensures |Fresh(a)| == |Fresh(b)| && TotalSize(Fresh(a)) == TotalSize(Fresh(b))
    decreases |a|
  {
    if a != [] {
      var x, y := a[|a| - 1], b[|b| - 1];
      assert x.tier == y.(hasRev := true).tier == y.tier && x.packSize == y.(hasRev := true).packSize;
      SameFold(a[..|a| - 1], b[..|b| - 1]);
      SizeSnoc(Fresh(a[..|a| - 1]), x);
      SizeSnoc(Fresh(b[..|b| - 1]), y);
    }
  }

  lemma SizeSnoc(packs: seq<PackRef>, p: PackRef)
    ensures TotalSize(packs + [p]) == TotalSize(packs) + p.packSize
    ensures packs + [] == packs
  {
    assert (packs + [p])[..|packs|] == packs;
  }

  /** Marking adds no reverse index except to the first pack of its checksum. */
  lemma {:induction false} MarksFirstOnly(packs: seq<PackRef>, checksum: string, i: nat, j: nat)
    requires i < j < |packs| && packs[i].checksum == packs[j].checksum
    ensures |MarkRev(packs, checksum)| == |packs| && MarkRev(packs, checksum)[j] == packs[j]
    decreases |packs|
  {
    MarkKeepsRest(packs, checksum);
    if packs[0].checksum != checksum {
      if i == 0 {
        OthersUnmarked(packs[1..], checksum, j - 1);
      } else {
        MarksFirstOnly(packs[1..], checksum, i - 1, j - 1);
      }
    }
  }

  lemma {:induction false} OthersUnmarked(packs: seq<PackRef>, checksum: string, j: nat)
    requires j < |packs| && packs[j].checksum != checksum
    ensures |MarkRev(packs, checksum)| == |packs| && MarkRev(packs, checksum)[j] == packs[j]
    decreases |packs|
  {
    MarkKeepsRest(packs, checksum);
    if packs[0].checksum != checksum && j > 0 {
      OthersUnmarked(packs[1..], checksum, j - 1);
    }
  }

  /** Marking changes neither which lists can be marked to the end nor any other field. */
  lemma MarkKeepsMarkable(packs: seq<PackRef>, checksum: string)
    ensures Markable(MarkRev(packs, checksum)) <==> Markable(packs)
  {
    var after := MarkRev(packs, checksum);
    MarkKeepsRest(packs, checksum);
    forall k | 0 <= k < |packs|
      ensures after[k].checksum == packs[k].checksum && (NeedsRev(after[k]) ==> NeedsRev(packs[k]))
    {
      MarkedField(packs, checksum, k);
    }
    if !Markable(packs) {
      var i, j :| 0 <= i < j < |packs| && NeedsRev(packs[j]) && packs[i].checksum == packs[j].checksum;
      MarksFirstOnly(packs, checksum, i, j);
      assert NeedsRev(after[j]) && after[i].checksum == after[j].checksum;
    }
  }

  lemma {:induction false} MarkedField(packs: seq<PackRef>, checksum: string, k: nat)
    requires k < |packs|
    ensures |MarkRev(packs, checksum)| == |packs|
    ensures MarkRev(packs, checksum)[k] == packs[k] || MarkRev(packs, checksum)[k] == packs[k].(hasRev := true)
    decreases |packs|
  {
    MarkKeepsRest(packs, checksum);
    if packs[0].checksum != checksum && k > 0 {
      MarkedField(packs[1..], checksum, k - 1);
    }
  }

  lemma MarkKeepsOk(cfg: Config, r: Repo, checksum: string, now: int, compact: Repo -> Repo)
    requires RepoOk(cfg, r)
    ensures RepoOk(cfg, Perform(r, RevIndex(checksum), now, compact))
  {
    var before, after := r.manifest.packs, MarkRev(r.manifest.packs, checksum);
    MarkKeepsMarkable(before, checksum);
    MarkKeepsRest(before, checksum);
    forall i | 0 <= i < |after| ensures after[i].seqNo == before[i].seqNo {
      MarkedField(before, checksum, i);
    }
  }

  lemma {:induction false} NewestBound(packs: seq<PackRef>, head: nat)
    requires forall i | 0 <= i < |packs| :: packs[i].seqNo <= head
    ensures Newest(packs) <= head
    decreases |packs|
  {
    if packs != [] {
      NewestBound(packs[..|packs| - 1], head);
    }
  }

  /** What a checkpoint, an audit and a collection leave behind. */
  lemma UnitLeaves(r: Repo, now: int, compact: Repo -> Repo)
    ensures var t := Perform(r, Checkpoint, now, compact);
            && t.manifest.checkpoint == Some(CheckpointRef(r.manifest.headSeq, Some(now))) && t.manifest.headSeq == r.manifest.headSeq
            && t.manifest.packs == r.manifest.packs && t.audit == r.audit && t.done == r.done
    ensures var t := Perform(r, Fsck, now, compact);
            && t.audit == Some(Audit(r.manifest.headSeq, now)) && t.manifest == r.manifest && t.done == r.done
            && (forall p | p in r.manifest.packs :: p.checksum in t.local)
    ensures var t := Perform(r, Collect, now, compact);
            NothingNew(r.manifest, t.done) && t.manifest == r.manifest && t.audit == r.audit
  {
    NewerIff(r.manifest, TriggerOf(r.manifest));
  }

  /** Every unit the planner picks brings the repository strictly closer to idle. */
  lemma UnitMakesProgress(cfg: Config, r: Repo, now: int, compact: Repo -> Repo)
    requires RepoOk(cfg, r) && Folds(cfg, compact) && NextUnit(cfg, r, now) != Idle
    ensures RepoOk(cfg, Perform(r, NextUnit(cfg, r, now), now, compact))
    ensures Closer(cfg, Perform(r, NextUnit(cfg, r, now), now, compact), r, now)
  {
    var unit := NextUnit(cfg, r, now);
    match unit
    case RevIndex(checksum) =>
      OldestIsThere(r.manifest.packs);
      MarkedOneFewer(r.manifest.packs, OldestWithoutRev(r.manifest.packs).value);
      MarkKeepsRest(r.manifest.packs, checksum);
      SameFold(r.manifest.packs, MarkRev(r.manifest.packs, checksum));
      MarkKeepsOk(cfg, r, checksum, now, compact);
    case Fsck => NewestBound(r.manifest.packs, r.manifest.headSeq);
    case _ =>
  }

  // ---------------------------------------------------------------------------
  // The loop
  // ---------------------------------------------------------------------------

  /** A checkpoint comes first, and after it at most the lowest priorities. */
  predicate CheckpointOnly(cfg: Config, repo: Repo, now: int, compact: Repo -> Repo) {
    && NextUnit(cfg, repo, now) == Checkpoint
    && NextUnit(cfg, Perform(repo, Checkpoint, now, compact), now) in {Fsck, Collect, Idle}
  }

  /** `n` is the first number of units after which nothing is left to do. */
  ghost predicate FirstIdle(cfg: Config, repo: Repo, now: int, compact: Repo -> Repo, n: nat) {
    IdleAfter(cfg, repo, now, compact, n) && forall k: nat | k < n :: !IdleAfter(cfg, repo, now, compact, k)
  }

  lemma {:induction false} LeastIdle(cfg: Config, repo: Repo, now: int, compact: Repo -> Repo, m: nat) returns (least: nat)
    requires IdleAfter(cfg, repo, now, compact, m)
    ensures FirstIdle(cfg, repo, now, compact, least)
    decreases m
  {
    if k: nat :| k < m && IdleAfter(cfg, repo, now, compact, k) {
      least := LeastIdle(cfg, repo, now, compact, k);
    } else {
      least := m;
    }
  }

  function Iterate<T>(start: T, next: T -> Unit, perform: (T, Unit) -> T, n: nat): T {
    if n == 0 then start
    else
      var before := Iterate(start, next, perform, n - 1);
      perform(before, next(before))
  }

  /** The loop of one visit, for any planner that becomes idle after some number of units: it runs the
      planner's units until nothing is left, unless the first was a checkpoint and what follows is of
      the lowest priority. */
  method RunUnits<T>(start: T, next: T -> Unit, perform: (T, Unit) -> T, ghost idle: nat) returns (r: T, complete: bool, units: nat)
    requires next(Iterate(start, next, perform, idle)) == Idle
    ensures r == Iterate(start, next, perform, units) && units <= idle
    ensures complete ==> next(r) == Idle
    ensures !complete ==> units == 1 && next(r) in {Fsck, Collect, Idle}
    ensures !complete <==> next(start) == Checkpoint && next(perform(start, Checkpoint)) in {Fsck, Collect, Idle}
  {
    var checkpointOnly := false;
    r, complete, units := start, true, 0;
    while true
      invariant complete && r == Iterate(start, next, perform, units) && units <= idle
      invariant units == 0 ==> r == start
      invariant units == 1 ==> r == perform(start, next(start))
      invariant checkpointOnly <==> units == 1 && next(start) == Checkpoint
      invariant units > 1 && next(start) == Checkpoint ==> next(perform(start, Checkpoint)) !in {Fsck, Collect, Idle}
      decreases idle - units
    {
      var unit := next(r);
      if unit == Idle {
        if checkpointOnly {
          complete := false;
        }
        break;
      }
      if checkpointOnly && (unit == Fsck || unit == Collect) {
        complete := false;
        break;
      }
      r := perform(r, unit);
      units := units + 1;
      checkpointOnly := unit == Checkpoint && units == 1;
    }
  }

  lemma {:induction false} UnitsAreIterated(cfg: Config, repo: Repo, now: int, compact: Repo -> Repo, next: Repo -> Unit,
                                            perform: (Repo, Unit) -> Repo, n: nat)
    requires forall x :: next(x) == NextUnit(cfg, x, now)
    requires forall x, u :: perform(x, u) == Perform(x, u, now, compact)
    ensures Iterate(repo, next, perform, n) == AfterUnits(cfg, repo, now, compact, n)
    decreases n
  {
    if n > 0 {
      UnitsAreIterated(cfg, repo, now, compact, next, perform, n - 1);
    }
  }

  lemma {:induction false} StaysOk(cfg: Config, repo: Repo, now: int, compact: Repo -> Repo, n: nat, idle: nat)
    requires RepoOk(cfg, repo) && Folds(cfg, compact) && FirstIdle(cfg, repo, now, compact, idle) && n <= idle
    ensures RepoOk(cfg, AfterUnits(cfg, repo, now, compact, n))
    decreases n
  {
    if n > 0 {
      StaysOk(cfg, repo, now, compact, n - 1, idle);
      assert !IdleAfter(cfg, repo, now, compact, n - 1);
      UnitMakesProgress(cfg, AfterUnits(cfg, repo, now, compact, n - 1), now, compact);
    }
  }

  /** One visit to a marked repository: the planner's units, up to the first moment when nothing is
      left to do. A visit whose only unit was a checkpoint yields and keeps its marker; any other
      ends idle and removes it. */
  method RunMarker(cfg: Config, repo: Repo, now: int, compact: Repo -> Repo) returns (r: Repo, complete: bool, units: nat)
    requires RepoOk(cfg, repo) && Folds(cfg, compact)
    ensures RepoOk(cfg, r) && r == AfterUnits(cfg, repo, now, compact, units)
    ensures complete ==> FirstIdle(cfg, repo, now, compact, units) && NextUnit(cfg, r, now) == Idle
    ensures !complete ==> units == 1 && NextUnit(cfg, r, now) in {Fsck, Collect, Idle}
    ensures !complete <==> CheckpointOnly(cfg, repo, now, compact)
  {
    ReachesIdle(cfg, repo, now, compact);
    ghost var some: nat :| IdleAfter(cfg, repo, now, compact, some);
    ghost var idle := LeastIdle(cfg, repo, now, compact, some);
    var next, perform := (x: Repo) => NextUnit(cfg, x, now), (x: Repo, u: Unit) => Perform(x, u, now, compact);
    UnitsAreIterated(cfg, repo, now, compact, next, perform, idle);
    r, complete, units := RunUnits(repo, next, perform, idle);
    UnitsAreIterated(cfg, repo, now, compact, next, perform, units);
    StaysOk(cfg, repo, now, compact, units, idle);
  }

  /** Maintenance converges: the marker is gone after at most two visits, with nothing left to do. */
  method VisitUntilRemoved(cfg: Config, repo: Repo, now: int, compact: Repo -> Repo) returns (r: Repo, visits: nat)
    requires RepoOk(cfg, repo) && Folds(cfg, compact)
    ensures 1 <= visits <= 2 && NextUnit(cfg, r, now) == Idle
    ensures visits == 2 <==> CheckpointOnly(cfg, repo, now, compact)
  {
    var complete, units;
    r, complete, units := RunMarker(cfg, repo, now, compact);
    visits := 1;
    if !complete {
      r, complete, units := RunMarker(cfg, r, now, compact);
      visits := 2;
    }
  }

  // ---------------------------------------------------------------------------
  // Exactly when the loop converges
  // ---------------------------------------------------------------------------

  /** The repository after `n` units, each the planner's pick. */
  function AfterUnits(cfg: Config, r: Repo, now: int, compact: Repo -> Repo, n: nat): Repo {
    if n == 0 then r
    else
      var before := AfterUnits(cfg, r, now, compact, n - 1);
      Perform(before, NextUnit(cfg, before, now), now, compact)
  }

  lemma {:induction false} UnitFirst(cfg: Config, r: Repo, now: int, compact: Repo -> Repo, n: nat)
    ensures AfterUnits(cfg, r, now, compact, n + 1) ==
            AfterUnits(cfg, Perform(r, NextUnit(cfg, r, now), now, compact), now, compact, n)
    decreases n
  {
    if n == 0 {
      assert AfterUnits(cfg, r, now, compact, 0) == r;
    } else {
      UnitFirst(cfg, r, now, compact, n - 1);
    }
  }

  predicate IdleAfter(cfg: Config, r: Repo, now: int, compact: Repo -> Repo, n: nat) {
    NextUnit(cfg, AfterUnits(cfg, r, now, compact, n), now) == Idle
  }

  lemma OneUnitEarlier(cfg: Config, r: Repo, t: Repo, now: int, compact: Repo -> Repo, n: nat)
    requires t == Perform(r, NextUnit(cfg, r, now), now, compact) && IdleAfter(cfg, t, now, compact, n)
    ensures IdleAfter(cfg, r, now, compact, n + 1)
  {
    UnitFirst(cfg, r, now, compact, n);
  }

  /** From any repository whose list can be marked, some number of units leads to idle. */
  lemma ReachesIdle(cfg: Config, r: Repo, now: int, compact: Repo -> Repo)
    requires RepoOk(cfg, r) && Folds(cfg, compact)
    ensures exists n: nat :: IdleAfter(cfg, r, now, compact, n)
  {
    IdleFrom(cfg, r, now, compact, Count(FoldDue(cfg, r.manifest.packs)), Missing(r.manifest.packs),
             Count(CheckpointDue(cfg, r.manifest, now)), Count(AuditDue(cfg, r, now)), Count(GcDue(r)));
  }

  ghost predicate Ranked(cfg: Config, r: Repo, now: int, folds: nat, missing: nat, checkpoints: nat, audits: nat, gcs: nat) {
    && folds == Count(FoldDue(cfg, r.manifest.packs)) && missing == Missing(r.manifest.packs)
    && checkpoints == Count(CheckpointDue(cfg, r.manifest, now))
    && audits == Count(AuditDue(cfg, r, now)) && gcs == Count(GcDue(r))
  }

  lemma {:induction false} IdleFrom(cfg: Config, r: Repo, now: int, compact: Repo -> Repo,
                                    folds: nat, missing: nat, checkpoints: nat, audits: nat, gcs: nat)
    requires RepoOk(cfg, r) && Folds(cfg, compact) && Ranked(cfg, r, now, folds, missing, checkpoints, audits, gcs)
    ensures exists n: nat :: IdleAfter(cfg, r, now, compact, n)
    decreases folds, missing, checkpoints, audits, gcs
  {
    if NextUnit(cfg, r, now) == Idle {
      assert IdleAfter(cfg, r, now, compact, 0);
    } else {
      UnitMakesProgress(cfg, r, now, compact);
      var t := Perform(r, NextUnit(cfg, r, now), now, compact);
      var f, m, c, a, g := RankOf(cfg, t, now);
      RankDrops(cfg, t, r, now, f, m, c, a, g, folds, missing, checkpoints, audits, gcs);
      IdleFrom(cfg, t, now, compact, f, m, c, a, g);
      var n: nat :| IdleAfter(cfg, t, now, compact, n);
      OneUnitEarlier(cfg, r, t, now, compact, n);
    }
  }

  lemma RankOf(cfg: Config, r: Repo, now: int) returns (f: nat, m: nat, c: nat, a: nat, g: nat)
    ensures Ranked(cfg, r, now, f, m, c, a, g)
  {
    f, m, c := Count(FoldDue(cfg, r.manifest.packs)), Missing(r.manifest.packs), Count(CheckpointDue(cfg, r.manifest, now));
    a, g := Count(AuditDue(cfg, r, now)), Count(GcDue(r));
  }

  lemma RankDrops(cfg: Config, t: Repo, r: Repo, now: int, f: nat, m: nat, c: nat, a: nat, g: nat,
                  f': nat, m': nat, c': nat, a': nat, g': nat)
    requires Ranked(cfg, t, now, f, m, c, a, g) && Ranked(cfg, r, now, f', m', c', a', g') && Closer(cfg, t, r, now)
    ensures f < f' || (f == f' && (m < m' || (m == m' && (c < c' || (c == c' && (a < a' || (a == a' && g < g')))))))
  {
  }

  /** Reverse indexes are next: nothing of higher priority is due and the packs are on this host. */
  predicate IndexesNext(cfg: Config, r: Repo, now: int) {
    && cfg.compactRole
    && !(cfg.checkpoints && CheckpointDue(cfg, r.manifest, now))
    && !(cfg.compaction && FoldDue(cfg, r.manifest.packs))
    && forall i | 0 <= i < |r.manifest.packs| :: r.manifest.packs[i].checksum in r.local
  }

  lemma {:induction false} SomeOldest(packs: seq<PackRef>, j: nat)
    requires j < |packs| && NeedsRev(packs[j])
    ensures OldestWithoutRev(packs).Some?
    decreases |packs|
  {
    if j < |packs| - 1 {
      SomeOldest(packs[..|packs| - 1], j);
    }
  }

  lemma IndexesStayNext(cfg: Config, r: Repo, checksum: string, now: int, compact: Repo -> Repo)
    requires IndexesNext(cfg, r, now)
    ensures IndexesNext(cfg, Perform(r, RevIndex(checksum), now, compact), now)
  {
    var before, after := r.manifest.packs, MarkRev(r.manifest.packs, checksum);
    MarkKeepsRest(before, checksum);
    SameFold(before, after);
    forall i | 0 <= i < |after| ensures after[i].checksum in r.local {
      MarkedField(before, checksum, i);
    }
  }

  /** A pack that needs a reverse index hides behind an earlier one of its checksum, and nothing else
      comes first. */
  predicate Stuck(cfg: Config, r: Repo, now: int) {
    IndexesNext(cfg, r, now) && !Markable(r.manifest.packs)
  }

  lemma {:induction false} StuckForEver(cfg: Config, r: Repo, now: int, compact: Repo -> Repo, n: nat)
    requires Stuck(cfg, r, now)
    ensures Stuck(cfg, AfterUnits(cfg, r, now, compact, n), now)
    decreases n
  {
    if n > 0 {
      StuckForEver(cfg, r, now, compact, n - 1);
      StuckAgain(cfg, AfterUnits(cfg, r, now, compact, n - 1), now, compact);
    }
  }

  lemma StuckAgain(cfg: Config, r: Repo, now: int, compact: Repo -> Repo)
    requires Stuck(cfg, r, now)
    ensures Stuck(cfg, Perform(r, NextUnit(cfg, r, now), now, compact), now)
  {
    StuckNow(cfg, r, now);
    IndexesStayNext(cfg, r, NextUnit(cfg, r, now).checksum, now, compact);
    MarkKeepsMarkable(r.manifest.packs, NextUnit(cfg, r, now).checksum);
  }

  lemma StuckNow(cfg: Config, r: Repo, now: int)
    requires Stuck(cfg, r, now)
    ensures NextUnit(cfg, r, now).RevIndex?
  {
    var packs := r.manifest.packs;
    var i, j :| 0 <= i < j < |packs| && NeedsRev(packs[j]) && packs[i].checksum == packs[j].checksum;
    SomeOldest(packs, j);
    OldestIsThere(packs);
  }

  /** The exact condition. Once reverse indexes are next, the loop reaches idle, or even one unit
      that is no reverse index, if and only if no pack that needs one is listed behind an earlier
      pack of the same checksum. */
  lemma ConvergesIff(cfg: Config, r: Repo, now: int, compact: Repo -> Repo)
    requires IndexesNext(cfg, r, now) && Folds(cfg, compact)
    requires forall i | 0 <= i < |r.manifest.packs| :: r.manifest.packs[i].seqNo <= r.manifest.headSeq
    ensures (exists n: nat :: NextUnit(cfg, AfterUnits(cfg, r, now, compact, n), now) == Idle) <==> Markable(r.manifest.packs)
    ensures (exists n: nat :: !NextUnit(cfg, AfterUnits(cfg, r, now, compact, n), now).RevIndex?) <==> Markable(r.manifest.packs)
  {
    if Markable(r.manifest.packs) {
      ReachesIdle(cfg, r, now, compact);
      var n: nat :| IdleAfter(cfg, r, now, compact, n);
      assert !NextUnit(cfg, AfterUnits(cfg, r, now, compact, n), now).RevIndex?;
    } else {
      forall n: nat ensures NextUnit(cfg, AfterUnits(cfg, r, now, compact, n), now).RevIndex? {
        StuckForEver(cfg, r, now, compact, n);
        StuckNow(cfg, AfterUnits(cfg, r, now, compact, n), now);
      }
    }
  }

  /** A single reverse-index unit changes nothing if and only if the first pack of its checksum
      already has one. */
  lemma {:induction false} MarkStandsStillIff(packs: seq<PackRef>, checksum: string)
    requires exists i | 0 <= i < |packs| :: packs[i].checksum == checksum
    ensures MarkRev(packs, checksum) == packs <==> FirstOf(packs, checksum).hasRev
    decreases |packs|
  {
    if packs[0].checksum == checksum {
      assert packs == [packs[0]] + packs[1..];
      assert MarkRev(packs, checksum)[0] == packs[0].(hasRev := true);
    } else {
      var i :| 0 <= i < |packs| && packs[i].checksum == checksum;
      assert packs[1..][i - 1].checksum == checksum;
      MarkStandsStillIff(packs[1..], checksum);
      assert packs == [packs[0]] + packs[1..];
      assert MarkRev(packs, checksum)[1..] == MarkRev(packs[1..], checksum);
    }
  }

  function FirstOf(packs: seq<PackRef>, checksum: string): PackRef
    requires exists i | 0 <= i < |packs| :: packs[i].checksum == checksum
  {
    if packs[0].checksum == checksum then packs[0]
    else
      assert exists i | 0 <= i < |packs[1..]| :: packs[1..][i].checksum == checksum by {
        var i :| 0 <= i < |packs| && packs[i].checksum == checksum;
        assert packs[1..][i - 1].checksum == checksum;
      }
      FirstOf(packs[1..], checksum)
  }

  /** The same pack published twice, with or without an index on the first copy: however many units
      run, the next one is again its reverse index. */
  lemma {:induction false} DuplicatePackNeverConverges(cfg: Config, r: Repo, first: bool, now: int, compact: Repo -> Repo, n: nat)
    requires cfg.compactRole && !cfg.checkpoints && !cfg.compaction && "p" in r.local
    requires r.manifest.packs == [PackRef("p", 1, first, 300000, 1, 0), PackRef("p", 1, false, 300000, 2, 0)]
    ensures NextUnit(cfg, AfterUnits(cfg, r, now, compact, n), now) == RevIndex("p")
    ensures var packs := AfterUnits(cfg, r, now, compact, n).manifest.packs;
            packs == [PackRef("p", 1, first || n > 0, 300000, 1, 0), PackRef("p", 1, false, 300000, 2, 0)]
    ensures "p" in AfterUnits(cfg, r, now, compact, n).local
    decreases n
  {
    if n == 0 {
      TwoCopies(cfg, r, first, now);
    } else {
      DuplicatePackNeverConverges(cfg, r, first, now, compact, n - 1);
      var before := AfterUnits(cfg, r, now, compact, n - 1);
      TwoCopies(cfg, before, first || n > 1, now);
      TwoCopies(cfg, AfterUnits(cfg, r, now, compact, n), true, now);
    }
  }

  lemma TwoCopies(cfg: Config, r: Repo, first: bool, now: int)
    requires r.manifest.packs == [PackRef("p", 1, first, 300000, 1, 0), PackRef("p", 1, false, 300000, 2, 0)]
    ensures OldestWithoutRev(r.manifest.packs).Some? && OldestWithoutRev(r.manifest.packs).value.checksum == "p"
    ensures MarkRev(r.manifest.packs, "p") == [PackRef("p", 1, true, 300000, 1, 0), PackRef("p", 1, false, 300000, 2, 0)]
  {
    var packs := r.manifest.packs;
    assert NeedsRev(packs[1]);
    SomeOldest(packs, 1);
    OldestIsThere(packs);
  }
}
