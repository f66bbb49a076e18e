/**
  Garbage collection of one repository: plan from a listing, check that the manifest is still the
  one the plan was made from, then delete only the listed versions.

  Keys are given by what they name; a checkpoint directory holds a main object and its refs, a
  pack family several files of one checksum.
 */
module Gc {
  import opened Prelude
  import opened VersionedStore
  import opened Wal

  datatype Key =
    | ManifestKey
    | StateKey
    | LogKey(first: nat)
    | CheckpointKey(seqNo: nat, main: bool)
    | PackKey(checksum: string, extension: string)
    | CacheKey(name: string)
    | OtherKey(name: string)

  datatype Stored =
    | ManifestObject(manifest: Manifest)
    | StateObject(compactSeq: nat, checkpointSeq: nat)
    | LogObject(entries: seq<LogEntry>)
    | CheckpointObject(createdAt: Option<int>, packs: seq<PackRef>)
    | Bytes

  datatype Meta = Meta(key: Key, version: nat, modifiedAt: int)

  datatype GcError = Disappeared | Corrupt | ManifestMoved | DeleteFailed(error: StoreError)

  datatype Trigger = Trigger(compactSeq: nat, checkpointSeq: nat)

  datatype Plan = Plan(packs: seq<Meta>, logs: seq<Meta>, checkpoints: seq<Meta>, caches: seq<Meta>)

  type Contents = map<Key, Object<Stored>>

  // ---------------------------------------------------------------------------
  // Retention
  // ---------------------------------------------------------------------------

  /** Younger than the retention; an object from the future is young. */
  predicate RetainedTime(at: int, now: int, retention: nat) {
    now - at < retention
  }

  /** Without a timestamp, keep. */
  predicate Retained(at: Option<int>, now: int, retention: nat) {
    at.None? || RetainedTime(at.value, now, retention)
  }

  // ---------------------------------------------------------------------------
  // One log object
  // ---------------------------------------------------------------------------

  function Mentions(e: LogEntry): set<string> {
    (if e.pack.Some? then {e.pack.value.checksum} else {}) + set c | c in e.supersedes
  }

  /** The packs that retained entries added or superseded. */
  function RetainedMentions(entries: seq<LogEntry>, now: int, retention: nat): set<string> {
    if entries == [] then {}
    else
      var last := entries[|entries| - 1];
      RetainedMentions(entries[..|entries| - 1], now, retention)
      + if Retained(last.createdAt, now, retention) then Mentions(last) else {}
  }

  ghost predicate AnyRetained(entries: seq<LogEntry>, now: int, retention: nat) {
    exists i | 0 <= i < |entries| :: Retained(entries[i].createdAt, now, retention)
  }

  /** A compaction that superseded `c`, with the time it did. */
  predicate Supersedes(e: LogEntry, c: string) {
    e.kind == Compact && e.createdAt.Some? && c in e.supersedes
  }

  /** What the table of supersession times says about a pack, for entries scanned so far: it is
      there if something superseded it, and expired if everything that did is. */
  ghost predicate Tabulated(table: map<string, int>, entries: seq<LogEntry>, now: int, retention: nat) {
    forall c ::
      && (c in table <==> exists i | 0 <= i < |entries| :: Supersedes(entries[i], c))
      && (c in table ==>
            (RetainedTime(table[c], now, retention) <==>
             exists i | 0 <= i < |entries| :: Supersedes(entries[i], c) && RetainedTime(entries[i].createdAt.value, now, retention)))
  }

  method NoteSuperseded(table: map<string, int>, checksums: seq<string>, at: int) returns (r: map<string, int>)
    ensures forall c :: c in r <==> c in table || c in checksums
    ensures forall c | c in r :: r[c] == if c !in checksums then table[c] else if c in table && table[c] > at then table[c] else at
  {
    r := table;
    for i := 0 to |checksums|
      invariant forall c :: c in r <==> c in table || c in checksums[..i]
      invariant forall c | c in r :: r[c] == if c !in checksums[..i] then table[c] else if c in table && table[c] > at then table[c] else at
    {
      var c := checksums[i];
      assert checksums[..i + 1] == checksums[..i] + [c];
      r := r[c := if c in r && r[c] > at then r[c] else at];
    }
    assert checksums[..|checksums|] == checksums;
  }

  lemma TabulatedNext(table: map<string, int>, next: map<string, int>, entries: seq<LogEntry>, e: LogEntry, now: int, retention: nat)
    requires Tabulated(table, entries, now, retention)
    requires if e.kind == Compact && e.createdAt.Some? then
               && (forall c :: c in next <==> c in table || c in e.supersedes)
               && (forall c | c in next ::
                     next[c] == if c !in e.supersedes then table[c]
                                else if c in table && table[c] > e.createdAt.value then table[c] else e.createdAt.value)
             else next == table
    ensures Tabulated(next, entries + [e], now, retention)
  {
    var more := entries + [e];
    forall c ensures (c in next <==> exists i | 0 <= i < |more| :: Supersedes(more[i], c)) {
      OneMore(entries, e, c, now, retention);
    }
    forall c | c in next
      ensures RetainedTime(next[c], now, retention) <==>
              exists i | 0 <= i < |more| :: Supersedes(more[i], c) && RetainedTime(more[i].createdAt.value, now, retention)
    {
      OneMore(entries, e, c, now, retention);
    }
  }

  lemma OneMore(entries: seq<LogEntry>, e: LogEntry, c: string, now: int, retention: nat)
    ensures (exists i | 0 <= i < |entries + [e]| :: Supersedes((entries + [e])[i], c)) <==>
            (exists i | 0 <= i < |entries| :: Supersedes(entries[i], c)) || Supersedes(e, c)
    ensures (exists i | 0 <= i < |entries + [e]| ::
               Supersedes((entries + [e])[i], c) && RetainedTime((entries + [e])[i].createdAt.value, now, retention)) <==>
            (exists i | 0 <= i < |entries| :: Supersedes(entries[i], c) && RetainedTime(entries[i].createdAt.value, now, retention))
            || (Supersedes(e, c) && RetainedTime(e.createdAt.value, now, retention))
  {
    var more := entries + [e];
    assert more[|entries|] == e;
    assert forall i | 0 <= i < |entries| :: more[i] == entries[i];
  }

  /** Scan one log object on top of what `scanned` left. */
  method ScanLog(ghost scanned: seq<LogEntry>, entries: seq<LogEntry>, live: bool, now: int, retention: nat,
                 referenced: set<string>, table: map<string, int>)
    returns (keep: bool, referenced': set<string>, table': map<string, int>)
    requires Tabulated(table, scanned, now, retention)
    ensures keep <==> live || AnyRetained(entries, now, retention)
    ensures referenced' == referenced + RetainedMentions(entries, now, retention)
    ensures Tabulated(table', scanned + entries, now, retention)
  {
    keep, referenced', table' := live, referenced, table;
    assert scanned + entries[..0] == scanned;
    for i := 0 to |entries|
      invariant keep <==> live || AnyRetained(entries[..i], now, retention)
      invariant referenced' == referenced + RetainedMentions(entries[..i], now, retention)
      invariant Tabulated(table', scanned + entries[..i], now, retention)
    {
      var e := entries[i];
      assert entries[..i + 1][..i] == entries[..i] && entries[..i + 1][i] == e;
      var retained := Retained(e.createdAt, now, retention);
      StillRetained(entries, i, now, retention);
      keep := keep || retained;
      if retained {
        if e.pack.Some? {
          referenced' := referenced' + {e.pack.value.checksum};
        }
        referenced' := referenced' + set c | c in e.supersedes;
      }
      ghost var before := table';
      if e.kind == Compact && e.createdAt.Some? {
        table' := NoteSuperseded(table', e.supersedes, e.createdAt.value);
      }
      TabulatedNext(before, table', scanned + entries[..i], e, now, retention);
      assert scanned + entries[..i + 1] == scanned + entries[..i] + [e];
    }
    assert entries[..|entries|] == entries;
  }

  lemma StillRetained(entries: seq<LogEntry>, i: nat, now: int, retention: nat)
    requires i < |entries|
    ensures AnyRetained(entries[..i + 1], now, retention) <==>
            AnyRetained(entries[..i], now, retention) || Retained(entries[i].createdAt, now, retention)
  {
    var more := entries[..i + 1];
    assert more[i] == entries[i] && forall k | 0 <= k < i :: more[k] == entries[..i][k];
  }

  // ---------------------------------------------------------------------------
  // All log objects
  // ---------------------------------------------------------------------------

  predicate LogRead(contents: Contents, meta: Meta) {
    meta.key.LogKey? ==> meta.key in contents && contents[meta.key].value.LogObject?
  }

  predicate LogsRead(objects: seq<Meta>, contents: Contents) {
    forall i | 0 <= i < |objects| :: LogRead(contents, objects[i])
  }

  function EntriesIn(contents: Contents, meta: Meta): seq<LogEntry>
    requires LogRead(contents, meta)
  {
    if meta.key.LogKey? then contents[meta.key].value.entries else []
  }

  /** The entries of every listed log object. */
  function EntriesOf(objects: seq<Meta>, contents: Contents): seq<LogEntry>
    requires LogsRead(objects, contents)
  {
    if objects == [] then []
    else EntriesOf(objects[..|objects| - 1], contents) + EntriesIn(contents, objects[|objects| - 1])
  }

  /** A log object that can go: the manifest does not list it and nothing in it is retained. */
  ghost predicate OldLog(contents: Contents, live: set<nat>, now: int, retention: nat, meta: Meta)
    requires LogRead(contents, meta)
  {
    meta.key.LogKey? && meta.key.first !in live && !AnyRetained(EntriesIn(contents, meta), now, retention)
  }

  lemma {:induction false} MentionsConcat(a: seq<LogEntry>, b: seq<LogEntry>, now: int, retention: nat)
    ensures RetainedMentions(a + b, now, retention) == RetainedMentions(a, now, retention) + RetainedMentions(b, now, retention)
    decreases |b|
  {
    if b == [] {
      assert a + b == a;
    } else {
      assert (a + b)[..|a + b| - 1] == a + b[..|b| - 1];
      MentionsConcat(a, b[..|b| - 1], now, retention);
    }
  }

  /** The old logs among `objects`. */
  ghost predicate OldLogsAre(oldLogs: seq<Meta>, objects: seq<Meta>, contents: Contents, live: set<nat>, now: int, retention: nat)
    requires LogsRead(objects, contents)
  {
    forall m :: m in oldLogs <==> m in objects && OldLog(contents, live, now, retention, m)
  }

  lemma OneMoreLog(objects: seq<Meta>, contents: Contents, meta: Meta)
    requires LogsRead(objects, contents) && LogRead(contents, meta)
    ensures LogsRead(objects + [meta], contents)
    ensures EntriesOf(objects + [meta], contents) == EntriesOf(objects, contents) + EntriesIn(contents, meta)
  {
    assert (objects + [meta])[..|objects|] == objects;
  }

  lemma OldLogsSnoc(oldLogs: seq<Meta>, objects: seq<Meta>, contents: Contents, live: set<nat>, now: int, retention: nat, meta: Meta)
    requires LogsRead(objects, contents) && LogRead(contents, meta) && LogsRead(objects + [meta], contents)
    requires OldLogsAre(oldLogs, objects, contents, live, now, retention)
    ensures OldLogsAre(if OldLog(contents, live, now, retention, meta) then oldLogs + [meta] else oldLogs,
                       objects + [meta], contents, live, now, retention)
  {
  }

  method ScanLogs(objects: seq<Meta>, contents: Contents, live: set<nat>, now: int, retention: nat, referenced: set<string>)
    returns (r: Result<(), GcError>, referenced': set<string>, table: map<string, int>, oldLogs: seq<Meta>)
    ensures r.Ok? <==> LogsRead(objects, contents)
    ensures r.Err? ==> r.error == Disappeared || r.error == Corrupt
    ensures r.Ok? ==> referenced' == referenced + RetainedMentions(EntriesOf(objects, contents), now, retention)
    ensures r.Ok? ==> Tabulated(table, EntriesOf(objects, contents), now, retention)
    ensures r.Ok? ==> forall m :: m in oldLogs <==> m in objects && OldLog(contents, live, now, retention, m)
  {
    referenced', table, oldLogs := referenced, map[], [];
    ghost var scanned := [];
    for i := 0 to |objects|
      invariant LogsRead(objects[..i], contents) && scanned == EntriesOf(objects[..i], contents)
      invariant referenced' == referenced + RetainedMentions(scanned, now, retention)
      invariant Tabulated(table, scanned, now, retention)
      invariant OldLogsAre(oldLogs, objects[..i], contents, live, now, retention)
    {
      var meta := objects[i];
      if meta.key.LogKey? && (meta.key !in contents || !contents[meta.key].value.LogObject?) {
        assert !LogRead(contents, objects[i]);
        return Err(if meta.key in contents then Corrupt else Disappeared), referenced', table, oldLogs;
      }
      assert objects[..i + 1] == objects[..i] + [meta];
      OneMoreLog(objects[..i], contents, meta);
      OldLogsSnoc(oldLogs, objects[..i], contents, live, now, retention, meta);
      if meta.key.LogKey? {
        var entries := contents[meta.key].value.entries;
        MentionsConcat(scanned, entries, now, retention);
        var keep;
        keep, referenced', table := ScanLog(scanned, entries, meta.key.first in live, now, retention, referenced', table);
        if !keep {
          oldLogs := oldLogs + [meta];
        }
        scanned := scanned + entries;
      } else {
        assert scanned + [] == scanned;
      }
    }
    assert objects[..|objects|] == objects;
    r := Ok(());
  }

  // ---------------------------------------------------------------------------
  // Checkpoints
  // ---------------------------------------------------------------------------

  predicate IsMain(meta: Meta) {
    meta.key.CheckpointKey? && meta.key.main
  }

  predicate CheckpointRead(contents: Contents, meta: Meta) {
    IsMain(meta) ==> meta.key in contents && contents[meta.key].value.CheckpointObject?
  }

  predicate CheckpointsRead(objects: seq<Meta>, contents: Contents) {
    forall i | 0 <= i < |objects| :: CheckpointRead(contents, objects[i])
  }

  predicate KeptCheckpoint(contents: Contents, current: Option<nat>, now: int, retention: nat, meta: Meta)
    requires CheckpointRead(contents, meta)
  {
    IsMain(meta) && (current == Some(meta.key.seqNo) || Retained(contents[meta.key].value.createdAt, now, retention))
  }

  ghost predicate InKeptCheckpoint(objects: seq<Meta>, contents: Contents, current: Option<nat>, now: int, retention: nat, c: string)
    requires CheckpointsRead(objects, contents)
  {
    exists i | 0 <= i < |objects| ::
      KeptCheckpoint(contents, current, now, retention, objects[i]) && c in Checksums(contents[objects[i].key].value.packs)
  }

  ghost predicate OldDirectory(objects: seq<Meta>, contents: Contents, current: Option<nat>, now: int, retention: nat, seqNo: nat)
    requires CheckpointsRead(objects, contents)
  {
    exists i | 0 <= i < |objects| ::
      IsMain(objects[i]) && objects[i].key.seqNo == seqNo && !KeptCheckpoint(contents, current, now, retention, objects[i])
  }

  method ScanCheckpoints(objects: seq<Meta>, contents: Contents, current: Option<nat>, now: int, retention: nat, referenced: set<string>)
    returns (r: Result<(), GcError>, referenced': set<string>, old_: set<nat>)
    ensures r.Ok? <==> CheckpointsRead(objects, contents)
    ensures r.Err? ==> r.error == Disappeared || r.error == Corrupt
    ensures r.Ok? ==> forall c :: c in referenced' <==> c in referenced || InKeptCheckpoint(objects, contents, current, now, retention, c)
    ensures r.Ok? ==> forall n :: n in old_ <==> OldDirectory(objects, contents, current, now, retention, n)
  {
    referenced', old_ := referenced, {};
    for i := 0 to |objects|
      invariant CheckpointsRead(objects[..i], contents)
      invariant forall c :: c in referenced' <==> c in referenced || InKeptCheckpoint(objects[..i], contents, current, now, retention, c)
      invariant forall n :: n in old_ <==> OldDirectory(objects[..i], contents, current, now, retention, n)
    {
      var meta := objects[i];
      if IsMain(meta) && (meta.key !in contents || !contents[meta.key].value.CheckpointObject?) {
        assert !CheckpointRead(contents, objects[i]);
        return Err(if meta.key in contents then Corrupt else Disappeared), referenced', old_;
      }
      OneMoreCheckpoint(objects, i, contents, current, now, retention);
      if IsMain(meta) {
        if KeptCheckpoint(contents, current, now, retention, meta) {
          referenced' := referenced' + Checksums(contents[meta.key].value.packs);
        } else {
          old_ := old_ + {meta.key.seqNo};
        }
      }
    }
    assert objects[..|objects|] == objects;
    r := Ok(());
  }

  lemma OneMoreCheckpoint(objects: seq<Meta>, i: nat, contents: Contents, current: Option<nat>, now: int, retention: nat)
    requires i < |objects| && CheckpointsRead(objects[..i], contents) && CheckpointRead(contents, objects[i])
    ensures CheckpointsRead(objects[..i + 1], contents)
    ensures forall c :: InKeptCheckpoint(objects[..i + 1], contents, current, now, retention, c) <==>
              InKeptCheckpoint(objects[..i], contents, current, now, retention, c)
              || (KeptCheckpoint(contents, current, now, retention, objects[i]) && c in Checksums(contents[objects[i].key].value.packs))
    ensures forall n :: OldDirectory(objects[..i + 1], contents, current, now, retention, n) <==>
              OldDirectory(objects[..i], contents, current, now, retention, n)
              || (IsMain(objects[i]) && objects[i].key.seqNo == n && !KeptCheckpoint(contents, current, now, retention, objects[i]))
  {
    var more, fewer := objects[..i + 1], objects[..i];
    assert more[i] == objects[i] && forall k | 0 <= k < i :: more[k] == fewer[k];
    assert CheckpointsRead(more, contents);
    forall c ensures InKeptCheckpoint(more, contents, current, now, retention, c) <==>
                     InKeptCheckpoint(fewer, contents, current, now, retention, c)
                     || (KeptCheckpoint(contents, current, now, retention, objects[i]) && c in Checksums(contents[objects[i].key].value.packs))
    {
      if InKeptCheckpoint(fewer, contents, current, now, retention, c) {
        var k :| 0 <= k < i && KeptCheckpoint(contents, current, now, retention, fewer[k])
                 && c in Checksums(contents[fewer[k].key].value.packs);
        assert more[k] == fewer[k];
      }
    }
    forall n ensures OldDirectory(more, contents, current, now, retention, n) <==>
                     OldDirectory(fewer, contents, current, now, retention, n)
                     || (IsMain(objects[i]) && objects[i].key.seqNo == n && !KeptCheckpoint(contents, current, now, retention, objects[i]))
    {
      if OldDirectory(fewer, contents, current, now, retention, n) {
        var k :| 0 <= k < i && IsMain(fewer[k]) && fewer[k].key.seqNo == n
                 && !KeptCheckpoint(contents, current, now, retention, fewer[k]);
        assert more[k] == fewer[k];
      }
    }
  }

  // ---------------------------------------------------------------------------
  // The plan
  // ---------------------------------------------------------------------------

  predicate Readable(objects: seq<Meta>, contents: Contents) {
    LogsRead(objects, contents) && CheckpointsRead(objects, contents)
  }

  function CurrentCheckpoint(m: Manifest): Option<nat> {
    if m.checkpoint.Some? then Some(m.checkpoint.value.seqNo) else None
  }

  function LiveLogs(m: Manifest): set<nat> {
    set seg | seg in m.segments :: seg.first
  }

  /** Live now, touched by a retained entry, or part of a checkpoint that stays. */
  ghost predicate Referenced(objects: seq<Meta>, contents: Contents, m: Manifest, now: int, retention: nat, c: string)
    requires Readable(objects, contents)
  {
    || c in Checksums(m.packs)
    || c in RetainedMentions(EntriesOf(objects, contents), now, retention)
    || InKeptCheckpoint(objects, contents, CurrentCheckpoint(m), now, retention, c)
  }

  /** A pack that can go: superseded, every supersession long ago, and not referenced. */
  ghost predicate Collectable(objects: seq<Meta>, contents: Contents, m: Manifest, now: int, retention: nat, c: string)
    requires Readable(objects, contents)
  {
    var entries := EntriesOf(objects, contents);
    && (exists i | 0 <= i < |entries| :: Supersedes(entries[i], c))
    && (forall i | 0 <= i < |entries| && Supersedes(entries[i], c) :: !RetainedTime(entries[i].createdAt.value, now, retention))
    && !Referenced(objects, contents, m, now, retention, c)
  }

  /** The plan in plain numbers. An object goes if it is at least `retention` old and nothing holds
      it: a log object that no segment of the manifest names and all of whose entries are old; a
      checkpoint directory that is not the manifest's and is old; a file of a pack that some dated
      compaction superseded, all of them long ago, that is not live, and that no young or undated
      entry mentions and no checkpoint that stays lists. */
  ghost predicate Planned(objects: seq<Meta>, contents: Contents, m: Manifest, now: int, retention: nat, plan: Plan)
    requires Readable(objects, contents)
  {
    && (forall x :: x in plan.logs <==>
          && x in objects && x.key.LogKey? && (forall seg | seg in m.segments :: seg.first != x.key.first)
          && forall e | e in EntriesIn(contents, x) :: e.createdAt.Some? && now - e.createdAt.value >= retention)
    && (forall x :: x in plan.checkpoints <==>
          && x in objects && x.key.CheckpointKey? && !(m.checkpoint.Some? && m.checkpoint.value.seqNo == x.key.seqNo)
          && exists y :: y in objects && y.key == CheckpointKey(x.key.seqNo, true) && CheckpointRead(contents, y)
                         && contents[y.key].value.createdAt.Some? && now - contents[y.key].value.createdAt.value >= retention)
    && (forall x :: x in plan.packs <==>
          x in objects && x.key.PackKey? && LongGone(objects, contents, now, retention, x.key.checksum)
          && Unheld(objects, contents, m, now, retention, x.key.checksum))
  }

  ghost predicate LongGone(objects: seq<Meta>, contents: Contents, now: int, retention: nat, c: string)
    requires Readable(objects, contents)
  {
    && (exists e :: e in EntriesOf(objects, contents) && e.kind == Compact && e.createdAt.Some? && c in e.supersedes)
    && (forall e | e in EntriesOf(objects, contents) && e.kind == Compact && e.createdAt.Some? && c in e.supersedes ::
          now - e.createdAt.value >= retention)
  }

  ghost predicate Unheld(objects: seq<Meta>, contents: Contents, m: Manifest, now: int, retention: nat, c: string)
    requires Readable(objects, contents)
  {
    && (forall p | p in m.packs :: p.checksum != c)
    && (forall e | e in EntriesOf(objects, contents) && (e.createdAt.None? || now - e.createdAt.value < retention) ::
          c !in e.supersedes && !(e.pack.Some? && e.pack.value.checksum == c))
    && (forall y | y in objects && y.key.CheckpointKey? && y.key.main && Stays(contents, m, now, retention, y) ::
          forall p | p in contents[y.key].value.packs :: p.checksum != c)
  }

  predicate Stays(contents: Contents, m: Manifest, now: int, retention: nat, y: Meta)
    requires y.key.CheckpointKey? && y.key.main && CheckpointRead(contents, y)
  {
    || (m.checkpoint.Some? && m.checkpoint.value.seqNo == y.key.seqNo)
    || contents[y.key].value.createdAt.None? || now - contents[y.key].value.createdAt.value < retention
  }

  lemma {:induction false} MentionedIff(entries: seq<LogEntry>, now: int, retention: nat, c: string)
    ensures c in RetainedMentions(entries, now, retention) <==>
            exists e :: e in entries && Retained(e.createdAt, now, retention) && c in Mentions(e)
    decreases |entries|
  {
    if entries != [] {
      var init, last := entries[..|entries| - 1], entries[|entries| - 1];
      MentionedIff(init, now, retention, c);
      assert entries == init + [last];
    }
  }

  lemma CollectableIff(objects: seq<Meta>, contents: Contents, m: Manifest, now: int, retention: nat, c: string)
    requires Readable(objects, contents)
    ensures Collectable(objects, contents, m, now, retention, c) <==>
            LongGone(objects, contents, now, retention, c) && Unheld(objects, contents, m, now, retention, c)
  {
    var entries := EntriesOf(objects, contents);
    MentionedIff(entries, now, retention, c);
    HeldIff(objects, contents, m, now, retention, c);
    LongGoneIff(objects, contents, now, retention, c);
  }

  lemma LongGoneIff(objects: seq<Meta>, contents: Contents, now: int, retention: nat, c: string)
    requires Readable(objects, contents)
    ensures var entries := EntriesOf(objects, contents);
            LongGone(objects, contents, now, retention, c) <==>
            && (exists i | 0 <= i < |entries| :: Supersedes(entries[i], c))
            && (forall i | 0 <= i < |entries| && Supersedes(entries[i], c) :: !RetainedTime(entries[i].createdAt.value, now, retention))
  {
    var entries := EntriesOf(objects, contents);
    if e :| e in entries && e.kind == Compact && e.createdAt.Some? && c in e.supersedes {
      var i :| 0 <= i < |entries| && entries[i] == e;
      assert Supersedes(entries[i], c);
    }
    if i :| 0 <= i < |entries| && Supersedes(entries[i], c) {
      assert entries[i] in entries;
    }
  }

  lemma HeldIff(objects: seq<Meta>, contents: Contents, m: Manifest, now: int, retention: nat, c: string)
    requires Readable(objects, contents)
    ensures InKeptCheckpoint(objects, contents, CurrentCheckpoint(m), now, retention, c) <==>
            exists y :: y in objects && y.key.CheckpointKey? && y.key.main && CheckpointRead(contents, y)
                        && Stays(contents, m, now, retention, y) && c in Checksums(contents[y.key].value.packs)
  {
    if InKeptCheckpoint(objects, contents, CurrentCheckpoint(m), now, retention, c) {
      var i :| 0 <= i < |objects| && KeptCheckpoint(contents, CurrentCheckpoint(m), now, retention, objects[i])
               && c in Checksums(contents[objects[i].key].value.packs);
      assert objects[i] in objects;
    }
    if y :| y in objects && y.key.CheckpointKey? && y.key.main && CheckpointRead(contents, y)
            && Stays(contents, m, now, retention, y) && c in Checksums(contents[y.key].value.packs) {
      var i :| 0 <= i < |objects| && objects[i] == y;
      assert KeptCheckpoint(contents, CurrentCheckpoint(m), now, retention, objects[i]);
    }
  }

  lemma OldLogIff(contents: Contents, m: Manifest, now: int, retention: nat, x: Meta)
    requires LogRead(contents, x) && x.key.LogKey?
    ensures OldLog(contents, LiveLogs(m), now, retention, x) <==>
            && (forall seg | seg in m.segments :: seg.first != x.key.first)
            && forall e | e in EntriesIn(contents, x) :: e.createdAt.Some? && now - e.createdAt.value >= retention
  {
    var entries := EntriesIn(contents, x);
    if !AnyRetained(entries, now, retention) {
      forall e | e in entries ensures e.createdAt.Some? && now - e.createdAt.value >= retention {
        var i :| 0 <= i < |entries| && entries[i] == e;
        assert !Retained(entries[i].createdAt, now, retention);
      }
    } else {
      var i :| 0 <= i < |entries| && Retained(entries[i].createdAt, now, retention);
      assert entries[i] in entries;
    }
  }

  lemma OldDirectoryIff(objects: seq<Meta>, contents: Contents, m: Manifest, now: int, retention: nat, seqNo: nat)
    requires CheckpointsRead(objects, contents)
    ensures OldDirectory(objects, contents, CurrentCheckpoint(m), now, retention, seqNo) <==>
            && !(m.checkpoint.Some? && m.checkpoint.value.seqNo == seqNo)
            && exists y :: y in objects && y.key == CheckpointKey(seqNo, true) && CheckpointRead(contents, y)
                           && contents[y.key].value.createdAt.Some? && now - contents[y.key].value.createdAt.value >= retention
  {
    if OldDirectory(objects, contents, CurrentCheckpoint(m), now, retention, seqNo) {
      var i :| 0 <= i < |objects| && IsMain(objects[i]) && objects[i].key.seqNo == seqNo
               && !KeptCheckpoint(contents, CurrentCheckpoint(m), now, retention, objects[i]);
      assert objects[i] in objects && objects[i].key == CheckpointKey(seqNo, true);
    }
    if !(m.checkpoint.Some? && m.checkpoint.value.seqNo == seqNo) {
      if y :| y in objects && y.key == CheckpointKey(seqNo, true) && CheckpointRead(contents, y)
              && contents[y.key].value.createdAt.Some? && now - contents[y.key].value.createdAt.value >= retention {
        var i :| 0 <= i < |objects| && objects[i] == y;
        assert IsMain(objects[i]);
      }
    }
  }

  /** What the scans compute is that plan. */
  lemma PlannedIff(objects: seq<Meta>, contents: Contents, m: Manifest, now: int, retention: nat, plan: Plan)
    requires Readable(objects, contents)
    ensures Planned(objects, contents, m, now, retention, plan) <==>
            && (forall x :: x in plan.logs <==> x in objects && OldLog(contents, LiveLogs(m), now, retention, x))
            && (forall x :: x in plan.checkpoints <==>
                  x in objects && x.key.CheckpointKey? && OldDirectory(objects, contents, CurrentCheckpoint(m), now, retention, x.key.seqNo))
            && (forall x :: x in plan.packs <==>
                  x in objects && x.key.PackKey? && Collectable(objects, contents, m, now, retention, x.key.checksum))
  {
    forall x | x in objects && x.key.LogKey?
      ensures OldLog(contents, LiveLogs(m), now, retention, x) <==>
              && (forall seg | seg in m.segments :: seg.first != x.key.first)
              && forall e | e in EntriesIn(contents, x) :: e.createdAt.Some? && now - e.createdAt.value >= retention
    {
      OldLogIff(contents, m, now, retention, x);
    }
    forall n: nat { OldDirectoryIff(objects, contents, m, now, retention, n); }
    forall c { CollectableIff(objects, contents, m, now, retention, c); }
  }

  predicate ExpiredCache(meta: Meta, now: int, retention: nat) {
    meta.key.CacheKey? && !RetainedTime(meta.modifiedAt, now, retention)
  }

  method MakePlan(objects: seq<Meta>, contents: Contents, m: Manifest, now: int, retention: nat, sharedRetention: nat)
    returns (r: Result<Plan, GcError>)
    ensures r.Ok? <==> Readable(objects, contents)
    ensures r.Err? ==> r.error == Disappeared || r.error == Corrupt
    ensures r.Ok? ==> Planned(objects, contents, m, now, retention, r.value)
    ensures r.Ok? ==> forall x :: x in r.value.caches <==> x in objects && x.key.CacheKey? && now - x.modifiedAt >= sharedRetention
  {
    var scan, referenced, table, logs := ScanLogs(objects, contents, LiveLogs(m), now, retention, Checksums(m.packs));
    if scan.Err? {
      return Err(scan.error);
    }
    var old_;
    scan, referenced, old_ := ScanCheckpoints(objects, contents, CurrentCheckpoint(m), now, retention, referenced);
    if scan.Err? {
      return Err(scan.error);
    }
    var caches := Filter(objects, (x: Meta) => ExpiredCache(x, now, sharedRetention));
    var checkpoints := Filter(objects, (x: Meta) => x.key.CheckpointKey? && x.key.seqNo in old_);
    var packs := Filter(objects, (x: Meta) => x.key.PackKey? && x.key.checksum in table
                                      && !RetainedTime(table[x.key.checksum], now, retention) && x.key.checksum !in referenced);
    assert forall c :: Collectable(objects, contents, m, now, retention, c) <==>
             c in table && !RetainedTime(table[c], now, retention) && c !in referenced;
    r := Ok(Plan(packs, logs, checkpoints, caches));
    PlannedIff(objects, contents, m, now, retention, r.value);
  }

  method Filter(objects: seq<Meta>, p: Meta -> bool) returns (r: seq<Meta>)
    ensures forall x :: x in r <==> x in objects && p(x)
  {
    r := [];
    for i := 0 to |objects|
      invariant forall x :: x in r <==> x in objects[..i] && p(x)
    {
      if p(objects[i]) {
        r := r + [objects[i]];
      }
    }
  }

  // ---------------------------------------------------------------------------
  // What a plan spares
  // ---------------------------------------------------------------------------

  /** Later entries carry later timestamps; a missing one counts as the future. */
  predicate TimesRise(log: seq<LogEntry>) {
    forall i, j | 0 <= i < j < |log| ::
      log[j].createdAt.Some? ==> log[i].createdAt.Some? && log[i].createdAt.value <= log[j].createdAt.value
  }

  /** Retained entries are still in the bucket; no collection removes a log object that has one. */
  ghost predicate RetainedListed(log: seq<LogEntry>, entries: seq<LogEntry>, now: int, retention: nat) {
    forall i | 0 <= i < |log| && (log[i].createdAt.None? || now - log[i].createdAt.value < retention) :: log[i] in entries
  }

  /** What holds at one position and not at a later one stops holding somewhere in between. */
  lemma {:induction false} StopsSomewhere(p: nat -> bool, k: nat, n: nat) returns (j: nat)
    requires k <= n && p(k) && !p(n)
    ensures k <= j < n && p(j) && !p(j + 1)
    decreases n
  {
    if p(n - 1) {
      j := n - 1;
    } else {
      j := StopsSomewhere(p, k, n - 1);
    }
  }

  predicate LiveAt(log: seq<LogEntry>, c: string, k: nat) {
    k <= |log| && c in Checksums(ReplayPacks([], log[..k]))
  }

  lemma DroppedHere(log: seq<LogEntry>, c: string, j: nat)
    requires j < |log| && LiveAt(log, c, j) && !LiveAt(log, c, j + 1)
    ensures c in log[j].supersedes
  {
    assert log[..j + 1][..j] == log[..j];
    KeptUnlessSuperseded(ReplayPacks([], log[..j]), log[j], c);
  }

  /** A pack live at one position and not at the end was superseded in between. */
  lemma SomeEntryDropped(log: seq<LogEntry>, k: nat, c: string) returns (j: nat)
    requires k <= |log| && LiveAt(log, c, k) && !LiveAt(log, c, |log|)
    ensures k <= j < |log| && c in log[j].supersedes
  {
    j := StopsSomewhere((i: nat) => LiveAt(log, c, i), k, |log|);
    DroppedHere(log, c, j);
  }

  lemma KeptUnlessSuperseded(packs: seq<PackRef>, e: LogEntry, c: string)
    requires c in Checksums(packs) && c !in Checksums(ApplyPacks(packs, e))
    ensures c in e.supersedes
  {
    var added := if e.pack.Some? then packs + [e.pack.value] else packs;
    RetainDrops(added, e.supersedes);
    assert c in Checksums(added);
  }

  lemma {:induction false} MentionIsFound(entries: seq<LogEntry>, e: LogEntry, now: int, retention: nat)
    requires e in entries && Retained(e.createdAt, now, retention)
    ensures Mentions(e) <= RetainedMentions(entries, now, retention)
    decreases |entries|
  {
    if e != entries[|entries| - 1] {
      MentionIsFound(entries[..|entries| - 1], e, now, retention);
    }
  }

  lemma RetainedMentionIsReferenced(objects: seq<Meta>, contents: Contents, m: Manifest, now: int, retention: nat, e: LogEntry, c: string)
    requires Readable(objects, contents) && e in EntriesOf(objects, contents) && Retained(e.createdAt, now, retention)
    requires c in e.supersedes
    ensures Referenced(objects, contents, m, now, retention, c)
  {
    MentionIsFound(EntriesOf(objects, contents), e, now, retention);
    assert c in Mentions(e);
  }

  lemma LaterIsRetained(log: seq<LogEntry>, now: int, retention: nat, k: nat, j: nat)
    requires TimesRise(log) && k <= j < |log| && Retained(log[k].createdAt, now, retention)
    ensures Retained(log[j].createdAt, now, retention)
  {
  }

  /** The present and the rewind window are safe: no pack of the head, and no pack of any moment
      whose next entry is still within retention, is collectable. */
  lemma WindowIsSpared(objects: seq<Meta>, contents: Contents, m: Manifest, now: int, retention: nat, log: seq<LogEntry>, k: nat, c: string)
    requires Readable(objects, contents) && TimesRise(log) && k <= |log|
    requires RetainedListed(log, EntriesOf(objects, contents), now, retention)
    requires Checksums(m.packs) == Checksums(ReplayPacks([], log))
    requires k == |log| || log[k].createdAt.None? || now - log[k].createdAt.value < retention
    requires c in Checksums(ReplayPacks([], log[..k]))
    ensures !Collectable(objects, contents, m, now, retention, c)
  {
    assert Referenced(objects, contents, m, now, retention, c) by {
      assert log[..|log|] == log;
      if c !in Checksums(m.packs) {
        var j := SomeEntryDropped(log, k, c);
        LaterIsRetained(log, now, retention, k, j);
        RetainedMentionIsReferenced(objects, contents, m, now, retention, log[j], c);
      }
    }
  }

  /** No planned deletion touches a live log object, one with a retained entry, the current
      checkpoint, or a file of a pack in the window. */
  lemma PlanSparesThePresent(objects: seq<Meta>, contents: Contents, m: Manifest, now: int, retention: nat, log: seq<LogEntry>,
                             plan: Plan, x: Meta)
    requires Readable(objects, contents) && Planned(objects, contents, m, now, retention, plan)
    requires TimesRise(log) && RetainedListed(log, EntriesOf(objects, contents), now, retention)
    requires Checksums(m.packs) == Checksums(ReplayPacks([], log))
    ensures x in plan.logs ==> x.key.LogKey? && forall seg | seg in m.segments :: seg.first != x.key.first
    ensures x in plan.logs ==>
              forall e | e in EntriesIn(contents, x) :: e.createdAt.Some? && now - e.createdAt.value >= retention
    ensures x in plan.checkpoints ==> x.key.CheckpointKey? && !(m.checkpoint.Some? && m.checkpoint.value.seqNo == x.key.seqNo)
    ensures x in plan.packs ==> x.key.PackKey? && x.key.checksum !in Checksums(m.packs)
    ensures x in plan.packs ==> forall k | 0 <= k < |log| && (log[k].createdAt.None? || now - log[k].createdAt.value < retention) ::
              x.key.checksum !in Checksums(ReplayPacks([], log[..k]))
  {
    PlannedIff(objects, contents, m, now, retention, plan);
    if x in plan.packs {
      forall k | 0 <= k < |log| && (log[k].createdAt.None? || now - log[k].createdAt.value < retention)
        ensures x.key.checksum !in Checksums(ReplayPacks([], log[..k]))
      {
        if x.key.checksum in Checksums(ReplayPacks([], log[..k])) {
          WindowIsSpared(objects, contents, m, now, retention, log, k, x.key.checksum);
        }
      }
    }
  }

  /** Collecting does not undermine later collections: whatever is retained at any later time is
      in a log object that the plan leaves alone. */
  lemma RetainedStayListed(objects: seq<Meta>, contents: Contents, m: Manifest, now: int, later: int, retention: nat, plan: Plan, e: LogEntry)
    requires Readable(objects, contents) && Planned(objects, contents, m, now, retention, plan) && now <= later
    requires e in EntriesOf(objects, contents) && (e.createdAt.None? || later - e.createdAt.value < retention)
    ensures exists x :: x in objects && x !in plan.logs && LogRead(contents, x) && e in EntriesIn(contents, x)
  {
    var i := Whereabouts(objects, contents, e);
    var x, entries := objects[i], EntriesIn(contents, objects[i]);
    var k :| 0 <= k < |entries| && entries[k] == e;
    assert e in EntriesIn(contents, x);
  }

  lemma {:induction false} Whereabouts(objects: seq<Meta>, contents: Contents, e: LogEntry) returns (i: nat)
    requires LogsRead(objects, contents) && e in EntriesOf(objects, contents)
    ensures i < |objects| && LogRead(contents, objects[i]) && e in EntriesIn(contents, objects[i])
    decreases |objects|
  {
    i := |objects| - 1;
    assert LogRead(contents, objects[i]);
    if e !in EntriesIn(contents, objects[i]) {
      i := Whereabouts(objects[..i], contents, e);
    }
  }

  // ---------------------------------------------------------------------------
  // Carrying it out
  // ---------------------------------------------------------------------------

  function Newest(packs: seq<PackRef>): nat {
    if packs == [] then 0
    else
      var rest, last := Newest(packs[..|packs| - 1]), packs[|packs| - 1];
      if last.tier > 0 && last.seqNo > rest then last.seqNo else rest
  }

  /** The newest compaction and checkpoint a manifest shows. */
  function TriggerOf(m: Manifest): Trigger {
    Trigger(Newest(m.packs), CheckpointSeq(m))
  }

  predicate Newer(t: Trigger, done: Trigger) {
    t.compactSeq > done.compactSeq || t.checkpointSeq > done.checkpointSeq
  }

  /** The newest is the largest number of a pack of a higher tier, or 0 if there is none. */
  lemma {:induction false} NewestIsLargest(packs: seq<PackRef>)
    ensures forall p | p in packs && p.tier > 0 :: p.seqNo <= Newest(packs)
    ensures Newest(packs) == 0 || exists p :: p in packs && p.tier > 0 && p.seqNo == Newest(packs)
    decreases |packs|
  {
    if packs != [] {
      var init, last := packs[..|packs| - 1], packs[|packs| - 1];
      NewestIsLargest(init);
      assert packs == init + [last];
      if p :| p in init && p.tier > 0 && p.seqNo == Newest(init) {
        assert p in packs;
      }
    }
  }

  /** Since `done`, no pack of a higher tier and no checkpoint came. */
  predicate NothingNew(m: Manifest, done: Trigger) {
    && (forall p | p in m.packs && p.tier > 0 :: p.seqNo <= done.compactSeq)
    && (m.checkpoint.Some? ==> m.checkpoint.value.seqNo <= done.checkpointSeq)
  }

  lemma NewerIff(m: Manifest, done: Trigger)
    ensures Newer(TriggerOf(m), done) <==> !NothingNew(m, done)
  {
    NewestIsLargest(m.packs);
  }

  /** One conditional delete: the bucket before it, after it, and what it asked for. */
  datatype Deletion = Deletion(before: Contents, after: Contents, meta: Meta)

  /** It removed nothing, or exactly the object that was listed. */
  ghost predicate RemovesListed(listed: Contents, d: Deletion) {
    d.after == d.before ||
    (d.meta.key in listed && d.meta.key in d.before && d.before[d.meta.key] == listed[d.meta.key] && d.after == d.before - {d.meta.key})
  }

  ghost predicate Listing(listed: Contents, objects: seq<Meta>) {
    && (forall x | x in objects :: x.key in listed && listed[x.key].version == x.version)
    && (forall key | key in listed :: exists x :: x in objects && x.key == key)
  }

  /** What still carries a version from before the listing is what was listed. */
  ghost predicate OnlyListedIsOld(listed: Contents, counter: nat, now: Contents) {
    && (forall key | key in listed :: listed[key].version <= counter)
    && (forall key | key in now && now[key].version <= counter :: key in listed && now[key] == listed[key])
  }

  method List(store: MemoryStore<Key, Stored>, modified: Key -> int) returns (objects: seq<Meta>)
    ensures Listing(store.objects, objects)
  {
    objects := [];
    var left := store.objects.Keys;
    while left != {}
      invariant left <= store.objects.Keys
      invariant forall x | x in objects :: x.key in store.objects && store.objects[x.key].version == x.version
      invariant forall key | key in store.objects :: key in left || exists x :: x in objects && x.key == key
    {
      var key :| key in left;
      var meta := Meta(key, store.objects[key].version, modified(key));
      ghost var before := objects;
      objects := objects + [meta];
      forall k | k in store.objects ensures k in left - {key} || exists x :: x in objects && x.key == k {
        if k == key {
          assert meta in objects;
        } else if k !in left {
          var x :| x in before && x.key == k;
          assert x in objects;
        }
      }
      left := left - {key};
    }
  }

  method DeleteOne(store: MemoryStore<Key, Stored>, meta: Meta, fault: Fault, ghost listed: Contents, ghost counter: nat)
    returns (r: Result<(), StoreError>, ghost d: Deletion)
    requires store.Valid() && counter <= store.counter && OnlyListedIsOld(listed, counter, store.objects)
    requires meta.key in listed && listed[meta.key].version == meta.version
    modifies store
    ensures store.Valid() && counter <= store.counter && OnlyListedIsOld(listed, counter, store.objects)
    ensures d.meta == meta && d.after == store.objects && RemovesListed(listed, d)
    ensures r.Ok? ==> meta.key in d.before && d.after == d.before - {meta.key}
    ensures r == Err(NotFound) ==> meta.key !in d.before && d.after == d.before
    ensures fault == Proceed && meta.key in d.before && d.before[meta.key] == listed[meta.key] ==> r.Ok?
    ensures fault == Proceed && meta.key !in d.before ==> r == Err(NotFound)
  {
    Interlude(store, listed, counter);
    ghost var before := store.objects;
    r := store.DeleteThrough(meta.key, Some(meta.version), fault);
    d := Deletion(before, store.objects, meta);
    RemovedIsListed(listed, counter, d, fault);
  }

  /** A conditional delete only ever removes the object that was listed. */
  lemma RemovedIsListed(listed: Contents, counter: nat, d: Deletion, fault: Fault)
    requires OnlyListedIsOld(listed, counter, d.before) && d.meta.key in listed && listed[d.meta.key].version == d.meta.version
    requires d.after == d.before || d.after == d.before - {d.meta.key}
    requires FaultyDelete(SlotOf(d.before, d.meta.key), Some(d.meta.version), fault).register.slot == SlotOf(d.after, d.meta.key).slot
    ensures RemovesListed(listed, d)
  {
    if d.meta.key in d.before && d.after != d.before {
      assert d.before[d.meta.key].version == d.meta.version <= counter;
    }
  }

  function SlotOf(contents: Contents, key: Key): Register<Stored> {
    Register(if key in contents then Some(contents[key]) else None, 0)
  }

  /** Other clients run; what carries an old version is still what was listed. */
  method Interlude(store: MemoryStore<Key, Stored>, ghost listed: Contents, ghost counter: nat)
    requires store.Valid() && counter <= store.counter && OnlyListedIsOld(listed, counter, store.objects)
    modifies store
    ensures store.Valid() && counter <= store.counter && OnlyListedIsOld(listed, counter, store.objects)
  {
    store.OtherClients();
  }

  /** Read the listed objects one after the other, while other clients keep writing; one that is
      gone by then is missing from the result. */
  method ReadObjects(store: MemoryStore<Key, Stored>, objects: seq<Meta>, ghost listed: Contents, ghost counter: nat)
    returns (contents: Contents, ghost met: seq<Contents>)
    requires store.Valid() && counter <= store.counter && OnlyListedIsOld(listed, counter, store.objects)
    modifies store
    ensures store.Valid() && counter <= store.counter && OnlyListedIsOld(listed, counter, store.objects)
    ensures |met| == |objects| && AsMet(objects, met, contents, |objects|)
  {
    contents, met := map[], [];
    for i := 0 to |objects|
      invariant store.Valid() && counter <= store.counter && OnlyListedIsOld(listed, counter, store.objects)
      invariant |met| == i && AsMet(objects, met, contents, i)
    {
      Interlude(store, listed, counter);
      var key := objects[i].key;
      ghost var before, earlier := contents, met;
      met := met + [store.objects];
      if key in store.objects {
        contents := contents[key := store.objects[key]];
      }
      MetOneMore(objects, earlier, before, i, store.objects, contents);
    }
  }

  /** Every object that was there when its turn came is in `contents`, and nothing else is. */
  ghost predicate AsMet(objects: seq<Meta>, met: seq<Contents>, contents: Contents, n: nat)
    requires n <= |met| && n <= |objects|
  {
    && (forall i | 0 <= i < n && objects[i].key in met[i] :: objects[i].key in contents)
    && (forall key | key in contents :: exists i | 0 <= i < n :: objects[i].key == key && key in met[i] && contents[key] == met[i][key])
  }

  lemma MetOneMore(objects: seq<Meta>, met: seq<Contents>, before: Contents, i: nat, now: Contents, contents: Contents)
    requires |met| == i < |objects| && AsMet(objects, met, before, i)
    requires contents == if objects[i].key in now then before[objects[i].key := now[objects[i].key]] else before
    ensures AsMet(objects, met + [now], contents, i + 1)
  {
    var more := met + [now];
    forall key | key in contents
      ensures exists k | 0 <= k < i + 1 :: objects[k].key == key && key in more[k] && contents[key] == more[k][key]
    {
      if key == objects[i].key && key in now {
        assert more[i] == now;
      } else {
        var k :| 0 <= k < i && objects[k].key == key && key in met[k] && before[key] == met[k][key];
        assert more[k] == met[k];
      }
    }
    forall k | 0 <= k < i + 1 && objects[k].key in more[k] ensures objects[k].key in contents {
      assert k < i ==> more[k] == met[k];
    }
  }

  /** The first `n` deletions are those of the first `n` objects, each gone right after it. */
  ghost predicate Gone(deletions: seq<Deletion>, metas: seq<Meta>, n: nat)
    requires n <= |deletions| && n <= |metas|
  {
    forall k | 0 <= k < n :: deletions[k].meta == metas[k] && metas[k].key !in deletions[k].after
  }

  /** The delete met a fault, or an object that is not the listed one. */
  ghost predicate Hindered(listed: Contents, d: Deletion, fault: Fault) {
    fault != Proceed || (d.meta.key in d.before && d.meta.key in listed && d.before[d.meta.key] != listed[d.meta.key])
  }

  ghost predicate WasRemoved(deletions: seq<Deletion>, metas: seq<Meta>, n: nat, x: Meta)
    requires n <= |deletions| && n <= |metas|
  {
    exists k | 0 <= k < n :: metas[k] == x && x.key in deletions[k].before
  }

  lemma RemovedOneMore(deletions: seq<Deletion>, metas: seq<Meta>, n: nat, d: Deletion)
    requires n == |deletions| < |metas|
    ensures forall x :: WasRemoved(deletions + [d], metas, n + 1, x) <==>
              WasRemoved(deletions, metas, n, x) || (x == metas[n] && x.key in d.before)
  {
    var more := deletions + [d];
    assert more[n] == d && forall k | 0 <= k < n :: more[k] == deletions[k];
  }

  /** Delete the given objects, each only if it still has the listed version, while other clients
      keep writing and the network does to each delete what `faults` says. Success means that each
      was gone right after its delete; a failure has a cause. */
  method DeleteListed(store: MemoryStore<Key, Stored>, metas: seq<Meta>, faults: nat -> Fault, ghost listed: Contents, ghost counter: nat)
    returns (r: Result<seq<Meta>, GcError>, ghost deletions: seq<Deletion>)
    requires store.Valid() && counter <= store.counter && OnlyListedIsOld(listed, counter, store.objects)
    requires forall x | x in metas :: x.key in listed && listed[x.key].version == x.version
    modifies store
    ensures store.Valid()
    ensures forall d | d in deletions :: RemovesListed(listed, d) && d.meta in metas
    ensures r.Ok? ==> |deletions| == |metas| && Gone(deletions, metas, |metas|)
    ensures r.Ok? ==> forall x :: x in r.value <==> WasRemoved(deletions, metas, |metas|, x)
    ensures r.Err? ==> r.error.DeleteFailed? && deletions != []
    ensures r.Err? ==> Hindered(listed, deletions[|deletions| - 1], faults(|deletions| - 1))
  {
    deletions := [];
    var removed := [];
    for i := 0 to |metas|
      invariant store.Valid() && counter <= store.counter && OnlyListedIsOld(listed, counter, store.objects)
      invariant |deletions| == i && forall d | d in deletions :: RemovesListed(listed, d) && d.meta in metas
      invariant Gone(deletions, metas, i)
      invariant forall x :: x in removed <==> WasRemoved(deletions, metas, i, x)
    {
      var deleted;
      ghost var d;
      deleted, d := DeleteOne(store, metas[i], faults(i), listed, counter);
      RemovedOneMore(deletions, metas, i, d);
      deletions := deletions + [d];
      match deleted {
        case Ok(_) => removed := removed + [metas[i]];
        case Err(NotFound) =>
        case Err(error) => return Err(DeleteFailed(error)), deletions;
      }
    }
    r := Ok(removed);
  }

  datatype Collection = NotDue(trigger: Trigger) | Collected(trigger: Trigger, removed: seq<Meta>)

  /** What planning saw: the manifest, the listing, and the objects it read afterwards. */
  datatype Basis = Basis(manifest: Object<Stored>, listed: Contents, objects: seq<Meta>, contents: Contents)

  /** A version seen again is the object seen before, even across the listing. */
  lemma SameVersionSameObject(read: Contents, first: nat, listed: Contents, counter: nat, now: Contents, key: Key)
    requires OnlyListedIsOld(read, first, listed) && OnlyListedIsOld(listed, counter, now) && first <= counter
    requires key in read && key in now && now[key].version == read[key].version
    ensures now[key] == read[key]
  {
    assert now[key].version <= counter;
    assert key in listed && listed[key] == now[key];
  }

  method LoadManifest(store: MemoryStore<Key, Stored>) returns (r: Result<Object<Stored>, GcError>)
    ensures r.Ok? ==> ManifestKey in store.objects && r.value == store.objects[ManifestKey] && r.value.value.ManifestObject?
    ensures r == Err(Disappeared) <==> ManifestKey !in store.objects
    ensures r == Err(Corrupt) <==> ManifestKey in store.objects && !store.objects[ManifestKey].value.ManifestObject?
    ensures r.Err? ==> r.error == Disappeared || r.error == Corrupt
  {
    if ManifestKey !in store.objects {
      return Err(Disappeared);
    }
    var manifest := store.objects[ManifestKey];
    r := if manifest.value.ManifestObject? then Ok(manifest) else Err(Corrupt);
  }

  /** List, plan against `manifest`, and look at the manifest again, with other clients running in
      between. `read` is the bucket when `manifest` was loaded. */
  method PlanAgainst(store: MemoryStore<Key, Stored>, manifest: Object<Stored>, modified: Key -> int, now: int, retention: nat,
                     sharedRetention: nat, ghost read: Contents, ghost first: nat)
    returns (r: Result<Plan, GcError>, ghost basis: Basis, ghost counter: nat)
    requires store.Valid() && first <= store.counter && OnlyListedIsOld(read, first, store.objects)
    requires ManifestKey in read && read[ManifestKey] == manifest && manifest.value.ManifestObject?
    modifies store
    ensures store.Valid() && counter <= store.counter && OnlyListedIsOld(basis.listed, counter, store.objects)
    ensures r.Ok? ==> basis.manifest == manifest && Listing(basis.listed, basis.objects) && Readable(basis.objects, basis.contents)
    ensures r.Ok? ==> Planned(basis.objects, basis.contents, manifest.value.manifest, now, retention, r.value)
    ensures r.Ok? ==> forall x | x in r.value.caches :: x in basis.objects && x.key.CacheKey?
    ensures r.Ok? ==> ManifestKey in store.objects && store.objects[ManifestKey] == manifest
    ensures r.Err? ==> !r.error.DeleteFailed?
  {
    Interlude(store, read, first);
    var objects := List(store, modified);
    ghost var listed := store.objects;
    counter := store.counter;
    var contents;
    ghost var met;
    contents, met := ReadObjects(store, objects, listed, counter);
    basis := Basis(manifest, listed, objects, contents);
    r := MakePlan(objects, contents, manifest.value.manifest, now, retention, sharedRetention);
    Interlude(store, listed, counter);
    if r.Ok? {
      var moved := LookAgain(store, manifest, read, first, listed, counter);
      if moved.Some? {
        r := Err(moved.value);
      }
    }
  }

  /** Without an error the manifest is the very object that was loaded first. */
  method LookAgain(store: MemoryStore<Key, Stored>, manifest: Object<Stored>, ghost read: Contents, ghost first: nat,
                   ghost listed: Contents, ghost counter: nat)
    returns (moved: Option<GcError>)
    requires OnlyListedIsOld(read, first, listed) && OnlyListedIsOld(listed, counter, store.objects) && first <= counter
    requires ManifestKey in read && read[ManifestKey] == manifest
    ensures moved.None? <==> ManifestKey in store.objects && store.objects[ManifestKey] == manifest && manifest.value.ManifestObject?
    ensures moved.Some? ==> !moved.value.DeleteFailed?
  {
    var again := LoadManifest(store);
    if again.Err? {
      return Some(again.error);
    }
    if again.value.version != manifest.version {
      return Some(ManifestMoved);
    }
    SameVersionSameObject(read, first, listed, counter, store.objects, ManifestKey);
    return None;
  }

  /** How far collection got: nowhere without a record of it. */
  function DoneIn(objects: Contents): Result<Trigger, GcError> {
    if StateKey !in objects then Ok(Trigger(0, 0))
    else
      match objects[StateKey].value
      case StateObject(compactSeq, checkpointSeq) => Ok(Trigger(compactSeq, checkpointSeq))
      case _ => Err(Corrupt)
  }

  method ReadDone(store: MemoryStore<Key, Stored>) returns (r: Result<Trigger, GcError>)
    ensures r == DoneIn(store.objects)
  {
    if StateKey !in store.objects {
      return Ok(Trigger(0, 0));
    }
    var state := store.objects[StateKey].value;
    r := if state.StateObject? then Ok(Trigger(state.compactSeq, state.checkpointSeq)) else Err(Corrupt);
  }

  function Metas(plan: Plan): seq<Meta> {
    plan.packs + plan.logs + plan.checkpoints + plan.caches
  }

  lemma PlannedIsListed(objects: seq<Meta>, contents: Contents, listed: Contents, m: Manifest, now: int, retention: nat, plan: Plan)
    requires Readable(objects, contents) && Listing(listed, objects) && Planned(objects, contents, m, now, retention, plan)
    requires forall x | x in plan.caches :: x in objects
    ensures forall x | x in Metas(plan) :: x.key in listed && listed[x.key].version == x.version
  {
    forall x | x in Metas(plan) ensures x in objects {
    }
  }

  /** Delete what was planned and remember how far collection got. */
  method CarryOut(store: MemoryStore<Key, Stored>, plan: Plan, observed: Trigger, faults: nat -> Fault, ghost listed: Contents, ghost counter: nat)
    returns (r: Result<Collection, GcError>, ghost deletions: seq<Deletion>)
    requires store.Valid() && counter <= store.counter && OnlyListedIsOld(listed, counter, store.objects)
    requires forall x | x in Metas(plan) :: x.key in listed && listed[x.key].version == x.version
    modifies store
    ensures store.Valid()
    ensures forall d | d in deletions :: RemovesListed(listed, d) && d.meta in Metas(plan)
    ensures r.Ok? ==> |deletions| == |Metas(plan)| && Gone(deletions, Metas(plan), |deletions|)
    ensures r.Err? ==> deletions != [] && Hindered(listed, deletions[|deletions| - 1], faults(|deletions| - 1))
    ensures r.Ok? ==> r.value.Collected? && r.value.trigger == observed
    ensures r.Ok? ==> StateKey in store.objects && store.objects[StateKey].value == StateObject(observed.compactSeq, observed.checkpointSeq)
    ensures r.Err? ==> r.error.DeleteFailed?
  {
    var removed;
    removed, deletions := DeleteListed(store, Metas(plan), faults, listed, counter);
    if removed.Err? {
      return Err(removed.error), deletions;
    }
    var put := store.Put(StateKey, Overwrite, StateObject(observed.compactSeq, observed.checkpointSeq));
    r := Ok(Collected(observed, removed.value));
  }

  /** The plan was made from a manifest that was still in place when planning was over. */
  ghost predicate Grounded(basis: Basis, checked: Contents, plan: Plan, now: int, retention: nat) {
    && ManifestKey in checked && checked[ManifestKey] == basis.manifest && basis.manifest.value.ManifestObject?
    && Readable(basis.objects, basis.contents)
    && Planned(basis.objects, basis.contents, basis.manifest.value.manifest, now, retention, plan)
    && forall x | x in plan.caches :: x.key.CacheKey?
  }

  /** Nothing came since the last collection that `objects` records. */
  ghost predicate UpToDate(objects: Contents) {
    && ManifestKey in objects && objects[ManifestKey].value.ManifestObject? && DoneIn(objects).Ok?
    && NothingNew(objects[ManifestKey].value.manifest, DoneIn(objects).value)
  }

  /** The manifest, if there is something to do. */
  method LookForWork(store: MemoryStore<Key, Stored>) returns (r: Result<(Object<Stored>, bool), GcError>)
    ensures r.Ok? ==> ManifestKey in store.objects && r.value.0 == store.objects[ManifestKey] && r.value.0.value.ManifestObject?
    ensures r.Ok? && !r.value.1 <==> UpToDate(store.objects)
    ensures r.Err? ==> r.error == Disappeared || r.error == Corrupt
  {
    var loaded := LoadManifest(store);
    var done := ReadDone(store);
    if loaded.Err? || done.Err? {
      return Err(if loaded.Err? then loaded.error else done.error);
    }
    NewerIff(loaded.value.value.manifest, done.value);
    return Ok((loaded.value, Newer(TriggerOf(loaded.value.value.manifest), done.value)));
  }

  /** What every collection keeps to: its plan is grounded, each deletion was planned and removed the
      listed object or nothing, success means that everything planned was gone, failure has a cause. */
  ghost predicate Kept(basis: Basis, plan: Plan, checked: Contents, deletions: seq<Deletion>, r: Result<Collection, GcError>,
                       now: int, retention: nat, faults: nat -> Fault)
  {
    && (deletions != [] || (r.Ok? && r.value.Collected?) ==> Grounded(basis, checked, plan, now, retention))
    && (r == Err(ManifestMoved) ==> deletions == [])
    && (forall d | d in deletions :: RemovesListed(basis.listed, d) && d.meta in Metas(plan))
    && (r.Ok? && r.value.Collected? ==>
          var all := plan.packs + plan.logs + plan.checkpoints + plan.caches;
          |deletions| == |all| && Gone(deletions, all, |all|))
    && (r.Err? && r.error.DeleteFailed? ==>
          deletions != [] && Hindered(basis.listed, deletions[|deletions| - 1], faults(|deletions| - 1)))
  }

  method Collect(store: MemoryStore<Key, Stored>, manifest: Object<Stored>, modified: Key -> int, now: int, retention: nat,
                 sharedRetention: nat, faults: nat -> Fault)
    returns (r: Result<Collection, GcError>, ghost basis: Basis, ghost plan: Plan, ghost checked: Contents, ghost deletions: seq<Deletion>)
    requires store.Valid() && ManifestKey in store.objects && store.objects[ManifestKey] == manifest && manifest.value.ManifestObject?
    modifies store
    ensures store.Valid() && Kept(basis, plan, checked, deletions, r, now, retention, faults)
    ensures r.Ok? ==> r.value.Collected? && r.value.trigger == TriggerOf(manifest.value.manifest)
  {
    deletions, checked, plan := [], map[], Plan([], [], [], []);
    var made;
    ghost var counter;
    made, basis, counter := PlanAgainst(store, manifest, modified, now, retention, sharedRetention, store.objects, store.counter);
    if made.Err? {
      return Err(made.error), basis, plan, checked, deletions;
    }
    plan, checked := made.value, store.objects;
    PlannedIsListed(basis.objects, basis.contents, basis.listed, manifest.value.manifest, now, retention, plan);
    r, deletions := CarryOut(store, made.value, TriggerOf(manifest.value.manifest), faults, basis.listed, counter);
  }

  /** Collect one repository under its lease. Nothing is deleted unless, after planning, the
      manifest was still the very object the plan was made from; every deletion removes the
      listed object or nothing, and was planned; and nothing at all is done exactly when nothing
      came since the last collection. */
  method CollectUnderLease(store: MemoryStore<Key, Stored>, modified: Key -> int, now: int, retention: nat, sharedRetention: nat,
                           faults: nat -> Fault)
    returns (r: Result<Collection, GcError>, ghost basis: Basis, ghost plan: Plan, ghost checked: Contents, ghost deletions: seq<Deletion>)
    requires store.Valid()
    modifies store
    ensures store.Valid() && Kept(basis, plan, checked, deletions, r, now, retention, faults)
    ensures r.Ok? && r.value.NotDue? <==> old(UpToDate(store.objects))
    ensures r.Ok? && r.value.NotDue? ==> store.objects == old(store.objects)
  {
    deletions, checked, plan := [], map[], Plan([], [], [], []);
    basis := Basis(Object(0, Bytes), map[], [], map[]);
    var look := LookForWork(store);
    if look.Err? {
      return Err(look.error), basis, plan, checked, deletions;
    }
    var (manifest, due) := look.value;
    if !due {
      return Ok(NotDue(TriggerOf(manifest.value.manifest))), basis, plan, checked, deletions;
    }
    r, basis, plan, checked, deletions := Collect(store, manifest, modified, now, retention, sharedRetention, faults);
  }

  /** The manifest, a live log object, one with an entry younger than the retention, a file of the
      current checkpoint or of a young one, or a file of a pack of the head or of the rewind window. */
  ghost predicate Needed(basis: Basis, now: int, retention: nat, log: seq<LogEntry>, key: Key)
    requires basis.manifest.value.ManifestObject?
  {
    var m := basis.manifest.value.manifest;
    match key
    case ManifestKey => true
    case LogKey(first) =>
      || (exists seg | seg in m.segments :: seg.first == first)
      || exists x, e :: x in basis.objects && x.key == key && LogRead(basis.contents, x) && e in EntriesIn(basis.contents, x)
                        && (e.createdAt.None? || now - e.createdAt.value < retention)
    case CheckpointKey(seqNo, _) =>
      || (m.checkpoint.Some? && m.checkpoint.value.seqNo == seqNo)
      || exists y :: y in basis.objects && y.key == CheckpointKey(seqNo, true) && CheckpointRead(basis.contents, y)
                     && (basis.contents[y.key].value.createdAt.None?
                         || now - basis.contents[y.key].value.createdAt.value < retention)
    case PackKey(checksum, _) =>
      || checksum in Checksums(m.packs)
      || exists k | 0 <= k < |log| && (log[k].createdAt.None? || now - log[k].createdAt.value < retention) ::
           checksum in Checksums(ReplayPacks([], log[..k]))
    case _ => false
  }

  lemma PlannedIsNotNeeded(basis: Basis, checked: Contents, plan: Plan, now: int, retention: nat, log: seq<LogEntry>, x: Meta)
    requires Grounded(basis, checked, plan, now, retention) && x in Metas(plan)
    requires TimesRise(log) && RetainedListed(log, EntriesOf(basis.objects, basis.contents), now, retention)
    requires Checksums(basis.manifest.value.manifest.packs) == Checksums(ReplayPacks([], log))
    ensures !Needed(basis, now, retention, log, x.key)
  {
    PlanSparesThePresent(basis.objects, basis.contents, basis.manifest.value.manifest, now, retention, log, plan, x);
    if x in plan.logs {
      forall y | y in basis.objects && y.key == x.key && LogRead(basis.contents, y)
        ensures EntriesIn(basis.contents, y) == EntriesIn(basis.contents, x)
      {
      }
    }
  }

  /** Planning, the second look at the manifest and the conditional deletes together: no deletion of
      a collection changes an object that the manifest it was checked against, or the retention
      window, needs. */
  lemma CollectionSparesTheNeeded(basis: Basis, checked: Contents, plan: Plan, now: int, retention: nat, log: seq<LogEntry>,
                                  d: Deletion, key: Key)
    requires Grounded(basis, checked, plan, now, retention) && RemovesListed(basis.listed, d) && d.meta in Metas(plan)
    requires TimesRise(log) && RetainedListed(log, EntriesOf(basis.objects, basis.contents), now, retention)
    requires Checksums(basis.manifest.value.manifest.packs) == Checksums(ReplayPacks([], log))
    requires Needed(basis, now, retention, log, key) && key in d.before
    ensures key in d.after && d.after[key] == d.before[key]
  {
    PlannedIsNotNeeded(basis, checked, plan, now, retention, log, d.meta);
  }

  // A manifest stored after the second look

  /** A deletion that the collection may make while `m` is the stored manifest. */
  ghost predicate MayDelete(basis: Basis, plan: Plan, m: Manifest, d: Deletion) {
    && RemovesListed(basis.listed, d) && d.meta in Metas(plan)
    && ManifestKey in d.before && d.before[ManifestKey].value == ManifestObject(m)
  }

  /** The files of the packs of `m` that are there before the deletion are there after it. */
  ghost predicate SparesPacks(d: Deletion, m: Manifest) {
    forall key | key in d.before && key.PackKey? && key.checksum in Checksums(m.packs) :: key in d.after
  }

  /** A push that publishes the checksum of a planned pack again after the second look: its upload
      finds the old file in place, with the version that was listed, and the deletion removes it. */
  lemma RepublishedPackIsLost(basis: Basis, checked: Contents, plan: Plan, now: int, retention: nat, m: Manifest, x: Meta)
    returns (d: Deletion)
    requires Grounded(basis, checked, plan, now, retention) && Listing(basis.listed, basis.objects)
    requires x in plan.packs && x.key.PackKey? && x.key.checksum in Checksums(m.packs)
    ensures MayDelete(basis, plan, m, d) && d.meta == x && !SparesPacks(d, m)
    ensures x.key in d.before && d.before[x.key] == basis.listed[x.key] && x.key !in d.after
  {
    var before := basis.listed[ManifestKey := Object(checked[ManifestKey].version + 1, ManifestObject(m))];
    d := Deletion(before, before - {x.key}, x);
    assert x.key in d.before && x.key !in d.after;
  }

  /** Exactly when: the packs of a manifest stored after the second look are safe from the rest of
      the collection if and only if it lists no planned checksum. */
  lemma LaterManifestIsSparedIff(basis: Basis, checked: Contents, plan: Plan, now: int, retention: nat, m: Manifest)
    requires Grounded(basis, checked, plan, now, retention) && Listing(basis.listed, basis.objects)
    ensures (forall d | MayDelete(basis, plan, m, d) :: SparesPacks(d, m)) <==>
            forall x | x in plan.packs && x.key.PackKey? :: x.key.checksum !in Checksums(m.packs)
  {
    if x :| x in plan.packs && x.key.PackKey? && x.key.checksum in Checksums(m.packs) {
      var d := RepublishedPackIsLost(basis, checked, plan, now, retention, m, x);
    } else {
      forall d | MayDelete(basis, plan, m, d) ensures SparesPacks(d, m) {
        assert d.meta.key.PackKey? ==> d.meta in plan.packs;
      }
    }
  }
}
