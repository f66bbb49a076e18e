/**
  Cold rewind: rebuild a repository as it was at a past sequence number from a retained
  checkpoint, log objects probed by number, and the part of the log the manifest still lists.
 */
module Rewind {
  import opened Prelude
  import opened Wal
  import opened Checkpoint
  import opened CheckpointSafety
  import opened LogReader
  import Runs

  datatype RewindError = CheckpointMissing | RefsMissing | BeyondRetention | SegmentMissing

  /** No log object ends before its own number: probing would come back to it for ever. */
  predicate Ahead(segments: map<nat, seq<LogEntry>>) {
    forall k | k in segments :: k <= LastOf(segments[k], k)
  }

  /** The last number of the object found at `number`; an empty one counts for that number. */
  function LastOf(entries: seq<LogEntry>, number: nat): nat {
    if entries == [] then number else HeadOf(entries)
  }

  /** Log objects as publishers write them: whole, and numbered from their own key. */
  predicate Formed(segments: map<nat, seq<LogEntry>>) {
    Ahead(segments) && forall k | k in segments :: Consecutive(segments[k]) && segments[k][0].seqNo == k
  }

  // ---------------------------------------------------------------------------
  // The operations
  // ---------------------------------------------------------------------------

  /** The manifest's checkpoint if it is old enough, else the newest listed one that is. */
  predicate IsRetained(m: Manifest, listing: seq<nat>, at: nat, r: Option<nat>) {
    if m.checkpoint.Some? && m.checkpoint.value.seqNo <= at then r == Some(m.checkpoint.value.seqNo)
    else
      && (r.Some? ==> r.value in listing && r.value <= at)
      && (forall x | x in listing && x <= at :: r.Some? && x <= r.value)
  }

  method RetainedCheckpoint(m: Manifest, listing: seq<nat>, at: nat) returns (r: Option<nat>)
    ensures IsRetained(m, listing, at, r)
  {
    if m.checkpoint.Some? && m.checkpoint.value.seqNo <= at {
      return Some(m.checkpoint.value.seqNo);
    }
    r := None;
    for i := 0 to |listing|
      invariant r.Some? ==> r.value in listing[..i] && r.value <= at
      invariant forall x | x in listing[..i] && x <= at :: r.Some? && x <= r.value
    {
      if listing[i] <= at && (r.None? || listing[i] > r.value) {
        r := Some(listing[i]);
      }
      assert listing[..i + 1] == listing[..i] + [listing[i]];
    }
    assert listing[..|listing|] == listing;
  }

  /** Log objects by number from `number` to `limit`; each object says where the next one starts. */
  function Probe(segments: map<nat, seq<LogEntry>>, number: nat, limit: nat): Option<seq<LogEntry>>
    requires Ahead(segments)
    decreases limit + 1 - number
  {
    if number > limit then Some([])
    else if number !in segments then None
    else
      var rest := Probe(segments, LastOf(segments[number], number) + 1, limit);
      if rest.None? then None else Some(segments[number] + rest.value)
  }

  method ProbeLog(segments: map<nat, seq<LogEntry>>, number: nat, limit: nat) returns (r: Option<seq<LogEntry>>)
    requires Ahead(segments)
    ensures r == Probe(segments, number, limit)
  {
    var found, next := [], number;
    assert Probe(segments, number, limit).Some? ==> [] + Probe(segments, number, limit).value == Probe(segments, number, limit).value;
    while next <= limit
      invariant var rest := Probe(segments, next, limit);
                Probe(segments, number, limit) == if rest.None? then None else Some(found + rest.value)
      decreases limit + 1 - next
    {
      if next !in segments {
        return None;
      }
      ghost var rest := Probe(segments, LastOf(segments[next], next) + 1, limit);
      assert rest.Some? ==> found + (segments[next] + rest.value) == found + segments[next] + rest.value;
      found, next := found + segments[next], LastOf(segments[next], next) + 1;
    }
    assert found + [] == found;
    return Some(found);
  }

  function Limit(m: Manifest, at: nat): nat
    requires m.minSeq > 0
  {
    Least(at, m.minSeq - 1)
  }

  predicate Probes(m: Manifest, start: nat) {
    m.minSeq > 0 && start + 1 < m.minSeq
  }

  /** The entries to replay over a checkpoint at `start`; `current` is the manifest the log reader
      fetches for itself. */
  function Gather(segments: map<nat, seq<LogEntry>>, m: Manifest, current: Manifest, start: nat, at: nat)
    : Result<seq<LogEntry>, RewindError>
    requires Ahead(segments)
  {
    if Probes(m, start) then
      var found := Probe(segments, start + 1, Limit(m, at));
      if found.None? then Err(BeyondRetention)
      else if at < m.minSeq then Ok(found.value)
      else
        var listed := ReadLogAt(segments, current, m.minSeq, Some(at));
        if listed.None? then Err(SegmentMissing) else Ok(found.value + listed.value)
    else
      var listed := ReadLogAt(segments, current, start + 1, Some(at));
      if listed.None? then Err(SegmentMissing) else Ok(listed.value)
  }

  function Replayed(entries: seq<LogEntry>, start: nat, at: nat): seq<LogEntry> {
    InRange(entries, start + 1, at)
  }

  method FoldPacks(packs: seq<PackRef>, entries: seq<LogEntry>, start: nat, at: nat) returns (r: seq<PackRef>)
    ensures r == ReplayPacks(packs, Replayed(entries, start, at))
  {
    r := packs;
    for i := 0 to |entries|
      invariant r == ReplayPacks(packs, Replayed(entries[..i], start, at))
    {
      assert entries[..i + 1][..i] == entries[..i];
      var e := entries[i];
      ghost var before := Replayed(entries[..i], start, at);
      assert before + [] == before && (before + [e])[..|before|] == before;
      if start < e.seqNo <= at {
        if e.pack.Some? {
          r := r + [e.pack.value];
        }
        r := Retain(r, e.supersedes);
      }
    }
    assert entries[..|entries|] == entries;
  }

  method FoldRefs(refs: RefState, entries: seq<LogEntry>, start: nat, at: nat) returns (r: RefState)
    ensures r == ApplyEntries(refs, Replayed(entries, start, at))
  {
    r := refs;
    for i := 0 to |entries|
      invariant r == ApplyEntries(refs, Replayed(entries[..i], start, at))
    {
      assert entries[..i + 1][..i] == entries[..i];
      var e := entries[i];
      ghost var before := Replayed(entries[..i], start, at);
      assert before + [] == before;
      if start < e.seqNo <= at {
        ReplayConcat(refs, before, [e]);
        assert [e][..0] == [];
        ghost var updates := if e.txn.Some? then e.txn.value.updates else [];
        assert UpdatesOf([e]) == UpdatesOf([e][..0]) + updates == updates;
        if e.txn.Some? {
          r := ApplyUpdates(r, e.txn.value.updates);
        }
      }
    }
    assert entries[..|entries|] == entries;
  }

  /** The rebuilt refs and packs, or why they cannot be rebuilt. */
  function Rebuild(b: Bucket, retained: Option<nat>, m: Manifest, current: Manifest, at: nat)
    : Result<(RefState, seq<PackRef>), RewindError>
    requires Ahead(b.segments)
  {
    if retained.Some? && retained.value !in b.packObjects then Err(CheckpointMissing)
    else if retained.Some? && retained.value !in b.refsObjects then Err(RefsMissing)
    else
      var start := if retained.Some? then retained.value else 0;
      var refs := if retained.Some? then LoadSnapshot(b.initial, b.refsObjects[retained.value]) else b.initial;
      var packs := if retained.Some? then b.packObjects[retained.value] else [];
      var gathered := Gather(b.segments, m, current, start, at);
      if gathered.Err? then Err(gathered.error)
      else Ok((ApplyEntries(refs, Replayed(gathered.value, start, at)), ReplayPacks(packs, Replayed(gathered.value, start, at))))
  }

  method GatherEntries(segments: map<nat, seq<LogEntry>>, m: Manifest, current: Manifest, start: nat, at: nat)
    returns (r: Result<seq<LogEntry>, RewindError>)
    requires Ahead(segments)
    ensures r == Gather(segments, m, current, start, at)
  {
    if Probes(m, start) {
      var found := ProbeLog(segments, start + 1, Limit(m, at));
      if found.None? {
        return Err(BeyondRetention);
      }
      if at < m.minSeq {
        return Ok(found.value);
      }
      var listed := ReadLog(segments, current, m.minSeq, Some(at));
      return if listed.None? then Err(SegmentMissing) else Ok(found.value + listed.value);
    }
    var listed := ReadLog(segments, current, start + 1, Some(at));
    return if listed.None? then Err(SegmentMissing) else Ok(listed.value);
  }

  method Materialize(b: Bucket, listing: seq<nat>, m: Manifest, current: Manifest, at: nat)
    returns (r: Result<(RefState, seq<PackRef>), RewindError>, retained: Option<nat>)
    requires Ahead(b.segments)
    ensures IsRetained(m, listing, at, retained)
    ensures r == Rebuild(b, retained, m, current, at)
  {
    var start, packs, refs := 0, [], b.initial;
    retained := RetainedCheckpoint(m, listing, at);
    if retained.Some? {
      if retained.value !in b.packObjects {
        return Err(CheckpointMissing), retained;
      }
      if retained.value !in b.refsObjects {
        return Err(RefsMissing), retained;
      }
      refs := LoadSnapshot(refs, b.refsObjects[retained.value]);
      packs := b.packObjects[retained.value];
      start := retained.value;
    }
    var gathered := GatherEntries(b.segments, m, current, start, at);
    if gathered.Err? {
      return Err(gathered.error), retained;
    }
    packs := FoldPacks(packs, gathered.value, start, at);
    refs := FoldRefs(refs, gathered.value, start, at);
    return Ok((refs, packs)), retained;
  }

  // ---------------------------------------------------------------------------
  // When probing is right
  // ---------------------------------------------------------------------------

  /** The log as it was published, one chunk for each push or compaction. */
  function Flat(chunks: seq<seq<LogEntry>>): seq<LogEntry> {
    if chunks == [] then [] else chunks[0] + Flat(chunks[1..])
  }

  predicate AllConsecutive(chunks: seq<seq<LogEntry>>) {
    forall i | 0 <= i < |chunks| :: Consecutive(chunks[i])
  }

  /** A chunk's object, unless it has been collected, is still what was published. */
  predicate Stored(segments: map<nat, seq<LogEntry>>, chunks: seq<seq<LogEntry>>)
    requires AllConsecutive(chunks)
  {
    forall i | 0 <= i < |chunks| && chunks[i][0].seqNo in segments :: segments[chunks[i][0].seqNo] == chunks[i]
  }

  ghost predicate Numbered(log: seq<LogEntry>, n: nat) {
    exists i | 0 <= i < |log| :: log[i].seqNo == n
  }

  /** No number of the range is burned (skipped over a crashed writer's leftover), and no object
      of the range has been collected. */
  ghost predicate Clear(segments: map<nat, seq<LogEntry>>, chunks: seq<seq<LogEntry>>, number: nat, limit: nat)
    requires AllConsecutive(chunks)
  {
    && (forall n | number <= n <= limit :: Numbered(Flat(chunks), n))
    && (forall i | 0 <= i < |chunks| && chunks[i][0].seqNo <= limit :: chunks[i][0].seqNo in segments)
  }

  predicate ProbeExact(segments: map<nat, seq<LogEntry>>, chunks: seq<seq<LogEntry>>, number: nat, limit: nat)
    requires Formed(segments)
  {
    var found := Probe(segments, number, limit);
    found.Some? && InRange(found.value, 0, limit) == InRange(Flat(chunks), 0, limit)
  }

  lemma IncreasingParts(a: seq<LogEntry>, b: seq<LogEntry>)
    requires Increasing(a + b)
    ensures Increasing(a) && Increasing(b)
    ensures forall i, j | 0 <= i < |a| && 0 <= j < |b| :: a[i].seqNo < b[j].seqNo
  {
    var all := a + b;
    assert forall i | 0 <= i < |a| :: a[i] == all[i];
    assert forall j | 0 <= j < |b| :: b[j] == all[|a| + j];
  }

  /** Numbers used up by the first chunk do not matter for the rest. */
  lemma ClearRest(segments: map<nat, seq<LogEntry>>, chunks: seq<seq<LogEntry>>, limit: nat)
    requires AllConsecutive(chunks) && chunks != [] && Increasing(Flat(chunks)) && chunks[0][0].seqNo in segments
    ensures Clear(segments, chunks, chunks[0][0].seqNo, limit) <==> Clear(segments, chunks[1..], HeadOf(chunks[0]) + 1, limit)
  {
    var first, rest := chunks[0], Flat(chunks[1..]);
    var number, last := first[0].seqNo, HeadOf(first);
    assert Flat(chunks) == first + rest;
    IncreasingParts(first, rest);
    forall n | number <= n <= limit ensures Numbered(Flat(chunks), n) <==> n <= last || Numbered(rest, n) {
      NumberedConcat(first, rest, n);
      if n <= last {
        assert first[n - number].seqNo == n;
      }
    }
    forall i | 0 <= i < |chunks[1..]| ensures chunks[1..][i] == chunks[i + 1] {
    }
    if Clear(segments, chunks[1..], last + 1, limit) {
      forall i | 0 <= i < |chunks| && chunks[i][0].seqNo <= limit ensures chunks[i][0].seqNo in segments {
        assert i > 0 ==> chunks[1..][i - 1] == chunks[i];
      }
    }
  }

  lemma NumberedConcat(a: seq<LogEntry>, b: seq<LogEntry>, n: nat)
    ensures Numbered(a + b, n) <==> Numbered(a, n) || Numbered(b, n)
  {
    if Numbered(a, n) {
      var i :| 0 <= i < |a| && a[i].seqNo == n;
      assert (a + b)[i].seqNo == n;
    }
    if Numbered(b, n) {
      var i :| 0 <= i < |b| && b[i].seqNo == n;
      assert (a + b)[|a| + i].seqNo == n;
    }
  }

  /** A probe that lands on a number no committed entry has fails, or picks up a leftover. */
  lemma BurnedProbe(segments: map<nat, seq<LogEntry>>, chunks: seq<seq<LogEntry>>, number: nat, limit: nat)
    requires Formed(segments) && number <= limit && !Numbered(Flat(chunks), number)
    ensures !ProbeExact(segments, chunks, number, limit)
  {
    var found := Probe(segments, number, limit);
    if found.Some? {
      var e := segments[number][0];
      assert e == found.value[0];
      InRangeHas(found.value, 0, limit, e);
      InRangeHas(Flat(chunks), 0, limit, e);
    }
  }

  /** The exact condition: probing recovers the committed entries if and only if the range is clear. */
  lemma {:induction false} ProbeExactIff(segments: map<nat, seq<LogEntry>>, chunks: seq<seq<LogEntry>>, number: nat, limit: nat)
    requires Formed(segments) && AllConsecutive(chunks) && Stored(segments, chunks)
    requires Increasing(Flat(chunks)) && (chunks != [] ==> chunks[0][0].seqNo >= number)
    ensures ProbeExact(segments, chunks, number, limit) <==> Clear(segments, chunks, number, limit)
    decreases |chunks|
  {
    if number > limit {
      AllAbove(chunks, number);
      NoneInRange(Flat(chunks), 0, limit);
      LaterChunks(chunks, number);
    } else if chunks == [] || chunks[0][0].seqNo > number {
      AllAbove(chunks, if chunks == [] then number + 1 else chunks[0][0].seqNo);
      BurnedProbe(segments, chunks, number, limit);
    } else if number in segments {
      var first, rest := chunks[0], chunks[1..];
      ChunkStep(segments, chunks, limit);
      ProbeExactIff(segments, rest, HeadOf(first) + 1, limit);
      ClearRest(segments, chunks, limit);
    }
  }

  lemma {:induction false} AllAbove(chunks: seq<seq<LogEntry>>, number: nat)
    requires AllConsecutive(chunks) && Increasing(Flat(chunks)) && (chunks != [] ==> chunks[0][0].seqNo >= number)
    ensures forall i | 0 <= i < |Flat(chunks)| :: Flat(chunks)[i].seqNo >= number
  {
    if chunks != [] {
      assert Flat(chunks)[0] == chunks[0][0];
    }
  }

  lemma {:induction false} LaterChunks(chunks: seq<seq<LogEntry>>, number: nat)
    requires AllConsecutive(chunks) && Increasing(Flat(chunks)) && (chunks != [] ==> chunks[0][0].seqNo >= number)
    ensures forall i | 0 <= i < |chunks| :: chunks[i][0].seqNo >= number
    decreases |chunks|
  {
    if |chunks| > 1 {
      IncreasingParts(chunks[0], Flat(chunks[1..]));
      assert Flat(chunks[1..])[0] == chunks[1..][0][0];
      LaterChunks(chunks[1..], number);
      forall i | 0 <= i < |chunks| ensures chunks[i][0].seqNo >= number {
        assert i > 0 ==> chunks[i] == chunks[1..][i - 1];
      }
    }
  }

  lemma Cancel(x: seq<LogEntry>, a: seq<LogEntry>, b: seq<LogEntry>)
    ensures x + a == x + b <==> a == b
  {
    assert (x + a)[|x|..] == a && (x + b)[|x|..] == b;
  }

  lemma ChunkStep(segments: map<nat, seq<LogEntry>>, chunks: seq<seq<LogEntry>>, limit: nat)
    requires Formed(segments) && AllConsecutive(chunks) && Stored(segments, chunks) && chunks != []
    requires Increasing(Flat(chunks)) && chunks[0][0].seqNo in segments && chunks[0][0].seqNo <= limit
    ensures ProbeExact(segments, chunks, chunks[0][0].seqNo, limit) <==> ProbeExact(segments, chunks[1..], HeadOf(chunks[0]) + 1, limit)
    ensures Increasing(Flat(chunks[1..])) && AllConsecutive(chunks[1..]) && Stored(segments, chunks[1..])
    ensures chunks[1..] != [] ==> chunks[1..][0][0].seqNo >= HeadOf(chunks[0]) + 1
  {
    ProbeFirst(segments, chunks[0], limit);
    RestOfChunks(segments, chunks);
    var found := Probe(segments, HeadOf(chunks[0]) + 1, limit);
    if found.Some? {
      SameAfter(chunks[0], found.value, Flat(chunks[1..]), limit);
    }
  }

  lemma ProbeFirst(segments: map<nat, seq<LogEntry>>, first: seq<LogEntry>, limit: nat)
    requires Formed(segments) && Consecutive(first) && first[0].seqNo in segments && segments[first[0].seqNo] == first
    requires first[0].seqNo <= limit
    ensures var rest := Probe(segments, HeadOf(first) + 1, limit);
            Probe(segments, first[0].seqNo, limit) == if rest.None? then None else Some(first + rest.value)
  {
  }

  lemma RestOfChunks(segments: map<nat, seq<LogEntry>>, chunks: seq<seq<LogEntry>>)
    requires AllConsecutive(chunks) && Stored(segments, chunks) && chunks != [] && Increasing(Flat(chunks))
    ensures Increasing(Flat(chunks[1..])) && AllConsecutive(chunks[1..]) && Stored(segments, chunks[1..])
    ensures chunks[1..] != [] ==> chunks[1..][0][0].seqNo >= HeadOf(chunks[0]) + 1
  {
    var first, rest := chunks[0], chunks[1..];
    IncreasingParts(first, Flat(rest));
    assert forall i | 0 <= i < |rest| :: rest[i] == chunks[i + 1];
    assert rest != [] ==> Flat(rest)[0] == rest[0][0];
  }

  lemma SameAfter(first: seq<LogEntry>, a: seq<LogEntry>, b: seq<LogEntry>, limit: nat)
    ensures InRange(first + a, 0, limit) == InRange(first + b, 0, limit) <==> InRange(a, 0, limit) == InRange(b, 0, limit)
  {
    InRangeConcat(first, a, 0, limit);
    InRangeConcat(first, b, 0, limit);
    Cancel(InRange(first, 0, limit), InRange(a, 0, limit), InRange(b, 0, limit));
  }

  // ---------------------------------------------------------------------------
  // When a rewind is right
  // ---------------------------------------------------------------------------

  /** `start` lies between two chunks: everything up to it in `past`, everything after in `rest`. */
  predicate SplitsAt(log: seq<LogEntry>, start: nat, past: seq<LogEntry>, rest: seq<seq<LogEntry>>) {
    && AllConsecutive(rest) && log == past + Flat(rest) && Increasing(log)
    && HeadOf(past) <= start && (rest != [] ==> start < rest[0][0].seqNo)
  }

  lemma SplitPosition(log: seq<LogEntry>, start: nat, past: seq<LogEntry>, rest: seq<seq<LogEntry>>)
    requires SplitsAt(log, start, past, rest)
    ensures Pos(log, start) == |past| && Increasing(Flat(rest))
  {
    IncreasingParts(past, Flat(rest));
    assert Flat(rest) != [] ==> rest != [] && Flat(rest)[0] == rest[0][0];
    PosIs(log, start, |past|);
  }

  lemma RestIsWindow(log: seq<LogEntry>, start: nat, past: seq<LogEntry>, rest: seq<seq<LogEntry>>, limit: nat)
    requires SplitsAt(log, start, past, rest)
    ensures InRange(Flat(rest), 0, limit) == Window(log, start + 1, limit)
  {
    SplitPosition(log, start, past, rest);
    AllAbove(rest, start + 1);
    SameFloor(Flat(rest), start + 1, limit);
    InRangeConcat(past, Flat(rest), start + 1, limit);
    if past != [] {
      IncreasingParts(past, Flat(rest));
      Outside(past, start + 1, limit);
    }
    InRangeIsWindow(log, start + 1, limit);
  }

  predicate Recovers(segments: map<nat, seq<LogEntry>>, log: seq<LogEntry>, start: nat, limit: nat)
    requires Formed(segments)
  {
    var found := Probe(segments, start + 1, limit);
    found.Some? && InRange(found.value, start + 1, limit) == Window(log, start + 1, limit)
  }

  /** Probing recovers the committed entries after `start` if and only if the range is clear. */
  lemma RecoversIff(b: Bucket, start: nat, past: seq<LogEntry>, rest: seq<seq<LogEntry>>, limit: nat)
    requires Formed(b.segments) && SplitsAt(b.log, start, past, rest) && Stored(b.segments, rest)
    ensures Recovers(b.segments, b.log, start, limit) <==> Clear(b.segments, rest, start + 1, limit)
  {
    SplitPosition(b.log, start, past, rest);
    ProbeExactIff(b.segments, rest, start + 1, limit);
    RestIsWindow(b.log, start, past, rest, limit);
    var found := Probe(b.segments, start + 1, limit);
    if found.Some? {
      ProbeAbove(b.segments, start + 1, limit);
      SameFloor(found.value, start + 1, limit);
    }
  }

  lemma {:induction false} ProbeAbove(segments: map<nat, seq<LogEntry>>, number: nat, limit: nat)
    requires Formed(segments) && Probe(segments, number, limit).Some?
    ensures forall i | 0 <= i < |Probe(segments, number, limit).value| :: Probe(segments, number, limit).value[i].seqNo >= number
    decreases limit + 1 - number
  {
    if number <= limit {
      ProbeAbove(segments, HeadOf(segments[number]) + 1, limit);
    }
  }

  lemma {:induction false} SameFloor(entries: seq<LogEntry>, floor: nat, to: nat)
    requires forall i | 0 <= i < |entries| :: entries[i].seqNo >= floor
    ensures InRange(entries, floor, to) == InRange(entries, 0, to)
    decreases |entries|
  {
    if entries != [] {
      SameFloor(entries[..|entries| - 1], floor, to);
    }
  }

  /** Nothing committed after `start` and up to `at` is folded into the checkpoint of `current`. */
  predicate NothingFolded(log: seq<LogEntry>, current: Manifest, start: nat, at: nat) {
    Window(log, start + 1, Least(Least(at, current.headSeq), CheckpointSeq(current))) == []
  }

  /** What a rewind needs. If it has to probe: no burned number and no collected object in the
      probed range. If it reads through the manifest: nothing of the range folded. */
  ghost predicate Rewindable(b: Bucket, m: Manifest, current: Manifest, start: nat, at: nat, past: seq<LogEntry>,
                             rest: seq<seq<LogEntry>>)
  {
    if Probes(m, start) then
      SplitsAt(b.log, start, past, rest) && Stored(b.segments, rest) && Clear(b.segments, rest, start + 1, at)
    else NothingFolded(b.log, current, start, at)
  }

  lemma CheckpointBefore(log: seq<LogEntry>, current: Manifest, start: nat, at: nat)
    requires Increasing(log) && CheckpointSeq(current) <= start
    ensures NothingFolded(log, current, start, at)
  {
    PosMonotone(log, Least(Least(at, current.headSeq), CheckpointSeq(current)), start);
  }

  /** Probing only happens behind the manifest's checkpoint, so it never continues into the listed log. */
  lemma ProbesStopAtTheCheckpoint(m: Manifest, listing: seq<nat>, at: nat, retained: Option<nat>)
    requires m.minSeq == (if m.checkpoint.Some? then CheckpointSeq(m) + 1 else 0) && IsRetained(m, listing, at, retained)
    ensures Probes(m, StartOf(retained)) ==> at < m.minSeq
  {
  }

  predicate GathersExactly(b: Bucket, m: Manifest, current: Manifest, start: nat, at: nat)
    requires Ahead(b.segments)
  {
    var gathered := Gather(b.segments, m, current, start, at);
    && gathered.Ok?
    && Replayed(gathered.value, start, at) == Window(b.log, start + 1, Least(at, current.headSeq))
  }

  lemma {:induction false} InRangeWithin(entries: seq<LogEntry>, from: nat, to: nat)
    ensures Within(InRange(entries, from, to), from, to)
    decreases |entries|
  {
    if entries != [] {
      InRangeWithin(entries[..|entries| - 1], from, to);
    }
  }

  /** What the log reader returns is replayed whole. */
  lemma ReplayedListed(b: Bucket, current: Manifest, start: nat, at: nat)
    requires Increasing(b.log) && Covers(b, current)
    ensures var listed := ReadLogAt(b.segments, current, start + 1, Some(at));
            listed.Some? && Replayed(listed.value, start, at) == listed.value
  {
    assert Top(current, Some(at)) == Least(at, current.headSeq);
    assert ReadLogAt(b.segments, current, start + 1, Some(at))
        == Some(InRange(b.log[Pos(b.log, CheckpointSeq(current))..Pos(b.log, current.headSeq)], start + 1, Least(at, current.headSeq))) by {
      ReadLogExact(b, current, start + 1, Some(at));
    }
    RangeAgain(b.log[Pos(b.log, CheckpointSeq(current))..Pos(b.log, current.headSeq)], start + 1, Least(at, current.headSeq), at);
  }

  lemma RangeAgain(entries: seq<LogEntry>, from: nat, to: nat, at: nat)
    requires to <= at
    ensures InRange(InRange(entries, from, to), from, at) == InRange(entries, from, to)
  {
    InRangeWithin(entries, from, to);
    AllInRange(InRange(entries, from, to), from, at);
  }

  lemma GatherListedIff(b: Bucket, m: Manifest, current: Manifest, start: nat, at: nat)
    requires Formed(b.segments) && Increasing(b.log) && Covers(b, current) && !Probes(m, start)
    ensures GathersExactly(b, m, current, start, at) <==> NothingFolded(b.log, current, start, at)
  {
    ReplayedListed(b, current, start, at);
    ListedIsAllIff(b, current, start, at);
    OnlyListed(b, m, current, start, at, ReadLogAt(b.segments, current, start + 1, Some(at)),
               Window(b.log, start + 1, Least(at, current.headSeq)));
  }

  lemma ListedIsAllIff(b: Bucket, current: Manifest, start: nat, at: nat)
    requires Increasing(b.log) && Covers(b, current)
    ensures ReadLogAt(b.segments, current, start + 1, Some(at)) == Some(Window(b.log, start + 1, Least(at, current.headSeq)))
            <==> NothingFolded(b.log, current, start, at)
  {
    assert Top(current, Some(at)) == Least(at, current.headSeq);
    ReadLogCompleteIff(b, current, start + 1, Some(at));
  }

  lemma OnlyListed(b: Bucket, m: Manifest, current: Manifest, start: nat, at: nat, listed: Option<seq<LogEntry>>, all: seq<LogEntry>)
    requires Ahead(b.segments) && !Probes(m, start)
    requires listed == ReadLogAt(b.segments, current, start + 1, Some(at)) && listed.Some?
    requires Replayed(listed.value, start, at) == listed.value && all == Window(b.log, start + 1, Least(at, current.headSeq))
    ensures GathersExactly(b, m, current, start, at) <==> listed == Some(all)
  {
  }

  lemma GatherProbedIff(b: Bucket, m: Manifest, current: Manifest, start: nat, at: nat)
    requires Formed(b.segments) && Probes(m, start) && at < m.minSeq && at <= current.headSeq
    ensures GathersExactly(b, m, current, start, at) <==> Recovers(b.segments, b.log, start, at)
  {
  }

  /** The exact condition: the entries a rewind replays are the committed ones between its
      checkpoint and its target if and only if the range is rewindable. */
  lemma GatherExactIff(b: Bucket, m: Manifest, current: Manifest, start: nat, at: nat, past: seq<LogEntry>, rest: seq<seq<LogEntry>>)
    requires Formed(b.segments) && Increasing(b.log) && Covers(b, current)
    requires Probes(m, start) ==> at < m.minSeq && at <= current.headSeq && SplitsAt(b.log, start, past, rest) && Stored(b.segments, rest)
    ensures GathersExactly(b, m, current, start, at) <==> Rewindable(b, m, current, start, at, past, rest)
  {
    if Probes(m, start) {
      RecoversIff(b, start, past, rest, at);
      GatherProbedIff(b, m, current, start, at);
    } else {
      GatherListedIff(b, m, current, start, at);
    }
  }

  /** What a retained checkpoint must hold: the packs at its number, and refs with a HEAD. */
  ghost predicate GoodStart(b: Bucket, retained: Option<nat>) {
    retained.Some? ==>
      && retained.value in b.packObjects && PacksAt(b, b.packObjects[retained.value], retained.value)
      && retained.value in b.refsObjects && HasHead(b.refsObjects[retained.value])
  }

  /** The stored refs, replayed to position `target`, are the refs there. Both are in the bucket:
      what the log writes after the checkpoint, and what the snapshot holds in the other cells. */
  ghost predicate RefsSettle(b: Bucket, retained: Option<nat>, target: nat)
    requires Pos(b.log, StartOf(retained)) <= target <= |b.log| && (retained.Some? ==> retained.value in b.refsObjects)
  {
    retained.Some? ==> Settles(b.refsObjects[retained.value], b.initial, b.log, Pos(b.log, retained.value), target)
  }

  function StartOf(retained: Option<nat>): nat {
    if retained.Some? then retained.value else 0
  }

  lemma RefsRebuiltIff(b: Bucket, retained: Option<nat>, to: nat)
    requires Pos(b.log, 0) == 0 && Pos(b.log, StartOf(retained)) <= Pos(b.log, to) && GoodStart(b, retained)
    ensures ApplyEntries(if retained.Some? then LoadSnapshot(b.initial, b.refsObjects[retained.value]) else b.initial,
                         Window(b.log, StartOf(retained) + 1, to))
            == StateAt(b.initial, b.log, Pos(b.log, to))
            <==> RefsSettle(b, retained, Pos(b.log, to))
  {
    if retained.Some? {
      RewindIff(b.refsObjects[retained.value], b.initial, b.log, Pos(b.log, retained.value), Pos(b.log, to));
    } else {
      assert b.log[0..Pos(b.log, to)] == b.log[..Pos(b.log, to)];
    }
  }

  lemma PacksRebuilt(b: Bucket, retained: Option<nat>, to: nat)
    requires Pos(b.log, 0) == 0 && Pos(b.log, StartOf(retained)) <= Pos(b.log, to) && GoodStart(b, retained)
    ensures Checksums(ReplayPacks(if retained.Some? then b.packObjects[retained.value] else [], Window(b.log, StartOf(retained) + 1, to)))
            == Checksums(ReplayPacks([], b.log[..Pos(b.log, to)]))
  {
    assert b.log[..0] == [];
    PacksOver(b.log, Pos(b.log, StartOf(retained)), Pos(b.log, to), if retained.Some? then b.packObjects[retained.value] else []);
  }

  lemma PacksOver(log: seq<LogEntry>, i: nat, n: nat, packs: seq<PackRef>)
    requires i <= n <= |log| && Checksums(packs) == Checksums(ReplayPacks([], log[..i]))
    ensures Checksums(ReplayPacks(packs, log[i..n])) == Checksums(ReplayPacks([], log[..n]))
  {
    assert log[..n][..i] == log[..i] && log[..n][i..] == log[i..n];
    PacksFrom(log[..n], i, packs);
  }

  /** The packs are those of replaying the log to `target`, and the refs are if and only if the
      stored ones settle. */
  ghost predicate Faithful(b: Bucket, retained: Option<nat>, r: Result<(RefState, seq<PackRef>), RewindError>, target: nat)
    requires Pos(b.log, StartOf(retained)) <= target <= |b.log| && (retained.Some? ==> retained.value in b.refsObjects)
  {
    && r.Ok?
    && Checksums(r.value.1) == Checksums(ReplayPacks([], b.log[..target]))
    && (r.value.0 == StateAt(b.initial, b.log, target) <==> RefsSettle(b, retained, target))
  }

  lemma RebuiltFrom(b: Bucket, retained: Option<nat>, m: Manifest, current: Manifest, at: nat)
    requires Formed(b.segments) && Pos(b.log, 0) == 0 && GathersExactly(b, m, current, StartOf(retained), at)
    requires Pos(b.log, StartOf(retained)) <= Pos(b.log, Least(at, current.headSeq)) && GoodStart(b, retained)
    ensures Faithful(b, retained, Rebuild(b, retained, m, current, at), Pos(b.log, Least(at, current.headSeq)))
  {
    RefsRebuiltIff(b, retained, Least(at, current.headSeq));
    PacksRebuilt(b, retained, Least(at, current.headSeq));
  }

  /** A cold rewind of a rewindable range gives the packs of replaying the log from the beginning to
      `at`, and its refs if and only if the stored snapshot settles. */
  lemma RewindIsFaithful(b: Bucket, listing: seq<nat>, retained: Option<nat>, m: Manifest, current: Manifest, at: nat,
                         past: seq<LogEntry>, rest: seq<seq<LogEntry>>)
    requires Formed(b.segments) && Increasing(b.log) && Pos(b.log, 0) == 0 && Covers(b, current)
    requires m.minSeq == if m.checkpoint.Some? then CheckpointSeq(m) + 1 else 0
    requires CheckpointSeq(m) <= current.headSeq && StartOf(retained) <= current.headSeq && IsRetained(m, listing, at, retained)
    requires GoodStart(b, retained) && Rewindable(b, m, current, StartOf(retained), at, past, rest)
    ensures Pos(b.log, StartOf(retained)) <= Pos(b.log, Least(at, current.headSeq))
    ensures Faithful(b, retained, Rebuild(b, retained, m, current, at), Pos(b.log, Least(at, current.headSeq)))
  {
    RewindGathers(b, listing, retained, m, current, at, past, rest);
    PosMonotone(b.log, StartOf(retained), Least(at, current.headSeq));
    RebuiltFrom(b, retained, m, current, at);
  }

  lemma RewindGathers(b: Bucket, listing: seq<nat>, retained: Option<nat>, m: Manifest, current: Manifest, at: nat,
                      past: seq<LogEntry>, rest: seq<seq<LogEntry>>)
    requires Formed(b.segments) && Increasing(b.log) && Covers(b, current)
    requires m.minSeq == if m.checkpoint.Some? then CheckpointSeq(m) + 1 else 0
    requires CheckpointSeq(m) <= current.headSeq && IsRetained(m, listing, at, retained)
    requires Rewindable(b, m, current, StartOf(retained), at, past, rest)
    ensures GathersExactly(b, m, current, StartOf(retained), at)
    ensures StartOf(retained) <= at
  {
    ProbesStopAtTheCheckpoint(m, listing, at, retained);
    GatherExactIff(b, m, current, StartOf(retained), at, past, rest);
  }

  // ---------------------------------------------------------------------------
  // Rewinding in runs
  // ---------------------------------------------------------------------------

  /** The bucket keeps every chunk of the log, and every past head is the end of a chunk. */
  ghost predicate ChunksOf(b: Bucket, chunks: seq<seq<LogEntry>>) {
    AllConsecutive(chunks) && Flat(chunks) == b.log && Kept(b, chunks) && HeadsEnd(b.heads, chunks)
  }

  predicate Kept(b: Bucket, chunks: seq<seq<LogEntry>>) {
    forall i | 0 <= i < |chunks| :: KeptChunk(b, chunks[i])
  }

  predicate KeptChunk(b: Bucket, chunk: seq<LogEntry>) {
    chunk != [] && chunk[0].seqNo in b.committed && chunk[0].seqNo in b.segments && b.segments[chunk[0].seqNo] == chunk
  }

  ghost predicate HeadsEnd(heads: set<nat>, chunks: seq<seq<LogEntry>>) {
    forall h | h in heads :: EndsChunk(chunks, h)
  }

  ghost predicate EndsChunk(chunks: seq<seq<LogEntry>>, h: nat) {
    exists j | 0 <= j <= |chunks| :: HeadOf(Flat(chunks[..j])) == h
  }

  ghost predicate Chunked(s: State) {
    Formed(s.bucket.segments) && exists chunks :: ChunksOf(s.bucket, chunks)
  }

  lemma {:induction false} FlatConcat(a: seq<seq<LogEntry>>, b: seq<seq<LogEntry>>)
    ensures Flat(a + b) == Flat(a) + Flat(b)
    decreases |a|
  {
    if a == [] {
      assert a + b == b;
    } else {
      assert (a + b)[1..] == a[1..] + b;
      FlatConcat(a[1..], b);
    }
  }

  lemma KeptLonger(b: Bucket, c: Bucket, entries: seq<LogEntry>, chunks: seq<seq<LogEntry>>)
    requires Appends(b, c, entries) && Kept(b, chunks)
    ensures Kept(c, chunks + [entries])
  {
    forall i | 0 <= i < |chunks| ensures KeptChunk(c, chunks[i]) {
      assert KeptChunk(b, chunks[i]);
    }
  }

  lemma OneMoreFlat(chunks: seq<seq<LogEntry>>, entries: seq<LogEntry>)
    ensures Flat(chunks + [entries]) == Flat(chunks) + entries
  {
    FlatConcat(chunks, [entries]);
    assert Flat([entries]) == entries + Flat([entries][1..]) == entries;
  }

  lemma PublishedChunks(b: Bucket, c: Bucket, entries: seq<LogEntry>, chunks: seq<seq<LogEntry>>)
    requires Appends(b, c, entries) && ChunksOf(b, chunks)
    ensures ChunksOf(c, chunks + [entries])
  {
    OneMoreFlat(chunks, entries);
    KeptLonger(b, c, entries, chunks);
    HeadsEndLonger(b.log, b.heads, chunks, entries);
  }

  lemma HeadsEndLonger(log: seq<LogEntry>, heads: set<nat>, chunks: seq<seq<LogEntry>>, entries: seq<LogEntry>)
    requires HeadsEnd(heads, chunks) && Flat(chunks) == log && entries != []
    ensures HeadsEnd(heads + {HeadOf(entries)}, chunks + [entries])
  {
    var more := chunks + [entries];
    forall h | h in heads ensures EndsChunk(more, h) {
      EndsLonger(chunks, entries, h);
    }
    OneMoreFlat(chunks, entries);
    assert more[..|more|] == more;
    assert EndsChunk(more, HeadOf(entries));
  }

  lemma EndsLonger(chunks: seq<seq<LogEntry>>, entries: seq<LogEntry>, h: nat)
    requires EndsChunk(chunks, h)
    ensures EndsChunk(chunks + [entries], h)
  {
    var j :| 0 <= j <= |chunks| && HeadOf(Flat(chunks[..j])) == h;
    assert (chunks + [entries])[..j] == chunks[..j];
  }

  /** What is committed is the same in both. */
  predicate SameCommitted(b: Bucket, c: Bucket) {
    && c.log == b.log && c.heads == b.heads && c.committed == b.committed
    && forall k | k in b.committed && k in b.segments :: k in c.segments && c.segments[k] == b.segments[k]
  }

  lemma SameChunks(b: Bucket, c: Bucket, chunks: seq<seq<LogEntry>>)
    requires SameCommitted(b, c) && ChunksOf(b, chunks)
    ensures ChunksOf(c, chunks)
  {
    forall i | 0 <= i < |chunks| ensures KeptChunk(c, chunks[i]) {
      assert KeptChunk(b, chunks[i]);
    }
  }

  predicate WritesObjects(step: Step) {
    step.Publish? || step.CompactPut? || step.Orphan? || step.Sweep? || step.PutRefs? || step.PutPacks?
  }

  lemma BucketStays(s: State, step: Step)
    requires Enabled(s, step) && !WritesObjects(step)
    ensures Apply(s, step).bucket == s.bucket
  {
  }

  lemma WrittenSegment(b: Bucket, c: Bucket, entries: seq<LogEntry>)
    requires Formed(b.segments) && Consecutive(entries) && entries[0].seqNo !in b.segments
    requires c == b.(segments := b.segments[entries[0].seqNo := entries])
    ensures SameCommitted(b, c) && Formed(c.segments)
  {
  }

  lemma OtherStep(s: State, step: Step)
    requires Enabled(s, step) && !step.Publish? && !step.CompactPut? && Formed(s.bucket.segments)
    ensures SameCommitted(s.bucket, Apply(s, step).bucket) && Formed(Apply(s, step).bucket.segments)
  {
    if step.Orphan? {
      WrittenSegment(s.bucket, Apply(s, step).bucket, step.entries);
    } else if !WritesObjects(step) {
      BucketStays(s, step);
    }
  }

  lemma ChunkedStep(s: State, step: Step)
    requires Chunked(s) && RegisterOk(s.bucket, s.register) && Enabled(s, step) && Matched(s, step)
    ensures Chunked(Apply(s, step))
  {
    var chunks :| ChunksOf(s.bucket, chunks);
    if step.Publish? {
      PublishedChunks(s.bucket, Appended(s.bucket, step.entries), step.entries, chunks);
    } else if step.CompactPut? {
      CompactedChunks(s, step, chunks);
    } else {
      OtherStep(s, step);
      SameChunks(s.bucket, Apply(s, step).bucket, chunks);
    }
  }

  lemma CompactedChunks(s: State, step: Step, chunks: seq<seq<LogEntry>>)
    requires RegisterOk(s.bucket, s.register) && Enabled(s, step) && Matched(s, step) && step.CompactPut?
    requires Formed(s.bucket.segments) && ChunksOf(s.bucket, chunks)
    ensures Chunked(Apply(s, step))
  {
    var h, e, t := s.handles[step.p], step.e, Apply(s, step);
    EditOutcome(s.register, h, PublishManifest(h.edit.value.base, [e], step.size, step.updatedAt), step.fault);
    NoUpdates(e);
    OneMoreChunk(s.bucket, e, chunks);
    assert Chunked(s.(bucket := t.bucket));
  }

  lemma OneMoreChunk(b: Bucket, e: LogEntry, chunks: seq<seq<LogEntry>>)
    requires Formed(b.segments) && ChunksOf(b, chunks) && Consecutive([e]) && e.seqNo !in b.segments
    ensures var c := b.(segments := b.segments[e.seqNo := [e]]); Formed(c.segments) && ChunksOf(c, chunks)
    ensures e.seqNo > HeadOf(b.log) ==> Formed(Appended(b, [e]).segments) && ChunksOf(Appended(b, [e]), chunks + [[e]])
  {
    if e.seqNo > HeadOf(b.log) {
      PublishedChunks(b, Appended(b, [e]), [e], chunks);
    }
  }

  ghost predicate ChunkedInv(s: State) {
    Inv(s) && Chunked(s)
  }

  lemma ChunkedAlways(run: seq<State>, i: nat)
    requires IsRun(run) && i < |run|
    ensures Chunked(run[i])
  {
    Inductive();
    forall s | Init(s) ensures ChunkedInv(s) {
      var none: seq<seq<LogEntry>> := [];
      assert none[..0] == none;
      assert EndsChunk(none, 0);
      assert ChunksOf(s.bucket, none);
    }
    forall s, t | ChunkedInv(s) && Next(s, t) ensures ChunkedInv(t) {
      var step :| Enabled(s, step) && Unovertaken(s, step) && Matched(s, step) && t == Apply(s, step);
      ChunkedStep(s, step);
    }
    Runs.Always(Init, Next, ChunkedInv, run, i);
  }

  lemma SplitAtHead(b: Bucket, chunks: seq<seq<LogEntry>>, h: nat) returns (past: seq<LogEntry>, rest: seq<seq<LogEntry>>)
    requires ChunksOf(b, chunks) && Increasing(b.log) && Pos(b.log, 0) == 0 && h in b.heads
    ensures SplitsAt(b.log, h, past, rest) && Stored(b.segments, rest)
    ensures forall i | 0 <= i < |rest| :: rest[i][0].seqNo in b.segments
  {
    assert EndsChunk(chunks, h);
    var j :| 0 <= j <= |chunks| && HeadOf(Flat(chunks[..j])) == h;
    past, rest := Flat(chunks[..j]), chunks[j..];
    SplitChunks(b.log, chunks, j);
  }

  lemma SplitChunks(log: seq<LogEntry>, chunks: seq<seq<LogEntry>>, j: nat)
    requires AllConsecutive(chunks) && Flat(chunks) == log && Increasing(log) && j <= |chunks|
    requires Pos(log, 0) == 0
    ensures SplitsAt(log, HeadOf(Flat(chunks[..j])), Flat(chunks[..j]), chunks[j..])
  {
    var rest := chunks[j..];
    FlatSplit(chunks, j);
    if rest != [] {
      FirstOfFlat(rest);
      HeadBelow(Flat(chunks[..j]), Flat(rest));
    }
  }

  lemma FlatSplit(chunks: seq<seq<LogEntry>>, j: nat)
    requires j <= |chunks|
    ensures Flat(chunks) == Flat(chunks[..j]) + Flat(chunks[j..])
  {
    assert chunks == chunks[..j] + chunks[j..];
    FlatConcat(chunks[..j], chunks[j..]);
  }

  lemma FirstOfFlat(chunks: seq<seq<LogEntry>>)
    requires AllConsecutive(chunks) && chunks != []
    ensures Flat(chunks) != [] && Flat(chunks)[0] == chunks[0][0]
  {
    assert Flat(chunks) == chunks[0] + Flat(chunks[1..]);
  }

  lemma HeadBelow(past: seq<LogEntry>, tail: seq<LogEntry>)
    requires Increasing(past + tail) && tail != [] && Pos(past + tail, 0) == 0
    ensures HeadOf(past) < tail[0].seqNo
  {
    assert (past + tail)[|past|] == tail[0];
    if past != [] {
      assert (past + tail)[|past| - 1] == past[|past| - 1];
    }
  }

  /** In every run, from any checkpoint that is there, as long as no number between the checkpoint
      and `at` was burned (which only matters behind the current checkpoint): the packs are those of
      that moment, and the refs are if and only if the stored snapshot settles. It does whenever the
      log is quiet from the target to the head, and whenever it was not taken after the target. */
  lemma RewindInEveryRun(run: seq<State>, i: nat, listing: seq<nat>, retained: Option<nat>, at: nat)
    requires IsRun(run) && i < |run| && run[i].register.slot.Some?
    requires var m := run[i].register.slot.value.value;
             && IsRetained(m, listing, at, retained)
             && (retained.Some? ==> retained.value in run[i].bucket.packObjects && retained.value in run[i].bucket.refsObjects)
             && (Probes(m, StartOf(retained)) ==>
                   forall n | StartOf(retained) < n <= at :: Numbered(run[i].bucket.log, n))
    ensures var b, m := run[i].bucket, run[i].register.slot.value.value;
            && Formed(b.segments)
            && var r, from, target := Rebuild(b, retained, m, m, at), Pos(b.log, StartOf(retained)), Pos(b.log, Least(at, m.headSeq));
               && from <= target && Faithful(b, retained, r, target)
               && (Quiet(b.initial, b.log, from, target, |b.log|) ==> r.value.0 == StateAt(b.initial, b.log, target))
               && (NotTakenAfter(b, retained, target) ==> r.value.0 == StateAt(b.initial, b.log, target))
  {
    var b, m := run[i].bucket, run[i].register.slot.value.value;
    ReachableInv(run, i);
    ChunkedAlways(run, i);
    var chunks :| ChunksOf(b, chunks);
    var past, rest := SplitAtHead(b, chunks, StartOf(retained));
    RewindFromChunks(b, listing, retained, m, at, past, rest);
    StoredSettles(b, retained, Pos(b.log, Least(at, m.headSeq)));
  }

  lemma RewindFromChunks(b: Bucket, listing: seq<nat>, retained: Option<nat>, m: Manifest, at: nat,
                         past: seq<LogEntry>, rest: seq<seq<LogEntry>>)
    requires Formed(b.segments) && BucketOk(b) && ManifestOk(b, m) && m.headSeq == HeadOf(b.log)
    requires IsRetained(m, listing, at, retained)
    requires retained.Some? ==> retained.value in b.packObjects && retained.value in b.refsObjects
    requires Probes(m, StartOf(retained)) ==> forall n | StartOf(retained) < n <= at :: Numbered(b.log, n)
    requires SplitsAt(b.log, StartOf(retained), past, rest) && Stored(b.segments, rest)
    requires forall i | 0 <= i < |rest| :: rest[i][0].seqNo in b.segments
    ensures Pos(b.log, StartOf(retained)) <= Pos(b.log, Least(at, m.headSeq))
    ensures Faithful(b, retained, Rebuild(b, retained, m, m, at), Pos(b.log, Least(at, m.headSeq)))
  {
    StartIsGood(b, retained);
    RestIsClear(b, m, StartOf(retained), at, past, rest);
    RewindIsFaithful(b, listing, retained, m, m, at, past, rest);
  }

  lemma StartIsGood(b: Bucket, retained: Option<nat>)
    requires BucketOk(b) && (retained.Some? ==> retained.value in b.packObjects && retained.value in b.refsObjects)
    ensures GoodStart(b, retained) && StartOf(retained) <= HeadOf(b.log)
  {
    if retained.Some? {
      var c := retained.value;
      assert c in b.heads && PacksAt(b, b.packObjects[c], c) && Tagged(b, b.refsObjects[c], c);
      HeadIsLast(b, c);
      TaggedHasHead(b, b.refsObjects[c], c);
    }
  }

  lemma TaggedHasHead(b: Bucket, x: RefState, c: nat)
    requires BucketOk(b) && Tagged(b, x, c)
    ensures HasHead(x)
  {
    assert TakenBetween(x, b.initial, b.log, Pos(b.log, c), |b.log|, HeadCell);
    var k :| Pos(b.log, c) <= k <= |b.log| && Read(x, HeadCell) == Read(StateAt(b.initial, b.log, k), HeadCell);
    assert HasHead(StateAt(b.initial, b.log, k));
  }

  /** No cell of the stored refs was read after the target. */
  ghost predicate NotTakenAfter(b: Bucket, retained: Option<nat>, target: nat)
    requires Pos(b.log, StartOf(retained)) <= target <= |b.log| && (retained.Some? ==> retained.value in b.refsObjects)
  {
    retained.Some? ==> Blend(b.refsObjects[retained.value], b.initial, b.log, Pos(b.log, retained.value), target)
  }

  /** Two ways for a stored snapshot to settle. */
  lemma StoredSettles(b: Bucket, retained: Option<nat>, target: nat)
    requires BucketOk(b) && Pos(b.log, StartOf(retained)) <= target <= |b.log|
    requires retained.Some? ==> retained.value in b.refsObjects
    ensures Quiet(b.initial, b.log, Pos(b.log, StartOf(retained)), target, |b.log|) ==> RefsSettle(b, retained, target)
    ensures NotTakenAfter(b, retained, target) ==> RefsSettle(b, retained, target)
  {
    if retained.Some? {
      var x, from := b.refsObjects[retained.value], Pos(b.log, retained.value);
      assert Tagged(b, x, retained.value);
      RewindIff(x, b.initial, b.log, from, target);
      if Quiet(b.initial, b.log, from, target, |b.log|) {
        BlendSettles(x, b.initial, b.log, from, target, |b.log|);
      }
      if Blend(x, b.initial, b.log, from, target) {
        BlendCatchesUp(x, b.initial, b.log, from, target, target);
      }
    }
  }

  lemma RestIsClear(b: Bucket, m: Manifest, start: nat, at: nat, past: seq<LogEntry>, rest: seq<seq<LogEntry>>)
    requires SplitsAt(b.log, start, past, rest) && Stored(b.segments, rest) && Pos(b.log, 0) == 0
    requires m.minSeq == if m.checkpoint.Some? then CheckpointSeq(m) + 1 else 0
    requires forall i | 0 <= i < |rest| :: rest[i][0].seqNo in b.segments
    requires Probes(m, start) ==> forall n | start < n <= at :: Numbered(b.log, n)
    ensures Rewindable(b, m, m, start, at, past, rest)
  {
    if Probes(m, start) {
      forall n | start < n <= at ensures Numbered(Flat(rest), n) {
        NumberedConcat(past, Flat(rest), n);
        if Numbered(past, n) {
          IncreasingParts(past, Flat(rest));
        }
      }
    } else {
      CheckpointBefore(b.log, m, start, at);
    }
  }

  /** Number 2 was burned and its leftover swept; entries 1, 3 and 4 are all there. Rewinding to 3
      behind a checkpoint at 4 says the log was garbage-collected. */
  lemma BurnedNumberStopsRewind(b: Bucket, current: Manifest)
    requires b.segments == map[1 := [PushEntry(1, "a", "1")], 3 := [PushEntry(3, "c", "3")], 4 := [PushEntry(4, "d", "4")]]
    ensures Formed(b.segments)
    ensures Rebuild(b, None, Manifest(4, 5, Some(CheckpointRef(4, None)), [], [], None, 1), current, 3) == Err(BeyondRetention)
  {
    StopsAtTwo(b.segments);
  }

  lemma StopsAtTwo(segments: map<nat, seq<LogEntry>>)
    requires segments == map[1 := [PushEntry(1, "a", "1")], 3 := [PushEntry(3, "c", "3")], 4 := [PushEntry(4, "d", "4")]]
    ensures Formed(segments) && Probe(segments, 1, 3) == None
  {
    forall k | k in segments ensures k <= LastOf(segments[k], k) && Consecutive(segments[k]) && segments[k][0].seqNo == k {
    }
    assert Probe(segments, 2, 3) == None;
  }

  /** With the leftover of the crashed writer still there, its push is replayed though it was
      never committed. */
  lemma BurnedNumberRevivesOrphan(b: Bucket, current: Manifest)
    requires b.initial == Unborn
    requires b.segments == map[1 := [PushEntry(1, "a", "1")], 2 := [PushEntry(2, "x", "9")]]
    ensures Formed(b.segments)
    ensures var r := Rebuild(b, None, Manifest(4, 5, Some(CheckpointRef(4, None)), [], [], None, 1), current, 2);
            r.Ok? && "x" in r.value.0.refs
  {
    var a, x := PushEntry(1, "a", "1"), PushEntry(2, "x", "9");
    ProbesBoth(b.segments);
    AllInRange([a] + [x], 1, 2);
    ReplayConcat(Unborn, [a], [x]);
    PushSets(ApplyEntries(Unborn, [a]), 2, "x", "9");
  }

  lemma ProbesBoth(segments: map<nat, seq<LogEntry>>)
    requires segments == map[1 := [PushEntry(1, "a", "1")], 2 := [PushEntry(2, "x", "9")]]
    ensures Formed(segments) && Probe(segments, 1, 2) == Some([PushEntry(1, "a", "1")] + [PushEntry(2, "x", "9")])
  {
    var a, x := PushEntry(1, "a", "1"), PushEntry(2, "x", "9");
    assert Probe(segments, 3, 2) == Some([]);
    assert [x] + [] == [x];
    assert Probe(segments, 2, 2) == Some([x]);
  }

  /** Why a rewind cannot be done: the retained checkpoint has lost one of its objects, the probe meets
      a number without an object, or a segment of the manifest it reads is gone. */
  lemma RebuildFailsIff(b: Bucket, retained: Option<nat>, m: Manifest, current: Manifest, at: nat)
    requires Ahead(b.segments)
    ensures var r, start := Rebuild(b, retained, m, current, at), StartOf(retained);
            var packsLost, refsLost := retained.Some? && retained.value !in b.packObjects, retained.Some? && retained.value !in b.refsObjects;
            var probed := start + 1 < m.minSeq;
            && (r == Err(CheckpointMissing) <==> packsLost)
            && (r == Err(RefsMissing) <==> !packsLost && refsLost)
            && (r == Err(BeyondRetention) <==>
                  !packsLost && !refsLost && probed && Probe(b.segments, start + 1, if at < m.minSeq then at else m.minSeq - 1).None?)
            && (r.Err? ==> r.error == SegmentMissing || packsLost || refsLost || probed)
  {
  }
}
