/**
  Reading a range of the log through the manifest: pick the segments that overlap the range, get
  each object, keep the entries in the range, sort them.
 */
module LogReader {
  import opened Prelude
  import opened Wal
  import opened Checkpoint
  import opened CheckpointSafety

  function InRange(entries: seq<LogEntry>, from: nat, to: nat): seq<LogEntry> {
    if entries == [] then []
    else
      var last := entries[|entries| - 1];
      InRange(entries[..|entries| - 1], from, to) + (if from <= last.seqNo <= to then [last] else [])
  }

  predicate Overlaps(seg: SegmentRef, from: nat, to: nat) {
    seg.last >= from && seg.first <= to
  }

  /** `None` when a segment that is needed is not in the bucket. */
  function Collect(segments: map<nat, seq<LogEntry>>, refs: seq<SegmentRef>, from: nat, to: nat): Option<seq<LogEntry>> {
    if refs == [] then Some([])
    else
      var init, last := Collect(segments, refs[..|refs| - 1], from, to), refs[|refs| - 1];
      if init.None? then None
      else if !Overlaps(last, from, to) then init
      else if last.first !in segments then None
      else Some(init.value + InRange(segments[last.first], from, to))
  }

  /** A stable sort by sequence number. */
  function InsertBySeq(sorted: seq<LogEntry>, e: LogEntry): seq<LogEntry> {
    if sorted == [] || sorted[|sorted| - 1].seqNo <= e.seqNo then sorted + [e]
    else InsertBySeq(sorted[..|sorted| - 1], e) + [sorted[|sorted| - 1]]
  }

  function SortBySeq(entries: seq<LogEntry>): seq<LogEntry> {
    if entries == [] then []
    else InsertBySeq(SortBySeq(entries[..|entries| - 1]), entries[|entries| - 1])
  }

  function Top(m: Manifest, to: Option<nat>): nat {
    if to.None? || m.headSeq < to.value then m.headSeq else to.value
  }

  function ReadLogAt(segments: map<nat, seq<LogEntry>>, m: Manifest, from: nat, to: Option<nat>): Option<seq<LogEntry>> {
    if from > Top(m, to) then Some([])
    else
      var collected := Collect(segments, m.segments, from, Top(m, to));
      if collected.None? then None else Some(SortBySeq(collected.value))
  }

  method ReadLog(segments: map<nat, seq<LogEntry>>, m: Manifest, from: nat, to: Option<nat>)
    returns (r: Option<seq<LogEntry>>)
    ensures r == ReadLogAt(segments, m, from, to)
  {
    var top := Top(m, to);
    if from > top {
      return Some([]);
    }
    var entries := [];
    var i := 0;
    while i < |m.segments|
      invariant i <= |m.segments|
      invariant Collect(segments, m.segments[..i], from, top) == Some(entries)
    {
      var seg := m.segments[i];
      assert m.segments[..i + 1][..i] == m.segments[..i];
      if Overlaps(seg, from, top) {
        if seg.first !in segments {
          MissingStays(segments, m.segments, from, top, i);
          return None;
        }
        var decoded := segments[seg.first];
        ghost var before := entries;
        var j := 0;
        while j < |decoded|
          invariant j <= |decoded|
          invariant entries == before + InRange(decoded[..j], from, top)
        {
          assert decoded[..j + 1][..j] == decoded[..j];
          if from <= decoded[j].seqNo <= top {
            entries := entries + [decoded[j]];
          }
          j := j + 1;
        }
        assert decoded[..j] == decoded;
      }
      i := i + 1;
    }
    assert m.segments[..i] == m.segments;
    return Some(SortBySeq(entries));
  }

  lemma {:induction false} MissingStays(segments: map<nat, seq<LogEntry>>, refs: seq<SegmentRef>, from: nat, to: nat, i: nat)
    requires i < |refs| && Overlaps(refs[i], from, to) && refs[i].first !in segments
    ensures Collect(segments, refs, from, to).None?
    decreases |refs|
  {
    if i < |refs| - 1 {
      MissingStays(segments, refs[..|refs| - 1], from, to, i);
    }
  }

  // ---------------------------------------------------------------------------
  // What it reads
  // ---------------------------------------------------------------------------

  lemma {:induction false} SortedStays(entries: seq<LogEntry>)
    requires Increasing(entries)
    ensures SortBySeq(entries) == entries
    decreases |entries|
  {
    if entries != [] {
      var init, last := entries[..|entries| - 1], entries[|entries| - 1];
      SortedStays(init);
      assert init != [] ==> init[|init| - 1].seqNo <= last.seqNo;
      assert entries == init + [last];
    }
  }

  lemma {:induction false} InRangeConcat(a: seq<LogEntry>, b: seq<LogEntry>, from: nat, to: nat)
    ensures InRange(a + b, from, to) == InRange(a, from, to) + InRange(b, from, to)
    decreases |b|
  {
    if b == [] {
      assert a + b == a;
    } else {
      assert (a + b)[..|a + b| - 1] == a + b[..|b| - 1];
      InRangeConcat(a, b[..|b| - 1], from, to);
    }
  }

  /** How many entries are numbered below `from`. */
  function Before(log: seq<LogEntry>, from: nat): (k: nat)
    ensures k <= |log|
    ensures k > 0 ==> log[k - 1].seqNo < from
    ensures forall i | k <= i < |log| :: log[i].seqNo >= from
  {
    if from == 0 then 0 else Pos(log, from - 1)
  }

  lemma {:induction false} NoneInRange(entries: seq<LogEntry>, from: nat, to: nat)
    requires Without(entries, from, to)
    ensures InRange(entries, from, to) == []
    decreases |entries|
  {
    if entries != [] {
      NoneInRange(entries[..|entries| - 1], from, to);
    }
  }

  lemma {:induction false} AllInRange(entries: seq<LogEntry>, from: nat, to: nat)
    requires Within(entries, from, to)
    ensures InRange(entries, from, to) == entries
    decreases |entries|
  {
    if entries != [] {
      AllInRange(entries[..|entries| - 1], from, to);
      LastInRange(entries, entries[..|entries| - 1], entries[|entries| - 1], from, to);
    }
  }

  lemma LastInRange(entries: seq<LogEntry>, init: seq<LogEntry>, last: LogEntry, from: nat, to: nat)
    requires entries == init + [last] && from <= last.seqNo <= to
    ensures InRange(entries, from, to) == InRange(init, from, to) + [last]
  {
    assert entries[..|entries| - 1] == init;
  }

  /** The part of a log between two numbers. */
  function Window(log: seq<LogEntry>, from: nat, to: nat): seq<LogEntry> {
    if Before(log, from) <= Pos(log, to) then log[Before(log, from)..Pos(log, to)] else []
  }

  predicate Within(entries: seq<LogEntry>, from: nat, to: nat) {
    forall i | 0 <= i < |entries| :: from <= entries[i].seqNo <= to
  }

  predicate Without(entries: seq<LogEntry>, from: nat, to: nat) {
    forall i | 0 <= i < |entries| :: !(from <= entries[i].seqNo <= to)
  }

  lemma Middle(left: seq<LogEntry>, middle: seq<LogEntry>, right: seq<LogEntry>, from: nat, to: nat)
    requires Without(left, from, to) && Within(middle, from, to) && Without(right, from, to)
    ensures InRange(left + middle + right, from, to) == middle
  {
    calc {
      InRange(left + middle + right, from, to);
      { InRangeConcat(left + middle, right, from, to); NoneInRange(right, from, to); }
      InRange(left + middle, from, to);
      { InRangeConcat(left, middle, from, to); NoneInRange(left, from, to); AllInRange(middle, from, to); }
      middle;
    }
  }

  lemma Smaller(log: seq<LogEntry>, k: nat, bound: nat)
    requires Increasing(log) && k <= |log| && (k > 0 ==> log[k - 1].seqNo <= bound)
    ensures forall i | 0 <= i < k :: log[i].seqNo <= bound
  {
  }

  lemma SmallerBefore(log: seq<LogEntry>, from: nat)
    requires Increasing(log)
    ensures forall i | 0 <= i < Before(log, from) :: log[i].seqNo < from
  {
    if from > 0 {
      Smaller(log, Before(log, from), from - 1);
    }
  }

  /** On an increasing log, keeping a range of numbers is taking a slice. */
  lemma InRangeIsWindow(log: seq<LogEntry>, from: nat, to: nat)
    requires Increasing(log)
    ensures InRange(log, from, to) == Window(log, from, to)
  {
    assert log[0..|log|] == log;
    WindowOfSlice(log, 0, |log|, from, to);
  }

  lemma SliceWithout(log: seq<LogEntry>, a: nat, n: nat, from: nat, to: nat)
    requires Increasing(log) && a <= n <= |log| && (n <= Before(log, from) || Pos(log, to) <= a || Pos(log, to) <= Before(log, from))
    ensures Without(log[a..n], from, to)
  {
    SmallerBefore(log, from);
    forall i | 0 <= i < n - a ensures !(from <= log[a..n][i].seqNo <= to) {
      assert log[a..n][i] == log[a + i];
    }
  }

  lemma SliceWithin(log: seq<LogEntry>, a: nat, n: nat, from: nat, to: nat)
    requires Increasing(log) && Before(log, from) <= a <= n <= Pos(log, to)
    ensures Within(log[a..n], from, to)
  {
    Smaller(log, Pos(log, to), to);
  }

  lemma MiddleSlice(log: seq<LogEntry>, a: nat, lo: nat, hi: nat, n: nat, from: nat, to: nat)
    requires Increasing(log) && a <= lo <= hi <= n <= |log|
    requires Before(log, from) <= lo && (a < lo ==> lo <= Before(log, from))
    requires hi <= Pos(log, to) && (hi < n ==> Pos(log, to) <= hi)
    ensures InRange(log[a..n], from, to) == log[lo..hi]
  {
    var left, middle, right := log[a..lo], log[lo..hi], log[hi..n];
    assert Without(left, from, to) by { if a < lo { SliceWithout(log, a, lo, from, to); } }
    assert Within(middle, from, to) by { SliceWithin(log, lo, hi, from, to); }
    assert Without(right, from, to) by { if hi < n { SliceWithout(log, hi, n, from, to); } }
    Middle(left, middle, right, from, to);
    Rejoin(log, a, lo, hi, n);
  }

  lemma Rejoin(log: seq<LogEntry>, a: nat, lo: nat, hi: nat, n: nat)
    requires a <= lo <= hi <= n <= |log|
    ensures log[a..n] == log[a..lo] + log[lo..hi] + log[hi..n]
  {
  }

  lemma WindowOfSlice(log: seq<LogEntry>, a: nat, n: nat, from: nat, to: nat)
    requires Increasing(log) && a <= n <= |log|
    ensures InRange(log[a..n], from, to) ==
            var lo := if Before(log, from) < a then a else Before(log, from);
            var hi := if n < Pos(log, to) then n else Pos(log, to);
            if lo <= hi then log[lo..hi] else []
  {
    var lo := if Before(log, from) < a then a else Before(log, from);
    var hi := if n < Pos(log, to) then n else Pos(log, to);
    if lo <= hi {
      MiddleSlice(log, a, lo, hi, n, from, to);
    } else {
      SliceWithout(log, a, n, from, to);
      NoneInRange(log[a..n], from, to);
    }
  }

  lemma Outside(block: seq<LogEntry>, from: nat, to: nat)
    requires block != [] && Increasing(block) && (block[|block| - 1].seqNo < from || block[0].seqNo > to)
    ensures InRange(block, from, to) == []
  {
    forall i | 0 <= i < |block| ensures block[0].seqNo <= block[i].seqNo <= block[|block| - 1].seqNo {
    }
    NoneInRange(block, from, to);
  }

  /** Segments that do not overlap the range hold nothing in it, so skipping them loses nothing. */
  lemma {:induction false} CollectIsInRange(b: Bucket, refs: seq<SegmentRef>, from: nat, to: nat)
    requires SegmentsOk(b, refs) && from <= to
    ensures Collect(b.segments, refs, from, to) == Some(InRange(Listed(b.segments, refs), from, to))
    decreases |refs|
  {
    if refs != [] {
      var init, last := refs[..|refs| - 1], refs[|refs| - 1];
      CollectIsInRange(b, init, from, to);
      assert SegmentOk(b, last);
      InRangeConcat(Listed(b.segments, init), b.segments[last.first], from, to);
      if !Overlaps(last, from, to) {
        Outside(b.segments[last.first], from, to);
        assert InRange(Listed(b.segments, init), from, to) + [] == InRange(Listed(b.segments, init), from, to);
      }
    }
  }

  /** What a read returns: the range, cut to what the manifest still lists. */
  lemma ReadLogExact(b: Bucket, m: Manifest, from: nat, to: Option<nat>)
    requires Increasing(b.log) && Covers(b, m)
    ensures ReadLogAt(b.segments, m, from, to) == 
            Some(InRange(b.log[Pos(b.log, CheckpointSeq(m))..Pos(b.log, m.headSeq)], from, Top(m, to)))
  {
    var listed, top := Listed(b.segments, m.segments), Top(m, to);
    IncreasingSlice(b.log, Pos(b.log, CheckpointSeq(m)), Pos(b.log, m.headSeq));
    if from <= top {
      CollectIsInRange(b, m.segments, from, top);
      SortedRange(listed, from, top);
    } else {
      NoneInRange(listed, from, top);
    }
  }

  lemma SortedRange(log: seq<LogEntry>, from: nat, to: nat)
    requires Increasing(log)
    ensures SortBySeq(InRange(log, from, to)) == InRange(log, from, to)
  {
    InRangeIsWindow(log, from, to);
    IncreasingWindow(log, from, to);
    SortedStays(InRange(log, from, to));
  }

  lemma IncreasingWindow(log: seq<LogEntry>, from: nat, to: nat)
    requires Increasing(log)
    ensures Increasing(Window(log, from, to))
  {
    if Before(log, from) <= Pos(log, to) {
      IncreasingSlice(log, Before(log, from), Pos(log, to));
    }
  }

  function Least(x: nat, y: nat): nat {
    if x < y then x else y
  }

  lemma {:induction false} InRangeIff(entries: seq<LogEntry>, from: nat, to: nat, e: LogEntry)
    ensures e in InRange(entries, from, to) <==> e in entries && from <= e.seqNo && e.seqNo <= to
    decreases |entries|
  {
    if entries != [] {
      InRangeIff(entries[..|entries| - 1], from, to, e);
      assert entries == entries[..|entries| - 1] + [entries[|entries| - 1]];
    }
  }

  lemma {:induction false} InRangeIncreasing(entries: seq<LogEntry>, from: nat, to: nat)
    requires Increasing(entries)
    ensures Increasing(InRange(entries, from, to))
    decreases |entries|
  {
    if entries != [] {
      var init, last := entries[..|entries| - 1], entries[|entries| - 1];
      InRangeIncreasing(init, from, to);
      var some := InRange(init, from, to);
      forall k | 0 <= k < |some| ensures some[k].seqNo < last.seqNo {
        InRangeIff(init, from, to, some[k]);
        assert some[k] in some;
        var m :| 0 <= m < |init| && init[m] == some[k];
      }
    }
  }

  /** The same in numbers: the result rises, and an entry is in it if and only if it was committed
      after the checkpoint and lies between the two bounds and not past the head. */
  lemma ReadLogMeans(b: Bucket, m: Manifest, from: nat, to: Option<nat>, e: LogEntry)
    requires Increasing(b.log) && Covers(b, m)
    ensures var r := ReadLogAt(b.segments, m, from, to);
            && r.Some? && Increasing(r.value)
            && (e in r.value <==>
                  && e in b.log[Pos(b.log, CheckpointSeq(m))..Pos(b.log, m.headSeq)]
                  && from <= e.seqNo <= m.headSeq && (to.Some? ==> e.seqNo <= to.value))
  {
    var live := b.log[Pos(b.log, CheckpointSeq(m))..Pos(b.log, m.headSeq)];
    ReadLogExact(b, m, from, to);
    IncreasingSlice(b.log, Pos(b.log, CheckpointSeq(m)), Pos(b.log, m.headSeq));
    InRangeIff(live, from, Top(m, to), e);
    InRangeIncreasing(live, from, Top(m, to));
  }

  /** A read fails if and only if the object of a segment that overlaps the range is missing. */
  lemma ReadFailsIff(segments: map<nat, seq<LogEntry>>, m: Manifest, from: nat, to: Option<nat>)
    ensures ReadLogAt(segments, m, from, to).None? <==>
            && from <= m.headSeq && (to.Some? ==> from <= to.value)
            && exists seg | seg in m.segments ::
                 seg.first !in segments && seg.last >= from && seg.first <= m.headSeq && (to.Some? ==> seg.first <= to.value)
  {
    CollectFailsIff(segments, m.segments, from, Top(m, to));
  }

  lemma {:induction false} CollectFailsIff(segments: map<nat, seq<LogEntry>>, refs: seq<SegmentRef>, from: nat, to: nat)
    ensures Collect(segments, refs, from, to).None? <==>
            exists seg | seg in refs :: seg.first !in segments && seg.last >= from && seg.first <= to
    decreases |refs|
  {
    if refs != [] {
      var init, last := refs[..|refs| - 1], refs[|refs| - 1];
      CollectFailsIff(segments, init, from, to);
      assert refs == init + [last];
      assert last in refs;
    }
  }

  /** The exact condition. A read returns every committed entry of the range if and only if none of
      them is folded into the checkpoint of the manifest the read itself fetched. Nothing reports
      the ones that are. */
  lemma ReadLogCompleteIff(b: Bucket, m: Manifest, from: nat, to: Option<nat>)
    requires Increasing(b.log) && Covers(b, m)
    ensures ReadLogAt(b.segments, m, from, to) == Some(Window(b.log, from, Top(m, to)))
            <==> Window(b.log, from, Least(Top(m, to), CheckpointSeq(m))) == []
  {
    ReadLogExact(b, m, from, to);
    FoldedIff(b.log, CheckpointSeq(m), m.headSeq, from, Top(m, to));
  }

  function Between(log: seq<LogEntry>, a: nat, n: nat): seq<LogEntry>
    requires n <= |log|
  {
    if a <= n then log[a..n] else []
  }

  lemma ShorterIff(log: seq<LogEntry>, start: nat, folded: nat, end: nat)
    requires end <= |log| && folded <= |log|
    ensures Between(log, if start < folded then folded else start, end) == Between(log, start, end)
            <==> Between(log, start, Least(end, folded)) == []
  {
  }

  lemma LeastPos(log: seq<LogEntry>, top: nat, c: nat)
    requires Increasing(log)
    ensures Pos(log, Least(top, c)) == Least(Pos(log, top), Pos(log, c))
  {
    if top <= c {
      PosMonotone(log, top, c);
    } else {
      PosMonotone(log, c, top);
    }
  }

  lemma FoldedIff(log: seq<LogEntry>, c: nat, h: nat, from: nat, top: nat)
    requires Increasing(log) && Pos(log, c) <= Pos(log, h) && top <= h
    ensures InRange(log[Pos(log, c)..Pos(log, h)], from, top) == Window(log, from, top)
            <==> Window(log, from, Least(top, c)) == []
  {
    WindowOfSlice(log, Pos(log, c), Pos(log, h), from, top);
    PosMonotone(log, top, h);
    LeastPos(log, top, c);
    ShorterIff(log, Before(log, from), Pos(log, c), Pos(log, top));
  }

  /** A caller that reads right after the checkpoint misses nothing. */
  lemma {:induction false} InRangeHas(entries: seq<LogEntry>, from: nat, to: nat, e: LogEntry)
    ensures e in InRange(entries, from, to) <==> e in entries && from <= e.seqNo <= to
    decreases |entries|
  {
    if entries != [] {
      InRangeHas(entries[..|entries| - 1], from, to, e);
    }
  }

  lemma SliceMembers(log: seq<LogEntry>, c: nat, h: nat, e: LogEntry)
    requires Increasing(log) && Pos(log, c) <= Pos(log, h)
    ensures e in log[Pos(log, c)..Pos(log, h)] <==> e in log && c < e.seqNo <= h
  {
    Smaller(log, Pos(log, c), c);
    Smaller(log, Pos(log, h), h);
    Members(log, Pos(log, c), Pos(log, h), c, h, e);
  }

  lemma Members(log: seq<LogEntry>, a: nat, n: nat, c: nat, h: nat, e: LogEntry)
    requires a <= n <= |log|
    requires forall i | 0 <= i < |log| :: log[i].seqNo > c <==> a <= i
    requires forall i | 0 <= i < |log| :: log[i].seqNo <= h <==> i < n
    ensures e in log[a..n] <==> e in log && c < e.seqNo <= h
  {
    if e in log && c < e.seqNo <= h {
      var i :| 0 <= i < |log| && log[i] == e;
      assert log[a..n][i - a] == e;
    }
  }
}
