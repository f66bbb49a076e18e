/**
  `ls-refs`: the refs under a list of prefixes, found by one binary search for each prefix on a
  name-sorted snapshot and merged, and the HEAD line.
 */
module LsRefs {
  import opened Prelude
  import opened Names
  import opened Wal
  import opened RefsCache

  datatype Line = Line(name: string, oid: string, symrefTarget: Option<string>)

  /** Half-open interval of positions in the snapshot. */
  datatype Range = Range(start: nat, end: nat)

  predicate AnyPrefix(prefixes: seq<string>, name: string) {
    exists i | 0 <= i < |prefixes| :: prefixes[i] <= name
  }

  /** The simple thing: look at every ref. */
  function Selected(refs: seq<Ref>, prefixes: seq<string>): seq<Ref> {
    if refs == [] then []
    else
      var last := refs[|refs| - 1];
      Selected(refs[..|refs| - 1], prefixes) + if prefixes == [] || AnyPrefix(prefixes, last.name) then [last] else []
  }

  // ---------------------------------------------------------------------------
  // Prefixes and the order of names
  // ---------------------------------------------------------------------------

  lemma {:induction false} ExtensionNotLess(p: string, name: string)
    requires p <= name
    ensures !Less(name, p)
    decreases |p|
  {
    if p != "" {
      ExtensionNotLess(p[1..], name[1..]);
    }
  }

  /** Past the names that start with `p` there are no more of them. */
  lemma {:induction false} PastThePrefix(p: string, x: string, y: string)
    requires !Less(x, p) && !(p <= x) && Less(x, y)
    ensures !(p <= y)
    decreases |p|
  {
    if p != "" && x != "" && y != "" && x[0] == p[0] == y[0] {
      assert p == [p[0]] + p[1..] && x == [x[0]] + x[1..] && y == [y[0]] + y[1..];
      PastThePrefix(p[1..], x[1..], y[1..]);
    }
  }

  method PartitionPoint(refs: seq<Ref>, p: string) returns (i: nat)
    requires Sorted(refs)
    ensures i <= |refs|
    ensures forall k | 0 <= k < i :: Less(refs[k].name, p)
    ensures forall k | i <= k < |refs| :: !Less(refs[k].name, p)
  {
    var lo, hi := 0, |refs|;
    while lo < hi
      invariant 0 <= lo <= hi <= |refs|
      invariant forall k | 0 <= k < lo :: Less(refs[k].name, p)
      invariant forall k | hi <= k < |refs| :: !Less(refs[k].name, p)
    {
      var mid := lo + (hi - lo) / 2;
      if Less(refs[mid].name, p) {
        forall k | 0 <= k < mid ensures Less(refs[k].name, p) {
          LessTransitive(refs[k].name, refs[mid].name, p);
        }
        lo := mid + 1;
      } else {
        forall k | mid < k < |refs| ensures !Less(refs[k].name, p) {
          if Less(refs[k].name, p) {
            LessTransitive(refs[mid].name, refs[k].name, p);
          }
        }
        hi := mid;
      }
    }
    i := lo;
  }

  predicate InRange(r: Range, k: nat) {
    r.start <= k < r.end
  }

  /** The positions of the names that start with `p`. */
  method RangeOf(refs: seq<Ref>, p: string) returns (r: Range)
    requires Sorted(refs)
    ensures r.start <= r.end <= |refs|
    ensures forall k | 0 <= k < |refs| :: InRange(r, k) <==> p <= refs[k].name
  {
    var start := PartitionPoint(refs, p);
    var end := start;
    while end < |refs| && p <= refs[end].name
      invariant start <= end <= |refs|
      invariant forall k | start <= k < end :: p <= refs[k].name
    {
      end := end + 1;
    }
    r := Range(start, end);
    forall k | 0 <= k < |refs| ensures InRange(r, k) <==> p <= refs[k].name {
      if k < start && p <= refs[k].name {
        ExtensionNotLess(p, refs[k].name);
      }
      if end < k {
        PastThePrefix(p, refs[end].name, refs[k].name);
      }
    }
  }

  // ---------------------------------------------------------------------------
  // Sorting and merging ranges
  // ---------------------------------------------------------------------------

  predicate Before(a: Range, b: Range) {
    a.start < b.start || (a.start == b.start && a.end <= b.end)
  }

  predicate Ordered(ranges: seq<Range>) {
    forall i, j | 0 <= i < j < |ranges| :: Before(ranges[i], ranges[j])
  }

  function Insert(ranges: seq<Range>, r: Range): seq<Range> {
    if ranges == [] || Before(ranges[|ranges| - 1], r) then ranges + [r]
    else Insert(ranges[..|ranges| - 1], r) + [ranges[|ranges| - 1]]
  }

  function SortRanges(ranges: seq<Range>): seq<Range> {
    if ranges == [] then [] else Insert(SortRanges(ranges[..|ranges| - 1]), ranges[|ranges| - 1])
  }

  lemma {:induction false} InsertKeepsOrder(ranges: seq<Range>, r: Range)
    requires Ordered(ranges)
    ensures Ordered(Insert(ranges, r)) && forall x :: x in Insert(ranges, r) <==> x in ranges || x == r
    decreases |ranges|
  {
    if ranges != [] {
      var init, last := ranges[..|ranges| - 1], ranges[|ranges| - 1];
      assert ranges == init + [last];
      if !Before(last, r) {
        InsertKeepsOrder(init, r);
        var inner := Insert(init, r);
        forall i | 0 <= i < |inner| ensures Before(inner[i], last) {
          assert inner[i] in inner;
          if inner[i] in init {
            var k :| 0 <= k < |init| && init[k] == inner[i];
            assert ranges[k] == inner[i];
          }
        }
      }
    }
  }

  lemma {:induction false} SortKeepsRanges(ranges: seq<Range>)
    ensures Ordered(SortRanges(ranges)) && forall x :: x in SortRanges(ranges) <==> x in ranges
    decreases |ranges|
  {
    if ranges != [] {
      SortKeepsRanges(ranges[..|ranges| - 1]);
      InsertKeepsOrder(SortRanges(ranges[..|ranges| - 1]), ranges[|ranges| - 1]);
      assert ranges == ranges[..|ranges| - 1] + [ranges[|ranges| - 1]];
    }
  }

  predicate Covered(ranges: seq<Range>, k: nat) {
    exists i | 0 <= i < |ranges| :: InRange(ranges[i], k)
  }

  /** The refs at the positions that some range covers, in order and once each. */
  function Picked(refs: seq<Ref>, ranges: seq<Range>, n: nat): seq<Ref>
    requires n <= |refs|
  {
    if n == 0 then []
    else Picked(refs, ranges, n - 1) + if Covered(ranges, n - 1) then [refs[n - 1]] else []
  }

  lemma {:induction false} PickedSame(refs: seq<Ref>, a: seq<Range>, b: seq<Range>, n: nat)
    requires n <= |refs| && forall k | 0 <= k < n :: Covered(a, k) <==> Covered(b, k)
    ensures Picked(refs, a, n) == Picked(refs, b, n)
  {
    if n > 0 {
      PickedSame(refs, a, b, n - 1);
    }
  }

  lemma {:induction false} PickedBlock(refs: seq<Ref>, ranges: seq<Range>, lo: nat, hi: nat)
    requires lo <= hi <= |refs| && forall k | lo <= k < hi :: Covered(ranges, k)
    ensures Picked(refs, ranges, hi) == Picked(refs, ranges, lo) + refs[lo..hi]
    decreases hi
  {
    if lo < hi {
      PickedBlock(refs, ranges, lo, hi - 1);
      assert refs[lo..hi] == refs[lo..hi - 1] + [refs[hi - 1]];
    }
  }

  lemma {:induction false} PickedNone(refs: seq<Ref>, ranges: seq<Range>, lo: nat, hi: nat)
    requires lo <= hi <= |refs| && forall k | lo <= k < hi :: !Covered(ranges, k)
    ensures Picked(refs, ranges, hi) == Picked(refs, ranges, lo)
    decreases hi
  {
    if lo < hi {
      PickedNone(refs, ranges, lo, hi - 1);
    }
  }

  lemma CoveredSnoc(ranges: seq<Range>, r: Range, k: nat)
    ensures Covered(ranges + [r], k) <==> Covered(ranges, k) || InRange(r, k)
  {
    var more := ranges + [r];
    assert more[|ranges|] == r && forall i | 0 <= i < |ranges| :: more[i] == ranges[i];
  }

  /** One more range: what it adds is a block past everything picked so far. */
  lemma MergeStep(refs: seq<Ref>, ranges: seq<Range>, r: Range, cursor: nat)
    requires cursor <= |refs| && r.end <= |refs|
    requires forall k: nat | Covered(ranges, k) :: k < cursor
    requires forall k | r.start <= k < cursor :: Covered(ranges, k)
    ensures var a := if r.start < cursor then cursor else r.start;
            Picked(refs, ranges + [r], |refs|) == Picked(refs, ranges, |refs|) + if a < r.end then refs[a..r.end] else []
  {
    var more := ranges + [r];
    var a := if r.start < cursor then cursor else r.start;
    forall k: nat ensures Covered(more, k) <==> Covered(ranges, k) || InRange(r, k) {
      CoveredSnoc(ranges, r, k);
    }
    if a < r.end {
      PickedSame(refs, more, ranges, a);
      PickedBlock(refs, more, a, r.end);
      PickedNone(refs, more, r.end, |refs|);
      PickedNone(refs, ranges, a, |refs|);
    } else {
      PickedSame(refs, more, ranges, |refs|);
      assert Picked(refs, ranges, |refs|) + [] == Picked(refs, ranges, |refs|);
    }
  }

  method MergeRanges(refs: seq<Ref>, ranges: seq<Range>) returns (out: seq<Ref>)
    requires Ordered(ranges) && forall r | r in ranges :: r.start <= r.end <= |refs|
    ensures out == Picked(refs, ranges, |refs|)
  {
    out := [];
    var cursor := 0;
    PickedNone(refs, [], 0, |refs|);
    for n := 0 to |ranges|
      invariant out == Picked(refs, ranges[..n], |refs|) && cursor <= |refs|
      invariant forall k: nat | Covered(ranges[..n], k) :: k < cursor
      invariant cursor == 0 || exists i | 0 <= i < n :: ranges[i].end == cursor
    {
      var r := ranges[n];
      assert r in ranges && ranges[..n + 1] == ranges[..n] + [r];
      if cursor > 0 {
        var i :| 0 <= i < n && ranges[i].end == cursor;
        assert Before(ranges[i], r);
        forall k | r.start <= k < cursor ensures Covered(ranges[..n], k) {
          assert InRange(ranges[..n][i], k);
        }
      }
      MergeStep(refs, ranges[..n], r, cursor);
      var a := if r.start < cursor then cursor else r.start;
      if a < r.end {
        out := out + refs[a..r.end];
        cursor := r.end;
      } else {
        assert out + [] == out;
      }
      ghost var merged := ranges[..n + 1];
      forall k: nat | Covered(merged, k) ensures k < cursor {
        CoveredSnoc(ranges[..n], r, k);
      }
    }
    assert ranges[..|ranges|] == ranges;
  }

  lemma {:induction false} PickedIsSelected(refs: seq<Ref>, ranges: seq<Range>, prefixes: seq<string>, n: nat)
    requires n <= |refs| && prefixes != []
    requires forall k | 0 <= k < |refs| :: Covered(ranges, k) <==> AnyPrefix(prefixes, refs[k].name)
    ensures Picked(refs, ranges, n) == Selected(refs[..n], prefixes)
  {
    if n > 0 {
      PickedIsSelected(refs, ranges, prefixes, n - 1);
      assert refs[..n][..n - 1] == refs[..n - 1];
    }
  }

  lemma {:induction false} SelectedAll(refs: seq<Ref>)
    ensures Selected(refs, []) == refs
    decreases |refs|
  {
    if refs != [] {
      SelectedAll(refs[..|refs| - 1]);
    }
  }

  /** The fast selection is the simple filter: the same refs, once each, in order. */
  method Select(refs: seq<Ref>, prefixes: seq<string>) returns (out: seq<Ref>)
    requires Sorted(refs)
    ensures out == Selected(refs, prefixes)
  {
    if prefixes == [] {
      SelectedAll(refs);
      return refs;
    }
    var ranges: seq<Range> := [];
    for i := 0 to |prefixes|
      invariant |ranges| == i && forall r | r in ranges :: r.start <= r.end <= |refs|
      invariant forall j, k | 0 <= j < i && 0 <= k < |refs| :: InRange(ranges[j], k) <==> prefixes[j] <= refs[k].name
    {
      var r := RangeOf(refs, prefixes[i]);
      ranges := ranges + [r];
    }
    SortKeepsRanges(ranges);
    var sorted := SortRanges(ranges);
    out := MergeRanges(refs, sorted);
    forall k | 0 <= k < |refs| ensures Covered(sorted, k) <==> AnyPrefix(prefixes, refs[k].name) {
      SameCover(ranges, sorted, k);
    }
    PickedIsSelected(refs, sorted, prefixes, |refs|);
    assert refs[..|refs|] == refs;
  }

  lemma SameCover(a: seq<Range>, b: seq<Range>, k: nat)
    requires forall x :: x in a <==> x in b
    ensures Covered(a, k) <==> Covered(b, k)
  {
    if Covered(a, k) {
      var i :| 0 <= i < |a| && InRange(a[i], k);
      assert a[i] in b;
      var j :| 0 <= j < |b| && b[j] == a[i];
    }
    if Covered(b, k) {
      var i :| 0 <= i < |b| && InRange(b[i], k);
      assert b[i] in a;
      var j :| 0 <= j < |a| && a[j] == b[i];
    }
  }

  // ---------------------------------------------------------------------------
  // The answer
  // ---------------------------------------------------------------------------

  function RefLines(refs: seq<Ref>): seq<Line> {
    if refs == [] then []
    else
      var last := refs[|refs| - 1];
      RefLines(refs[..|refs| - 1]) + if last.name == HEAD then [] else [Line(last.name, last.oid, None)]
  }

  /** HEAD is listed if a prefix matches it: with its object wherever its target is, or as unborn
      if the client asked for that and HEAD has a target. */
  function HeadLines(s: RefState, prefixes: seq<string>, unborn: bool): seq<Line> {
    var target := if s.headTarget == "" then None else Some(s.headTarget);
    if prefixes != [] && !AnyPrefix(prefixes, HEAD) then []
    else
      match Resolve(s, HEAD)
      case Some(oid) => [Line(HEAD, oid, target)]
      case None => if unborn && target.Some? then [Line(HEAD, "unborn", target)] else []
  }

  method RenderRefs(selected: seq<Ref>) returns (lines: seq<Line>)
    ensures lines == RefLines(selected)
  {
    lines := [];
    for i := 0 to |selected|
      invariant lines == RefLines(selected[..i])
    {
      assert selected[..i + 1][..i] == selected[..i];
      if selected[i].name != HEAD {
        lines := lines + [Line(selected[i].name, selected[i].oid, None)];
      }
    }
    assert selected[..|selected|] == selected;
  }

  method ResolveHead(snapshot: Snapshot) returns (oid: Option<string>)
    requires Sorted(snapshot.refs)
    ensures oid == Resolve(AsState(snapshot), HEAD)
  {
    if snapshot.headTarget == "" {
      return if snapshot.headOid == "" then None else Some(snapshot.headOid);
    }
    var found, i := Search(snapshot.refs, snapshot.headTarget);
    SearchIsLookup(snapshot.refs, snapshot.headTarget, found, i);
    return if found then Some(snapshot.refs[i].oid) else None;
  }

  predicate Wanted(prefixes: seq<string>, name: string) {
    prefixes == [] || exists p | p in prefixes :: p <= name
  }

  lemma WantedIff(prefixes: seq<string>, name: string)
    ensures Wanted(prefixes, name) <==> prefixes == [] || AnyPrefix(prefixes, name)
  {
    if p :| p in prefixes && p <= name {
      var i :| 0 <= i < |prefixes| && prefixes[i] == p;
    }
    if i :| 0 <= i < |prefixes| && prefixes[i] <= name {
      assert prefixes[i] in prefixes;
    }
  }

  lemma {:induction false} SelectedIff(refs: seq<Ref>, prefixes: seq<string>, r: Ref)
    ensures r in Selected(refs, prefixes) <==> r in refs && Wanted(prefixes, r.name)
    decreases |refs|
  {
    if refs != [] {
      SelectedIff(refs[..|refs| - 1], prefixes, r);
      WantedIff(prefixes, r.name);
      assert refs == refs[..|refs| - 1] + [refs[|refs| - 1]];
    }
  }

  lemma {:induction false} LinesIff(refs: seq<Ref>, line: Line)
    ensures line in RefLines(refs) <==> line.symrefTarget == None && line.name != "HEAD" && Ref(line.name, line.oid) in refs
    decreases |refs|
  {
    if refs != [] {
      LinesIff(refs[..|refs| - 1], line);
      assert refs == refs[..|refs| - 1] + [refs[|refs| - 1]];
    }
  }

  predicate SortedLines(lines: seq<Line>) {
    forall i, j | 0 <= i < j < |lines| :: Less(lines[i].name, lines[j].name)
  }

  lemma {:induction false} SelectedSorted(refs: seq<Ref>, prefixes: seq<string>)
    requires Sorted(refs)
    ensures Sorted(Selected(refs, prefixes))
    decreases |refs|
  {
    if refs != [] {
      var init, last := refs[..|refs| - 1], refs[|refs| - 1];
      SelectedSorted(init, prefixes);
      var some := Selected(init, prefixes);
      forall k | 0 <= k < |some| ensures Less(some[k].name, last.name) {
        SelectedIff(init, prefixes, some[k]);
        assert some[k] in some;
        var m :| 0 <= m < |init| && init[m] == some[k];
      }
    }
  }

  lemma {:induction false} LinesSorted(refs: seq<Ref>)
    requires Sorted(refs)
    ensures SortedLines(RefLines(refs))
    decreases |refs|
  {
    if refs != [] {
      var init, last := refs[..|refs| - 1], refs[|refs| - 1];
      LinesSorted(init);
      var some := RefLines(init);
      forall k | 0 <= k < |some| ensures Less(some[k].name, last.name) {
        LinesIff(init, some[k]);
        assert some[k] in some;
        var m :| 0 <= m < |init| && init[m] == Ref(some[k].name, some[k].oid);
      }
    }
  }

  /** The HEAD line in every case. */
  lemma HeadLineIs(s: RefState, prefixes: seq<string>, unborn: bool)
    ensures HeadLines(s, prefixes, unborn) ==
            if !Wanted(prefixes, "HEAD") then []
            else if s.headTarget == "" then (if s.headOid == "" then [] else [Line("HEAD", s.headOid, None)])
            else if s.headTarget in s.refs then [Line("HEAD", s.refs[s.headTarget], Some(s.headTarget))]
            else if unborn then [Line("HEAD", "unborn", Some(s.headTarget))] else []
  {
    WantedIff(prefixes, "HEAD");
  }

  /** The answer: the refs some prefix asks for, each once, by name, with their objects, and then the
      HEAD line. */
  lemma AnswerIs(snapshot: Snapshot, prefixes: seq<string>, line: Line)
    requires Sorted(snapshot.refs)
    ensures SortedLines(RefLines(Selected(snapshot.refs, prefixes)))
    ensures line in RefLines(Selected(snapshot.refs, prefixes)) <==>
            && line.symrefTarget == None && line.name != "HEAD"
            && Ref(line.name, line.oid) in snapshot.refs && Wanted(prefixes, line.name)
  {
    SelectedSorted(snapshot.refs, prefixes);
    LinesSorted(Selected(snapshot.refs, prefixes));
    LinesIff(Selected(snapshot.refs, prefixes), line);
    SelectedIff(snapshot.refs, prefixes, Ref(line.name, line.oid));
  }

  method ListRefs(snapshot: Snapshot, prefixes: seq<string>, unborn: bool) returns (lines: seq<Line>)
    requires Sorted(snapshot.refs)
    ensures lines == RefLines(Selected(snapshot.refs, prefixes)) + HeadLines(AsState(snapshot), prefixes, unborn)
  {
    var headOid := ResolveHead(snapshot);
    var selected := Select(snapshot.refs, prefixes);
    lines := RenderRefs(selected);
    var target := if snapshot.headTarget == "" then None else Some(snapshot.headTarget);
    var head := [];
    if prefixes == [] || AnyPrefix(prefixes, HEAD) {
      if headOid.Some? {
        head := [Line(HEAD, headOid.value, target)];
      } else if unborn && target.Some? {
        head := [Line(HEAD, "unborn", target)];
      }
    }
    lines := lines + head;
  }
}
