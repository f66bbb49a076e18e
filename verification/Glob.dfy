/**
  Glob patterns in which `*` stands for any text. Two matchers, one for ref filters and one for
  repository scopes, find each literal part at its leftmost place; both are exact.
 */
module Glob {
  import opened Prelude

  /** What a pattern means, character by character. */
  ghost predicate Matches(pattern: string, s: string)
    decreases |pattern|
  {
    if pattern == "" then s == ""
    else if pattern[0] == '*' then exists k | 0 <= k <= |s| :: Matches(pattern[1..], s[k..])
    else s != "" && s[0] == pattern[0] && Matches(pattern[1..], s[1..])
  }

  // ---------------------------------------------------------------------------
  // Parts
  // ---------------------------------------------------------------------------

  /** The literal parts between stars: one more than there are stars. */
  function Split(pattern: string): (parts: seq<string>)
    ensures parts != []
  {
    if pattern == "" then [""]
    else
      var rest := Split(pattern[1..]);
      if pattern[0] == '*' then [""] + rest else [[pattern[0]] + rest[0]] + rest[1..]
  }

  /** The string is the parts in order, with some text between each two. */
  ghost predicate Spread(parts: seq<string>, s: string)
    requires parts != []
    decreases |parts|, 0
  {
    if |parts| == 1 then s == parts[0]
    else parts[0] <= s && Anywhere(parts[1..], s[|parts[0]|..])
  }

  /** The same after some leading text. */
  ghost predicate Anywhere(parts: seq<string>, s: string)
    requires parts != []
    decreases |parts|, 1
  {
    exists k | 0 <= k <= |s| :: Spread(parts, s[k..])
  }

  lemma {:induction false} SpreadIsMatch(pattern: string, s: string)
    ensures Matches(pattern, s) <==> Spread(Split(pattern), s)
    decreases |pattern|
  {
    if pattern != "" {
      var rest := Split(pattern[1..]);
      if pattern[0] == '*' {
        forall k | 0 <= k <= |s| ensures Matches(pattern[1..], s[k..]) <==> Spread(rest, s[k..]) {
          SpreadIsMatch(pattern[1..], s[k..]);
        }
        assert s[0..] == s;
        assert Split(pattern)[1..] == rest;
      } else if s != "" && s[0] == pattern[0] {
        SpreadIsMatch(pattern[1..], s[1..]);
        FirstLetter(pattern[0], rest, s);
      }
    }
  }

  lemma FirstLetter(c: char, rest: seq<string>, s: string)
    requires rest != [] && s != "" && s[0] == c
    ensures Spread([[c] + rest[0]] + rest[1..], s) <==> Spread(rest, s[1..])
  {
    var parts := [[c] + rest[0]] + rest[1..];
    assert s == [c] + s[1..];
    if |rest| > 1 {
      assert parts[1..] == rest[1..];
      if rest[0] <= s[1..] {
        assert s[|parts[0]|..] == s[1..][|rest[0]|..];
      }
    }
  }

  // ---------------------------------------------------------------------------
  // The leftmost place is as good as any
  // ---------------------------------------------------------------------------

  predicate OccursAt(s: string, part: string, k: nat) {
    k <= |s| && part <= s[k..]
  }

  /** `str::find`: the first place where `part` occurs. */
  method Find(s: string, part: string) returns (r: Option<nat>)
    ensures r.Some? ==> OccursAt(s, part, r.value) && forall k | 0 <= k < r.value :: !OccursAt(s, part, k)
    ensures r.None? ==> forall k | 0 <= k <= |s| :: !OccursAt(s, part, k)
  {
    for k := 0 to |s| + 1
      invariant forall j | 0 <= j < k :: !OccursAt(s, part, j)
    {
      if part <= s[k..] {
        return Some(k);
      }
    }
    return None;
  }

  lemma AnywhereLater(parts: seq<string>, s: string, i: nat)
    requires parts != [] && i <= |s| && Anywhere(parts, s[i..])
    ensures Anywhere(parts, s)
  {
    var k :| 0 <= k <= |s| - i && Spread(parts, s[i..][k..]);
    assert s[i..][k..] == s[i + k..];
  }

  /** Exchange: if the parts fit with the first one further right, they fit with it leftmost. */
  lemma LeftmostSuffices(parts: seq<string>, s: string, at: nat)
    requires |parts| > 1 && OccursAt(s, parts[0], at) && forall k | 0 <= k < at :: !OccursAt(s, parts[0], k)
    ensures Anywhere(parts, s) <==> Anywhere(parts[1..], s[at + |parts[0]|..])
  {
    var n := |parts[0]|;
    if Anywhere(parts, s) {
      var k :| 0 <= k <= |s| && Spread(parts, s[k..]);
      assert OccursAt(s, parts[0], k);
      assert s[k..][n..] == s[at + n..][k - at..];
      AnywhereLater(parts[1..], s[at + n..], k - at);
    }
    if Anywhere(parts[1..], s[at + n..]) {
      assert s[at..][n..] == s[at + n..];
      assert Spread(parts, s[at..]);
    }
  }

  lemma NowhereFails(parts: seq<string>, s: string)
    requires |parts| > 1 && forall k | 0 <= k <= |s| :: !OccursAt(s, parts[0], k)
    ensures !Anywhere(parts, s)
  {
    forall k | 0 <= k <= |s| ensures !Spread(parts, s[k..]) {
      assert !OccursAt(s, parts[0], k);
    }
  }

  lemma LastPart(part: string, s: string)
    ensures Anywhere([part], s) <==> EndsWith(s, part)
  {
    if EndsWith(s, part) {
      assert Spread([part], s[|s| - |part|..]);
    }
    if Anywhere([part], s) {
      var k :| 0 <= k <= |s| && Spread([part], s[k..]);
      assert k == |s| - |part|;
    }
  }

  /** Two stars in a row are one. */
  lemma EmptyPart(parts: seq<string>, s: string)
    requires |parts| > 1 && parts[0] == ""
    ensures Anywhere(parts, s) <==> Anywhere(parts[1..], s)
  {
    assert OccursAt(s, "", 0);
    LeftmostSuffices(parts, s, 0);
    assert s[0..] == s;
  }

  // ---------------------------------------------------------------------------
  // The ref filter's matcher
  // ---------------------------------------------------------------------------

  method GlobMatch(pattern: string, s: string) returns (r: bool)
    ensures r <==> Matches(pattern, s)
  {
    var parts := Split(pattern);
    FirstPart(pattern, s);
    if |parts| == 1 {
      return pattern == s;
    }
    if !(parts[0] <= s) {
      return false;
    }
    r := MatchRest(parts, s, |parts[0]|);
  }

  /** The parts after the first, each at its leftmost place, the last one at the end. */
  method MatchRest(parts: seq<string>, s: string, start: nat) returns (r: bool)
    requires |parts| > 1 && start <= |s|
    ensures r <==> Anywhere(parts[1..], s[start..])
  {
    var pos: nat := start;
    var i := 1;
    while i < |parts|
      invariant 1 <= i < |parts| && pos <= |s|
      invariant Anywhere(parts[1..], s[start..]) <==> Anywhere(parts[i..], s[pos..])
      decreases |parts| - i
    {
      var part := parts[i];
      if i == |parts| - 1 {
        assert parts[i..] == [part];
        LastPart(part, s[pos..]);
        return |s| >= pos && EndsWith(s[pos..], part);
      }
      if part == "" {
        SkipPart(parts, i, s[pos..]);
      } else {
        var at := Find(s[pos..], part);
        if at.None? {
          NowhereFails(parts[i..], s[pos..]);
          return false;
        }
        PlacePart(parts, i, s, pos, at.value);
        pos := pos + at.value + |part|;
      }
      i := i + 1;
    }
    return true;
  }

  lemma FirstPart(pattern: string, s: string)
    ensures |Split(pattern)| == 1 ==> (Matches(pattern, s) <==> pattern == s)
    ensures var parts := Split(pattern);
            |parts| > 1 ==> (Matches(pattern, s) <==> parts[0] <= s && Anywhere(parts[1..], s[|parts[0]|..]))
  {
    SpreadIsMatch(pattern, s);
    if |Split(pattern)| == 1 {
      OnlyPart(pattern);
    }
  }

  lemma SkipPart(parts: seq<string>, i: nat, s: string)
    requires i < |parts| - 1 && parts[i] == ""
    ensures Anywhere(parts[i..], s) <==> Anywhere(parts[i + 1..], s)
  {
    assert parts[i..][1..] == parts[i + 1..];
    EmptyPart(parts[i..], s);
  }

  lemma PlacePart(parts: seq<string>, i: nat, s: string, pos: nat, at: nat)
    requires i < |parts| - 1 && pos <= |s| && at <= |s| - pos && OccursAt(s[pos..], parts[i], at)
    requires forall k | 0 <= k < at :: !OccursAt(s[pos..], parts[i], k)
    ensures pos + at + |parts[i]| <= |s|
    ensures Anywhere(parts[i..], s[pos..]) <==> Anywhere(parts[i + 1..], s[pos + at + |parts[i]|..])
  {
    assert parts[i..][1..] == parts[i + 1..];
    LeftmostSuffices(parts[i..], s[pos..], at);
    assert s[pos..][at + |parts[i]|..] == s[pos + at + |parts[i]|..];
  }

  lemma {:induction false} OnlyPart(pattern: string)
    requires |Split(pattern)| == 1
    ensures Split(pattern) == [pattern] && '*' !in pattern
    decreases |pattern|
  {
    if pattern != "" {
      OnlyPart(pattern[1..]);
      assert pattern == [pattern[0]] + pattern[1..];
    }
  }

  method Keep(globs: seq<string>, name: string, headTarget: string) returns (r: bool)
    ensures r <==> (headTarget != "" && name == headTarget)
                   || (globs == [] && ("refs/heads/" <= name || "refs/tags/" <= name))
                   || (exists g | g in globs :: Matches(g, name))
  {
    if headTarget != "" && name == headTarget {
      return true;
    }
    if globs == [] {
      return "refs/heads/" <= name || "refs/tags/" <= name;
    }
    for i := 0 to |globs|
      invariant forall g | g in globs[..i] :: !Matches(g, name)
    {
      var matched := GlobMatch(globs[i], name);
      if matched {
        return true;
      }
    }
    return false;
  }

  // ---------------------------------------------------------------------------
  // The scope matcher
  // ---------------------------------------------------------------------------

  function NonEmpty(parts: seq<string>): seq<string> {
    if parts == [] then []
    else (if parts[0] == "" then [] else [parts[0]]) + NonEmpty(parts[1..])
  }

  function Last(parts: seq<string>): string
    requires parts != []
  {
    parts[|parts| - 1]
  }

  /** Non-empty parts still to place after a star; an unanchored end adds a final star. */
  function Pending(parts: seq<string>, anchoredEnd: bool): seq<string> {
    if anchoredEnd then parts else parts + [""]
  }

  lemma {:induction false} DropEmpty(parts: seq<string>, s: string)
    requires parts != []
    ensures var pending := Pending(NonEmpty(parts), Last(parts) != "");
            pending != [] && (Anywhere(parts, s) <==> Anywhere(pending, s))
    decreases |parts|
  {
    if |parts| == 1 {
      assert NonEmpty(parts[1..]) == [];
      assert [] + [""] == [""] && [parts[0]] + [] == parts;
    } else {
      var rest := Pending(NonEmpty(parts[1..]), Last(parts[1..]) != "");
      forall t ensures rest != [] && (Anywhere(parts[1..], t) <==> Anywhere(rest, t)) {
        DropEmpty(parts[1..], t);
      }
      assert Last(parts[1..]) == Last(parts);
      DropEmpty(parts[1..], s);
      if parts[0] == "" {
        EmptyPart(parts, s);
        assert NonEmpty(parts) == NonEmpty(parts[1..]);
      } else {
        assert ([parts[0]] + rest)[1..] == rest;
        SameTail(parts, [parts[0]] + rest, s);
        assert Pending(NonEmpty(parts), Last(parts) != "") == [parts[0]] + rest;
      }
    }
  }

  lemma SameTail(a: seq<string>, b: seq<string>, s: string)
    requires |a| > 1 && |b| > 1 && a[0] == b[0]
    requires forall t :: Anywhere(a[1..], t) <==> Anywhere(b[1..], t)
    ensures Anywhere(a, s) <==> Anywhere(b, s)
  {
    forall k | 0 <= k <= |s| ensures Spread(a, s[k..]) <==> Spread(b, s[k..]) {
    }
  }

  lemma {:induction false} StarsAndEnds(pattern: string)
    ensures |Split(pattern)| > 1 <==> '*' in pattern
    ensures '*' in pattern ==> (Split(pattern)[0] == "" <==> pattern[0] == '*')
    ensures '*' in pattern ==> (Last(Split(pattern)) == "" <==> pattern[|pattern| - 1] == '*')
    decreases |pattern|
  {
    if pattern != "" {
      StarsAndEnds(pattern[1..]);
      assert pattern == [pattern[0]] + pattern[1..];
      if pattern[0] == '*' && '*' !in pattern[1..] {
        OnlyPart(pattern[1..]);
      }
    }
  }

  /** How the anchors and the non-empty parts say the same as the split. */
  lemma Anchors(parts: seq<string>, s: string)
    requires |parts| > 1
    ensures var named, anchoredEnd := NonEmpty(parts), Last(parts) != "";
            if parts[0] != "" then
              && named != [] && named[0] == parts[0] && (anchoredEnd ==> |named| > 1)
              && (Spread(parts, s) <==>
                  parts[0] <= s && Pending(named[1..], anchoredEnd) != [] && Anywhere(Pending(named[1..], anchoredEnd), s[|parts[0]|..]))
            else
              && (anchoredEnd ==> named != [])
              && (Spread(parts, s) <==> Anywhere(Pending(named, anchoredEnd), s))
  {
    if parts[0] <= s {
      DropEmpty(parts[1..], s[|parts[0]|..]);
    } else {
      DropEmpty(parts[1..], s);
    }
    assert Last(parts[1..]) == Last(parts);
    if parts[0] != "" {
      assert NonEmpty(parts)[1..] == NonEmpty(parts[1..]);
    } else {
      assert s[0..] == s && NonEmpty(parts) == NonEmpty(parts[1..]);
    }
  }

  method GlobMatches(pattern: string, value: string) returns (r: bool)
    ensures r <==> Matches(pattern, value)
  {
    SpreadIsMatch(pattern, value);
    StarsAndEnds(pattern);
    if '*' !in pattern {
      OnlyPart(pattern);
      return pattern == value;
    }
    var anchoredStart, anchoredEnd := pattern[0] != '*', pattern[|pattern| - 1] != '*';
    var parts := NonEmpty(Split(pattern));
    Anchors(Split(pattern), value);
    var remaining, i := value, 0;
    if anchoredStart {
      if !(parts[0] <= remaining) {
        return false;
      }
      remaining, i := remaining[|parts[0]|..], 1;
    }
    r := PlaceParts(parts[i..], anchoredEnd, remaining);
  }

  /** The rest of the loop, once the anchored first part has been stripped. */
  method PlaceParts(parts: seq<string>, anchoredEnd: bool, value: string) returns (r: bool)
    requires anchoredEnd ==> parts != []
    ensures r <==> Anywhere(Pending(parts, anchoredEnd), value)
  {
    var remaining := value;
    for i := 0 to |parts|
      invariant anchoredEnd ==> i < |parts|
      invariant Anywhere(Pending(parts, anchoredEnd), value) <==> Anywhere(Pending(parts[i..], anchoredEnd), remaining)
    {
      var part, last := parts[i], i == |parts| - 1;
      ghost var pending := Pending(parts[i..], anchoredEnd);
      if last && anchoredEnd {
        assert pending == [part];
        LastPart(part, remaining);
        return EndsWith(remaining, part);
      }
      assert pending[1..] == Pending(parts[i + 1..], anchoredEnd);
      var at := Find(remaining, part);
      if at.None? {
        NowhereFails(pending, remaining);
        return false;
      }
      LeftmostSuffices(pending, remaining, at.value);
      remaining := remaining[at.value + |part|..];
    }
    assert Pending(parts[|parts|..], anchoredEnd) == [""];
    LastPart("", remaining);
    return !anchoredEnd || remaining == "";
  }

  /** The two matchers never disagree. */
  method BothMatchers(pattern: string, s: string) returns (a: bool, b: bool)
    ensures a == b && (a <==> Matches(pattern, s))
  {
    a := GlobMatch(pattern, s);
    b := GlobMatches(pattern, s);
  }
}
