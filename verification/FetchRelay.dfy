/**
  Requests the server prints again. It prints only what it has parsed, so no string ends in a
  newline; a line that came without one grows by one byte on the way.
 */
module FetchRelay {
  import opened Prelude
  import opened PktLine
  import opened Receive
  import opened Fetch

  /** The longest data a pkt-line can carry. */
  const LONGEST: nat := 65531

  // ---------------------------------------------------------------------------
  // What parsed requests look like
  // ---------------------------------------------------------------------------

  predicate ItemFits(keyword: nat, item: string) {
    keyword + |item| <= LONGEST && !EndsInNewline(item)
  }

  predicate AllFit(keyword: nat, items: seq<string>) {
    forall i | 0 <= i < |items| :: ItemFits(keyword, items[i])
  }

  /** Ids are ids, numbers are in range, and every string came from one line. */
  predicate FromLines(req: FetchRequest) {
    && Printable(req) && (req.filter.Some? ==> ItemFits(7, req.filter.value))
    && AllFit(11, req.deepenNot) && AllFit(9, req.wantRefs)
  }

  lemma {:induction false} TrimmedEnd(s: string)
    ensures !EndsInNewline(TrimNewlines(s)) && |TrimNewlines(s)| <= |s|
    decreases |s|
  {
    if EndsInNewline(s) {
      TrimmedEnd(s[..|s| - 1]);
    }
  }

  predicate ArgFits(arg: Arg) {
    match arg
    case Filter(spec) => ItemFits(7, spec)
    case DeepenNot(name) => ItemFits(11, name)
    case WantRef(name) => ItemFits(9, name)
    case _ => true
  }

  lemma TailFits(s: string, k: nat)
    requires k <= |s| <= LONGEST && !EndsInNewline(s)
    ensures ItemFits(k, s[k..])
  {
  }

  lemma ClassifiedFits(s: string)
    requires |s| <= LONGEST && !EndsInNewline(s)
    ensures ArgFits(Classify(s))
  {
    match Classify(s)
    case Filter(_) => TailFits(s, 7);
    case DeepenNot(_) => TailFits(s, 11);
    case WantRef(_) => TailFits(s, 9);
    case _ =>
  }

  lemma AppliedFromLines(req: FetchRequest, arg: Arg)
    requires FromLines(req) && ArgFits(arg)
    ensures FromLines(Apply(req, arg))
  {
  }

  lemma {:induction false} ParsedFromLines(lines: seq<string>)
    requires Framable(lines)
    ensures FromLines(ParseLines(Empty, lines))
    decreases |lines|
  {
    if lines != [] {
      var init, last := lines[..|lines| - 1], lines[|lines| - 1];
      ParsedFromLines(init);
      TrimmedEnd(last);
      ClassifiedFits(TrimNewlines(last));
      AppliedFromLines(ParseLines(Empty, init), Classify(TrimNewlines(last)));
    }
  }

  // ---------------------------------------------------------------------------
  // How many lines a request takes
  // ---------------------------------------------------------------------------

  function One(b: bool): nat {
    if b then 1 else 0
  }

  function PackFlagWeight(req: FetchRequest): nat {
    One(req.thinPack) + One(req.ofsDelta) + One(req.noProgress)
  }

  function OtherFlagWeight(req: FetchRequest): nat {
    One(req.includeTag) + One(req.sidebandAll) + One(req.waitForDone)
  }

  function PartWeight(req: FetchRequest): nat {
    One(req.filter.Some?) + |req.wants| + |req.haves| + |req.shallow| + One(req.deepen.Some?)
    + One(req.deepenSince.Some?) + |req.deepenNot| + |req.wantRefs|
  }

  function Weight(req: FetchRequest): nat {
    PackFlagWeight(req) + OtherFlagWeight(req) + One(req.done) + PartWeight(req)
  }

  predicate IsPackFlag(arg: Arg) {
    arg.ThinPack? || arg.OfsDelta? || arg.NoProgress?
  }

  predicate IsOtherFlag(arg: Arg) {
    arg.IncludeTag? || arg.SidebandAll? || arg.WaitForDone?
  }

  lemma AppliedPackFlags(req: FetchRequest, arg: Arg)
    ensures PackFlagWeight(Apply(req, arg)) <= PackFlagWeight(req) + One(IsPackFlag(arg))
  {
  }

  lemma AppliedOtherFlags(req: FetchRequest, arg: Arg)
    ensures OtherFlagWeight(Apply(req, arg)) <= OtherFlagWeight(req) + One(IsOtherFlag(arg))
  {
  }

  lemma AppliedParts(req: FetchRequest, arg: Arg)
    ensures PartWeight(Apply(req, arg)) <= PartWeight(req) + One(!IsPackFlag(arg) && !IsOtherFlag(arg) && !arg.Done?)
  {
  }

  lemma AppliedWeight(req: FetchRequest, arg: Arg)
    ensures Weight(Apply(req, arg)) <= Weight(req) + 1
  {
    AppliedPackFlags(req, arg);
    AppliedOtherFlags(req, arg);
    AppliedParts(req, arg);
  }

  lemma {:induction false} ParsedWeight(lines: seq<string>)
    ensures Weight(ParseLines(Empty, lines)) <= |lines|
    decreases |lines|
  {
    if lines != [] {
      ParsedWeight(lines[..|lines| - 1]);
      AppliedWeight(ParseLines(Empty, lines[..|lines| - 1]), Classify(TrimNewlines(lines[|lines| - 1])));
    }
  }

  lemma FlagLength(on: bool, word: string)
    ensures |Flag(on, word)| == One(on)
  {
  }

  lemma FlagLengths(req: FetchRequest)
    ensures |PackFlags(req)| == One(req.thinPack) + One(req.ofsDelta) + One(req.noProgress)
    ensures |OtherFlags(req)| == One(req.includeTag) + One(req.sidebandAll) + One(req.waitForDone)
  {
    FlagLength(req.thinPack, "thin-pack");
    FlagLength(req.ofsDelta, "ofs-delta");
    FlagLength(req.noProgress, "no-progress");
    FlagLength(req.includeTag, "include-tag");
    FlagLength(req.sidebandAll, "sideband-all");
    FlagLength(req.waitForDone, "wait-for-done");
  }

  /** The printer writes one line for each part. */
  lemma BodyWeight(req: FetchRequest)
    ensures |BodyLines(req)| == Weight(req)
  {
    FlagLengths(req);
    FlagLength(req.done, "done");
  }

  // ---------------------------------------------------------------------------
  // How long the lines are
  // ---------------------------------------------------------------------------

  predicate AtMost(lines: seq<string>, max: nat) {
    forall i | 0 <= i < |lines| :: |lines[i]| <= max
  }

  lemma AtMostConcat(a: seq<string>, b: seq<string>, max: nat)
    ensures AtMost(a + b, max) <==> AtMost(a, max) && AtMost(b, max)
  {
    if AtMost(a + b, max) {
      forall i | 0 <= i < |a| ensures |a[i]| <= max {
        assert a[i] == (a + b)[i];
      }
      forall i | 0 <= i < |b| ensures |b[i]| <= max {
        assert b[i] == (a + b)[|a| + i];
      }
    }
  }

  lemma NamedAtMost(keyword: string, items: seq<string>, max: nat)
    ensures AtMost(Named(keyword, items), max) <==> forall i | 0 <= i < |items| :: |keyword| + |items[i]| + 1 <= max
  {
    forall i | 0 <= i < |items| ensures |Named(keyword, items)[i]| == |keyword| + |items[i]| + 1 {
    }
  }

  lemma ShortItems(keyword: string, items: seq<string>, max: nat)
    requires |keyword| <= 20 && max >= 1000 && forall i | 0 <= i < |items| :: |items[i]| <= 64
    ensures AtMost(Named(keyword, items), max)
  {
    NamedAtMost(keyword, items, max);
  }

  lemma {:induction false} DecimalShort(n: nat, digits: nat, bound: nat)
    requires n < bound && bound == Power10(digits) && digits > 0
    ensures |Decimal(n)| <= digits
    decreases digits
  {
    if n >= 10 {
      DecimalShort(n / 10, digits - 1, Power10(digits - 1));
    }
  }

  function Power10(n: nat): nat {
    if n == 0 then 1 else 10 * Power10(n - 1)
  }

  lemma NumbersShort(req: FetchRequest)
    requires Printable(req)
    ensures req.deepen.Some? ==> |Decimal(req.deepen.value)| <= 20
    ensures req.deepenSince.Some? ==> |PrintI64(req.deepenSince.value)| <= 21
  {
    TwentyDigits();
    if req.deepen.Some? {
      DecimalShort(req.deepen.value, 20, Power10(20));
    }
    if req.deepenSince.Some? {
      var t := req.deepenSince.value;
      DecimalShort(if t < 0 then -t else t, 20, Power10(20));
    }
  }

  lemma TwentyDigits()
    ensures Power10(20) == 100_000_000_000_000_000_000
  {
    assert Power10(4) == 10_000;
    assert Power10(8) == 100_000_000;
    assert Power10(12) == 1_000_000_000_000;
    assert Power10(16) == 10_000_000_000_000_000;
  }

  lemma FlagAtMost(on: bool, word: string, max: nat)
    requires |word| < max
    ensures AtMost(Flag(on, word), max)
  {
  }

  lemma FlagsAtMost(req: FetchRequest, max: nat)
    requires max >= 1000
    ensures AtMost(FlagLines(req), max)
  {
    FlagAtMost(req.thinPack, "thin-pack", max);
    FlagAtMost(req.ofsDelta, "ofs-delta", max);
    FlagAtMost(req.noProgress, "no-progress", max);
    FlagAtMost(req.includeTag, "include-tag", max);
    FlagAtMost(req.sidebandAll, "sideband-all", max);
    FlagAtMost(req.waitForDone, "wait-for-done", max);
    ThreeAtMost(Flag(req.thinPack, "thin-pack"), Flag(req.ofsDelta, "ofs-delta"), Flag(req.noProgress, "no-progress"), max);
    ThreeAtMost(Flag(req.includeTag, "include-tag"), Flag(req.sidebandAll, "sideband-all"), Flag(req.waitForDone, "wait-for-done"), max);
    AtMostConcat(PackFlags(req), OtherFlags(req), max);
  }

  lemma ThreeAtMost(a: seq<string>, b: seq<string>, c: seq<string>, max: nat)
    ensures AtMost(a + b + c, max) <==> AtMost(a, max) && AtMost(b, max) && AtMost(c, max)
  {
    AtMostConcat(a, b, max);
    AtMostConcat(a + b, c, max);
  }

  lemma FourAtMost(a: seq<string>, b: seq<string>, c: seq<string>, d: seq<string>, max: nat)
    ensures AtMost(a + b + c + d, max) <==> AtMost(a, max) && AtMost(b, max) && AtMost(c, max) && AtMost(d, max)
  {
    ThreeAtMost(a, b, c, max);
    AtMostConcat(a + b + c, d, max);
  }

  lemma IdsAtMost(req: FetchRequest, max: nat)
    requires Printable(req) && max >= 1000
    ensures AtMost(IdLines(req), max) <==> (req.filter.Some? ==> 7 + |req.filter.value| + 1 <= max)
  {
    ShortItems("want ", req.wants, max);
    ShortItems("have ", req.haves, max);
    ShortItems("shallow ", req.shallow, max);
    NamedAtMost("filter ", Optional(req.filter), max);
    FourAtMost(Named("filter ", Optional(req.filter)), Named("want ", req.wants), Named("have ", req.haves),
               Named("shallow ", req.shallow), max);
    if req.filter.Some? {
      assert Optional(req.filter)[0] == req.filter.value;
    }
  }

  lemma DepthsAtMost(req: FetchRequest, max: nat)
    requires Printable(req) && max >= 1000
    ensures AtMost(DepthLines(req), max)
  {
    NumbersShort(req);
    ShortItems("deepen ", Optional(DeepenText(req)), max);
    ShortItems("deepen-since ", Optional(SinceText(req)), max);
    AtMostConcat(Named("deepen ", Optional(DeepenText(req))), Named("deepen-since ", Optional(SinceText(req))), max);
  }

  /** Each string leaves room for its keyword and a newline within `max`. */
  predicate Roomy(req: FetchRequest, max: nat) {
    && (req.filter.Some? ==> 7 + |req.filter.value| + 1 <= max)
    && (forall i | 0 <= i < |req.deepenNot| :: 11 + |req.deepenNot[i]| + 1 <= max)
    && (forall i | 0 <= i < |req.wantRefs| :: 9 + |req.wantRefs[i]| + 1 <= max)
  }

  lemma NamesAtMost(req: FetchRequest, max: nat)
    requires max >= 1000
    ensures AtMost(NameLines(req), max) <==>
            && (forall i | 0 <= i < |req.deepenNot| :: 11 + |req.deepenNot[i]| + 1 <= max)
            && (forall i | 0 <= i < |req.wantRefs| :: 9 + |req.wantRefs[i]| + 1 <= max)
  {
    NamedAtMost("deepen-not ", req.deepenNot, max);
    NamedAtMost("want-ref ", req.wantRefs, max);
    FlagAtMost(req.done, "done", max);
    ThreeAtMost(Named("deepen-not ", req.deepenNot), Named("want-ref ", req.wantRefs), Flag(req.done, "done"), max);
  }

  lemma BodyAtMostIff(req: FetchRequest, max: nat)
    requires Printable(req) && max >= 1000
    ensures AtMost(BodyLines(req), max) <==> Roomy(req, max)
  {
    FlagsAtMost(req, max);
    IdsAtMost(req, max);
    DepthsAtMost(req, max);
    NamesAtMost(req, max);
    FourAtMost(FlagLines(req), IdLines(req), DepthLines(req), NameLines(req), max);
  }

  // ---------------------------------------------------------------------------
  // Printing and reading again
  // ---------------------------------------------------------------------------

  lemma FirstTooLong(lines: seq<string>, max: nat) returns (k: nat)
    requires !AtMost(lines, max)
    ensures k < |lines| && |lines[k]| > max && AtMost(lines[..k], max)
  {
    k := 0;
    while |lines[k]| <= max
      invariant k < |lines| && AtMost(lines[..k], max)
      decreases |lines| - k
    {
      assert AtMost(lines[..k + 1], max);
      k := k + 1;
    }
  }

  /** A line that is one byte too long reads as a flush: the reader stops in front of it. */
  lemma StopsAtLongLine(lines: seq<string>, k: nat, end: string)
    requires k < |lines| && Framable(lines[..k]) && |lines[k]| == LONGEST + 1
    ensures exists rest :: ReadLines(Frames(lines) + end) == Ok((lines[..k], rest))
  {
    var tail := Frames(lines[k + 1..]) + end;
    LongLineReadsAsFlush(lines[k], tail);
    assert ReadLines(EncodeData(lines[k]) + tail) == Ok(([], lines[k] + tail));
    FramesThen(lines[..k], EncodeData(lines[k]) + tail, lines[k] + tail);
    FramesCut(lines, k, end);
  }

  lemma FramesCut(lines: seq<string>, k: nat, end: string)
    requires k < |lines|
    ensures Frames(lines) + end == Frames(lines[..k]) + (EncodeData(lines[k]) + (Frames(lines[k + 1..]) + end))
  {
    assert lines == lines[..k] + lines[k..];
    FramesConcat(lines[..k], lines[k..]);
    FirstFrameThen(lines[k..], end);
    assert lines[k..][1..] == lines[k + 1..];
    Rejoin(Frames(lines), Frames(lines[..k]), Frames(lines[k..]), end);
  }

  /** The exact condition: a request parsed from any lines, printed and parsed again, is the same
      request if and only if each of its strings leaves room for its keyword and a newline. */
  lemma RelayedIff(lines: seq<string>)
    requires Framable(lines)
    ensures var req := ParseLines(Empty, lines);
            ParseBody(Frames(BodyLines(req)) + "0000") == Ok((req, "")) <==>
            && (req.filter.Some? ==> |"filter "| + |req.filter.value| + 1 <= 65531)
            && (forall x | x in req.deepenNot :: |"deepen-not "| + |x| + 1 <= 65531)
            && (forall x | x in req.wantRefs :: |"want-ref "| + |x| + 1 <= 65531)
  {
    RelayedRoomyIff(lines);
    RoomyIff(ParseLines(Empty, lines));
  }

  lemma RoomyIff(req: FetchRequest)
    ensures Roomy(req, LONGEST) <==>
            && (req.filter.Some? ==> |"filter "| + |req.filter.value| + 1 <= 65531)
            && (forall x | x in req.deepenNot :: |"deepen-not "| + |x| + 1 <= 65531)
            && (forall x | x in req.wantRefs :: |"want-ref "| + |x| + 1 <= 65531)
  {
  }

  lemma RelayedRoomyIff(lines: seq<string>)
    requires Framable(lines)
    ensures var req := ParseLines(Empty, lines);
            ParseBody(Frames(BodyLines(req)) + "0000") == Ok((req, "")) <==> Roomy(req, LONGEST)
  {
    var req := ParseLines(Empty, lines);
    ParsedFromLines(lines);
    BodyAtMostIff(req, LONGEST);
    BodyAtMostIff(req, LONGEST + 1);
    if Roomy(req, LONGEST) {
      FetchReadsBack(req, Sha1);
      SurvivesIff(req);
    } else {
      var k := FirstTooLong(BodyLines(req), LONGEST);
      StopsAtLongLine(BodyLines(req), k, "0000");
      ParsedWeight(BodyLines(req)[..k]);
      BodyWeight(req);
    }
  }

  lemma ParsedWantRef(name: string)
    requires !EndsInNewline(name)
    ensures ParseLines(Empty, ["want-ref " + name]) == Empty.(wantRefs := [name])
  {
    var line := "want-ref " + name;
    TrimTail("want-ref ", name);
    TrimShrinks(name);
    ClassifyWantRef(name);
    assert [line][..0] == [] && ParseLines(Empty, [line][..0]) == Empty;
    assert ParseLines(Empty, [line]) == Apply(Empty, WantRef(name));
    assert [] + [name] == [name];
  }

  lemma TooWide(name: string)
    requires |name| == 65522
    ensures !Roomy(Empty.(wantRefs := [name]), LONGEST)
  {
    assert [name][0] == name;
  }

  /** A wanted ref sent in a full line without a newline: the server's own request loses it. */
  lemma FullLineIsLost(name: string)
    requires |name| == 65522 && !EndsInNewline(name)
    ensures var req := ParseLines(Empty, ["want-ref " + name]);
            req.wantRefs == [name] && ParseBody(Frames(BodyLines(req)) + "0000") != Ok((req, ""))
  {
    var line := "want-ref " + name;
    RelayedRoomyIff([line]);
    ParsedWantRef(name);
    TooWide(name);
  }
}
