/**
  The version 2 fetch request ("fetch" in gitprotocol-v2): the printer used towards an upstream
  and the parser used towards clients.
 */
module Fetch {
  import opened Prelude
  import opened PktLine
  import opened Receive

  datatype ObjectFormat = Sha1 | Sha256

  datatype Command = Command(name: Option<string>, caps: map<string, string>, args: seq<string>)

  datatype FetchError = BadFrame(error: PktError) | MissingCommand

  /** Object ids are hex strings; `deepen` is a 32-bit count, `deepenSince` a 64-bit time. */
  datatype FetchRequest = FetchRequest(
    wants: seq<string>,
    haves: seq<string>,
    done: bool,
    thinPack: bool,
    noProgress: bool,
    includeTag: bool,
    ofsDelta: bool,
    sidebandAll: bool,
    waitForDone: bool,
    filter: Option<string>,
    deepen: Option<nat>,
    deepenSince: Option<int>,
    deepenNot: seq<string>,
    shallow: seq<string>,
    wantRefs: seq<string>)

  const Empty: FetchRequest :=
    FetchRequest([], [], false, false, false, false, false, false, false, None, None, None, [], [], [])

  // ---------------------------------------------------------------------------
  // Numbers and object ids
  // ---------------------------------------------------------------------------

  function Decimal(n: nat): (s: string)
    ensures s != "" && s[0] != '-' && s[0] != '+'
  {
    if n < 10 then ['0' + n as char] else Decimal(n / 10) + ['0' + (n % 10) as char]
  }

  function ParseDigits(s: string): Option<nat> {
    if s == "" then None
    else
      var c := s[|s| - 1];
      if !('0' <= c <= '9') then None
      else if |s| == 1 then Some((c - '0') as nat)
      else
        var rest := ParseDigits(s[..|s| - 1]);
        if rest.None? then None else Some(rest.value * 10 + (c - '0') as nat)
  }

  lemma {:induction false} DecimalReadsBack(n: nat)
    ensures ParseDigits(Decimal(n)) == Some(n)
    decreases n
  {
    if n >= 10 {
      DecimalReadsBack(n / 10);
      assert Decimal(n)[..|Decimal(n)| - 1] == Decimal(n / 10);
    }
  }

  const TWO_32: int := 0x1_0000_0000
  const TWO_63: int := 0x8000_0000_0000_0000

  function ParseU32(s: string): Option<nat> {
    var n := ParseDigits(if s != "" && s[0] == '+' then s[1..] else s);
    if n.Some? && n.value < TWO_32 then n else None
  }

  function PrintI64(t: int): string {
    if t < 0 then "-" + Decimal(-t) else Decimal(t)
  }

  function ParseI64(s: string): Option<int> {
    if s != "" && s[0] == '-' then
      var n := ParseDigits(s[1..]);
      if n.Some? && n.value <= TWO_63 then Some(0 - n.value) else None
    else
      var n := ParseDigits(if s != "" && s[0] == '+' then s[1..] else s);
      if n.Some? && n.value < TWO_63 then Some(n.value) else None
  }

  lemma U32ReadsBack(n: nat)
    requires n < TWO_32
    ensures ParseU32(Decimal(n)) == Some(n)
  {
    DecimalReadsBack(n);
  }

  lemma I64ReadsBack(t: int)
    requires -TWO_63 <= t < TWO_63
    ensures ParseI64(PrintI64(t)) == Some(t)
  {
    if t < 0 {
      NegativeReadsBack(-t);
    } else {
      DecimalReadsBack(t);
    }
  }

  lemma NegativeReadsBack(n: nat)
    requires 0 < n <= TWO_63
    ensures ParseI64("-" + Decimal(n)) == Some(0 - n)
  {
    DecimalReadsBack(n);
    assert ("-" + Decimal(n))[1..] == Decimal(n);
  }

  function LowerHex(c: char): Option<char> {
    if '0' <= c <= '9' || 'a' <= c <= 'f' then Some(c)
    else if 'A' <= c <= 'F' then Some(c - 'A' + 'a')
    else None
  }

  predicate IsOid(s: string) {
    (|s| == 40 || |s| == 64) && forall i | 0 <= i < |s| :: LowerHex(s[i]) == Some(s[i])
  }

  /** `ObjectId::from_hex`: 40 or 64 digits of either case. */
  function FromHex(s: string): (r: Option<string>)
    ensures r.Some? ==> IsOid(r.value)
    ensures IsOid(s) ==> r == Some(s)
  {
    if (|s| == 40 || |s| == 64) && (forall i | 0 <= i < |s| :: LowerHex(s[i]).Some?) then
      var lower := seq(|s|, i requires 0 <= i < |s| => LowerHex(s[i]).value);
      assert IsOid(s) ==> lower == s;
      Some(lower)
    else None
  }

  // ---------------------------------------------------------------------------
  // One line
  // ---------------------------------------------------------------------------

  datatype Arg =
    | Want(hex: string) | Have(hex: string) | Done | ThinPack | NoProgress | IncludeTag | OfsDelta | SidebandAll | WaitForDone
    | Filter(spec: string) | Deepen(n: string) | DeepenSince(t: string) | DeepenNot(name: string) | Shallow(hex: string)
    | WantRef(name: string) | Unknown

  function Classify(s: string): Arg {
    if "want " <= s then Want(s[5..])
    else if "have " <= s then Have(s[5..])
    else if s == "done" then Done
    else if s == "thin-pack" then ThinPack
    else if s == "no-progress" then NoProgress
    else if s == "include-tag" then IncludeTag
    else if s == "ofs-delta" then OfsDelta
    else if s == "sideband-all" then SidebandAll
    else if s == "wait-for-done" then WaitForDone
    else if "filter " <= s then Filter(s[7..])
    else if "deepen " <= s then Deepen(s[7..])
    else if "deepen-since " <= s then DeepenSince(s[13..])
    else if "deepen-not " <= s then DeepenNot(s[11..])
    else if "shallow " <= s then Shallow(s[8..])
    else if "want-ref " <= s then WantRef(s[9..])
    else Unknown
  }

  function Apply(req: FetchRequest, arg: Arg): FetchRequest {
    match arg
    case Want(hex) => if FromHex(hex).Some? then req.(wants := req.wants + [FromHex(hex).value]) else req
    case Have(hex) => if FromHex(hex).Some? then req.(haves := req.haves + [FromHex(hex).value]) else req
    case Done => req.(done := true)
    case ThinPack => req.(thinPack := true)
    case NoProgress => req.(noProgress := true)
    case IncludeTag => req.(includeTag := true)
    case OfsDelta => req.(ofsDelta := true)
    case SidebandAll => req.(sidebandAll := true)
    case WaitForDone => req.(waitForDone := true)
    case Filter(spec) => req.(filter := Some(spec))
    case Deepen(n) => req.(deepen := ParseU32(n))
    case DeepenSince(t) => req.(deepenSince := ParseI64(t))
    case DeepenNot(name) => req.(deepenNot := req.deepenNot + [name])
    case Shallow(hex) => if FromHex(hex).Some? then req.(shallow := req.shallow + [FromHex(hex).value]) else req
    case WantRef(name) => req.(wantRefs := req.wantRefs + [name])
    case Unknown => req
  }

  lemma ClassifyIds(x: string)
    ensures Classify("want " + x) == Want(x) && Classify("have " + x) == Have(x)
  {
    assert ("want " + x)[5..] == x && ("have " + x)[5..] == x;
    assert ("have " + x)[0] == 'h';
  }

  lemma ClassifyShallow(x: string)
    ensures Classify("shallow " + x) == Shallow(x)
  {
    var s := "shallow " + x;
    assert s[8..] == x && s[0] == 's' && s[1] == 'h';
  }

  lemma ClassifyFilter(x: string)
    ensures Classify("filter " + x) == Filter(x)
  {
    var s := "filter " + x;
    assert s[7..] == x && s[0] == 'f';
  }

  lemma ClassifyDeepen(x: string)
    ensures Classify("deepen " + x) == Deepen(x)
  {
    var s := "deepen " + x;
    assert s[7..] == x && s[0] == 'd' && s[1] == 'e';
  }

  lemma ClassifyDeepenSince(x: string)
    ensures Classify("deepen-since " + x) == DeepenSince(x)
  {
    var s := "deepen-since " + x;
    assert s[13..] == x && s[0] == 'd' && s[1] == 'e' && s[6] == '-';
  }

  lemma ClassifyDeepenNot(x: string)
    ensures Classify("deepen-not " + x) == DeepenNot(x)
  {
    var s := "deepen-not " + x;
    assert s[11..] == x && s[0] == 'd' && s[1] == 'e' && s[6] == '-' && s[7] == 'n';
  }

  lemma ClassifyWantRef(x: string)
    ensures Classify("want-ref " + x) == WantRef(x)
  {
    var s := "want-ref " + x;
    assert s[9..] == x && s[0] == 'w' && s[2] == 'n' && s[4] == '-';
  }

  lemma ClassifyFlags()
    ensures Classify("done") == Done && Classify("thin-pack") == ThinPack && Classify("no-progress") == NoProgress
    ensures Classify("include-tag") == IncludeTag && Classify("ofs-delta") == OfsDelta
    ensures Classify("sideband-all") == SidebandAll && Classify("wait-for-done") == WaitForDone
  {
    ClassifyPackFlags();
    assert "sideband-all"[0] == 's' && "wait-for-done"[0] == 'w' && "wait-for-done"[2] == 'i' && "include-tag"[0] == 'i';
  }

  lemma ClassifyPackFlags()
    ensures Classify("done") == Done && Classify("thin-pack") == ThinPack && Classify("no-progress") == NoProgress
    ensures Classify("ofs-delta") == OfsDelta
  {
    assert "thin-pack"[0] == 't' && "no-progress"[0] == 'n' && "ofs-delta"[0] == 'o';
  }

  // ---------------------------------------------------------------------------
  // The body
  // ---------------------------------------------------------------------------

  function ParseLine(req: FetchRequest, line: string): FetchRequest {
    Apply(req, Classify(TrimNewlines(line)))
  }

  function ParseLines(req: FetchRequest, lines: seq<string>): FetchRequest {
    if lines == [] then req else ParseLine(ParseLines(req, lines[..|lines| - 1]), lines[|lines| - 1])
  }

  function ParseBody(buf: string): Result<(FetchRequest, string), FetchError> {
    match ReadLines(buf)
    case Err(e) => Err(BadFrame(e))
    case Ok((lines, rest)) => Ok((ParseLines(Empty, lines), rest))
  }

  method ParseFetchRequest(r: Reader) returns (res: Result<FetchRequest, FetchError>)
    modifies r
    ensures match ParseBody(old(r.rest)) {
              case Ok((req, rest)) => res == Ok(req) && r.rest == rest
              case Err(e) => res == Err(e)
            }
  {
    var req := Empty;
    ghost var before, lines := r.rest, [];
    AfterNoLines(ReadLines(r.rest));
    while true
      invariant req == ParseLines(Empty, lines)
      invariant ReadLines(before) == AfterLines(lines, ReadLines(r.rest))
      decreases |r.rest|
    {
      var line := r.ReadPktLine();
      if line.Err? {
        return Err(BadFrame(line.error));
      }
      if line.value.None? || !line.value.value.Data? {
        assert lines + [] == lines;
        return Ok(req);
      }
      var bytes := line.value.value.bytes;
      AfterOneLine(lines, bytes, ReadLines(r.rest));
      assert (lines + [bytes])[..|lines|] == lines;
      lines := lines + [bytes];
      req := ParseLine(req, bytes);
    }
  }

  /** A line for each item, after a keyword. */
  function Named(keyword: string, items: seq<string>): seq<string> {
    seq(|items|, i requires 0 <= i < |items| => keyword + items[i] + "\n")
  }

  function Flag(set_: bool, word: string): seq<string> {
    if set_ then [word + "\n"] else []
  }

  function FlagLines(req: FetchRequest): seq<string> {
    PackFlags(req) + OtherFlags(req)
  }

  function PackFlags(req: FetchRequest): seq<string> {
    Flag(req.thinPack, "thin-pack") + Flag(req.ofsDelta, "ofs-delta") + Flag(req.noProgress, "no-progress")
  }

  function OtherFlags(req: FetchRequest): seq<string> {
    Flag(req.includeTag, "include-tag") + Flag(req.sidebandAll, "sideband-all") + Flag(req.waitForDone, "wait-for-done")
  }

  function Optional(o: Option<string>): seq<string> {
    if o.Some? then [o.value] else []
  }

  function DeepenText(req: FetchRequest): Option<string> {
    if req.deepen.Some? then Some(Decimal(req.deepen.value)) else None
  }

  function SinceText(req: FetchRequest): Option<string> {
    if req.deepenSince.Some? then Some(PrintI64(req.deepenSince.value)) else None
  }

  function IdLines(req: FetchRequest): seq<string> {
    Named("filter ", Optional(req.filter)) + Named("want ", req.wants) + Named("have ", req.haves) + Named("shallow ", req.shallow)
  }

  function DepthLines(req: FetchRequest): seq<string> {
    Named("deepen ", Optional(DeepenText(req))) + Named("deepen-since ", Optional(SinceText(req)))
  }

  function NameLines(req: FetchRequest): seq<string> {
    Named("deepen-not ", req.deepenNot) + Named("want-ref ", req.wantRefs) + Flag(req.done, "done")
  }

  function BodyLines(req: FetchRequest): seq<string> {
    FlagLines(req) + IdLines(req) + DepthLines(req) + NameLines(req)
  }

  function FormatName(format: ObjectFormat): string {
    if format == Sha1 then "sha1" else "sha256"
  }

  function HeaderLines(format: ObjectFormat): seq<string> {
    ["command=fetch\n", "object-format=" + FormatName(format) + "\n"]
  }

  function RequestText(req: FetchRequest, format: ObjectFormat): string {
    Frames(HeaderLines(format)) + ("0001" + (Frames(BodyLines(req)) + "0000"))
  }

  // ---------------------------------------------------------------------------
  // Reading back what was printed
  // ---------------------------------------------------------------------------

  lemma {:induction false} TrimTail(a: string, b: string)
    requires a != "" && a[|a| - 1] != '\n'
    ensures TrimNewlines(a + b) == a + TrimNewlines(b)
    decreases |b|
  {
    if b == "" {
      assert a + b == a;
    } else if b[|b| - 1] == '\n' {
      assert (a + b)[..|a + b| - 1] == a + b[..|b| - 1];
      TrimTail(a, b[..|b| - 1]);
    }
  }

  lemma TrimLine(keyword: string, item: string)
    requires keyword != "" && keyword[|keyword| - 1] != '\n'
    ensures TrimNewlines(keyword + item + "\n") == keyword + TrimNewlines(item)
  {
    assert (keyword + item + "\n")[..|keyword + item|] == keyword + item;
    TrimTail(keyword, item);
  }

  lemma {:induction false} ParseLinesConcat(req: FetchRequest, a: seq<string>, b: seq<string>)
    ensures ParseLines(req, a + b) == ParseLines(ParseLines(req, a), b)
    decreases |b|
  {
    if b == [] {
      assert a + b == a;
    } else {
      assert (a + b)[..|a + b| - 1] == a + b[..|b| - 1];
      ParseLinesConcat(req, a, b[..|b| - 1]);
    }
  }

  function ApplyAll(req: FetchRequest, arg: string -> Arg, items: seq<string>): FetchRequest {
    if items == [] then req
    else Apply(ApplyAll(req, arg, items[..|items| - 1]), arg(TrimNewlines(items[|items| - 1])))
  }

  lemma LineReadsBack(req: FetchRequest, keyword: string, arg: string -> Arg, item: string)
    requires keyword != "" && keyword[|keyword| - 1] != '\n' && forall x :: Classify(keyword + x) == arg(x)
    ensures ParseLine(req, keyword + item + "\n") == Apply(req, arg(TrimNewlines(item)))
  {
    TrimLine(keyword, item);
    assert Classify(keyword + TrimNewlines(item)) == arg(TrimNewlines(item));
  }

  /** One section: every line is recognised by its keyword and yields its item without trailing newlines. */
  lemma {:induction false} SectionReadsBack(req: FetchRequest, keyword: string, arg: string -> Arg, items: seq<string>)
    requires keyword != "" && keyword[|keyword| - 1] != '\n' && forall x :: Classify(keyword + x) == arg(x)
    ensures ParseLines(req, Named(keyword, items)) == ApplyAll(req, arg, items)
    decreases |items|
  {
    if items != [] {
      var init, last := items[..|items| - 1], items[|items| - 1];
      SectionReadsBack(req, keyword, arg, init);
      assert items == init + [last];
      ParsedSnoc(req, keyword, init, last);
      AppliedSnoc(req, arg, init, last);
      LineReadsBack(ApplyAll(req, arg, init), keyword, arg, last);
    }
  }

  lemma ParsedSnoc(req: FetchRequest, keyword: string, init: seq<string>, last: string)
    ensures ParseLines(req, Named(keyword, init + [last])) ==
            ParseLine(ParseLines(req, Named(keyword, init)), keyword + last + "\n")
  {
    assert Named(keyword, init + [last])[..|init|] == Named(keyword, init);
  }

  lemma AppliedSnoc(req: FetchRequest, arg: string -> Arg, init: seq<string>, last: string)
    ensures ApplyAll(req, arg, init + [last]) == Apply(ApplyAll(req, arg, init), arg(TrimNewlines(last)))
  {
    assert (init + [last])[..|init|] == init;
  }

  lemma FlagReadsBack(req: FetchRequest, set_: bool, word: string)
    requires word != "" && word[|word| - 1] != '\n'
    ensures ParseLines(req, Flag(set_, word)) == if set_ then Apply(req, Classify(word)) else req
  {
    TrimLine(word, "");
    assert word + "" == word && word + "" + "\n" == word + "\n";
    assert set_ ==> Flag(set_, word)[..0] == [];
  }

  // The sections as function values.

  function WantArg(x: string): Arg { Want(x) }
  function HaveArg(x: string): Arg { Have(x) }
  function ShallowArg(x: string): Arg { Shallow(x) }
  function FilterArg(x: string): Arg { Filter(x) }
  function DeepenArg(x: string): Arg { Deepen(x) }
  function SinceArg(x: string): Arg { DeepenSince(x) }
  function NotArg(x: string): Arg { DeepenNot(x) }
  function RefArg(x: string): Arg { WantRef(x) }

  predicate AllOids(items: seq<string>) {
    forall i | 0 <= i < |items| :: IsOid(items[i])
  }

  lemma OidStays(x: string)
    requires IsOid(x)
    ensures TrimNewlines(x) == x && FromHex(x) == Some(x)
  {
    assert LowerHex(x[|x| - 1]) == Some(x[|x| - 1]);
  }

  lemma Snoc(front: seq<string>, items: seq<string>)
    requires items != []
    ensures front + items[..|items| - 1] + [items[|items| - 1]] == front + items
  {
  }

  lemma {:induction false} WantsCollected(req: FetchRequest, items: seq<string>)
    requires AllOids(items)
    ensures ApplyAll(req, WantArg, items) == req.(wants := req.wants + items)
    decreases |items|
  {
    if items == [] {
      assert req.wants + items == req.wants;
    } else {
      var init, last := items[..|items| - 1], items[|items| - 1];
      WantsCollected(req, init);
      OidStays(last);
      Snoc(req.wants, items);
    }
  }

  lemma {:induction false} HavesCollected(req: FetchRequest, items: seq<string>)
    requires AllOids(items)
    ensures ApplyAll(req, HaveArg, items) == req.(haves := req.haves + items)
    decreases |items|
  {
    if items == [] {
      assert req.haves + items == req.haves;
    } else {
      var init, last := items[..|items| - 1], items[|items| - 1];
      HavesCollected(req, init);
      OidStays(last);
      Snoc(req.haves, items);
    }
  }

  lemma {:induction false} ShallowsCollected(req: FetchRequest, items: seq<string>)
    requires AllOids(items)
    ensures ApplyAll(req, ShallowArg, items) == req.(shallow := req.shallow + items)
    decreases |items|
  {
    if items == [] {
      assert req.shallow + items == req.shallow;
    } else {
      var init, last := items[..|items| - 1], items[|items| - 1];
      ShallowsCollected(req, init);
      OidStays(last);
      Snoc(req.shallow, items);
    }
  }

  lemma {:induction false} NotsCollected(req: FetchRequest, items: seq<string>)
    ensures ApplyAll(req, NotArg, items) == req.(deepenNot := req.deepenNot + Trimmed(items))
    decreases |items|
  {
    if items == [] {
      assert req.deepenNot + Trimmed(items) == req.deepenNot;
    } else {
      var init := items[..|items| - 1];
      NotsCollected(req, init);
      assert Trimmed(items)[..|init|] == Trimmed(init);
      Snoc(req.deepenNot, Trimmed(items));
    }
  }

  lemma {:induction false} RefsCollected(req: FetchRequest, items: seq<string>)
    ensures ApplyAll(req, RefArg, items) == req.(wantRefs := req.wantRefs + Trimmed(items))
    decreases |items|
  {
    if items == [] {
      assert req.wantRefs + Trimmed(items) == req.wantRefs;
    } else {
      var init := items[..|items| - 1];
      RefsCollected(req, init);
      assert Trimmed(items)[..|init|] == Trimmed(init);
      Snoc(req.wantRefs, Trimmed(items));
    }
  }

  lemma WantsAndHaves(req: FetchRequest, wants: seq<string>, haves: seq<string>)
    requires AllOids(wants) && AllOids(haves)
    ensures ParseLines(req, Named("want ", wants)) == req.(wants := req.wants + wants)
    ensures ParseLines(req, Named("have ", haves)) == req.(haves := req.haves + haves)
  {
    forall x ensures Classify("want " + x) == WantArg(x) && Classify("have " + x) == HaveArg(x) {
      ClassifyIds(x);
    }
    SectionReadsBack(req, "want ", WantArg, wants);
    SectionReadsBack(req, "have ", HaveArg, haves);
    WantsCollected(req, wants);
    HavesCollected(req, haves);
  }

  lemma ShallowsRead(req: FetchRequest, shallow: seq<string>)
    requires AllOids(shallow)
    ensures ParseLines(req, Named("shallow ", shallow)) == req.(shallow := req.shallow + shallow)
  {
    forall x ensures Classify("shallow " + x) == ShallowArg(x) {
      ClassifyShallow(x);
    }
    SectionReadsBack(req, "shallow ", ShallowArg, shallow);
    ShallowsCollected(req, shallow);
  }

  lemma OneItem(req: FetchRequest, arg: string -> Arg, item: Option<string>)
    ensures ApplyAll(req, arg, Optional(item)) == if item.Some? then Apply(req, arg(TrimNewlines(item.value))) else req
  {
    assert item.Some? ==> Optional(item)[..0] == [];
  }

  lemma FilterRead(req: FetchRequest, filter: Option<string>)
    ensures ParseLines(req, Named("filter ", Optional(filter))) ==
            if filter.Some? then req.(filter := Some(TrimNewlines(filter.value))) else req
  {
    forall x ensures Classify("filter " + x) == FilterArg(x) {
      ClassifyFilter(x);
    }
    SectionReadsBack(req, "filter ", FilterArg, Optional(filter));
    OneItem(req, FilterArg, filter);
  }

  lemma {:induction false} DecimalIsPlain(n: nat)
    ensures TrimNewlines(Decimal(n)) == Decimal(n)
  {
    assert Decimal(n)[|Decimal(n)| - 1] == '0' + (n % 10) as char;
  }

  lemma DeepenRead(req: FetchRequest, depth: FetchRequest)
    requires depth.deepen.Some? ==> depth.deepen.value < TWO_32
    ensures ParseLines(req, Named("deepen ", Optional(DeepenText(depth)))) ==
            if depth.deepen.Some? then req.(deepen := depth.deepen) else req
  {
    forall x ensures Classify("deepen " + x) == DeepenArg(x) {
      ClassifyDeepen(x);
    }
    SectionReadsBack(req, "deepen ", DeepenArg, Optional(DeepenText(depth)));
    OneItem(req, DeepenArg, DeepenText(depth));
    if depth.deepen.Some? {
      DecimalIsPlain(depth.deepen.value);
      U32ReadsBack(depth.deepen.value);
    }
  }

  lemma SinceRead(req: FetchRequest, depth: FetchRequest)
    requires depth.deepenSince.Some? ==> -TWO_63 <= depth.deepenSince.value < TWO_63
    ensures ParseLines(req, Named("deepen-since ", Optional(SinceText(depth)))) ==
            if depth.deepenSince.Some? then req.(deepenSince := depth.deepenSince) else req
  {
    forall x ensures Classify("deepen-since " + x) == SinceArg(x) {
      ClassifyDeepenSince(x);
    }
    SectionReadsBack(req, "deepen-since ", SinceArg, Optional(SinceText(depth)));
    OneItem(req, SinceArg, SinceText(depth));
    if depth.deepenSince.Some? {
      SinceIsPlain(depth.deepenSince.value);
      I64ReadsBack(depth.deepenSince.value);
    }
  }

  lemma SinceIsPlain(t: int)
    ensures TrimNewlines(PrintI64(t)) == PrintI64(t)
  {
    var digits := Decimal(if t < 0 then -t else t);
    DecimalIsPlain(if t < 0 then -t else t);
    assert PrintI64(t)[|PrintI64(t)| - 1] == digits[|digits| - 1];
  }

  lemma NotsRead(req: FetchRequest, deepenNot: seq<string>)
    ensures ParseLines(req, Named("deepen-not ", deepenNot)) == req.(deepenNot := req.deepenNot + Trimmed(deepenNot))
  {
    forall x ensures Classify("deepen-not " + x) == NotArg(x) {
      ClassifyDeepenNot(x);
    }
    SectionReadsBack(req, "deepen-not ", NotArg, deepenNot);
    NotsCollected(req, deepenNot);
  }

  lemma RefsRead(req: FetchRequest, wantRefs: seq<string>)
    ensures ParseLines(req, Named("want-ref ", wantRefs)) == req.(wantRefs := req.wantRefs + Trimmed(wantRefs))
  {
    forall x ensures Classify("want-ref " + x) == RefArg(x) {
      ClassifyWantRef(x);
    }
    SectionReadsBack(req, "want-ref ", RefArg, wantRefs);
    RefsCollected(req, wantRefs);
  }

  // ---------------------------------------------------------------------------
  // The whole request
  // ---------------------------------------------------------------------------

  /** What a request looks like after a trip over the wire: trailing newlines are gone. */
  function Normalize(req: FetchRequest): FetchRequest {
    req.(filter := if req.filter.Some? then Some(TrimNewlines(req.filter.value)) else None,
         deepenNot := Trimmed(req.deepenNot), wantRefs := Trimmed(req.wantRefs))
  }

  /** Object ids are ids, and numbers fit their types. */
  predicate Printable(req: FetchRequest) {
    && AllOids(req.wants) && AllOids(req.haves) && AllOids(req.shallow)
    && (req.deepen.Some? ==> req.deepen.value < TWO_32)
    && (req.deepenSince.Some? ==> -TWO_63 <= req.deepenSince.value < TWO_63)
  }

  function WithFlags(req: FetchRequest): FetchRequest {
    Empty.(thinPack := req.thinPack, ofsDelta := req.ofsDelta, noProgress := req.noProgress, includeTag := req.includeTag,
           sidebandAll := req.sidebandAll, waitForDone := req.waitForDone)
  }

  function WithPackFlags(req: FetchRequest): FetchRequest {
    Empty.(thinPack := req.thinPack, ofsDelta := req.ofsDelta, noProgress := req.noProgress)
  }

  lemma PackFlagsRead(req: FetchRequest)
    ensures ParseLines(Empty, PackFlags(req)) == WithPackFlags(req)
  {
    ClassifyPackFlags();
    PackFlagsRaised(req, "thin-pack", "ofs-delta", "no-progress");
  }

  lemma PackFlagsRaised(req: FetchRequest, x: string, y: string, z: string)
    requires FlagWord(x) && FlagWord(y) && FlagWord(z)
    requires Classify(x) == ThinPack && Classify(y) == OfsDelta && Classify(z) == NoProgress
    ensures ParseLines(Empty, Flag(req.thinPack, x) + Flag(req.ofsDelta, y) + Flag(req.noProgress, z)) == WithPackFlags(req)
  {
    ThreeFlagsRead(Empty, req.thinPack, x, req.ofsDelta, y, req.noProgress, z);
  }

  lemma OtherFlagsRead(req: FetchRequest)
    ensures ParseLines(WithPackFlags(req), OtherFlags(req)) == WithFlags(req)
  {
    ClassifyFlags();
    OtherFlagsRaised(req, "include-tag", "sideband-all", "wait-for-done");
  }

  lemma OtherFlagsRaised(req: FetchRequest, x: string, y: string, z: string)
    requires FlagWord(x) && FlagWord(y) && FlagWord(z)
    requires Classify(x) == IncludeTag && Classify(y) == SidebandAll && Classify(z) == WaitForDone
    ensures ParseLines(WithPackFlags(req), Flag(req.includeTag, x) + Flag(req.sidebandAll, y) + Flag(req.waitForDone, z)) == WithFlags(req)
  {
    ThreeFlagsRead(WithPackFlags(req), req.includeTag, x, req.sidebandAll, y, req.waitForDone, z);
  }

  /** What a flag line does to a request. */
  function Raise(req: FetchRequest, on: bool, word: string): FetchRequest {
    if on then Apply(req, Classify(word)) else req
  }

  predicate FlagWord(word: string) {
    word != "" && word[|word| - 1] != '\n'
  }

  lemma ThreeFlagsRead(req: FetchRequest, a: bool, x: string, b: bool, y: string, c: bool, z: string)
    requires FlagWord(x) && FlagWord(y) && FlagWord(z)
    ensures ParseLines(req, Flag(a, x) + Flag(b, y) + Flag(c, z)) == Raise(Raise(Raise(req, a, x), b, y), c, z)
  {
    FlagReadsBack(req, a, x);
    ParseLinesConcat(req, Flag(a, x), Flag(b, y));
    FlagReadsBack(Raise(req, a, x), b, y);
    ParseLinesConcat(req, Flag(a, x) + Flag(b, y), Flag(c, z));
    FlagReadsBack(Raise(Raise(req, a, x), b, y), c, z);
  }

  lemma FlagsRead(req: FetchRequest)
    ensures ParseLines(Empty, FlagLines(req)) == WithFlags(req)
  {
    PackFlagsRead(req);
    OtherFlagsRead(req);
    ParseLinesConcat(Empty, PackFlags(req), OtherFlags(req));
  }

  function WithIds(req: FetchRequest): FetchRequest {
    WithFlags(req).(filter := Normalize(req).filter, wants := req.wants, haves := req.haves, shallow := req.shallow)
  }

  lemma IdsRead(req: FetchRequest)
    requires Printable(req)
    ensures ParseLines(WithFlags(req), IdLines(req)) == WithIds(req)
  {
    var start := WithFlags(req);
    var filtered := start.(filter := Normalize(req).filter);
    var wanted := filtered.(wants := req.wants, haves := req.haves);
    assert ParseLines(start, Named("filter ", Optional(req.filter))) == filtered by {
      FilterRead(start, req.filter);
    }
    assert ParseLines(filtered, Named("want ", req.wants) + Named("have ", req.haves)) == wanted by {
      WantsHavesRead(filtered, req.wants, req.haves);
    }
    assert ParseLines(wanted, Named("shallow ", req.shallow)) == WithIds(req) by {
      ShallowsRead(wanted, req.shallow);
      assert [] + req.shallow == req.shallow;
    }
    FourParts(start, Named("filter ", Optional(req.filter)), Named("want ", req.wants), Named("have ", req.haves),
              Named("shallow ", req.shallow), filtered, wanted, WithIds(req));
  }

  lemma FourParts(start: FetchRequest, a: seq<string>, b: seq<string>, c: seq<string>, d: seq<string>,
                  x: FetchRequest, y: FetchRequest, z: FetchRequest)
    requires ParseLines(start, a) == x && ParseLines(x, b + c) == y && ParseLines(y, d) == z
    ensures ParseLines(start, a + b + c + d) == z
  {
    ThreeInTwo(a, b, c);
    ParseLinesConcat(start, a, b + c);
    ParseLinesConcat(start, a + b + c, d);
  }

  lemma ThreeInTwo(a: seq<string>, b: seq<string>, c: seq<string>)
    ensures a + (b + c) == a + b + c
  {
  }

  lemma WantsHavesRead(start: FetchRequest, wants: seq<string>, haves: seq<string>)
    requires AllOids(wants) && AllOids(haves) && start.wants == [] && start.haves == []
    ensures ParseLines(start, Named("want ", wants) + Named("have ", haves)) == start.(wants := wants, haves := haves)
  {
    WantsAndHaves(start, wants, []);
    ParseLinesConcat(start, Named("want ", wants), Named("have ", haves));
    WantsAndHaves(ParseLines(start, Named("want ", wants)), [], haves);
    assert [] + wants == wants && [] + haves == haves;
  }

  function WithDepth(req: FetchRequest): FetchRequest {
    WithIds(req).(deepen := req.deepen, deepenSince := req.deepenSince)
  }

  lemma DepthsRead(req: FetchRequest)
    requires Printable(req)
    ensures ParseLines(WithIds(req), DepthLines(req)) == WithDepth(req)
  {
    var start := WithIds(req);
    var a, b := Named("deepen ", Optional(DeepenText(req))), Named("deepen-since ", Optional(SinceText(req)));
    DeepenRead(start, req);
    ParseLinesConcat(start, a, b);
    SinceRead(ParseLines(start, a), req);
  }

  function WithNames(req: FetchRequest): FetchRequest {
    WithDepth(req).(deepenNot := Trimmed(req.deepenNot), wantRefs := Trimmed(req.wantRefs))
  }

  lemma NamesRead(start: FetchRequest, deepenNot: seq<string>, wantRefs: seq<string>)
    requires start.deepenNot == [] && start.wantRefs == []
    ensures ParseLines(start, Named("deepen-not ", deepenNot) + Named("want-ref ", wantRefs)) ==
            start.(deepenNot := Trimmed(deepenNot), wantRefs := Trimmed(wantRefs))
  {
    var middle := start.(deepenNot := Trimmed(deepenNot));
    assert ParseLines(start, Named("deepen-not ", deepenNot)) == middle by {
      NotsRead(start, deepenNot);
      assert [] + Trimmed(deepenNot) == Trimmed(deepenNot);
    }
    ParseLinesConcat(start, Named("deepen-not ", deepenNot), Named("want-ref ", wantRefs));
    RefsRead(middle, wantRefs);
    assert [] + Trimmed(wantRefs) == Trimmed(wantRefs);
  }

  lemma DoneRead(req: FetchRequest, done: bool)
    ensures ParseLines(req, Flag(done, "done")) == if done then req.(done := true) else req
  {
    FlagReadsBack(req, done, "done");
    ClassifyPackFlags();
  }

  lemma LastRead(req: FetchRequest)
    ensures ParseLines(WithDepth(req), NameLines(req)) == Normalize(req)
  {
    NamesRead(WithDepth(req), req.deepenNot, req.wantRefs);
    ParseLinesConcat(WithDepth(req), Named("deepen-not ", req.deepenNot) + Named("want-ref ", req.wantRefs), Flag(req.done, "done"));
    DoneRead(WithNames(req), req.done);
    assert Normalize(req) == if req.done then WithNames(req).(done := true) else WithNames(req);
  }

  lemma LinesReadBack(req: FetchRequest)
    requires Printable(req)
    ensures ParseLines(Empty, BodyLines(req)) == Normalize(req)
  {
    FlagsRead(req);
    IdsRead(req);
    DepthsRead(req);
    LastRead(req);
    ParseLinesConcat(Empty, FlagLines(req), IdLines(req));
    ParseLinesConcat(Empty, FlagLines(req) + IdLines(req), DepthLines(req));
    ParseLinesConcat(Empty, FlagLines(req) + IdLines(req) + DepthLines(req), NameLines(req));
  }

  // ---------------------------------------------------------------------------
  // The preamble
  // ---------------------------------------------------------------------------

  /** One line before the delimiter: the command, a `key=value` capability, or a bare word. */
  function ReadHeader(cmd: Command, line: string): Command {
    var s := TrimEnd(line);
    if "command=" <= s then cmd.(name := Some(s[8..]))
    else
      match Cut(s, '=')
      case Some((key, value)) => cmd.(caps := cmd.caps[key := value])
      case None =>
        var caps := if s != "" && ' ' !in s && s !in cmd.caps then cmd.caps[s := ""] else cmd.caps;
        cmd.(caps := caps, args := cmd.args + [s])
  }

  function ReadHeaders(cmd: Command, lines: seq<string>): Command {
    if lines == [] then cmd else ReadHeader(ReadHeaders(cmd, lines[..|lines| - 1]), lines[|lines| - 1])
  }

  const NoCommand: Command := Command(None, map[], [])

  function ReadPreamble(buf: string): Result<(Command, string), FetchError> {
    match ReadLines(buf)
    case Err(e) => Err(BadFrame(e))
    case Ok((lines, rest)) =>
      var cmd := ReadHeaders(NoCommand, lines);
      if cmd.name.None? then Err(MissingCommand) else Ok((cmd, rest))
  }

  method ReadCommand(r: Reader) returns (res: Result<Command, FetchError>)
    modifies r
    ensures match ReadPreamble(old(r.rest)) {
              case Ok((cmd, rest)) => res == Ok(cmd) && r.rest == rest
              case Err(e) => res == Err(e)
            }
  {
    var cmd := NoCommand;
    ghost var before, lines := r.rest, [];
    assert forall x: seq<string> :: [] + x == x;
    while true
      invariant cmd == ReadHeaders(NoCommand, lines)
      invariant match ReadLines(r.rest) {
                  case Ok((more, rest)) => ReadLines(before) == Ok((lines + more, rest))
                  case Err(e) => ReadLines(before) == Err(e)
                }
      decreases |r.rest|
    {
      var line := r.ReadPktLine();
      if line.Err? {
        return Err(BadFrame(line.error));
      }
      if line.value.None? || !line.value.value.Data? {
        assert lines + [] == lines;
        break;
      }
      var bytes := line.value.value.bytes;
      lines := lines + [bytes];
      assert lines[..|lines| - 1] + [bytes] == lines;
      assert forall x :: lines + x == lines[..|lines| - 1] + ([bytes] + x);
      cmd := ReadHeader(cmd, bytes);
    }
    return if cmd.name.None? then Err(MissingCommand) else Ok(cmd);
  }

  function FetchCommand(format: ObjectFormat): Command {
    Command(Some("fetch"), map["object-format" := FormatName(format)], [])
  }

  lemma HeadersReadBack(format: ObjectFormat)
    ensures ReadHeaders(NoCommand, HeaderLines(format)) == FetchCommand(format)
  {
    var lines := HeaderLines(format);
    assert lines[..1] == [lines[0]] && lines[..1][..0] == [];
    assert ReadHeaders(NoCommand, lines[..1]) == ReadHeader(NoCommand, lines[0]);
    CommandRead();
    FormatRead(format);
  }

  lemma CommandRead()
    ensures ReadHeader(NoCommand, "command=fetch\n") == NoCommand.(name := Some("fetch"))
  {
    var line := "command=fetch\n";
    assert line[|line| - 1] == '\n' && line[..|line| - 1] == "command=fetch";
    assert TrimEnd("command=fetch") == "command=fetch";
    assert "command=fetch"[8..] == "fetch";
  }

  lemma FormatRead(format: ObjectFormat)
    ensures ReadHeader(NoCommand.(name := Some("fetch")), "object-format=" + FormatName(format) + "\n") == FetchCommand(format)
  {
    var text := "object-format=" + FormatName(format);
    var line := text + "\n";
    assert line[|line| - 1] == '\n' && line[..|line| - 1] == text;
    assert text[|text| - 1] == '1' || text[|text| - 1] == '6';
    assert TrimEnd(line) == text && text[0] == 'o';
    assert text == "object-format" + ['='] + FormatName(format);
    CutAt("object-format", '=', FormatName(format));
    assert "command="[0] == 'c' && !("command=" <= text);
    assert Cut(text, '=') == Some(("object-format", FormatName(format)));
  }

  // ---------------------------------------------------------------------------
  // Printer and parser
  // ---------------------------------------------------------------------------

  /** Printer and parser undo each other up to trailing newlines: reading the preamble and then the
      body of a printed request gives the request back, with every list in order. */
  lemma FetchReadsBack(req: FetchRequest, format: ObjectFormat)
    requires Printable(req) && Framable(BodyLines(req))
    ensures var body := Frames(BodyLines(req)) + "0000";
            && ReadPreamble(RequestText(req, format)) == Ok((FetchCommand(format), body))
            && ParseBody(body) == Ok((Normalize(req), ""))
  {
    var body := Frames(BodyLines(req)) + "0000";
    SectionEnds(body);
    FramesThen(HeaderLines(format), "0001" + body, body);
    HeadersReadBack(format);
    FramesReadBack(BodyLines(req), "");
    assert body + "" == body;
    LinesReadBack(req);
  }

  predicate EndsInNewline(s: string) {
    s != "" && s[|s| - 1] == '\n'
  }

  /** The exact condition: a request survives unchanged if and only if none of its strings ends in
      a newline. */
  lemma SurvivesIff(req: FetchRequest)
    ensures Normalize(req) == req <==>
            && (req.filter.Some? ==> !EndsInNewline(req.filter.value))
            && (forall i | 0 <= i < |req.deepenNot| :: !EndsInNewline(req.deepenNot[i]))
            && (forall i | 0 <= i < |req.wantRefs| :: !EndsInNewline(req.wantRefs[i]))
  {
    TrimmedIff(req.deepenNot);
    TrimmedIff(req.wantRefs);
    if req.filter.Some? {
      TrimShrinks(req.filter.value);
    }
  }

  /** A ref name that ends in a newline arrives without it. */
  lemma NewlineIsLost(name: string)
    requires name != "" && name[|name| - 1] != '\n' && |name| < 100
    ensures var req := Empty.(wantRefs := [name + "\n"]);
            ParseBody(Frames(BodyLines(req)) + "0000") == Ok((Empty.(wantRefs := [name]), ""))
  {
    var req := Empty.(wantRefs := [name + "\n"]);
    WantRefLines(req);
    FetchReadsBack(req, Sha1);
    OneNewlineTrimmed(name);
  }

  lemma OneNewlineTrimmed(name: string)
    requires name != "" && name[|name| - 1] != '\n'
    ensures Normalize(Empty.(wantRefs := [name + "\n"])) == Empty.(wantRefs := [name])
  {
    TrimTail(name, "\n");
    assert "\n"[..0] == "" && name + "" == name;
    assert Trimmed([name + "\n"]) == [name] && Trimmed([]) == [];
  }

  lemma WantRefLines(req: FetchRequest)
    requires req == Empty.(wantRefs := req.wantRefs) && |req.wantRefs| == 1 && |req.wantRefs[0]| <= 100
    ensures Framable(BodyLines(req))
  {
  }

  lemma {:induction false} TrimShrinks(s: string)
    ensures |TrimNewlines(s)| <= |s| && (TrimNewlines(s) == s <==> !EndsInNewline(s))
    decreases |s|
  {
    if EndsInNewline(s) {
      TrimShrinks(s[..|s| - 1]);
    }
  }

  lemma TrimmedIff(items: seq<string>)
    ensures Trimmed(items) == items <==> forall i | 0 <= i < |items| :: !EndsInNewline(items[i])
  {
    forall i | 0 <= i < |items| ensures Trimmed(items)[i] == items[i] <==> !EndsInNewline(items[i]) {
      TrimShrinks(items[i]);
    }
  }

  // ---------------------------------------------------------------------------
  // The printer
  // ---------------------------------------------------------------------------

  method AppendLine(out: string, line: string, ghost buf: string, ghost lines: seq<string>) returns (out': string)
    requires out == buf + Frames(lines)
    ensures out' == buf + Frames(lines + [line])
  {
    FramesSnoc(lines, line);
    out' := out + EncodeData(line);
  }

  method AppendNamed(buf: string, keyword: string, items: seq<string>) returns (out: string)
    ensures out == buf + Frames(Named(keyword, items))
  {
    out := buf;
    assert Frames(Named(keyword, items[..0])) == "" && buf + "" == buf;
    for i := 0 to |items|
      invariant out == buf + Frames(Named(keyword, items[..i]))
    {
      var line := keyword + items[i] + "\n";
      out := AppendLine(out, line, buf, Named(keyword, items[..i]));
      assert Named(keyword, items[..i + 1]) == Named(keyword, items[..i]) + [line];
    }
    assert items[..|items|] == items;
  }

  method AppendFlag(buf: string, set_: bool, word: string) returns (out: string)
    ensures out == buf + Frames(Flag(set_, word))
  {
    out := buf;
    assert buf + "" == buf;
    if set_ {
      out := AppendLine(out, word + "\n", buf, []);
      assert [] + [word + "\n"] == Flag(set_, word);
    }
  }

  /** Two sections written one after the other. */
  lemma Then(buf: string, a: seq<string>, b: seq<string>)
    ensures buf + Frames(a) + Frames(b) == buf + Frames(a + b)
  {
    FramesConcat(a, b);
  }

  method AppendPackFlags(buf: string, req: FetchRequest) returns (out: string)
    ensures out == buf + Frames(PackFlags(req))
  {
    ghost var a, b, c := Flag(req.thinPack, "thin-pack"), Flag(req.ofsDelta, "ofs-delta"), Flag(req.noProgress, "no-progress");
    out := AppendFlag(buf, req.thinPack, "thin-pack");
    out := AppendFlag(out, req.ofsDelta, "ofs-delta");
    out := AppendFlag(out, req.noProgress, "no-progress");
    Then(buf, a, b);
    Then(buf, a + b, c);
  }

  method AppendOtherFlags(buf: string, req: FetchRequest) returns (out: string)
    ensures out == buf + Frames(OtherFlags(req))
  {
    ghost var d, e, f := Flag(req.includeTag, "include-tag"), Flag(req.sidebandAll, "sideband-all"), Flag(req.waitForDone, "wait-for-done");
    out := AppendFlag(buf, req.includeTag, "include-tag");
    out := AppendFlag(out, req.sidebandAll, "sideband-all");
    out := AppendFlag(out, req.waitForDone, "wait-for-done");
    Then(buf, d, e);
    Then(buf, d + e, f);
  }

  method AppendFlags(buf: string, req: FetchRequest) returns (out: string)
    ensures out == buf + Frames(FlagLines(req))
  {
    out := AppendPackFlags(buf, req);
    out := AppendOtherFlags(out, req);
    Then(buf, PackFlags(req), OtherFlags(req));
  }

  method AppendIds(buf: string, req: FetchRequest) returns (out: string)
    ensures out == buf + Frames(IdLines(req))
  {
    ghost var a, b, c, d := Named("filter ", Optional(req.filter)), Named("want ", req.wants), Named("have ", req.haves), Named("shallow ", req.shallow);
    out := AppendNamed(buf, "filter ", Optional(req.filter));
    out := AppendNamed(out, "want ", req.wants);
    out := AppendNamed(out, "have ", req.haves);
    out := AppendNamed(out, "shallow ", req.shallow);
    Then(buf, a, b);
    Then(buf, a + b, c);
    Then(buf, a + b + c, d);
  }

  method AppendRest(buf: string, req: FetchRequest) returns (out: string)
    ensures out == buf + Frames(DepthLines(req)) + Frames(NameLines(req))
  {
    out := AppendNamed(buf, "deepen ", Optional(DeepenText(req)));
    out := AppendNamed(out, "deepen-since ", Optional(SinceText(req)));
    Then(buf, Named("deepen ", Optional(DeepenText(req))), Named("deepen-since ", Optional(SinceText(req))));
    ghost var depth := out;
    ghost var c, d, e := Named("deepen-not ", req.deepenNot), Named("want-ref ", req.wantRefs), Flag(req.done, "done");
    out := AppendNamed(out, "deepen-not ", req.deepenNot);
    out := AppendNamed(out, "want-ref ", req.wantRefs);
    out := AppendFlag(out, req.done, "done");
    Then(depth, c, d);
    Then(depth, c + d, e);
  }

  method AppendHeader(format: ObjectFormat) returns (out: string)
    ensures out == Frames(HeaderLines(format)) + "0001"
  {
    var last := "object-format=" + FormatName(format) + "\n";
    out := AppendLine("", "command=fetch\n", "", []);
    assert [] + ["command=fetch\n"] == ["command=fetch\n"];
    out := AppendLine(out, last, "", ["command=fetch\n"]);
    assert ["command=fetch\n"] + [last] == HeaderLines(format);
    assert "" + Frames(HeaderLines(format)) == Frames(HeaderLines(format));
    out := out + "0001";
  }

  method BuildFetchRequest(req: FetchRequest, format: ObjectFormat) returns (out: string)
    ensures out == RequestText(req, format)
  {
    out := AppendHeader(format);
    out := AppendFlags(out, req);
    out := AppendIds(out, req);
    out := AppendRest(out, req);
    out := out + "0000";
    Grouped(Frames(HeaderLines(format)), "0001", Frames(FlagLines(req)), Frames(IdLines(req)), Frames(DepthLines(req)), Frames(NameLines(req)), "0000");
    FourSections(FlagLines(req), IdLines(req), DepthLines(req), NameLines(req));
  }

  lemma Grouped(h: string, z: string, a: string, b: string, c: string, d: string, e: string)
    ensures h + z + a + b + c + d + e == h + (z + (a + b + c + d + e))
  {
  }

  lemma FourSections(a: seq<string>, b: seq<string>, c: seq<string>, d: seq<string>)
    ensures Frames(a) + Frames(b) + Frames(c) + Frames(d) == Frames(a + b + c + d)
  {
    FramesConcat(a, b);
    FramesConcat(a + b, c);
    FramesConcat(a + b + c, d);
  }

  // ---------------------------------------------------------------------------
  // The words of the wire
  // ---------------------------------------------------------------------------

  lemma NamedOne(keyword: string, item: string)
    ensures Named(keyword, [item]) == [keyword + item + "\n"] && Named(keyword, []) == []
  {
  }

  /** Each part of a request is one line, with these words. */
  lemma WireWords(x: string, n: nat, t: int)
    ensures BodyLines(Empty) == []
    ensures BodyLines(Empty.(wants := [x])) == ["want " + x + "\n"] && BodyLines(Empty.(haves := [x])) == ["have " + x + "\n"]
    ensures BodyLines(Empty.(shallow := [x])) == ["shallow " + x + "\n"]
    ensures BodyLines(Empty.(filter := Some(x))) == ["filter " + x + "\n"]
    ensures BodyLines(Empty.(deepenNot := [x])) == ["deepen-not " + x + "\n"]
    ensures BodyLines(Empty.(wantRefs := [x])) == ["want-ref " + x + "\n"]
    ensures BodyLines(Empty.(deepen := Some(n))) == ["deepen " + Decimal(n) + "\n"]
    ensures BodyLines(Empty.(deepenSince := Some(t))) == ["deepen-since " + PrintI64(t) + "\n"]
  {
    NamedOne("want ", x);
    NamedOne("have ", x);
    NamedOne("shallow ", x);
    NamedOne("filter ", x);
    NamedOne("deepen-not ", x);
    NamedOne("want-ref ", x);
    NamedOne("deepen ", Decimal(n));
    NamedOne("deepen-since ", PrintI64(t));
  }

  lemma WireFlags()
    ensures BodyLines(Empty.(done := true)) == ["done" + "\n"] && BodyLines(Empty.(thinPack := true)) == ["thin-pack" + "\n"]
    ensures BodyLines(Empty.(noProgress := true)) == ["no-progress" + "\n"] && BodyLines(Empty.(includeTag := true)) == ["include-tag" + "\n"]
    ensures BodyLines(Empty.(ofsDelta := true)) == ["ofs-delta" + "\n"] && BodyLines(Empty.(sidebandAll := true)) == ["sideband-all" + "\n"]
    ensures BodyLines(Empty.(waitForDone := true)) == ["wait-for-done" + "\n"]
    ensures HeaderLines(Sha1) == ["command=fetch\n", "object-format=" + "sha1" + "\n"]
    ensures HeaderLines(Sha256) == ["command=fetch\n", "object-format=" + "sha256" + "\n"]
  {
    OnlyFlags(Empty.(done := true));
    OnlyFlags(Empty.(thinPack := true));
    OnlyFlags(Empty.(noProgress := true));
    OnlyFlags(Empty.(includeTag := true));
    OnlyFlags(Empty.(ofsDelta := true));
    OnlyFlags(Empty.(sidebandAll := true));
    OnlyFlags(Empty.(waitForDone := true));
  }

  lemma OnlyFlags(req: FetchRequest)
    requires req.filter.None? && req.deepen.None? && req.deepenSince.None?
    requires req.wants == req.haves == req.shallow == req.deepenNot == req.wantRefs == []
    ensures BodyLines(req) == PackFlags(req) + OtherFlags(req) + Flag(req.done, "done")
  {
    assert IdLines(req) == [] && DepthLines(req) == [];
  }

  /** Depths of 32 bits and times of 64 bits with a sign read back, and no others. */
  lemma NumbersReadBackIff(n: nat, t: int)
    ensures ParseU32(Decimal(n)) == Some(n) <==> n < 4294967296
    ensures ParseI64(PrintI64(t)) == Some(t) <==> -9223372036854775808 <= t < 9223372036854775808
  {
    DecimalReadsBack(n);
    if -TWO_63 <= t < TWO_63 {
      I64ReadsBack(t);
    } else {
      DecimalReadsBack(if t < 0 then -t else t);
      assert t < 0 ==> PrintI64(t)[1..] == Decimal(-t);
    }
  }

  lemma NotTrimmed(s: string)
    requires s == "" || !IsSpace(s[|s| - 1])
    ensures TrimEnd(s) == s
  {
  }

  /** A line of the preamble names the command, gives a capability its value, or is a bare word, which
      is an argument and, without spaces, also a capability with no value. */
  lemma HeaderLineMeans(cmd: Command, key: string, value: string, word: string)
    requires value != "" && !IsSpace(value[|value| - 1]) && '=' !in key && key != "command"
    requires word != "" && !IsSpace(word[|word| - 1]) && '=' !in word
    ensures ReadHeader(cmd, "command=" + value) == cmd.(name := Some(value))
    ensures ReadHeader(cmd, key + "=" + value) == cmd.(caps := cmd.caps[key := value])
    ensures ReadHeader(cmd, word) == Command(cmd.name, if ' ' in word || word in cmd.caps then cmd.caps else cmd.caps[word := ""],
                                             cmd.args + [word])
  {
    var first, second := "command=" + value, key + "=" + value;
    NotTrimmed(first);
    NotTrimmed(second);
    NotTrimmed(word);
    assert first[8..] == value;
    CutAt(key, '=', value);
    assert second == key + ['='] + value;
    OtherKey(key, value);
    CutNowhere(word, '=');
    NoKey(word);
  }

  lemma NoKey(word: string)
    requires '=' !in word
    ensures !("command=" <= word)
  {
    assert "command="[7] == '=' && (|word| > 7 ==> word[7] != '=');
  }

  lemma OtherKey(key: string, value: string)
    requires '=' !in key && key != "command"
    ensures !("command=" <= key + "=" + value)
  {
    var line, word := key + "=" + value, "command=";
    assert line[|key|] == '=' && word[7] == '=' && forall i | 0 <= i < 7 :: word[i] != '=';
    if |key| > 7 {
      assert line[7] == key[7];
    } else if |key| == 7 {
      assert line[..7] == key && word[..7] == "command";
    }
  }

  /** An object id is 40 or 64 hexadecimal digits in either case; it is read in lower case. */
  lemma OidsReadIff(s: string, i: nat)
    ensures FromHex(s).Some? <==>
            (|s| == 40 || |s| == 64) && forall k | 0 <= k < |s| :: s[k] in "0123456789abcdef" || s[k] in "ABCDEF"
    ensures FromHex(s).Some? && i < |s| ==>
              var c := FromHex(s).value;
              |c| == |s| && (s[i] in "0123456789abcdef" ==> c[i] == s[i])
              && forall d | 0 <= d < 6 :: s[i] == "ABCDEF"[d] ==> c[i] == "abcdef"[d]
  {
    forall k | 0 <= k < |s| ensures LowerHex(s[k]).Some? <==> s[k] in "0123456789abcdef" || s[k] in "ABCDEF" {
      HexDigitIff(s[k]);
    }
    if i < |s| {
      HexDigitIff(s[i]);
    }
  }

  lemma HexDigitIff(c: char)
    ensures LowerHex(c).Some? <==> c in "0123456789abcdef" || c in "ABCDEF"
    ensures c in "0123456789abcdef" ==> LowerHex(c) == Some(c)
    ensures forall d | 0 <= d < 6 :: c == "ABCDEF"[d] ==> LowerHex(c) == Some("abcdef"[d])
  {
    var lower, upper := "0123456789abcdef", "ABCDEF";
    if '0' <= c <= '9' {
      assert lower[(c - '0') as int] == c;
    } else if 'a' <= c <= 'f' {
      assert lower[10 + (c - 'a') as int] == c;
    } else if 'A' <= c <= 'F' {
      assert upper[(c - 'A') as int] == c;
    }
  }
}
