/**
  pkt-lines ("pkt-line Format" in gitprotocol-common) and side-band framing ("Packfile Data" in
  gitprotocol-pack). Bytes on the wire are characters.
 */
module PktLine {
  import opened Prelude

  datatype Pkt = Data(bytes: string) | Flush | Delim | ResponseEnd

  datatype PktError = ShortHeader | NotHex | BadLength | Truncated

  const MAX_PKT_DATA: nat := 65516

  // ---------------------------------------------------------------------------
  // One line
  // ---------------------------------------------------------------------------

  function HexDigit(d: nat): char
    requires d < 16
  {
    "0123456789abcdef"[d]
  }

  function DigitValue(c: char): Option<nat> {
    if '0' <= c <= '9' then Some((c - '0') as nat)
    else if 'a' <= c <= 'f' then Some((c - 'a') as nat + 10)
    else if 'A' <= c <= 'F' then Some((c - 'A') as nat + 10)
    else None
  }

  /** Digits in either case, and nothing else. */
  lemma DigitsIff(c: char, d: nat)
    requires d < 16
    ensures DigitValue("0123456789abcdef"[d]) == Some(d) && DigitValue("0123456789ABCDEF"[d]) == Some(d)
    ensures DigitValue(c).Some? ==> DigitValue(c).value < 16
    ensures DigitValue(c) == Some(d) ==> c == "0123456789abcdef"[d] || c == "0123456789ABCDEF"[d]
  {
  }

  /** Four digits: only sixteen bits of the length are written. */
  function Header(total: nat): (h: string)
    ensures |h| == 4
  {
    [HexDigit(total / 4096 % 16), HexDigit(total / 256 % 16), HexDigit(total / 16 % 16), HexDigit(total % 16)]
  }

  function EncodeData(data: string): string {
    Header(|data| + 4) + data
  }

  function ParseHex(digits: string, value: nat): Option<nat>
    decreases |digits|
  {
    if digits == "" then Some(value)
    else
      var d := DigitValue(digits[0]);
      if d.None? then None else ParseHex(digits[1..], value * 16 + d.value)
  }

  method ParsePktLen(header: string) returns (r: Option<nat>)
    ensures r == ParseHex(header, 0)
  {
    var val := 0;
    for i := 0 to |header|
      invariant ParseHex(header, 0) == ParseHex(header[i..], val)
    {
      var d := DigitValue(header[i]);
      if d.None? {
        return None;
      }
      val := val * 16 + d.value;
    }
    return Some(val);
  }

  /** The next line and what follows it; no line at the end of the stream. */
  function ReadPkt(buf: string): (r: Result<(Option<Pkt>, string), PktError>)
    ensures r.Ok? && r.value.0.Some? ==> |r.value.1| < |buf|
    ensures r.Ok? && r.value.0.None? ==> buf == r.value.1 == ""
  {
    if buf == "" then Ok((None, ""))
    else if |buf| < 4 then Err(ShortHeader)
    else
      var length := ParseHex(buf[..4], 0);
      if length.None? then Err(NotHex)
      else if length.value == 0 then Ok((Some(Flush), buf[4..]))
      else if length.value == 1 then Ok((Some(Delim), buf[4..]))
      else if length.value == 2 then Ok((Some(ResponseEnd), buf[4..]))
      else if length.value < 4 then Err(BadLength)
      else if |buf| < length.value then Err(Truncated)
      else Ok((Some(Data(buf[4..length.value])), buf[length.value..]))
  }

  /** Which bytes are refused, and why. */
  lemma ErrorsIff(buf: string)
    ensures ReadPkt(buf) == Err(ShortHeader) <==> 0 < |buf| < 4
    ensures ReadPkt(buf) == Err(NotHex) <==> |buf| >= 4 && exists i | 0 <= i < 4 :: DigitValue(buf[i]).None?
    ensures |buf| >= 4 && ParseHex(buf[..4], 0).Some? ==>
              var n := ParseHex(buf[..4], 0).value;
              (ReadPkt(buf) == Err(BadLength) <==> n == 3) && (ReadPkt(buf) == Err(Truncated) <==> n > 3 && n > |buf|)
  {
    if |buf| >= 4 {
      HexIff(buf[..4], 0);
      assert forall i | 0 <= i < 4 :: buf[..4][i] == buf[i];
    }
  }

  lemma {:induction false} HexIff(digits: string, value: nat)
    ensures ParseHex(digits, value).None? <==> exists i | 0 <= i < |digits| :: DigitValue(digits[i]).None?
    decreases |digits|
  {
    if digits != "" {
      var d := DigitValue(digits[0]);
      if d.Some? {
        HexIff(digits[1..], value * 16 + d.value);
        assert forall i | 0 <= i < |digits| - 1 :: digits[1..][i] == digits[i + 1];
        if i :| 0 <= i < |digits| && DigitValue(digits[i]).None? {
          assert digits[1..][i - 1] == digits[i];
        }
      }
    }
  }

  /** A stream of bytes, consumed from the front. */
  class Reader {
    var rest: string

    constructor (bytes: string)
      ensures rest == bytes
    {
      rest := bytes;
    }

    method ReadPktLine() returns (r: Result<Option<Pkt>, PktError>)
      modifies this
      ensures match ReadPkt(old(rest)) { case Ok((pkt, left)) => r == Ok(pkt) && rest == left case Err(e) => r == Err(e) }
    {
      var header := if |rest| < 4 then rest else rest[..4];
      if header == "" {
        return Ok(None);
      }
      if |header| < 4 {
        return Err(ShortHeader);
      }
      var length := ParsePktLen(header);
      if length.None? {
        return Err(NotHex);
      }
      var n := length.value;
      if n <= 2 {
        rest := rest[4..];
        return Ok(Some(if n == 0 then Flush else if n == 1 then Delim else ResponseEnd));
      }
      if n < 4 {
        return Err(BadLength);
      }
      if |rest| < n {
        return Err(Truncated);
      }
      var body := rest[4..n];
      rest := rest[n..];
      return Ok(Some(Data(body)));
    }
  }

  lemma DigitRoundTrip(d: nat)
    requires d < 16
    ensures DigitValue(HexDigit(d)) == Some(d)
  {
  }

  lemma {:induction false} ParseDigits(a: nat, b: nat, c: nat, d: nat)
    requires a < 16 && b < 16 && c < 16 && d < 16
    ensures ParseHex([HexDigit(a), HexDigit(b), HexDigit(c), HexDigit(d)], 0) == Some(((a * 16 + b) * 16 + c) * 16 + d)
  {
    DigitRoundTrip(a);
    DigitRoundTrip(b);
    DigitRoundTrip(c);
    DigitRoundTrip(d);
    var s := [HexDigit(a), HexDigit(b), HexDigit(c), HexDigit(d)];
    assert s[1..] == [HexDigit(b), HexDigit(c), HexDigit(d)];
    assert s[1..][1..] == [HexDigit(c), HexDigit(d)];
    assert s[1..][1..][1..] == [HexDigit(d)];
    assert s[1..][1..][1..][1..] == [];
    assert ParseHex(s, 0) == ParseHex(s[1..], a);
    assert ParseHex(s[1..], a) == ParseHex(s[1..][1..], a * 16 + b);
    assert ParseHex(s[1..][1..], a * 16 + b) == ParseHex(s[1..][1..][1..], (a * 16 + b) * 16 + c);
  }

  /** The header says the length modulo two to the sixteenth. */
  lemma HeaderSays(total: nat)
    ensures ParseHex(Header(total), 0) == Some(total % 65536)
  {
    ParseDigits(total / 4096 % 16, total / 256 % 16, total / 16 % 16, total % 16);
    HexDigits(total);
  }

  lemma HexDigits(n: nat)
    ensures ((n / 4096 % 16 * 16 + n / 256 % 16) * 16 + n / 16 % 16) * 16 + n % 16 == n % 65536
  {
    DivTwice(n);
    OneDigit(n);
    OneDigit(n / 16);
    OneDigit(n / 16 / 16);
    OneDigit(n / 16 / 16 / 16);
    FourDigits(n, n / 16, n / 16 / 16, n / 16 / 16 / 16, n / 16 / 16 / 16 / 16, n % 16, n / 16 % 16, n / 16 / 16 % 16, n / 16 / 16 / 16 % 16);
  }

  lemma DivTwice(n: nat)
    ensures n / 256 == n / 16 / 16 && n / 4096 == n / 16 / 16 / 16
  {
  }

  lemma OneDigit(n: nat)
    ensures n == 16 * (n / 16) + n % 16
  {
  }

  lemma FourDigits(n: nat, q1: nat, q2: nat, q3: nat, q4: nat, d0: nat, d1: nat, d2: nat, d3: nat)
    requires n == 16 * q1 + d0 && q1 == 16 * q2 + d1 && q2 == 16 * q3 + d2 && q3 == 16 * q4 + d3
    requires d0 < 16 && d1 < 16 && d2 < 16 && d3 < 16
    ensures ((d3 * 16 + d2) * 16 + d1) * 16 + d0 == n % 65536
  {
    var low := ((d3 * 16 + d2) * 16 + d1) * 16 + d0;
    assert n == 65536 * q4 + low && low < 65536;
  }

  lemma ReadFramed(header: string, n: nat, data: string, rest: string)
    requires |header| == 4 && ParseHex(header, 0) == Some(n)
    ensures ReadPkt(header + data + rest) == Ok((Some(Data(data)), rest)) <==> n == |data| + 4
  {
    var buf := header + data + rest;
    assert buf[..4] == header;
    if n == |data| + 4 {
      assert buf[4..n] == data && buf[n..] == rest;
    }
  }

  /** The exact condition: a data line reads back if and only if its length fits sixteen bits. */
  lemma DataReadsBackIff(data: string, rest: string)
    ensures ReadPkt(EncodeData(data) + rest) == Ok((Some(Data(data)), rest)) <==> |data| + 4 < 65536
  {
    var header := Header(|data| + 4);
    assert ParseHex(header, 0) == Some((|data| + 4) % 65536) by {
      HeaderSays(|data| + 4);
    }
    FitsIff(|data| + 4);
    ReadFramed(header, (|data| + 4) % 65536, data, rest);
  }

  /** A line of 65532 bytes is framed as a flush: the reader stops before its data. */
  lemma LongLineReadsAsFlush(data: string, rest: string)
    requires |data| == 65532
    ensures ReadPkt(EncodeData(data) + rest) == Ok((Some(Flush), data + rest))
  {
    HeaderSays(65536);
    ZeroIsFlush(Header(|data| + 4), data, rest);
  }

  lemma ZeroIsFlush(header: string, data: string, rest: string)
    requires |header| == 4 && ParseHex(header, 0) == Some(0)
    ensures ReadPkt(header + data + rest) == Ok((Some(Flush), data + rest))
  {
    var buf := header + data + rest;
    assert buf[..4] == header && buf[4..] == data + rest;
  }

  lemma FitsIff(n: nat)
    ensures n % 65536 == n <==> n < 65536
  {
  }

  lemma ControlReadsBack(rest: string)
    ensures ReadPkt("0000" + rest) == Ok((Some(Flush), rest))
    ensures ReadPkt("0001" + rest) == Ok((Some(Delim), rest))
  {
    HeaderSays(0);
    HeaderSays(1);
    assert Header(0) == "0000" && Header(1) == "0001";
    ControlPkt(Header(0), 0, rest);
    ControlPkt(Header(1), 1, rest);
  }

  lemma EndReadsBack(rest: string)
    ensures ReadPkt("0002" + rest) == Ok((Some(ResponseEnd), rest)) && ReadPkt("0003" + rest) == Err(BadLength)
  {
    SmallHeader(2, "0002", rest);
    SmallHeader(3, "0003", rest);
  }

  lemma SmallHeader(n: nat, header: string, rest: string)
    requires 2 <= n <= 3 && header == ['0', '0', '0', HexDigit(n)]
    ensures ReadPkt(header + rest) == if n == 3 then Err(BadLength) else Ok((Some(ResponseEnd), rest))
  {
    OneDigitHeader(n);
    HeaderSays(n);
    ControlPkt(header, n, rest);
  }

  lemma OneDigitHeader(n: nat)
    requires n < 16
    ensures Header(n) == ['0', '0', '0', HexDigit(n)]
  {
    assert n / 4096 == 0 && n / 256 == 0 && n / 16 == 0 && n % 16 == n;
  }

  lemma ControlPkt(header: string, n: nat, rest: string)
    requires |header| == 4 && ParseHex(header, 0) == Some(n) && n <= 3
    ensures ReadPkt(header + rest) ==
            if n == 3 then Err(BadLength) else Ok((Some(if n == 0 then Flush else if n == 1 then Delim else ResponseEnd), rest))
  {
    assert (header + rest)[..4] == header && (header + rest)[4..] == rest;
  }

  // ---------------------------------------------------------------------------
  // Sections
  // ---------------------------------------------------------------------------

  predicate Framable(lines: seq<string>) {
    forall i | 0 <= i < |lines| :: |lines[i]| + 4 < 65536
  }

  function Frames(lines: seq<string>): string {
    if lines == [] then "" else EncodeData(lines[0]) + Frames(lines[1..])
  }

  /** Data lines up to the first line that is not data, or to the end of the stream. */
  function ReadLines(buf: string): Result<(seq<string>, string), PktError>
    decreases |buf|
  {
    match ReadPkt(buf)
    case Err(e) => Err(e)
    case Ok((None, _)) => Ok(([], ""))
    case Ok((Some(Data(line)), rest)) =>
      (match ReadLines(rest)
       case Err(e) => Err(e)
       case Ok((more, left)) => Ok(([line] + more, left)))
    case Ok((Some(_), rest)) => Ok(([], rest))
  }

  lemma {:induction false} FramesThen(lines: seq<string>, end: string, rest: string)
    requires Framable(lines) && ReadLines(end) == Ok(([], rest))
    ensures ReadLines(Frames(lines) + end) == Ok((lines, rest))
    decreases |lines|
  {
    if lines == [] {
      assert Frames(lines) + end == end;
    } else {
      FramesThen(lines[1..], end, rest);
      LineThen(lines[0], Frames(lines[1..]) + end, lines[1..], rest);
      FirstFrameThen(lines, end);
    }
  }

  lemma LineThen(line: string, tail: string, others: seq<string>, rest: string)
    requires |line| + 4 < 65536 && ReadLines(tail) == Ok((others, rest))
    ensures ReadLines(EncodeData(line) + tail) == Ok(([line] + others, rest))
  {
    DataReadsBackIff(line, tail);
  }

  lemma FirstFrameThen(lines: seq<string>, end: string)
    requires lines != []
    ensures Frames(lines) + end == EncodeData(lines[0]) + (Frames(lines[1..]) + end)
    ensures lines == [lines[0]] + lines[1..]
  {
    Rejoin(Frames(lines), EncodeData(lines[0]), Frames(lines[1..]), end);
  }

  lemma Rejoin(all: string, first: string, others: string, end: string)
    requires all == first + others
    ensures all + end == first + (others + end)
  {
  }

  /** The result of a reading loop, with what was read before in front. */
  function AfterLines(before: seq<string>, more: Result<(seq<string>, string), PktError>): Result<(seq<string>, string), PktError> {
    if more.Err? then more else Ok((before + more.value.0, more.value.1))
  }

  lemma AfterNoLines(more: Result<(seq<string>, string), PktError>)
    ensures AfterLines([], more) == more
  {
    if more.Ok? {
      assert [] + more.value.0 == more.value.0;
    }
  }

  lemma AfterOneLine(before: seq<string>, line: string, more: Result<(seq<string>, string), PktError>)
    ensures AfterLines(before + [line], more) ==
            if more.Err? then more else AfterLines(before, Ok(([line] + more.value.0, more.value.1)))
  {
    if more.Ok? {
      assert before + [line] + more.value.0 == before + ([line] + more.value.0);
    }
  }

  lemma SectionEnds(rest: string)
    ensures ReadLines("0000" + rest) == Ok(([], rest)) && ReadLines("0001" + rest) == Ok(([], rest))
  {
    ControlReadsBack(rest);
  }

  lemma FramesReadBack(lines: seq<string>, rest: string)
    requires Framable(lines)
    ensures ReadLines(Frames(lines) + "0000" + rest) == Ok((lines, rest))
  {
    SectionEnds(rest);
    FramesThen(lines, "0000" + rest, rest);
    assert Frames(lines) + "0000" + rest == Frames(lines) + ("0000" + rest);
  }

  lemma {:induction false} FramesConcat(a: seq<string>, b: seq<string>)
    ensures Frames(a + b) == Frames(a) + Frames(b)
    decreases |a|
  {
    if a == [] {
      assert a + b == b;
    } else {
      assert (a + b)[1..] == a[1..] + b;
      FramesConcat(a[1..], b);
    }
  }

  lemma FramesSnoc(lines: seq<string>, line: string)
    ensures Frames(lines + [line]) == Frames(lines) + EncodeData(line)
  {
    FramesConcat(lines, [line]);
    assert Frames([line]) == EncodeData(line) + Frames([line][1..]) == EncodeData(line);
  }

  // ---------------------------------------------------------------------------
  // Long data
  // ---------------------------------------------------------------------------

  function Joined(chunks: seq<string>): string {
    if chunks == [] then "" else chunks[0] + Joined(chunks[1..])
  }

  lemma {:induction false} JoinedSnoc(chunks: seq<string>, last: string)
    ensures Joined(chunks + [last]) == Joined(chunks) + last
    decreases |chunks|
  {
    if chunks == [] {
      assert chunks + [last] == [last];
      assert Joined([last]) == last + Joined([last][1..]);
    } else {
      assert (chunks + [last])[1..] == chunks[1..] + [last];
      JoinedSnoc(chunks[1..], last);
    }
  }

  /** A chunk with its channel in front. */
  function Tagged(channel: string, chunks: seq<string>): seq<string> {
    seq(|chunks|, i requires 0 <= i < |chunks| => channel + chunks[i])
  }

  /** `out` is the frames of `chunks`, each with its channel, and the chunks are the data in order. */
  ghost predicate Written(out: string, channel: string, chunks: seq<string>, data: string) {
    out == Frames(Tagged(channel, chunks)) && Framable(Tagged(channel, chunks)) && Joined(chunks) == data
  }

  lemma WrittenMore(out: string, channel: string, chunks: seq<string>, data: string, piece: string)
    requires Written(out, channel, chunks, data) && |channel| + |piece| + 4 < 65536
    ensures Written(out + (Header(|piece| + 4 + |channel|) + channel + piece), channel, chunks + [piece], data + piece)
  {
    JoinedSnoc(chunks, piece);
    FramesSnoc(Tagged(channel, chunks), channel + piece);
    TaggedSnoc(channel, chunks, piece);
    assert EncodeData(channel + piece) == Header(|piece| + 4 + |channel|) + channel + piece by {
      Rejoin(Header(|piece| + 4 + |channel|) + channel, Header(|piece| + 4 + |channel|), channel, piece);
    }
  }

  lemma TaggedSnoc(channel: string, chunks: seq<string>, piece: string)
    ensures Tagged(channel, chunks + [piece]) == Tagged(channel, chunks) + [channel + piece]
  {
  }

  method WriteFrame(out: string, channel: string, piece: string, ghost chunks: seq<string>, ghost data: string) returns (out': string)
    requires Written(out, channel, chunks, data) && |channel| + |piece| + 4 < 65536
    ensures Written(out', channel, chunks + [piece], data + piece)
  {
    WrittenMore(out, channel, chunks, data, piece);
    out' := out + (Header(|piece| + 4 + |channel|) + channel + piece);
  }

  /** The data in pieces of `max` bytes, the last one with what is left; empty data is one empty piece. */
  function Pieces(data: string, max: nat): seq<string>
    requires max > 0
    decreases |data|
  {
    if |data| <= max then [data] else [data[..max]] + Pieces(data[max..], max)
  }

  /** `chunks` are the pieces of the first `off` bytes. */
  predicate SoFar(chunks: seq<string>, data: string, off: nat, max: nat)
    requires max > 0 && off <= |data|
  {
    if off == |data| then chunks == Pieces(data, max) else chunks + Pieces(data[off..], max) == Pieces(data, max)
  }

  lemma OnePieceMore(chunks: seq<string>, data: string, off: nat, max: nat)
    requires max > 0 && off < |data| && SoFar(chunks, data, off, max)
    ensures var chunk := if |data| - off < max then |data| - off else max;
            SoFar(chunks + [data[off..off + chunk]], data, off + chunk, max)
  {
    var rest := data[off..];
    if |rest| <= max {
      assert data[off..|data|] == rest;
    } else {
      assert rest[..max] == data[off..off + max] && rest[max..] == data[off + max..];
      assert chunks + ([data[off..off + max]] + Pieces(data[off + max..], max)) == chunks + [data[off..off + max]] + Pieces(data[off + max..], max);
    }
  }

  /** The first `off` bytes are written. */
  ghost predicate WrittenUpTo(out: string, channel: string, chunks: seq<string>, data: string, off: nat, max: nat)
    requires max > 0 && off <= |data|
  {
    Written(out, channel, chunks, data[..off]) && SoFar(chunks, data, off, max)
  }

  method WriteNext(out: string, channel: string, data: string, off: nat, max: nat, ghost chunks: seq<string>)
    returns (out': string, off': nat, ghost chunks': seq<string>)
    requires 0 < max && |channel| + max <= MAX_PKT_DATA && off < |data| && WrittenUpTo(out, channel, chunks, data, off, max)
    ensures off < off' <= |data| && WrittenUpTo(out', channel, chunks', data, off', max)
  {
    off' := if |data| - off < max then |data| else off + max;
    var piece := data[off..off'];
    OnePieceMore(chunks, data, off, max);
    SlicesJoin(data, off, off');
    chunks' := chunks + [piece];
    out' := WriteFrame(out, channel, piece, chunks, data[..off]);
  }

  lemma SlicesJoin(data: string, i: nat, j: nat)
    requires i <= j <= |data|
    ensures data[..i] + data[i..j] == data[..j]
  {
  }

  /** Write data in lines of at most `max` bytes after an optional channel byte. Empty data is one
      empty line. */
  method WriteChunks(channel: string, data: string, max: nat) returns (out: string, ghost chunks: seq<string>)
    requires 0 < max && |channel| + max <= MAX_PKT_DATA
    ensures Written(out, channel, chunks, data) && chunks == Pieces(data, max)
  {
    out, chunks := "", [];
    assert Tagged(channel, []) == [];
    if data == "" {
      out := WriteFrame(out, channel, "", chunks, "");
      chunks := chunks + [""];
      return;
    }
    var off := 0;
    assert data[0..] == data && chunks + Pieces(data, max) == Pieces(data, max) && data[..0] == "";
    while off < |data|
      invariant 0 <= off <= |data| && WrittenUpTo(out, channel, chunks, data, off, max)
    {
      out, off, chunks := WriteNext(out, channel, data, off, max, chunks);
    }
    assert data[..off] == data;
  }

  /** The data of all lines up to a flush. */
  function Payload(buf: string): Result<(string, string), PktError> {
    match ReadLines(buf)
    case Err(e) => Err(e)
    case Ok((lines, rest)) => Ok((Joined(lines), rest))
  }

  lemma Untagged(chunks: seq<string>)
    ensures Tagged("", chunks) == chunks
  {
    forall i | 0 <= i < |chunks| ensures Tagged("", chunks)[i] == chunks[i] {
      assert "" + chunks[i] == chunks[i];
    }
  }

  /** `write_pkt_line`. */
  method WritePktLine(data: string) returns (out: string)
    ensures forall rest :: Payload(out + "0000" + rest) == Ok((data, rest))
    ensures out == Frames(Pieces(data, 65516))
    ensures |data| <= 65516 ==> forall rest :: ReadPkt(out + rest) == Ok((Some(Data(data)), rest))
  {
    ghost var chunks;
    out, chunks := WriteChunks("", data, MAX_PKT_DATA);
    Untagged(chunks);
    forall rest ensures Payload(out + "0000" + rest) == Ok((data, rest)) {
      FramesReadBack(chunks, rest);
    }
    if |data| <= 65516 {
      OneFrame(data);
      forall rest ensures ReadPkt(out + rest) == Ok((Some(Data(data)), rest)) {
        DataReadsBackIff(data, rest);
      }
    }
  }

  lemma OneFrame(data: string)
    ensures Frames([data]) == EncodeData(data)
  {
    assert [data][1..] == [];
    assert Frames([data]) == EncodeData(data) + Frames([data][1..]);
  }

  /** `Sideband::write_channel`. */
  method WriteChannel(channel: char, data: string) returns (out: string)
    ensures forall rest :: Demultiplexed(channel, out + "0000" + rest) == Ok((data, rest))
    ensures out == Frames(Tagged([channel], Pieces(data, 65515)))
  {
    ghost var chunks;
    out, chunks := WriteChunks([channel], data, MAX_PKT_DATA - 1);
    forall rest ensures Demultiplexed(channel, out + "0000" + rest) == Ok((data, rest)) {
      FramesReadBack(Tagged([channel], chunks), rest);
      ChannelOfTagged(channel, chunks);
    }
  }

  /** What one channel carries. */
  function Channel(lines: seq<string>, channel: char): string {
    if lines == [] then ""
    else (if lines[0] != "" && lines[0][0] == channel then lines[0][1..] else "") + Channel(lines[1..], channel)
  }

  /** Read a side-band stream up to its flush and keep one channel. */
  function Demultiplexed(channel: char, buf: string): Result<(string, string), PktError> {
    match ReadLines(buf)
    case Err(e) => Err(e)
    case Ok((lines, rest)) => Ok((Channel(lines, channel), rest))
  }

  lemma {:induction false} ChannelOfTagged(channel: char, chunks: seq<string>)
    ensures Channel(Tagged([channel], chunks), channel) == Joined(chunks)
    decreases |chunks|
  {
    if chunks != [] {
      ChannelOfTagged(channel, chunks[1..]);
      assert Tagged([channel], chunks)[1..] == Tagged([channel], chunks[1..]);
    }
  }
}
