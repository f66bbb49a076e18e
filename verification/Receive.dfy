/**
  The head of a push ("Reference Update Request and Packfile Transfer" in gitprotocol-pack) and
  its answer ("Report Status" in the same document).
 */
module Receive {
  import opened Prelude
  import opened Wal
  import opened RefsCache
  import opened PktLine

  datatype ReceiveError = BadPkt(error: PktError) | UnexpectedDelim | MissingField | InvalidUpdate

  datatype Caps = Caps(
    reportStatus: bool,
    reportStatusV2: bool,
    sideBand64k: bool,
    atomic: bool,
    quiet: bool,
    pushOptions: bool,
    ofsDelta: bool,
    agent: Option<string>,
    objectFormat: Option<string>)

  const NoCaps: Caps := Caps(false, false, false, false, false, false, false, None, None)

  datatype Request = Request(updates: seq<RefUpdate>, caps: Caps, shallow: seq<string>, options: seq<string>)

  // ---------------------------------------------------------------------------
  // Text
  // ---------------------------------------------------------------------------

  /** Before and after the first `c`. */
  function Cut(s: string, c: char): Option<(string, string)> {
    if s == "" then None
    else if s[0] == c then Some(("", s[1..]))
    else
      var rest := Cut(s[1..], c);
      if rest.None? then None else Some(([s[0]] + rest.value.0, rest.value.1))
  }

  lemma {:induction false} CutAt(a: string, c: char, b: string)
    requires c !in a
    ensures Cut(a + [c] + b, c) == Some((a, b))
    decreases |a|
  {
    var s := a + [c] + b;
    if a == "" {
      assert s[1..] == b;
    } else {
      assert a == [a[0]] + a[1..] && a[0] in a;
      assert s[1..] == a[1..] + [c] + b;
      CutAt(a[1..], c, b);
    }
  }

  lemma {:induction false} CutNowhere(s: string, c: char)
    requires c !in s
    ensures Cut(s, c) == None
    decreases |s|
  {
    if s != "" {
      CutNowhere(s[1..], c);
    }
  }

  predicate IsSpace(c: char) {
    c in " \t\n\r"
  }

  function TrimNewlines(s: string): string {
    if s != "" && s[|s| - 1] == '\n' then TrimNewlines(s[..|s| - 1]) else s
  }

  function TrimEnd(s: string): string {
    if s != "" && IsSpace(s[|s| - 1]) then TrimEnd(s[..|s| - 1]) else s
  }

  function TrimStart(s: string): string {
    if s != "" && IsSpace(s[0]) then TrimStart(s[1..]) else s
  }

  function Trim(s: string): string {
    TrimStart(TrimEnd(s))
  }

  // ---------------------------------------------------------------------------
  // Commands and capabilities
  // ---------------------------------------------------------------------------

  /** `<old> <new> <name>`, and capabilities after a NUL on the first line. */
  function ParseCommandLine(b: string): Result<(RefUpdate, string), ReceiveError> {
    var nul := Cut(b, '\0');
    var (command, caps) := if nul.Some? then nul.value else (b, "");
    var first := Cut(TrimNewlines(command), ' ');
    if first.None? then Err(MissingField)
    else
      var second := Cut(first.value.1, ' ');
      if second.None? then Err(MissingField)
      else
        var u := RefUpdate(second.value.1, first.value.0, second.value.0, "");
        if ValidUpdate(u) then Ok((u, caps)) else Err(InvalidUpdate)
  }

  predicate PlainPart(s: string) {
    '\0' !in s && '\n' !in s
  }

  lemma PlainCommand(s: string)
    requires PlainPart(s)
    ensures Cut(s, '\0') == None && TrimNewlines(s) == s
  {
    CutNowhere(s, '\0');
  }

  /** A command with fewer than three fields is refused, and so is one whose name or ids are not good. */
  lemma CommandsRefused(a: string, b: string, c: string)
    requires PlainPart(a) && PlainPart(b) && PlainPart(c) && ' ' !in a && ' ' !in b
    ensures ParseCommandLine(a) == Err(MissingField) && ParseCommandLine(a + " " + b) == Err(MissingField)
    ensures ParseCommandLine(a + " " + (b + " " + c)) ==
            if ValidUpdate(RefUpdate(c, a, b, "")) then Ok((RefUpdate(c, a, b, ""), "")) else Err(InvalidUpdate)
  {
    var two, three := a + " " + b, a + " " + (b + " " + c);
    PlainCommand(a);
    PlainCommand(two);
    PlainCommand(three);
    CutNowhere(a, ' ');
    CutAt(a, ' ', b);
    CutNowhere(b, ' ');
    CutAt(a, ' ', b + " " + c);
    CutAt(b, ' ', c);
    assert two == a + [' '] + b && three == a + [' '] + (b + " " + c) && b + " " + c == b + [' '] + c;
  }

  /** Each flag is set by its own word; the last agent and object format win. */
  function ApplyToken(caps: Caps, token: string): Caps {
    Caps(caps.reportStatus || token == "report-status",
         caps.reportStatusV2 || token == "report-status-v2",
         caps.sideBand64k || token == "side-band-64k",
         caps.atomic || token == "atomic",
         caps.quiet || token == "quiet",
         caps.pushOptions || token == "push-options",
         caps.ofsDelta || token == "ofs-delta",
         if "agent=" <= token then Some(token[6..]) else caps.agent,
         if "object-format=" <= token then Some(token[14..]) else caps.objectFormat)
  }

  function ApplyTokens(caps: Caps, tokens: seq<string>): Caps {
    if tokens == [] then caps
    else ApplyToken(ApplyTokens(caps, tokens[..|tokens| - 1]), tokens[|tokens| - 1])
  }

  /** Split at spaces and newlines. */
  function SplitTokens(s: string): (tokens: seq<string>)
    ensures tokens != []
  {
    if s == "" then [""]
    else
      var rest := SplitTokens(s[1..]);
      if s[0] == ' ' || s[0] == '\n' then [""] + rest else [[s[0]] + rest[0]] + rest[1..]
  }

  function Tokens(pieces: seq<string>): seq<string> {
    if pieces == [] then []
    else
      var last := Trim(pieces[|pieces| - 1]);
      Tokens(pieces[..|pieces| - 1]) + if last == "" then [] else [last]
  }

  /** A newline separates words as a space does. */
  lemma {:induction false} NewlineSeparates(a: string, b: string)
    ensures SplitTokens(a + "\n" + b) == SplitTokens(a + " " + b)
    decreases |a|
  {
    var x, y := a + "\n" + b, a + " " + b;
    if a == "" {
      assert x[1..] == b && y[1..] == b;
    } else {
      NewlineSeparates(a[1..], b);
      assert x[1..] == a[1..] + "\n" + b && y[1..] == a[1..] + " " + b;
      assert x[0] == a[0] == y[0];
    }
  }

  method ApplyCaps(caps: Caps, s: string) returns (r: Caps)
    ensures r == ApplyTokens(caps, Tokens(SplitTokens(s)))
  {
    r := caps;
    var pieces := SplitTokens(s);
    for i := 0 to |pieces|
      invariant r == ApplyTokens(caps, Tokens(pieces[..i]))
    {
      assert pieces[..i + 1][..i] == pieces[..i];
      var token := Trim(pieces[i]);
      ghost var before := Tokens(pieces[..i]);
      assert before + [] == before && (before + [token])[..|before|] == before;
      if token != "" {
        r := ApplyToken(r, token);
      }
    }
    assert pieces[..|pieces|] == pieces;
  }

  /** A field that only its own word sets is set if and only if the word is there. */
  lemma {:induction false} FlagIff(get: Caps -> bool, word: string, caps: Caps, tokens: seq<string>)
    requires forall c, token :: get(ApplyToken(c, token)) <==> get(c) || token == word
    ensures get(ApplyTokens(caps, tokens)) <==> get(caps) || word in tokens
    decreases |tokens|
  {
    if tokens != [] {
      var init, last := tokens[..|tokens| - 1], tokens[|tokens| - 1];
      FlagIff(get, word, caps, init);
      assert tokens == init + [last];
    }
  }

  /** `r` is what follows `prefix` in the last token that has it. */
  ghost predicate LastWith(prefix: string, tokens: seq<string>, r: Option<string>) {
    match r
    case None => forall i | 0 <= i < |tokens| :: !(prefix <= tokens[i])
    case Some(value) => exists i: nat :: LastAt(prefix, tokens, i, value)
  }

  predicate LastAt(prefix: string, tokens: seq<string>, i: nat, value: string) {
    && i < |tokens| && tokens[i] == prefix + value
    && forall j | i < j < |tokens| :: !(prefix <= tokens[j])
  }

  lemma {:induction false} ValueIsLast(get: Caps -> Option<string>, prefix: string, tokens: seq<string>)
    requires get(NoCaps) == None
    requires forall c, token :: get(ApplyToken(c, token)) == if prefix <= token then Some(token[|prefix|..]) else get(c)
    ensures LastWith(prefix, tokens, get(ApplyTokens(NoCaps, tokens)))
    decreases |tokens|
  {
    if tokens != [] {
      var init, last := tokens[..|tokens| - 1], tokens[|tokens| - 1];
      ValueIsLast(get, prefix, init);
      LastWithSnoc(prefix, init, last, get(ApplyTokens(NoCaps, init)));
      assert init + [last] == tokens;
    }
  }

  lemma LastWithSnoc(prefix: string, init: seq<string>, last: string, before: Option<string>)
    requires LastWith(prefix, init, before)
    ensures LastWith(prefix, init + [last], if prefix <= last then Some(last[|prefix|..]) else before)
  {
    var tokens := init + [last];
    if prefix <= last {
      assert last == prefix + last[|prefix|..];
      assert LastAt(prefix, tokens, |init|, last[|prefix|..]);
    } else if before.Some? {
      var i: nat :| LastAt(prefix, init, i, before.value);
      assert LastAt(prefix, tokens, i, before.value);
    }
  }

  /** What the capabilities say: each flag is set if and only if its word is among the tokens, and
      the last agent and the last object format win. */
  lemma CapsAreTheirWords(tokens: seq<string>)
    ensures var c := ApplyTokens(NoCaps, tokens);
            && (c.reportStatus <==> "report-status" in tokens) && (c.reportStatusV2 <==> "report-status-v2" in tokens)
            && (c.sideBand64k <==> "side-band-64k" in tokens) && (c.atomic <==> "atomic" in tokens)
            && (c.quiet <==> "quiet" in tokens) && (c.pushOptions <==> "push-options" in tokens)
            && (c.ofsDelta <==> "ofs-delta" in tokens)
            && LastWith("agent=", tokens, c.agent) && LastWith("object-format=", tokens, c.objectFormat)
  {
    FlagIff((c: Caps) => c.reportStatus, "report-status", NoCaps, tokens);
    FlagIff((c: Caps) => c.reportStatusV2, "report-status-v2", NoCaps, tokens);
    FlagIff((c: Caps) => c.sideBand64k, "side-band-64k", NoCaps, tokens);
    FlagIff((c: Caps) => c.atomic, "atomic", NoCaps, tokens);
    FlagIff((c: Caps) => c.quiet, "quiet", NoCaps, tokens);
    FlagIff((c: Caps) => c.pushOptions, "push-options", NoCaps, tokens);
    FlagIff((c: Caps) => c.ofsDelta, "ofs-delta", NoCaps, tokens);
    ValueIsLast((c: Caps) => c.agent, "agent=", tokens);
    ValueIsLast((c: Caps) => c.objectFormat, "object-format=", tokens);
  }

  // ---------------------------------------------------------------------------
  // The request
  // ---------------------------------------------------------------------------

  predicate IsShallow(line: string) {
    "shallow " <= line
  }

  function ShallowOid(line: string): string
    requires IsShallow(line)
  {
    Trim(line[8..])
  }

  /** Shallow announcements, then the first other line. */
  function Shallows(buf: string): Result<(seq<string>, Option<Pkt>, string), ReceiveError>
    decreases |buf|
  {
    match ReadPkt(buf)
    case Err(e) => Err(BadPkt(e))
    case Ok((pkt, rest)) =>
      if pkt.Some? && pkt.value.Data? && IsShallow(pkt.value.bytes) then
        var more := Shallows(rest);
        if more.Err? then more else Ok(([ShallowOid(pkt.value.bytes)] + more.value.0, more.value.1, more.value.2))
      else Ok(([], pkt, rest))
  }

  /** Further commands and shallow announcements up to the flush. */
  function MoreCommands(buf: string): Result<(seq<RefUpdate>, seq<string>, string), ReceiveError>
    decreases |buf|
  {
    match ReadPkt(buf)
    case Err(e) => Err(BadPkt(e))
    case Ok((pkt, rest)) =>
      if pkt.None? || !pkt.value.Data? then Ok(([], [], rest))
      else if IsShallow(pkt.value.bytes) then
        var more := MoreCommands(rest);
        if more.Err? then more else Ok((more.value.0, [ShallowOid(pkt.value.bytes)] + more.value.1, more.value.2))
      else
        var command := ParseCommandLine(pkt.value.bytes);
        if command.Err? then Err(command.error)
        else
          var more := MoreCommands(rest);
          if more.Err? then more else Ok(([command.value.0] + more.value.0, more.value.1, more.value.2))
  }

  function Trimmed(lines: seq<string>): seq<string> {
    seq(|lines|, i requires 0 <= i < |lines| => TrimNewlines(lines[i]))
  }

  function Options(buf: string): Result<(seq<string>, string), ReceiveError> {
    match ReadLines(buf)
    case Err(e) => Err(BadPkt(e))
    case Ok((lines, rest)) => Ok((Trimmed(lines), rest))
  }

  /** The request and the bytes after it, where the pack starts. */
  function ParseRequest(buf: string): Result<(Request, string), ReceiveError> {
    var head := Shallows(buf);
    if head.Err? then Err(head.error)
    else
      var (shallow, first, rest) := head.value;
      if first.None? || first.value.Flush? then Ok((Request([], NoCaps, shallow, []), rest))
      else if !first.value.Data? then Err(UnexpectedDelim)
      else
        var command := ParseCommandLine(first.value.bytes);
        if command.Err? then Err(command.error)
        else
          var more := MoreCommands(rest);
          if more.Err? then Err(more.error)
          else
            var caps := ApplyTokens(NoCaps, Tokens(SplitTokens(command.value.1)));
            var updates := [command.value.0] + more.value.0;
            if !caps.pushOptions then Ok((Request(updates, caps, shallow + more.value.1, []), more.value.2))
            else
              var options := Options(more.value.2);
              if options.Err? then Err(options.error)
              else Ok((Request(updates, caps, shallow + more.value.1, options.value.0), options.value.1))
  }

  /** Results of the reading loops, with what was read before in front. */
  function AfterShallows(before: seq<string>, more: Result<(seq<string>, Option<Pkt>, string), ReceiveError>)
    : Result<(seq<string>, Option<Pkt>, string), ReceiveError>
  {
    if more.Err? then more else Ok((before + more.value.0, more.value.1, more.value.2))
  }

  function AfterCommands(updates: seq<RefUpdate>, shallow: seq<string>, more: Result<(seq<RefUpdate>, seq<string>, string), ReceiveError>)
    : Result<(seq<RefUpdate>, seq<string>, string), ReceiveError>
  {
    if more.Err? then more else Ok((updates + more.value.0, shallow + more.value.1, more.value.2))
  }

  lemma AfterNothing(more: Result<(seq<RefUpdate>, seq<string>, string), ReceiveError>)
    ensures AfterCommands([], [], more) == more
  {
    if more.Ok? {
      assert [] + more.value.0 == more.value.0 && [] + more.value.1 == more.value.1;
    }
  }

  lemma AfterShallow(updates: seq<RefUpdate>, shallow: seq<string>, oid: string,
                     more: Result<(seq<RefUpdate>, seq<string>, string), ReceiveError>)
    ensures AfterCommands(updates, shallow + [oid], more) ==
            if more.Err? then more
            else AfterCommands(updates, shallow, Ok((more.value.0, [oid] + more.value.1, more.value.2)))
  {
    if more.Ok? {
      assert shallow + [oid] + more.value.1 == shallow + ([oid] + more.value.1);
    }
  }

  lemma AfterCommand(updates: seq<RefUpdate>, shallow: seq<string>, u: RefUpdate,
                     more: Result<(seq<RefUpdate>, seq<string>, string), ReceiveError>)
    ensures AfterCommands(updates + [u], shallow, more) ==
            if more.Err? then more
            else AfterCommands(updates, shallow, Ok(([u] + more.value.0, more.value.1, more.value.2)))
  {
    if more.Ok? {
      assert updates + [u] + more.value.0 == updates + ([u] + more.value.0);
    }
  }

  method ReadShallows(r: Reader) returns (res: Result<(seq<string>, Option<Pkt>), ReceiveError>)
    modifies r
    ensures match Shallows(old(r.rest)) {
              case Ok((shallow, first, rest)) => res == Ok((shallow, first)) && r.rest == rest
              case Err(e) => res == Err(e)
            }
  {
    var shallow := [];
    ghost var before := r.rest;
    assert forall x: seq<string> :: [] + x == x;
    while true
      invariant Shallows(before) == AfterShallows(shallow, Shallows(r.rest))
      decreases |r.rest|
    {
      ghost var here := r.rest;
      var line := r.ReadPktLine();
      if line.Err? {
        return Err(BadPkt(line.error));
      }
      var pkt := line.value;
      if pkt.None? || !pkt.value.Data? || !IsShallow(pkt.value.bytes) {
        assert shallow + [] == shallow;
        return Ok((shallow, pkt));
      }
      shallow := shallow + [ShallowOid(pkt.value.bytes)];
      assert forall x :: shallow + x == shallow[..|shallow| - 1] + ([shallow[|shallow| - 1]] + x);
    }
  }

  method ReadCommands(r: Reader) returns (res: Result<(seq<RefUpdate>, seq<string>), ReceiveError>)
    modifies r
    ensures match MoreCommands(old(r.rest)) {
              case Ok((updates, shallow, rest)) => res == Ok((updates, shallow)) && r.rest == rest
              case Err(e) => res == Err(e)
            }
  {
    var updates, shallow := [], [];
    ghost var before := r.rest;
    AfterNothing(MoreCommands(r.rest));
    while true
      invariant MoreCommands(before) == AfterCommands(updates, shallow, MoreCommands(r.rest))
      decreases |r.rest|
    {
      var line := r.ReadPktLine();
      if line.Err? {
        return Err(BadPkt(line.error));
      }
      var pkt := line.value;
      if pkt.None? || !pkt.value.Data? {
        assert shallow + [] == shallow && updates + [] == updates;
        return Ok((updates, shallow));
      }
      if IsShallow(pkt.value.bytes) {
        AfterShallow(updates, shallow, ShallowOid(pkt.value.bytes), MoreCommands(r.rest));
        shallow := shallow + [ShallowOid(pkt.value.bytes)];
      } else {
        var command := ParseCommandLine(pkt.value.bytes);
        if command.Err? {
          return Err(command.error);
        }
        AfterCommand(updates, shallow, command.value.0, MoreCommands(r.rest));
        updates := updates + [command.value.0];
      }
    }
  }

  method ReadOptions(r: Reader) returns (res: Result<seq<string>, ReceiveError>)
    modifies r
    ensures match Options(old(r.rest)) {
              case Ok((options, rest)) => res == Ok(options) && r.rest == rest
              case Err(e) => res == Err(e)
            }
  {
    var options := [];
    ghost var before, lines := r.rest, [];
    AfterNoLines(ReadLines(r.rest));
    while true
      invariant options == Trimmed(lines)
      invariant ReadLines(before) == AfterLines(lines, ReadLines(r.rest))
      decreases |r.rest|
    {
      var line := r.ReadPktLine();
      if line.Err? {
        return Err(BadPkt(line.error));
      }
      var pkt := line.value;
      if pkt.None? || !pkt.value.Data? {
        assert lines + [] == lines;
        return Ok(options);
      }
      AfterOneLine(lines, pkt.value.bytes, ReadLines(r.rest));
      lines := lines + [pkt.value.bytes];
      options := options + [TrimNewlines(pkt.value.bytes)];
    }
  }

  /** Parse the request head; the reader is left at the first byte of the pack. */
  method Parse(r: Reader) returns (res: Result<Request, ReceiveError>)
    modifies r
    ensures match ParseRequest(old(r.rest)) {
              case Ok((request, rest)) => res == Ok(request) && r.rest == rest
              case Err(e) => res == Err(e)
            }
  {
    var head := ReadShallows(r);
    if head.Err? {
      return Err(head.error);
    }
    var shallow, first := head.value.0, head.value.1;
    if first.None? || first.value.Flush? {
      return Ok(Request([], NoCaps, shallow, []));
    }
    if !first.value.Data? {
      return Err(UnexpectedDelim);
    }
    var command := ParseCommandLine(first.value.bytes);
    if command.Err? {
      return Err(command.error);
    }
    var caps := ApplyCaps(NoCaps, command.value.1);
    var more := ReadCommands(r);
    if more.Err? {
      return Err(more.error);
    }
    var options := [];
    if caps.pushOptions {
      var read := ReadOptions(r);
      if read.Err? {
        return Err(read.error);
      }
      options := read.value;
    }
    return Ok(Request([command.value.0] + more.value.0, caps, shallow + more.value.1, options));
  }

  // ---------------------------------------------------------------------------
  // What a client sends
  // ---------------------------------------------------------------------------

  datatype Push = Push(shallow: seq<string>, updates: seq<RefUpdate>, tokens: seq<string>, options: seq<string>)

  function CommandText(u: RefUpdate): string {
    u.oldOid + " " + u.newOid + " " + u.name
  }

  function SpaceJoined(tokens: seq<string>): string {
    if tokens == [] then "" else if |tokens| == 1 then tokens[0] else tokens[0] + " " + SpaceJoined(tokens[1..])
  }

  function ShallowLines(shallow: seq<string>): seq<string> {
    seq(|shallow|, i requires 0 <= i < |shallow| => "shallow " + shallow[i])
  }

  function CommandLines(updates: seq<RefUpdate>): seq<string> {
    seq(|updates|, i requires 0 <= i < |updates| => CommandText(updates[i]))
  }

  function FirstLine(p: Push): string
    requires p.updates != []
  {
    CommandText(p.updates[0]) + "\0" + SpaceJoined(p.tokens)
  }

  /** Shallow lines, commands with the capabilities on the first, and options if they were announced. */
  function EncodePush(p: Push): string {
    if p.updates == [] then Frames(ShallowLines(p.shallow)) + "0000"
    else
      Frames(ShallowLines(p.shallow)) + EncodeData(FirstLine(p)) + Frames(CommandLines(p.updates[1..])) + "0000"
      + if "push-options" in p.tokens then Frames(p.options) + "0000" else ""
  }

  predicate PlainToken(t: string) {
    t != "" && forall i | 0 <= i < |t| :: !IsSpace(t[i])
  }

  /** Lines fit their frames, updates are valid, ids and tokens have no stray spaces, options do not
      end in a newline, and capabilities and options come with commands. */
  predicate Sendable(p: Push) {
    && (forall i | 0 <= i < |p.shallow| :: |p.shallow[i]| + 12 < 65536 && Trim(p.shallow[i]) == p.shallow[i])
    && (forall i | 0 <= i < |p.updates| :: SendableUpdate(p.updates[i]))
    && (forall i | 0 <= i < |p.tokens| :: PlainToken(p.tokens[i]))
    && (forall i | 0 <= i < |p.options| :: |p.options[i]| + 4 < 65536 && TrimNewlines(p.options[i]) == p.options[i])
    && (p.updates == [] ==> p.tokens == [])
    && (p.updates != [] ==> |FirstLine(p)| + 4 < 65536)
    && ("push-options" !in p.tokens ==> p.options == [])
  }

  lemma OidHasNoSpace(oid: string)
    requires ValidOid(oid)
    ensures ' ' !in oid && '\0' !in oid
  {
  }

  lemma NameIsPlain(name: string)
    requires ValidRefName(name)
    ensures '\0' !in name && name != "" && name[|name| - 1] != '\n'
  {
    assert "\0\n\r ~^:?*[\\"[0] == '\0' && "\0\n\r ~^:?*[\\"[1] == '\n';
    assert name != HEAD ==> name[|name| - 1] !in "\0\n\r ~^:?*[\\";
  }

  /** A command is never taken for a shallow announcement: no object id reads `shallow`. */
  lemma CommandIsNotShallow(u: RefUpdate, tail: string)
    requires ValidOid(u.oldOid)
    ensures !IsShallow(CommandText(u) + tail)
  {
    var line := CommandText(u) + tail;
    assert line[0] == if u.oldOid == "" then ' ' else u.oldOid[0];
    assert line[0] != 's';
  }

  /** The three fields of a command, cut at its first two spaces. */
  lemma CommandFields(u: RefUpdate)
    requires ValidUpdate(u) && u.newSymbolicTarget == ""
    ensures Cut(CommandText(u), ' ') == Some((u.oldOid, u.newOid + " " + u.name))
    ensures Cut(u.newOid + " " + u.name, ' ') == Some((u.newOid, u.name))
  {
    OidHasNoSpace(u.oldOid);
    OidHasNoSpace(u.newOid);
    assert CommandText(u) == u.oldOid + [' '] + (u.newOid + " " + u.name);
    CutAt(u.oldOid, ' ', u.newOid + " " + u.name);
    CutAt(u.newOid, ' ', u.name);
  }

  lemma CommandIsPlain(u: RefUpdate)
    requires ValidUpdate(u) && u.newSymbolicTarget == ""
    ensures '\0' !in CommandText(u) && TrimNewlines(CommandText(u)) == CommandText(u)
  {
    var text := CommandText(u);
    OidHasNoSpace(u.oldOid);
    OidHasNoSpace(u.newOid);
    NameIsPlain(u.name);
    assert text[|text| - 1] == u.name[|u.name| - 1];
  }

  lemma FieldsMakeCommand(b: string, text: string, caps: string, u: RefUpdate)
    requires Cut(b, '\0') == Some((text, caps)) || (Cut(b, '\0') == None && b == text && caps == "")
    requires TrimNewlines(text) == text && ValidUpdate(u) && u.newSymbolicTarget == ""
    requires Cut(text, ' ') == Some((u.oldOid, u.newOid + " " + u.name))
    requires Cut(u.newOid + " " + u.name, ' ') == Some((u.newOid, u.name))
    ensures ParseCommandLine(b) == Ok((u, caps))
  {
  }

  lemma CommandReadsBack(u: RefUpdate, caps: string)
    requires ValidUpdate(u) && u.newSymbolicTarget == ""
    ensures ParseCommandLine(CommandText(u)) == Ok((u, ""))
    ensures ParseCommandLine(CommandText(u) + "\0" + caps) == Ok((u, caps))
  {
    var text := CommandText(u);
    CommandFields(u);
    CommandIsPlain(u);
    CutNowhere(text, '\0');
    CutAt(text, '\0', caps);
    FieldsMakeCommand(text, text, "", u);
    FieldsMakeCommand(text + "\0" + caps, text, caps, u);
  }

  lemma {:induction false} SplitJoined(tokens: seq<string>)
    requires tokens != [] && forall i | 0 <= i < |tokens| :: PlainToken(tokens[i])
    ensures SplitTokens(SpaceJoined(tokens)) == tokens
    decreases |tokens|
  {
    assert PlainToken(tokens[0]);
    if |tokens| == 1 {
      SplitOne(tokens[0], "");
      assert tokens[0] + "" == tokens[0];
    } else {
      var tail := " " + SpaceJoined(tokens[1..]);
      SplitJoined(tokens[1..]);
      SplitOne(tokens[0], tail);
      assert tokens[0] + " " + SpaceJoined(tokens[1..]) == tokens[0] + tail;
      assert tail[1..] == SpaceJoined(tokens[1..]);
      assert tokens == [tokens[0]] + tokens[1..];
    }
  }

  lemma TokensReadBack(tokens: seq<string>)
    requires forall i | 0 <= i < |tokens| :: PlainToken(tokens[i])
    ensures Tokens(SplitTokens(SpaceJoined(tokens))) == tokens
  {
    if tokens == [] {
      assert [""][..0] == [];
      assert Tokens([""]) == Tokens([""][..0]);
    } else {
      SplitJoined(tokens);
      PlainTokens(tokens);
    }
  }

  /** A word up to the end or to the next space. */
  lemma {:induction false} SplitOne(word: string, tail: string)
    requires (forall i | 0 <= i < |word| :: !IsSpace(word[i])) && (tail == "" || tail[0] == ' ')
    ensures SplitTokens(word + tail) == [word] + if tail == "" then [] else SplitTokens(tail[1..])
    decreases |word|
  {
    if word == "" {
      assert word + tail == tail;
      SplitBefore(tail);
    } else {
      assert !IsSpace(word[0]);
      SplitOne(word[1..], tail);
      SplitLonger(word, tail, if tail == "" then [] else SplitTokens(tail[1..]));
    }
  }

  lemma SplitBefore(tail: string)
    requires tail == "" || tail[0] == ' '
    ensures SplitTokens(tail) == [""] + if tail == "" then [] else SplitTokens(tail[1..])
  {
  }

  lemma SplitLonger(word: string, tail: string, others: seq<string>)
    requires word != "" && !IsSpace(word[0]) && SplitTokens(word[1..] + tail) == [word[1..]] + others
    ensures SplitTokens(word + tail) == [word] + others
  {
    assert (word + tail)[1..] == word[1..] + tail;
    assert word == [word[0]] + word[1..];
    assert ([word[1..]] + others)[1..] == others;
  }

  lemma {:induction false} PlainTokens(tokens: seq<string>)
    requires forall i | 0 <= i < |tokens| :: PlainToken(tokens[i])
    ensures Tokens(tokens) == tokens
    decreases |tokens|
  {
    if tokens != [] {
      var init, last := tokens[..|tokens| - 1], tokens[|tokens| - 1];
      assert PlainToken(last);
      PlainTokens(init);
      assert Tokens(tokens) == init + [last];
    }
  }

  lemma {:induction false} OptionsFlag(caps: Caps, tokens: seq<string>)
    ensures ApplyTokens(caps, tokens).pushOptions == (caps.pushOptions || "push-options" in tokens)
    decreases |tokens|
  {
    if tokens != [] {
      var init, last := tokens[..|tokens| - 1], tokens[|tokens| - 1];
      OptionsFlag(caps, init);
      SnocHas(init, last, "push-options");
      assert tokens == init + [last];
    }
  }

  lemma SnocHas(init: seq<string>, last: string, x: string)
    ensures x in init + [last] <==> x in init || x == last
  {
  }

  lemma OneShallow(oid: string, tail: string)
    requires |oid| + 12 < 65536 && Trim(oid) == oid
    ensures Shallows(EncodeData("shallow " + oid) + tail) == AfterShallows([oid], Shallows(tail))
  {
    var line := "shallow " + oid;
    DataReadsBackIff(line, tail);
    assert line[8..] == oid && IsShallow(line);
  }

  lemma {:induction false} ShallowsReadBack(shallow: seq<string>, rest: string)
    requires forall i | 0 <= i < |shallow| :: |shallow[i]| + 12 < 65536 && Trim(shallow[i]) == shallow[i]
    ensures Shallows(Frames(ShallowLines(shallow)) + rest) == AfterShallows(shallow, Shallows(rest))
    decreases |shallow|
  {
    if shallow == [] {
      NoShallows(rest);
    } else {
      ShallowsReadBack(shallow[1..], rest);
      OneShallow(shallow[0], Frames(ShallowLines(shallow[1..])) + rest);
      FirstShallow(shallow, rest);
      AfterShallowsTwice(shallow, Shallows(rest));
    }
  }

  lemma FirstShallow(shallow: seq<string>, rest: string)
    requires shallow != []
    ensures Frames(ShallowLines(shallow)) + rest ==
            EncodeData("shallow " + shallow[0]) + (Frames(ShallowLines(shallow[1..])) + rest)
  {
    FirstFrameOf(ShallowLines(shallow), "shallow " + shallow[0], ShallowLines(shallow[1..]), rest);
  }

  lemma NoShallows(rest: string)
    ensures Shallows(Frames(ShallowLines([])) + rest) == AfterShallows([], Shallows(rest))
  {
    assert Frames(ShallowLines([])) + rest == rest;
    assert Shallows(rest).Ok? ==> [] + Shallows(rest).value.0 == Shallows(rest).value.0;
  }

  lemma FirstFrameOf(lines: seq<string>, first: string, others: seq<string>, rest: string)
    requires lines == [first] + others
    ensures Frames(lines) + rest == EncodeData(first) + (Frames(others) + rest)
  {
  }

  lemma AfterShallowsTwice(shallow: seq<string>, more: Result<(seq<string>, Option<Pkt>, string), ReceiveError>)
    requires shallow != []
    ensures AfterShallows([shallow[0]], AfterShallows(shallow[1..], more)) == AfterShallows(shallow, more)
  {
    if more.Ok? {
      assert [shallow[0]] + (shallow[1..] + more.value.0) == shallow + more.value.0;
    }
  }

  predicate SendableUpdate(u: RefUpdate) {
    ValidUpdate(u) && u.newSymbolicTarget == "" && |CommandText(u)| + 4 < 65536
  }

  lemma {:induction false} CommandsReadBack(updates: seq<RefUpdate>, end: string, rest: string)
    requires (forall i | 0 <= i < |updates| :: SendableUpdate(updates[i])) && MoreCommands(end) == Ok(([], [], rest))
    ensures MoreCommands(Frames(CommandLines(updates)) + end) == Ok((updates, [], rest))
    decreases |updates|
  {
    if updates == [] {
      assert Frames(CommandLines(updates)) + end == end;
    } else {
      CommandsReadBack(updates[1..], end, rest);
      assert SendableUpdate(updates[0]);
      OneCommand(updates[0], Frames(CommandLines(updates[1..])) + end);
      FirstCommandLine(updates, end);
      CommandFirst(updates, rest);
    }
  }

  lemma FirstCommandLine(updates: seq<RefUpdate>, end: string)
    requires updates != []
    ensures Frames(CommandLines(updates)) + end == EncodeData(CommandText(updates[0])) + (Frames(CommandLines(updates[1..])) + end)
  {
    FirstFrameOf(CommandLines(updates), CommandText(updates[0]), CommandLines(updates[1..]), end);
  }

  lemma CommandFirst(updates: seq<RefUpdate>, rest: string)
    requires updates != []
    ensures AfterCommands([updates[0]], [], Ok((updates[1..], [], rest))) == Ok((updates, [], rest))
  {
    assert updates == [updates[0]] + updates[1..];
    var none: seq<string> := [];
    assert none + none == none;
  }

  lemma CommandsEnd(rest: string)
    ensures MoreCommands("0000" + rest) == Ok(([], [], rest))
  {
    ControlReadsBack(rest);
  }

  lemma OneCommand(u: RefUpdate, tail: string)
    requires SendableUpdate(u) && MoreCommands(tail).Ok?
    ensures MoreCommands(EncodeData(CommandText(u)) + tail) == AfterCommands([u], [], MoreCommands(tail))
  {
    DataReadsBackIff(CommandText(u), tail);
    CommandReadsBack(u, "");
    CommandIsNotShallow(u, "");
    assert CommandText(u) + "" == CommandText(u);
    assert [] + MoreCommands(tail).value.1 == MoreCommands(tail).value.1;
  }

  lemma OptionsReadBack(options: seq<string>, rest: string)
    requires forall i | 0 <= i < |options| :: |options[i]| + 4 < 65536 && TrimNewlines(options[i]) == options[i]
    ensures Options(Frames(options) + "0000" + rest) == Ok((options, rest))
  {
    FramesReadBack(options, rest);
    assert Trimmed(options) == options;
  }

  lemma Regroup(a: string, b: string, c: string, d: string, e: string)
    ensures a + b + c + d + e == a + (b + (c + (d + e)))
  {
  }

  /** How the parts of a request make up its result. */
  lemma RequestOfParts(buf: string, p: Push, line: string, commands: string, capsText: string, late: seq<string>, after: string,
                       pack: string)
    requires Shallows(buf) == Ok((p.shallow, Some(Data(line)), commands)) && p.updates != []
    requires ParseCommandLine(line) == Ok((p.updates[0], capsText)) && Tokens(SplitTokens(capsText)) == p.tokens
    requires MoreCommands(commands) == Ok((p.updates[1..], late, after))
    requires if ApplyTokens(NoCaps, p.tokens).pushOptions then Options(after) == Ok((p.options, pack))
             else p.options == [] && after == pack
    ensures ParseRequest(buf) == Ok((Request(p.updates, ApplyTokens(NoCaps, p.tokens), p.shallow + late, p.options), pack))
  {
    assert [p.updates[0]] + p.updates[1..] == p.updates;
  }

  /** A shallow line may also stand among the commands, and white space around its id does not count. */
  lemma LateShallow(oid: string, tail: string)
    requires |oid| + 13 < 65536 && Trim(oid) == oid && oid != "" && MoreCommands(tail).Ok?
    ensures MoreCommands(EncodeData("shallow " + oid + "\n") + tail) == AfterCommands([], [oid], MoreCommands(tail))
  {
    ShallowText(oid);
    ShallowLineRead("shallow " + oid + "\n", oid, tail);
  }

  lemma ShallowText(oid: string)
    requires Trim(oid) == oid && oid != ""
    ensures var line := "shallow " + oid + "\n"; IsShallow(line) && ShallowOid(line) == oid
  {
    var line := "shallow " + oid + "\n";
    assert line == "shallow " + (oid + "\n") && line[8..] == oid + "\n";
    TrimNewlineEnd(oid);
  }

  lemma ShallowLineRead(line: string, oid: string, tail: string)
    requires |line| + 4 < 65536 && IsShallow(line) && ShallowOid(line) == oid && MoreCommands(tail).Ok?
    ensures MoreCommands(EncodeData(line) + tail) == AfterCommands([], [oid], MoreCommands(tail))
  {
    DataReadsBackIff(line, tail);
    var more := MoreCommands(tail).value;
    assert [] + more.0 == more.0;
  }

  lemma TrimNewlineEnd(oid: string)
    requires Trim(oid) == oid && oid != ""
    ensures Trim(oid + "\n") == oid
  {
    assert (oid + "\n")[..|oid|] == oid;
    assert TrimEnd(oid + "\n") == TrimEnd(oid);
  }

  /** Push wire format round trip: whatever pack bytes follow, the parser recovers every command,
      shallow id, capability and option, and stops exactly at the first pack byte. */
  lemma PushReadsBack(p: Push, pack: string)
    requires Sendable(p)
    ensures ParseRequest(EncodePush(p) + pack) ==
            Ok((Request(p.updates, ApplyTokens(NoCaps, p.tokens), p.shallow, p.options), pack))
  {
    if p.updates == [] {
      NoCommandsReadBack(p, pack);
    } else {
      CommandsAndOptionsReadBack(p, pack);
    }
  }

  lemma HeadOfPush(p: Push, commands: string)
    requires Sendable(p) && p.updates != []
    ensures Shallows(Frames(ShallowLines(p.shallow)) + (EncodeData(FirstLine(p)) + commands)) ==
            Ok((p.shallow, Some(Data(FirstLine(p))), commands))
    ensures ParseCommandLine(FirstLine(p)) == Ok((p.updates[0], SpaceJoined(p.tokens)))
    ensures Tokens(SplitTokens(SpaceJoined(p.tokens))) == p.tokens
  {
    FirstCommand(p, commands);
    ShallowsThenFirst(p.shallow, FirstLine(p), commands);
  }

  lemma CommandsAndOptionsReadBack(p: Push, pack: string)
    requires Sendable(p) && p.updates != []
    ensures ParseRequest(EncodePush(p) + pack) ==
            Ok((Request(p.updates, ApplyTokens(NoCaps, p.tokens), p.shallow, p.options), pack))
  {
    var after := AfterCommandsText(p) + pack;
    var commands := Frames(CommandLines(p.updates[1..])) + ("0000" + after);
    EncodingRegrouped(p, pack);
    HeadOfPush(p, commands);
    RestOfCommands(p, after);
    OptionsAfter(p, pack);
    assert p.shallow + [] == p.shallow;
    RequestOfParts(EncodePush(p) + pack, p, FirstLine(p), commands, SpaceJoined(p.tokens), [], after, pack);
  }

  function AfterCommandsText(p: Push): string {
    if "push-options" in p.tokens then Frames(p.options) + "0000" else ""
  }

  lemma EncodingRegrouped(p: Push, pack: string)
    requires p.updates != []
    ensures EncodePush(p) + pack ==
            Frames(ShallowLines(p.shallow)) +
            (EncodeData(FirstLine(p)) + (Frames(CommandLines(p.updates[1..])) + ("0000" + (AfterCommandsText(p) + pack))))
  {
    Regroup(Frames(ShallowLines(p.shallow)), EncodeData(FirstLine(p)), Frames(CommandLines(p.updates[1..])), "0000", AfterCommandsText(p) + pack);
    Append(Frames(ShallowLines(p.shallow)) + EncodeData(FirstLine(p)) + Frames(CommandLines(p.updates[1..])) + "0000", AfterCommandsText(p), pack);
  }

  lemma Append(a: string, b: string, c: string)
    ensures a + b + c == a + (b + c)
  {
  }

  lemma ShallowsThenFirst(shallow: seq<string>, line: string, commands: string)
    requires forall i | 0 <= i < |shallow| :: |shallow[i]| + 12 < 65536 && Trim(shallow[i]) == shallow[i]
    requires Shallows(EncodeData(line) + commands) == Ok(([], Some(Data(line)), commands))
    ensures Shallows(Frames(ShallowLines(shallow)) + (EncodeData(line) + commands)) == Ok((shallow, Some(Data(line)), commands))
  {
    ShallowsReadBack(shallow, EncodeData(line) + commands);
    assert shallow + [] == shallow;
  }

  lemma RestOfCommands(p: Push, after: string)
    requires Sendable(p) && p.updates != []
    ensures MoreCommands(Frames(CommandLines(p.updates[1..])) + ("0000" + after)) == Ok((p.updates[1..], [], after))
  {
    CommandsEnd(after);
    CommandsReadBack(p.updates[1..], "0000" + after, after);
  }

  lemma OptionsAfter(p: Push, pack: string)
    requires Sendable(p)
    ensures if ApplyTokens(NoCaps, p.tokens).pushOptions then Options(AfterCommandsText(p) + pack) == Ok((p.options, pack))
            else p.options == [] && AfterCommandsText(p) + pack == pack
  {
    OptionsFlag(NoCaps, p.tokens);
    if "push-options" in p.tokens {
      OptionsReadBack(p.options, pack);
    } else {
      assert "" + pack == pack;
    }
  }

  lemma NoCommandsReadBack(p: Push, pack: string)
    requires Sendable(p) && p.updates == []
    ensures ParseRequest(EncodePush(p) + pack) == Ok((Request([], NoCaps, p.shallow, []), pack))
    ensures p.tokens == [] && p.options == []
  {
    Append(Frames(ShallowLines(p.shallow)), "0000", pack);
    ShallowsReadBack(p.shallow, "0000" + pack);
    ControlReadsBack(pack);
    assert p.shallow + [] == p.shallow;
  }

  lemma FirstCommand(p: Push, rest: string)
    requires Sendable(p) && p.updates != []
    ensures Shallows(EncodeData(FirstLine(p)) + rest) == Ok(([], Some(Data(FirstLine(p))), rest))
    ensures ParseCommandLine(FirstLine(p)) == Ok((p.updates[0], SpaceJoined(p.tokens)))
    ensures Tokens(SplitTokens(SpaceJoined(p.tokens))) == p.tokens
  {
    FirstLineReadsBack(p.updates[0], SpaceJoined(p.tokens), rest);
    TokensReadBack(p.tokens);
  }

  lemma FirstLineReadsBack(u: RefUpdate, caps: string, rest: string)
    requires SendableUpdate(u) && |CommandText(u) + "\0" + caps| + 4 < 65536
    ensures var line := CommandText(u) + "\0" + caps;
            Shallows(EncodeData(line) + rest) == Ok(([], Some(Data(line)), rest)) && ParseCommandLine(line) == Ok((u, caps))
  {
    var line := CommandText(u) + "\0" + caps;
    CommandReadsBack(u, caps);
    CommandIsNotShallow(u, "\0" + caps);
    assert line == CommandText(u) + ("\0" + caps);
    NotShallowReadsBack(line, rest);
  }

  lemma NotShallowReadsBack(line: string, rest: string)
    requires !IsShallow(line) && |line| + 4 < 65536
    ensures Shallows(EncodeData(line) + rest) == Ok(([], Some(Data(line)), rest))
  {
    DataReadsBackIff(line, rest);
  }

  // ---------------------------------------------------------------------------
  // The answer
  // ---------------------------------------------------------------------------

  datatype Verdict = Accepted | Refused(reason: string)

  function UnpackLine(v: Verdict): string {
    if v.Accepted? then "unpack ok\n" else "unpack ng " + v.reason + "\n"
  }

  function StatusLine(name: string, v: Verdict): string {
    if v.Accepted? then "ok " + name + "\n" else "ng " + name + " " + v.reason + "\n"
  }

  function StatusLines(perRef: seq<(string, Verdict)>): seq<string> {
    seq(|perRef|, i requires 0 <= i < |perRef| => StatusLine(perRef[i].0, perRef[i].1))
  }

  function ReportLines(unpack: Verdict, perRef: seq<(string, Verdict)>): seq<string> {
    [UnpackLine(unpack)] + StatusLines(perRef)
  }

  /** Pieces that end with a newline, as far as there are newlines. */
  function SplitInclusive(s: string): seq<string> {
    if s == "" then []
    else if s[0] == '\n' then ["\n"] + SplitInclusive(s[1..])
    else
      var rest := SplitInclusive(s[1..]);
      if rest == [] then [[s[0]]] else [[s[0]] + rest[0]] + rest[1..]
  }

  // What a client reads from the lines.

  function ReadUnpack(line: string): Option<Verdict> {
    if line == "unpack ok\n" then Some(Accepted)
    else if "unpack ng " <= line && |line| > 10 then Some(Refused(line[10..|line| - 1]))
    else None
  }

  /** `ok <name>` or `ng <name> <reason>`. */
  function ReadStatus(line: string): Option<(string, Verdict)> {
    if |line| < 4 then None
    else
      var rest := line[3..|line| - 1];
      if "ok " <= line then Some((rest, Accepted))
      else if "ng " <= line then
        match Cut(rest, ' ')
        case Some((name, reason)) => Some((name, Refused(reason)))
        case None => None
      else None
  }

  lemma UnpackReadsBack(v: Verdict)
    ensures ReadUnpack(UnpackLine(v)) == Some(v)
  {
    if v.Refused? {
      var line := UnpackLine(v);
      assert line[7] == 'n' && "unpack ok\n"[7] == 'o';
      assert line[10..|line| - 1] == v.reason;
      assert line == "unpack ng " + (v.reason + "\n");
    }
  }

  /** A status line reads back if and only if a refused name has no space in it. */
  lemma StatusReadsBackIff(name: string, v: Verdict)
    ensures ReadStatus(StatusLine(name, v)) == Some((name, v)) <==> v.Accepted? || ' ' !in name
  {
    var line := StatusLine(name, v);
    if v.Accepted? {
      assert line[3..|line| - 1] == name;
      assert line == "ok " + (name + "\n");
    } else {
      assert line[3..|line| - 1] == name + [' '] + v.reason;
      assert line == "ng " + (name + " " + v.reason + "\n") && line[0] != 'o';
      if ' ' !in name {
        CutAt(name, ' ', v.reason);
      } else {
        CutIsFirst(name + [' '] + v.reason, ' ');
      }
    }
  }

  lemma {:induction false} CutIsFirst(s: string, c: char)
    ensures Cut(s, c).Some? ==> c !in Cut(s, c).value.0
    decreases |s|
  {
    if s != "" && s[0] != c {
      CutIsFirst(s[1..], c);
    }
  }

  function ReadStatuses(lines: seq<string>): Option<seq<(string, Verdict)>> {
    if lines == [] then Some([])
    else
      var init, last := ReadStatuses(lines[..|lines| - 1]), ReadStatus(lines[|lines| - 1]);
      if init.None? || last.None? then None else Some(init.value + [last.value])
  }

  lemma {:induction false} StatusesReadBack(perRef: seq<(string, Verdict)>)
    requires forall i | 0 <= i < |perRef| :: ' ' !in perRef[i].0
    ensures ReadStatuses(StatusLines(perRef)) == Some(perRef)
    decreases |perRef|
  {
    if perRef != [] {
      var init, last := perRef[..|perRef| - 1], perRef[|perRef| - 1];
      StatusesReadBack(init);
      StatusReadsBackIff(last.0, last.1);
      assert StatusLines(perRef)[..|perRef| - 1] == StatusLines(init);
      assert perRef == init + [last];
    }
  }

  /** From the lines of a report a client recovers the verdict on the pack and on every ref. */
  lemma ReportReadsBack(unpack: Verdict, perRef: seq<(string, Verdict)>)
    requires forall i | 0 <= i < |perRef| :: ' ' !in perRef[i].0
    ensures var lines := ReportLines(unpack, perRef);
            lines != [] && ReadUnpack(lines[0]) == Some(unpack) && ReadStatuses(lines[1..]) == Some(perRef)
  {
    UnpackReadsBack(unpack);
    StatusesReadBack(perRef);
    assert ReportLines(unpack, perRef)[1..] == StatusLines(perRef);
  }

  /** A newline at the end and nowhere else. */
  predicate OneLine(s: string) {
    s != "" && s[|s| - 1] == '\n' && forall i | 0 <= i < |s| - 1 :: s[i] != '\n'
  }

  lemma {:induction false} SplitOneLine(line: string, tail: string)
    requires OneLine(line)
    ensures SplitInclusive(line + tail) == [line] + SplitInclusive(tail)
    decreases |line|
  {
    if |line| == 1 {
      assert (line + tail)[1..] == tail && line == "\n";
    } else {
      assert line[0] != '\n' && (line + tail)[1..] == line[1..] + tail;
      SplitOneLine(line[1..], tail);
      assert line == [line[0]] + line[1..];
      assert ([line[1..]] + SplitInclusive(tail))[1..] == SplitInclusive(tail);
    }
  }

  lemma {:induction false} SplitJoinedLines(lines: seq<string>)
    requires forall i | 0 <= i < |lines| :: OneLine(lines[i])
    ensures SplitInclusive(Joined(lines)) == lines
    decreases |lines|
  {
    if lines != [] {
      SplitJoinedLines(lines[1..]);
      assert OneLine(lines[0]);
      SplitOneLine(lines[0], Joined(lines[1..]));
      assert lines == [lines[0]] + lines[1..];
    }
  }

  lemma {:induction false} PiecesAreOneLine(s: string)
    requires s == "" || s[|s| - 1] == '\n'
    ensures forall i | 0 <= i < |SplitInclusive(s)| :: OneLine(SplitInclusive(s)[i])
    decreases |s|
  {
    if s != "" {
      PiecesAreOneLine(s[1..]);
      var rest := SplitInclusive(s[1..]);
      if s[0] != '\n' {
        assert s[1..] != "" && s[1..][|s| - 2] == '\n';
        assert rest != [];
        assert OneLine(rest[0]);
        assert OneLine([s[0]] + rest[0]);
      }
    }
  }

  lemma {:induction false} JoinedEnds(lines: seq<string>)
    requires forall i | 0 <= i < |lines| :: lines[i] != "" && lines[i][|lines[i]| - 1] == '\n'
    ensures Joined(lines) == "" || Joined(lines)[|Joined(lines)| - 1] == '\n'
    decreases |lines|
  {
    if lines != [] {
      JoinedEnds(lines[1..]);
    }
  }

  /** The exact condition: the report's lines are what a client sees as lines if and only if no
      reason and no name contains a newline. */
  lemma ReportSplitsIff(unpack: Verdict, perRef: seq<(string, Verdict)>)
    ensures SplitInclusive(Joined(ReportLines(unpack, perRef))) == ReportLines(unpack, perRef) <==>
            PlainReport(unpack, perRef)
  {
    LinesSplitIff(unpack, perRef);
    LinesArePlainIff(unpack, perRef);
  }

  /** A reason without a newline. */
  predicate Plain(v: Verdict) {
    v.Refused? ==> '\n' !in v.reason
  }

  lemma PlainText(head: string, text: string)
    requires '\n' !in head
    ensures OneLine(head + text + "\n") <==> '\n' !in text
  {
    var line := head + text + "\n";
    assert forall i | 0 <= i < |head| :: line[i] == head[i];
    assert forall i | 0 <= i < |text| :: line[|head| + i] == text[i];
    if '\n' !in text {
      forall i | 0 <= i < |line| - 1 ensures line[i] != '\n' {
        assert i < |head| || line[i] == text[i - |head|];
      }
    }
  }

  lemma UnpackIsPlainIff(v: Verdict)
    ensures OneLine(UnpackLine(v)) <==> Plain(v)
  {
    if v.Refused? {
      PlainText("unpack ng ", v.reason);
    } else {
      PlainText("unpack ok", "");
      assert "unpack ok" + "" + "\n" == "unpack ok\n";
    }
  }

  lemma StatusIsPlainIff(name: string, v: Verdict)
    ensures OneLine(StatusLine(name, v)) <==> '\n' !in name && Plain(v)
  {
    if v.Refused? {
      PlainText("ng ", name + " " + v.reason);
      assert "ng " + (name + " " + v.reason) + "\n" == StatusLine(name, v);
      assert forall i | 0 <= i < |name| :: (name + " " + v.reason)[i] == name[i];
      assert forall i | 0 <= i < |v.reason| :: (name + " " + v.reason)[|name| + 1 + i] == v.reason[i];
    } else {
      PlainText("ok ", name);
    }
  }

  /** No name and no reason of the report contains a newline. */
  predicate PlainReport(unpack: Verdict, perRef: seq<(string, Verdict)>) {
    Plain(unpack) && forall i | 0 <= i < |perRef| :: '\n' !in perRef[i].0 && Plain(perRef[i].1)
  }

  predicate AllOneLine(lines: seq<string>) {
    forall i | 0 <= i < |lines| :: OneLine(lines[i])
  }

  lemma StatusesArePlainIff(perRef: seq<(string, Verdict)>)
    ensures AllOneLine(StatusLines(perRef)) <==> forall i | 0 <= i < |perRef| :: '\n' !in perRef[i].0 && Plain(perRef[i].1)
  {
    forall i | 0 <= i < |perRef| ensures OneLine(StatusLines(perRef)[i]) <==> '\n' !in perRef[i].0 && Plain(perRef[i].1) {
      StatusIsPlainIff(perRef[i].0, perRef[i].1);
    }
  }

  lemma OneLineFirst(first: string, lines: seq<string>)
    ensures AllOneLine([first] + lines) <==> OneLine(first) && AllOneLine(lines)
  {
    if AllOneLine([first] + lines) {
      assert OneLine(([first] + lines)[0]);
      forall i | 0 <= i < |lines| ensures OneLine(lines[i]) {
        assert OneLine(([first] + lines)[i + 1]);
      }
    }
  }

  lemma LinesArePlainIff(unpack: Verdict, perRef: seq<(string, Verdict)>)
    ensures AllOneLine(ReportLines(unpack, perRef)) <==> PlainReport(unpack, perRef)
  {
    UnpackIsPlainIff(unpack);
    StatusesArePlainIff(perRef);
    OneLineFirst(UnpackLine(unpack), StatusLines(perRef));
  }

  /** A newline in a reason: the client sees a third line. */
  lemma NewlineSplitsAStatusLine()
    ensures SplitInclusive(Joined(ReportLines(Accepted, [("r", Refused("a\nb"))]))) == ["unpack ok\n", "ng r a\n", "b\n"]
  {
    var lines := ReportLines(Accepted, [("r", Refused("a\nb"))]);
    var pieces := ["unpack ok\n", "ng r a\n", "b\n"];
    assert StatusLine("r", Refused("a\nb")) == "ng r a\n" + "b\n";
    assert lines == ["unpack ok\n", "ng r a\n" + "b\n"];
    assert lines[1..][1..] == [] && pieces[1..][1..][1..] == [];
    assert Joined(lines) == "unpack ok\n" + (("ng r a\n" + "b\n") + "");
    assert Joined(pieces[1..]) == "ng r a\n" + ("b\n" + "");
    assert Joined(pieces) == Joined(lines);
    SplitJoinedLines(pieces);
  }

  lemma LinesSplitIff(unpack: Verdict, perRef: seq<(string, Verdict)>)
    ensures SplitInclusive(Joined(ReportLines(unpack, perRef))) == ReportLines(unpack, perRef) <==>
            AllOneLine(ReportLines(unpack, perRef))
  {
    var lines := ReportLines(unpack, perRef);
    forall i | 0 <= i < |lines| ensures lines[i] != "" && lines[i][|lines[i]| - 1] == '\n' {
    }
    JoinedEnds(lines);
    PiecesAreOneLine(Joined(lines));
    if AllOneLine(lines) {
      SplitJoinedLines(lines);
    }
  }

  /** What a client reads: side-band removed if it was negotiated, then pkt-lines up to the flush. */
  function Received(sideBand: bool, out: string): Result<seq<string>, PktError> {
    if sideBand then
      match Demultiplexed(1 as char, out)
      case Err(e) => Err(e)
      case Ok((framed, _)) => Lines(framed)
    else Lines(out)
  }

  function Lines(buf: string): Result<seq<string>, PktError> {
    match ReadLines(buf)
    case Err(e) => Err(e)
    case Ok((lines, _)) => Ok(lines)
  }

  lemma FramesUpTo(lines: seq<string>, i: nat)
    requires i < |lines|
    ensures Frames(lines[..i + 1]) == Frames(lines[..i]) + EncodeData(lines[i])
  {
    FramesSnoc(lines[..i], lines[i]);
    assert lines[..i + 1] == lines[..i] + [lines[i]];
  }

  method FrameLines(lines: seq<string>) returns (framed: string)
    ensures framed == Frames(lines) + "0000"
  {
    framed := "";
    for i := 0 to |lines|
      invariant framed == Frames(lines[..i])
    {
      FramesUpTo(lines, i);
      framed := framed + EncodeData(lines[i]);
    }
    assert lines[..|lines|] == lines;
    framed := framed + "0000";
  }

  method ReportBody(unpack: Verdict, perRef: seq<(string, Verdict)>) returns (body: string)
    ensures body == Joined(ReportLines(unpack, perRef))
  {
    ghost var lines := ReportLines(unpack, perRef);
    body := UnpackLine(unpack);
    JoinedUpTo(lines, 0);
    assert lines[..0] == [] && "" + body == body;
    for i := 0 to |perRef|
      invariant body == Joined(lines[..i + 1])
    {
      var (name, verdict) := perRef[i];
      JoinedUpTo(lines, i + 1);
      body := body + StatusLine(name, verdict);
    }
    assert lines[..|lines|] == lines;
  }

  lemma JoinedUpTo(lines: seq<string>, i: nat)
    requires i < |lines|
    ensures Joined(lines[..i + 1]) == Joined(lines[..i]) + lines[i]
  {
    JoinedSnoc(lines[..i], lines[i]);
    assert lines[..i + 1] == lines[..i] + [lines[i]];
  }

  /** Report status round trip: the client reads the report's own lines, with or without side-band,
      whenever they fit their frames. */
  method ReportStatus(sideBand: bool, unpack: Verdict, perRef: seq<(string, Verdict)>) returns (out: string)
    ensures var pieces := SplitInclusive(Joined(ReportLines(unpack, perRef)));
            Framable(pieces) ==> Received(sideBand, out) == Ok(pieces)
    ensures var lines := ReportLines(unpack, perRef);
            Framable(lines) && PlainReport(unpack, perRef) ==> Received(sideBand, out) == Ok(lines)
  {
    ReportSplitsIff(unpack, perRef);
    var body := ReportBody(unpack, perRef);
    var framed := FrameLines(SplitInclusive(body));
    ghost var pieces := SplitInclusive(body);
    if Framable(pieces) {
      FramesReadBack(pieces, "");
      assert framed + "" == framed;
      assert Frames(pieces) + "0000" + "" == framed;
    }
    if sideBand {
      out := WriteChannel(1 as char, framed);
      assert out + "0000" + "" == out + "0000";
      out := out + "0000";
    } else {
      out := framed;
    }
  }
}
