/**
  Log objects: entries framed by a base-128 varint length ("Base 128 Varints" in the Protocol
  Buffers encoding specification). A reader stops at the first incomplete frame, so an object may
  be cut anywhere. How one entry is encoded is a parameter.
 */
module Frame {
  import opened Prelude

  type byte = x: int | 0 <= x < 256

  datatype Codec<!E> = Codec(encode: E -> seq<byte>, decode: seq<byte> -> Option<E>)

  /** Decoding undoes encoding, and lengths fit 64 bits. */
  ghost predicate Faithful<E(!new)>(codec: Codec<E>) {
    forall e :: codec.decode(codec.encode(e)) == Some(e) && |codec.encode(e)| < Limit(0)
  }

  // ---------------------------------------------------------------------------
  // Varints
  // ---------------------------------------------------------------------------

  /** Values that fit in the bytes left after `count` of at most ten; `Limit(0)` is two to the 64th. */
  function Limit(count: nat): nat
    decreases 10 - count
  {
    if count >= 9 then 2 else 128 * Limit(count + 1)
  }

  function EncodeVarint(n: nat): (bytes: seq<byte>)
    ensures bytes != []
  {
    if n < 128 then [n] else [n % 128 + 128] + EncodeVarint(n / 128)
  }

  /** The value and how many bytes it took; no more than ten, the tenth holding one bit. */
  function DecodeVarint(bytes: seq<byte>, count: nat): (r: Option<(nat, nat)>)
    ensures r.Some? ==> 0 < r.value.1 <= |bytes|
    decreases |bytes|
  {
    if bytes == [] || count >= 10 then None
    else if bytes[0] < 128 then (if count == 9 && bytes[0] >= 2 then None else Some((bytes[0], 1)))
    else
      var rest := DecodeVarint(bytes[1..], count + 1);
      if rest.None? then None else Some((bytes[0] - 128 + 128 * rest.value.0, rest.value.1 + 1))
  }

  lemma SixtyFourBits()
    ensures Limit(0) == 0x1_0000_0000_0000_0000
  {
    assert Limit(9) == 2 && Limit(8) == 256 && Limit(7) == 32768 && Limit(6) == 4194304;
    assert Limit(5) == 128 * Limit(6) && Limit(4) == 128 * Limit(5) && Limit(3) == 128 * Limit(4);
    assert Limit(2) == 128 * Limit(3) && Limit(1) == 128 * Limit(2);
  }

  /** The number that base 128 digits stand for, least first; the top bit of a byte does not count. */
  function Base128(bytes: seq<byte>): nat {
    if bytes == [] then 0 else bytes[0] % 128 + 128 * Base128(bytes[1..])
  }

  /** A length is written in base 128, least digit first, the top bit set on all bytes but the last,
      and without a useless last byte. */
  lemma {:induction false} VarintDigits(n: nat)
    ensures var bytes := EncodeVarint(n);
            && Base128(bytes) == n
            && (forall i | 0 <= i < |bytes| :: bytes[i] >= 128 <==> i < |bytes| - 1)
            && (|bytes| > 1 ==> bytes[|bytes| - 1] > 0)
    decreases n
  {
    var bytes := EncodeVarint(n);
    if n < 128 {
      assert bytes[1..] == [];
      assert Base128(bytes) == bytes[0] % 128 + 128 * Base128(bytes[1..]);
    } else {
      VarintDigits(n / 128);
      var more := EncodeVarint(n / 128);
      assert bytes[1..] == more;
      assert forall i | 1 <= i < |bytes| :: bytes[i] == more[i - 1];
      assert (n % 128 + 128) % 128 == n % 128;
    }
  }

  lemma {:induction false} VarintRoundTrip(n: nat, rest: seq<byte>, count: nat)
    requires n < Limit(count) && count < 10
    ensures DecodeVarint(EncodeVarint(n) + rest, count) == Some((n, |EncodeVarint(n)|))
    decreases n
  {
    if n >= 128 {
      Quotient(n, count);
      VarintRoundTrip(n / 128, rest, count + 1);
      assert (EncodeVarint(n) + rest)[1..] == EncodeVarint(n / 128) + rest;
    }
  }

  lemma Quotient(n: nat, count: nat)
    requires 128 <= n < Limit(count) && count < 10
    ensures count < 9 && n / 128 < Limit(count + 1)
  {
    if count < 9 {
      assert Limit(count) == 128 * Limit(count + 1);
    }
  }

  /** A varint that is cut short does not decode. */
  lemma {:induction false} VarintCut(n: nat, k: nat, count: nat)
    requires k < |EncodeVarint(n)|
    ensures DecodeVarint(EncodeVarint(n)[..k], count) == None
    decreases n
  {
    if n >= 128 && k > 0 {
      VarintCut(n / 128, k - 1, count + 1);
      assert EncodeVarint(n)[..k][1..] == EncodeVarint(n / 128)[..k - 1];
    }
  }

  // ---------------------------------------------------------------------------
  // Frames
  // ---------------------------------------------------------------------------

  function EncodeEntry<E>(codec: Codec<E>, e: E): seq<byte> {
    EncodeVarint(|codec.encode(e)|) + codec.encode(e)
  }

  function EncodeAll<E>(codec: Codec<E>, entries: seq<E>): seq<byte> {
    if entries == [] then [] else EncodeEntry(codec, entries[0]) + EncodeAll(codec, entries[1..])
  }

  method EncodeEntries<E>(codec: Codec<E>, entries: seq<E>) returns (out: seq<byte>)
    ensures out == EncodeAll(codec, entries)
  {
    out := [];
    for i := 0 to |entries|
      invariant out == EncodeAll(codec, entries[..i])
    {
      EncodeConcat(codec, entries[..i], [entries[i]]);
      assert entries[..i + 1] == entries[..i] + [entries[i]];
      assert EncodeAll(codec, [entries[i]]) == EncodeEntry(codec, entries[i]);
      out := out + EncodeVarint(|codec.encode(entries[i])|);
      out := out + codec.encode(entries[i]);
    }
    assert entries[..|entries|] == entries;
  }

  /** The first frame, if all of it is there: where its entry lies. */
  function FirstFrame(buf: seq<byte>): (r: Option<(nat, nat)>)
    ensures r.Some? ==> 0 < r.value.0 <= r.value.1 <= |buf|
  {
    var head := DecodeVarint(buf, 0);
    if head.None? || |buf| - head.value.1 < head.value.0 then None
    else Some((head.value.1, head.value.1 + head.value.0))
  }

  /** All complete frames and the bytes they took, or `None` if one of them is not an entry. */
  function Decode<E>(codec: Codec<E>, buf: seq<byte>): Option<(seq<E>, nat)>
    decreases |buf|
  {
    var frame := FirstFrame(buf);
    if frame.None? then Some(([], 0))
    else
      var (from, end) := frame.value;
      var e := codec.decode(buf[from..end]);
      if e.None? then None
      else
        Prepend([e.value], end, Decode(codec, buf[end..]))
  }

  method DecodeEntries<E>(codec: Codec<E>, buf: seq<byte>) returns (r: Option<(seq<E>, nat)>)
    ensures r == Decode(codec, buf)
  {
    var out, pos, left := [], 0, buf;
    PrependNothing(Decode(codec, buf));
    while true
      invariant Decode(codec, buf) == Prepend(out, pos, Decode(codec, left))
      decreases |left|
    {
      var frame := FirstFrame(left);
      if frame.None? {
        break;
      }
      var e := codec.decode(left[frame.value.0..frame.value.1]);
      if e.None? {
        return None;
      }
      PrependTwice(out, pos, [e.value], frame.value.1, Decode(codec, left[frame.value.1..]));
      out, pos, left := out + [e.value], pos + frame.value.1, left[frame.value.1..];
    }
    assert out + [] == out;
    return Some((out, pos));
  }

  function Prepend<E>(entries: seq<E>, size: nat, rest: Option<(seq<E>, nat)>): Option<(seq<E>, nat)> {
    if rest.None? then None else Some((entries + rest.value.0, size + rest.value.1))
  }

  lemma PrependNothing<E>(rest: Option<(seq<E>, nat)>)
    ensures Prepend([], 0, rest) == rest
  {
    if rest.Some? {
      assert [] + rest.value.0 == rest.value.0;
    }
  }

  lemma PrependTwice<E>(a: seq<E>, m: nat, b: seq<E>, n: nat, rest: Option<(seq<E>, nat)>)
    ensures Prepend(a, m, Prepend(b, n, rest)) == Prepend(a + b, m + n, rest)
  {
    if rest.Some? {
      assert a + (b + rest.value.0) == a + b + rest.value.0;
    }
  }

  lemma {:induction false} EncodeConcat<E>(codec: Codec<E>, a: seq<E>, b: seq<E>)
    ensures EncodeAll(codec, a + b) == EncodeAll(codec, a) + EncodeAll(codec, b)
    decreases |a|
  {
    if a == [] {
      assert a + b == b;
    } else {
      assert (a + b)[1..] == a[1..] + b;
      EncodeConcat(codec, a[1..], b);
    }
  }

  // ---------------------------------------------------------------------------
  // Truncation
  // ---------------------------------------------------------------------------

  /** How many whole frames lie within the first `cut` bytes. */
  function Fits<E>(codec: Codec<E>, entries: seq<E>, cut: nat): (k: nat)
    ensures k <= |entries|
  {
    if entries == [] || cut < |EncodeEntry(codec, entries[0])| then 0
    else 1 + Fits(codec, entries[1..], cut - |EncodeEntry(codec, entries[0])|)
  }

  /** What `Fits` means: as many whole frames as possible, and no more. */
  lemma {:induction false} FitsIsLargest<E>(codec: Codec<E>, entries: seq<E>, cut: nat)
    ensures var k := Fits(codec, entries, cut);
            && |EncodeAll(codec, entries[..k])| <= cut
            && (k < |entries| ==> cut < |EncodeAll(codec, entries[..k + 1])|)
    decreases |entries|
  {
    if entries != [] {
      var size, k := |EncodeEntry(codec, entries[0])|, Fits(codec, entries, cut);
      if cut < size {
        assert entries[..1][1..] == [];
      } else {
        FitsIsLargest(codec, entries[1..], cut - size);
        assert entries[..k][1..] == entries[1..][..k - 1];
        if k < |entries| {
          assert entries[..k + 1][1..] == entries[1..][..k];
        }
      }
    }
  }

  lemma WholeFrame<E(!new)>(codec: Codec<E>, e: E, rest: seq<byte>)
    requires Faithful(codec)
    ensures var body, n := codec.encode(e), |EncodeEntry(codec, e)|;
            FirstFrame(EncodeEntry(codec, e) + rest) == Some((n - |body|, n))
            && (EncodeEntry(codec, e) + rest)[n - |body|..n] == body
  {
    var body := codec.encode(e);
    assert codec.decode(codec.encode(e)) == Some(e);
    VarintRoundTrip(|body|, body + rest, 0);
    assert EncodeEntry(codec, e) + rest == EncodeVarint(|body|) + (body + rest);
  }

  lemma DecodeWhole<E(!new)>(codec: Codec<E>, e: E, rest: seq<byte>)
    requires Faithful(codec)
    ensures Decode(codec, EncodeEntry(codec, e) + rest) == Prepend([e], |EncodeEntry(codec, e)|, Decode(codec, rest))
    ensures EncodeAll(codec, [e]) == EncodeEntry(codec, e)
  {
    WholeFrame(codec, e, rest);
    assert codec.decode(codec.encode(e)) == Some(e);
    assert (EncodeEntry(codec, e) + rest)[|EncodeEntry(codec, e)|..] == rest;
  }

  lemma CutFrame<E(!new)>(codec: Codec<E>, e: E, k: nat)
    requires Faithful(codec) && k < |EncodeEntry(codec, e)|
    ensures FirstFrame(EncodeEntry(codec, e)[..k]) == None
  {
    var body, frame := codec.encode(e), EncodeEntry(codec, e);
    var head := EncodeVarint(|body|);
    assert codec.decode(codec.encode(e)) == Some(e);
    if k < |head| {
      VarintCut(|body|, k, 0);
      assert frame[..k] == head[..k];
    } else {
      VarintRoundTrip(|body|, body[..k - |head|], 0);
      assert frame[..k] == head + body[..k - |head|];
    }
  }

  /** What is left of an encoding that is cut at `cut`. */
  lemma CutEncoding<E>(codec: Codec<E>, entries: seq<E>, cut: nat)
    requires entries != [] && cut <= |EncodeAll(codec, entries)|
    ensures var first := EncodeEntry(codec, entries[0]);
            EncodeAll(codec, entries)[..cut] ==
            if cut < |first| then first[..cut] else first + EncodeAll(codec, entries[1..])[..cut - |first|]
  {
  }

  ghost predicate Recovered<E>(codec: Codec<E>, buf: seq<byte>, entries: seq<E>, k: nat)
    requires k <= |entries|
  {
    Decode(codec, buf) == Some((entries[..k], |EncodeAll(codec, entries[..k])|))
  }

  lemma RecoveredOneMore<E(!new)>(codec: Codec<E>, entries: seq<E>, buf: seq<byte>, k: nat)
    requires Faithful(codec) && k < |entries| && Recovered(codec, buf, entries[1..], k)
    ensures Recovered(codec, EncodeEntry(codec, entries[0]) + buf, entries, k + 1)
  {
    DecodeWhole(codec, entries[0], buf);
    OneMoreFrame(codec, entries, k);
  }

  lemma RecoveredNone<E(!new)>(codec: Codec<E>, entries: seq<E>, k: nat)
    requires Faithful(codec) && entries != [] && k < |EncodeEntry(codec, entries[0])|
    ensures Recovered(codec, EncodeEntry(codec, entries[0])[..k], entries, 0)
  {
    DecodeCut(codec, entries[0], k);
    assert entries[..0] == [];
  }

  /** Log framing survives truncation anywhere: whatever is cut off, exactly the entries whose
      whole frames are left come back, with the offset where the last of them ends. */
  lemma TruncationKeepsWholeFrames<E(!new)>(codec: Codec<E>, entries: seq<E>, cut: nat)
    requires Faithful(codec) && cut <= |EncodeAll(codec, entries)|
    ensures var k := Fits(codec, entries, cut);
            Decode(codec, EncodeAll(codec, entries)[..cut]) == Some((entries[..k], |EncodeAll(codec, entries[..k])|))
  {
    RecoveredCut(codec, entries, cut);
  }

  lemma {:induction false} RecoveredCut<E(!new)>(codec: Codec<E>, entries: seq<E>, cut: nat)
    requires Faithful(codec) && cut <= |EncodeAll(codec, entries)|
    ensures Recovered(codec, EncodeAll(codec, entries)[..cut], entries, Fits(codec, entries, cut))
    decreases |entries|
  {
    if entries == [] {
      assert EncodeAll(codec, entries)[..cut] == [] && entries[..0] == [];
    } else {
      CutEncoding(codec, entries, cut);
      var size := |EncodeEntry(codec, entries[0])|;
      if cut < size {
        RecoveredNone(codec, entries, cut);
      } else {
        RecoveredCut(codec, entries[1..], cut - size);
        RecoveredLonger(codec, entries, cut, size);
      }
    }
  }

  lemma RecoveredLonger<E(!new)>(codec: Codec<E>, entries: seq<E>, cut: nat, size: nat)
    requires Faithful(codec) && entries != [] && size == |EncodeEntry(codec, entries[0])| <= cut
    requires cut - size <= |EncodeAll(codec, entries[1..])|
    requires Recovered(codec, EncodeAll(codec, entries[1..])[..cut - size], entries[1..], Fits(codec, entries[1..], cut - size))
    ensures Recovered(codec, EncodeEntry(codec, entries[0]) + EncodeAll(codec, entries[1..])[..cut - size], entries, Fits(codec, entries, cut))
  {
    RecoveredOneMore(codec, entries, EncodeAll(codec, entries[1..])[..cut - size], Fits(codec, entries[1..], cut - size));
  }

  lemma OneMoreFrame<E>(codec: Codec<E>, entries: seq<E>, k: nat)
    requires k < |entries|
    ensures [entries[0]] + entries[1..][..k] == entries[..k + 1]
    ensures |EncodeEntry(codec, entries[0])| + |EncodeAll(codec, entries[1..][..k])| == |EncodeAll(codec, entries[..k + 1])|
  {
    assert entries[..k + 1][1..] == entries[1..][..k];
  }

  lemma DecodeCut<E(!new)>(codec: Codec<E>, e: E, k: nat)
    requires Faithful(codec) && k < |EncodeEntry(codec, e)|
    ensures Decode(codec, EncodeEntry(codec, e)[..k]) == Some(([], 0))
  {
    CutFrame(codec, e, k);
  }

  lemma {:induction false} AllFit<E>(codec: Codec<E>, entries: seq<E>)
    ensures Fits(codec, entries, |EncodeAll(codec, entries)|) == |entries|
    decreases |entries|
  {
    if entries != [] {
      AllFit(codec, entries[1..]);
    }
  }

  /** Every byte of `buf` is used, and it yields `entries`. */
  ghost predicate DecodesTo<E>(codec: Codec<E>, buf: seq<byte>, entries: seq<E>) {
    Decode(codec, buf) == Some((entries, |buf|))
  }

  /** Appending objects appends their entries: nothing is lost at the seam. */
  lemma AppendedObjectsDecode<E(!new)>(codec: Codec<E>, a: seq<E>, b: seq<E>)
    requires Faithful(codec)
    ensures DecodesTo(codec, EncodeAll(codec, a) + EncodeAll(codec, b), a + b)
  {
    EncodeConcat(codec, a, b);
    WholeObjectDecodes(codec, a + b);
  }

  lemma WholeObjectDecodes<E(!new)>(codec: Codec<E>, entries: seq<E>)
    requires Faithful(codec)
    ensures DecodesTo(codec, EncodeAll(codec, entries), entries)
  {
    var all := EncodeAll(codec, entries);
    AllFit(codec, entries);
    TruncationKeepsWholeFrames(codec, entries, |all|);
    assert all[..|all|] == all && entries[..|entries|] == entries;
  }
}
