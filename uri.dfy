/**
 * JavaScript's `encodeURIComponent`: every character outside the unreserved
 * set becomes the %XX escapes of its UTF-8 bytes, with upper-case hex digits.
 * The decoder beside it is the reference the encoder is checked against.
 */
module Uri {
  import opened Wrappers

  /** The characters `encodeURIComponent` leaves as they are. */
  predicate Unreserved(c: char) {
    ('A' <= c <= 'Z') || ('a' <= c <= 'z') || ('0' <= c <= '9') || c in "-_.!~*'()"
  }

  type Byte = b: nat | b < 256

  /** The UTF-8 encoding of a Unicode code point. */
  function Utf8(cp: nat): (bytes: seq<Byte>)
    requires cp < 0x11_0000
    ensures 1 <= |bytes| <= 4
  {
    if cp < 0x80 then [cp]
    else if cp < 0x800 then [0xC0 + cp / 64, 0x80 + cp % 64]
    else if cp < 0x1_0000 then [0xE0 + cp / 4096, 0x80 + (cp / 64) % 64, 0x80 + cp % 64]
    else [0xF0 + cp / 262144, 0x80 + (cp / 4096) % 64, 0x80 + (cp / 64) % 64, 0x80 + cp % 64]
  }

  const HexDigits := "0123456789ABCDEF"

  function HexDigit(d: nat): char
    requires d < 16
  {
    HexDigits[d]
  }

  /** The value of a hex digit of either case. */
  function HexValue(c: char): Option<nat> {
    if '0' <= c <= '9' then Some(c as int - '0' as int)
    else if 'A' <= c <= 'F' then Some(c as int - 'A' as int + 10)
    else if 'a' <= c <= 'f' then Some(c as int - 'a' as int + 10)
    else None
  }

  lemma HexDigitValue(d: nat)
    requires d < 16
    ensures HexValue(HexDigit(d)) == Some(d)
  {
  }

  function PercentBytes(bytes: seq<Byte>): (s: string)
    ensures |s| == 3 * |bytes|
  {
    if bytes == [] then []
    else ['%', HexDigit(bytes[0] / 16), HexDigit(bytes[0] % 16)] + PercentBytes(bytes[1..])
  }

  function EncodeChar(c: char): string {
    if Unreserved(c) then [c] else PercentBytes(Utf8(c as int))
  }

  /** A character that may stand in an encoded URI component. */
  predicate UrlSafe(c: char) {
    Unreserved(c) || c == '%'
  }

  lemma HexDigitUnreserved(d: nat)
    requires d < 16
    ensures Unreserved(HexDigit(d))
  {
  }

  lemma {:induction false} PercentBytesUrlSafe(bytes: seq<Byte>)
    ensures forall i :: 0 <= i < |PercentBytes(bytes)| ==> UrlSafe(PercentBytes(bytes)[i])
  {
    if bytes != [] {
      PercentBytesUrlSafe(bytes[1..]);
      HexDigitUnreserved(bytes[0] / 16);
      HexDigitUnreserved(bytes[0] % 16);
    }
  }

  /** One character's encoding is URL-safe, and an unreserved character stands for itself. */
  lemma EncodeCharUrlSafe(c: char)
    ensures forall i :: 0 <= i < |EncodeChar(c)| ==> UrlSafe(EncodeChar(c)[i])
    ensures Unreserved(c) ==> EncodeChar(c) == [c]
  {
    if !Unreserved(c) {
      PercentBytesUrlSafe(Utf8(c as int));
    }
  }

  /**
   * `encodeURIComponent(s)`. The result holds only unreserved characters and
   * %XX escapes, so it cannot end the query value it is put in; a name made
   * of unreserved characters alone is left as it is. Character by character,
   * an unreserved character stands for itself and any other becomes the
   * escapes of its UTF-8 bytes; `EncodeAppend` extends this to any text.
   */
  function EncodeURIComponent(s: string): (e: string)
    ensures forall i :: 0 <= i < |e| ==> UrlSafe(e[i])
    ensures (forall i :: 0 <= i < |s| ==> Unreserved(s[i])) ==> e == s
    ensures |s| == 1 && Unreserved(s[0]) ==> e == s
    ensures |s| == 1 && !Unreserved(s[0]) ==> e == PercentBytes(Utf8(s[0] as int))
  {
    if s == [] then []
    else
      EncodeCharUrlSafe(s[0]);
      EncodeChar(s[0]) + EncodeURIComponent(s[1..])
  }

  /** Encoding works character by character: the encoding of a + b is a's followed by b's. */
  lemma {:induction false} EncodeAppend(a: string, b: string)
    ensures EncodeURIComponent(a + b) == EncodeURIComponent(a) + EncodeURIComponent(b)
    decreases |a|
  {
    if a == [] {
      assert a + b == b;
    } else {
      assert (a + b)[1..] == a[1..] + b;
      EncodeAppend(a[1..], b);
      ConcatAssoc(EncodeChar(a[0]), EncodeURIComponent(a[1..]), EncodeURIComponent(b));
    }
  }

  /** Reads one "%XY" escape from the front of s. */
  function ReadEscape(s: string): Option<(nat, string)> {
    if |s| < 3 || s[0] != '%' then None
    else
      match (HexValue(s[1]), HexValue(s[2]))
      case (Some(h), Some(l)) => Some((16 * h + l, s[3..]))
      case _ => None
  }

  /** Reads n escapes of UTF-8 continuation bytes (0x80 to 0xBF), giving their low six bits. */
  function ReadContinuations(s: string, n: nat): Option<(seq<nat>, string)>
    decreases n
  {
    if n == 0 then Some(([], s))
    else
      match ReadEscape(s)
      case None => None
      case Some((b, rest)) =>
        if !(0x80 <= b < 0xC0) then None
        else
          match ReadContinuations(rest, n - 1)
          case None => None
          case Some((bits, tail)) => Some(([b - 0x80] + bits, tail))
  }

  predicate IsScalar(cp: int) {
    (0 <= cp < 0xD800) || (0xE000 <= cp < 0x11_0000)
  }

  /** The code point that a UTF-8 lead byte and its continuation bits denote. */
  function Assemble(lead: nat, bits: seq<nat>): int {
    if |bits| == 0 then lead
    else if |bits| == 1 then (lead - 0xC0) * 64 + bits[0]
    else if |bits| == 2 then (lead - 0xE0) * 4096 + bits[0] * 64 + bits[1]
    else (lead - 0xF0) * 262144 + bits[0] * 4096 + bits[1] * 64 + bits[2]
  }

  /** How many continuation bytes follow a lead byte, when it is one. */
  function ContinuationCount(lead: nat): Option<nat> {
    if lead < 0x80 then Some(0)
    else if 0xC0 <= lead < 0xE0 then Some(1)
    else if 0xE0 <= lead < 0xF0 then Some(2)
    else if 0xF0 <= lead < 0xF8 then Some(3)
    else None
  }

  /** Reads one character, escaped or literal, from the front of s. */
  function DecodeChar(s: string): (r: Option<(char, string)>)
    ensures r.Some? ==> |r.value.1| < |s|
  {
    if s == [] then None
    else if s[0] != '%' then Some((s[0], s[1..]))
    else
      match ReadEscape(s)
      case None => None
      case Some((lead, rest)) =>
        match ContinuationCount(lead)
        case None => None
        case Some(n) =>
          match ReadContinuations(rest, n)
          case None => None
          case Some((bits, tail)) =>
            var cp := Assemble(lead, bits);
            if IsScalar(cp) then Some((cp as char, tail)) else None
  }

  /**
   * The reference decoder for `EncodeURIComponent`'s output: percent escapes
   * of UTF-8 continuations are reassembled, other characters are kept. It
   * gives None on a malformed escape or a non-scalar value, but unlike
   * `decodeURIComponent` it accepts overlong UTF-8 forms ("%C1%81" gives "A").
   */
  function DecodeURIComponent(s: string): Option<string>
    decreases |s|
  {
    if s == [] then Some([])
    else
      match DecodeChar(s)
      case None => None
      case Some((c, rest)) =>
        match DecodeURIComponent(rest)
        case None => None
        case Some(t) => Some([c] + t)
  }

  /** An escape "%XY" of a byte b, written out character by character, reads back as b. */
  lemma ReadEscapeOf(s: string, b: Byte, tail: string)
    requires |s| >= 3 && s[0] == '%' && s[1] == HexDigit(b / 16) && s[2] == HexDigit(b % 16) && s[3..] == tail
    ensures ReadEscape(s) == Some((b, tail))
  {
    HexDigitValue(b / 16);
    HexDigitValue(b % 16);
  }

  predicate AllContinuations(bytes: seq<Byte>) {
    forall i :: 0 <= i < |bytes| ==> 0x80 <= bytes[i] < 0xC0
  }

  function LowBits(bytes: seq<Byte>): (bits: seq<nat>)
    requires AllContinuations(bytes)
    ensures |bits| == |bytes|
    ensures forall i :: 0 <= i < |bytes| ==> bits[i] == bytes[i] - 0x80
  {
    if bytes == [] then [] else [bytes[0] - 0x80] + LowBits(bytes[1..])
  }

  /** One step of ReadContinuations: a continuation escape, then the rest. */
  lemma ReadContinuationsStep(s: string, n: nat, b: nat, tail: string, bits: seq<nat>, low: seq<nat>, rest: string)
    requires 0 < n && ReadEscape(s) == Some((b, tail)) && 0x80 <= b < 0xC0
    requires ReadContinuations(tail, n - 1) == Some((bits, rest)) && low == [b - 0x80] + bits
    ensures ReadContinuations(s, n) == Some((low, rest))
  {
  }

  lemma ConcatAssoc(a: string, b: string, c: string)
    ensures (a + b) + c == a + (b + c)
  {
  }

  lemma ConcatDrop(a: string, b: string)
    ensures (a + b)[|a|..] == b
  {
  }

  /** The first escape of an encoded byte string is its first byte. */
  lemma ReadFirstEscape(bytes: seq<Byte>, rest: string)
    requires bytes != []
    ensures (PercentBytes(bytes) + rest)[0] == '%'
    ensures ReadEscape(PercentBytes(bytes) + rest) == Some((bytes[0], PercentBytes(bytes[1..]) + rest))
  {
    var b := bytes[0];
    var e := ['%', HexDigit(b / 16), HexDigit(b % 16)];
    var tail := PercentBytes(bytes[1..]) + rest;
    var s := PercentBytes(bytes) + rest;
    assert s == e + tail by {
      assert PercentBytes(bytes) == e + PercentBytes(bytes[1..]);
      ConcatAssoc(e, PercentBytes(bytes[1..]), rest);
    }
    assert s[0] == '%' && s[1] == HexDigit(b / 16) && s[2] == HexDigit(b % 16) && s[3..] == tail by {
      ConcatDrop(e, tail);
    }
    ReadEscapeOf(s, b, tail);
  }

  lemma AllContinuationsTail(bytes: seq<Byte>)
    requires bytes != [] && AllContinuations(bytes)
    ensures 0x80 <= bytes[0] < 0xC0 && AllContinuations(bytes[1..])
  {
    forall i | 0 <= i < |bytes[1..]| ensures 0x80 <= bytes[1..][i] < 0xC0 {
      assert bytes[1..][i] == bytes[i + 1];
    }
  }

  lemma LowBitsCons(bytes: seq<Byte>)
    requires bytes != [] && AllContinuations(bytes)
    ensures AllContinuations(bytes[1..]) && LowBits(bytes) == [bytes[0] - 0x80] + LowBits(bytes[1..])
  {
    AllContinuationsTail(bytes);
  }

  lemma {:induction false} ReadContinuationsOf(bytes: seq<Byte>, rest: string)
    requires AllContinuations(bytes)
    ensures ReadContinuations(PercentBytes(bytes) + rest, |bytes|) == Some((LowBits(bytes), rest))
    decreases |bytes|
  {
    if bytes == [] {
      assert PercentBytes(bytes) + rest == rest;
    } else {
      var s, tail := PercentBytes(bytes) + rest, PercentBytes(bytes[1..]) + rest;
      assert ReadEscape(s) == Some((bytes[0], tail)) by {
        ReadFirstEscape(bytes, rest);
      }
      assert 0x80 <= bytes[0] < 0xC0 && AllContinuations(bytes[1..]) by {
        AllContinuationsTail(bytes);
      }
      assert ReadContinuations(tail, |bytes| - 1) == Some((LowBits(bytes[1..]), rest)) by {
        ReadContinuationsOf(bytes[1..], rest);
      }
      assert LowBits(bytes) == [bytes[0] - 0x80] + LowBits(bytes[1..]) by {
        LowBitsCons(bytes);
      }
      ReadContinuationsStep(s, |bytes|, bytes[0], tail, LowBits(bytes[1..]), LowBits(bytes), rest);
    }
  }

  /** The lead byte announces the length, and the bytes reassemble to the code point. */
  lemma Utf8Reassembles(cp: nat)
    requires IsScalar(cp)
    ensures var bytes := Utf8(cp);
      && ContinuationCount(bytes[0]) == Some(|bytes| - 1)
      && AllContinuations(bytes[1..])
      && Assemble(bytes[0], LowBits(bytes[1..])) == cp
  {
    var bytes := Utf8(cp);
    if 0x800 <= cp {
      assert cp / 4096 == (cp / 64) / 64;
    }
    if 0x1_0000 <= cp {
      assert cp / 262144 == (cp / 4096) / 64;
    }
  }

  /** DecodeChar on an escaped character, once its pieces are known. */
  lemma DecodeEscapedChar(s: string, lead: nat, tail: string, n: nat, bits: seq<nat>, rest: string)
    requires s != [] && s[0] == '%' && ReadEscape(s) == Some((lead, tail))
    requires ContinuationCount(lead) == Some(n) && ReadContinuations(tail, n) == Some((bits, rest))
    requires IsScalar(Assemble(lead, bits))
    ensures DecodeChar(s) == Some((Assemble(lead, bits) as char, rest))
  {
  }

  lemma DecodeEncodedChar(c: char, rest: string)
    ensures DecodeChar(EncodeChar(c) + rest) == Some((c, rest))
  {
    if !Unreserved(c) {
      var cp := c as int;
      var bytes := Utf8(cp);
      Utf8Reassembles(cp);
      ReadFirstEscape(bytes, rest);
      ReadContinuationsOf(bytes[1..], rest);
      DecodeEscapedChar(PercentBytes(bytes) + rest, bytes[0], PercentBytes(bytes[1..]) + rest,
                        |bytes| - 1, LowBits(bytes[1..]), rest);
      assert (cp as char) == c;
    } else {
      assert (EncodeChar(c) + rest)[1..] == rest;
    }
  }

  /** One step of DecodeURIComponent: a character, then the decoded rest. */
  lemma DecodeStep(e: string, c: char, rest: string, t: string)
    requires e != [] && DecodeChar(e) == Some((c, rest)) && DecodeURIComponent(rest) == Some(t)
    ensures DecodeURIComponent(e) == Some([c] + t)
  {
  }

  /** Decoding undoes `encodeURIComponent`: distinct names give distinct encodings. */
  lemma {:induction false} DecodeEncoded(s: string)
    ensures DecodeURIComponent(EncodeURIComponent(s)) == Some(s)
    decreases |s|
  {
    if s != [] {
      var e, rest := EncodeURIComponent(s), EncodeURIComponent(s[1..]);
      assert e == EncodeChar(s[0]) + rest;
      assert e != [] by {
        EncodeCharNonEmpty(s[0]);
      }
      assert DecodeChar(e) == Some((s[0], rest)) by {
        DecodeEncodedChar(s[0], rest);
      }
      assert DecodeURIComponent(rest) == Some(s[1..]) by {
        DecodeEncoded(s[1..]);
      }
      DecodeStep(e, s[0], rest, s[1..]);
      assert [s[0]] + s[1..] == s;
    }
  }

  lemma EncodeCharNonEmpty(c: char)
    ensures |EncodeChar(c)| >= 1
  {
  }
}
