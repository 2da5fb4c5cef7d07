/** `Encoding.UTF8.GetBytes` on a string of Unicode scalar values, with a strict
    decoder as its partner. */
module Utf8 {
  import opened Core

  predicate IsScalarValue(cp: int) {
    (0 <= cp < 0xD800) || (0xE000 <= cp < 0x11_0000)
  }

  predicate IsContinuation(b: byte) {
    0x80 <= b < 0xC0
  }

  /** The one to four bytes of a code point: the leading byte carries the length,
      every continuation byte six more bits. */
  function EncodeScalar(c: char): (bs: seq<byte>)
    ensures 1 <= |bs| <= 4
  {
    var cp := c as int;
    var q1 := cp / 64;
    var q2 := q1 / 64;
    var q3 := q2 / 64;
    if cp < 0x80 then [cp]
    else if cp < 0x800 then [0xC0 + q1, 0x80 + cp % 64]
    else if cp < 0x1_0000 then [0xE0 + q2, 0x80 + q1 % 64, 0x80 + cp % 64]
    else [0xF0 + q3, 0x80 + q2 % 64, 0x80 + q1 % 64, 0x80 + cp % 64]
  }

  function Encode(s: string): seq<byte>
    decreases |s|
  {
    if |s| == 0 then [] else EncodeScalar(s[0]) + Encode(s[1..])
  }

  function Scalar(cp: int, length: nat): Option<(char, nat)> {
    if IsScalarValue(cp) then Some((cp as char, length)) else None
  }

  /** Decodes the code point that starts `bs`, with the number of bytes it used. */
  function DecodeFirst(bs: seq<byte>): Option<(char, nat)>
    requires |bs| > 0
  {
    var b0 := bs[0] as int;
    if b0 < 0x80 then Some((b0 as char, 1))
    else if 0xC0 <= b0 < 0xE0 && |bs| >= 2 && IsContinuation(bs[1]) then
      Scalar((b0 - 0xC0) * 64 + (bs[1] as int - 0x80), 2)
    else if 0xE0 <= b0 < 0xF0 && |bs| >= 3 && IsContinuation(bs[1]) && IsContinuation(bs[2]) then
      Scalar(((b0 - 0xE0) * 64 + (bs[1] as int - 0x80)) * 64 + (bs[2] as int - 0x80), 3)
    else if 0xF0 <= b0 < 0xF8 && |bs| >= 4 && IsContinuation(bs[1]) && IsContinuation(bs[2])
            && IsContinuation(bs[3]) then
      Scalar((((b0 - 0xF0) * 64 + (bs[1] as int - 0x80)) * 64 + (bs[2] as int - 0x80)) * 64
             + (bs[3] as int - 0x80), 4)
    else None
  }

  function Decode(bs: seq<byte>): Option<string>
    decreases |bs|
  {
    if |bs| == 0 then Some("")
    else match DecodeFirst(bs)
      case None => None
      case Some((c, n)) =>
        if 0 < n <= |bs| then
          match Decode(bs[n..])
          case None => None
          case Some(rest) => Some([c] + rest)
        else None
  }

  lemma DecodeFirstEncodeScalar(c: char, rest: seq<byte>)
    ensures DecodeFirst(EncodeScalar(c) + rest) == Some((c, |EncodeScalar(c)|))
  {
    var cp := c as int;
    var q1 := cp / 64;
    var q2 := q1 / 64;
    var q3 := q2 / 64;
    assert cp == q1 * 64 + cp % 64;
    assert q1 == q2 * 64 + q1 % 64;
    assert q2 == q3 * 64 + q2 % 64;
  }

  /** Decoding the UTF-8 bytes of a string gives the string back. */
  lemma {:induction false} DecodeEncode(s: string)
    ensures Decode(Encode(s)) == Some(s)
    decreases |s|
  {
    if |s| > 0 {
      var head := EncodeScalar(s[0]);
      var bs := Encode(s);
      assert bs == head + Encode(s[1..]);
      DecodeFirstEncodeScalar(s[0], Encode(s[1..]));
      assert bs[|head|..] == Encode(s[1..]);
      DecodeEncode(s[1..]);
      assert s == [s[0]] + s[1..];
    }
  }

  /** `Encoding.UTF8.GetBytes` is injective. */
  lemma EncodeInjective(s: string, t: string)
    requires Encode(s) == Encode(t)
    ensures s == t
  {
    DecodeEncode(s);
    DecodeEncode(t);
  }
}

/** `Convert.ToBase64String`: the base 64 encoding of section 4 of RFC 4648, with
    "=" padding, and a decoder as its partner. */
module Base64 {
  import opened Core

  /** Digit `v` of the alphabet of table 1 of RFC 4648: A-Z, a-z, 0-9, "+", "/". */
  function Digit(v: nat): char
    requires v < 64
  {
    if v < 26 then ('A' as int + v) as char
    else if v < 52 then ('a' as int + (v - 26)) as char
    else if v < 62 then ('0' as int + (v - 52)) as char
    else if v == 62 then '+'
    else '/'
  }

  predicate IsDigit(c: char) {
    ('A' <= c <= 'Z') || ('a' <= c <= 'z') || ('0' <= c <= '9') || c == '+' || c == '/'
  }

  function ValueOf(c: char): (v: nat)
    requires IsDigit(c)
    ensures v < 64
  {
    if 'A' <= c <= 'Z' then c as int - 'A' as int
    else if 'a' <= c <= 'z' then c as int - 'a' as int + 26
    else if '0' <= c <= '9' then c as int - '0' as int + 52
    else if c == '+' then 62
    else 63
  }

  lemma DigitRoundTrip(v: nat)
    requires v < 64
    ensures IsDigit(Digit(v)) && ValueOf(Digit(v)) == v
  {
  }

  const Pad: char := '='

  /** The four characters of one input group of one to three bytes. */
  function EncodeGroup(group: seq<byte>): (s: string)
    requires 1 <= |group| <= 3
    ensures |s| == 4
  {
    var b0 := group[0];
    if |group| == 1 then
      [Digit(b0 / 4), Digit((b0 % 4) * 16), Pad, Pad]
    else
      var b1 := group[1];
      if |group| == 2 then
        [Digit(b0 / 4), Digit((b0 % 4) * 16 + b1 / 16), Digit((b1 % 16) * 4), Pad]
      else
        var b2 := group[2];
        [Digit(b0 / 4), Digit((b0 % 4) * 16 + b1 / 16), Digit((b1 % 16) * 4 + b2 / 64), Digit(b2 % 64)]
  }

  function Encode(bs: seq<byte>): (s: string)
    ensures |s| == 4 * ((|bs| + 2) / 3)
    decreases |bs|
  {
    if |bs| == 0 then ""
    else if |bs| <= 3 then EncodeGroup(bs)
    else EncodeGroup(bs[..3]) + Encode(bs[3..])
  }

  /** The bytes of one four-character group; padding only in the last group. */
  function DecodeGroup(quad: string, last: bool): Option<seq<byte>>
    requires |quad| == 4
  {
    if !IsDigit(quad[0]) || !IsDigit(quad[1]) then None
    else
      var v0 := ValueOf(quad[0]);
      var v1 := ValueOf(quad[1]);
      if quad[2] == Pad && quad[3] == Pad then
        if last then Some([v0 * 4 + v1 / 16]) else None
      else if !IsDigit(quad[2]) then None
      else
        var v2 := ValueOf(quad[2]);
        if quad[3] == Pad then
          if last then Some([v0 * 4 + v1 / 16, (v1 % 16) * 16 + v2 / 4]) else None
        else if !IsDigit(quad[3]) then None
        else
          var v3 := ValueOf(quad[3]);
          Some([v0 * 4 + v1 / 16, (v1 % 16) * 16 + v2 / 4, (v2 % 4) * 64 + v3])
  }

  function Decode(s: string): Option<seq<byte>>
    decreases |s|
  {
    if |s| == 0 then Some([])
    else if |s| < 4 then None
    else match DecodeGroup(s[..4], |s| == 4)
      case None => None
      case Some(group) =>
        match Decode(s[4..])
        case None => None
        case Some(rest) => Some(group + rest)
  }

  lemma DecodeEncodeGroup(group: seq<byte>, last: bool)
    requires 1 <= |group| <= 3
    requires |group| < 3 ==> last
    ensures DecodeGroup(EncodeGroup(group), last) == Some(group)
  {
    var b0 := group[0];
    DigitRoundTrip(b0 / 4);
    if |group| == 1 {
      DigitRoundTrip((b0 % 4) * 16);
      assert [b0] == group;
    } else {
      var b1 := group[1];
      DigitRoundTrip((b0 % 4) * 16 + b1 / 16);
      if |group| == 2 {
        DigitRoundTrip((b1 % 16) * 4);
        assert [b0, b1] == group;
      } else {
        var b2 := group[2];
        DigitRoundTrip((b1 % 16) * 4 + b2 / 64);
        DigitRoundTrip(b2 % 64);
        assert [b0, b1, b2] == group;
      }
    }
  }

  /** Decoding the base 64 text of a byte string gives the byte string back. */
  lemma {:induction false} DecodeEncode(bs: seq<byte>)
    ensures Decode(Encode(bs)) == Some(bs)
    decreases |bs|
  {
    if 0 < |bs| <= 3 {
      var s := Encode(bs);
      assert s[..4] == s && s[4..] == "";
      DecodeEncodeGroup(bs, true);
      assert bs + [] == bs;
    } else if |bs| > 3 {
      var s := Encode(bs);
      assert s == EncodeGroup(bs[..3]) + Encode(bs[3..]);
      assert s[..4] == EncodeGroup(bs[..3]);
      assert s[4..] == Encode(bs[3..]);
      DecodeEncodeGroup(bs[..3], |s| == 4);
      DecodeEncode(bs[3..]);
      assert bs == bs[..3] + bs[3..];
    }
  }
}
