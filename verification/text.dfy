/** The string operations of .NET that the library relies on: `char.IsWhiteSpace`,
    `string.IsNullOrWhiteSpace`, `StartsWith`/`EndsWith`/`Contains` (ordinal),
    `Replace(old, "")`, `string.Join`, and the `ToString()` of the integer types
    and of `Guid`. */
module Text {
  import opened Core

  /** `char.IsWhiteSpace`: the Unicode space, line and paragraph separators
      (categories Zs, Zl, Zp) together with U+0009..U+000D and U+0085. */
  predicate IsWhiteSpace(c: char) {
    || ('\t' <= c <= '\r')
    || c == ' '
    || c == '\U{85}'
    || c == '\U{A0}'
    || c == '\U{1680}'
    || ('\U{2000}' <= c <= '\U{200A}')
    || c == '\U{2028}'
    || c == '\U{2029}'
    || c == '\U{202F}'
    || c == '\U{205F}'
    || c == '\U{3000}'
  }

  /** Empty, or made of white space only. */
  predicate IsBlank(s: string) {
    forall i :: 0 <= i < |s| ==> IsWhiteSpace(s[i])
  }

  /** `string.IsNullOrWhiteSpace`. */
  predicate IsNullOrWhiteSpace(s: Option<string>) {
    s.None? || IsBlank(s.value)
  }

  predicate StartsWith(s: string, prefix: string) {
    |prefix| <= |s| && s[..|prefix|] == prefix
  }

  predicate EndsWith(s: string, suffix: string) {
    |suffix| <= |s| && s[|s| - |suffix|..] == suffix
  }

  /** Ordinal `string.Contains`: `pattern` occurs at some position of `s`. */
  predicate Contains(s: string, pattern: string)
    decreases |s|
  {
    StartsWith(s, pattern) || (|s| > 0 && Contains(s[1..], pattern))
  }

  /** `s.Replace(pattern, "")`: every occurrence of `pattern`, found left to right
      without overlap, is removed. .NET refuses an empty `pattern`. */
  function RemoveAll(s: string, pattern: string): (r: string)
    requires |pattern| > 0
    ensures |r| <= |s|
    ensures !Contains(s, pattern) ==> r == s
    decreases |s|
  {
    if |s| < |pattern| then s
    else if StartsWith(s, pattern) then RemoveAll(s[|pattern|..], pattern)
    else [s[0]] + RemoveAll(s[1..], pattern)
  }

  /** `string.Join(separator, parts)`. */
  function Join(separator: string, parts: seq<string>): string
    decreases |parts|
  {
    if |parts| == 0 then ""
    else if |parts| == 1 then parts[0]
    else parts[0] + separator + Join(separator, parts[1..])
  }

  /** Appending one more part to a join adds one separator and the part. */
  lemma {:induction false} JoinSnoc(separator: string, parts: seq<string>, last: string)
    ensures Join(separator, parts + [last])
         == if |parts| == 0 then last else Join(separator, parts) + separator + last
    decreases |parts|
  {
    if |parts| == 0 {
      assert parts + [last] == [last];
    } else if |parts| == 1 {
      assert parts + [last] == [parts[0], last];
      assert (parts + [last])[1..] == [last];
    } else {
      assert (parts + [last])[1..] == parts[1..] + [last];
      JoinSnoc(separator, parts[1..], last);
    }
  }

  // ---------------------------------------------------------------------------
  // Decimal text of the integer types (`short`, `ushort`, `int`, `uint`, `long`,
  // `ulong`): `ToString()` writes the same digits for every width. The sign is
  // written as the ASCII "-"; a current culture with another negative sign is
  // not modelled.

  predicate IsDecimalDigit(c: char) {
    '0' <= c <= '9'
  }

  function DigitChar(d: nat): (c: char)
    requires d < 10
    ensures IsDecimalDigit(c)
  {
    ('0' as int + d) as char
  }

  function DigitValue(c: char): (d: nat)
    requires IsDecimalDigit(c)
    ensures d < 10
  {
    c as int - '0' as int
  }

  function NatToString(n: nat): (s: string)
    ensures |s| > 0
    ensures forall i :: 0 <= i < |s| ==> IsDecimalDigit(s[i])
    decreases n
  {
    if n < 10 then [DigitChar(n)] else NatToString(n / 10) + [DigitChar(n % 10)]
  }

  /** `ToString()` of an integer: an optional minus sign, then decimal digits. */
  function IntToString(n: int): (s: string)
    ensures |s| > 0
    ensures !IsBlank(s)
  {
    var s := if n < 0 then "-" + NatToString(-n) else NatToString(n);
    assert !IsWhiteSpace(s[0]);
    s
  }

  /** Reads back the decimal digits written by `NatToString`. */
  function ParseNat(s: string): nat
    requires forall i :: 0 <= i < |s| ==> IsDecimalDigit(s[i])
    decreases |s|
  {
    if |s| == 0 then 0 else ParseNat(s[..|s| - 1]) * 10 + DigitValue(s[|s| - 1])
  }

  /** Reads back the text written by `IntToString`. */
  function ParseInt(s: string): Option<int> {
    if |s| > 0 && s[0] == '-' && forall i :: 1 <= i < |s| ==> IsDecimalDigit(s[i]) then
      var magnitude: int := ParseNat(s[1..]);
      Some(-magnitude)
    else if forall i :: 0 <= i < |s| ==> IsDecimalDigit(s[i]) then
      Some(ParseNat(s))
    else None
  }

  lemma {:induction false} ParseNatToString(n: nat)
    ensures ParseNat(NatToString(n)) == n
    decreases n
  {
    if n >= 10 {
      var s := NatToString(n);
      assert s[..|s| - 1] == NatToString(n / 10);
      ParseNatToString(n / 10);
    }
  }

  /** The decimal text of an integer determines the integer: distinct path
      segments or query values come from distinct numbers. */
  lemma IntToStringRoundTrip(n: int)
    ensures ParseInt(IntToString(n)) == Some(n)
  {
    var s := IntToString(n);
    if n < 0 {
      var d := NatToString(-n);
      assert s == "-" + d;
      assert s[1..] == d;
      assert forall i :: 1 <= i < |s| ==> IsDecimalDigit(s[i]) by {
        forall i | 1 <= i < |s| ensures IsDecimalDigit(s[i]) {
          assert s[i] == d[i - 1];
        }
      }
      ParseNatToString(-n);
    } else {
      assert !(s[0] == '-');
      ParseNatToString(n);
    }
  }

  // ---------------------------------------------------------------------------
  // `Guid.ToString()`: the "D" format, 32 lower-case hexadecimal digits in groups
  // of 8-4-4-4-12 separated by hyphens. A GUID is modelled by its 128-bit value
  // in the order of its textual form.

  type Guid = n: nat | n < 0x1_0000_0000_0000_0000_0000_0000_0000_0000

  predicate IsHexDigit(c: char) {
    ('0' <= c <= '9') || ('a' <= c <= 'f')
  }

  function HexChar(d: nat): (c: char)
    requires d < 16
    ensures IsHexDigit(c)
  {
    if d < 10 then DigitChar(d) else ('a' as int + d - 10) as char
  }

  /** The lowest `width` hexadecimal digits of `n`, most significant first. */
  function HexDigits(n: nat, width: nat): (s: string)
    ensures |s| == width
    ensures forall i :: 0 <= i < |s| ==> IsHexDigit(s[i])
    decreases width
  {
    if width == 0 then "" else HexDigits(n / 16, width - 1) + [HexChar(n % 16)]
  }

  function GuidToString(g: Guid): (s: string)
    ensures |s| == 36
    ensures forall i :: 0 <= i < |s| ==>
              if i in {8, 13, 18, 23} then s[i] == '-' else IsHexDigit(s[i])
    ensures !IsBlank(s)
  {
    var d := HexDigits(g, 32);
    var s := d[..8] + "-" + d[8..12] + "-" + d[12..16] + "-" + d[16..20] + "-" + d[20..];
    assert !IsWhiteSpace(s[0]);
    s
  }

  function HexValue(c: char): (d: nat)
    requires IsHexDigit(c)
    ensures d < 16
  {
    if '0' <= c <= '9' then c as int - '0' as int else c as int - 'a' as int + 10
  }

  /** The number a run of hexadecimal digits spells, most significant first. */
  function ParseHex(s: string): nat
    requires forall i :: 0 <= i < |s| ==> IsHexDigit(s[i])
    decreases |s|
  {
    if |s| == 0 then 0 else ParseHex(s[..|s| - 1]) * 16 + HexValue(s[|s| - 1])
  }

  function Pow16(w: nat): (r: nat)
    ensures r > 0
  {
    if w == 0 then 1 else 16 * Pow16(w - 1)
  }

  lemma {:induction false} Pow16Add(a: nat, b: nat)
    ensures Pow16(a + b) == Pow16(a) * Pow16(b)
    decreases a
  {
    if a > 0 {
      Pow16Add(a - 1, b);
      assert Pow16(a + b) == 16 * Pow16(a - 1 + b);
    }
  }

  /** A GUID has exactly 32 hexadecimal digits. */
  lemma Pow16Guid()
    ensures Pow16(32) == 0x1_0000_0000_0000_0000_0000_0000_0000_0000
  {
    assert Pow16(1) == 16;
    Pow16Add(1, 1);
    Pow16Add(2, 2);
    Pow16Add(4, 4);
    Pow16Add(8, 8);
    Pow16Add(16, 16);
  }

  /** `x` is the remainder of `n` by `m` when `n` is a multiple of `m` plus `x`. */
  lemma ModUnique(n: int, m: int, a: int, x: int)
    requires m > 0 && n == m * a + x && 0 <= x < m
    ensures n % m == x
  {
    var k := a - n / m;
    assert m * k == n % m - x;
    MulSmall(m, k);
  }

  /** The only multiple of a positive `m` strictly between `-m` and `m` is 0. */
  lemma MulSmall(m: int, k: int)
    requires m > 0 && -m < m * k < m
    ensures k == 0
  {
  }

  /** The remainder by `16 * p` splits into the last hexadecimal digit and the
      remainder of the rest by `p`. */
  lemma ModStep(n: nat, p: nat)
    requires p > 0
    ensures n % (16 * p) == (n / 16 % p) * 16 + n % 16
  {
    var q, r := n / 16, n % 16;
    var a, b := q / p, q % p;
    assert q == p * a + b;
    assert 16 * (p * a) == (16 * p) * a;
    assert n == (16 * p) * a + (16 * b + r);
    ModUnique(n, 16 * p, a, 16 * b + r);
  }

  /** Reading back the lowest `width` hexadecimal digits of `n` gives `n` modulo
      16 to the `width`. */
  lemma {:induction false} ParseHexDigits(n: nat, width: nat)
    ensures ParseHex(HexDigits(n, width)) == n % Pow16(width)
    decreases width
  {
    if width > 0 {
      var s := HexDigits(n, width);
      assert s[..|s| - 1] == HexDigits(n / 16, width - 1);
      assert s[|s| - 1] == HexChar(n % 16);
      assert HexValue(HexChar(n % 16)) == n % 16;
      ParseHexDigits(n / 16, width - 1);
      ModStep(n, Pow16(width - 1));
    }
  }

  /** The digits of a "D"-format GUID text, hyphens removed. */
  function GuidDigits(s: string): string
    requires |s| == 36
  {
    s[..8] + s[9..13] + s[14..18] + s[19..23] + s[24..]
  }

  /** Removing the hyphens of the "D" form gives back its 32 digits. */
  lemma GuidDigitsOfText(d: string)
    requires |d| == 32
    ensures GuidDigits(d[..8] + "-" + d[8..12] + "-" + d[12..16] + "-" + d[16..20] + "-" + d[20..]) == d
  {
    var s := d[..8] + "-" + d[8..12] + "-" + d[12..16] + "-" + d[16..20] + "-" + d[20..];
    assert |s| == 36;
    assert forall i :: 0 <= i < 8 ==> s[i] == d[i];
    assert forall i :: 9 <= i < 13 ==> s[i] == d[i - 1];
    assert forall i :: 14 <= i < 18 ==> s[i] == d[i - 2];
    assert forall i :: 19 <= i < 23 ==> s[i] == d[i - 3];
    assert forall i :: 24 <= i < 36 ==> s[i] == d[i - 4];
    var g := GuidDigits(s);
    assert |g| == 32;
    forall i | 0 <= i < 32 ensures g[i] == d[i] {
      if i < 8 { assert g[i] == s[i]; }
      else if i < 12 { assert g[i] == s[i + 1]; }
      else if i < 16 { assert g[i] == s[i + 2]; }
      else if i < 20 { assert g[i] == s[i + 3]; }
      else { assert g[i] == s[i + 4]; }
    }
  }

  /** The "D" form determines the GUID: its digits read back to its value. */
  lemma GuidToStringRoundTrip(g: Guid)
    ensures GuidDigits(GuidToString(g)) == HexDigits(g, 32)
    ensures ParseHex(GuidDigits(GuidToString(g))) == g
  {
    var d := HexDigits(g, 32);
    assert GuidToString(g) == d[..8] + "-" + d[8..12] + "-" + d[12..16] + "-" + d[16..20] + "-" + d[20..];
    GuidDigitsOfText(d);
    assert ParseHex(d) == g by {
      ParseHexDigits(g, 32);
      Pow16Guid();
      ModUnique(g, Pow16(32), 0, g);
    }
  }

  /** Distinct GUIDs have distinct "D" forms. */
  lemma GuidToStringInjective(a: Guid, b: Guid)
    requires GuidToString(a) == GuidToString(b)
    ensures a == b
  {
    GuidToStringRoundTrip(a);
    GuidToStringRoundTrip(b);
  }

  // ---------------------------------------------------------------------------
  // Ordinal ordering of strings, by code point and then by length.

  predicate OrdinalLessOrEqual(a: string, b: string)
    decreases |a|
  {
    |a| == 0 || (|b| > 0 && (a[0] < b[0] || (a[0] == b[0] && OrdinalLessOrEqual(a[1..], b[1..]))))
  }

  lemma {:induction false} OrdinalTotal(a: string, b: string)
    ensures OrdinalLessOrEqual(a, b) || OrdinalLessOrEqual(b, a)
    decreases |a|
  {
    if |a| > 0 && |b| > 0 && a[0] == b[0] {
      OrdinalTotal(a[1..], b[1..]);
    }
  }

  lemma {:induction false} OrdinalTransitive(a: string, b: string, c: string)
    requires OrdinalLessOrEqual(a, b) && OrdinalLessOrEqual(b, c)
    ensures OrdinalLessOrEqual(a, c)
    decreases |a|
  {
    if |a| > 0 && a[0] == b[0] && b[0] == c[0] {
      OrdinalTransitive(a[1..], b[1..], c[1..]);
    }
  }

  lemma {:induction false} OrdinalAntisymmetric(a: string, b: string)
    requires OrdinalLessOrEqual(a, b) && OrdinalLessOrEqual(b, a)
    ensures a == b
    decreases |a|
  {
    if |a| > 0 {
      OrdinalAntisymmetric(a[1..], b[1..]);
      assert a == [a[0]] + a[1..] && b == [b[0]] + b[1..];
    }
  }
}
