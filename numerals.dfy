/** Decimal and hexadecimal numerals as Python writes and reads them:
    `f"{n}"`, `f"{n:03d}"`, `int(s)` on plain digit strings and `int(s, 16)`
    on the two-character fields of a colour string. */
module Numerals {
  import opened Common

  predicate IsDigit(c: char) { '0' <= c <= '9' }

  predicate AllDigits(s: string) { forall i :: 0 <= i < |s| ==> IsDigit(s[i]) }

  function DigitValue(c: char): nat
    requires IsDigit(c)
  {
    (c as int) - ('0' as int)
  }

  function DigitChar(d: nat): (c: char)
    requires d < 10
    ensures IsDigit(c) && DigitValue(c) == d
  {
    (('0' as int) + d) as char
  }

  /** `f"{n}"` for a non-negative integer. */
  function Dec(n: nat): (s: string)
    ensures |s| >= 1 && AllDigits(s)
    ensures n < 10 <==> |s| == 1
  {
    if n < 10 then [DigitChar(n)] else Dec(n / 10) + [DigitChar(n % 10)]
  }

  /** The value of a digit string, most significant digit first; leading
      zeros are allowed, as in Python's `int("007")`. */
  function DecValue(s: string): nat
    requires AllDigits(s)
  {
    if s == [] then 0 else DecValue(s[..|s| - 1]) * 10 + DigitValue(s[|s| - 1])
  }

  /** Reading back what `Dec` wrote gives the number. */
  lemma {:induction false} DecRoundTrip(n: nat)
    ensures DecValue(Dec(n)) == n
  {
    if n >= 10 {
      var s := Dec(n);
      assert s[..|s| - 1] == Dec(n / 10);
      DecRoundTrip(n / 10);
    }
  }

  function Zeros(k: nat): (s: string)
    ensures |s| == k && AllDigits(s)
    ensures forall i :: 0 <= i < k ==> s[i] == '0'
  {
    if k == 0 then [] else Zeros(k - 1) + ['0']
  }

  /** Leading zeros do not change the value of a digit string. */
  lemma {:induction false} LeadingZeros(k: nat, s: string)
    requires AllDigits(s)
    ensures AllDigits(Zeros(k) + s)
    ensures DecValue(Zeros(k) + s) == DecValue(s)
    decreases |s|, k
  {
    var z := Zeros(k) + s;
    if s == [] {
      assert z == Zeros(k);
      if k > 0 {
        assert z[..|z| - 1] == Zeros(k - 1) + [];
        LeadingZeros(k - 1, []);
      }
    } else {
      assert z[..|z| - 1] == Zeros(k) + s[..|s| - 1];
      LeadingZeros(k, s[..|s| - 1]);
    }
  }

  /** `f"{n:03d}"`: at least three digits, padded with zeros on the left. */
  function Pad3(n: nat): (s: string)
    ensures |s| >= 3 && AllDigits(s)
  {
    var d := Dec(n);
    if |d| < 3 then Zeros(3 - |d|) + d else d
  }

  lemma Pad3Value(n: nat)
    ensures DecValue(Pad3(n)) == n
  {
    var d := Dec(n);
    DecRoundTrip(n);
    if |d| < 3 { LeadingZeros(3 - |d|, d); }
  }

  /** Distinct counters give distinct padded numerals. */
  lemma Pad3Injective(a: nat, b: nat)
    requires a != b
    ensures Pad3(a) != Pad3(b)
  {
    Pad3Value(a);
    Pad3Value(b);
  }

  /** Python `int(s)` restricted to plain digit strings (see the README). */
  function ParseDec(s: string): (r: Option<nat>)
    ensures r.Some? <==> s != [] && AllDigits(s)
  {
    if s != [] && AllDigits(s) then Some(DecValue(s)) else None
  }

  // ---------------------------------------------------------------- hex

  predicate IsHexDigit(c: char) { '0' <= c <= '9' || 'a' <= c <= 'f' || 'A' <= c <= 'F' }

  predicate AllHex(s: string) { forall i :: 0 <= i < |s| ==> IsHexDigit(s[i]) }

  function HexDigitValue(c: char): (v: nat)
    requires IsHexDigit(c)
    ensures v < 16
  {
    if '0' <= c <= '9' then (c as int) - ('0' as int)
    else if 'a' <= c <= 'f' then (c as int) - ('a' as int) + 10
    else (c as int) - ('A' as int) + 10
  }

  function HexChar(d: nat): (c: char)
    requires d < 16
    ensures IsHexDigit(c) && HexDigitValue(c) == d
  {
    if d < 10 then (('0' as int) + d) as char else (('a' as int) + d - 10) as char
  }

  function HexValue(s: string): nat
    requires AllHex(s)
  {
    if s == [] then 0 else HexValue(s[..|s| - 1]) * 16 + HexDigitValue(s[|s| - 1])
  }

  /** Two lower-case hex digits, as a colour chooser writes one channel. */
  function Hex2(v: nat): (s: string)
    requires v < 256
    ensures |s| == 2 && AllHex(s)
  {
    [HexChar(v / 16), HexChar(v % 16)]
  }

  lemma Hex2RoundTrip(v: nat)
    requires v < 256
    ensures HexValue(Hex2(v)) == v
  {
    var s := Hex2(v);
    assert s[..1] == [HexChar(v / 16)];
    assert s[..1][..0] == [];
    assert HexValue(s[..1]) == v / 16;
  }

  /** The characters Python's `str.isspace` accepts, which `int()` strips
      from both ends: ASCII 9-13 and 28-32, U+0085, U+00A0, U+1680,
      U+2000-U+200A, U+2028, U+2029, U+202F, U+205F and U+3000. */
  predicate IsSpace(c: char)
  {
    var n := c as int;
    || 9 <= n <= 13 || 28 <= n <= 32 || n == 0x85 || n == 0xA0 || n == 0x1680
    || 0x2000 <= n <= 0x200A || n == 0x2028 || n == 0x2029 || n == 0x202F || n == 0x205F || n == 0x3000
  }

  /** Python `int(s, 16)` for a string of at most two characters, over ASCII
      digits and letters. With so few characters neither a `0x` prefix nor an
      underscore separator can appear in a valid numeral, so the accepted
      forms are: optional surrounding whitespace, an optional sign, one or
      more hex digits. Decimal digits of other scripts, which `int()` also
      reads, are rejected (see the README). */
  function ParseHexField(s: string): (r: Option<int>)
    requires |s| <= 2
    ensures r.Some? ==> -15 <= r.value <= 255
    ensures AllHex(s) && s != [] ==> r == Some(HexValue(s) as int)
  {
    var t := if s != [] && IsSpace(s[0]) then s[1..] else s;
    var u := if t != [] && IsSpace(t[|t| - 1]) then t[..|t| - 1] else t;
    if u == [] then None
    else if u[0] == '+' || u[0] == '-' then
      if |u| == 2 && IsHexDigit(u[1]) then
        Some(if u[0] == '-' then -(HexDigitValue(u[1]) as int) else HexDigitValue(u[1]) as int)
      else None
    else if AllHex(u) then
      assert |u| == 2 ==> u[..1][..0] == [] && HexValue(u[..1]) == HexDigitValue(u[0]);
      assert |u| == 1 ==> u[..0] == [] && HexValue(u) == HexDigitValue(u[0]);
      Some(HexValue(u) as int)
    else None
  }
}
