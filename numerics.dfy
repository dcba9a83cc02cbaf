/**
 * Java `int` arithmetic and the decimal text of integers: `%d` formatting
 * and the digit runs that `Integer.parseInt` reads.
 */
module Numerics {

  const INT_MIN: int := -0x8000_0000
  const INT_MAX: int := 0x7FFF_FFFF

  /** Java's `int`: 32-bit two's complement. */
  type Int32 = i: int | -0x8000_0000 <= i <= 0x7FFF_FFFF

  /** The `int` that Java computes for the mathematical value `n` (wrap-around modulo 2^32). */
  function Wrap32(n: int): (r: Int32)
    ensures (n - r) % 0x1_0000_0000 == 0
    ensures INT_MIN <= n <= INT_MAX ==> r == n
  {
    (n + 0x8000_0000) % 0x1_0000_0000 - 0x8000_0000
  }

  predicate IsDigit(c: char) {
    '0' <= c <= '9'
  }

  /** A non-empty run of ASCII digits, as `\d+` matches it. */
  predicate IsDigits(s: string) {
    |s| > 0 && forall i :: 0 <= i < |s| ==> IsDigit(s[i])
  }

  predicate HasNoLeadingZero(s: string)
    requires |s| > 0
  {
    |s| == 1 || s[0] != '0'
  }

  function DigitChar(d: nat): (c: char)
    requires d < 10
    ensures IsDigit(c)
  {
    ('0' as int + d) as char
  }

  function DigitValue(c: char): (d: nat)
    requires IsDigit(c)
    ensures d < 10 && DigitChar(d) == c
  {
    c as int - '0' as int
  }

  /** The value of a run of decimal digits, most significant first. */
  function DigitsValue(s: string): nat
    requires forall i :: 0 <= i < |s| ==> IsDigit(s[i])
  {
    if s == [] then 0 else 10 * DigitsValue(s[..|s| - 1]) + DigitValue(s[|s| - 1])
  }

  /** Decimal text of a natural number, without leading zeros. */
  function NatToString(n: nat): (s: string)
    ensures IsDigits(s)
    ensures s[0] == '0' <==> n == 0
    ensures HasNoLeadingZero(s)
  {
    if n < 10 then [DigitChar(n)] else NatToString(n / 10) + [DigitChar(n % 10)]
  }

  /** Decimal text of an `int`, as `%d` writes it: a minus sign for negatives. */
  function IntToString(n: int): (s: string)
    ensures |s| > 0
    ensures forall i :: 0 <= i < |s| ==> s[i] == '-' || IsDigit(s[i])
    ensures n >= 0 ==> IsDigits(s)
  {
    if n < 0 then "-" + NatToString(-n) else NatToString(n)
  }

  /** Reading back the text of `n` gives `n`. */
  lemma {:induction false} NatToStringValue(n: nat)
    ensures DigitsValue(NatToString(n)) == n
  {
    if n >= 10 {
      NatToStringValue(n / 10);
      var s := NatToString(n);
      assert s[..|s| - 1] == NatToString(n / 10);
    }
  }

  /** A digit run without leading zeros is the text of its own value. */
  lemma {:induction false} DigitsValueToString(s: string)
    requires IsDigits(s) && HasNoLeadingZero(s)
    ensures NatToString(DigitsValue(s)) == s
  {
    var last := DigitValue(s[|s| - 1]);
    if |s| == 1 {
      assert s[..0] == [];
      assert DigitsValue(s) == last;
      assert [DigitChar(last)] == s;
    } else {
      var p := s[..|s| - 1];
      assert p[0] == s[0];
      DigitsValueToString(p);
      var v := DigitsValue(p);
      assert v != 0;
      var n := DigitsValue(s);
      assert n == 10 * v + last;
      assert n / 10 == v && n % 10 == last;
      assert NatToString(n) == NatToString(v) + [DigitChar(last)];
      assert s == p + [s[|s| - 1]];
    }
  }

  /** `NatToString` is one-to-one. */
  lemma NatToStringInjective(a: nat, b: nat)
    requires NatToString(a) == NatToString(b)
    ensures a == b
  {
    NatToStringValue(a);
    NatToStringValue(b);
  }

  /** `%d` formatting is one-to-one: two different ints never print alike. */
  lemma IntToStringInjective(a: int, b: int)
    requires IntToString(a) == IntToString(b)
    ensures a == b
  {
    var s := IntToString(a);
    if a < 0 && b < 0 {
      assert s[1..] == NatToString(-a) && s[1..] == NatToString(-b);
      NatToStringInjective(-a, -b);
    } else if a >= 0 && b >= 0 {
      NatToStringInjective(a, b);
    }
  }
}
