/**
 * The text form of `java.util.UUID`, as far as the service relies on it:
 * which strings `UUID.fromString` accepts and what `UUID.toString` prints
 * for the value it returns. Only the 36-character 8-4-4-4-12 form is
 * modelled; `toString` always prints lower-case hexadecimal.
 */
module Uuids {
  import opened Wrappers

  predicate IsHexDigit(c: char) {
    '0' <= c <= '9' || 'a' <= c <= 'f' || 'A' <= c <= 'F'
  }

  /** The positions of the four dashes in 8-4-4-4-12. */
  predicate IsDashPosition(i: int) {
    i == 8 || i == 13 || i == 18 || i == 23
  }

  /** `s` is accepted by `UUID.fromString` in its 36-character form. */
  predicate IsUuid(s: string) {
    |s| == 36 &&
    forall i :: 0 <= i < 36 ==> if IsDashPosition(i) then s[i] == '-' else IsHexDigit(s[i])
  }

  /** The value of a hexadecimal digit, in either case. */
  function HexValue(c: char): (v: nat)
    requires IsHexDigit(c)
    ensures v < 16
  {
    if '0' <= c <= '9' then c as int - '0' as int
    else if 'a' <= c <= 'f' then c as int - 'a' as int + 10
    else c as int - 'A' as int + 10
  }

  /** Two lower-case hexadecimal digits with the same value are the same digit. */
  lemma LowerHexUnique(c: char, d: char)
    requires IsHexDigit(c) && IsHexDigit(d) && !('A' <= c <= 'F') && !('A' <= d <= 'F')
    ensures HexValue(c) == HexValue(d) <==> c == d
  {
  }

  /** A hexadecimal digit becomes the lower-case digit of the same value; anything else is kept. */
  function ToLowerHex(c: char): (d: char)
    ensures IsHexDigit(c) ==> IsHexDigit(d) && !('A' <= d <= 'F') && HexValue(d) == HexValue(c)
    ensures !('A' <= c <= 'F') ==> d == c
  {
    if 'A' <= c <= 'F' then (c as int - 'A' as int + 'a' as int) as char else c
  }

  /** What `UUID.fromString(s).toString()` prints: the same digits in lower case. */
  function Canonical(s: string): (t: string)
    ensures |t| == |s|
    ensures IsUuid(s) ==> IsUuid(t)
    ensures forall i :: 0 <= i < |s| ==> !('A' <= t[i] <= 'F')
    ensures forall i :: 0 <= i < |s| ==> !('A' <= s[i] <= 'F') ==> t[i] == s[i]
    ensures forall i :: 0 <= i < |s| && IsHexDigit(s[i]) ==> IsHexDigit(t[i]) && HexValue(t[i]) == HexValue(s[i])
  {
    seq(|s|, i requires 0 <= i < |s| => ToLowerHex(s[i]))
  }

  /** No hexadecimal digit of `s` is upper case. */
  predicate IsLowerCase(s: string) {
    forall i :: 0 <= i < |s| ==> !('A' <= s[i] <= 'F')
  }

  /** Text that `UUID.toString` can print: well-formed and lower case. */
  predicate IsCanonical(s: string) {
    IsUuid(s) && IsLowerCase(s)
  }

  /** A `java.util.UUID` value, identified with the text its `toString` prints. */
  type Uuid = s: string | IsCanonical(s) witness "00000000-0000-0000-0000-000000000000"

  /**
   * `UUID.fromString`: `None` where Java throws `IllegalArgumentException`.
   * Printing the parsed value with `ToString` gives back `Canonical(s)`.
   */
  function FromString(s: string): (u: Option<Uuid>)
    ensures u.Some? <==> IsUuid(s)
    ensures u.Some? ==> u.value == Canonical(s)
  {
    if IsUuid(s) then
      CanonicalIsCanonical(s);
      Some(Canonical(s))
    else None
  }

  /** `UUID.toString`. */
  function ToString(u: Uuid): (s: string)
    ensures FromString(s) == Some(u)
  {
    CanonicalIsCanonical(u);
    u
  }

  /** Canonical text is exactly the text that printing a parsed UUID leaves unchanged. */
  lemma CanonicalIsCanonical(s: string)
    requires IsUuid(s)
    ensures IsCanonical(Canonical(s))
    ensures IsCanonical(s) <==> Canonical(s) == s
  {
    if !IsLowerCase(s) {
      var i :| 0 <= i < |s| && 'A' <= s[i] <= 'F';
      assert Canonical(s)[i] != s[i];
    }
  }

  /**
   * Two well-formed ids print alike exactly when they hold the same digit
   * values, position by position: `fromString` loses only the case.
   */
  lemma CanonicalSameDigits(a: string, b: string)
    requires IsUuid(a) && IsUuid(b)
    ensures Canonical(a) == Canonical(b) <==>
      forall i :: 0 <= i < 36 && !IsDashPosition(i) ==> HexValue(a[i]) == HexValue(b[i])
  {
    var ca, cb := Canonical(a), Canonical(b);
    if forall i :: 0 <= i < 36 && !IsDashPosition(i) ==> HexValue(a[i]) == HexValue(b[i]) {
      forall i | 0 <= i < 36
        ensures ca[i] == cb[i]
      {
        if !IsDashPosition(i) {
          LowerHexUnique(ca[i], cb[i]);
        }
      }
    }
  }
}
