/**
 * The textual form of a point, `x=<x>,y=<y>`: written with
 * `String.format("x=%d,y=%d", ...)` and read back through the regular
 * expression `^x=\d+,y=\d+$`.
 */
module CoordinateText {
  import opened Wrappers
  import opened Numerics

  /** `String.format("x=%d,y=%d", x, y)`. */
  function FormatXY(x: int, y: int): string {
    "x=" + IntToString(x) + ",y=" + IntToString(y)
  }

  /** Length of the longest prefix of `s` made of digits. */
  function DigitRunLength(s: string): (n: nat)
    ensures n <= |s|
    ensures forall i :: 0 <= i < n ==> IsDigit(s[i])
    ensures n < |s| ==> !IsDigit(s[n])
  {
    if s == [] || !IsDigit(s[0]) then 0 else 1 + DigitRunLength(s[1..])
  }

  /**
   * A whole-string match of `^x=\d+,y=\d+$`, giving the two digit runs
   * that `split(",")` and then `split("=")[1]` pick out of a matching string.
   */
  function MatchCoordinates(s: string): (m: Option<(string, string)>)
    ensures m.Some? ==> IsDigits(m.value.0) && IsDigits(m.value.1)
  {
    if |s| < 2 || s[..2] != "x=" then None
    else
      var rest := s[2..];
      var n := DigitRunLength(rest);
      var tail := rest[n..];
      if n == 0 || |tail| < 3 || tail[..3] != ",y=" || !IsDigits(tail[3..]) then None
      else Some((rest[..n], tail[3..]))
  }

  predicate MatchesPattern(s: string) {
    MatchCoordinates(s).Some?
  }

  /** The match succeeds on exactly the strings `x=<digits>,y=<digits>` and returns those digits. */
  lemma MatchCoordinatesIff(s: string, a: string, b: string)
    ensures MatchCoordinates(s) == Some((a, b)) <==> s == "x=" + a + ",y=" + b && IsDigits(a) && IsDigits(b)
  {
    if s == "x=" + a + ",y=" + b && IsDigits(a) && IsDigits(b) {
      assert s[..2] == "x=";
      var rest := s[2..];
      assert rest == a + ",y=" + b;
      var n := DigitRunLength(rest);
      assert forall i :: 0 <= i < |a| ==> rest[i] == a[i];
      assert rest[|a|] == ',';
      assert n == |a|;
      assert rest[..n] == a;
      var tail := rest[n..];
      assert tail == ",y=" + b;
      assert tail[..3] == ",y=" && tail[3..] == b;
    }
    if MatchCoordinates(s) == Some((a, b)) {
      var rest := s[2..];
      var n := DigitRunLength(rest);
      var tail := rest[n..];
      assert s == s[..2] + rest[..n] + tail[..3] + tail[3..];
    }
  }

  /** Distinct points never share a text: a formatted point can be used as a cache key. */
  lemma FormatXYInjective(x: int, y: int, x': int, y': int)
    requires FormatXY(x, y) == FormatXY(x', y')
    ensures x == x' && y == y'
  {
    var s := FormatXY(x, y);
    var a, b, a', b' := IntToString(x), IntToString(y), IntToString(x'), IntToString(y');
    assert s == "x=" + a + ",y=" + b == "x=" + a' + ",y=" + b';
    assert forall i :: 0 <= i < |a| ==> s[2 + i] == a[i];
    assert forall i :: 0 <= i < |a'| ==> s[2 + i] == a'[i];
    assert s[2 + |a|] == ',' && s[2 + |a'|] == ',';
    assert |a| == |a'|;
    assert a == s[2..2 + |a|] == a';
    assert b == s[5 + |a|..] == b';
    IntToStringInjective(x, x');
    IntToStringInjective(y, y');
  }

  /** A point with non-negative coordinates prints as a match of the pattern. */
  lemma FormatXYMatches(x: nat, y: nat)
    ensures MatchCoordinates(FormatXY(x, y)) == Some((NatToString(x), NatToString(y)))
  {
    MatchCoordinatesIff(FormatXY(x, y), NatToString(x), NatToString(y));
  }
}
