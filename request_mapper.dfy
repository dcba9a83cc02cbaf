/**
 * The request mapper (mapper/RequestMapper.java): details payload to
 * entity, reading the `x=<x>,y=<y>` coordinate text into a point.
 */
module RequestMapper {
  import opened Wrappers
  import opened Numerics
  import opened Uuids
  import opened CoordinateText
  import opened Model
  import ResponseMapper

  /** `uuidToString`: `null` stays `null`, anything else is the UUID's text. */
  function UuidToString(id: Option<Uuid>): (s: Option<string>)
    ensures s.None? <==> id.None?
    ensures s.Some? ==> IsCanonical(s.value)
    ensures ResponseMapper.StringToUuid(s) == Ok(id)
  {
    match id
    case None => None
    case Some(u) => Some(ToString(u))
  }

  /** `Integer.parseInt` on a run of ASCII digits: too large a value throws. */
  function ParseInt(digits: string): Result<Int32, Error>
    requires IsDigits(digits)
  {
    if DigitsValue(digits) <= INT_MAX then Ok(DigitsValue(digits)) else Err(NumberFormat)
  }

  /** Both digit runs of a matching coordinate text are `int` values. */
  predicate RunsFitInt(runs: (string, string))
    requires IsDigits(runs.0) && IsDigits(runs.1)
  {
    DigitsValue(runs.0) <= INT_MAX && DigitsValue(runs.1) <= INT_MAX
  }

  /**
   * `stringToCoordinates`: `null` or text not matching `^x=\d+,y=\d+$` is
   * rejected; the two digit runs are then parsed as `int`s.
   */
  function StringToCoordinates(s: Option<string>): (r: Result<Coordinates, Error>)
    ensures s.None? || !MatchesPattern(s.value) ==> r == Err(MalformedCoordinates)
    ensures s.Some? && MatchesPattern(s.value) ==>
      var (a, b) := MatchCoordinates(s.value).value;
      && (r.Ok? <==> RunsFitInt((a, b)))
      && (r.Ok? ==> r.value == Coordinates(DigitsValue(a), DigitsValue(b)))
      && (r.Err? ==> r.error == NumberFormat)
    ensures r.Ok? ==> r.value.x >= 0 && r.value.y >= 0
  {
    if s.None? || MatchCoordinates(s.value).None? then Err(MalformedCoordinates)
    else
      var (a, b) := MatchCoordinates(s.value).value;
      match ParseInt(a)
      case Err(e) => Err(e)
      case Ok(x) =>
        match ParseInt(b)
        case Err(e) => Err(e)
        case Ok(y) => Ok(Coordinates(x, y))
  }

  /** `toEntity`: the entity for a payload; its coordinates are always present. */
  function ToEntity(dto: RestaurantDetails): (r: Result<Restaurant, Error>)
    ensures r.Ok? <==> StringToCoordinates(dto.coordinates).Ok?
    ensures r.Err? ==> r.error == StringToCoordinates(dto.coordinates).error
    ensures r.Ok? ==> r.value.coordinates == Some(StringToCoordinates(dto.coordinates).value)
    ensures r.Ok? ==> r.value.id == UuidToString(dto.id)
    ensures r.Ok? ==> r.value.name == dto.name && r.value.kind == dto.kind && r.value.openingHours == dto.openingHours &&
                      r.value.image == dto.image && r.value.radius == dto.radius
  {
    match StringToCoordinates(dto.coordinates)
    case Err(e) => Err(e)
    case Ok(c) => Ok(Restaurant(UuidToString(dto.id), dto.name, dto.kind, dto.openingHours, dto.image, dto.radius, Some(c)))
  }

  /** Printing a point with non-negative coordinates and parsing the text gives the point back. */
  lemma ParseFormatted(c: Coordinates)
    requires c.x >= 0 && c.y >= 0
    ensures StringToCoordinates(Some(ResponseMapper.FormatCoordinates(Some(c)))) == Ok(c)
  {
    FormatXYMatches(c.x, c.y);
    NatToStringValue(c.x);
    NatToStringValue(c.y);
  }

  /** Parsed text prints back unchanged exactly when neither digit run has a leading zero. */
  lemma FormatParsed(s: string)
    requires StringToCoordinates(Some(s)).Ok?
    ensures var (a, b) := MatchCoordinates(s).value;
      (ResponseMapper.FormatCoordinates(Some(StringToCoordinates(Some(s)).value)) == s <==>
       HasNoLeadingZero(a) && HasNoLeadingZero(b))
  {
    var (a, b) := MatchCoordinates(s).value;
    MatchCoordinatesIff(s, a, b);
    var c := StringToCoordinates(Some(s)).value;
    var t := ResponseMapper.FormatCoordinates(Some(c));
    FormatXYMatches(c.x, c.y);
    if HasNoLeadingZero(a) && HasNoLeadingZero(b) {
      DigitsValueToString(a);
      DigitsValueToString(b);
    }
    if t == s {
      assert (a, b) == (NatToString(c.x), NatToString(c.y));
    }
  }

  /** A payload that passes validation is rejected only for a digit run beyond `Integer.MAX_VALUE`. */
  lemma ValidPayloadParses(dto: RestaurantDetails)
    requires Valid(dto)
    ensures var (a, b) := MatchCoordinates(dto.coordinates.value).value;
      (ToEntity(dto).Ok? <==> RunsFitInt((a, b))) &&
      (ToEntity(dto).Err? ==> ToEntity(dto).error == NumberFormat)
  {
    var (a, b) := MatchCoordinates(dto.coordinates.value).value;
    MatchCoordinatesIff(dto.coordinates.value, a, b);
  }

  /**
   * Mapping a payload to an entity and back gives the payload, except that the
   * coordinate text is reprinted; it is unchanged when it has no leading zeros.
   */
  lemma DetailsRoundTrip(dto: RestaurantDetails)
    requires ToEntity(dto).Ok?
    ensures ResponseMapper.ToDto(ToEntity(dto).value) ==
            Ok(dto.(coordinates := Some(ResponseMapper.FormatCoordinates(ToEntity(dto).value.coordinates))))
    ensures var (a, b) := MatchCoordinates(dto.coordinates.value).value;
      HasNoLeadingZero(a) && HasNoLeadingZero(b) ==>
      ResponseMapper.ToDto(ToEntity(dto).value) == Ok(dto)
  {
    var s := dto.coordinates.value;
    FormatParsed(s);
  }

  /** The mapper's own example: "x=3,y=7" is the point (3, 7). */
  lemma ParseExample()
    ensures StringToCoordinates(Some("x=3,y=7")) == Ok(Coordinates(3, 7))
  {
    MatchCoordinatesIff("x=3,y=7", "3", "7");
    assert DigitsValue("3") == 3 by { assert "3"[..0] == []; }
    assert DigitsValue("7") == 7 by { assert "7"[..0] == []; }
  }

  /** Texts outside the pattern are refused: "invalid", a sign, a missing axis, `null`. */
  lemma MalformedExamples()
    ensures StringToCoordinates(Some("invalid")) == Err(MalformedCoordinates)
    ensures StringToCoordinates(Some("x=3,y=-2")) == Err(MalformedCoordinates)
    ensures StringToCoordinates(Some("x=3")) == Err(MalformedCoordinates)
    ensures StringToCoordinates(None) == Err(MalformedCoordinates)
  {
    assert "x=3,y=-2"[2..][1..][3..] == "-2";
  }

  /** A digit run beyond `Integer.MAX_VALUE` matches the pattern but fails in `parseInt`. */
  lemma OversizedRunRejected(a: string, b: string)
    requires IsDigits(a) && IsDigits(b)
    requires DigitsValue(a) > INT_MAX || DigitsValue(b) > INT_MAX
    ensures StringToCoordinates(Some("x=" + a + ",y=" + b)) == Err(NumberFormat)
  {
    MatchCoordinatesIff("x=" + a + ",y=" + b, a, b);
  }

  /** "2147483648", one past `Integer.MAX_VALUE`, is such a run. */
  lemma OnePastMaxValue()
    ensures IsDigits("2147483648") && DigitsValue("2147483648") == INT_MAX + 1
  {
    var run := "2147483648";
    assert run[..0] == [];
    assert DigitsValue(run[..1]) == 2;
    assert DigitsValue(run[..2]) == 21 by { assert run[..2][..1] == run[..1]; }
    assert DigitsValue(run[..3]) == 214 by { assert run[..3][..2] == run[..2]; }
    assert DigitsValue(run[..4]) == 2147 by { assert run[..4][..3] == run[..3]; }
    assert DigitsValue(run[..5]) == 21474 by { assert run[..5][..4] == run[..4]; }
    assert DigitsValue(run[..6]) == 214748 by { assert run[..6][..5] == run[..5]; }
    assert DigitsValue(run[..7]) == 2147483 by { assert run[..7][..6] == run[..6]; }
    assert DigitsValue(run[..8]) == 21474836 by { assert run[..8][..7] == run[..7]; }
    assert DigitsValue(run[..9]) == 214748364 by { assert run[..9][..8] == run[..8]; }
    assert run[..10] == run;
  }
}
