/**
 * The response mapper (mapper/ResponseMapper.java): entity to details,
 * entity to search hit with its distance from the query point, the search
 * hits ordered by distance, and the `x=<x>,y=<y>` text of a point.
 */
module ResponseMapper {
  import opened Wrappers
  import opened Numerics
  import opened Uuids
  import opened CoordinateText
  import opened Model

  /** `stringToUUID`: `null` stays `null`, anything else goes through `UUID.fromString`. */
  function StringToUuid(id: Option<string>): (r: Result<Option<Uuid>, Error>)
    ensures id.None? ==> r == Ok(None)
    ensures id.Some? && IsUuid(id.value) ==> r.Ok? && r.value.Some? && ToString(r.value.value) == Canonical(id.value)
    ensures id.Some? && !IsUuid(id.value) ==> r == Err(MalformedUuid(id.value))
  {
    match id
    case None => Ok(None)
    case Some(s) =>
      match FromString(s)
      case None => Err(MalformedUuid(s))
      case Some(u) => Ok(Some(u))
  }

  /** `formatCoordinates`: the text of a point; absent coordinates print as the origin. */
  function FormatCoordinates(c: Option<Coordinates>): (s: string)
    ensures c.None? ==> s == FormatXY(0, 0)
    ensures c.Some? ==> s == FormatXY(c.value.x, c.value.y)
    ensures c.Some? && c.value.x >= 0 && c.value.y >= 0 ==> MatchesPattern(s)
  {
    match c
    case None => "x=0,y=0"
    case Some(p) =>
      if p.x >= 0 && p.y >= 0 then FormatXYMatches(p.x, p.y); FormatXY(p.x, p.y)
      else FormatXY(p.x, p.y)
  }

  /**
   * `calculateDistance`, as a squared distance. The x difference is an `int`
   * subtraction (it wraps); the y difference is taken in `double` (exact).
   */
  function CalculateDistance(c: Option<Coordinates>, x: Int32, y: Int32): (d: Distance)
    ensures d == MaxValue <==> c.None?
    ensures c.Some? && INT_MIN <= x - c.value.x <= INT_MAX ==>
      d.squared == (x - c.value.x) * (x - c.value.x) + (y - c.value.y) * (y - c.value.y)
    ensures c.Some? ==> (d == Finite(0) <==> c.value == Coordinates(x, y))
  {
    match c
    case None => MaxValue
    case Some(p) =>
      var dx := Wrap32(x - p.x);
      var dy := y - p.y;
      assert dx == 0 <==> x == p.x;
      assert dx * dx + dy * dy == 0 <==> dx == 0 && dy == 0 by {
        if dx != 0 { assert dx * dx > 0; }
        if dy != 0 { assert dy * dy > 0; }
      }
      Finite(dx * dx + dy * dy)
  }

  /** `toLocation`: one search hit, measured from the query point `(x, y)`. */
  function ToLocation(r: Restaurant, x: Int32, y: Int32): (l: Result<Location, Error>)
    ensures l.Ok? <==> StringToUuid(r.id).Ok?
    ensures l.Ok? ==> l.value.name == r.name && l.value.distance == CalculateDistance(r.coordinates, x, y)
    ensures l.Ok? ==> l.value.coordinates == FormatCoordinates(r.coordinates) && l.value.id == StringToUuid(r.id).value
  {
    match StringToUuid(r.id)
    case Err(e) => Err(e)
    case Ok(id) => Ok(Location(id, r.name, FormatCoordinates(r.coordinates), CalculateDistance(r.coordinates, x, y)))
  }

  /** `map(r -> toLocation(r, x, y))` over a list, stopping at the first failure. */
  function MapLocations(rs: seq<Restaurant>, x: Int32, y: Int32): (r: Result<seq<Location>, Error>)
    ensures r.Ok? <==> forall i :: 0 <= i < |rs| ==> ToLocation(rs[i], x, y).Ok?
    ensures r.Ok? ==> |r.value| == |rs| && forall i :: 0 <= i < |rs| ==> ToLocation(rs[i], x, y) == Ok(r.value[i])
  {
    if rs == [] then Ok([])
    else
      var head := ToLocation(rs[0], x, y);
      var tail := MapLocations(rs[1..], x, y);
      assert forall i :: 1 <= i < |rs| ==> rs[i] == rs[1..][i - 1];
      if head.Err? then Err(head.error)
      else if tail.Err? then Err(tail.error)
      else Ok([head.value] + tail.value)
  }

  /** A failed mapping reports the error of the first record that cannot be mapped. */
  lemma {:induction false} MapLocationsFirstError(rs: seq<Restaurant>, x: Int32, y: Int32)
    requires MapLocations(rs, x, y).Err?
    ensures exists i :: 0 <= i < |rs| && ToLocation(rs[i], x, y) == Err(MapLocations(rs, x, y).error) &&
                        forall j :: 0 <= j < i ==> ToLocation(rs[j], x, y).Ok?
  {
    if ToLocation(rs[0], x, y).Ok? {
      MapLocationsFirstError(rs[1..], x, y);
      var i :| 0 <= i < |rs| - 1 && ToLocation(rs[1..][i], x, y) == Err(MapLocations(rs[1..], x, y).error) &&
               forall j :: 0 <= j < i ==> ToLocation(rs[1..][j], x, y).Ok?;
      forall j | 0 <= j < i + 1
        ensures ToLocation(rs[j], x, y).Ok?
      {
        if j > 0 {
          assert rs[j] == rs[1..][j - 1];
        }
      }
      assert rs[i + 1] == rs[1..][i];
    } else {
      assert ToLocation(rs[0], x, y) == Err(MapLocations(rs, x, y).error);
    }
  }

  /** Mapping a single record gives its one location. */
  lemma MapOne(r: Restaurant, x: Int32, y: Int32)
    requires ToLocation(r, x, y).Ok?
    ensures MapLocations([r], x, y) == Ok([ToLocation(r, x, y).value])
  {
    assert [r][1..] == [];
    assert MapLocations([], x, y) == Ok([]);
    assert [ToLocation(r, x, y).value] + [] == [ToLocation(r, x, y).value];
  }

  /** The order `Comparator.comparingDouble(LocationDto::getDistance)` sorts by: `a` is not farther than `b`. */
  predicate NoFarther(a: Distance, b: Distance) {
    b.MaxValue? || (a.Finite? && a.squared <= b.squared)
  }

  predicate SortedByDistance(s: seq<Location>) {
    forall i, j :: 0 <= i < j < |s| ==> NoFarther(s[i].distance, s[j].distance)
  }

  /** The hits of `s` at distance exactly `d`, in their order in `s`. */
  function AtDistance(s: seq<Location>, d: Distance): seq<Location> {
    if s == [] then [] else (if s[0].distance == d then [s[0]] else []) + AtDistance(s[1..], d)
  }

  /** `output` keeps the relative order of every group of equally distant hits of `input`. */
  ghost predicate KeepsTiesInOrder(input: seq<Location>, output: seq<Location>) {
    forall d :: AtDistance(output, d) == AtDistance(input, d)
  }

  /** Puts `l` in front of the first hit that is at least as far as `l`. */
  function Insert(l: Location, s: seq<Location>): seq<Location> {
    if s == [] then [l]
    else if NoFarther(l.distance, s[0].distance) then [l] + s
    else [s[0]] + Insert(l, s[1..])
  }

  /** A stable sort by ascending distance (insertion sort). */
  function SortByDistance(s: seq<Location>): seq<Location> {
    if s == [] then [] else Insert(s[0], SortByDistance(s[1..]))
  }

  /** `NoFarther` is a total preorder: reflexive, total and transitive. */
  lemma NoFartherPreorder(a: Distance, b: Distance, c: Distance)
    ensures NoFarther(a, a)
    ensures NoFarther(a, b) || NoFarther(b, a)
    ensures NoFarther(a, b) && NoFarther(b, c) ==> NoFarther(a, c)
  {
  }

  /** Inserting adds exactly the one hit. */
  lemma {:induction false} InsertPermutes(l: Location, s: seq<Location>)
    ensures multiset(Insert(l, s)) == multiset(s) + multiset{l}
  {
    if s != [] && !NoFarther(l.distance, s[0].distance) {
      InsertPermutes(l, s[1..]);
      assert s == [s[0]] + s[1..];
    }
  }

  /** The first hit after inserting `l` into a non-empty `s` is `l` or the old first hit. */
  lemma InsertHead(l: Location, s: seq<Location>)
    ensures Insert(l, s) != []
    ensures Insert(l, s)[0] == l || (s != [] && Insert(l, s)[0] == s[0])
  {
  }

  lemma {:induction false} InsertSorted(l: Location, s: seq<Location>)
    requires SortedByDistance(s)
    ensures SortedByDistance(Insert(l, s))
  {
    if s != [] && !NoFarther(l.distance, s[0].distance) {
      var t := Insert(l, s[1..]);
      InsertSorted(l, s[1..]);
      InsertHead(l, s[1..]);
      NoFartherPreorder(l.distance, s[0].distance, s[0].distance);
      assert NoFarther(s[0].distance, t[0].distance);
      forall k | 0 < k < |t| ensures NoFarther(s[0].distance, t[k].distance) {
        NoFartherPreorder(s[0].distance, t[0].distance, t[k].distance);
      }
      assert Insert(l, s) == [s[0]] + t;
    }
  }

  lemma {:induction false} InsertAtDistance(l: Location, s: seq<Location>, d: Distance)
    ensures AtDistance(Insert(l, s), d) == (if l.distance == d then [l] else []) + AtDistance(s, d)
  {
    var own: seq<Location> := if l.distance == d then [l] else [];
    if s == [] {
      assert Insert(l, s) == [l];
      assert [l][1..] == [];
    } else if NoFarther(l.distance, s[0].distance) {
      var u := Insert(l, s);
      assert u == [l] + s;
      assert u[1..] == s;
    } else {
      var t := Insert(l, s[1..]);
      var head: seq<Location> := if s[0].distance == d then [s[0]] else [];
      InsertAtDistance(l, s[1..], d);
      var u := Insert(l, s);
      assert u == [s[0]] + t;
      assert u[1..] == t;
      assert AtDistance(u, d) == head + (own + AtDistance(s[1..], d));
      assert AtDistance(s, d) == head + AtDistance(s[1..], d);
      assert head == [] || own == [] by {
        NoFartherPreorder(l.distance, s[0].distance, s[0].distance);
      }
    }
  }

  /** The sort orders by distance, loses and adds nothing, and keeps ties in input order. */
  lemma {:induction false} SortByDistanceCorrect(s: seq<Location>)
    ensures SortedByDistance(SortByDistance(s))
    ensures multiset(SortByDistance(s)) == multiset(s)
    ensures KeepsTiesInOrder(s, SortByDistance(s))
  {
    if s != [] {
      SortByDistanceCorrect(s[1..]);
      InsertSorted(s[0], SortByDistance(s[1..]));
      InsertPermutes(s[0], SortByDistance(s[1..]));
      assert s == [s[0]] + s[1..];
      forall d ensures AtDistance(SortByDistance(s), d) == AtDistance(s, d) {
        InsertAtDistance(s[0], SortByDistance(s[1..]), d);
      }
    }
  }

  /** `toLocations`: every restaurant mapped to a hit, then sorted by distance, ties in list order. */
  function ToLocations(rs: seq<Restaurant>, x: Int32, y: Int32): (r: Result<seq<Location>, Error>)
    ensures r.Ok? <==> MapLocations(rs, x, y).Ok?
    ensures r.Ok? ==> |r.value| == |rs| && SortedByDistance(r.value)
    ensures r.Ok? ==> multiset(r.value) == multiset(MapLocations(rs, x, y).value)
    ensures r.Ok? ==> KeepsTiesInOrder(MapLocations(rs, x, y).value, r.value)
  {
    match MapLocations(rs, x, y)
    case Err(e) => Err(e)
    case Ok(ls) =>
      SortByDistanceCorrect(ls);
      assert |SortByDistance(ls)| == |multiset(SortByDistance(ls))| == |ls|;
      Ok(SortByDistance(ls))
  }

  /** `toSearchResponse`: the query point's text with the sorted hits. */
  function ToSearchResponse(rs: seq<Restaurant>, x: Int32, y: Int32): (r: Result<SearchResponse, Error>)
    ensures r.Ok? <==> MapLocations(rs, x, y).Ok?
    ensures r.Ok? ==> r.value.userLocation == FormatXY(x, y) && Ok(r.value.locations) == ToLocations(rs, x, y)
    ensures r.Ok? ==> (r.value.locations == [] <==> rs == [])
  {
    match ToLocations(rs, x, y)
    case Err(e) => Err(e)
    case Ok(ls) => Ok(SearchResponse(FormatXY(x, y), ls))
  }

  /** `toDto`: the details view of a stored restaurant. */
  function ToDto(r: Restaurant): (d: Result<RestaurantDetails, Error>)
    ensures d.Ok? <==> StringToUuid(r.id).Ok?
    ensures d.Ok? ==> d.value.id == StringToUuid(r.id).value && d.value.coordinates == Some(FormatCoordinates(r.coordinates))
    ensures d.Ok? ==> d.value.name == r.name && d.value.kind == r.kind && d.value.openingHours == r.openingHours &&
                      d.value.image == r.image && d.value.radius == r.radius
  {
    match StringToUuid(r.id)
    case Err(e) => Err(e)
    case Ok(id) =>
      Ok(RestaurantDetails(r.name, r.kind, id, r.openingHours, r.image, r.radius, Some(FormatCoordinates(r.coordinates))))
  }

  /** The distances of the mapper's own examples: (0,4) is 4 from the origin, (2,2) is 1 from (3,2). */
  lemma DistanceExamples()
    ensures CalculateDistance(Some(Coordinates(0, 4)), 0, 0) == Finite(16)
    ensures CalculateDistance(Some(Coordinates(2, 2)), 3, 2) == Finite(1)
    ensures CalculateDistance(None, 3, 2) == MaxValue
  {
  }
}
