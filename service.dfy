/**
 * The restaurant service (service/impl/RestaurantServiceImpl.java): the radius
 * search, the lookup by id and the upsert, with the two caches the service's
 * annotations declare made into explicit state.
 */
module Service {
  import opened Wrappers
  import opened Numerics
  import opened Uuids
  import opened CoordinateText
  import opened Model
  import opened ResponseMapper
  import opened RequestMapper
  import Repository

  /**
   * `validateAndParseUUID`: `UUID.fromString`. A malformed id escapes as the
   * parser's own exception, because the handler around it catches a different type.
   */
  function ValidateAndParseUuid(id: string): (r: Result<Uuid, Error>)
    ensures r.Ok? <==> IsUuid(id)
    ensures r.Ok? ==> ToString(r.value) == Canonical(id)
    ensures r.Err? ==> r.error == MalformedUuid(id)
  {
    match FromString(id)
    case Some(u) => Ok(u)
    case None => Err(MalformedUuid(id))
  }

  /**
   * The quantity `isRestaurantNearby` takes the square root of: both
   * differences and both squares are 32-bit `int` arithmetic, and the sum is
   * formed in `double`, where it is exact.
   */
  function SquaredOffset(c: Coordinates, x: Int32, y: Int32): int {
    var dx := Wrap32(c.x - x);
    var dy := Wrap32(c.y - y);
    Wrap32(dx * dx) + Wrap32(dy * dy)
  }

  /**
   * `Math.sqrt(s) <= radius`. The square root of a negative sum is NaN and
   * compares false; a negative radius is below every root; otherwise, since
   * `s` is an integer of magnitude at most 2^32, the comparison of the
   * correctly rounded root with the integer radius agrees with `s <= radius^2`.
   */
  predicate WithinRadius(c: Coordinates, radius: Int32, x: Int32, y: Int32) {
    var s := SquaredOffset(c, x, y);
    0 <= s && 0 <= radius && s <= radius * radius
  }

  /** `isRestaurantNearby`: absent coordinates are dereferenced and throw. */
  function IsRestaurantNearby(r: Restaurant, x: Int32, y: Int32): (b: Result<bool, Error>)
    ensures b.Err? <==> r.coordinates.None?
    ensures b.Err? ==> b.error == NullCoordinates
    ensures b.Ok? ==> (b.value <==> WithinRadius(r.coordinates.value, r.radius, x, y))
  {
    match r.coordinates
    case None => Err(NullCoordinates)
    case Some(c) => Ok(WithinRadius(c, r.radius, x, y))
  }

  /**
   * While no difference leaves the range where its square fits an `int`, a
   * restaurant is near exactly when it lies in the closed disc of its radius.
   */
  lemma NearbyWithoutOverflow(c: Coordinates, radius: Int32, x: Int32, y: Int32)
    requires -46340 <= c.x - x <= 46340 && -46340 <= c.y - y <= 46340
    ensures WithinRadius(c, radius, x, y) <==>
      0 <= radius && (c.x - x) * (c.x - x) + (c.y - y) * (c.y - y) <= radius * radius
  {
    var dx, dy := c.x - x, c.y - y;
    SquareFits(dx);
    SquareFits(dy);
    assert SquaredOffset(c, x, y) == dx * dx + dy * dy;
  }

  /** The square of a difference of at most 46340 in magnitude fits an `int`. */
  lemma SquareFits(d: int)
    requires -46340 <= d <= 46340
    ensures 0 <= d * d <= INT_MAX
    ensures Wrap32(d) == d && Wrap32(d * d) == d * d
  {
    var a: nat := if d < 0 then -d else d;
    assert d * d == a * a;
    SquareMonotone(a, 46340);
  }

  lemma {:induction false} SquareMonotone(a: nat, b: nat)
    requires a <= b
    ensures a * a <= b * b
  {
    if a < b {
      SquareMonotone(a, b - 1);
    }
  }

  /** A restaurant at the query point is found exactly when its radius is not negative. */
  lemma NearbyAtOwnPoint(c: Coordinates, radius: Int32)
    ensures WithinRadius(c, radius, c.x, c.y) <==> 0 <= radius
  {
  }

  /**
   * The 32-bit arithmetic lets far restaurants in: 65536 squared wraps to 0,
   * so a restaurant 65536 units along the x axis from the query point counts
   * as near whatever its non-negative radius, though any radius below 65536
   * leaves it outside.
   */
  lemma OverflowAdmitsFarRestaurant(c: Coordinates, radius: Int32, x: Int32, y: Int32)
    requires c.x - x == 65536 && c.y == y && 0 <= radius
    ensures WithinRadius(c, radius, x, y)
    ensures radius < 65536 ==> (c.x - x) * (c.x - x) + (c.y - y) * (c.y - y) > radius * radius
  {
    var dx: int := Wrap32(c.x - x);
    assert dx == 65536;
    var dy: int := Wrap32(c.y - y);
    assert dy == 0;
    assert dx * dx == 0x1_0000_0000;
    assert Wrap32(0x1_0000_0000) == 0;
    assert Wrap32(0) == 0;
    assert SquaredOffset(c, x, y) == Wrap32(dx * dx) + Wrap32(dy * dy);
    if radius < 65536 {
      SquareMonotone(radius, 65535);
    }
  }

  /** `b` is `a` with some elements removed, the rest in their order. */
  ghost predicate IsSubsequence(a: seq<Restaurant>, b: seq<Restaurant>)
    decreases |b|
  {
    if b == [] then a == []
    else (a != [] && a[0] == b[0] && IsSubsequence(a[1..], b[1..])) || IsSubsequence(a, b[1..])
  }

  /** A restaurant the radius filter keeps. */
  predicate Kept(r: Restaurant, x: Int32, y: Int32) {
    r.coordinates.Some? && WithinRadius(r.coordinates.value, r.radius, x, y)
  }

  /**
   * The `filter(isRestaurantNearby)` pass, materialised by `toList()`: it
   * fails if any record lacks coordinates, and otherwise keeps, in their
   * order and with their multiplicity, exactly the records within their radius.
   */
  function FilterNearby(rs: seq<Restaurant>, x: Int32, y: Int32): (r: Result<seq<Restaurant>, Error>)
    ensures r.Ok? <==> forall i :: 0 <= i < |rs| ==> rs[i].coordinates.Some?
    ensures r.Err? ==> r.error == NullCoordinates
    ensures r.Ok? ==> IsSubsequence(r.value, rs)
    ensures r.Ok? ==> forall q :: multiset(r.value)[q] == if Kept(q, x, y) then multiset(rs)[q] else 0
  {
    if rs == [] then Ok([])
    else
      match IsRestaurantNearby(rs[0], x, y)
      case Err(e) => Err(e)
      case Ok(near) =>
        match FilterNearby(rs[1..], x, y)
        case Err(e) => Err(e)
        case Ok(rest) =>
          assert rs == [rs[0]] + rs[1..];
          if near then Ok([rs[0]] + rest) else Ok(rest)
  }

  /** `restaurantLocator` without its cache: filter the records, then map them. */
  function Locate(rs: seq<Restaurant>, x: Int32, y: Int32): (r: Result<SearchResponse, Error>)
    ensures FilterNearby(rs, x, y).Err? ==> r == Err(NullCoordinates)
    ensures FilterNearby(rs, x, y).Ok? ==> r == ToSearchResponse(FilterNearby(rs, x, y).value, x, y)
    ensures r.Ok? ==> r.value.userLocation == FormatXY(x, y)
  {
    match FilterNearby(rs, x, y)
    case Err(e) => Err(e)
    case Ok(near) => ToSearchResponse(near, x, y)
  }

  /**
   * Over records that all have coordinates and well-formed ids, the search
   * succeeds, and its hits are exactly the kept records, nearest first.
   */
  lemma LocateSucceeds(rs: seq<Restaurant>, x: Int32, y: Int32)
    requires forall i :: 0 <= i < |rs| ==> rs[i].coordinates.Some?
    requires forall i :: 0 <= i < |rs| ==> rs[i].id.None? || IsUuid(rs[i].id.value)
    ensures Locate(rs, x, y).Ok?
    ensures |Locate(rs, x, y).value.locations| == |FilterNearby(rs, x, y).value|
    ensures SortedByDistance(Locate(rs, x, y).value.locations)
  {
    var near := FilterNearby(rs, x, y).value;
    forall i | 0 <= i < |near| ensures ToLocation(near[i], x, y).Ok? {
      assert near[i] in multiset(near);
      assert near[i] in multiset(rs);
      assert near[i] in rs;
    }
  }

  /**
   * One restaurant of radius 1 at (2, 2) with a well-formed id: a search from
   * (3, 2) finds it, at distance 1, with its point printed as `x=2,y=2`.
   */
  lemma SearchFindsNeighbour(r: Restaurant)
    requires r.id.Some? && IsUuid(r.id.value)
    requires r.coordinates == Some(Coordinates(2, 2)) && r.radius == 1
    ensures Locate([r], 3, 2) ==
      Ok(SearchResponse(FormatXY(3, 2), [Location(FromString(r.id.value), r.name, FormatXY(2, 2), Finite(1))]))
  {
    assert SquaredOffset(Coordinates(2, 2), 3, 2) == 1;
    assert StringToUuid(r.id) == Ok(FromString(r.id.value));
    assert CalculateDistance(r.coordinates, 3, 2) == Finite(1);
    assert FormatCoordinates(r.coordinates) == FormatXY(2, 2);
    LocateOne(r, 3, 2);
  }

  /** A search over one near record with a well-formed id answers with that record's location alone. */
  lemma LocateOne(r: Restaurant, x: Int32, y: Int32)
    requires Kept(r, x, y) && ToLocation(r, x, y).Ok?
    ensures Locate([r], x, y) == Ok(SearchResponse(FormatXY(x, y), [ToLocation(r, x, y).value]))
  {
    FilterOne(r, x, y);
    var l := ToLocation(r, x, y).value;
    MapOne(r, x, y);
    assert SortByDistance([l]) == Insert(l, SortByDistance([])) == [l];
  }

  /** Filtering a single record with coordinates keeps it exactly when it is near. */
  lemma FilterOne(r: Restaurant, x: Int32, y: Int32)
    requires r.coordinates.Some?
    ensures FilterNearby([r], x, y) == Ok(if Kept(r, x, y) then [r] else [])
  {
    assert [r][1..] == [];
    assert [r] + [] == [r];
  }


  /** `findRestaurantById` without its cache: validate the id, then look it up by its raw text. */
  function FindByIdUncached(records: map<string, Restaurant>, id: string): (r: Result<RestaurantDetails, Error>)
    ensures !IsUuid(id) ==> r == Err(MalformedUuid(id))
    ensures IsUuid(id) && id !in records ==> r == Err(RestaurantNotFound(id))
    ensures IsUuid(id) && id in records ==> r == ToDto(records[id])
  {
    match ValidateAndParseUuid(id)
    case Err(e) => Err(e)
    case Ok(_) => if id in records then ToDto(records[id]) else Err(RestaurantNotFound(id))
  }

  /** A malformed id is refused before the store is consulted: the answer is the same whatever is stored. */
  lemma MalformedIdIgnoresStore(a: map<string, Restaurant>, b: map<string, Restaurant>, id: string)
    requires !IsUuid(id)
    ensures FindByIdUncached(a, id) == FindByIdUncached(b, id) == Err(MalformedUuid(id))
  {
  }

  /**
   * The entity `addOrUpdateRestaurant` saves: the payload with its id
   * replaced by the parsed path id, then mapped. The path id wins over any
   * id the payload carries, and is stored in canonical form.
   */
  function UpsertEntity(id: string, dto: RestaurantDetails): (r: Result<Restaurant, Error>)
    ensures !IsUuid(id) ==> r == Err(MalformedUuid(id))
    ensures IsUuid(id) ==> (r.Ok? <==> StringToCoordinates(dto.coordinates).Ok?)
    ensures IsUuid(id) && r.Err? ==> r.error == StringToCoordinates(dto.coordinates).error
    ensures r.Ok? ==> r.value.id == Some(Canonical(id)) && r.value.coordinates.Some?
    ensures r.Ok? ==> ToDto(r.value).Ok? && ToDto(r.value).value.id == Some(Canonical(id))
  {
    match ValidateAndParseUuid(id)
    case Err(e) => Err(e)
    case Ok(u) => ToEntity(dto.(id := Some(u)))
  }

  /** The saved entity reads back as the payload under the path id, with its coordinates reprinted. */
  lemma UpsertReadsBack(id: string, dto: RestaurantDetails)
    requires UpsertEntity(id, dto).Ok?
    ensures var back := ToDto(UpsertEntity(id, dto).value);
      var c := StringToCoordinates(dto.coordinates).value;
      back == Ok(dto.(id := FromString(id), coordinates := Some(FormatXY(c.x, c.y))))
  {
    var u := ValidateAndParseUuid(id).value;
    DetailsRoundTrip(dto.(id := Some(u)));
  }

  /**
   * A store the search cannot fail on: every key is a well-formed id and
   * every record has coordinates. Records saved through the service are such.
   */
  ghost predicate Searchable(records: map<string, Restaurant>) {
    forall k :: k in records ==> IsUuid(k) && records[k].coordinates.Some?
  }

  /** Over a searchable store, a search from any point succeeds. */
  lemma SearchableLocates(records: map<string, Restaurant>, order: seq<string>, x: Int32, y: Int32)
    requires Repository.WellFormed(records, order) && Searchable(records)
    ensures Locate(Repository.FindAll(records, order), x, y).Ok?
  {
    LocateSucceeds(Repository.FindAll(records, order), x, y);
  }

  /** Every cached detail view is what an uncached lookup gives now. */
  ghost predicate IdCacheCoherent(records: map<string, Restaurant>, cache: map<string, RestaurantDetails>) {
    forall k {:trigger FindByIdUncached(records, k)} :: k in cache ==> FindByIdUncached(records, k) == Ok(cache[k])
  }

  /** `k` is the text of some point, as `String.format("x=%d,y=%d", ...)` prints it. */
  ghost predicate IsPointKey(k: string) {
    exists x: Int32, y: Int32 :: k == FormatXY(x, y)
  }

  /**
   * Every search-cache key is the text of a point; every cached answer names
   * its own key as user location, and is what a fresh search over `all` at
   * that point gives.
   */
  ghost predicate SearchCacheCoherent(all: seq<Restaurant>, cache: map<string, SearchResponse>) {
    && (forall k :: k in cache ==> IsPointKey(k) && cache[k].userLocation == k)
    && (forall x: Int32, y: Int32 {:trigger Locate(all, x, y)} ::
          FormatXY(x, y) in cache ==> Locate(all, x, y) == Ok(cache[FormatXY(x, y)]))
  }

  /** Caching a successful search under its own key keeps the search cache coherent. */
  lemma SearchCachePut(all: seq<Restaurant>, cache: map<string, SearchResponse>, x: Int32, y: Int32)
    requires SearchCacheCoherent(all, cache) && Locate(all, x, y).Ok?
    ensures SearchCacheCoherent(all, cache[FormatXY(x, y) := Locate(all, x, y).value])
  {
    assert IsPointKey(FormatXY(x, y));
    forall x': Int32, y': Int32 | FormatXY(x', y') == FormatXY(x, y)
      ensures x' == x && y' == y
    {
      FormatXYInjective(x', y', x, y);
    }
  }

  /**
   * Saving a record under a canonical id and caching its view under that
   * same id keeps the lookup cache coherent.
   */
  lemma UpsertKeepsIdCache(records: map<string, Restaurant>, cache: map<string, RestaurantDetails>, id: string, e: Restaurant)
    requires IsUuid(id) && ToDto(e).Ok?
    ensures IdCacheCoherent(records, cache) ==> IdCacheCoherent(records[id := e], cache[id := ToDto(e).value])
  {
    var cache' := cache[id := ToDto(e).value];
    forall k | k in cache' && IdCacheCoherent(records, cache)
      ensures FindByIdUncached(records[id := e], k) == Ok(cache'[k])
    {
      if k != id {
        assert FindByIdUncached(records, k) == Ok(cache[k]);
      }
    }
  }

  /**
   * The service, with the store (`RestaurantRepository`) and the two caches
   * as fields: `idCache` is the `restaurants` cache keyed by the raw id
   * text, `searchCache` the `restaurantSearchCache` keyed by `x=<x>,y=<y>`.
   */
  class RestaurantService {
    var store: map<string, Restaurant>
    var order: seq<string>
    var idCache: map<string, RestaurantDetails>
    var searchCache: map<string, SearchResponse>

    ghost predicate Valid()
      reads this`store, this`order
    {
      Repository.WellFormed(store, order)
    }

    function FindAll(): seq<Restaurant>
      reads this`store, this`order
      requires Valid()
    {
      Repository.FindAll(store, order)
    }

    /**
     * Every cached answer is what the uncached operation would give now:
     * a cached detail view matches the store, and a cached search matches a
     * fresh search at the point its key names.
     */
    ghost predicate Coherent()
      reads this
      requires Valid()
    {
      IdCacheCoherent(store, idCache) && SearchCacheCoherent(FindAll(), searchCache)
    }

    /** A service over an existing store, with both caches empty. */
    constructor (records: map<string, Restaurant>, encounter: seq<string>)
      requires Repository.WellFormed(records, encounter)
      ensures Valid() && Coherent()
      ensures store == records && order == encounter && idCache == map[] && searchCache == map[]
    {
      store := records;
      order := encounter;
      idCache := map[];
      searchCache := map[];
    }

    /** `restaurantRepository.save`: an upsert keyed by the entity's id. */
    method Save(e: Restaurant) returns (saved: Restaurant)
      requires Valid() && e.id.Some?
      modifies this`store, this`order
      ensures Valid() && saved == e
      ensures store == old(store)[e.id.value := e]
      ensures order == Repository.SaveOrder(old(order), e.id.value)
    {
      Repository.SavePreservesStore(store, order, e);
      store := store[e.id.value := e];
      order := Repository.SaveOrder(order, e.id.value);
      saved := e;
    }

    /**
     * `restaurantLocator`, read through `restaurantSearchCache`: a cached
     * answer is returned as is; otherwise a fresh search runs and only a
     * successful answer is cached.
     */
    method RestaurantLocator(x: Int32, y: Int32) returns (r: Result<SearchResponse, Error>)
      requires Valid()
      modifies this`searchCache
      ensures Valid()
      ensures FormatXY(x, y) in old(searchCache) ==>
        r == Ok(old(searchCache)[FormatXY(x, y)]) && searchCache == old(searchCache)
      ensures FormatXY(x, y) !in old(searchCache) ==>
        && r == Locate(FindAll(), x, y)
        && searchCache == if r.Ok? then old(searchCache)[FormatXY(x, y) := r.value] else old(searchCache)
      ensures old(Coherent()) ==> Coherent() && r == Locate(FindAll(), x, y)
      ensures Searchable(store) ==> r.Ok?
    {
      var key := FormatXY(x, y);
      if key in searchCache {
        r := Ok(searchCache[key]);
        return;
      }
      if Searchable(store) {
        SearchableLocates(store, order, x, y);
      }
      var near := FilterNearby(FindAll(), x, y);
      if near.Err? {
        r := Err(near.error);
        return;
      }
      r := ToSearchResponse(near.value, x, y);
      if r.Ok? {
        if SearchCacheCoherent(FindAll(), searchCache) {
          SearchCachePut(FindAll(), searchCache, x, y);
        }
        searchCache := searchCache[key := r.value];
      }
    }

    /**
     * `findRestaurantById`, read through the `restaurants` cache under the
     * raw id text; failures are not cached.
     */
    method FindRestaurantById(id: string) returns (r: Result<RestaurantDetails, Error>)
      requires Valid()
      modifies this`idCache
      ensures Valid()
      ensures id in old(idCache) ==> r == Ok(old(idCache)[id]) && idCache == old(idCache)
      ensures id !in old(idCache) ==>
        && r == FindByIdUncached(store, id)
        && idCache == if r.Ok? then old(idCache)[id := r.value] else old(idCache)
      ensures old(Coherent()) ==> Coherent() && r == FindByIdUncached(store, id)
    {
      if id in idCache {
        r := Ok(idCache[id]);
        return;
      }
      var uuid := ValidateAndParseUuid(id);
      if uuid.Err? {
        r := Err(uuid.error);
        return;
      }
      if id !in store {
        r := Err(RestaurantNotFound(id));
        return;
      }
      r := ToDto(store[id]);
      if r.Ok? {
        idCache := idCache[id := r.value];
      }
    }

    /**
     * The body of `addOrUpdateRestaurant`, which the cache annotations wrap:
     * validate the path id, map the payload under it, save, and return the
     * saved view. A failure leaves the store alone.
     */
    method SaveDetails(id: string, dto: RestaurantDetails) returns (r: Result<RestaurantDetails, Error>)
      requires Valid()
      modifies this`store, this`order
      ensures Valid()
      ensures UpsertEntity(id, dto).Err? ==>
        r == Err(UpsertEntity(id, dto).error) && store == old(store) && order == old(order)
      ensures UpsertEntity(id, dto).Ok? ==>
        && r.Ok? && r == ToDto(UpsertEntity(id, dto).value)
        && store == old(store)[Canonical(id) := UpsertEntity(id, dto).value]
        && order == Repository.SaveOrder(old(order), Canonical(id))
      ensures Searchable(old(store)) ==> Searchable(store)
    {
      var entity := UpsertEntity(id, dto);
      if entity.Err? {
        r := Err(entity.error);
        return;
      }
      var saved := Save(entity.value);
      r := ToDto(saved);
    }

    /**
     * What the annotations of `addOrUpdateRestaurant` do after a successful
     * body: `@CachePut` of the returned view under the raw id, then
     * `@CacheEvict(allEntries = true)` of the search cache. The caches end
     * coherent when they were so for the store before the save, and the
     * save put the viewed record under that same id.
     */
    method PutAndEvict(id: string, view: RestaurantDetails, ghost before: map<string, Restaurant>, ghost e: Restaurant, ghost saved: bool)
      requires Valid()
      requires saved ==> IdCacheCoherent(before, idCache) && IsUuid(id) && ToDto(e) == Ok(view) && store == before[id := e]
      modifies this`idCache, this`searchCache
      ensures idCache == old(idCache)[id := view] && searchCache == map[]
      ensures saved ==> Coherent()
    {
      if saved {
        UpsertKeepsIdCache(before, idCache, id, e);
      }
      idCache := idCache[id := view];
      searchCache := map[];
    }

    /**
     * `addOrUpdateRestaurant` with its annotations: after a successful body
     * the saved view is put into the `restaurants` cache under the raw id,
     * and the whole `restaurantSearchCache` is evicted. A failure changes
     * nothing. The caches stay coherent unless a well-formed id is not in
     * canonical form: the store then holds the record under the canonical
     * text while the cache entry sits under the raw text.
     */
    method AddOrUpdateRestaurant(id: string, dto: RestaurantDetails) returns (r: Result<RestaurantDetails, Error>)
      requires Valid()
      modifies this
      ensures Valid()
      ensures UpsertEntity(id, dto).Err? ==>
        && r == Err(UpsertEntity(id, dto).error)
        && store == old(store) && order == old(order) && idCache == old(idCache) && searchCache == old(searchCache)
      ensures UpsertEntity(id, dto).Ok? ==>
        && r.Ok? && r == ToDto(UpsertEntity(id, dto).value)
        && store == old(store)[Canonical(id) := UpsertEntity(id, dto).value]
        && order == Repository.SaveOrder(old(order), Canonical(id))
        && idCache == old(idCache)[id := r.value]
        && searchCache == map[]
      ensures old(Coherent()) && (r.Err? || Canonical(id) == id) ==> Coherent()
      ensures Searchable(old(store)) ==> Searchable(store)
    {
      ghost var before := store;
      ghost var wasCoherent := Coherent();
      r := SaveDetails(id, dto);
      if r.Ok? {
        PutAndEvict(id, r.value, before, UpsertEntity(id, dto).value, wasCoherent && Canonical(id) == id);
      } else {
        assert wasCoherent ==> Coherent();
      }
    }
  }

  /** After a successful upsert, a lookup by the same canonical id answers with the saved view. */
  method UpsertThenFind(s: RestaurantService, id: string, dto: RestaurantDetails)
    returns (written: Result<RestaurantDetails, Error>, read: Result<RestaurantDetails, Error>)
    requires s.Valid() && s.Coherent() && Canonical(id) == id
    modifies s
    ensures s.Valid() && s.Coherent()
    ensures written.Ok? ==> read == written && read == FindByIdUncached(s.store, id)
    ensures written.Err? ==> read == FindByIdUncached(s.store, id)
  {
    written := s.AddOrUpdateRestaurant(id, dto);
    read := s.FindRestaurantById(id);
  }

  /** After a successful upsert, a search sees the store as it now is, never an answer cached before it. */
  method UpsertThenLocate(s: RestaurantService, id: string, dto: RestaurantDetails, x: Int32, y: Int32)
    returns (written: Result<RestaurantDetails, Error>, found: Result<SearchResponse, Error>)
    requires s.Valid()
    modifies s
    ensures s.Valid()
    ensures written.Ok? ==> found == Locate(s.FindAll(), x, y)
  {
    written := s.AddOrUpdateRestaurant(id, dto);
    found := s.RestaurantLocator(x, y);
  }

  /** A repeated search with no write in between answers from the cache, with the first answer. */
  method SearchTwice(s: RestaurantService, x: Int32, y: Int32)
    returns (first: Result<SearchResponse, Error>, second: Result<SearchResponse, Error>)
    requires s.Valid() && s.Coherent()
    modifies s`searchCache
    ensures s.Valid() && s.Coherent()
    ensures first == second == Locate(s.FindAll(), x, y)
    ensures first.Ok? ==> FormatXY(x, y) in s.searchCache && s.searchCache[FormatXY(x, y)] == first.value
  {
    first := s.RestaurantLocator(x, y);
    second := s.RestaurantLocator(x, y);
  }

  /**
   * An upper-case id that the store does not hold: after its upsert the
   * `restaurants` cache answers with the saved view, while an uncached
   * lookup of the same text finds nothing, because the record went into the
   * store under the lower-case text.
   */
  method NonCanonicalUpsert(s: RestaurantService, id: string, dto: RestaurantDetails)
    returns (written: Result<RestaurantDetails, Error>)
    requires s.Valid() && Canonical(id) != id && id !in s.store
    modifies s
    ensures s.Valid()
    ensures written.Ok? ==> id in s.idCache && s.idCache[id] == written.value
    ensures written.Ok? ==> FindByIdUncached(s.store, id) == Err(RestaurantNotFound(id))
  {
    written := s.AddOrUpdateRestaurant(id, dto);
  }
}
