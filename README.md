# Restaurant proximity search, modelled in Dafny

The system is a small restaurant-search web service. Restaurants are stored
under a UUID text id. Each one has a point on an integer grid and a radius.
The service offers three operations:

- a search from a point, which returns every restaurant whose radius reaches
  that point, nearest first;
- a lookup by id, which returns the restaurant's details view;
- an upsert of a restaurant's details under an id.

The search and the lookup are read through two caches. A successful upsert
refreshes the lookup cache entry and clears the whole search cache.

The model has these modules:

- `Numerics`: Java `int` wrap-around, plus the decimal text that `%d` prints and `Integer.parseInt` reads.
- `Uuids`: the 36-character UUID text that `UUID.fromString` accepts and `UUID.toString` prints.
- `CoordinateText`: the `x=<x>,y=<y>` text of a point, and the `^x=\d+,y=\d+$` pattern.
- `Model`: the entity, the details payload, the search response, the errors, and the payload's validity constraints.
- `ResponseMapper` and `RequestMapper`: the two mappers, as pure functions.
- `Repository`: the document store, as a map plus the order in which `findAll` lists records.
- `Service`: the service's pure search, lookup and upsert functions, and the class `RestaurantService`.

`RestaurantService` has four fields: the store (`store`, `order`), the
`restaurants` cache (`idCache`) and the `restaurantSearchCache`
(`searchCache`). Its methods carry out the cache annotations as explicit map
updates. They are proved to keep a coherence invariant: every cached answer
equals what the uncached operation would return against the current store.
The upsert keeps it only for canonical (lower-case) ids, or when it fails.

Java exceptions are `Err` values of `Model.Error`. `null` is `None`.

## Numerics

`isRestaurantNearby` squares both differences in 32-bit `int` arithmetic.
It adds the squares in `double`, which is exact, and tests
`Math.sqrt(s) <= radius`. The model writes out the wrap-around (`Wrap32`)
and replaces the square root by the test `0 <= s && 0 <= radius &&
s <= radius * radius`. The two agree:

- A negative `s` gives NaN, which compares false.
- A negative radius is below every root.
- Otherwise `s` is an integer of magnitude at most 2^32. Its correctly
  rounded root is at most 2^16, and at that size it cannot round across an
  integer radius.

`NearbyWithoutOverflow` proves the textbook disc test whenever no square
overflows. `OverflowAdmitsFarRestaurant` shows what happens when one does: a
restaurant 65536 units away along the x axis counts as near, whatever its
non-negative radius.

`calculateDistance` (`Math.hypot`) is modelled as the squared distance, which
orders hits the same way. Its x difference is an `int` subtraction, which
wraps. Its y difference is taken in `double`, which is exact.

## Model

| member | source | states |
|---|---|---|
| Numerics.Wrap32 | src/main/java/com/sample/restaurant/search/service/impl/RestaurantServiceImpl.java:122-124 | 32-bit `int` arithmetic: the result is congruent to the exact value modulo 2^32, and equals it when it is in range |
| Numerics.NatToString | src/main/java/com/sample/restaurant/search/mapper/ResponseMapper.java:72 | `%d` of a non-negative number prints digits only, with no leading zero, and `0` only for zero |
| Numerics.NatToStringValue | src/main/java/com/sample/restaurant/search/mapper/RequestMapper.java:36-37 | reading back the printed decimal text gives the number again |
| Numerics.DigitsValueToString | src/main/java/com/sample/restaurant/search/mapper/RequestMapper.java:36-37 | a digit run without a leading zero prints back as itself after being read |
| Numerics.IntToString | src/main/java/com/sample/restaurant/search/service/impl/RestaurantServiceImpl.java:48 | `%d` of any integer: non-empty, made of digits and a minus sign, and digits only when the number is not negative |
| Numerics.IntToStringInjective | src/main/java/com/sample/restaurant/search/mapper/ResponseMapper.java:64 | distinct integers print differently under `%d` |
| Uuids.IsUuid | src/main/java/com/sample/restaurant/search/service/impl/RestaurantServiceImpl.java:105-107 | the text `UUID.fromString` accepts in its 36-character form: hex digits in either case, with dashes at positions 8, 13, 18 and 23 |
| Uuids.Canonical | src/main/java/com/sample/restaurant/search/service/impl/RestaurantServiceImpl.java:93-97 | printing a parsed UUID keeps its length and its well-formedness, turns every hex digit into the lower-case digit of the same value and changes nothing else |
| Uuids.CanonicalSameDigits | src/main/java/com/sample/restaurant/search/service/impl/RestaurantServiceImpl.java:93-97 | two well-formed ids print alike exactly when they hold the same digit values position by position, so distinct UUIDs never share a printed form |
| Uuids.FromString | src/main/java/com/sample/restaurant/search/service/impl/RestaurantServiceImpl.java:105-107 | `UUID.fromString` succeeds exactly on well-formed text, and the value is that text in lower case |
| Uuids.ToString | src/main/java/com/sample/restaurant/search/mapper/RequestMapper.java:24-27 | printing a UUID gives text that parses back to the same UUID |
| Uuids.CanonicalIsCanonical | src/main/java/com/sample/restaurant/search/service/impl/RestaurantServiceImpl.java:67-97 | the printed form of a well-formed id is lower-case, and a well-formed id prints as itself exactly when it has no upper-case digit, so only such ids share their lookup-cache key with their store key |
| CoordinateText.FormatXY | src/main/java/com/sample/restaurant/search/service/impl/RestaurantServiceImpl.java:48 | the text `String.format("x=%d,y=%d", x, y)` prints; the same format gives `userLocation` and a location's coordinates |
| CoordinateText.DigitRunLength | src/main/java/com/sample/restaurant/search/mapper/RequestMapper.java:32 | the length of the longest all-digit prefix |
| CoordinateText.MatchCoordinates | src/main/java/com/sample/restaurant/search/mapper/RequestMapper.java:32-37 | a match yields two non-empty digit runs |
| CoordinateText.MatchCoordinatesIff | src/main/java/com/sample/restaurant/search/mapper/RequestMapper.java:32-37 | the pattern matches exactly the strings `x=<digits>,y=<digits>`, and the split yields exactly those digits (both directions) |
| CoordinateText.FormatXYInjective | src/main/java/com/sample/restaurant/search/service/impl/RestaurantServiceImpl.java:48 | distinct points give distinct search-cache keys |
| CoordinateText.FormatXYMatches | src/main/java/com/sample/restaurant/search/mapper/ResponseMapper.java:69-73 | a point with non-negative coordinates prints as a match of the coordinate pattern |
| ResponseMapper.StringToUuid | src/main/java/com/sample/restaurant/search/mapper/ResponseMapper.java:76-79 | `null` maps to `null`; well-formed text maps to its UUID; other text fails with the malformed-UUID error |
| ResponseMapper.FormatCoordinates | src/main/java/com/sample/restaurant/search/mapper/ResponseMapper.java:69-74 | absent coordinates print as `x=0,y=0`; present ones print as `x=<x>,y=<y>`, which matches the pattern when both are non-negative |
| ResponseMapper.CalculateDistance | src/main/java/com/sample/restaurant/search/mapper/ResponseMapper.java:40-46 | absent coordinates, and only they, give `Double.MAX_VALUE`; without x overflow the value is the squared Euclidean distance; it is zero exactly at the query point |
| ResponseMapper.ToLocation | src/main/java/com/sample/restaurant/search/mapper/ResponseMapper.java:23-26 | fails exactly when the id does not parse; otherwise copies the name, parses the id, formats the coordinates and measures from (x, y) |
| ResponseMapper.MapLocations | src/main/java/com/sample/restaurant/search/mapper/ResponseMapper.java:49-50 | succeeds exactly when every id parses, and then gives one hit per restaurant, position by position |
| ResponseMapper.MapLocationsFirstError | src/main/java/com/sample/restaurant/search/mapper/ResponseMapper.java:49-50 | a failed mapping reports the error of the first restaurant whose id does not parse |
| ResponseMapper.MapOne | src/main/java/com/sample/restaurant/search/mapper/ResponseMapper.java:49-50 | mapping a single restaurant gives its one hit |
| ResponseMapper.InsertPermutes | src/main/java/com/sample/restaurant/search/mapper/ResponseMapper.java:51 | inserting a hit adds exactly that hit and loses none |
| ResponseMapper.InsertSorted | src/main/java/com/sample/restaurant/search/mapper/ResponseMapper.java:51 | inserting a hit into a sorted list keeps it sorted |
| ResponseMapper.InsertAtDistance | src/main/java/com/sample/restaurant/search/mapper/ResponseMapper.java:51 | insertion puts the new hit first among hits at its own distance and leaves the other distances' groups alone |
| ResponseMapper.SortByDistance | src/main/java/com/sample/restaurant/search/mapper/ResponseMapper.java:51 | `sorted(Comparator.comparingDouble(LocationDto::getDistance))`, as a stable insertion sort by distance |
| ResponseMapper.SortByDistanceCorrect | src/main/java/com/sample/restaurant/search/mapper/ResponseMapper.java:49-52 | the sort orders by ascending distance, is a permutation, and is stable |
| ResponseMapper.ToLocations | src/main/java/com/sample/restaurant/search/mapper/ResponseMapper.java:48-53 | one hit per restaurant, sorted by distance, a permutation of the mapped input, with ties in input order |
| ResponseMapper.ToSearchResponse | src/main/java/com/sample/restaurant/search/mapper/ResponseMapper.java:63-67 | `userLocation` is `x=<x>,y=<y>`, the hits are `toLocations`, and they are empty exactly when the input is |
| ResponseMapper.ToDto | src/main/java/com/sample/restaurant/search/mapper/ResponseMapper.java:28-30 | fails exactly when the id does not parse; otherwise copies every field, parses the id and formats the coordinates |
| ResponseMapper.DistanceExamples | src/test/java/com/sample/restaurant/search/mapper/ResponseMapperTest.java:48-61 | (0,4) is at distance 4 from (0,0), as this test expects; (2,2) is at distance 1 from (3,2), as src/test/java/com/sample/restaurant/search/RestaurantSearchApplicationTests.java:54-63 expects; absent coordinates are at `Double.MAX_VALUE` (ResponseMapper.java:40-46) |
| RequestMapper.UuidToString | src/main/java/com/sample/restaurant/search/mapper/RequestMapper.java:24-27 | `null` maps to `null`; otherwise to canonical text that `stringToUUID` turns back into the same UUID |
| RequestMapper.ParseInt | src/main/java/com/sample/restaurant/search/mapper/RequestMapper.java:36-37 | `Integer.parseInt` of a digit run: its decimal value when that fits an `int`, otherwise `NumberFormatException` |
| RequestMapper.StringToCoordinates | src/main/java/com/sample/restaurant/search/mapper/RequestMapper.java:30-39 | `null` or a non-match fails with the malformed-coordinates error; a match succeeds exactly when both runs fit an `int`, gives their decimal values, and is never negative |
| RequestMapper.ToEntity | src/main/java/com/sample/restaurant/search/mapper/RequestMapper.java:20-22 | succeeds exactly when the coordinates parse, and then always has coordinates; the id is the printed UUID; every other field is copied |
| RequestMapper.ParseFormatted | src/main/java/com/sample/restaurant/search/mapper/RequestMapper.java:30-39 | parsing the printed form of non-negative coordinates gives them back |
| RequestMapper.FormatParsed | src/main/java/com/sample/restaurant/search/mapper/ResponseMapper.java:70-73 | printing parsed coordinates gives the input back exactly when neither run has a leading zero |
| Model.NotBlank | src/main/java/com/sample/restaurant/search/dto/RestaurantDetailsResponseDto.java:19-20 | `@NotBlank`: not null, and holding some character above U+0020 |
| Model.Valid | src/main/java/com/sample/restaurant/search/dto/RestaurantDetailsResponseDto.java:19-40 | the payload's bean-validation constraints: name, type, opening hours and image not blank; id not null; radius at least 1; coordinates not blank and matching `^x=\d+,y=\d+$` |
| RequestMapper.ValidPayloadParses | src/main/java/com/sample/restaurant/search/dto/RestaurantDetailsResponseDto.java:38-40 | a valid payload's coordinates parse unless a digit run exceeds `Integer.MAX_VALUE` |
| RequestMapper.DetailsRoundTrip | src/main/java/com/sample/restaurant/search/mapper/RequestMapper.java:20-22 | entity then details view gives back the payload with its coordinates reprinted, and gives exactly the payload when there are no leading zeros |
| RequestMapper.ParseExample | src/test/java/com/sample/restaurant/search/mapper/RequestMapperTest.java:28-45 | `x=3,y=7` parses to (3, 7) |
| RequestMapper.MalformedExamples | src/test/java/com/sample/restaurant/search/mapper/RequestMapperTest.java:48-53 | `invalid`, a negative run, a missing y and `null` are refused as malformed |
| RequestMapper.OversizedRunRejected | src/main/java/com/sample/restaurant/search/mapper/RequestMapper.java:36-37 | a digit run above `Integer.MAX_VALUE` fails with `NumberFormatException` |
| RequestMapper.OnePastMaxValue | src/main/java/com/sample/restaurant/search/mapper/RequestMapper.java:36-37 | `2147483648` is a digit run one past `Integer.MAX_VALUE` |
| Repository.FindAll | src/main/java/com/sample/restaurant/search/service/impl/RestaurantServiceImpl.java:52 | `findAll` lists one record per key, in encounter order |
| Repository.SavePreservesStore | src/main/java/com/sample/restaurant/search/service/impl/RestaurantServiceImpl.java:100 | `save` keeps the store well formed; it changes `findAll` only at the saved id, and appends a new id at the end |
| Service.ValidateAndParseUuid | src/main/java/com/sample/restaurant/search/service/impl/RestaurantServiceImpl.java:105-111 | succeeds exactly on well-formed ids and prints as the canonical text; otherwise the parser's own error escapes unwrapped |
| Service.SquaredOffset | src/main/java/com/sample/restaurant/search/service/impl/RestaurantServiceImpl.java:122-124 | `dx * dx + dy * dy` with both differences and both squares in 32-bit `int` arithmetic |
| Service.WithinRadius | src/main/java/com/sample/restaurant/search/service/impl/RestaurantServiceImpl.java:124-125 | `Math.sqrt(s) <= radius`, written as `0 <= s`, `0 <= radius` and `s <= radius * radius` |
| Service.IsRestaurantNearby | src/main/java/com/sample/restaurant/search/service/impl/RestaurantServiceImpl.java:121-126 | absent coordinates, and only they, throw; otherwise the answer is the radius test on the 32-bit squared offset |
| Service.NearbyWithoutOverflow | src/main/java/com/sample/restaurant/search/service/impl/RestaurantServiceImpl.java:121-126 | with no square overflowing, a restaurant is near exactly when dx²+dy² ≤ radius² and the radius is not negative |
| Service.NearbyAtOwnPoint | src/main/java/com/sample/restaurant/search/service/impl/RestaurantServiceImpl.java:121-126 | a restaurant at the query point is near exactly when its radius is not negative |
| Service.OverflowAdmitsFarRestaurant | src/main/java/com/sample/restaurant/search/service/impl/RestaurantServiceImpl.java:122-124 | the `int` squares let in a restaurant 65536 units away, whatever its non-negative radius, though it is outside any radius below 65536 |
| Service.FilterNearby | src/main/java/com/sample/restaurant/search/service/impl/RestaurantServiceImpl.java:52-54 | fails exactly when some record lacks coordinates; otherwise an in-order subsequence holding exactly the records within their radius, with their multiplicity |
| Service.Locate | src/main/java/com/sample/restaurant/search/service/impl/RestaurantServiceImpl.java:52-55 | the filter's error, or `toSearchResponse` of the filtered records with the same x and y |
| Service.LocateSucceeds | src/main/java/com/sample/restaurant/search/service/impl/RestaurantServiceImpl.java:52-55 | over records that all have coordinates and well-formed ids, the search succeeds, with one sorted hit per kept record |
| Service.FilterOne | src/main/java/com/sample/restaurant/search/service/impl/RestaurantServiceImpl.java:52-54 | a single located restaurant is kept exactly when it is within its radius |
| Service.LocateOne | src/main/java/com/sample/restaurant/search/service/impl/RestaurantServiceImpl.java:52-55 | a search over one near restaurant with a well-formed id answers with that restaurant's hit alone |
| Service.SearchFindsNeighbour | src/test/java/com/sample/restaurant/search/RestaurantSearchApplicationTests.java:54-63 | a restaurant of radius 1 at (2,2) is found from (3,2), at distance 1, printed as `x=2,y=2` |
| Service.FindByIdUncached | src/main/java/com/sample/restaurant/search/service/impl/RestaurantServiceImpl.java:69-77 | a malformed id fails first; a missing id fails as not found without mapping; a stored one is its details view |
| Service.MalformedIdIgnoresStore | src/main/java/com/sample/restaurant/search/service/impl/RestaurantServiceImpl.java:70-74 | a malformed id gets the same error whatever the store holds |
| Service.UpsertEntity | src/main/java/com/sample/restaurant/search/service/impl/RestaurantServiceImpl.java:93-97 | a malformed id or malformed coordinates fail before saving; otherwise the entity carries the path id in canonical form, overriding the payload's id, and has coordinates |
| Service.UpsertReadsBack | src/main/java/com/sample/restaurant/search/service/impl/RestaurantServiceImpl.java:97-102 | the upsert returns the payload under the parsed path id, with its coordinates reprinted |
| Service.SearchableLocates | src/main/java/com/sample/restaurant/search/service/impl/RestaurantServiceImpl.java:52-55 | a search over a store of located records with well-formed ids never fails |
| Service.SearchCachePut | src/main/java/com/sample/restaurant/search/service/impl/RestaurantServiceImpl.java:48 | caching a successful search under its own point's text keeps the search cache coherent |
| Service.UpsertKeepsIdCache | src/main/java/com/sample/restaurant/search/service/impl/RestaurantServiceImpl.java:88-103 | saving a record under a well-formed id and caching its view under that same id keeps the lookup cache coherent |
| Service.RestaurantService.constructor | src/main/java/com/sample/restaurant/search/service/impl/RestaurantServiceImpl.java:34-38 | a service over a well-formed store starts with empty, hence coherent, caches |
| Service.RestaurantService.Save | src/main/java/com/sample/restaurant/search/service/impl/RestaurantServiceImpl.java:100 | `save` upserts under the entity's id and keeps the store well formed |
| Service.RestaurantService.RestaurantLocator | src/main/java/com/sample/restaurant/search/service/impl/RestaurantServiceImpl.java:48-57 | a cache hit returns the stored answer and changes nothing; a miss searches and caches only a success under `x=<x>,y=<y>`; coherence is kept and the answer is then a fresh search; it never fails on a store the service wrote |
| Service.RestaurantService.FindRestaurantById | src/main/java/com/sample/restaurant/search/service/impl/RestaurantServiceImpl.java:67-77 | a cache hit returns the stored view; a miss looks up the raw id and caches only a success; coherence is kept and the answer is then the uncached lookup |
| Service.RestaurantService.SaveDetails | src/main/java/com/sample/restaurant/search/service/impl/RestaurantServiceImpl.java:90-102 | a malformed id or malformed coordinates change nothing; otherwise the entity is saved under the canonical id and its details view returned; a store of located records with well-formed ids stays so |
| Service.RestaurantService.PutAndEvict | src/main/java/com/sample/restaurant/search/service/impl/RestaurantServiceImpl.java:88-89 | the view goes into the lookup cache under the raw id and the search cache is emptied; coherence follows when the saved id is that raw id and the old cache agreed with the old store |
| Service.RestaurantService.AddOrUpdateRestaurant | src/main/java/com/sample/restaurant/search/service/impl/RestaurantServiceImpl.java:88-103 | a failure changes nothing; a success saves under the canonical id, puts the returned view in the lookup cache under the raw id, and empties the search cache; coherence is kept for canonical ids; a store of well-formed, located records stays so |
| Service.UpsertThenFind | src/main/java/com/sample/restaurant/search/service/impl/RestaurantServiceImpl.java:67-103 | after an upsert with a canonical id, a lookup returns the written view, which is the store's |
| Service.UpsertThenLocate | src/main/java/com/sample/restaurant/search/service/impl/RestaurantServiceImpl.java:48-57 | after a successful upsert, a search reflects the current store, never an answer cached before it |
| Service.SearchTwice | src/main/java/com/sample/restaurant/search/service/impl/RestaurantServiceImpl.java:48 | a repeated search with no write between returns the first answer, which is cached under its own key |
| Service.NonCanonicalUpsert | src/main/java/com/sample/restaurant/search/service/impl/RestaurantServiceImpl.java:88-94 | an upper-case id that is not stored: after the upsert the lookup cache holds the view under the raw text, while the store does not know that text |

## Left out

- `UUID.fromString` accepts more than the 36-character form: shorter groups such as `1-1-1-1-1`, and signs that `Long.parseLong` allows. Only the 8-4-4-4-12 hexadecimal form is modelled. `UUID.toString` is modelled as lower-casing that form.
- Floating point: `Math.sqrt`, `Math.hypot` and `Double.MAX_VALUE` are replaced by exact squared distances. At distances near 2^26 and beyond, two different squared distances can round to the same `double`. Such hits tie in Java, and keep their input order there. The model still orders them strictly by their exact squared distances.
- The document store's own ordering, consistency and id generation: `findAll` order is a sequence the model keeps. Saving an entity without an id cannot happen through the service and is not modelled.
- Store failures: `findAll`, `findById` and `save` are modelled as always succeeding. An exception from the document store propagates in the service, and Spring then neither caches nor evicts. `Service.RestaurantService.Save`, `RestaurantLocator`, `FindRestaurantById` and `AddOrUpdateRestaurant` therefore have no store-unavailable outcome, and do not show that a failed write leaves both caches as they were.
- Locale: `String.format` prints `%d` in the default format locale, which replaces each digit by that locale's own digit. The model assumes a locale whose zero digit is `'0'`, so that `Numerics.NatToString`, `CoordinateText.FormatXYMatches`, `ResponseMapper.FormatCoordinates` and `RequestMapper.FormatParsed` print ASCII digits that the `\d` pattern matches. In a locale with other digits, the cache key, `userLocation` and the location text are not ASCII, and the round trips do not hold.
- Concurrency: the caches and the store are modelled as used by one caller at a time.
- Logging calls, which change no state.
- Object identity and aliasing. `restaurantDto.setId(uuid)` changes the caller's payload object even when the upsert then fails. Cached details objects are shared with callers. The model passes values.
- `@NotBlank` is modelled as "not null and containing a character above U+0020". That is the trimming rule; other Unicode whitespace is not treated as blank.
- HTTP mapping: the controller, the exception handler (`GlobalExceptionHandler.java` maps a malformed-UUID error, which escapes unwrapped, to a 500; a missing restaurant to a 404), the application bootstrap and the configuration are not part of this model. The `InvalidInputException` branch of `validateAndParseUUID` cannot be reached, because `UUID.fromString` never throws that type, so there is no error for it.
- Bean validation is not invoked by the service: `Model.Valid` states the payload constraints, and `RequestMapper.ValidPayloadParses` relates them to parsing; the service operations accept any payload, as the service itself does.
- Service.RestaurantService.AddOrUpdateRestaurant: coherence is promised only for canonical (lower-case) ids or failed upserts. With an upper-case id, the lookup cache and the store use different keys. `Service.NonCanonicalUpsert` shows the resulting divergence.
- Response DTO annotations (`@PositiveOrZero`, `@Pattern` on `LocationDto`) are never enforced and are not modelled.
