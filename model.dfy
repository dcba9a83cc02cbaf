/**
 * The values the service passes around: the stored restaurant entity, the
 * details payload that is both the upsert request and the read response,
 * the search response, and the failures the operations can end in.
 * A Java reference that may be `null` is an `Option`.
 */
module Model {
  import opened Wrappers
  import opened Numerics
  import opened Uuids
  import opened CoordinateText

  /** A point on the integer grid (model/Coordinates). */
  datatype Coordinates = Coordinates(x: Int32, y: Int32)

  /**
   * The stored entity (model/Restaurant.java). `id` is the store key;
   * `kind` is the source's `type` field.
   */
  datatype Restaurant = Restaurant(
    id: Option<string>,
    name: Option<string>,
    kind: Option<string>,
    openingHours: Option<string>,
    image: Option<string>,
    radius: Int32,
    coordinates: Option<Coordinates>)

  /** The details payload (dto/RestaurantDetailsResponseDto.java); `kind` is `type`. */
  datatype RestaurantDetails = RestaurantDetails(
    name: Option<string>,
    kind: Option<string>,
    id: Option<Uuid>,
    openingHours: Option<string>,
    image: Option<string>,
    radius: Int32,
    coordinates: Option<string>)

  /**
   * A search distance. `Finite(d)` stands for the Euclidean distance
   * `sqrt(d)`; `MaxValue` is `Double.MAX_VALUE`, given to a restaurant
   * without coordinates.
   */
  datatype Distance = Finite(squared: nat) | MaxValue

  /** One search hit (dto/LocationDto.java). */
  datatype Location = Location(id: Option<Uuid>, name: Option<string>, coordinates: string, distance: Distance)

  /** The search answer (dto/SearchResponseDto.java). */
  datatype SearchResponse = SearchResponse(userLocation: string, locations: seq<Location>)

  /** The exceptions the core can end in. */
  datatype Error =
    /** `IllegalArgumentException` from `UUID.fromString`. It is not the exception
        type the service catches, so it is not rewrapped and is reported as a 500. */
    | MalformedUuid(id: string)
    /** `IllegalArgumentException` from `stringToCoordinates`: null or no pattern match. */
    | MalformedCoordinates
    /** `NumberFormatException` from `Integer.parseInt`: a digit run above `Integer.MAX_VALUE`. */
    | NumberFormat
    /** `RestaurantNotFoundException`: a well-formed id missing from the store (a 404). */
    | RestaurantNotFound(id: string)
    /** `NullPointerException`: the radius filter dereferences absent coordinates. */
    | NullCoordinates

  /** `@NotBlank`: not null, and something other than blanks and control characters. */
  predicate NotBlank(s: Option<string>) {
    s.Some? && exists i :: 0 <= i < |s.value| && s.value[i] > ' '
  }

  /** The bean-validation constraints of the details payload. */
  predicate Valid(dto: RestaurantDetails) {
    && NotBlank(dto.name)
    && NotBlank(dto.kind)
    && dto.id.Some?
    && NotBlank(dto.openingHours)
    && NotBlank(dto.image)
    && dto.radius >= 1
    && NotBlank(dto.coordinates)
    && MatchesPattern(dto.coordinates.value)
  }
}
