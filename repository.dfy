/**
 * The document store behind the service (repository/RestaurantRepository.java),
 * as a map from id to record plus the order in which `findAll` meets the records.
 * `save` is an upsert keyed by the record's id.
 */
module Repository {
  import opened Wrappers
  import opened Model

  /** Every key is listed once in `order`, and every record carries its own key as id. */
  ghost predicate WellFormed(records: map<string, Restaurant>, order: seq<string>) {
    && (forall i, j :: 0 <= i < j < |order| ==> order[i] != order[j])
    && (forall k :: k in records <==> k in order)
    && (forall k :: k in records ==> records[k].id == Some(k))
  }

  /** `findAll()`: every record, in encounter order. */
  function FindAll(records: map<string, Restaurant>, order: seq<string>): (rs: seq<Restaurant>)
    requires forall i :: 0 <= i < |order| ==> order[i] in records
    ensures |rs| == |order|
    ensures forall i :: 0 <= i < |order| ==> rs[i] == records[order[i]]
  {
    if order == [] then [] else [records[order[0]]] + FindAll(records, order[1..])
  }

  /** Where `save` leaves the encounter order: a new key goes last, a known key stays put. */
  function SaveOrder(order: seq<string>, key: string): seq<string> {
    if key in order then order else order + [key]
  }

  /**
   * Saving a record under its own id keeps the store well formed and changes
   * `findAll` only at that id: same records elsewhere, same positions, and a
   * new id appended at the end.
   */
  lemma SavePreservesStore(records: map<string, Restaurant>, order: seq<string>, e: Restaurant)
    requires WellFormed(records, order) && e.id.Some?
    ensures WellFormed(records[e.id.value := e], SaveOrder(order, e.id.value))
    ensures var after := FindAll(records[e.id.value := e], SaveOrder(order, e.id.value));
      var before := FindAll(records, order);
      && |after| == |before| + (if e.id.value in records then 0 else 1)
      && (forall i :: 0 <= i < |before| ==> after[i] == if order[i] == e.id.value then e else before[i])
      && (e.id.value !in records ==> after[|before|] == e)
  {
  }
}
