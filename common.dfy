/** Shared vocabulary of the model: optional values and the identifiers the
    database hands out for whiskies and tags. */
module Common {

  /** A value that may be missing (a nullable database column). */
  datatype Option<+T> = None | Some(value: T)

  /** Primary keys of the Whiskey and Tag tables. */
  type WhiskeyId = nat
  type TagId = nat

  /** No identifier occurs twice (primary keys of a queryset). */
  predicate Distinct(ids: seq<WhiskeyId>)
  {
    forall i, j :: 0 <= i < j < |ids| ==> ids[i] != ids[j]
  }
}
