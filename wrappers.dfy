/** Optional values, used wherever the source has a nullable column or an absent field. */
module Wrappers {
  datatype Option<T> = None | Some(value: T)
  {
    predicate IsSome() { this.Some? }

    function GetOr(default: T): T
    {
      match this
      case None => default
      case Some(v) => v
    }
  }

  /** A request field: left out of the payload, or sent (null included). */
  datatype Field<T> = Absent | Present(value: T)

  /** A serializer's verdict: the validated data, or the keys of its error dictionary in field order. */
  datatype Validated<T> = Accepted(value: T) | Rejected(keys: seq<string>)
}
