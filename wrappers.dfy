/** Optional values and outcomes shared by the whole model. */
module Wrappers {

  /** A value that may be absent: a request field that was not supplied. */
  datatype Option<+T> = None | Some(value: T) {
    function GetOr(default: T): T {
      match this
      case Some(v) => v
      case None => default
    }
  }

  /** The outcome of an operation that can be refused. */
  datatype Result<+R, +E> = Success(value: R) | Failure(error: E)
}

/** Identifiers, instants and the time units the ledger uses. */
module Ids {
  type UserId = nat
  type CustomerId = nat
  type LoanId = nat

  /** An instant, as JavaScript `Date` values hold it: milliseconds since the Unix epoch. */
  type Millis = int

  const MillisPerDay: int := 86_400_000
}
