/** Small datatypes and JavaScript value conventions shared by the service models. */
module Wrappers {

  /** One day in milliseconds, the unit of every timestamp in the models. */
  const DayMs: int := 24 * 60 * 60 * 1000

  /** A value that may be absent (a SQL NULL, an undefined JSON field). */
  datatype Option<+T> = None | Some(value: T)

  /** Either a value or the error that stopped the computation. */
  datatype Result<+R, +E> = Success(value: R) | Failure(error: E)

  /** JavaScript truthiness of an optional number: absent and zero are falsy. */
  predicate TruthyNumber(x: Option<real>)
  {
    x.Some? && x.value != 0.0
  }

  /** JavaScript truthiness of an optional integer: absent and zero are falsy. */
  predicate TruthyInt(x: Option<int>)
  {
    x.Some? && x.value != 0
  }
}
