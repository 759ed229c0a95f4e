/** The Option and Result types used in place of NaN values and alert dialogs. */
module Wrappers {

  /** A parsed form field: `None` is what `parseFloat` reports as NaN (an empty or non-numeric field). */
  datatype Option<+T> = None | Some(value: T)

  /** The outcome of a calculation: a result record, or the reason the form was rejected. */
  datatype Result<+T, +E> = Success(value: T) | Failure(error: E)
}

/** Tests the calculators apply to a parsed numeric field. */
module Fields {
  import opened Wrappers

  /** JavaScript's `!x` on a parsed number: true for NaN and for zero. */
  predicate Falsy(x: Option<real>)
  {
    x.None? || x.value == 0.0
  }

  /** A field the calculators accept as an amount: it parsed, and to a strictly positive number. */
  predicate Positive(x: Option<real>)
  {
    x.Some? && x.value > 0.0
  }
}
