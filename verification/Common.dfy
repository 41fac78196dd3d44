/** Shared value types. */
module Common {
  datatype Option<+T> = None | Some(value: T)

  datatype Result<+T, +E> = Ok(value: T) | Err(error: E)

  /** A half-open stretch of some text. */
  datatype Span = Span(from: int, to: int)

  predicate Overlap(a: Span, b: Span) {
    a.from < b.to && a.to > b.from
  }
}
