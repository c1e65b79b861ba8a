/** Option and Result values standing for Python's None and for the exceptions
    that the modelled code lets escape (int() on bad text, division by zero,
    list indexing out of range, a method called on a placeholder that is not
    yet an object). */
module Outcomes {

  datatype Option<+T> = None | Some(value: T)

  /** The Python exception classes the modelled code can raise. */
  datatype PyError = ValueError | ZeroDivisionError | IndexError | AttributeError

  datatype Result<+T> = Ok(value: T) | Err(error: PyError)

  /** Python's `seq[i]` on a list of length n: negative indices count from the end. */
  function PyIndex(i: int, n: nat): (r: Option<nat>)
    ensures r.Some? <==> -(n as int) <= i < n
    ensures r.Some? ==> r.value < n && (r.value == i || r.value == i + n)
  {
    if 0 <= i < n then Some(i) else if -(n as int) <= i < 0 then Some(i + n) else None
  }
}
