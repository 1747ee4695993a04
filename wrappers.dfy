/** Option and Result values for the two scripts, and the one error they raise. */
module Wrappers {

  /** A value that may be missing, as returned by Python's `dict.get`. */
  datatype Option<+T> = None | Some(value: T)

  /** The outcome of a step that may raise. */
  datatype Result<+R, +E> = Success(value: R) | Failure(error: E)

  /** Python's `KeyError`: a dictionary was indexed or `del`-eted at a key it does not hold. */
  datatype KeyError = KeyError(key: string)

  /** `d.get(k)`: the value at `k`, or `None` when `k` is absent. */
  function Get<K, V>(d: map<K, V>, k: K): (r: Option<V>)
    ensures r.Some? <==> k in d
    ensures r.Some? ==> r.value == d[k]
  {
    if k in d then Some(d[k]) else None
  }
}
