/** Option and Result datatypes shared by the modules of this model. */
module Wrappers {

  /** A value that may be absent: JavaScript's `T | null`. */
  datatype Option<+T> = None | Some(value: T)

  /** The outcome of an awaited call: its value, or the error it rejected with. */
  datatype Result<+T, +E> = Success(value: T) | Failure(error: E)

  /** `m[k]` when `k` is a key of `m`, `None` otherwise (`Storage.getItem`). */
  function Lookup<K, V>(m: map<K, V>, k: K): (r: Option<V>)
    ensures r.Some? <==> k in m
    ensures r.Some? ==> r.value == m[k]
  {
    if k in m then Some(m[k]) else None
  }
}
