/** Option and Result, the two failure-carrying shapes used throughout the model. */
module Wrappers {

  /** A value that may be missing: `null` / `undefined` in the source. */
  datatype Option<+T> = None | Some(value: T)

  /** The outcome of an awaited call: a resolved value or a rejection. */
  datatype Result<+T, +E> = Ok(value: T) | Err(error: E)

  /** The entry of `m` under `k`, or None when the key is absent (`getItem` returning null). */
  function Lookup<K, V>(m: map<K, V>, k: K): (r: Option<V>)
    ensures r.Some? <==> k in m
    ensures r.Some? ==> r.value == m[k]
  {
    if k in m then Some(m[k]) else None
  }
}
