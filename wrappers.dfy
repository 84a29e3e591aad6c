/** Optional values and success/failure results, usable with `:-`. */
module Wrappers {

  /** A value that may be missing: TypeScript's `T | null | undefined`. */
  datatype Option<+T> = None | Some(value: T) {
    predicate IsFailure() { None? }

    function PropagateFailure<U>(): Option<U>
      requires None?
    {
      None
    }

    function Extract(): T
      requires Some?
    {
      value
    }
  }

  /** The outcome of an operation that either resolves or rejects. */
  datatype Result<+R, +E> = Success(value: R) | Failure(error: E) {
    predicate IsFailure() { Failure? }

    function PropagateFailure<U>(): Result<U, E>
      requires Failure?
    {
      Failure(error)
    }

    function Extract(): R
      requires Success?
    {
      value
    }
  }

  /** The value stored under `key`, as `AsyncStorage.getItem` reports it. */
  function Lookup<K, V>(m: map<K, V>, key: K): (r: Option<V>)
    ensures r.Some? <==> key in m
    ensures r.Some? ==> m[key] == r.value
  {
    if key in m then Some(m[key]) else None
  }
}
