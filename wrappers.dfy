/** Value wrappers for optional values and for operations that may throw, and the dictionary-of-lists lookup. */
module Wrappers {

  /** A value that may be absent: Swift's `T?`. */
  datatype Option<+T> = None | Some(value: T)

  /** The outcome of a throwing operation that returns nothing on success. */
  datatype Outcome<+E> = Pass | Fail(error: E)

  /** The outcome of a throwing operation that returns a value on success. */
  datatype Result<+R, +E> = Success(value: R) | Failure(error: E)

  /** The optional list a dictionary of lists holds under `k`, as Swift's dictionary subscript returns it. */
  function Get<K, V>(m: map<K, seq<V>>, k: K): (r: Option<seq<V>>)
    ensures r.Some? <==> k in m
    ensures r.Some? ==> r.value == m[k]
  {
    if k in m then Some(m[k]) else None
  }

  /** The value of an optional list, an absent list read as empty. */
  function OrEmpty<V>(list: Option<seq<V>>): seq<V> {
    if list.Some? then list.value else []
  }

  /** The list a dictionary of lists holds under `k`, an absent key read as the empty list. */
  function Lookup<K, V>(m: map<K, seq<V>>, k: K): (r: seq<V>)
    ensures r == OrEmpty(Get(m, k))
  {
    if k in m then m[k] else []
  }
}
