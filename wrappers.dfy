/** Optional values: a database lookup that may find nothing, a caller that may be signed out. */
module Wrappers {

  datatype Option<+T> = None | Some(value: T)

  /** Looks `k` up in `m`, as a `findUnique` by primary key does. */
  function Lookup<K, V>(m: map<K, V>, k: K): (r: Option<V>)
    ensures r.Some? <==> k in m
    ensures r.Some? ==> r.value == m[k]
  {
    if k in m then Some(m[k]) else None
  }
}
