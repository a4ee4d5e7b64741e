/** The optional value used for Python's `None` throughout the model. */
module Wrappers {

  datatype Option<+T> = None | Some(value: T)

  /** `d.get(k)` on a Python dictionary. */
  function Get<K, V>(m: map<K, V>, k: K): (r: Option<V>)
    ensures r.Some? <==> k in m
    ensures r.Some? ==> r.value == m[k]
  {
    if k in m then Some(m[k]) else None
  }
}
