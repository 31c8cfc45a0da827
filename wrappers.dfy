/** The optional-value datatype shared by the whole model: `None` stands for
    Python's `None` (an absent header, a null column, no authenticated user). */
module Wrappers {

  datatype Option<+T> = None | Some(value: T)

  /** `dict.get(key)` */
  function Get<K, V>(m: map<K, V>, key: K): (r: Option<V>)
    ensures r.Some? <==> key in m
    ensures r.Some? ==> r.value == m[key]
  {
    if key in m then Some(m[key]) else None
  }

  /** `dict.get(key, default)` */
  function GetOr<K, V>(m: map<K, V>, key: K, default: V): (r: V)
    ensures key in m ==> r == m[key]
    ensures key !in m ==> r == default
  {
    if key in m then m[key] else default
  }
}
