/** Swift's optionals. */
module Options {

  datatype Option<+T> = None | Some(value: T)

  /** `dictionary[key]` on a string dictionary. */
  function Lookup<K, V>(m: map<K, V>, key: K): (r: Option<V>)
    ensures r.Some? <==> key in m
    ensures r.Some? ==> r.value == m[key]
  {
    if key in m then Some(m[key]) else None
  }
}
