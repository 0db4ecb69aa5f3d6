/** A value that may be absent: `null`, a missing map entry, an empty result set. */
module Options {

  datatype Option<+T> = None | Some(value: T)

  function Lookup<K, V>(m: map<K, V>, k: K): (r: Option<V>) {
    if k in m then Some(m[k]) else None
  }
}
