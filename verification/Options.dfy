/** A nullable column, a missing row, or an absent object property. */
module Options {
  datatype Option<+T> = None | Some(value: T)

  function Lookup<K, V>(table: map<K, V>, key: K): Option<V> {
    if key in table then Some(table[key]) else None
  }
}
