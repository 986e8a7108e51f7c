/** Option, and lookups in maps that may lack the key. */
module Wrappers {

  datatype Option<+T> = None | Some(value: T)

  function Lookup<K, V>(m: map<K, V>, k: K): Option<V> {
    if k in m then Some(m[k]) else None
  }

  /** A map with key `k` removed. */
  function Without<K, V>(m: map<K, V>, k: K): map<K, V> {
    m - {k}
  }

  lemma WithoutThenPut<K, V>(m: map<K, V>, k: K, v: V)
    ensures Without(m[k := v], k) == Without(m, k)
    ensures k in m ==> m[k := m[k]] == m
  {
  }
}
