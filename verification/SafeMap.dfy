/** The capped maps that the caches are made of: a full map refuses every `Set` and `Reset`, and
    `Set` keeps the value of a key that is present.  A capacity of 0 means no limit. */
module SafeMap {
  predicate Full<K, V>(m: map<K, V>, cap: int) { cap != 0 && |m| >= cap }

  function Set<K, V>(m: map<K, V>, cap: int, k: K, v: V): map<K, V> {
    if Full(m, cap) || k in m then m else m[k := v]
  }

  function Reset<K, V>(m: map<K, V>, cap: int, k: K, v: V): map<K, V> {
    if Full(m, cap) then m else m[k := v]
  }

  function Get<K, V>(m: map<K, V>, k: K, zero: V): V {
    if k in m then m[k] else zero
  }
}
