/** Iteration over sets and maps, in an order the caller cannot rely on. */
module Collections {

  method Pick<T(==)>(s: set<T>) returns (x: T)
    requires s != {}
    ensures x in s
  {
    x :| x in s;
  }

  lemma SameMap<K, V>(a: map<K, V>, b: map<K, V>)
    requires a.Keys == b.Keys
    requires forall k :: k in a ==> a[k] == b[k]
    ensures a == b
  {
    assert forall k :: k in a <==> k in b;
  }

  lemma SameKeys<K, V>(m: map<K, V>, k: K, v: V)
    requires k in m
    ensures m[k := v].Keys == m.Keys
  {}
}
