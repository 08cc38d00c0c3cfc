/** Facts about finite maps used by several components. */
module Maps {

  /** Moving one entry from `b` to `a` keeps their sum. */
  lemma OneMoved<K, V>(a: map<K, V>, b: map<K, V>, k: K)
    requires k in b && k !in a
    ensures a[k := b[k]] + (b - {k}) == a + b
    ensures (b - {k}).Keys < b.Keys
  {
    assert k in b.Keys && k !in (b - {k}).Keys;
  }

  lemma UpdateSum<K, V>(a: map<K, V>, b: map<K, V>, k: K, v: V)
    ensures (a + b)[k := v] == a + b[k := v]
  {
  }

  function Restrict<K, V>(m: map<K, V>, keys: set<K>): map<K, V> {
    map k | k in m && k in keys :: m[k]
  }

  lemma RestrictSum<K, V>(a: map<K, V>, b: map<K, V>, keys: set<K>)
    requires b.Keys == keys
    ensures Restrict(a + b, keys) == b
  {
  }
}
