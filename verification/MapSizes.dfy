/** A map with fewer keys is no larger. */
module MapSizes {
  lemma KeysBound<K>(a: set<K>, b: set<K>)
    requires a <= b
    ensures |a| <= |b|
  {
    assert b == a + (b - a);
  }

  lemma Smaller<K, V, W>(a: map<K, V>, b: map<K, W>)
    requires a.Keys <= b.Keys
    ensures |a| <= |b|
  {
    KeysBound(a.Keys, b.Keys);
  }
}
