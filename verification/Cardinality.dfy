/** Counting through maps: how many values a finite map has. */
module Cardinality {

  ghost predicate Injective<K, V>(m: map<K, V>) {
    forall j, k :: j in m && k in m && m[j] == m[k] ==> j == k
  }

  lemma ProperSubsetIsSmaller<T>(a: set<T>, b: set<T>)
    requires a <= b
    ensures |a| <= |b|
    ensures |a| == |b| <==> a == b
  {
    assert b == a + (b - a);
  }

  /** A map has at most as many values as keys, and as many only if no two keys share one. */
  lemma {:induction false} ValuesVersusKeys<K, V>(m: map<K, V>)
    ensures |m.Values| <= |m|
    ensures |m.Values| == |m| <==> Injective(m)
    decreases |m|
  {
    if m != map[] {
      var k :| k in m;
      var rest := m - {k};
      ValuesVersusKeys(rest);
      assert m == rest[k := m[k]];
      if m[k] in rest.Values {
        assert m.Values == rest.Values;
        var j :| j in rest && rest[j] == m[k];
        assert j != k && m[j] == m[k];
      } else {
        assert m.Values == rest.Values + {m[k]};
        forall a | a in rest ensures m[a] != m[k] {
          assert rest[a] in rest.Values;
        }
        assert Injective(m) ==> Injective(rest);
      }
    }
  }
}
