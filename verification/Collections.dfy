/** What several modules need of maps and sequences. */
module Collections {
  datatype Option<T> = None | Some(value: T)

  /** Each element once. */
  predicate Distinct<T(==)>(s: seq<T>) {
    s == [] || (s[0] !in s[1..] && Distinct(s[1..]))
  }

  lemma {:induction false} DistinctJoin<T>(a: seq<T>, b: seq<T>)
    requires Distinct(a) && Distinct(b) && forall x: T :: x in a ==> x !in b
    ensures Distinct(a + b)
  {
    if a == [] {
      assert a + b == b;
    } else {
      assert (a + b)[1..] == a[1..] + b;
      DistinctJoin(a[1..], b);
    }
  }

  lemma FewerEntries<K, V>(a: map<K, V>, b: map<K, V>)
    requires forall k: K :: k in a ==> k in b
    ensures |a| <= |b|
  {
    assert b.Keys == a.Keys + (b.Keys - a.Keys);
  }

  lemma OneAdded<K, V>(a: map<K, V>, k: K, v: V)
    ensures |a[k := v]| == |a| + if k in a then 0 else 1
  {
    assert a[k := v].Keys == a.Keys + {k};
  }
}
