/** Optional values, and the sizes of maps after a put or a removal. */
module Collections {

  datatype Option<+T> = None | Some(value: T)

  lemma PutSize<K, V>(m: map<K, V>, k: K, v: V)
    ensures |m[k := v]| == |m| + if k in m then 0 else 1
  {
    if k in m {
      assert m[k := v].Keys == m.Keys;
    } else {
      assert m[k := v].Keys == m.Keys + {k};
    }
  }

  lemma DropSize<K, V>(m: map<K, V>, gone: set<K>)
    requires gone <= m.Keys
    ensures |m - gone| == |m| - |gone|
  {
    assert m.Keys == (m - gone).Keys + gone;
  }
}
