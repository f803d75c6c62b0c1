/** A JavaScript `Map` with string keys: entries in insertion order, each key once. */
module JsMaps {
  import opened Prelude

  type JsMap<+V> = seq<(string, V)>

  predicate Unique<V>(m: JsMap<V>) {
    m != [] ==> Find(m[1..], m[0].0).None? && Unique(m[1..])
  }

  function Find<V>(m: JsMap<V>, k: string): (r: Option<V>)
    ensures r.Some? ==> (k, r.value) in m
    ensures r.None? ==> forall e <- m :: e.0 != k
  {
    if m == [] then None
    else if m[0].0 == k then assert m[0] == (k, m[0].1); Some(m[0].1)
    else
      assert forall e | e in m :: e == m[0] || e in m[1..];
      Find(m[1..], k)
  }

  /** Replace in place, or append at the end. */
  function Put<V>(m: JsMap<V>, k: string, v: V): JsMap<V> {
    if m == [] then [(k, v)]
    else if m[0].0 == k then [(k, v)] + m[1..]
    else [m[0]] + Put(m[1..], k, v)
  }

  lemma {:induction false} FindPut<V>(m: JsMap<V>, k: string, v: V, q: string)
    ensures Find(Put(m, k, v), q) == if q == k then Some(v) else Find(m, q)
  {
    if m != [] && m[0].0 != k {
      FindPut(m[1..], k, v, q);
    }
  }

  lemma {:induction false} PutKeepsUnique<V>(m: JsMap<V>, k: string, v: V)
    requires Unique(m)
    ensures Unique(Put(m, k, v))
  {
    if m != [] && m[0].0 != k {
      PutKeepsUnique(m[1..], k, v);
      FindPut(m[1..], k, v, m[0].0);
    }
  }

  lemma {:induction false} PutMembers<V>(m: JsMap<V>, k: string, v: V)
    requires Unique(m)
    ensures forall e :: e in Put(m, k, v) <==> e == (k, v) || (e in m && e.0 != k)
  {
    if m != [] {
      assert m == [m[0]] + m[1..];
      if m[0].0 != k {
        PutMembers(m[1..], k, v);
      }
    }
  }

  lemma {:induction false} PutGrows<V>(m: JsMap<V>, k: string, v: V)
    ensures |Put(m, k, v)| == |m| + (if Find(m, k).Some? then 0 else 1)
  {
    if m != [] && m[0].0 != k {
      PutGrows(m[1..], k, v);
    }
  }

  lemma {:induction false} FindMember<V>(m: JsMap<V>, e: (string, V))
    requires Unique(m) && e in m
    ensures Find(m, e.0) == Some(e.1)
  {
    if m[0] != e {
      assert m == [m[0]] + m[1..];
      FindMember(m[1..], e);
    }
  }
}
