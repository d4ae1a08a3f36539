/** Loops over Go maps whose iteration order is unspecified. */
module GoMaps {

  /** `rs` lists the values of `b`, one per key. */
  ghost predicate Enumerates<V>(rs: seq<V>, b: map<string, V>) {
    |rs| == |b| &&
    (forall i :: 0 <= i < |rs| ==> rs[i] in b.Values) &&
    (forall k :: k in b ==> b[k] in rs)
  }

  /** `for _, r := range m { out = append(out, r) }`, in whatever order the map yields its keys. */
  method Enumerate<V(==)>(b: map<string, V>) returns (rs: seq<V>)
    ensures Enumerates(rs, b)
  {
    rs := [];
    var todo := b.Keys;
    while todo != {}
      invariant todo <= b.Keys
      invariant |rs| + |todo| == |b|
      invariant forall i :: 0 <= i < |rs| ==> rs[i] in b.Values
      invariant forall k :: k in b && k !in todo ==> b[k] in rs
      decreases |todo|
    {
      var k :| k in todo;
      assert b[k] in b.Values;
      rs := rs + [b[k]];
      todo := todo - {k};
    }
  }

  /** `for k, v := range candidates { if _, ok := other[k]; ok { next[k] = v } }`: the candidates whose key the other map also has. */
  method Intersect<V>(candidates: map<string, V>, other: map<string, V>) returns (next: map<string, V>)
    ensures next.Keys == candidates.Keys * other.Keys
    ensures forall e :: e in next ==> next[e] == candidates[e]
  {
    next := map[];
    var todo := candidates.Keys;
    while todo != {}
      invariant todo <= candidates.Keys
      invariant forall e :: e in next <==> e in candidates && e !in todo && e in other
      invariant forall e :: e in next ==> next[e] == candidates[e]
      decreases |todo|
    {
      var e :| e in todo;
      if e in other {
        next := next[e := candidates[e]];
      }
      todo := todo - {e};
    }
  }
}
