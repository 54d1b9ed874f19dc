/** Sums over the values of a finite map. */
module MapSums {

  ghost function Pick<T>(m: map<nat, T>): (k: nat)
    requires m.Keys != {}
    ensures k in m
  {
    var k :| k in m.Keys; k
  }

  ghost function SumOf<T>(m: map<nat, T>, f: T -> nat): nat
    decreases m.Keys
  {
    if m.Keys == {} then 0 else f(m[Pick(m)]) + SumOf(m - {Pick(m)}, f)
  }

  lemma {:induction false} SumSplit<T>(m: map<nat, T>, f: T -> nat, k: nat)
    requires k in m
    ensures SumOf(m, f) == f(m[k]) + SumOf(m - {k}, f)
    decreases m.Keys
  {
    var p := Pick(m);
    if p != k {
      var m1, m2 := m - {p}, m - {k};
      SumSplit(m1, f, k);
      SumSplit(m2, f, p);
      assert m1 - {k} == m2 - {p};
    }
  }

  lemma {:induction false} SumUpdate<T>(m: map<nat, T>, f: T -> nat, k: nat, v: T)
    ensures SumOf(m[k := v], f) + (if k in m then f(m[k]) else 0) == SumOf(m, f) + f(v)
  {
    var m' := m[k := v];
    SumSplit(m', f, k);
    if k in m {
      SumSplit(m, f, k);
      assert m' - {k} == m - {k};
    } else {
      assert m' - {k} == m;
    }
  }
}
