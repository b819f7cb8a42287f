/** Sums of a natural-number measure over the values of a finite map. */
module MapTotals {

  ghost function Total<K, V>(m: map<K, V>, f: V -> nat): nat
    decreases |m|
  {
    if |m| == 0 then 0
    else
      f(m[AnyKey(m)]) + Total(m - {AnyKey(m)}, f)
  }

  ghost const Units: nat -> nat := (n: nat) => n

  ghost function AnyKey<K, V>(m: map<K, V>): (k: K)
    requires |m| > 0
    ensures k in m
  {
    var k :| k in m; k
  }

  lemma {:induction false} TotalPick<K, V>(m: map<K, V>, f: V -> nat, k: K)
    requires k in m
    ensures Total(m, f) == f(m[k]) + Total(m - {k}, f)
    decreases |m|
  {
    var j := AnyKey(m);
    if j != k {
      TotalPick(m - {j}, f, k);
      TotalPick(m - {k}, f, j);
      assert m - {j} - {k} == m - {k} - {j};
    }
  }

  lemma TotalPut<K, V>(m: map<K, V>, f: V -> nat, k: K, v: V)
    ensures Total(m[k := v], f) == Total(m - {k}, f) + f(v)
    ensures k in m ==> Total(m[k := v], f) == Total(m, f) - f(m[k]) + f(v)
    ensures k !in m ==> Total(m[k := v], f) == Total(m, f) + f(v)
  {
    TotalPick(m[k := v], f, k);
    assert m[k := v] - {k} == m - {k};
    if k in m {
      TotalPick(m, f, k);
    } else {
      assert m - {k} == m;
    }
  }

  /** A map dominated key by key has the smaller total, whatever else the larger map holds. */
  lemma {:induction false} TotalDominated<K, V, W>(m: map<K, V>, f: V -> nat, n: map<K, W>, g: W -> nat)
    requires forall k :: k in m && f(m[k]) > 0 ==> k in n && f(m[k]) <= g(n[k])
    ensures Total(m, f) <= Total(n, g)
    decreases |m|
  {
    if |m| > 0 {
      var k :| k in m;
      TotalPick(m, f, k);
      if k in n {
        TotalPick(n, g, k);
        TotalDominated(m - {k}, f, n - {k}, g);
      } else {
        TotalDominated(m - {k}, f, n, g);
      }
    }
  }
}
