/** Sums of the values of a finite map. */
module MapSum {
  ghost function Sum<K(!new)>(m: map<K, int>): int {
    if m == map[] then 0
    else
      var k :| k in m;
      m[k] + Sum(m - {k})
  }

  lemma {:induction false} Remove<K(!new)>(m: map<K, int>, k: K)
    requires k in m
    ensures Sum(m) == m[k] + Sum(m - {k})
    decreases |m|
  {
    var c :| c in m && Sum(m) == m[c] + Sum(m - {c});
    if c != k {
      Remove(m - {c}, k);
      Remove(m - {k}, c);
      assert m - {c} - {k} == m - {k} - {c};
    }
  }

  function At<K>(m: map<K, int>, k: K): int {
    if k in m then m[k] else 0
  }

  lemma Update<K(!new)>(m: map<K, int>, k: K, v: int)
    ensures Sum(m[k := v]) == Sum(m) - At(m, k) + v
  {
    var m' := m[k := v];
    Remove(m', k);
    assert m' - {k} == m - {k};
    if k in m {
      Remove(m, k);
    } else {
      assert m - {k} == m;
    }
  }
}

/** The size of a set when one element comes or goes. */
module SetSize {
  function One(b: bool): int {
    if b then 1 else 0
  }

  lemma Recount<T>(before: set<T>, after: set<T>, t: T)
    requires forall x | x != t :: x in before <==> x in after
    ensures |after| == |before| - One(t in before) + One(t in after)
  {
    assert before - {t} == after - {t};
    assert t in before ==> before == (before - {t}) + {t};
    assert t !in before ==> before == before - {t};
    assert t in after ==> after == (after - {t}) + {t};
    assert t !in after ==> after == after - {t};
  }
}
