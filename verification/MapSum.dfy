/** Totals over the values of a table. */
module MapSum {

  ghost function Sum<K, V>(m: map<K, V>, size: V -> nat): nat
    decreases |m|
  {
    if m == map[] then 0
    else
      var k :| k in m;
      size(m[k]) + Sum(m - {k}, size)
  }

  lemma {:induction false} SumWithout<K, V>(m: map<K, V>, size: V -> nat, k: K)
    requires k in m
    ensures Sum(m, size) == size(m[k]) + Sum(m - {k}, size)
    decreases |m|
  {
    var first :| first in m && Sum(m, size) == size(m[first]) + Sum(m - {first}, size);
    if first != k {
      SumWithout(m - {first}, size, k);
      SumWithout(m - {k}, size, first);
      assert m - {first} - {k} == m - {k} - {first};
    }
  }

  lemma SumUpdate<K, V>(m: map<K, V>, size: V -> nat, k: K, v: V)
    ensures Sum(m[k := v], size) == Sum(m - {k}, size) + size(v)
  {
    SumWithout(m[k := v], size, k);
    assert m[k := v] - {k} == m - {k};
  }

  lemma SumAbsent<K, V>(m: map<K, V>, size: V -> nat, k: K)
    requires k !in m
    ensures Sum(m - {k}, size) == Sum(m, size)
  {
    assert m - {k} == m;
  }

  /** Part of a table totals no more than the table. */
  lemma {:induction false} SumPart<K, V>(part: map<K, V>, all: map<K, V>, size: V -> nat)
    requires forall k | k in part :: k in all && all[k] == part[k]
    ensures Sum(part, size) <= Sum(all, size)
    decreases |all|
  {
    if all == map[] {
      assert part == map[];
    } else {
      var k :| k in all;
      SumWithout(all, size, k);
      SumPart(part - {k}, all - {k}, size);
      if k in part {
        SumWithout(part, size, k);
      } else {
        SumAbsent(part, size, k);
      }
    }
  }
}
