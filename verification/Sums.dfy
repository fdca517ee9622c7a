/** Totals over finite tables: the SQL `sum(...)` the accounting claims are about. */
module Sums {

  /** The sum of all values of `m`; the order in which keys are taken does not matter (`SumSplit`). */
  ghost function Sum<K(!new)>(m: map<K, int>): int
    decreases |m|
  {
    if m == map[] then 0 else var k :| k in m; m[k] + Sum(m - {k})
  }

  lemma {:induction false} SumSplit<K(!new)>(m: map<K, int>, k: K)
    requires k in m
    ensures Sum(m) == m[k] + Sum(m - {k})
    decreases |m|
  {
    var j :| j in m && Sum(m) == m[j] + Sum(m - {j});
    if j != k {
      SumSplit(m - {j}, k);
      SumSplit(m - {k}, j);
      assert m - {j} - {k} == m - {k} - {j};
    }
  }

  /** Writing one key changes the total by the difference at that key. */
  lemma SumPut<K(!new)>(m: map<K, int>, k: K, v: int)
    ensures Sum(m[k := v]) == Sum(m) + v - (if k in m then m[k] else 0)
  {
    SumSplit(m[k := v], k);
    if k in m {
      SumSplit(m, k);
      assert m[k := v] - {k} == m - {k};
    } else {
      assert m[k := v] - {k} == m;
    }
  }

  /** A table without negative entries has a total at least as large as each entry. */
  lemma {:induction false} SumBoundsEntry<K(!new)>(m: map<K, int>, k: K)
    requires k in m && forall j :: j in m ==> 0 <= m[j]
    ensures 0 <= m[k] <= Sum(m)
  {
    SumSplit(m, k);
    SumNonNegative(m - {k});
  }

  lemma {:induction false} SumNonNegative<K(!new)>(m: map<K, int>)
    requires forall j :: j in m ==> 0 <= m[j]
    ensures 0 <= Sum(m)
    decreases |m|
  {
    if m != map[] {
      var j :| j in m && Sum(m) == m[j] + Sum(m - {j});
      SumNonNegative(m - {j});
    }
  }

  /** A table with more keys and no smaller entries has no smaller total. */
  lemma {:induction false} SumMonotone<K(!new)>(m: map<K, int>, n: map<K, int>)
    requires forall k :: k in m ==> k in n && m[k] <= n[k]
    requires forall k :: k in n ==> 0 <= n[k]
    ensures Sum(m) <= Sum(n)
    decreases |m|
  {
    if m == map[] {
      SumNonNegative(n);
    } else {
      var j :| j in m && Sum(m) == m[j] + Sum(m - {j});
      SumSplit(n, j);
      SumMonotone(m - {j}, n - {j});
    }
  }

  lemma {:induction false} SumOfZeros<K(!new)>(m: map<K, int>)
    requires forall k :: k in m ==> m[k] == 0
    ensures Sum(m) == 0
    decreases |m|
  {
    if m != map[] {
      var j :| j in m && Sum(m) == m[j] + Sum(m - {j});
      SumOfZeros(m - {j});
    }
  }

  /** The total of a table whose entries are those of two tables without a common key. */
  lemma {:induction false} SumParts<K(!new)>(whole: map<K, int>, m: map<K, int>, n: map<K, int>)
    requires forall k :: k in whole <==> k in m || k in n
    requires forall k :: k !in m || k !in n
    requires forall k :: k in whole ==> whole[k] == if k in m then m[k] else n[k]
    ensures Sum(whole) == Sum(m) + Sum(n)
    decreases |m|
  {
    if m == map[] {
      assert whole == n;
    } else {
      var j :| j in m && Sum(m) == m[j] + Sum(m - {j});
      SumSplit(whole, j);
      SumParts(whole - {j}, m - {j}, n);
    }
  }
}
