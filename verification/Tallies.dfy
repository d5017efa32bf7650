/** Totals of integer-valued maps and their behaviour under one update. */
module Tallies {
  ghost function Total(m: map<nat, int>): int {
    if m.Keys == {} then 0
    else
      var k :| k in m.Keys;
      m[k] + Total(m - {k})
  }

  lemma {:induction false} TotalSplit(m: map<nat, int>, k: nat)
    requires k in m
    ensures Total(m) == m[k] + Total(m - {k})
    decreases |m|
  {
    var j :| j in m.Keys && Total(m) == m[j] + Total(m - {j});
    if j != k {
      TotalSplit(m - {j}, k);
      TotalSplit(m - {k}, j);
      assert m - {j} - {k} == m - {k} - {j};
    }
  }

  lemma TotalUpdate(m: map<nat, int>, k: nat, v: int)
    ensures Total(m[k := v]) == Total(m) + v - (if k in m then m[k] else 0)
  {
    TotalSplit(m[k := v], k);
    assert m[k := v] - {k} == m - {k};
    if k in m {
      TotalSplit(m, k);
    } else {
      assert m - {k} == m;
    }
  }

  lemma {:induction false} TotalOfZeros(m: map<nat, int>)
    requires forall k | k in m :: m[k] == 0
    ensures Total(m) == 0
    decreases |m|
  {
    if m.Keys != {} {
      var k :| k in m.Keys;
      TotalSplit(m, k);
      TotalOfZeros(m - {k});
    }
  }

  lemma {:induction false} TotalOfDifference(x: map<nat, int>, y: map<nat, int>, z: map<nat, int>)
    requires x.Keys == y.Keys == z.Keys
    requires forall k | k in z :: z[k] == x[k] - y[k]
    ensures Total(z) == Total(x) - Total(y)
    decreases |z|
  {
    if z.Keys != {} {
      var k :| k in z.Keys;
      TotalSplit(x, k);
      TotalSplit(y, k);
      TotalSplit(z, k);
      TotalOfDifference(x - {k}, y - {k}, z - {k});
    }
  }
}
