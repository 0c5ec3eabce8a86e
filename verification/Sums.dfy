/** Sums over tables of numbers: balances, bonds, stakes and voting weights. */
module Sums {
  import opened Results

  /** The sum of m over the keys in s; a name that is not a key counts nothing. */
  ghost function SumOver(m: map<string, int>, s: set<string>): int {
    if s == {} then 0
    else
      var x :| x in s;
      (if x in m then m[x] else 0) + SumOver(m, s - {x})
  }

  ghost function Sum(m: map<string, int>): int { SumOver(m, m.Keys) }

  lemma {:induction false} SumOverRemove(m: map<string, int>, s: set<string>, x: string)
    requires x in s
    ensures SumOver(m, s) == (if x in m then m[x] else 0) + SumOver(m, s - {x})
  {
    var y :| y in s && SumOver(m, s) == (if y in m then m[y] else 0) + SumOver(m, s - {y});
    if y != x {
      SumOverRemove(m, s - {y}, x);
      SumOverRemove(m, s - {x}, y);
      assert s - {y} - {x} == s - {x} - {y};
    }
  }

  lemma {:induction false} SumOverSame(m: map<string, int>, n: map<string, int>, s: set<string>)
    requires s <= m.Keys && s <= n.Keys && forall x :: x in s ==> m[x] == n[x]
    ensures SumOver(m, s) == SumOver(n, s)
  {
    if s != {} {
      var x := Pick(s);
      SumOverRemove(m, s, x);
      SumOverRemove(n, s, x);
      SumOverSame(m, n, s - {x});
    }
  }

  lemma {:induction false} SumOverNonNegative(m: map<string, int>, s: set<string>)
    requires forall x :: x in m ==> m[x] >= 0
    ensures SumOver(m, s) >= 0
  {
    if s != {} {
      var x := Pick(s);
      SumOverRemove(m, s, x);
      SumOverNonNegative(m, s - {x});
    }
  }

  lemma SumUpdate(m: map<string, int>, x: string, v: int)
    ensures Sum(m[x := v]) == Sum(m) - (if x in m then m[x] else 0) + v
  {
    var n := m[x := v];
    SumOverRemove(n, n.Keys, x);
    assert n.Keys - {x} == m.Keys - {x};
    SumOverSame(m, n, m.Keys - {x});
    if x in m { SumOverRemove(m, m.Keys, x); } else { assert m.Keys - {x} == m.Keys; }
  }

  lemma SumWithout(m: map<string, int>, x: string)
    requires x in m
    ensures Sum(m - {x}) == Sum(m) - m[x]
  {
    var n := m - {x};
    SumOverRemove(m, m.Keys, x);
    assert n.Keys == m.Keys - {x};
    SumOverSame(m, n, n.Keys);
  }

  /** sum(m[x] for x in s) */
  method SumTable(m: map<string, int>, s: set<string>) returns (total: int)
    requires s <= m.Keys
    ensures total == SumOver(m, s)
  {
    var rest := s;
    total := 0;
    while rest != {}
      invariant rest <= s && total + SumOver(m, rest) == SumOver(m, s)
      decreases |rest|
    {
      var x :| x in rest;
      SumOverRemove(m, rest, x);
      total := total + m[x];
      rest := rest - {x};
    }
  }
}
