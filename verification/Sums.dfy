/** Sums of real-valued tables over finite key sets, independent of the order of iteration. */
module Sums {
  ghost function Sum<K>(t: map<K, real>, s: set<K>): real
    requires s <= t.Keys
  {
    if s == {} then 0.0
    else
      var x :| x in s;
      t[x] + Sum(t, s - {x})
  }

  /** Any element may be taken out first, so the choice inside `Sum` does not matter. */
  lemma {:induction false} SumTake<K>(t: map<K, real>, s: set<K>, x: K)
    requires s <= t.Keys && x in s
    ensures Sum(t, s) == t[x] + Sum(t, s - {x})
    decreases s
  {
    var y :| y in s && Sum(t, s) == t[y] + Sum(t, s - {y});
    if y != x {
      SumTake(t, s - {y}, x);
      SumTake(t, s - {x}, y);
      assert s - {y} - {x} == s - {x} - {y};
    }
  }

  lemma {:induction false} SumCong<K>(t: map<K, real>, u: map<K, real>, s: set<K>)
    requires s <= t.Keys && s <= u.Keys
    requires forall x :: x in s ==> t[x] == u[x]
    ensures Sum(t, s) == Sum(u, s)
    decreases s
  {
    if x :| x in s {
      SumTake(t, s, x);
      SumTake(u, s, x);
      SumCong(t, u, s - {x});
    }
  }

  lemma {:induction false} SumUnion<K>(t: map<K, real>, a: set<K>, b: set<K>)
    requires a <= t.Keys && b <= t.Keys && a !! b
    ensures Sum(t, a + b) == Sum(t, a) + Sum(t, b)
    decreases a
  {
    if a == {} {
      assert a + b == b;
    } else {
      var x :| x in a;
      SumTake(t, a, x);
      SumTake(t, a + b, x);
      assert a + b - {x} == (a - {x}) + b;
      SumUnion(t, a - {x}, b);
    }
  }

  lemma {:induction false} SumPositive<K>(t: map<K, real>, s: set<K>)
    requires s <= t.Keys && forall x :: x in s ==> t[x] > 0.0
    ensures Sum(t, s) >= 0.0 && (s != {} ==> Sum(t, s) > 0.0)
    decreases s
  {
    if x :| x in s {
      SumTake(t, s, x);
      SumPositive(t, s - {x});
    }
  }

  /** `r = p + q*c`, entry by entry, sums to the same combination of sums. */
  lemma {:induction false} SumLinear<K>(r: map<K, real>, p: map<K, real>, q: map<K, real>, c: real, s: set<K>)
    requires s <= r.Keys && s <= p.Keys && s <= q.Keys
    requires forall x :: x in s ==> r[x] == p[x] + q[x] * c
    ensures Sum(r, s) == Sum(p, s) + Sum(q, s) * c
    decreases s
  {
    if x :| x in s {
      SumTake(r, s, x);
      SumTake(p, s, x);
      SumTake(q, s, x);
      SumLinear(r, p, q, c, s - {x});
    }
  }

  /** Adding `b` on the subset `gain` and taking it away on the subset `loss`. */
  lemma {:induction false} SumShift<K>(after: map<K, real>, before: map<K, real>, b: map<K, real>,
                                       s: set<K>, gain: set<K>, loss: set<K>)
    requires s <= after.Keys && s <= before.Keys && s <= b.Keys && gain <= s && loss <= s
    requires forall x :: x in s ==>
               after[x] == before[x] + (if x in gain then b[x] else 0.0) - (if x in loss then b[x] else 0.0)
    ensures Sum(after, s) == Sum(before, s) + Sum(b, gain) - Sum(b, loss)
    decreases s
  {
    if x :| x in s {
      SumTake(after, s, x);
      SumTake(before, s, x);
      if x in gain { SumTake(b, gain, x); } else { assert gain - {x} == gain; }
      if x in loss { SumTake(b, loss, x); } else { assert loss - {x} == loss; }
      SumShift(after, before, b, s - {x}, gain - {x}, loss - {x});
    }
  }

  /** Adding up one value at a time, in whatever order the keys come. */
  method SumValues<K(==)>(t: map<K, real>) returns (total: real)
    ensures total == Sum(t, t.Keys)
  {
    total := 0.0;
    var todo := t.Keys;
    while todo != {}
      invariant todo <= t.Keys
      invariant total == Sum(t, t.Keys - todo)
      decreases todo
    {
      var x :| x in todo;
      SumTake(t, t.Keys - (todo - {x}), x);
      assert t.Keys - (todo - {x}) - {x} == t.Keys - todo;
      total := total + t[x];
      todo := todo - {x};
    }
    assert t.Keys - todo == t.Keys;
  }
}
