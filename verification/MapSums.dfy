/** Sums over maps and over sequences of their keys, in any order. */
module MapSums {
  import opened Common

  ghost function SumMap(m: map<string, int>): int {
    if m == map[] then 0
    else
      var k :| k in m;
      m[k] + SumMap(m - {k})
  }

  lemma {:induction false} SumMapRemove(m: map<string, int>, k: string)
    requires k in m
    ensures SumMap(m) == m[k] + SumMap(m - {k})
    decreases |m|
  {
    var k' :| k' in m && SumMap(m) == m[k'] + SumMap(m - {k'});
    if k != k' {
      SumMapRemove(m - {k'}, k);
      SumMapRemove(m - {k}, k');
      assert m - {k'} - {k} == m - {k} - {k'};
    }
  }

  lemma SumMapUpdate(m: map<string, int>, k: string, v: int)
    requires k in m
    ensures SumMap(m[k := v]) == SumMap(m) - m[k] + v
  {
    SumMapRemove(m, k);
    SumMapRemove(m[k := v], k);
    assert m[k := v] - {k} == m - {k};
  }

  predicate NonNegative(m: map<string, int>) {
    forall k :: k in m ==> m[k] >= 0
  }

  lemma {:induction false} SumMapNonNegative(m: map<string, int>)
    requires NonNegative(m)
    ensures SumMap(m) >= 0
    ensures SumMap(m) == 0 <==> forall k :: k in m ==> m[k] == 0
    decreases |m|
  {
    if m != map[] {
      var k :| k in m;
      SumMapRemove(m, k);
      var rest := m - {k};
      SumMapNonNegative(rest);
      assert forall k' :: k' in m && k' != k ==> k' in rest && m[k'] == rest[k'];
      assert forall k' :: k' in rest ==> k' in m && m[k'] == rest[k'];
    }
  }

  lemma {:induction false} SumMapMonotone(m: map<string, int>, m': map<string, int>)
    requires m.Keys == m'.Keys && forall k :: k in m ==> m[k] <= m'[k]
    ensures SumMap(m) <= SumMap(m')
    decreases |m|
  {
    if m != map[] {
      var k :| k in m;
      SumMapMonotone(m - {k}, m' - {k});
      SumMapRemove(m, k);
      SumMapRemove(m', k);
    } else {
      assert m' == map[];
    }
  }

  function SumOver(order: seq<string>, m: map<string, int>): int
    requires forall k :: k in order ==> k in m
  {
    if order == [] then 0 else m[order[0]] + SumOver(order[1..], m)
  }

  lemma {:induction false} SumOverConcat(a: seq<string>, b: seq<string>, m: map<string, int>)
    requires forall k :: k in a + b ==> k in m
    ensures forall k :: k in a ==> k in a + b
    ensures forall k :: k in b ==> k in a + b
    ensures SumOver(a + b, m) == SumOver(a, m) + SumOver(b, m)
  {
    assert forall k :: k in a || k in b ==> k in a + b;
    if a == [] {
      assert a + b == b;
    } else {
      assert (a + b)[1..] == a[1..] + b;
      SumOverConcat(a[1..], b, m);
    }
  }

  lemma {:induction false} SumOverNonNegative(order: seq<string>, m: map<string, int>)
    requires (forall k :: k in order ==> k in m) && NonNegative(m)
    ensures SumOver(order, m) >= 0
  {
    if order != [] {
      SumOverNonNegative(order[1..], m);
    }
  }

  /** The sum along an iteration order does not depend on the order. */
  lemma {:induction false} SumOverIsSumMap(order: seq<string>, m: map<string, int>)
    requires Enumerates(order, m.Keys)
    ensures forall k :: k in order ==> k in Elems(order)
    ensures SumOver(order, m) == SumMap(m)
  {
    assert forall k :: k in order ==> k in Elems(order);
    if order == [] {
      assert m == map[] by {
        assert m.Keys == {};
      }
    } else {
      DistinctTail(order);
      var rest := m - {order[0]};
      assert rest.Keys == m.Keys - {order[0]};
      SumOverIsSumMap(order[1..], rest);
      SumOverAgree(order[1..], m, rest);
      SumMapRemove(m, order[0]);
    }
  }

  lemma {:induction false} SumOverAgree(order: seq<string>, m: map<string, int>, m': map<string, int>)
    requires forall k :: k in order ==> k in m && k in m' && m[k] == m'[k]
    ensures SumOver(order, m) == SumOver(order, m')
  {
    if order != [] {
      SumOverAgree(order[1..], m, m');
    }
  }
}
