/** Small vocabulary shared by the other modules. */
module Common {

  datatype Option<+T> = None | Some(value: T)

  /** No element occurs twice. */
  predicate Distinct<T(==)>(s: seq<T>) {
    forall i, j :: 0 <= i < j < |s| ==> s[i] != s[j]
  }

  function Elems<T>(s: seq<T>): set<T> {
    set x | x in s
  }

  /** `order` is one of the orders in which Go may range over a map with these keys. */
  predicate Enumerates<T(==)>(order: seq<T>, keys: set<T>) {
    Distinct(order) && Elems(order) == keys
  }

  function Sum(s: seq<int>): int {
    if s == [] then 0 else s[0] + Sum(s[1..])
  }

  function Min(a: int, b: int): int {
    if a < b then a else b
  }

  lemma DistinctTail<T>(s: seq<T>)
    requires s != [] && Distinct(s)
    ensures Distinct(s[1..]) && s[0] !in s[1..]
    ensures Elems(s[1..]) == Elems(s) - {s[0]}
  {
    assert forall x :: x in s <==> x == s[0] || x in s[1..];
  }

  /** A map of `n` keys is enumerated in exactly `n` steps. */
  lemma {:induction false} EnumerationLength<T>(order: seq<T>, keys: set<T>)
    requires Enumerates(order, keys)
    ensures |order| == |keys|
  {
    if order != [] {
      DistinctTail(order);
      EnumerationLength(order[1..], keys - {order[0]});
    } else {
      assert keys == {};
    }
  }

  /** Every finite set of keys has an iteration order. */
  lemma {:induction false} EnumerationExists<T>(keys: set<T>) returns (order: seq<T>)
    ensures Enumerates(order, keys)
  {
    if keys == {} {
      order := [];
    } else {
      var x :| x in keys;
      var rest := EnumerationExists(keys - {x});
      order := [x] + rest;
      assert Elems(order) == {x} + Elems(rest);
    }
  }

  lemma {:induction false} SubsetSize<T>(a: set<T>, b: set<T>)
    requires a <= b
    ensures |a| <= |b|
    ensures |a| == |b| ==> a == b
    decreases |a|
  {
    if a != {} {
      var x :| x in a;
      SubsetSize(a - {x}, b - {x});
      assert a == a - {x} + {x} && b == b - {x} + {x};
    }
  }
}
