/** The gRPC resolvers: each list of endpoints from the registry is deduplicated through a set, listed in whatever
    order Go ranges over the set, sorted by address and sent to the balancer. */
module Endpoints {
  import opened Common

  // ----- The order of addresses

  /** Go's string order. */
  predicate Less(a: string, b: string) {
    if b == [] then false
    else if a == [] then true
    else a[0] < b[0] || (a[0] == b[0] && Less(a[1..], b[1..]))
  }

  /** A proper prefix comes first, and otherwise the first difference decides. */
  lemma {:induction false} LessIs(a: string, b: string)
    ensures Less(a, b) <==>
            (a < b || exists i :: 0 <= i < |a| && i < |b| && a[..i] == b[..i] && a[i] < b[i])
  {
    if a != [] && b != [] && a[0] == b[0] {
      LessIs(a[1..], b[1..]);
      forall i | 0 <= i < |a| && i < |b|
        ensures a[..i] == b[..i] && a[i] < b[i] ==>
                  i > 0 && a[1..][..i - 1] == b[1..][..i - 1] && a[1..][i - 1] < b[1..][i - 1]
      {
        if a[..i] == b[..i] && i > 0 {
          assert a[1..][..i - 1] == a[..i][1..] && b[1..][..i - 1] == b[..i][1..];
        }
      }
      if i :| 0 <= i < |a[1..]| && i < |b[1..]| && a[1..][..i] == b[1..][..i] && a[1..][i] < b[1..][i] {
        assert a[..i + 1] == [a[0]] + a[1..][..i] && b[..i + 1] == [b[0]] + b[1..][..i];
        assert a[..i + 1] == b[..i + 1] && a[i + 1] < b[i + 1];
      }
      assert a < b <==> a[1..] < b[1..] by {
        assert a == [a[0]] + a[1..] && b == [b[0]] + b[1..];
      }
    } else if a != [] && b != [] {
      assert a[..0] == b[..0];
      assert forall i :: 0 < i < |a| && i < |b| && a[..i] == b[..i] ==> a[..i][0] == b[..i][0];
    }
  }

  lemma {:induction false} LessAsymmetric(a: string, b: string)
    ensures !(Less(a, b) && Less(b, a))
  {
    if a != [] && b != [] {
      LessAsymmetric(a[1..], b[1..]);
    }
  }

  lemma {:induction false} LessTransitive(a: string, b: string, c: string)
    requires Less(a, b) && Less(b, c)
    ensures Less(a, c)
  {
    if a != [] && b != [] && c != [] && a[0] == b[0] == c[0] {
      LessTransitive(a[1..], b[1..], c[1..]);
    }
  }

  lemma {:induction false} LessTotal(a: string, b: string)
    ensures Less(a, b) || Less(b, a) || a == b
  {
    if a != [] && b != [] && a[0] == b[0] {
      LessTotal(a[1..], b[1..]);
      assert a == [a[0]] + a[1..] && b == [b[0]] + b[1..];
    }
  }

  /** What a sort by `Less` establishes between neighbours. */
  lemma NotLessTransitive(a: string, b: string, c: string)
    requires !Less(b, a) && !Less(c, b)
    ensures !Less(c, a)
  {
    LessTotal(a, b);
    LessTotal(b, c);
    if Less(a, b) && Less(b, c) {
      LessTransitive(a, b, c);
    }
    LessAsymmetric(a, c);
  }

  predicate Increasing(s: seq<string>) {
    forall i, j :: 0 <= i < j < |s| ==> Less(s[i], s[j])
  }

  predicate Sorted(s: seq<string>, n: nat)
    requires n <= |s|
  {
    forall i, j :: 0 <= i < j < n ==> !Less(s[j], s[i])
  }

  // ----- Sorting in place

  method Swap(a: array<string>, i: nat, j: nat)
    requires i < a.Length && j < a.Length
    modifies a
    ensures a[..] == old(a[..])[i := old(a[j])][j := old(a[i])]
    ensures multiset(a[..]) == multiset(old(a[..]))
  {
    a[i], a[j] := a[j], a[i];
  }

  /** The elements before and after position `j` of the first `i + 1` are in order, and the one at `j` belongs
      before those after it. */
  predicate Sinking(s: seq<string>, j: nat, i: nat)
    requires j <= i < |s|
  {
    && (forall p, q :: 0 <= p < q <= i && p != j && q != j ==> !Less(s[q], s[p]))
    && (forall q :: j < q <= i ==> !Less(s[q], s[j]))
  }

  lemma SinkOne(s: seq<string>, j: nat, i: nat)
    requires 0 < j <= i < |s| && Sinking(s, j, i) && Less(s[j], s[j - 1])
    ensures Sinking(s[j := s[j - 1]][j - 1 := s[j]], j - 1, i)
  {
    LessAsymmetric(s[j], s[j - 1]);
  }

  lemma SinkDone(s: seq<string>, j: nat, i: nat)
    requires j <= i < |s| && Sinking(s, j, i) && (j == 0 || !Less(s[j], s[j - 1]))
    ensures Sorted(s, i + 1)
  {
    forall p, q | 0 <= p < q < i + 1
      ensures !Less(s[q], s[p])
    {
      if q == j && p < j - 1 {
        NotLessTransitive(s[p], s[j - 1], s[j]);
      }
    }
  }

  /** Sort by address. */
  method SortByAddress(a: array<string>)
    modifies a
    ensures Sorted(a[..], a.Length) && multiset(a[..]) == multiset(old(a[..]))
  {
    for i := 0 to a.Length
      invariant Sorted(a[..], i) && multiset(a[..]) == multiset(old(a[..]))
    {
      var j := i;
      while j > 0 && Less(a[j], a[j - 1])
        invariant j <= i && Sinking(a[..], j, i) && multiset(a[..]) == multiset(old(a[..]))
        decreases j
      {
        SinkOne(a[..], j, i);
        Swap(a, j, j - 1);
        j := j - 1;
      }
      SinkDone(a[..], j, i);
    }
  }

  // ----- One update

  /** The address list of an update: the input's addresses, each once, in increasing order. */
  predicate Canonical(list: seq<string>, input: seq<string>) {
    Increasing(list) && Elems(list) == Elems(input)
  }

  /** `order` is the order in which Go ranges over the set of addresses. */
  method Update(input: seq<string>, order: seq<string>) returns (conns: seq<string>)
    requires Enumerates(order, Elems(input))
    ensures Canonical(conns, input)
  {
    var connsSet: set<string> := {};
    for i := 0 to |input|
      invariant connsSet == Elems(input[..i])
    {
      assert input[..i + 1] == input[..i] + [input[i]];
      connsSet := connsSet + {input[i]};
    }
    assert input[..|input|] == input;
    var a := new string[|connsSet|](_ => "");
    EnumerationLength(order, connsSet);
    for i := 0 to |order|
      invariant a[..i] == order[..i]
    {
      a[i] := order[i];
    }
    assert a[..] == order;
    SortByAddress(a);
    PermutationIncreasing(a[..], order);
    return a[..];
  }

  lemma PermutationIncreasing(s: seq<string>, order: seq<string>)
    requires multiset(s) == multiset(order) && Distinct(order) && Sorted(s, |s|)
    ensures Increasing(s) && Elems(s) == Elems(order)
  {
    forall x
      ensures x in s <==> x in order
    {
      assert x in multiset(s) <==> x in multiset(order);
    }
    forall i, j | 0 <= i < j < |s|
      ensures Less(s[i], s[j])
    {
      LessTotal(s[i], s[j]);
      DistinctCount(order, s[i]);
      var front, back := s[..j], s[j..];
      assert s == front + back && front[i] in front && back[0] in back;
      assert multiset(s)[s[i]] == multiset(front)[s[i]] + multiset(back)[s[i]];
      assert s[i] !in back;
    }
  }

  lemma {:induction false} DistinctCount(s: seq<string>, x: string)
    requires Distinct(s)
    ensures multiset(s)[x] <= 1
  {
    if s != [] {
      DistinctTail(s);
      DistinctCount(s[1..], x);
      assert s == [s[0]] + s[1..];
    }
  }

  /** The list does not depend on the iteration order, on duplicates or on the order of the input: two updates
      send the same list exactly when their inputs have the same addresses. */
  lemma {:induction false} CanonicalFormIff(list: seq<string>, input: seq<string>, list': seq<string>,
                                            input': seq<string>)
    requires Canonical(list, input) && Canonical(list', input')
    ensures list == list' <==> Elems(input) == Elems(input')
  {
    if Elems(list) == Elems(list') {
      IncreasingUnique(list, list');
    }
  }

  lemma {:induction false} IncreasingUnique(s: seq<string>, t: seq<string>)
    requires Increasing(s) && Increasing(t) && Elems(s) == Elems(t)
    ensures s == t
  {
    if s == [] {
      assert forall i :: 0 <= i < |t| ==> t[i] in Elems(t);
    } else {
      assert s[0] in Elems(t);
      assert t != [] && t[0] in Elems(s);
      var i :| 0 <= i < |s| && s[i] == t[0];
      var j :| 0 <= j < |t| && t[j] == s[0];
      LessAsymmetric(s[0], t[0]);
      assert s[0] == t[0];
      IncreasingTail(s);
      IncreasingTail(t);
      IncreasingUnique(s[1..], t[1..]);
      assert s == [s[0]] + s[1..] && t == [t[0]] + t[1..];
    }
  }

  lemma IncreasingTail(s: seq<string>)
    requires s != [] && Increasing(s)
    ensures Increasing(s[1..]) && Elems(s[1..]) == Elems(s) - {s[0]}
  {
    LessAsymmetric(s[0], s[0]);
    assert forall i, j :: 0 <= i < j < |s| ==> s[i] != s[j] by {
      forall i, j | 0 <= i < j < |s|
        ensures s[i] != s[j]
      {
        LessAsymmetric(s[i], s[j]);
      }
    }
    DistinctTail(s);
  }

  /** The watch loop: one state is sent per input, in order. */
  method PopulateEndpoints(inputs: seq<seq<string>>, orders: seq<seq<string>>) returns (states: seq<seq<string>>)
    requires |orders| == |inputs| && forall i :: 0 <= i < |inputs| ==> Enumerates(orders[i], Elems(inputs[i]))
    ensures |states| == |inputs| && forall i :: 0 <= i < |inputs| ==> Canonical(states[i], inputs[i])
  {
    states := [];
    for i := 0 to |inputs|
      invariant |states| == i && forall k :: 0 <= k < i ==> Canonical(states[k], inputs[k])
    {
      var conns := Update(inputs[i], orders[i]);
      states := states + [conns];
    }
  }
}
