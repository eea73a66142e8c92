/** A donor carries out its row of the plan: it takes as many connections as the row asks for and tells them,
    one after the other, which server to move to. */
module Dispatcher {
  import opened Common
  import opened SessionRegistry

  /** What one slot of the connection list leads to: a connection told to go to a server. */
  datatype Move = Move(conn: Socket, server: string)

  datatype Outcome =
    | Skipped                              // below the thresholds
    | Panicked                             // negative list length, or a message index out of range
    | Done(log: seq<Option<Move>>)         // one entry per slot

  /** How many slots come before target `j`. */
  function Prefix(amounts: seq<int>, j: nat): int
    requires j <= |amounts|
  {
    Sum(amounts[..j])
  }

  predicate Positive(amounts: seq<int>) {
    forall j :: 0 <= j < |amounts| ==> amounts[j] > 0
  }

  /** Slot `i` goes to target `j`. */
  predicate Serves(amounts: seq<int>, i: int, j: int) {
    0 <= j < |amounts| && Prefix(amounts, j) <= i < Prefix(amounts, j + 1)
  }

  /** A slot that holds a connection, out of `n` in the table, goes to a target without a name. */
  ghost predicate MissesName(names: seq<string>, amounts: seq<int>, n: nat) {
    exists i, j :: Serves(amounts, i, j) && 1 <= i <= n && j >= |names|
  }

  /** Slot by slot, the connections are told the names of the targets the slots go to; the first slot is empty. */
  ghost predicate Carried(table: map<string, Socket>, names: seq<string>, amounts: seq<int>, order: seq<string>,
                          log: seq<Option<Move>>)
    requires Enumerates(order, table.Keys) && |names| == |amounts|
  {
    && |log| == Sum(amounts)
    && forall i, j {:trigger Serves(amounts, i, j)} :: 0 <= i < |log| && Serves(amounts, i, j) ==>
         log[i] == if 1 <= i <= |order| then
                     (assert order[i - 1] in Elems(order); Some(Move(table[order[i - 1]], names[j])))
                   else None
  }

  // ----- Sums

  lemma {:induction false} SumConcat(a: seq<int>, b: seq<int>)
    ensures Sum(a + b) == Sum(a) + Sum(b)
  {
    if a == [] {
      assert a + b == b;
    } else {
      assert (a + b)[1..] == a[1..] + b;
      SumConcat(a[1..], b);
    }
  }

  lemma SumUpdate(s: seq<int>, j: nat, v: int)
    requires j < |s|
    ensures Sum(s[j := v]) == Sum(s) - s[j] + v
  {
    var a, b := s[..j], s[j + 1..];
    assert s == a + ([s[j]] + b) && s[j := v] == a + ([v] + b);
    SumConcat(a, [s[j]] + b);
    SumConcat(a, [v] + b);
    assert ([s[j]] + b)[1..] == b && ([v] + b)[1..] == b;
  }

  lemma {:induction false} SumZero(s: seq<int>)
    requires forall j :: 0 <= j < |s| ==> s[j] == 0
    ensures Sum(s) == 0
  {
    if s != [] {
      SumZero(s[1..]);
    }
  }

  lemma PrefixStep(amounts: seq<int>, j: nat)
    requires j < |amounts|
    ensures Prefix(amounts, j + 1) == Prefix(amounts, j) + amounts[j]
  {
    assert amounts[..j + 1] == amounts[..j] + [amounts[j]];
    SumConcat(amounts[..j], [amounts[j]]);
  }

  lemma {:induction false} PrefixMonotone(amounts: seq<int>, j: nat, k: nat)
    requires Positive(amounts) && j <= k <= |amounts|
    ensures Prefix(amounts, j) <= Prefix(amounts, k)
    decreases k
  {
    if j < k {
      PrefixMonotone(amounts, j, k - 1);
      PrefixStep(amounts, k - 1);
    }
  }

  // ----- The loop

  method ProcessTask(table: Connection, meanws: int, names: seq<string>, amounts: seq<int>, order: seq<string>)
    returns (out: Outcome)
    requires Enumerates(order, table.soketMap.Keys)
    ensures out.Skipped? <==> table.count - meanws < 20 || (meanws != 0 && table.count <= 1)
    ensures meanws >= 0 ==> (out.Skipped? <==> table.count - meanws < 20)
    ensures !out.Skipped? && Sum(amounts) < 0 ==> out.Panicked?
    ensures out.Panicked? ==> Sum(amounts) < 0 || |names| < |amounts|
    ensures out.Done? ==> |out.log| == Sum(amounts)
    ensures Positive(amounts) && !out.Skipped? ==> (out.Panicked? <==> MissesName(names, amounts, |order|))
    ensures out.Done? && Positive(amounts) && |names| == |amounts| ==>
              Carried(table.soketMap, names, amounts, order, out.log)
  {
    var number := table.count;
    if number - meanws < 20 {
      return Skipped;
    }
    // The quotient binds tighter than the difference: meanws/meanws is 1, or not a number if meanws is 0.
    if meanws != 0 && number - 1 < 1 {
      return Skipped;
    }
    var total := 0;
    for i := 0 to |amounts|
      invariant total == Prefix(amounts, i)
    {
      PrefixStep(amounts, i);
      total := total + amounts[i];
    }
    assert amounts[..|amounts|] == amounts;
    var conns := table.GetConnByCount(total, order);
    if Positive(amounts) {
      PrefixMonotone(amounts, 0, |amounts|);
    }
    if conns.None? {
      return Panicked;
    }
    var left := amounts;
    var severNumber := 0;
    var log: seq<Option<Move>> := [];
    for i := 0 to |conns.value|
      invariant |left| == |amounts| && |log| == i && 0 <= severNumber <= |left|
      invariant forall j :: 0 <= j < severNumber ==> left[j] == 0
      invariant Sum(left) >= total - i
      invariant Positive(amounts) ==> forall j :: severNumber < j < |left| ==> left[j] == amounts[j]
      invariant Positive(amounts) && severNumber < |left| ==>
                  1 <= left[severNumber] <= amounts[severNumber]
                    && i == Prefix(amounts, severNumber) + amounts[severNumber] - left[severNumber]
      invariant Positive(amounts) ==>
                  forall q, j {:trigger Serves(amounts, q, j)} :: 0 <= q < i && Serves(amounts, q, j) ==>
                  LogEntry(conns.value[q], names, j, log[q])
    {
      if severNumber == |left| {
        SumZero(left);
        assert false;
      }
      var entry: Option<Move> := None;
      ghost var target := severNumber;
      if left[severNumber] > 0 {
        match conns.value[i] {
          case Some(conn) =>
            if severNumber >= |names| {
              PrefixStep(amounts, severNumber);
              assert Positive(amounts) ==> Serves(amounts, i, severNumber);
              return Panicked;
            }
            entry := Some(Move(conn, names[severNumber]));
          case None =>
        }
        SumUpdate(left, severNumber, left[severNumber] - 1);
        left := left[severNumber := left[severNumber] - 1];
      }
      log := log + [entry];
      if Positive(amounts) {
        PrefixStep(amounts, target);
        assert Serves(amounts, i, target);
        forall j | Serves(amounts, i, j)
          ensures j == target
        {
          ServedOnce(amounts, i, j, target);
        }
      }
      if left[severNumber] == 0 {
        severNumber := severNumber + 1;
      }
    }
    if Positive(amounts) {
      forall i, j | Serves(amounts, i, j) && 1 <= i <= |order|
        ensures j < |names|
      {
        ServedWithin(amounts, i, j);
      }
    }
    return Done(log);
  }

  /** The entry of a slot that goes to target `j`. */
  predicate LogEntry(conn: Option<Socket>, names: seq<string>, j: int, entry: Option<Move>) {
    if conn.None? then entry == None else 0 <= j < |names| && entry == Some(Move(conn.value, names[j]))
  }

  // ----- Who gets what

  lemma ServedWithin(amounts: seq<int>, i: int, j: int)
    requires Positive(amounts) && Serves(amounts, i, j)
    ensures 0 <= i < Sum(amounts)
  {
    assert amounts[..|amounts|] == amounts;
    PrefixMonotone(amounts, 0, j);
    PrefixMonotone(amounts, j + 1, |amounts|);
  }

  lemma ServedOnce(amounts: seq<int>, i: int, j: int, k: int)
    requires Positive(amounts) && Serves(amounts, i, j) && Serves(amounts, i, k)
    ensures j == k
  {
    if j < k {
      PrefixMonotone(amounts, j + 1, k);
    } else if k < j {
      PrefixMonotone(amounts, k + 1, j);
    }
  }

  lemma {:induction false} ServedByPrefix(amounts: seq<int>, i: int, n: nat) returns (j: nat)
    requires Positive(amounts) && 0 < n <= |amounts| && 0 <= i < Prefix(amounts, n)
    ensures j < n && Serves(amounts, i, j)
    decreases n
  {
    assert Prefix(amounts, 0) == 0;
    if i >= Prefix(amounts, n - 1) {
      j := n - 1;
    } else {
      j := ServedByPrefix(amounts, i, n - 1);
    }
  }

  predicate Within(i: int, lo: int, hi: int) {
    lo <= i < hi
  }

  function Interval(lo: int, hi: int): set<int> {
    set i | lo <= i < hi && Within(i, lo, hi)
  }

  lemma {:induction false} IntervalSize(lo: int, hi: int)
    requires lo <= hi
    ensures |Interval(lo, hi)| == hi - lo
    decreases hi - lo
  {
    if lo < hi {
      IntervalSize(lo, hi - 1);
      assert Interval(lo, hi) == Interval(lo, hi - 1) + {hi - 1};
    } else {
      assert Interval(lo, hi) == {};
    }
  }

  /** The slots of target `j`. */
  function SlotsOf(amounts: seq<int>, j: nat): set<int> {
    set i | 0 <= i < Sum(amounts) && Serves(amounts, i, j)
  }

  ghost predicate HasOneTarget(amounts: seq<int>, i: int) {
    exists j :: Serves(amounts, i, j) && forall k :: Serves(amounts, i, k) ==> k == j
  }

  /** Positive amounts cut the slots into consecutive runs: every slot goes to exactly one target and target
      `j` has exactly `amounts[j]` slots. */
  lemma SlotsArePartitioned(amounts: seq<int>)
    requires Positive(amounts)
    ensures forall i :: 0 <= i < Sum(amounts) ==> HasOneTarget(amounts, i)
    ensures forall j: nat :: j < |amounts| ==> |SlotsOf(amounts, j)| == amounts[j]
  {
    assert amounts[..|amounts|] == amounts;
    forall i | 0 <= i < Sum(amounts)
      ensures HasOneTarget(amounts, i)
    {
      var j := ServedByPrefix(amounts, i, |amounts|);
      forall k | Serves(amounts, i, k)
        ensures k == j
      {
        ServedOnce(amounts, i, j, k);
      }
    }
    forall j: nat | j < |amounts|
      ensures |SlotsOf(amounts, j)| == amounts[j]
    {
      PrefixStep(amounts, j);
      PrefixMonotone(amounts, j + 1, |amounts|);
      PrefixMonotone(amounts, 0, j);
      assert SlotsOf(amounts, j) == Interval(Prefix(amounts, j), Prefix(amounts, j + 1));
      IntervalSize(Prefix(amounts, j), Prefix(amounts, j + 1));
    }
  }

  /** The slots of target `j` that hold a connection, when `n` connections are in the table: the first slot
      never does. */
  function Reached(amounts: seq<int>, j: nat, n: nat): set<int> {
    set i | 0 <= i < Sum(amounts) && Serves(amounts, i, j) && 1 <= i <= n
  }

  /** Which slots of target `j` hold a connection: those of its run from the second slot up to the size of the table. */
  lemma ReachedIs(amounts: seq<int>, j: nat, n: nat)
    requires Positive(amounts) && j < |amounts|
    ensures var lo, hi := if j == 0 then 1 else Prefix(amounts, j), Min(Prefix(amounts, j + 1), n + 1);
            && Reached(amounts, j, n) == Interval(lo, hi)
            && |Reached(amounts, j, n)| == if lo <= hi then hi - lo else 0
  {
    var lo, hi := if j == 0 then 1 else Prefix(amounts, j), Min(Prefix(amounts, j + 1), n + 1);
    assert amounts[..|amounts|] == amounts;
    assert Prefix(amounts, 0) == 0;
    PrefixStep(amounts, 0);
    PrefixMonotone(amounts, j + 1, |amounts|);
    if j > 0 {
      PrefixMonotone(amounts, 1, j);
    }
    assert forall i :: Serves(amounts, i, j) <==> Prefix(amounts, j) <= i < Prefix(amounts, j + 1);
    assert Reached(amounts, j, n) == Interval(lo, hi);
    if lo <= hi {
      IntervalSize(lo, hi);
    } else {
      assert Interval(lo, hi) == {};
    }
  }

  /** Exactly which targets get the connections they were promised: not the first, and of the others those whose last
      slot the table reaches. */
  lemma TargetServedIff(amounts: seq<int>, j: nat, n: nat)
    requires Positive(amounts) && j < |amounts|
    ensures |Reached(amounts, j, n)| <= amounts[j]
    ensures |Reached(amounts, j, n)| == amounts[j] <==> j > 0 && Prefix(amounts, j + 1) - 1 <= n
  {
    ReachedIs(amounts, j, n);
    PrefixStep(amounts, j);
    assert Prefix(amounts, 0) == 0;
    if j > 0 {
      PrefixMonotone(amounts, 0, j);
    }
  }

  /** With enough connections in the table every target but the first gets exactly the connections it was
      promised, and the first gets one fewer. */
  lemma FirstTargetGetsOneLess(amounts: seq<int>, n: nat)
    requires Positive(amounts) && Sum(amounts) - 1 <= n
    ensures forall j: nat :: j < |amounts| ==> |Reached(amounts, j, n)| == if j == 0 then amounts[j] - 1 else amounts[j]
  {
    assert amounts[..|amounts|] == amounts;
    forall j: nat | j < |amounts|
      ensures |Reached(amounts, j, n)| == if j == 0 then amounts[j] - 1 else amounts[j]
    {
      ReachedIs(amounts, j, n);
      PrefixStep(amounts, j);
      PrefixMonotone(amounts, j + 1, |amounts|);
      assert Prefix(amounts, 0) == 0;
    }
  }

  /** The slots of a carried-out row that hold a connection. */
  function Told(log: seq<Option<Move>>): set<int> {
    set i | 0 <= i < |log| && log[i].Some?
  }

  /** Of the total the row asks for, one connection fewer is moved, or the whole table if it has no more. */
  lemma RowMovesIs(table: map<string, Socket>, names: seq<string>, amounts: seq<int>, order: seq<string>,
                   log: seq<Option<Move>>)
    requires Enumerates(order, table.Keys) && |names| == |amounts| && Positive(amounts) && amounts != []
    requires Carried(table, names, amounts, order, log)
    ensures |Told(log)| == Min(Sum(amounts) - 1, |order|)
  {
    assert amounts[..|amounts|] == amounts;
    PrefixStep(amounts, 0);
    PrefixMonotone(amounts, 1, |amounts|);
    var hi := Min(Sum(amounts), |order| + 1);
    forall i | 0 <= i < |log|
      ensures i in Told(log) <==> i in Interval(1, hi)
    {
      var j := ServedByPrefix(amounts, i, |amounts|);
    }
    assert Told(log) == Interval(1, hi);
    IntervalSize(1, hi);
  }
}
