/** The rebalancing planner: servers more than 20% above the mean hand their surplus to servers more than 20%
    below it. Go ranges over maps in an arbitrary order, so every order is a parameter here. */
module Planner {
  import opened Common
  import opened MapSums

  /** One donor's orders: `amounts[i]` connections go to `names[i]`. */
  datatype Row = Row(names: seq<string>, amounts: seq<int>)

  const EMPTY_ROW := Row([], [])

  /** Go's integer division, for a positive divisor. */
  function GoDiv(a: int, b: int): int
    requires b > 0
  {
    if a >= 0 then a / b else -(-a / b)
  }

  /** It rounds towards zero. */
  lemma GoDivTruncates(a: int, b: int)
    requires b > 0
    ensures a >= 0 ==> 0 <= a - GoDiv(a, b) * b < b
    ensures a < 0 ==> -b < a - GoDiv(a, b) * b <= 0
  {
  }

  // ----- One donor

  /** The row dealt, the receivers' remaining capacities, and the variable that started as the surplus. */
  datatype Dealt = Dealt(row: Row, recv: map<string, int>, left: int)

  function Give(row: Row, name: string, amount: int): Row {
    Row(row.names + [name], row.amounts + [amount])
  }

  function Before(name: string, amount: int, d: Dealt): Dealt {
    d.(row := Row([name] + d.row.names, [amount] + d.row.amounts))
  }

  /** The inner loop. `stop` says whether it ends once the surplus is placed; the code goes on (`stop` false),
      and every later receiver with room is given the last remainder again. */
  function Deal(order: seq<string>, recv: map<string, int>, surplus: int, stop: bool): (d: Dealt)
    requires forall r :: r in order ==> r in recv
    ensures d.recv.Keys == recv.Keys
    decreases |order|
  {
    if order == [] then Dealt(EMPTY_ROW, recv, surplus)
    else
      var r, room := order[0], recv[order[0]];
      if room == 0 then Deal(order[1..], recv, surplus, stop)
      else if room < surplus then Before(r, room, Deal(order[1..], recv[r := 0], surplus - room, stop))
      else if stop then Dealt(Row([r], [surplus]), recv[r := room - surplus], surplus)
      else Before(r, surplus, Deal(order[1..], recv[r := room - surplus], surplus, stop))
  }

  function Prefix(row: Row, d: Dealt): Dealt {
    d.(row := Row(row.names + d.row.names, row.amounts + d.row.amounts))
  }

  /** One iteration: what remains to be dealt after it, behind the row dealt so far. */
  lemma DealStep(row: Row, order: seq<string>, recv: map<string, int>, left: int)
    requires (forall r :: r in order ==> r in recv) && order != []
    ensures var r, room := order[0], recv[order[0]];
            var now := Prefix(row, Deal(order, recv, left, false));
            if room == 0 then now == Prefix(row, Deal(order[1..], recv, left, false))
            else if room < left then
              now == Prefix(Give(row, r, room), Deal(order[1..], recv[r := 0], left - room, false))
            else now == Prefix(Give(row, r, left), Deal(order[1..], recv[r := room - left], left, false))
  {
    var r, room := order[0], recv[order[0]];
    var given := if room < left then room else left;
    var d := if room < left then Deal(order[1..], recv[r := 0], left - room, false)
             else Deal(order[1..], recv[r := room - left], left, false);
    assert row.names + ([r] + d.row.names) == Give(row, r, given).names + d.row.names;
    assert row.amounts + ([given] + d.row.amounts) == Give(row, r, given).amounts + d.row.amounts;
  }

  /** The loop of the code over one donor. */
  method DealDonor(order: seq<string>, capacities: map<string, int>, surplus: int) returns (d: Dealt)
    requires forall r :: r in order ==> r in capacities
    ensures d == Deal(order, capacities, surplus, false)
  {
    var row, recv, left := EMPTY_ROW, capacities, surplus;
    ghost var all := Deal(order, capacities, surplus, false);
    assert Prefix(EMPTY_ROW, all) == all && order[0..] == order;
    for i := 0 to |order|
      invariant Dealing(all, row, order[i..], recv, left)
    {
      DealingNext(all, row, order[i..], recv, left);
      assert order[i..][1..] == order[i + 1..];
      var r := order[i];
      var room := recv[r];
      if room == 0 {
        continue;
      }
      if room < left {
        left := left - room;
        row := Give(row, r, room);
        recv := recv[r := 0];
      } else {
        recv := recv[r := room - left];
        row := Give(row, r, left);
      }
    }
    d := Dealt(row, recv, left);
    assert Prefix(row, Dealt(EMPTY_ROW, recv, left)) == d;
  }

  /** Behind the row dealt so far comes what the rest of the order gets. */
  predicate Dealing(all: Dealt, row: Row, order: seq<string>, recv: map<string, int>, left: int) {
    (forall r :: r in order ==> r in recv) && all == Prefix(row, Deal(order, recv, left, false))
  }

  lemma DealingNext(all: Dealt, row: Row, order: seq<string>, recv: map<string, int>, left: int)
    requires Dealing(all, row, order, recv, left) && order != []
    ensures order[0] in recv
    ensures var r, room := order[0], recv[order[0]];
            if room == 0 then Dealing(all, row, order[1..], recv, left)
            else if room < left then Dealing(all, Give(row, r, room), order[1..], recv[r := 0], left - room)
            else Dealing(all, Give(row, r, left), order[1..], recv[r := room - left], left)
  {
    DealStep(row, order, recv, left);
  }

  /** What the row gives to one receiver. */
  function Given(row: Row, r: string): int
    requires |row.names| == |row.amounts|
    decreases |row.names|
  {
    if row.names == [] then 0
    else (if row.names[0] == r then row.amounts[0] else 0) + Given(Row(row.names[1..], row.amounts[1..]), r)
  }

  predicate RowOk(row: Row, order: seq<string>) {
    && |row.names| == |row.amounts|
    && (forall i :: 0 <= i < |row.amounts| ==> row.amounts[i] > 0)
    && Distinct(row.names)
    && forall r :: r in row.names ==> r in order
  }

  predicate DealPre(order: seq<string>, recv: map<string, int>, surplus: int) {
    Distinct(order) && (forall r :: r in order ==> r in recv) && NonNegative(recv) && surplus > 0
  }

  lemma DealPreTail(order: seq<string>, recv: map<string, int>, surplus: int, room: int, left: int)
    requires DealPre(order, recv, surplus) && order != [] && left > 0 && room >= 0
    ensures DealPre(order[1..], recv[order[0] := room], left) && DealPre(order[1..], recv, left)
    ensures order[0] !in order[1..]
  {
    DistinctTail(order);
  }

  lemma BeforeRow(r: string, amount: int, row: Row, order: seq<string>)
    requires order != [] && r == order[0] && r !in order[1..] && amount > 0 && RowOk(row, order[1..])
    ensures RowOk(Row([r] + row.names, [amount] + row.amounts), order)
    ensures Sum([amount] + row.amounts) == amount + Sum(row.amounts)
    ensures forall x :: Given(Row([r] + row.names, [amount] + row.amounts), x) ==
              (if x == r then amount else 0) + Given(row, x)
    ensures Given(row, r) == 0
  {
    var row' := Row([r] + row.names, [amount] + row.amounts);
    assert row'.names[1..] == row.names && row'.amounts[1..] == row.amounts;
    assert Row(row'.names[1..], row'.amounts[1..]) == row;
    NotGiven(row, r);
  }

  lemma {:induction false} NotGiven(row: Row, r: string)
    requires |row.names| == |row.amounts| && r !in row.names
    ensures Given(row, r) == 0
    decreases |row.names|
  {
    if row.names != [] {
      NotGiven(Row(row.names[1..], row.amounts[1..]), r);
    }
  }

  /** Each receiver's allotment plus what is left of its capacity is its capacity, nothing goes below zero, and
      amounts are positive and to distinct receivers. */
  ghost predicate Conserves(order: seq<string>, recv: map<string, int>, d: Dealt) {
    && RowOk(d.row, order) && NonNegative(d.recv) && d.recv.Keys == recv.Keys
    && (forall r :: r in recv ==> Given(d.row, r) + d.recv[r] == recv[r])
  }

  lemma ConservesSkip(order: seq<string>, recv: map<string, int>, d: Dealt)
    requires order != [] && Conserves(order[1..], recv, d)
    ensures Conserves(order, recv, d)
  {
  }

  lemma ConservesBefore(order: seq<string>, recv: map<string, int>, amount: int, d: Dealt)
    requires order != [] && order[0] in recv && order[0] !in order[1..] && amount > 0
    requires Conserves(order[1..], recv[order[0] := recv[order[0]] - amount], d)
    ensures Conserves(order, recv, Before(order[0], amount, d))
  {
    BeforeRow(order[0], amount, d.row, order);
    var recv' := recv[order[0] := recv[order[0]] - amount];
    forall r | r in recv
      ensures Given(Before(order[0], amount, d).row, r) + d.recv[r] == recv[r]
    {
      assert Given(d.row, r) + d.recv[r] == recv'[r];
    }
  }

  lemma {:induction false} DealConserves(order: seq<string>, recv: map<string, int>, surplus: int, stop: bool)
    requires DealPre(order, recv, surplus)
    ensures Conserves(order, recv, Deal(order, recv, surplus, stop))
    decreases |order|
  {
    if order != [] {
      var r, room := order[0], recv[order[0]];
      DealPreTail(order, recv, surplus, 0, surplus);
      if room == 0 {
        DealConserves(order[1..], recv, surplus, stop);
        ConservesSkip(order, recv, Deal(order[1..], recv, surplus, stop));
      } else if room < surplus {
        DealPreTail(order, recv, surplus, 0, surplus - room);
        DealConserves(order[1..], recv[r := 0], surplus - room, stop);
        ConservesBefore(order, recv, room, Deal(order[1..], recv[r := 0], surplus - room, stop));
      } else if stop {
        var d := Dealt(EMPTY_ROW, recv[r := room - surplus], surplus);
        assert Before(r, surplus, d).row == Row([r], [surplus]);
        ConservesBefore(order, recv, surplus, d);
      } else {
        DealPreTail(order, recv, surplus, room - surplus, surplus);
        DealConserves(order[1..], recv[r := room - surplus], surplus, stop);
        ConservesBefore(order, recv, surplus, Deal(order[1..], recv[r := room - surplus], surplus, stop));
      }
    }
  }

  lemma {:induction false} DealUntouched(order: seq<string>, recv: map<string, int>, surplus: int, stop: bool,
                                         r: string)
    requires DealPre(order, recv, surplus) && r in recv && (r !in order || recv[r] == 0)
    ensures Deal(order, recv, surplus, stop).recv[r] == recv[r]
    decreases |order|
  {
    if order != [] {
      var room := recv[order[0]];
      DealPreTail(order, recv, surplus, 0, surplus);
      if room == 0 {
        DealUntouched(order[1..], recv, surplus, stop, r);
      } else if room < surplus {
        DealPreTail(order, recv, surplus, 0, surplus - room);
        DealUntouched(order[1..], recv[order[0] := 0], surplus - room, stop, r);
      } else if !stop {
        DealPreTail(order, recv, surplus, room - surplus, surplus);
        DealUntouched(order[1..], recv[order[0] := room - surplus], surplus, stop, r);
      }
    }
  }

  /** A row lists its receivers in the order in which they were visited. */
  predicate InOrderOf(names: seq<string>, order: seq<string>) {
    forall i, j, p, q ::
      0 <= i < j < |names| && 0 <= p < |order| && 0 <= q < |order| && names[i] == order[p] && names[j] == order[q] ==>
        p < q
  }

  lemma FollowsBefore(r: string, names: seq<string>, order: seq<string>)
    requires order != [] && r == order[0] && Distinct(order) && InOrderOf(names, order[1..])
    requires forall x :: x in names ==> x in order[1..]
    ensures InOrderOf([r] + names, order)
  {
    var all := [r] + names;
    DistinctTail(order);
    forall i, j, p, q | 0 <= i < j < |all| && 0 <= p < |order| && 0 <= q < |order| && all[i] == order[p] &&
                        all[j] == order[q]
      ensures p < q
    {
      assert all[j] == names[j - 1] && names[j - 1] in order[1..];
      if i > 0 {
        assert all[i] == names[i - 1] && names[i - 1] in order[1..];
        assert names[i - 1] == order[1..][p - 1] && names[j - 1] == order[1..][q - 1];
      }
    }
  }

  lemma {:induction false} DealFollowsOrder(order: seq<string>, recv: map<string, int>, surplus: int, stop: bool)
    requires DealPre(order, recv, surplus)
    ensures InOrderOf(Deal(order, recv, surplus, stop).row.names, order)
    decreases |order|
  {
    if order != [] {
      var r, room := order[0], recv[order[0]];
      DealPreTail(order, recv, surplus, 0, surplus);
      if room == 0 {
        DealFollowsOrder(order[1..], recv, surplus, stop);
        DealConserves(order[1..], recv, surplus, stop);
        FollowsSkip(Deal(order[1..], recv, surplus, stop).row.names, order);
      } else if room < surplus {
        DealPreTail(order, recv, surplus, 0, surplus - room);
        DealFollowsOrder(order[1..], recv[r := 0], surplus - room, stop);
        DealConserves(order[1..], recv[r := 0], surplus - room, stop);
        FollowsBefore(r, Deal(order[1..], recv[r := 0], surplus - room, stop).row.names, order);
      } else if !stop {
        DealPreTail(order, recv, surplus, room - surplus, surplus);
        DealFollowsOrder(order[1..], recv[r := room - surplus], surplus, stop);
        DealConserves(order[1..], recv[r := room - surplus], surplus, stop);
        FollowsBefore(r, Deal(order[1..], recv[r := room - surplus], surplus, stop).row.names, order);
      }
    }
  }

  lemma FollowsSkip(names: seq<string>, order: seq<string>)
    requires order != [] && Distinct(order) && InOrderOf(names, order[1..])
    requires forall x :: x in names ==> x in order[1..]
    ensures InOrderOf(names, order)
  {
    DistinctTail(order);
    forall i, j, p, q | 0 <= i < j < |names| && 0 <= p < |order| && 0 <= q < |order| && names[i] == order[p] &&
                        names[j] == order[q]
      ensures p < q
    {
      assert names[i] in order[1..] && names[j] in order[1..];
      assert names[i] == order[1..][p - 1] && names[j] == order[1..][q - 1];
    }
  }

  /** What a donor is asked to move is what the receivers' capacities lose; it covers the surplus unless every
      receiver is full; with the stop it never exceeds the surplus. */
  ghost predicate Places(order: seq<string>, recv: map<string, int>, surplus: int, stop: bool, d: Dealt) {
    var t := Sum(d.row.amounts);
    && d.recv.Keys == recv.Keys
    && t == SumMap(recv) - SumMap(d.recv)
    && (t >= surplus || forall r :: r in order && r in recv ==> d.recv[r] == 0)
    && (stop ==> t <= surplus)
  }

  lemma PlacesBefore(order: seq<string>, recv: map<string, int>, surplus: int, stop: bool, amount: int, left: int,
                     d: Dealt)
    requires order != [] && order[0] in recv
    requires var r := order[0];
             && Places(order[1..], recv[r := recv[r] - amount], left, stop, d)
             && d.recv[r] == recv[r] - amount
             && left == surplus - amount && recv[r] == amount
    ensures Places(order, recv, surplus, stop, Before(order[0], amount, d))
  {
    var r := order[0];
    SumMapUpdate(recv, r, recv[r] - amount);
    assert ([amount] + d.row.amounts)[1..] == d.row.amounts;
    forall x | x in order && x in recv && x != r
      ensures x in order[1..]
    {
    }
  }

  lemma PlacesSkip(order: seq<string>, recv: map<string, int>, surplus: int, stop: bool, d: Dealt)
    requires order != [] && order[0] in recv && Places(order[1..], recv, surplus, stop, d) && d.recv[order[0]] == 0
    ensures Places(order, recv, surplus, stop, d)
  {
    assert forall x :: x in order ==> x == order[0] || x in order[1..];
  }

  lemma PlacesStop(order: seq<string>, recv: map<string, int>, surplus: int)
    requires order != [] && order[0] in recv
    ensures var r := order[0];
            Places(order, recv, surplus, true, Dealt(Row([r], [surplus]), recv[r := recv[r] - surplus], surplus))
  {
    SumMapUpdate(recv, order[0], recv[order[0]] - surplus);
    assert [surplus][1..] == [];
    assert Sum([surplus]) == surplus;
  }

  lemma {:induction false} DealAmount(order: seq<string>, recv: map<string, int>, surplus: int, stop: bool)
    requires DealPre(order, recv, surplus)
    ensures Places(order, recv, surplus, stop, Deal(order, recv, surplus, stop))
    decreases |order|
  {
    if order != [] {
      var r, room := order[0], recv[order[0]];
      DealPreTail(order, recv, surplus, 0, surplus);
      if room == 0 {
        DealUntouched(order[1..], recv, surplus, stop, r);
        DealAmount(order[1..], recv, surplus, stop);
        PlacesSkip(order, recv, surplus, stop, Deal(order[1..], recv, surplus, stop));
      } else if room < surplus {
        DealPreTail(order, recv, surplus, 0, surplus - room);
        DealUntouched(order[1..], recv[r := 0], surplus - room, stop, r);
        DealAmount(order[1..], recv[r := 0], surplus - room, stop);
        PlacesBefore(order, recv, surplus, stop, room, surplus - room,
          Deal(order[1..], recv[r := 0], surplus - room, stop));
      } else if stop {
        PlacesStop(order, recv, surplus);
      } else {
        DealPreTail(order, recv, surplus, room - surplus, surplus);
        var d := Deal(order[1..], recv[r := room - surplus], surplus, stop);
        DealAmount(order[1..], recv[r := room - surplus], surplus, stop);
        DealConserves(order[1..], recv[r := room - surplus], surplus, stop);
        PositiveTotal(d.row.amounts);
        OverfullPlaces(order, recv, surplus, d);
      }
    }
  }

  /** The code goes on after a receiver that took the whole surplus. */
  lemma OverfullPlaces(order: seq<string>, recv: map<string, int>, surplus: int, d: Dealt)
    requires order != [] && order[0] in recv && Sum(d.row.amounts) >= 0
    requires Places(order[1..], recv[order[0] := recv[order[0]] - surplus], surplus, false, d)
    ensures Places(order, recv, surplus, false, Before(order[0], surplus, d))
  {
    SumMapUpdate(recv, order[0], recv[order[0]] - surplus);
    assert ([surplus] + d.row.amounts)[1..] == d.row.amounts;
  }

  // ----- When the missing stop matters

  /** What the first `k` receivers of the order can take. */
  function Room(order: seq<string>, recv: map<string, int>, k: nat): int
    requires (forall r :: r in order ==> r in recv) && k <= |order|
  {
    SumOver(order[..k], recv)
  }

  /** Once the receivers visited so far can take the surplus, only full receivers follow. */
  predicate EndsFull(order: seq<string>, recv: map<string, int>, surplus: int)
    requires forall r :: r in order ==> r in recv
  {
    forall k, j :: 0 < k <= j < |order| && Room(order, recv, k) >= surplus ==> recv[order[j]] == 0
  }

  lemma EndsFullTail(order: seq<string>, recv: map<string, int>, surplus: int)
    requires DealPre(order, recv, surplus) && order != []
    requires recv[order[0]] < surplus
    ensures DealPre(order[1..], recv[order[0] := 0], surplus - recv[order[0]])
    ensures EndsFull(order, recv, surplus) <==> EndsFull(order[1..], recv[order[0] := 0], surplus - recv[order[0]])
  {
    var r := order[0];
    var recv', left := recv[r := 0], surplus - recv[r];
    var tail := order[1..];
    DistinctTail(order);
    forall k | 0 <= k <= |tail|
      ensures Room(order, recv, k + 1) == recv[r] + Room(tail, recv', k)
    {
      assert order[..k + 1][1..] == tail[..k];
      SumOverAgree(tail[..k], recv, recv');
    }
    if EndsFull(tail, recv', left) {
      forall k, j | 0 < k <= j < |order| && Room(order, recv, k) >= surplus
        ensures recv[order[j]] == 0
      {
        assert Room(order, recv, k - 1 + 1) == recv[r] + Room(tail, recv', k - 1);
        assert k - 1 > 0;
        assert recv'[tail[j - 1]] == 0;
      }
    }
    if EndsFull(order, recv, surplus) {
      forall k, j | 0 < k <= j < |tail| && Room(tail, recv', k) >= left
        ensures recv'[tail[j]] == 0
      {
        assert Room(order, recv, k + 1) >= surplus;
        assert recv[order[j + 1]] == 0;
      }
    }
  }

  lemma {:induction false} DealOfFull(order: seq<string>, recv: map<string, int>, surplus: int, stop: bool)
    requires DealPre(order, recv, surplus)
    ensures (forall r :: r in order ==> recv[r] == 0) ==>
              Deal(order, recv, surplus, stop) == Dealt(EMPTY_ROW, recv, surplus)
    ensures (exists r :: r in order && recv[r] != 0) ==> Sum(Deal(order, recv, surplus, stop).row.amounts) > 0
    decreases |order|
  {
    if order != [] {
      DealPreTail(order, recv, surplus, 0, surplus);
      if recv[order[0]] == 0 {
        DealOfFull(order[1..], recv, surplus, stop);
      } else {
        DealConserves(order, recv, surplus, stop);
        PositiveTotal(Deal(order, recv, surplus, stop).row.amounts);
      }
    }
  }

  lemma {:induction false} PositiveTotal(amounts: seq<int>)
    requires forall i :: 0 <= i < |amounts| ==> amounts[i] > 0
    ensures Sum(amounts) >= 0 && (amounts != [] ==> Sum(amounts) > 0)
  {
    if amounts != [] {
      PositiveTotal(amounts[1..]);
    }
  }

  lemma SumOverOne(r: string, recv: map<string, int>)
    requires r in recv
    ensures SumOver([r], recv) == recv[r]
  {
    assert [r][1..] == [];
  }

  /** The first receiver takes the whole surplus: the rest of the order must be full. */
  lemma EndsFullHere(order: seq<string>, recv: map<string, int>, surplus: int)
    requires DealPre(order, recv, surplus) && order != [] && recv[order[0]] >= surplus
    ensures EndsFull(order, recv, surplus) <==> forall x :: x in order[1..] ==> recv[x] == 0
  {
    assert order[..1] == [order[0]];
    SumOverOne(order[0], recv);
    assert Room(order, recv, 1) >= surplus;
    if EndsFull(order, recv, surplus) {
      forall x | x in order[1..]
        ensures recv[x] == 0
      {
        var j :| 0 <= j < |order[1..]| && order[1..][j] == x;
        assert order[j + 1] == x && recv[order[j + 1]] == 0;
      }
    }
    forall j | 0 < j < |order|
      ensures order[j] in order[1..]
    {
      assert order[1..][j - 1] == order[j];
    }
  }

  lemma SurplusPlaced(order: seq<string>, recv: map<string, int>, surplus: int)
    requires DealPre(order, recv, surplus) && order != [] && recv[order[0]] >= surplus
    ensures Sum(Deal(order, recv, surplus, false).row.amounts) <= surplus <==> EndsFull(order, recv, surplus)
    ensures EndsFull(order, recv, surplus) ==> Deal(order, recv, surplus, false) == Deal(order, recv, surplus, true)
  {
    var r, room := order[0], recv[order[0]];
    var recv' := recv[r := room - surplus];
    EndsFullHere(order, recv, surplus);
    DealPreTail(order, recv, surplus, room - surplus, surplus);
    DealOfFull(order[1..], recv', surplus, false);
    assert forall x :: x in order[1..] ==> recv'[x] == recv[x];
    var rest := Deal(order[1..], recv', surplus, false).row.amounts;
    assert ([surplus] + rest)[1..] == rest;
    assert Sum([]) == 0;
    assert Before(r, surplus, Dealt(EMPTY_ROW, recv', surplus)).row == Row([r], [surplus]);
  }

  /** For one iteration order: the loop as written stays within the surplus exactly when only full receivers
      follow the one that completes it, and then it deals just as a loop with the stop would. */
  lemma {:induction false} WithinSurplusIff(order: seq<string>, recv: map<string, int>, surplus: int)
    requires DealPre(order, recv, surplus)
    ensures Sum(Deal(order, recv, surplus, false).row.amounts) <= surplus <==> EndsFull(order, recv, surplus)
    ensures EndsFull(order, recv, surplus) ==> Deal(order, recv, surplus, false) == Deal(order, recv, surplus, true)
    decreases |order|
  {
    if order != [] {
      var r, room := order[0], recv[order[0]];
      if room < surplus {
        EndsFullTail(order, recv, surplus);
        assert room == 0 ==> recv[r := 0] == recv;
        WithinSurplusIff(order[1..], recv[r := 0], surplus - room);
        var rest := Deal(order[1..], recv[r := 0], surplus - room, false).row.amounts;
        assert ([room] + rest)[1..] == rest;
      } else {
        SurplusPlaced(order, recv, surplus);
      }
    }
  }

  lemma OrderMembers(order: seq<string>, keys: set<string>)
    requires Enumerates(order, keys)
    ensures forall r :: r in order <==> r in keys
  {
    assert forall r :: r in order <==> r in Elems(order);
  }

  /** No order makes the code ask the donor for more than its surplus. */
  ghost predicate SafeInEveryOrder(recv: map<string, int>, surplus: int) {
    forall order: seq<string> :: Enumerates(order, recv.Keys) ==> WithinSurplus(order, recv, surplus)
  }

  ghost predicate WithinSurplus(order: seq<string>, recv: map<string, int>, surplus: int)
    requires Enumerates(order, recv.Keys)
  {
    OrderMembers(order, recv.Keys);
    Sum(Deal(order, recv, surplus, false).row.amounts) <= surplus
  }

  /** A condition on the inputs alone: whatever the iteration order, the code respects the donor's surplus
      exactly when no receiver that still has room could be left out. */
  lemma SafeInEveryOrderIff(recv: map<string, int>, surplus: int)
    requires NonNegative(recv) && surplus > 0
    ensures SafeInEveryOrder(recv, surplus) <==>
            forall r :: r in recv && recv[r] > 0 ==> SumMap(recv) - recv[r] < surplus
  {
    if forall r :: r in recv && recv[r] > 0 ==> SumMap(recv) - recv[r] < surplus {
      forall order: seq<string> | Enumerates(order, recv.Keys)
        ensures WithinSurplus(order, recv, surplus)
      {
        OrderMembers(order, recv.Keys);
        forall k, j | 0 < k <= j < |order| && Room(order, recv, k) >= surplus
          ensures recv[order[j]] == 0
        {
          PrefixAvoids(order, recv, k, j);
        }
        WithinSurplusIff(order, recv, surplus);
      }
    }
    if r :| r in recv && recv[r] > 0 && SumMap(recv) - recv[r] >= surplus {
      var order := UnsafeOrder(recv, surplus, r);
      assert !WithinSurplus(order, recv, surplus);
    }
  }

  /** A receiver with room that comes last, after receivers that can take the whole surplus. */
  lemma UnsafeOrder(recv: map<string, int>, surplus: int, r: string) returns (order: seq<string>)
    requires NonNegative(recv) && surplus > 0 && r in recv && recv[r] > 0 && SumMap(recv) - recv[r] >= surplus
    ensures Enumerates(order, recv.Keys) && !WithinSurplus(order, recv, surplus)
  {
    var others := EnumerationExists(recv.Keys - {r});
    order := others + [r];
    OrderMembers(others, recv.Keys - {r});
    assert Elems(order) == recv.Keys;
    OrderMembers(order, recv.Keys);
    var k := |others|;
    assert order[..k] == others && order[k] == r;
    SumOverIsSumMap(order, recv);
    SumOverConcat(others, [r], recv);
    SumOverOne(r, recv);
    assert Room(order, recv, k) >= surplus;
    assert others != [];
    WithinSurplusIff(order, recv, surplus);
  }

  lemma PrefixAvoids(order: seq<string>, recv: map<string, int>, k: nat, j: nat)
    requires Enumerates(order, recv.Keys) && NonNegative(recv) && 0 < k <= j < |order|
    ensures forall r :: r in order ==> r in recv
    ensures Room(order, recv, k) <= SumMap(recv) - recv[order[j]]
  {
    OrderMembers(order, recv.Keys);
    SumOverIsSumMap(order, recv);
    assert order == order[..k] + order[k..];
    SumOverConcat(order[..k], order[k..], recv);
    OneOfMany(order[k..], recv, j - k);
  }

  lemma {:induction false} OneOfMany(order: seq<string>, recv: map<string, int>, j: nat)
    requires (forall r :: r in order ==> r in recv) && NonNegative(recv) && j < |order|
    ensures SumOver(order, recv) >= recv[order[j]]
  {
    if j > 0 {
      OneOfMany(order[1..], recv, j - 1);
    } else {
      SumOverNonNegative(order[1..], recv);
    }
  }

  // ----- The whole plan

  /** The outer loop: donors in one order, each with its own order over the receivers. */
  function DealAll(donors: seq<string>, orders: map<string, seq<string>>, surplus: map<string, int>,
                   recv: map<string, int>, stop: bool): (r: (seq<Row>, map<string, int>))
    requires forall d :: d in donors ==> d in surplus && d in orders && Enumerates(orders[d], recv.Keys)
    ensures |r.0| == |donors| && r.1.Keys == recv.Keys
    decreases |donors|
  {
    if donors == [] then ([], recv)
    else
      var d := donors[0];
      OrderMembers(orders[d], recv.Keys);
      var one := Deal(orders[d], recv, surplus[d], stop);
      var rest := DealAll(donors[1..], orders, surplus, one.recv, stop);
      ([one.row] + rest.0, rest.1)
  }

  predicate PlanPre(donors: seq<string>, orders: map<string, seq<string>>, surplus: map<string, int>,
                    recv: map<string, int>) {
    && (forall d :: d in donors ==> d in surplus && d in orders && Enumerates(orders[d], recv.Keys) && surplus[d] > 0)
    && NonNegative(recv)
  }

  /** What all rows together give to one receiver. */
  function Allotted(rows: seq<Row>, r: string): int
    requires forall i :: 0 <= i < |rows| ==> |rows[i].names| == |rows[i].amounts|
  {
    if rows == [] then 0 else Given(rows[0], r) + Allotted(rows[1..], r)
  }

  /** What all rows together move. */
  function Moved(rows: seq<Row>): int {
    if rows == [] then 0 else Sum(rows[0].amounts) + Moved(rows[1..])
  }

  lemma DealOne(donors: seq<string>, orders: map<string, seq<string>>, surplus: map<string, int>,
                recv: map<string, int>, stop: bool)
    requires PlanPre(donors, orders, surplus, recv) && donors != []
    ensures forall r :: r in orders[donors[0]] ==> r in recv
    ensures var d := Deal(orders[donors[0]], recv, surplus[donors[0]], stop);
            && RowOk(d.row, orders[donors[0]]) && PlanPre(donors[1..], orders, surplus, d.recv)
            && (forall r :: r in recv ==> Given(d.row, r) + d.recv[r] == recv[r])
            && var t := Sum(d.row.amounts);
               && t == SumMap(recv) - SumMap(d.recv) && SumMap(d.recv) >= 0
               && (t >= surplus[donors[0]] || SumMap(d.recv) == 0)
               && (stop ==> t <= surplus[donors[0]])
  {
    var order := orders[donors[0]];
    assert donors[0] in donors;
    OrderMembers(order, recv.Keys);
    DealConserves(order, recv, surplus[donors[0]], stop);
    DealAmount(order, recv, surplus[donors[0]], stop);
    SumMapNonNegative(Deal(order, recv, surplus[donors[0]], stop).recv);
  }

  /** Every row lists distinct receivers with positive amounts; with the stop it stays within its donor's surplus. */
  predicate SafeRows(donors: seq<string>, orders: map<string, seq<string>>, surplus: map<string, int>, rows: seq<Row>,
                     stop: bool)
    requires forall d :: d in donors ==> d in surplus && d in orders
  {
    |rows| == |donors|
    && forall i :: 0 <= i < |rows| ==>
         RowOk(rows[i], orders[donors[i]]) && (stop ==> Sum(rows[i].amounts) <= surplus[donors[i]])
  }

  ghost predicate SafeTotals(donors: seq<string>, surplus: map<string, int>, recv: map<string, int>, rows: seq<Row>,
                             left: map<string, int>, stop: bool)
    requires forall d :: d in donors ==> d in surplus
    requires forall i :: 0 <= i < |rows| ==> |rows[i].names| == |rows[i].amounts|
  {
    && NonNegative(left) && left.Keys == recv.Keys
    && (forall r :: r in recv ==> Allotted(rows, r) + left[r] == recv[r])
    && Moved(rows) == SumMap(recv) - SumMap(left)
    && Min(SumOver(donors, surplus), SumMap(recv)) <= Moved(rows) <= SumMap(recv)
    && (stop ==> Moved(rows) == Min(SumOver(donors, surplus), SumMap(recv)))
  }

  /** Plan safety, for every iteration order, with and without the stop: each receiver's allotments over all
      donors plus its remaining capacity are its deficit; every row lists distinct receivers with positive
      amounts; the total moved lies between min(total surplus, total deficit) and the total deficit, and with
      the stop it is that minimum and no donor gives more than its surplus. */
  lemma {:induction false} PlanIsSafe(donors: seq<string>, orders: map<string, seq<string>>, surplus: map<string, int>,
                                      recv: map<string, int>, stop: bool)
    requires PlanPre(donors, orders, surplus, recv)
    ensures var (rows, left) := DealAll(donors, orders, surplus, recv, stop);
            SafeRows(donors, orders, surplus, rows, stop) && SafeTotals(donors, surplus, recv, rows, left, stop)
    decreases |donors|
  {
    SumMapNonNegative(recv);
    if donors != [] {
      DealOne(donors, orders, surplus, recv, stop);
      var one := Deal(orders[donors[0]], recv, surplus[donors[0]], stop);
      PlanIsSafe(donors[1..], orders, surplus, one.recv, stop);
      var (rest, left) := DealAll(donors[1..], orders, surplus, one.recv, stop);
      assert DealAll(donors, orders, surplus, recv, stop) == ([one.row] + rest, left);
      FirstRow(donors, orders, surplus, one.row, rest, stop);
      FirstTotals(donors, surplus, recv, one, rest, left, stop);
    }
  }

  lemma FirstRow(donors: seq<string>, orders: map<string, seq<string>>, surplus: map<string, int>, row: Row,
                 rest: seq<Row>, stop: bool)
    requires donors != [] && forall d :: d in donors ==> d in surplus && d in orders
    requires RowOk(row, orders[donors[0]]) && (stop ==> Sum(row.amounts) <= surplus[donors[0]])
    requires SafeRows(donors[1..], orders, surplus, rest, stop)
    ensures SafeRows(donors, orders, surplus, [row] + rest, stop)
  {
  }

  lemma FirstTotals(donors: seq<string>, surplus: map<string, int>, recv: map<string, int>, one: Dealt, rest: seq<Row>,
                    left: map<string, int>, stop: bool)
    requires donors != [] && forall d :: d in donors ==> d in surplus && surplus[d] > 0
    requires forall i :: 0 <= i < |rest| ==> |rest[i].names| == |rest[i].amounts|
    requires |one.row.names| == |one.row.amounts| && one.recv.Keys == recv.Keys
    requires forall r :: r in recv ==> Given(one.row, r) + one.recv[r] == recv[r]
    requires var t := Sum(one.row.amounts);
             && t == SumMap(recv) - SumMap(one.recv) && SumMap(one.recv) >= 0
             && (t >= surplus[donors[0]] || SumMap(one.recv) == 0)
             && (stop ==> t <= surplus[donors[0]])
    requires SafeTotals(donors[1..], surplus, one.recv, rest, left, stop)
    ensures SafeTotals(donors, surplus, recv, [one.row] + rest, left, stop)
  {
    var rows := [one.row] + rest;
    assert rows[1..] == rest;
    SurplusNonNegative(donors[1..], surplus);
    SumMapNonNegative(left);
    forall r | r in recv
      ensures Allotted(rows, r) + left[r] == recv[r]
    {
      assert Given(one.row, r) + one.recv[r] == recv[r];
    }
  }

  lemma {:induction false} SurplusNonNegative(donors: seq<string>, surplus: map<string, int>)
    requires forall d :: d in donors ==> d in surplus && surplus[d] > 0
    ensures SumOver(donors, surplus) >= 0
  {
    if donors != [] {
      SurplusNonNegative(donors[1..], surplus);
    }
  }

  // ----- From loads to plan

  /** Deficits of the servers below the 20% band, and surpluses of those above it. */
  function Receivers(loads: map<string, int>, mean: int, offset: int): map<string, int> {
    map k | k in loads && loads[k] < mean - offset :: mean - loads[k]
  }

  function Donors(loads: map<string, int>, mean: int, offset: int): map<string, int> {
    map k | k in loads && loads[k] > mean + offset :: loads[k] - mean
  }

  /** Who has to give and who can receive: the servers more than 20% of the mean above or below it, with their whole
      distance to the mean. */
  lemma BandIs(loads: map<string, int>, mean: int, k: string)
    requires mean >= 0
    ensures var donors, receivers := Donors(loads, mean, GoDiv(mean, 5)), Receivers(loads, mean, GoDiv(mean, 5));
            && (k in donors <==> k in loads && 5 * (loads[k] - mean) > mean)
            && (k in donors ==> donors[k] == loads[k] - mean)
            && (k in receivers <==> k in loads && 5 * (mean - loads[k]) > mean)
            && (k in receivers ==> receivers[k] == mean - loads[k])
  {
  }

  datatype Outcome =
    | DivideByZero
    | NoPlan
    | Plan(mean: int, rows: map<string, Row>)

  /** The first loop: who is outside the 20% band. */
  method Classify(loads: map<string, int>, mean: int, offset: int, loadOrder: seq<string>)
    returns (disconnect: map<string, int>, receive: map<string, int>)
    requires Enumerates(loadOrder, loads.Keys) && offset >= 0
    ensures disconnect == Donors(loads, mean, offset) && receive == Receivers(loads, mean, offset)
  {
    disconnect, receive := map[], map[];
    for i := 0 to |loadOrder|
      invariant Split(loads, mean, offset, loadOrder[..i], disconnect, receive)
    {
      var server := loadOrder[i];
      assert server in Elems(loadOrder);
      assert loadOrder[..i + 1] == loadOrder[..i] + [server];
      SplitNext(loads, mean, offset, loadOrder[..i], server, disconnect, receive);
      if loads[server] < mean - offset {
        receive := receive[server := mean - loads[server]];
      }
      if loads[server] > mean + offset {
        disconnect := disconnect[server := loads[server] - mean];
      }
    }
    assert loadOrder[..|loadOrder|] == loadOrder;
    SplitAll(loads, mean, offset, loadOrder, disconnect, receive);
  }

  /** The servers seen so far have been told apart. */
  predicate Split(loads: map<string, int>, mean: int, offset: int, seen: seq<string>, disconnect: map<string, int>,
                  receive: map<string, int>) {
    Above(loads, mean + offset, mean, seen, disconnect) && Below(loads, mean - offset, mean, seen, receive)
  }

  predicate Above(loads: map<string, int>, limit: int, mean: int, seen: seq<string>, disconnect: map<string, int>) {
    && (forall k :: k in disconnect ==> k in seen && k in loads && loads[k] > limit && disconnect[k] == loads[k] - mean)
    && (forall k :: k in seen && k in loads && loads[k] > limit ==> k in disconnect)
  }

  predicate Below(loads: map<string, int>, limit: int, mean: int, seen: seq<string>, receive: map<string, int>) {
    && (forall k :: k in receive ==> k in seen && k in loads && loads[k] < limit && receive[k] == mean - loads[k])
    && (forall k :: k in seen && k in loads && loads[k] < limit ==> k in receive)
  }

  lemma SplitNext(loads: map<string, int>, mean: int, offset: int, seen: seq<string>, server: string,
                  disconnect: map<string, int>, receive: map<string, int>)
    requires Split(loads, mean, offset, seen, disconnect, receive) && server in loads
    ensures Split(loads, mean, offset, seen + [server],
                  if loads[server] > mean + offset then disconnect[server := loads[server] - mean] else disconnect,
                  if loads[server] < mean - offset then receive[server := mean - loads[server]] else receive)
  {
    assert forall k :: k in seen + [server] <==> k in seen || k == server;
  }

  lemma SplitAll(loads: map<string, int>, mean: int, offset: int, order: seq<string>, disconnect: map<string, int>,
                 receive: map<string, int>)
    requires Split(loads, mean, offset, order, disconnect, receive) && Enumerates(order, loads.Keys)
    ensures disconnect == Donors(loads, mean, offset) && receive == Receivers(loads, mean, offset)
  {
    OrderMembers(order, loads.Keys);
  }

  /** The second loop: every donor's row, by donor. */
  method DealDonors(donorOrder: seq<string>, orders: map<string, seq<string>>, disconnect: map<string, int>,
                    receivers: map<string, int>)
    returns (rows: map<string, Row>)
    requires Enumerates(donorOrder, disconnect.Keys)
    requires forall d :: d in donorOrder ==> d in disconnect && d in orders && Enumerates(orders[d], receivers.Keys)
    ensures rows.Keys == disconnect.Keys
    ensures var all := DealAll(donorOrder, orders, disconnect, receivers, false).0;
            forall i :: 0 <= i < |donorOrder| ==> donorOrder[i] in rows && rows[donorOrder[i]] == all[i]
  {
    ghost var all := DealAll(donorOrder, orders, disconnect, receivers, false).0;
    ghost var dealt: seq<Row> := [];
    var receive := receivers;
    rows := map[];
    assert donorOrder[0..] == donorOrder;
    for i := 0 to |donorOrder|
      invariant receive.Keys == receivers.Keys && |dealt| == i
      invariant RowsOf(rows, donorOrder, dealt)
      invariant Remains(all, dealt, donorOrder[i..], orders, disconnect, receive)
    {
      var donor := donorOrder[i];
      RemainsNext(all, dealt, donorOrder[i..], orders, disconnect, receive);
      assert donorOrder[i..][1..] == donorOrder[i + 1..];
      var d := DealDonor(orders[donor], receive, disconnect[donor]);
      NextRow(rows, donorOrder, dealt, d.row);
      rows := rows[donor := d.row];
      receive := d.recv;
      dealt := dealt + [d.row];
    }
    AllRows(rows, donorOrder, dealt, disconnect.Keys);
    assert all == dealt + [];
  }

  lemma AllRows(rows: map<string, Row>, donors: seq<string>, dealt: seq<Row>, keys: set<string>)
    requires RowsOf(rows, donors, dealt) && |dealt| == |donors| && Enumerates(donors, keys)
    ensures rows.Keys == keys
  {
    assert donors[..|donors|] == donors;
    OrderMembers(donors, keys);
    forall k | k in keys
      ensures k in rows
    {
      var j :| 0 <= j < |donors| && donors[j] == k;
    }
  }

  /** `rows` holds the rows dealt so far, under the donors in their order. */
  predicate RowsOf(rows: map<string, Row>, donors: seq<string>, dealt: seq<Row>) {
    && |dealt| <= |donors|
    && (forall k :: k in rows ==> k in donors[..|dealt|])
    && forall j :: 0 <= j < |dealt| ==> donors[j] in rows && rows[donors[j]] == dealt[j]
  }

  /** Behind the rows dealt so far come those of the remaining donors. */
  ghost predicate Remains(all: seq<Row>, dealt: seq<Row>, donors: seq<string>, orders: map<string, seq<string>>,
                          surplus: map<string, int>, recv: map<string, int>) {
    && (forall d :: d in donors ==> d in surplus && d in orders && Enumerates(orders[d], recv.Keys))
    && all == dealt + DealAll(donors, orders, surplus, recv, false).0
  }

  lemma RemainsNext(all: seq<Row>, dealt: seq<Row>, donors: seq<string>, orders: map<string, seq<string>>,
                    surplus: map<string, int>, recv: map<string, int>)
    requires Remains(all, dealt, donors, orders, surplus, recv) && donors != []
    ensures donors[0] in surplus && donors[0] in orders && forall r :: r in orders[donors[0]] ==> r in recv
    ensures var one := Deal(orders[donors[0]], recv, surplus[donors[0]], false);
            Remains(all, dealt + [one.row], donors[1..], orders, surplus, one.recv)
  {
    DealAllStep(donors, orders, surplus, recv);
    var one := Deal(orders[donors[0]], recv, surplus[donors[0]], false);
    var rest := DealAll(donors[1..], orders, surplus, one.recv, false).0;
    assert dealt + ([one.row] + rest) == dealt + [one.row] + rest;
  }

  lemma NextRow(rows: map<string, Row>, donors: seq<string>, dealt: seq<Row>, row: Row)
    requires RowsOf(rows, donors, dealt) && |dealt| < |donors| && Distinct(donors)
    ensures RowsOf(rows[donors[|dealt|] := row], donors, dealt + [row])
  {
    assert donors[..|dealt + [row]|] == donors[..|dealt|] + [donors[|dealt|]];
  }

  lemma DealAllStep(donors: seq<string>, orders: map<string, seq<string>>, surplus: map<string, int>,
                    recv: map<string, int>)
    requires donors != []
    requires forall d :: d in donors ==> d in surplus && d in orders && Enumerates(orders[d], recv.Keys)
    ensures forall r :: r in orders[donors[0]] ==> r in recv
    ensures var one := Deal(orders[donors[0]], recv, surplus[donors[0]], false);
            DealAll(donors, orders, surplus, recv, false).0 ==
              [one.row] + DealAll(donors[1..], orders, surplus, one.recv, false).0
  {
    assert donors[0] in donors;
    OrderMembers(orders[donors[0]], recv.Keys);
  }

  /** `loadOrder`, `donorOrder` and `orders` are the orders in which Go happens to range over the maps. */
  method IotwsBalanced(loads: map<string, int>, total: int, loadOrder: seq<string>, donorOrder: seq<string>,
                       orders: map<string, seq<string>>) returns (out: Outcome)
    requires Enumerates(loadOrder, loads.Keys)
    requires loads != map[] ==> RangeOrders(loads, GoDiv(total, |loads|), donorOrder, orders)
    ensures out.DivideByZero? <==> loads == map[]
    ensures out.NoPlan? <==> loads != map[] && GoDiv(total, |loads|) < 105
    ensures out.Plan? ==> out.mean == GoDiv(total, |loads|) && Published(loads, out.mean, donorOrder, orders, out.rows)
  {
    if |loads| == 0 {
      return DivideByZero;
    }
    var mean := GoDiv(total, |loads|);
    if !(GoDiv(mean, 5) > 20) {
      return NoPlan;
    }
    var offset := GoDiv(mean, 5);
    var disconnect, receive := Classify(loads, mean, offset, loadOrder);
    var rows := DealDonors(donorOrder, orders, disconnect, receive);
    return Plan(mean, rows);
  }

  /** `donorOrder` and `orders` are orders in which the donor and receiver maps can be ranged over. */
  predicate RangeOrders(loads: map<string, int>, mean: int, donorOrder: seq<string>, orders: map<string, seq<string>>) {
    && Enumerates(donorOrder, Donors(loads, mean, GoDiv(mean, 5)).Keys)
    && forall d :: d in donorOrder ==>
         d in Donors(loads, mean, GoDiv(mean, 5)) && d in orders
           && Enumerates(orders[d], Receivers(loads, mean, GoDiv(mean, 5)).Keys)
  }

  /** The published rows are those of the two nested loops over the servers outside the band. */
  predicate Published(loads: map<string, int>, mean: int, donorOrder: seq<string>, orders: map<string, seq<string>>,
                      rows: map<string, Row>)
    requires RangeOrders(loads, mean, donorOrder, orders)
  {
    var surplus, deficit := Donors(loads, mean, GoDiv(mean, 5)), Receivers(loads, mean, GoDiv(mean, 5));
    var all := DealAll(donorOrder, orders, surplus, deficit, false).0;
    && rows.Keys == surplus.Keys
    && forall i :: 0 <= i < |donorOrder| ==> donorOrder[i] in rows && rows[donorOrder[i]] == all[i]
  }

  // ----- The plan in terms of the servers' loads

  /** The rows of the plan for given iteration orders, as written or with the stop. */
  function RowsFor(loads: map<string, int>, mean: int, donors: seq<string>, orders: map<string, seq<string>>,
                   stop: bool): (rows: seq<Row>)
    requires RangeOrders(loads, mean, donors, orders)
    ensures |rows| == |donors|
  {
    DealAll(donors, orders, Donors(loads, mean, GoDiv(mean, 5)), Receivers(loads, mean, GoDiv(mean, 5)), stop).0
  }

  lemma LoadsPre(loads: map<string, int>, mean: int, donors: seq<string>, orders: map<string, seq<string>>)
    requires RangeOrders(loads, mean, donors, orders) && mean >= 0
    ensures PlanPre(donors, orders, Donors(loads, mean, GoDiv(mean, 5)), Receivers(loads, mean, GoDiv(mean, 5)))
  {
  }

  /** The published plan in the servers' own terms: a row for exactly the servers more than 20% above the mean, naming
      distinct servers more than 20% below it with positive amounts, in the order in which they were visited. */
  lemma PublishedPlan(loads: map<string, int>, mean: int, donors: seq<string>, orders: map<string, seq<string>>,
                      rows: map<string, Row>, d: string)
    requires mean >= 0 && RangeOrders(loads, mean, donors, orders) && Published(loads, mean, donors, orders, rows)
    ensures d in rows <==> d in loads && 5 * (loads[d] - mean) > mean
    ensures d in rows ==> d in orders && RowOk(rows[d], orders[d]) && InOrderOf(rows[d].names, orders[d])
    ensures d in rows ==> forall r :: r in rows[d].names ==> r in loads && 5 * (mean - loads[r]) > mean
  {
    BandIs(loads, mean, d);
    if d in rows {
      var recv := Receivers(loads, mean, GoDiv(mean, 5));
      OrderMembers(donors, Donors(loads, mean, GoDiv(mean, 5)).Keys);
      var i :| 0 <= i < |donors| && donors[i] == d;
      LoadsPre(loads, mean, donors, orders);
      RowsFollowOrders(donors, orders, Donors(loads, mean, GoDiv(mean, 5)), recv, i);
      OrderMembers(orders[d], recv.Keys);
      forall r | r in rows[d].names
        ensures r in loads && 5 * (mean - loads[r]) > mean
      {
        BandIs(loads, mean, r);
      }
    }
  }

  lemma {:induction false} RowsFollowOrders(donors: seq<string>, orders: map<string, seq<string>>,
                                            surplus: map<string, int>, recv: map<string, int>, i: nat)
    requires PlanPre(donors, orders, surplus, recv) && i < |donors|
    ensures var rows := DealAll(donors, orders, surplus, recv, false).0;
            RowOk(rows[i], orders[donors[i]]) && InOrderOf(rows[i].names, orders[donors[i]])
    decreases |donors|
  {
    var d := donors[0];
    DealOne(donors, orders, surplus, recv, false);
    if i == 0 {
      DealFollowsOrder(orders[d], recv, surplus[d], false);
    } else {
      RowsFollowOrders(donors[1..], orders, surplus, Deal(orders[d], recv, surplus[d], false).recv, i - 1);
    }
  }

  /** For every load distribution and every iteration order: no server is both donor and receiver, rows are
      well formed, and no receiver is pushed above the mean. The number of connections moved lies between
      min(total surplus, total deficit) and the total deficit. */
  lemma NoReceiverAboveMean(loads: map<string, int>, mean: int, donors: seq<string>, orders: map<string, seq<string>>)
    requires RangeOrders(loads, mean, donors, orders) && mean >= 0
    ensures var rows, offset := RowsFor(loads, mean, donors, orders, false), GoDiv(mean, 5);
            var surplus, deficit := SumMap(Donors(loads, mean, offset)), SumMap(Receivers(loads, mean, offset));
            && Donors(loads, mean, offset).Keys !! Receivers(loads, mean, offset).Keys
            && (forall i :: 0 <= i < |rows| ==> RowOk(rows[i], orders[donors[i]]))
            && (forall r :: r in Receivers(loads, mean, offset) ==> loads[r] <= loads[r] + Allotted(rows, r) <= mean)
            && Min(surplus, deficit) <= Moved(rows) <= deficit
  {
    LoadsPre(loads, mean, donors, orders);
    var surplus, recv := Donors(loads, mean, GoDiv(mean, 5)), Receivers(loads, mean, GoDiv(mean, 5));
    PlanIsSafe(donors, orders, surplus, recv, false);
    SumOverIsSumMap(donors, surplus);
    var rows := RowsFor(loads, mean, donors, orders, false);
    forall i | 0 <= i < |rows|
      ensures |rows[i].names| == |rows[i].amounts| && forall j :: 0 <= j < |rows[i].amounts| ==> rows[i].amounts[j] > 0
    {
      assert RowOk(rows[i], orders[donors[i]]);
    }
    forall r | r in recv
      ensures Allotted(rows, r) >= 0
    {
      AllottedNonNegative(rows, r);
    }
  }

  lemma {:induction false} AllottedNonNegative(rows: seq<Row>, r: string)
    requires forall i :: 0 <= i < |rows| ==> |rows[i].names| == |rows[i].amounts|
    requires forall i, j :: 0 <= i < |rows| && 0 <= j < |rows[i].amounts| ==> rows[i].amounts[j] > 0
    ensures Allotted(rows, r) >= 0
    decreases |rows|
  {
    if rows != [] {
      AllottedNonNegative(rows[1..], r);
      GivenNonNegative(rows[0], r);
    }
  }

  lemma {:induction false} GivenNonNegative(row: Row, r: string)
    requires |row.names| == |row.amounts| && forall i :: 0 <= i < |row.amounts| ==> row.amounts[i] > 0
    ensures Given(row, r) >= 0
    decreases |row.names|
  {
    if row.names != [] {
      GivenNonNegative(Row(row.names[1..], row.amounts[1..]), r);
    }
  }

  /** With the stop, for every load distribution and every iteration order, no donor is asked to drop below the
      mean and the number of connections moved is exactly min(total surplus, total deficit). */
  lemma StoppedPlanIsExact(loads: map<string, int>, mean: int, donors: seq<string>, orders: map<string, seq<string>>)
    requires RangeOrders(loads, mean, donors, orders) && mean >= 0
    ensures var rows, offset := RowsFor(loads, mean, donors, orders, true), GoDiv(mean, 5);
            && (forall i :: 0 <= i < |rows| ==> donors[i] in loads && loads[donors[i]] - Sum(rows[i].amounts) >= mean)
            && Moved(rows) == Min(SumMap(Donors(loads, mean, offset)), SumMap(Receivers(loads, mean, offset)))
  {
    LoadsPre(loads, mean, donors, orders);
    var surplus, recv := Donors(loads, mean, GoDiv(mean, 5)), Receivers(loads, mean, GoDiv(mean, 5));
    PlanIsSafe(donors, orders, surplus, recv, true);
    SumOverIsSumMap(donors, surplus);
    forall i | 0 <= i < |donors|
      ensures donors[i] in surplus && donors[i] in loads
    {
      assert donors[i] in Elems(donors);
    }
  }

  // ----- When the loop as written respects every donor

  /** Each of these donors could fill any all-but-one of the receivers with room and still have surplus left. */
  ghost predicate Tight(donors: seq<string>, surplus: map<string, int>, recv: map<string, int>)
    requires forall d :: d in donors ==> d in surplus
  {
    forall d, r :: d in donors && r in recv && recv[r] > 0 ==> SumMap(recv) - recv[r] < surplus[d]
  }

  /** Receivers that have been served stay tight for the donors that follow. */
  lemma TightAfter(donors: seq<string>, surplus: map<string, int>, recv: map<string, int>, served: map<string, int>)
    requires (forall d :: d in donors ==> d in surplus) && Tight(donors, surplus, recv)
    requires served.Keys == recv.Keys && forall r :: r in recv ==> served[r] <= recv[r]
    ensures Tight(donors, surplus, served)
  {
    forall d, r | d in donors && r in served && served[r] > 0
      ensures SumMap(served) - served[r] < surplus[d]
    {
      SumMapRemove(served, r);
      SumMapRemove(recv, r);
      SumMapMonotone(served - {r}, recv - {r});
    }
  }

  lemma FirstDonorWithin(donors: seq<string>, orders: map<string, seq<string>>, surplus: map<string, int>,
                         recv: map<string, int>)
    requires PlanPre(donors, orders, surplus, recv) && donors != [] && Tight(donors, surplus, recv)
    ensures forall r :: r in orders[donors[0]] ==> r in recv
    ensures var one := Deal(orders[donors[0]], recv, surplus[donors[0]], false);
            && one == Deal(orders[donors[0]], recv, surplus[donors[0]], true)
            && PlanPre(donors[1..], orders, surplus, one.recv) && Tight(donors[1..], surplus, one.recv)
  {
    var d := donors[0];
    DealOne(donors, orders, surplus, recv, false);
    SafeInEveryOrderIff(recv, surplus[d]);
    assert WithinSurplus(orders[d], recv, surplus[d]);
    WithinSurplusIff(orders[d], recv, surplus[d]);
    var one := Deal(orders[d], recv, surplus[d], false);
    forall r | r in recv
      ensures one.recv[r] <= recv[r]
    {
      GivenNonNegative(one.row, r);
    }
    TightAfter(donors[1..], surplus, recv, one.recv);
  }

  /** Then the missing stop makes no difference to the whole plan. */
  lemma {:induction false} TightPlanStops(donors: seq<string>, orders: map<string, seq<string>>,
                                          surplus: map<string, int>, recv: map<string, int>)
    requires PlanPre(donors, orders, surplus, recv) && Tight(donors, surplus, recv)
    ensures DealAll(donors, orders, surplus, recv, false) == DealAll(donors, orders, surplus, recv, true)
    decreases |donors|
  {
    if donors != [] {
      FirstDonorWithin(donors, orders, surplus, recv);
      TightPlanStops(donors[1..], orders, surplus, Deal(orders[donors[0]], recv, surplus[donors[0]], false).recv);
    }
  }

  /** A condition on the loads alone: no donor could leave out a receiver. */
  ghost predicate NobodyLeftOut(loads: map<string, int>, mean: int) {
    var surplus, deficit := Donors(loads, mean, GoDiv(mean, 5)), Receivers(loads, mean, GoDiv(mean, 5));
    forall d, r :: d in surplus && r in deficit ==> SumMap(deficit) - deficit[r] < surplus[d]
  }

  predicate DonorsKeepMean(loads: map<string, int>, mean: int, donors: seq<string>, orders: map<string, seq<string>>)
    requires RangeOrders(loads, mean, donors, orders)
  {
    var rows := RowsFor(loads, mean, donors, orders, false);
    forall i :: 0 <= i < |rows| ==> donors[i] in loads && loads[donors[i]] - Sum(rows[i].amounts) >= mean
  }

  /** If nobody can be left out, the plan as written is the plan with the stop, for every iteration order: no donor
      drops below the mean and the number of connections moved is min(total surplus, total deficit). */
  lemma WrittenPlanIsExact(loads: map<string, int>, mean: int, donors: seq<string>, orders: map<string, seq<string>>)
    requires RangeOrders(loads, mean, donors, orders) && mean >= 0 && NobodyLeftOut(loads, mean)
    ensures RowsFor(loads, mean, donors, orders, false) == RowsFor(loads, mean, donors, orders, true)
    ensures DonorsKeepMean(loads, mean, donors, orders)
    ensures Moved(RowsFor(loads, mean, donors, orders, false)) ==
            Min(SumMap(Donors(loads, mean, GoDiv(mean, 5))), SumMap(Receivers(loads, mean, GoDiv(mean, 5))))
  {
    LoadsPre(loads, mean, donors, orders);
    TightPlanStops(donors, orders, Donors(loads, mean, GoDiv(mean, 5)), Receivers(loads, mean, GoDiv(mean, 5)));
    StoppedPlanIsExact(loads, mean, donors, orders);
  }

  /** The donor `d` comes first and ranges over the receivers so that `r`, which it could leave out, comes last. */
  lemma GreedyDonor(loads: map<string, int>, mean: int, d: string, r: string)
    returns (donors: seq<string>, orders: map<string, seq<string>>)
    requires mean >= 0
    requires var surplus, deficit := Donors(loads, mean, GoDiv(mean, 5)), Receivers(loads, mean, GoDiv(mean, 5));
             d in surplus && r in deficit && SumMap(deficit) - deficit[r] >= surplus[d]
    ensures RangeOrders(loads, mean, donors, orders) && !DonorsKeepMean(loads, mean, donors, orders)
  {
    var surplus, deficit := Donors(loads, mean, GoDiv(mean, 5)), Receivers(loads, mean, GoDiv(mean, 5));
    var order := UnsafeOrder(deficit, surplus[d], r);
    var others := EnumerationExists(surplus.Keys - {d});
    OrderMembers(others, surplus.Keys - {d});
    donors := [d] + others;
    assert Elems(donors) == surplus.Keys;
    OrderMembers(donors, surplus.Keys);
    orders := map k | k in surplus :: order;
    assert RangeOrders(loads, mean, donors, orders);
    OrderMembers(order, deficit.Keys);
    assert RowsFor(loads, mean, donors, orders, false)[0] == Deal(order, deficit, surplus[d], false).row;
  }

  /** The missing stop matters exactly when somebody can be left out: the code asks no donor to drop below the mean,
      whatever the iteration orders, if and only if each donor's surplus exceeds what all receivers but any one
      lack together. */
  lemma NoDonorBelowMeanIff(loads: map<string, int>, mean: int)
    requires mean >= 0
    ensures (forall donors, orders :: RangeOrders(loads, mean, donors, orders) ==>
              DonorsKeepMean(loads, mean, donors, orders))
            <==> NobodyLeftOut(loads, mean)
  {
    var surplus, deficit := Donors(loads, mean, GoDiv(mean, 5)), Receivers(loads, mean, GoDiv(mean, 5));
    if NobodyLeftOut(loads, mean) {
      forall donors, orders | RangeOrders(loads, mean, donors, orders)
        ensures DonorsKeepMean(loads, mean, donors, orders)
      {
        WrittenPlanIsExact(loads, mean, donors, orders);
      }
    } else {
      var d, r :| d in surplus && r in deficit && SumMap(deficit) - deficit[r] >= surplus[d];
      var donors, orders := GreedyDonor(loads, mean, d, r);
    }
  }

  const TWO_AND_TWO := map["a" := 700, "b" := 0, "c" := 0, "d" := 700]
  const BC_ORDERS: map<string, seq<string>> := map["a" := ["b", "c"], "d" := ["b", "c"]]

  const EMPTY_SERVERS := map["b" := 350, "c" := 350]

  /** Without the stop, two full servers and two empty ones (mean 350) already lead to a donor that is asked to
      give away all of its connections. */
  lemma DonorBelowMean()
    ensures RangeOrders(TWO_AND_TWO, 350, ["a", "d"], BC_ORDERS)
    ensures var rows := RowsFor(TWO_AND_TWO, 350, ["a", "d"], BC_ORDERS, false);
            rows[0] == Row(["b", "c"], [350, 350]) && TWO_AND_TWO["a"] - Sum(rows[0].amounts) == 0
  {
    TwoAndTwoOrders();
    DealTwice();
    var rows := RowsFor(TWO_AND_TWO, 350, ["a", "d"], BC_ORDERS, false);
    assert rows[0] == Deal(["b", "c"], EMPTY_SERVERS, 350, false).row;
  }

  lemma TwoAndTwoBands()
    ensures Receivers(TWO_AND_TWO, 350, 70) == EMPTY_SERVERS
    ensures Donors(TWO_AND_TWO, 350, 70) == map["a" := 350, "d" := 350]
  {
    assert TWO_AND_TWO.Keys == {"a", "b", "c", "d"};
  }

  lemma TwoAndTwoOrders()
    ensures Receivers(TWO_AND_TWO, 350, 70) == EMPTY_SERVERS
    ensures Donors(TWO_AND_TWO, 350, 70) == map["a" := 350, "d" := 350]
    ensures RangeOrders(TWO_AND_TWO, 350, ["a", "d"], BC_ORDERS)
  {
    TwoAndTwoBands();
    PairEnumerates("a", "d");
    PairEnumerates("b", "c");
    assert EMPTY_SERVERS.Keys == {"b", "c"};
    assert (map["a" := 350, "d" := 350]).Keys == {"a", "d"};
  }

  lemma PairEnumerates(x: string, y: string)
    requires x != y
    ensures Enumerates([x, y], {x, y})
  {
    assert Elems([x, y]) == {x, y};
  }

  lemma DealTwice()
    ensures Deal(["b", "c"], EMPTY_SERVERS, 350, false).row == Row(["b", "c"], [350, 350])
    ensures Sum([350, 350]) == 700
  {
    var order := ["b", "c"];
    var recv' := EMPTY_SERVERS["b" := 0];
    assert order[1..] == ["c"] && ["c"][1..] == [];
    assert Deal([], recv'["c" := 0], 350, false).row == EMPTY_ROW;
    assert Deal(["c"], recv', 350, false).row == Row(["c"], [350]);
    assert [350, 350][1..] == [350] && [350][1..] == [];
    assert Sum([350]) == 350;
  }

  // ----- Surplus against deficit

  lemma SumDonors(m: map<string, int>, mean: int, offset: int, k: string)
    requires k in m
    ensures SumMap(Donors(m, mean, offset)) ==
            SumMap(Donors(m - {k}, mean, offset)) + if m[k] > mean + offset then m[k] - mean else 0
  {
    var d := Donors(m, mean, offset);
    assert Donors(m - {k}, mean, offset) == d - {k};
    if k in d {
      SumMapRemove(d, k);
    } else {
      assert d - {k} == d;
    }
  }

  lemma SumReceivers(m: map<string, int>, mean: int, offset: int, k: string)
    requires k in m
    ensures SumMap(Receivers(m, mean, offset)) ==
            SumMap(Receivers(m - {k}, mean, offset)) + if m[k] < mean - offset then mean - m[k] else 0
  {
    var r := Receivers(m, mean, offset);
    assert Receivers(m - {k}, mean, offset) == r - {k};
    if k in r {
      SumMapRemove(r, k);
    } else {
      assert r - {k} == r;
    }
  }

  /** Surplus minus deficit is the deviation of the total from n means, up to what the middle servers hold. */
  ghost function Spread(m: map<string, int>, mean: int, offset: int): int {
    SumMap(Donors(m, mean, offset)) - SumMap(Receivers(m, mean, offset))
  }

  lemma SpreadStep(n: nat, mean: int, offset: int, rest: int, load: int)
    requires offset >= 0 && -(n * offset) <= rest - n * mean <= n * offset
    ensures var c := (if load > mean + offset then load - mean else 0)
                     - (if load < mean - offset then mean - load else 0);
            -((n + 1) * offset) <= rest + load - c - (n + 1) * mean <= (n + 1) * offset
  {
    assert (n + 1) * mean == n * mean + mean && (n + 1) * offset == n * offset + offset;
  }

  lemma {:induction false} SpreadOf(m: map<string, int>, mean: int, offset: int)
    requires offset >= 0
    ensures -(|m| * offset) <= SumMap(m) - |m| * mean - Spread(m, mean, offset) <= |m| * offset
    decreases |m|
  {
    if m != map[] {
      var k :| k in m;
      var rest := m - {k};
      SpreadOf(rest, mean, offset);
      SumMapRemove(m, k);
      SumDonors(m, mean, offset, k);
      SumReceivers(m, mean, offset, k);
      assert |m| == |rest| + 1 by {
        assert m.Keys == rest.Keys + {k};
      }
      SpreadStep(|rest|, mean, offset, SumMap(rest) - Spread(rest, mean, offset), m[k]);
    } else {
      assert Donors(m, mean, offset) == map[] && Receivers(m, mean, offset) == map[];
    }
  }

  /** With the mean of the loads themselves, total surplus and total deficit differ by at most n * offset + n. */
  lemma SurplusMeetsDeficit(loads: map<string, int>, mean: int, offset: int)
    requires loads != map[] && mean == GoDiv(SumMap(loads), |loads|) && mean >= 0 && offset >= 0 && SumMap(loads) >= 0
    ensures var n := |loads|;
            -(n * offset + n) <= Spread(loads, mean, offset) <= n * offset + n
  {
    SpreadOf(loads, mean, offset);
    MeanOf(SumMap(loads), |loads|, mean);
  }

  lemma MeanOf(total: int, n: nat, mean: int)
    requires n > 0 && total >= 0 && mean == GoDiv(total, n)
    ensures 0 <= total - n * mean < n
  {
  }
}
