/** A plan carried out by its donors' dispatchers, seen from the servers that receive. */
module Rebalance {
  import opened Common
  import opened SessionRegistry
  import P = Planner
  import D = Dispatcher

  type Log = seq<Option<D.Move>>

  /** The slots whose connection is told to go to `server`. */
  function MovesTo(log: Log, server: string): set<int> {
    set i | 0 <= i < |log| && log[i].Some? && log[i].value.server == server
  }

  // ----- One donor

  /** The dispatcher never panics on a row of a plan, whatever its table holds. */
  lemma RowNeverPanics(row: P.Row, order: seq<string>, n: nat)
    requires P.RowOk(row, order)
    ensures D.Positive(row.amounts) && !D.MissesName(row.names, row.amounts, n)
  {
  }

  lemma {:induction false} GivenAt(row: P.Row, j: nat)
    requires |row.names| == |row.amounts| && Distinct(row.names) && j < |row.names|
    ensures P.Given(row, row.names[j]) == row.amounts[j]
    decreases |row.names|
  {
    var rest := P.Row(row.names[1..], row.amounts[1..]);
    DistinctTail(row.names);
    if j > 0 {
      GivenAt(rest, j - 1);
      assert row.names[j] in row.names[1..];
    } else {
      P.NotGiven(rest, row.names[0]);
    }
  }

  /** The connections told to go to the `j`-th name are those of the `j`-th run of slots. */
  lemma MovesAreReached(table: map<string, Socket>, row: P.Row, order: seq<string>, log: Log, j: nat)
    requires Enumerates(order, table.Keys) && |row.names| == |row.amounts| && Distinct(row.names)
               && D.Positive(row.amounts)
    requires D.Carried(table, row.names, row.amounts, order, log) && j < |row.names|
    ensures MovesTo(log, row.names[j]) == D.Reached(row.amounts, j, |order|)
  {
    forall i | 0 <= i < |log|
      ensures i in MovesTo(log, row.names[j]) <==> i in D.Reached(row.amounts, j, |order|)
    {
      assert row.amounts[..|row.amounts|] == row.amounts;
      var k := D.ServedByPrefix(row.amounts, i, |row.amounts|);
      if D.Serves(row.amounts, i, j) {
        D.ServedOnce(row.amounts, i, j, k);
      }
    }
  }

  lemma ReachedAtMost(amounts: seq<int>, j: nat, n: nat)
    requires D.Positive(amounts) && j < |amounts|
    ensures |D.Reached(amounts, j, n)| <= amounts[j]
  {
    D.SlotsArePartitioned(amounts);
    SubsetSize(D.Reached(amounts, j, n), D.SlotsOf(amounts, j));
  }

  /** A server is told at most the connections the row gives it; with enough connections in the table exactly
      those, one fewer if it is the first of the row. */
  lemma DonorMoves(table: map<string, Socket>, row: P.Row, names: seq<string>, order: seq<string>, log: Log, r: string)
    requires Enumerates(order, table.Keys) && P.RowOk(row, names)
               && D.Carried(table, row.names, row.amounts, order, log)
    ensures |MovesTo(log, r)| <= P.Given(row, r)
    ensures Sum(row.amounts) - 1 <= |order| ==>
              |MovesTo(log, r)| == P.Given(row, r) - if row.names != [] && row.names[0] == r then 1 else 0
  {
    if r in row.names {
      var j :| 0 <= j < |row.names| && row.names[j] == r;
      GivenAt(row, j);
      MovesAreReached(table, row, order, log, j);
      ReachedAtMost(row.amounts, j, |order|);
      if Sum(row.amounts) - 1 <= |order| {
        D.FirstTargetGetsOneLess(row.amounts, |order|);
      }
    } else {
      P.NotGiven(row, r);
      NoMoves(table, row, order, log, r);
    }
  }

  lemma NoMoves(table: map<string, Socket>, row: P.Row, order: seq<string>, log: Log, r: string)
    requires Enumerates(order, table.Keys) && |row.names| == |row.amounts| && D.Positive(row.amounts)
    requires D.Carried(table, row.names, row.amounts, order, log) && r !in row.names
    ensures MovesTo(log, r) == {}
  {
    forall i | 0 <= i < |log|
      ensures i !in MovesTo(log, r)
    {
      assert row.amounts[..|row.amounts|] == row.amounts;
      var k := D.ServedByPrefix(row.amounts, i, |row.amounts|);
    }
  }

  /** No connection is told to move twice, because no socket is in the table under two connIds. */
  lemma ToldOnce(r: Registry, row: P.Row, names: seq<string>, order: seq<string>, log: Log, i: nat, i': nat)
    requires Inv(r) && Enumerates(order, r.table.Keys)
    requires P.RowOk(row, names) && D.Carried(r.table, row.names, row.amounts, order, log)
    requires i < i' < |log| && log[i].Some? && log[i'].Some?
    ensures log[i].value.conn != log[i'].value.conn
  {
    assert row.amounts[..|row.amounts|] == row.amounts;
    var k := D.ServedByPrefix(row.amounts, i, |row.amounts|);
    var k' := D.ServedByPrefix(row.amounts, i', |row.amounts|);
    assert order[i - 1] in Elems(order) && order[i' - 1] in Elems(order);
  }

  // ----- All donors

  /** How many connections all donors together tell to go to `r`. */
  function Arrivals(logs: seq<Log>, r: string): nat {
    if logs == [] then 0 else |MovesTo(logs[0], r)| + Arrivals(logs[1..], r)
  }

  /** A donor's log: empty if it skipped the row, else the row carried out on its table. */
  ghost predicate Follows(log: Log, row: P.Row, table: map<string, Socket>, order: seq<string>) {
    && Enumerates(order, table.Keys) && |row.names| == |row.amounts|
    && (log == [] || D.Carried(table, row.names, row.amounts, order, log))
  }

  ghost predicate AllFollow(logs: seq<Log>, rows: seq<P.Row>, tables: seq<map<string, Socket>>,
                            orders: seq<seq<string>>) {
    && |logs| == |rows| == |tables| == |orders|
    && forall i :: 0 <= i < |rows| ==> Follows(logs[i], rows[i], tables[i], orders[i])
  }

  ghost predicate RowsOk(rows: seq<P.Row>, names: seq<seq<string>>) {
    |names| == |rows| && forall i :: 0 <= i < |rows| ==> P.RowOk(rows[i], names[i])
  }

  lemma {:induction false} ArrivalsAtMost(logs: seq<Log>, rows: seq<P.Row>, tables: seq<map<string, Socket>>,
                                          orders: seq<seq<string>>, names: seq<seq<string>>, r: string)
    requires AllFollow(logs, rows, tables, orders) && RowsOk(rows, names)
    ensures Arrivals(logs, r) <= P.Allotted(rows, r)
    decreases |rows|
  {
    if rows != [] {
      ArrivalsAtMost(logs[1..], rows[1..], tables[1..], orders[1..], names[1..], r);
      assert Follows(logs[0], rows[0], tables[0], orders[0]);
      if logs[0] == [] {
        P.GivenNonNegative(rows[0], r);
        assert MovesTo(logs[0], r) == {};
      } else {
        DonorMoves(tables[0], rows[0], names[0], orders[0], logs[0], r);
      }
    }
  }

  lemma {:induction false} NotAllotted(rows: seq<P.Row>, names: seq<seq<string>>, r: string)
    requires RowsOk(rows, names) && forall i :: 0 <= i < |rows| ==> r !in rows[i].names
    ensures P.Allotted(rows, r) == 0
    decreases |rows|
  {
    if rows != [] {
      NotAllotted(rows[1..], names[1..], r);
      P.NotGiven(rows[0], r);
    }
  }

  /** Planner and dispatchers together, for every load distribution and every iteration order in both: whatever
      each donor's table holds, and even if some skip their rows, no server below the band is filled above the
      mean and no other server is told to receive anything. */
  lemma NobodyEndsAboveMean(loads: map<string, int>, mean: int, donors: seq<string>, orders: map<string, seq<string>>,
                            logs: seq<Log>, tables: seq<map<string, Socket>>, ranges: seq<seq<string>>, r: string)
    requires P.RangeOrders(loads, mean, donors, orders) && mean >= 0
    requires AllFollow(logs, P.RowsFor(loads, mean, donors, orders, false), tables, ranges)
    ensures var receivers := P.Receivers(loads, mean, P.GoDiv(mean, 5));
            && (r in receivers ==> loads[r] + Arrivals(logs, r) <= mean)
            && (r !in receivers ==> Arrivals(logs, r) == 0)
  {
    var rows := P.RowsFor(loads, mean, donors, orders, false);
    var receivers := P.Receivers(loads, mean, P.GoDiv(mean, 5));
    var names := seq(|donors|, i requires 0 <= i < |donors| => (assert donors[i] in donors; orders[donors[i]]));
    P.NoReceiverAboveMean(loads, mean, donors, orders);
    assert RowsOk(rows, names);
    ArrivalsAtMost(logs, rows, tables, ranges, names, r);
    if r !in receivers {
      forall i | 0 <= i < |rows|
        ensures r !in rows[i].names
      {
        assert P.RowOk(rows[i], orders[donors[i]]);
        P.OrderMembers(orders[donors[i]], receivers.Keys);
      }
      NotAllotted(rows, names, r);
    }
  }
}
