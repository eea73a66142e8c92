/** The WebSocket gateway's registry: which open socket carries which connection id, in three places that are
    updated separately: each socket's session, the connId -> socket table, and a counter. */
module SessionRegistry {
  import opened Common
  import ConnIdScan

  type Socket = nat

  /** `sessions` has one entry per open socket: the connId stored in its session, if any. */
  datatype Registry = Registry(sessions: map<Socket, Option<string>>, table: map<string, Socket>, count: int)

  const NO_SOCKETS := Registry(map[], map[], 0)

  /** What the device service answers to a message. */
  datatype Reply = Failure | Payload(text: string)

  // ----- The handlers on values

  function Claim(r: Registry, s: Socket, connId: string): Registry {
    Registry(r.sessions[s := Some(connId)], r.table[connId := s], r.count + 1)
  }

  function Upgraded(r: Registry, s: Socket, query: string): Registry {
    if query == "" then r.(sessions := r.sessions[s := None]) else Claim(r, s, query)
  }

  function Messaged(r: Registry, s: Socket, reply: Reply): Registry
    requires s in r.sessions
  {
    if r.sessions[s].Some? || reply.Failure? || ConnIdScan.ExtractSn(reply.text) == "" then r
    else Claim(r, s, ConnIdScan.ExtractSn(reply.text))
  }

  /** The effect of a delete: the counter goes down whether or not the key is there. */
  function Forget(r: Registry, connId: string): Registry {
    r.(table := r.table - {connId}, count := r.count - 1)
  }

  function ClosedBy(r: Registry, s: Socket): Registry
    requires s in r.sessions
  {
    var f := if r.sessions[s].Some? then Forget(r, r.sessions[s].value) else r;
    f.(sessions := r.sessions - {s})
  }

  // ----- The connection table

  class Connection {
    var soketMap: map<string, Socket>
    var count: int

    constructor ()
      ensures soketMap == map[] && count == 0
    {
      soketMap, count := map[], 0;
    }

    method Storage(connId: string, conn: Socket)
      modifies this
      ensures soketMap == old(soketMap)[connId := conn] && count == old(count) + 1
    {
      soketMap := soketMap[connId := conn];
      count := count + 1;
    }

    method Del(connId: string)
      modifies this
      ensures soketMap == old(soketMap) - {connId} && count == old(count) - 1
    {
      count := count - 1;
      soketMap := soketMap - {connId};
    }

    method GetconnByConnId(connId: string) returns (conn: Option<Socket>)
      ensures conn == if connId in soketMap then Some(soketMap[connId]) else None
    {
      if connId in soketMap {
        return Some(soketMap[connId]);
      }
      return None;
    }

    /** `order` is the order in which the table is ranged over. The first slot is never filled, so at most
        `n - 1` connections are returned; a negative count panics. */
    method GetConnByCount(n: int, order: seq<string>) returns (conns: Option<seq<Option<Socket>>>)
      requires Enumerates(order, soketMap.Keys)
      ensures conns.None? <==> n < 0
      ensures conns.Some? ==> |conns.value| == n
      ensures conns.Some? ==> forall k :: 0 <= k < n ==>
                conns.value[k] == if 1 <= k <= |order| then
                                    (assert order[k - 1] in Elems(order); Some(soketMap[order[k - 1]]))
                                  else None
    {
      if n < 0 {
        return None;
      }
      var filled := new Option<Socket>[n](_ => None);
      var i := 0;
      for step := 0 to |order|
        invariant i == step && (step == 0 || i < n)
        invariant forall k :: 0 <= k < n ==>
                    filled[k] == if 1 <= k <= i then
                                   (assert order[k - 1] in Elems(order); Some(soketMap[order[k - 1]]))
                                 else None
      {
        i := i + 1;
        if i >= n {
          break;
        }
        assert order[step] in Elems(order);
        filled[i] := Some(soketMap[order[step]]);
      }
      return Some(filled[..]);
    }
  }

  // ----- The gateway

  class Gateway {
    const connection: Connection
    var sessions: map<Socket, Option<string>>   // open sockets and their session storage
    var hungUp: set<Socket>                      // sockets whose network connection the server closed
    var unleased: seq<string>                    // connIds whose Redis key was deleted, in order

    constructor ()
      ensures fresh(connection) && State() == NO_SOCKETS && hungUp == {} && unleased == []
    {
      connection := new Connection();
      sessions, hungUp, unleased := map[], {}, [];
    }

    function State(): Registry
      reads this, connection
    {
      Registry(sessions, connection.soketMap, connection.count)
    }

    /** A new socket, registered at once if the request names a connId. */
    method IotwsHandler(s: Socket, query: string)
      requires s !in sessions
      modifies this, connection
      ensures State() == Upgraded(old(State()), s, query)
      ensures hungUp == old(hungUp) && unleased == old(unleased)
    {
      sessions := sessions[s := None];
      if query != "" {
        sessions := sessions[s := Some(query)];
        connection.Storage(query, s);
      }
    }

    /** A socket is registered by the first reply that carries a connId; a failure closes it. */
    method OnMessage(s: Socket, reply: Reply)
      requires s in sessions
      modifies this, connection
      ensures State() == Messaged(old(State()), s, reply)
      ensures hungUp == if old(sessions)[s].None? && reply.Failure? then old(hungUp) + {s} else old(hungUp)
      ensures unleased == old(unleased)
    {
      match sessions[s] {
        case None =>
          if reply.Failure? {
            ServerOnClose(s);
            return;
          }
          var sn := ConnIdScan.ExtractSn(reply.text);
          if sn != "" {
            sessions := sessions[s := Some(sn)];
            connection.Storage(sn, s);
          }
        case Some(_) =>
      }
    }

    method ServerOnClose(s: Socket)
      requires s in sessions
      modifies this, connection
      ensures State() == if old(sessions)[s].Some? then Forget(old(State()), old(sessions)[s].value) else old(State())
      ensures hungUp == old(hungUp) + {s}
      ensures unleased == old(unleased) + if old(sessions)[s].Some? then [old(sessions)[s].value] else []
    {
      match sessions[s] {
        case Some(connId) =>
          unleased := unleased + [connId];
          connection.Del(connId);
        case None =>
      }
      hungUp := hungUp + {s};
    }

    method OnClose(s: Socket)
      requires s in sessions
      modifies this, connection
      ensures State() == ClosedBy(old(State()), s)
      ensures hungUp == old(hungUp)
      ensures unleased == old(unleased) + if old(sessions)[s].Some? then [old(sessions)[s].value] else []
    {
      match sessions[s] {
        case Some(connId) =>
          unleased := unleased + [connId];
          connection.Del(connId);
        case None =>
      }
      sessions := sessions - {s};
    }

    /** Hangs up every socket in the table; the registry changes only when their close events arrive. */
    method CloseAll(order: seq<string>)
      requires Enumerates(order, connection.soketMap.Keys)
      modifies this`hungUp
      ensures hungUp == old(hungUp) + connection.soketMap.Values
    {
      ghost var table := connection.soketMap;
      for i := 0 to |order|
        invariant hungUp == old(hungUp) + set j | 0 <= j < i && order[j] in table :: table[order[j]]
      {
        assert order[i] in Elems(order);
        hungUp := hungUp + {connection.soketMap[order[i]]};
      }
      forall v | v in table.Values
        ensures v in hungUp
      {
        var k :| k in table && table[k] == v;
        assert k in Elems(order);
        var j :| 0 <= j < |order| && order[j] == k;
      }
    }
  }

  // ----- The invariant of every run

  function Holders(r: Registry): set<Socket> {
    set s | s in r.sessions && r.sessions[s].Some?
  }

  /** The counter counts the open sockets that hold a connId, and every table entry is one of them. */
  predicate Inv(r: Registry) {
    && r.count == |Holders(r)|
    && forall k :: k in r.table ==> r.table[k] in r.sessions && r.sessions[r.table[k]] == Some(k)
  }

  /** The table is exactly the inverse of the session relation. */
  predicate Exact(r: Registry) {
    forall s :: s in Holders(r) ==> r.sessions[s].value in r.table && r.table[r.sessions[s].value] == s
  }

  /** No open socket holds the connId. */
  predicate Unclaimed(r: Registry, connId: string) {
    forall s :: s in r.sessions ==> r.sessions[s] != Some(connId)
  }

  lemma ClaimKeepsInv(r: Registry, s: Socket, connId: string)
    requires Inv(r) && (s in r.sessions ==> r.sessions[s].None?)
    ensures Inv(Claim(r, s, connId))
  {
    assert Holders(Claim(r, s, connId)) == Holders(r) + {s};
  }

  lemma CloseKeepsInv(r: Registry, s: Socket)
    requires Inv(r) && s in r.sessions
    ensures Inv(ClosedBy(r, s))
    ensures Exact(r) ==> Exact(ClosedBy(r, s))
  {
    assert Holders(ClosedBy(r, s)) == Holders(r) - {s};
  }

  /** A claim keeps the table exact precisely when no open socket holds the id already. */
  lemma ClaimKeepsExactIff(r: Registry, s: Socket, connId: string)
    requires Inv(r) && Exact(r) && (s in r.sessions ==> r.sessions[s].None?)
    ensures Exact(Claim(r, s, connId)) <==> Unclaimed(r, connId)
  {
    var t := Claim(r, s, connId);
    assert Holders(t) == Holders(r) + {s};
    if !Unclaimed(r, connId) {
      var other :| other in r.sessions && r.sessions[other] == Some(connId);
      assert other in Holders(t) && t.table[connId] == s;
    }
  }

  // ----- Sizes

  predicate Injective(m: map<string, Socket>) {
    forall k, k' :: k in m && k' in m && m[k] == m[k'] ==> k == k'
  }

  lemma {:induction false} InjectiveSize(m: map<string, Socket>)
    requires Injective(m)
    ensures |m.Values| == |m|
    decreases |m|
  {
    if m != map[] {
      var k0 :| k0 in m;
      var rest := m - {k0};
      InjectiveSize(rest);
      assert m.Keys == rest.Keys + {k0};
      assert m.Values == rest.Values + {m[k0]} by {
        forall v | v in m.Values
          ensures v in rest.Values + {m[k0]}
        {
          var k :| k in m && m[k] == v;
          assert k != k0 ==> k in rest;
        }
      }
      assert m[k0] !in rest.Values;
    } else {
      assert m.Values == {};
    }
  }

  /** The table never has more entries than the counter says, and as many exactly when it is the inverse of
      the session relation. */
  lemma CountVersusTable(r: Registry)
    requires Inv(r)
    ensures 0 <= |r.table| <= r.count
    ensures |r.table| == r.count <==> Exact(r)
  {
    InjectiveSize(r.table);
    SubsetSize(r.table.Values, Holders(r));
    if Exact(r) {
      assert r.table.Values == Holders(r);
    }
    if |r.table| == r.count {
      forall s | s in Holders(r)
        ensures r.sessions[s].value in r.table && r.table[r.sessions[s].value] == s
      {
        assert s in r.table.Values;
      }
    }
  }

  // ----- Runs

  datatype Event = Upgrade(s: Socket, query: string) | Message(s: Socket, reply: Reply) | Close(s: Socket)

  predicate Enabled(r: Registry, e: Event) {
    if e.Upgrade? then e.s !in r.sessions else e.s in r.sessions
  }

  function Apply(r: Registry, e: Event): Registry
    requires Enabled(r, e)
  {
    match e
    case Upgrade(s, query) => Upgraded(r, s, query)
    case Message(s, reply) => Messaged(r, s, reply)
    case Close(s) => ClosedBy(r, s)
  }

  /** The connId an event claims, "" if none. */
  function Claims(r: Registry, e: Event): string
    requires Enabled(r, e)
  {
    match e
    case Upgrade(_, query) => query
    case Message(s, reply) => if r.sessions[s].Some? || reply.Failure? then "" else ConnIdScan.ExtractSn(reply.text)
    case Close(_) => ""
  }

  predicate Possible(r: Registry, events: seq<Event>)
    decreases |events|
  {
    events == [] || (Enabled(r, events[0]) && Possible(Apply(r, events[0]), events[1..]))
  }

  function Run(r: Registry, events: seq<Event>): Registry
    requires Possible(r, events)
    decreases |events|
  {
    if events == [] then r else Run(Apply(r, events[0]), events[1..])
  }

  /** No connId is ever claimed while another open socket holds it. */
  predicate NoDoubleClaim(r: Registry, events: seq<Event>)
    requires Possible(r, events)
    decreases |events|
  {
    events == [] ||
    ((Claims(r, events[0]) != "" ==> Unclaimed(r, Claims(r, events[0])))
      && NoDoubleClaim(Apply(r, events[0]), events[1..]))
  }

  lemma StepKeepsInv(r: Registry, e: Event)
    requires Inv(r) && Enabled(r, e)
    ensures Inv(Apply(r, e))
    ensures Exact(r) ==> (Exact(Apply(r, e)) <==> (Claims(r, e) != "" ==> Unclaimed(r, Claims(r, e))))
  {
    if e.Close? {
      CloseKeepsInv(r, e.s);
    } else if Claims(r, e) != "" {
      ClaimKeepsInv(r, e.s, Claims(r, e));
      if Exact(r) {
        ClaimKeepsExactIff(r, e.s, Claims(r, e));
      }
    } else {
      assert Holders(Apply(r, e)) == Holders(r);
    }
  }

  /** In every run the counter is the number of open sockets holding a connId, every entry k -> s has s open
      with connId k, and the table has at most as many entries as the counter says; without double claims the
      table is the inverse of the sessions and the two numbers agree. */
  lemma {:induction false} RegistryInEveryRun(r: Registry, events: seq<Event>)
    requires Inv(r) && Possible(r, events)
    ensures var t := Run(r, events);
            && Inv(t) && 0 <= |t.table| <= t.count == |Holders(t)|
            && (Exact(r) && NoDoubleClaim(r, events) ==> Exact(t) && |t.table| == t.count)
    decreases |events|
  {
    if events == [] {
      CountVersusTable(r);
    } else {
      StepKeepsInv(r, events[0]);
      RegistryInEveryRun(Apply(r, events[0]), events[1..]);
    }
  }

  /** The table is the inverse of the sessions in every state of the run. */
  predicate ExactThroughout(r: Registry, events: seq<Event>)
    requires Possible(r, events)
    decreases |events|
  {
    Exact(r) && (events == [] || ExactThroughout(Apply(r, events[0]), events[1..]))
  }

  /** Double claims are the only way to lose exactness, and every one of them does. */
  lemma {:induction false} ExactThroughoutIff(r: Registry, events: seq<Event>)
    requires Inv(r) && Exact(r) && Possible(r, events)
    ensures ExactThroughout(r, events) <==> NoDoubleClaim(r, events)
    decreases |events|
  {
    if events != [] {
      var t := Apply(r, events[0]);
      StepKeepsInv(r, events[0]);
      if Exact(t) {
        ExactThroughoutIff(t, events[1..]);
      }
    }
  }

  /** The connId whose lease the event deletes. */
  function Unleased(r: Registry, e: Event): Option<string>
    requires Enabled(r, e)
  {
    if e.Close? then r.sessions[e.s] else None
  }

  /** No event of the run deletes the lease of `k`. */
  predicate LeaseKept(r: Registry, events: seq<Event>, k: string)
    requires Possible(r, events)
    decreases |events|
  {
    events == [] || (Unleased(r, events[0]) != Some(k) && LeaseKept(Apply(r, events[0]), events[1..], k))
  }

  /** As long as no id is claimed while another socket holds it, only the socket's own close deletes its lease or
      takes it out of the table. */
  lemma {:induction false} OnlyOwnCloseUnleases(r: Registry, events: seq<Event>, s: Socket, k: string)
    requires Inv(r) && Exact(r) && Possible(r, events) && NoDoubleClaim(r, events)
    requires s in r.sessions && r.sessions[s] == Some(k)
    ensures Close(s) !in events <==>
            LeaseKept(r, events, k) && s in Run(r, events).sessions && Run(r, events).sessions[s] == Some(k)
    ensures Close(s) !in events ==> k in Run(r, events).table && Run(r, events).table[k] == s
    decreases |events|
  {
    if events != [] {
      StepKeepsInv(r, events[0]);
      assert Close(s) in events <==> events[0] == Close(s) || Close(s) in events[1..];
      assert s in Holders(r);
      if events[0] != Close(s) {
        OnlyOwnCloseUnleases(Apply(r, events[0]), events[1..], s, k);
      }
    } else {
      assert s in Holders(r);
    }
  }

  lemma EmptyRegistry()
    ensures Inv(NO_SOCKETS) && Exact(NO_SOCKETS)
  {
    assert Holders(NO_SOCKETS) == {};
  }

  /** From the empty gateway on. */
  lemma RegistryFromStart(events: seq<Event>)
    requires Possible(NO_SOCKETS, events)
    ensures var t := Run(NO_SOCKETS, events);
            Inv(t) && 0 <= |t.table| <= t.count == |Holders(t)|
    ensures ExactThroughout(NO_SOCKETS, events) <==> NoDoubleClaim(NO_SOCKETS, events)
  {
    EmptyRegistry();
    RegistryInEveryRun(NO_SOCKETS, events);
    ExactThroughoutIff(NO_SOCKETS, events);
  }

  /** A reconnect that overtakes the close of the old socket: any claim of an id that another socket still
      holds, followed by that socket's close, leaves the new socket open, holding the id, and not in the table. */
  lemma OvertakenCloseLosesSocket(r: Registry, stale: Socket, s: Socket, connId: string)
    requires Inv(r) && stale in r.sessions && r.sessions[stale] == Some(connId) && s !in r.sessions
    ensures var t := ClosedBy(Claim(r, s, connId), stale);
            && Inv(t) && t.sessions[s] == Some(connId) && connId !in t.table
            && |t.table| < t.count
  {
    ClaimKeepsInv(r, s, connId);
    var c := Claim(r, s, connId);
    CloseKeepsInv(c, stale);
    var t := ClosedBy(c, stale);
    assert s in Holders(t);
    CountVersusTable(t);
  }

  // ----- Shutdown

  function CloseEvents(sockets: seq<Socket>): seq<Event> {
    seq(|sockets|, i requires 0 <= i < |sockets| => Close(sockets[i]))
  }

  lemma SomeKeySomeValue(table: map<string, Socket>)
    ensures table != map[] ==> table.Values != {}
  {
    if table != map[] {
      var k :| k in table;
      assert table[k] in table.Values;
    }
  }

  lemma {:induction false} ClosingTable(r: Registry, sockets: seq<Socket>)
    requires Inv(r) && Enumerates(sockets, r.table.Values)
    ensures Possible(r, CloseEvents(sockets))
    ensures var t := Run(r, CloseEvents(sockets));
            Inv(t) && t.table == map[] && t.count == r.count - |sockets|
    decreases |sockets|
  {
    if sockets == [] {
      assert |r.table.Values| == 0;
      SomeKeySomeValue(r.table);
    } else {
      var s := sockets[0];
      assert s in r.table.Values by {
        assert s in Elems(sockets);
      }
      var k :| k in r.table && r.table[k] == s;
      CloseKeepsInv(r, s);
      var next := ClosedBy(r, s);
      DistinctTail(sockets);
      assert next.table.Values == r.table.Values - {s} by {
        forall v | v in r.table.Values - {s}
          ensures v in next.table.Values
        {
          var k' :| k' in r.table && r.table[k'] == v;
          assert k' in next.table;
        }
      }
      ClosingTable(next, sockets[1..]);
      assert CloseEvents(sockets)[1..] == CloseEvents(sockets[1..]);
    }
  }

  /** Graceful shutdown: once the close events of all sockets in the table have arrived, in any order, the
      table is empty and the counter is short by exactly its former size; if the table was exact, nothing that
      holds a connId stays open. */
  lemma ShutdownEmptiesTable(r: Registry, sockets: seq<Socket>)
    requires Inv(r) && Enumerates(sockets, r.table.Values)
    ensures Possible(r, CloseEvents(sockets))
    ensures var t := Run(r, CloseEvents(sockets));
            && t.table == map[] && t.count == r.count - |r.table|
            && (Exact(r) <==> Holders(t) == {})
  {
    ClosingTable(r, sockets);
    EnumerationLength(sockets, r.table.Values);
    InjectiveSize(r.table);
    CountVersusTable(r);
  }
}
