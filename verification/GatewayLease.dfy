/** The gateway's registry and the leases of its connections together: socket events register connIds and delete
    leases, the job renews the leases of the table. The keys are shared with the other gateways, whose sockets' closes
    delete leases and whose jobs renew them. */
module GatewayLease {
  import opened Common
  import R = SessionRegistry
  import L = ConnLease

  datatype Gateway = Gateway(reg: R.Registry, lease: L.Sys)

  datatype Event =
    | Socket(e: R.Event)
    | Lease(l: L.Event)                                     // waiting, a login, a tick
    | CloseElsewhere(k: string)                             // a socket carrying k closes at another gateway
    | TickElsewhere(ids: set<string>, faulty: set<string>)  // another gateway renews its table

  predicate Enabled(g: Gateway, e: Event) {
    match e
    case Socket(s) => R.Enabled(g.reg, s)
    case Lease(l) => !l.Register? && !l.Closed? && L.Enabled(g.lease, l)
    case CloseElsewhere(_) => true
    case TickElsewhere(_, _) => true
  }

  /** What a socket event does to table and leases. */
  function Effect(reg: R.Registry, e: R.Event): Option<L.Event>
    requires R.Enabled(reg, e)
  {
    if R.Claims(reg, e) != "" then Some(L.Register(R.Claims(reg, e)))
    else if R.Unleased(reg, e).Some? then Some(L.Closed(R.Unleased(reg, e).value))
    else None
  }

  function Apply(g: Gateway, e: Event): Gateway
    requires Enabled(g, e)
  {
    match e
    case Lease(l) => g.(lease := L.Apply(g.lease, l))
    case CloseElsewhere(k) => g.(lease := g.lease.(redis := g.lease.redis - {k}))
    case TickElsewhere(ids, faulty) =>
      g.(lease := g.lease.(redis := L.RenewAll(g.lease.redis, g.lease.now, ids, faulty)))
    case Socket(s) =>
      var lease := match Effect(g.reg, s) case None => g.lease case Some(l) => L.Apply(g.lease, l);
      Gateway(R.Apply(g.reg, s), lease)
  }

  predicate Possible(g: Gateway, events: seq<Event>)
    decreases |events|
  {
    events == [] || (Enabled(g, events[0]) && Possible(Apply(g, events[0]), events[1..]))
  }

  function Run(g: Gateway, events: seq<Event>): Gateway
    requires Possible(g, events)
    decreases |events|
  {
    if events == [] then g else Run(Apply(g, events[0]), events[1..])
  }

  /** The job renews exactly the connIds in the gateway's table, and that table is exact. */
  predicate Sound(g: Gateway) {
    R.Inv(g.reg) && R.Exact(g.reg) && g.lease.table == g.reg.table.Keys
  }

  /** At this gateway: no double claim, ticks at most `gap` apart, renewals of `k` work, and `s` does not close. */
  predicate FairHere(g: Gateway, e: Event, s: R.Socket, k: string, gap: nat)
    requires Enabled(g, e)
  {
    match e
    case Socket(x) => x != R.Close(s) && (R.Claims(g.reg, x) != "" ==> R.Unclaimed(g.reg, R.Claims(g.reg, x)))
    case Lease(l) => L.Timely(g.lease, l, gap) && (l.Tick? ==> k !in l.faulty)
    case CloseElsewhere(_) => true
    case TickElsewhere(_, _) => true
  }

  /** And no socket carrying `k` closes at another one. */
  predicate Fair(g: Gateway, e: Event, s: R.Socket, k: string, gap: nat)
    requires Enabled(g, e)
  {
    FairHere(g, e, s, k, gap) && e != CloseElsewhere(k)
  }

  predicate FairRun(g: Gateway, events: seq<Event>, s: R.Socket, k: string, gap: nat)
    requires Possible(g, events)
    decreases |events|
  {
    events == [] || (Fair(g, events[0], s, k, gap) && FairRun(Apply(g, events[0]), events[1..], s, k, gap))
  }

  /** The event is a tick at which the job hangs up on `k`. */
  predicate HangsUpOn(g: Gateway, e: Event, k: string) {
    IsTick(e) && L.Flagged(g.lease.redis, g.lease.now, e.l.order, e.l.faulty) == Some(k)
  }

  predicate NeverFlagged(g: Gateway, events: seq<Event>, k: string)
    requires Possible(g, events)
    decreases |events|
  {
    events == [] || (!HangsUpOn(g, events[0], k) && NeverFlagged(Apply(g, events[0]), events[1..], k))
  }

  lemma StepKeepsSound(g: Gateway, e: Event)
    requires Sound(g) && Enabled(g, e)
    requires e.Socket? && R.Claims(g.reg, e.e) != "" ==> R.Unclaimed(g.reg, R.Claims(g.reg, e.e))
    ensures Sound(Apply(g, e))
  {
    if e.Socket? {
      R.StepKeepsInv(g.reg, e.e);
    }
  }

  /** `s` is the open socket that holds `k`. */
  predicate Holds(g: Gateway, s: R.Socket, k: string) {
    s in g.reg.sessions && g.reg.sessions[s] == Some(k)
  }

  /** To the lease of `k` a fair socket event is one that spares it: the close of another socket is the close of
      another connId. */
  lemma StepKeepsHeld(g: Gateway, e: Event, s: R.Socket, k: string, gap: nat)
    requires Sound(g) && Holds(g, s, k) && Enabled(g, e) && Fair(g, e, s, k, gap)
    requires L.Safe(g.lease, k, gap) && gap < L.CONN_TIME
    ensures Holds(Apply(g, e), s, k) && L.Safe(Apply(g, e).lease, k, gap)
    ensures !HangsUpOn(g, e, k)
  {
    assert s in R.Holders(g.reg);
    match e {
      case Lease(l) => L.StepKeepsSafe(g.lease, l, k, gap);
      case Socket(x) =>
        if Effect(g.reg, x).Some? {
          var l := Effect(g.reg, x).value;
          if l.Closed? {
            assert x.s in R.Holders(g.reg);
          }
          L.StepKeepsSafe(g.lease, l, k, gap);
        }
      case CloseElsewhere(_) =>
      case TickElsewhere(_, _) =>
    }
  }

  const EMPTY := Gateway(R.NO_SOCKETS, L.Sys(0, map[], {}, 0))

  predicate NoDoubleClaim(g: Gateway, events: seq<Event>)
    requires Possible(g, events)
    decreases |events|
  {
    events == [] ||
    ((events[0].Socket? && R.Claims(g.reg, events[0].e) != "" ==> R.Unclaimed(g.reg, R.Claims(g.reg, events[0].e)))
     && NoDoubleClaim(Apply(g, events[0]), events[1..]))
  }

  lemma {:induction false} SoundInEveryRun(g: Gateway, events: seq<Event>)
    requires Sound(g) && Possible(g, events) && NoDoubleClaim(g, events)
    ensures Sound(Run(g, events))
    decreases |events|
  {
    if events != [] {
      StepKeepsSound(g, events[0]);
      SoundInEveryRun(Apply(g, events[0]), events[1..]);
    }
  }

  /** From the empty gateway on, the job renews exactly the connIds of the open sockets, as long as no id is claimed
      twice. */
  lemma SoundFromStart(events: seq<Event>)
    requires Possible(EMPTY, events) && NoDoubleClaim(EMPTY, events)
    ensures Sound(Run(EMPTY, events))
  {
    R.EmptyRegistry();
    SoundInEveryRun(EMPTY, events);
  }

  /** In every run without double claims and with timely, working renewals, a socket that does not close keeps its
      id, its place in the table and its lease, and is never hung up on, whatever the other sockets do here and whatever
      sockets with other ids do at other gateways. */
  lemma {:induction false} HeldConnectionStays(g: Gateway, events: seq<Event>, s: R.Socket, k: string, gap: nat)
    requires Sound(g) && Holds(g, s, k) && L.Safe(g.lease, k, gap) && gap < L.CONN_TIME
    requires Possible(g, events) && FairRun(g, events, s, k, gap)
    ensures var t := Run(g, events);
            && Sound(t) && Holds(t, s, k) && k in t.reg.table && t.reg.table[k] == s
            && L.Live(t.lease.redis, t.lease.now, k)
    ensures NeverFlagged(g, events, k)
    decreases |events|
  {
    if events != [] {
      StepKeepsSound(g, events[0]);
      StepKeepsHeld(g, events[0], s, k, gap);
      HeldConnectionStays(Apply(g, events[0]), events[1..], s, k, gap);
    } else {
      assert s in R.Holders(g.reg);
    }
  }

  /** Exactly which connections are safe from the job in every such run: those whose lease outlives the latest
      possible next tick. */
  lemma HeldConnectionStaysIff(g: Gateway, s: R.Socket, k: string, gap: nat)
    requires Sound(g) && Holds(g, s, k) && gap < L.CONN_TIME
    requires g.lease.lastTick <= g.lease.now <= g.lease.lastTick + gap
    ensures (forall events :: Possible(g, events) && FairRun(g, events, s, k, gap) ==> NeverFlagged(g, events, k))
            <==> k in g.lease.redis && g.lease.redis[k] > g.lease.lastTick + gap
  {
    assert s in R.Holders(g.reg);
    if L.Safe(g.lease, k, gap) {
      forall events | Possible(g, events) && FairRun(g, events, s, k, gap)
        ensures NeverFlagged(g, events, k)
      {
        HeldConnectionStays(g, events, s, k, gap);
      }
    } else {
      var order := EnumerationExists(g.lease.table - {k});
      LastTick(g, s, k, gap, order);
    }
  }

  lemma LastTick(g: Gateway, s: R.Socket, k: string, gap: nat, others: seq<string>)
    requires k in g.lease.table && g.lease.lastTick <= g.lease.now <= g.lease.lastTick + gap
    requires !L.Live(g.lease.redis, g.lease.lastTick + gap, k) && Enumerates(others, g.lease.table - {k})
    ensures var wait, tick := Lease(L.Advance(g.lease.lastTick + gap - g.lease.now)), Lease(L.Tick([k] + others, {}));
            Possible(g, [wait, tick]) && FairRun(g, [wait, tick], s, k, gap) && !NeverFlagged(g, [wait, tick], k)
  {
    var wait, tick := Lease(L.Advance(g.lease.lastTick + gap - g.lease.now)), Lease(L.Tick([k] + others, {}));
    assert k !in others by {
      assert k !in Elems(others);
    }
    assert Elems([k] + others) == {k} + Elems(others);
    assert [wait, tick][1..] == [tick] && [tick][1..] == [];
    L.FirstFailureIsFirst(g.lease.redis, g.lease.lastTick + gap, [k] + others);
    var t := Apply(g, wait);
    assert Enabled(t, tick) && Possible(t, [tick]);
    assert !NeverFlagged(t, [tick], k);
  }

  /** When the close of an old socket of the same device at another gateway arrives after the device has moved here, it
      deletes the lease that the new login set: from every such state the job can hang up on the new connection, though
      it does not close, claims nothing twice and is renewed in time. */
  lemma LateCloseElsewhereDooms(g: Gateway, s: R.Socket, k: string, gap: nat)
    requires Sound(g) && Holds(g, s, k) && gap < L.CONN_TIME
    requires g.lease.lastTick <= g.lease.now <= g.lease.lastTick + gap
    ensures var t := Apply(g, CloseElsewhere(k));
            && Sound(t) && Holds(t, s, k)
            && exists events :: Possible(t, events) && FairRun(t, events, s, k, gap) && !NeverFlagged(t, events, k)
  {
    HeldConnectionStaysIff(Apply(g, CloseElsewhere(k)), s, k, gap);
  }

  predicate FairHereRun(g: Gateway, events: seq<Event>, s: R.Socket, k: string, gap: nat)
    requires Possible(g, events)
    decreases |events|
  {
    events == [] || (FairHere(g, events[0], s, k, gap) && FairHereRun(Apply(g, events[0]), events[1..], s, k, gap))
  }

  predicate IsTick(e: Event) {
    e.Lease? && e.l.Tick?
  }

  /** Every tick finds the lease of `k`, so that the job has no reason to hang up. */
  predicate LeaseAtEveryTick(g: Gateway, events: seq<Event>, k: string)
    requires Possible(g, events)
    decreases |events|
  {
    events == [] ||
    ((IsTick(events[0]) ==> L.Live(g.lease.redis, g.lease.now, k))
     && LeaseAtEveryTick(Apply(g, events[0]), events[1..], k))
  }

  /** A close of `k` elsewhere still waits for a login. */
  function Owed(owed: bool, e: Event, k: string): bool {
    if e == CloseElsewhere(k) then true else if e == Lease(L.Login(k)) then false else owed
  }

  /** A login follows every close of `k` elsewhere before the next tick. */
  predicate ClosesMadeGood(events: seq<Event>, owed: bool, k: string)
    decreases |events|
  {
    events == [] || ((IsTick(events[0]) ==> !owed) && ClosesMadeGood(events[1..], Owed(owed, events[0], k), k))
  }

  predicate InStep(g: Gateway, k: string, gap: nat, owed: bool) {
    && g.lease.lastTick <= g.lease.now <= g.lease.lastTick + gap
    && if owed then k !in g.lease.redis else L.Safe(g.lease, k, gap)
  }

  lemma StepKeepsInStep(g: Gateway, e: Event, s: R.Socket, k: string, gap: nat, owed: bool)
    requires Sound(g) && Holds(g, s, k) && InStep(g, k, gap, owed) && gap < L.CONN_TIME
    requires Enabled(g, e) && FairHere(g, e, s, k, gap) && (IsTick(e) ==> !owed)
    ensures Sound(Apply(g, e)) && Holds(Apply(g, e), s, k) && InStep(Apply(g, e), k, gap, Owed(owed, e, k))
  {
    StepKeepsSound(g, e);
    assert s in R.Holders(g.reg);
    if !owed && e != CloseElsewhere(k) {
      StepKeepsHeld(g, e, s, k, gap);
    }
  }

  /** Exactly which closes elsewhere a connection survives: in every run that is fair at this gateway, each tick finds
      its lease if and only if a login follows every such close before the next tick. */
  lemma {:induction false} LeaseAtEveryTickIff(g: Gateway, events: seq<Event>, s: R.Socket, k: string, gap: nat,
                                               owed: bool)
    requires Sound(g) && Holds(g, s, k) && InStep(g, k, gap, owed) && gap < L.CONN_TIME
    requires Possible(g, events) && FairHereRun(g, events, s, k, gap)
    ensures LeaseAtEveryTick(g, events, k) <==> ClosesMadeGood(events, owed, k)
    decreases |events|
  {
    if events != [] && (IsTick(events[0]) ==> !owed) {
      StepKeepsInStep(g, events[0], s, k, gap, owed);
      LeaseAtEveryTickIff(Apply(g, events[0]), events[1..], s, k, gap, Owed(owed, events[0], k));
    }
  }

  lemma {:induction false} LeasedIsNeverFlagged(g: Gateway, events: seq<Event>, k: string)
    requires Possible(g, events) && LeaseAtEveryTick(g, events, k)
    ensures NeverFlagged(g, events, k)
    decreases |events|
  {
    if events != [] {
      if IsTick(events[0]) {
        L.FlaggedIsStale(g.lease.redis, g.lease.now, events[0].l.order, events[0].l.faulty);
      }
      LeasedIsNeverFlagged(Apply(g, events[0]), events[1..], k);
    }
  }
}
