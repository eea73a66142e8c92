/** The log bridge: deliveries from JetStream go through a bounded channel into a batch buffer; a batch is pushed
    to Loki and each of its deliveries is then acknowledged, or negatively acknowledged if the push failed. */
module LogBridge {
  import opened Common

  datatype Stats = Stats(dropped: nat, sent: nat, failed: nat, naked: nat)

  /** `Settling(accepted, done)`: the push has returned and `done` deliveries of the buffer are settled. */
  datatype Phase = Collecting | Settling(accepted: bool, done: nat)

  /** Deliveries are numbered in order of arrival. `acked`, `naked` and `refused` (channel full) list the
      settled ones, `batches` and `rejected` the batches Loki accepted and those whose push failed. */
  datatype Bridge = Bridge(
    ch: seq<nat>, buf: seq<nat>, phase: Phase,
    acked: seq<nat>, naked: seq<nat>, refused: seq<nat>,
    batches: seq<seq<nat>>, rejected: seq<seq<nat>>, st: Stats)

  const IDLE := Bridge([], [], Collecting, [], [], [], [], [], Stats(0, 0, 0, 0))

  // ----- The steps on values; `size` is the batch size, the channel holds twice as many

  function Callback(b: Bridge, size: nat, id: nat, parseable: bool): Bridge {
    if !parseable then b.(acked := b.acked + [id])
    else if |b.ch| < 2 * size then b.(ch := b.ch + [id])
    else b.(refused := b.refused + [id], st := b.st.(dropped := b.st.dropped + 1))
  }

  function StartFlush(b: Bridge, accepted: bool): Bridge {
    if b.buf == [] then b
    else if accepted then b.(phase := Settling(true, 0), batches := b.batches + [b.buf])
    else b.(phase := Settling(false, 0), rejected := b.rejected + [b.buf])
  }

  function Receive(b: Bridge, size: nat, accepted: bool): Bridge
    requires b.ch != []
  {
    var r := b.(ch := b.ch[1..], buf := b.buf + [b.ch[0]]);
    if |r.buf| >= size then StartFlush(r, accepted) else r
  }

  predicate CanSettle(b: Bridge) {
    b.phase.Settling? && b.phase.done < |b.buf|
  }

  function Settle(b: Bridge): Bridge
    requires CanSettle(b)
  {
    var id := b.buf[b.phase.done];
    var r := b.(phase := b.phase.(done := b.phase.done + 1));
    if b.phase.accepted then r.(acked := b.acked + [id]) else r.(naked := b.naked + [id])
  }

  function Finish(b: Bridge): Bridge
    requires b.phase.Settling?
  {
    var st := if b.phase.accepted then b.st.(sent := b.st.sent + 1)
              else b.st.(failed := b.st.failed + 1, naked := b.st.naked + |b.buf|);
    b.(buf := [], phase := Collecting, st := st)
  }

  /** A whole flush at once. */
  function Flushed(b: Bridge, accepted: bool): Bridge {
    if b.buf == [] then b
    else if accepted then
      b.(buf := [], acked := b.acked + b.buf, batches := b.batches + [b.buf], st := b.st.(sent := b.st.sent + 1))
    else
      b.(buf := [], naked := b.naked + b.buf, rejected := b.rejected + [b.buf],
      st := b.st.(failed := b.st.failed + 1, naked := b.st.naked + |b.buf|))
  }

  function SettleRest(b: Bridge): Bridge
    requires b.phase.Settling? && b.phase.done <= |b.buf|
    decreases |b.buf| - b.phase.done
  {
    if CanSettle(b) then SettleRest(Settle(b)) else Finish(b)
  }

  lemma {:induction false} SettleRestIs(b: Bridge)
    requires b.phase.Settling? && b.phase.done <= |b.buf|
    ensures var rest := b.buf[b.phase.done..];
            SettleRest(b) ==
              Finish(if b.phase.accepted then b.(acked := b.acked + rest) else b.(naked := b.naked + rest))
    decreases |b.buf| - b.phase.done
  {
    if CanSettle(b) {
      SettleRestIs(Settle(b));
      OneThenRest(b.acked, b.buf, b.phase.done);
      OneThenRest(b.naked, b.buf, b.phase.done);
    } else {
      assert b.buf[b.phase.done..] == [];
      assert b.acked + [] == b.acked && b.naked + [] == b.naked;
    }
  }

  lemma OneThenRest(settled: seq<nat>, buf: seq<nat>, i: nat)
    requires i < |buf|
    ensures settled + buf[i..] == settled + [buf[i]] + buf[i + 1..]
  {
  }

  /** The whole flush is what settling one delivery after another comes to. */
  lemma FlushIsItsSteps(b: Bridge, accepted: bool)
    requires b.phase.Collecting? && b.buf != []
    ensures SettleRest(StartFlush(b, accepted)) == Flushed(b, accepted)
  {
    var s := StartFlush(b, accepted);
    SettleRestIs(s);
    assert s.buf[0..] == b.buf;
  }

  // ----- The program

  class FlushLoop {
    const maxSize: nat
    var ch: seq<nat>
    var buf: seq<nat>
    var st: Stats
    var acked: seq<nat>          // what was told to JetStream and Loki
    var naked: seq<nat>
    var refused: seq<nat>
    var batches: seq<seq<nat>>
    var rejected: seq<seq<nat>>

    constructor (batchSize: int)
      ensures maxSize == if batchSize <= 0 then 5000 else batchSize
      ensures State() == IDLE
    {
      maxSize := if batchSize <= 0 then 5000 else batchSize;
      ch, buf, acked, naked, refused, batches, rejected := [], [], [], [], [], [], [];
      st := Stats(0, 0, 0, 0);
    }

    function State(): Bridge
      reads this
    {
      Bridge(ch, buf, Collecting, acked, naked, refused, batches, rejected, st)
    }

    /** The subscription callback. */
    method OnDelivery(id: nat, parseable: bool)
      modifies this
      ensures State() == Callback(old(State()), maxSize, id, parseable)
    {
      if !parseable {
        acked := acked + [id];
        return;
      }
      if |ch| < 2 * maxSize {
        ch := ch + [id];
      } else {
        refused := refused + [id];
        st := st.(dropped := st.dropped + 1);
      }
    }

    /** `accepted` is Loki's verdict on the batch. */
    method DoFlush(accepted: bool)
      modifies this
      ensures State() == Flushed(old(State()), accepted)
    {
      if |buf| == 0 {
        return;
      }
      if !accepted {
        st := st.(failed := st.failed + 1);
        rejected := rejected + [buf];
        for i := 0 to |buf|
          modifies this`naked
          invariant naked == old(naked) + buf[..i]
        {
          naked := naked + [buf[i]];
        }
        assert buf[..|buf|] == buf;
        st := st.(naked := st.naked + |buf|);
        buf := [];
        return;
      }
      batches := batches + [buf];
      for i := 0 to |buf|
        modifies this`acked
        invariant acked == old(acked) + buf[..i]
      {
        acked := acked + [buf[i]];
      }
      assert buf[..|buf|] == buf;
      st := st.(sent := st.sent + 1);
      buf := [];
    }

    /** One turn of the loop on a message. */
    method OnReceive(accepted: bool)
      requires ch != []
      modifies this
      ensures var r := Receive(old(State()), maxSize, accepted);
              State() == if r.phase.Settling? then SettleRest(r) else r
    {
      ghost var before := State();
      buf := buf + [ch[0]];
      ch := ch[1..];
      ghost var b := State();
      if |buf| >= maxSize {
        DoFlush(accepted);
        FlushIsItsSteps(b, accepted);
      }
    }

    /** One turn of the loop on a tick. */
    method OnTick(accepted: bool)
      modifies this
      ensures var r := StartFlush(old(State()), accepted);
              State() == if r.phase.Settling? then SettleRest(r) else r
    {
      ghost var b := State();
      if buf != [] {
        FlushIsItsSteps(b, accepted);
      }
      DoFlush(accepted);
    }
  }

  // ----- The bridge and the server

  /** `msgs[id]` is the message of delivery `id`; `garbage` are the messages that do not parse; `unacked` are
      the deliveries the server waits for, at most `MaxAckPending` = 2 * size of them. */
  datatype Sys = Sys(b: Bridge, size: nat, garbage: set<nat>, msgs: seq<nat>, unacked: set<nat>)

  datatype Event =
    | Deliver(msg: nat)
    | Take(accepted: bool)
    | Tick(accepted: bool)
    | SettleOne
    | FinishFlush
    | Expire(id: nat)        // AckWait runs out for a delivery

  predicate Enabled(s: Sys, e: Event) {
    match e
    case Deliver(_) => |s.unacked| < 2 * s.size
    case Take(_) => s.b.phase.Collecting? && s.b.ch != []
    case Tick(_) => s.b.phase.Collecting?
    case SettleOne => CanSettle(s.b)
    case FinishFlush => s.b.phase.Settling? && s.b.phase.done == |s.b.buf|
    case Expire(id) => id in s.unacked
  }

  function Apply(s: Sys, e: Event): Sys
    requires Enabled(s, e)
  {
    match e
    case Deliver(msg) =>
      var id := |s.msgs|;
      var b := Callback(s.b, s.size, id, msg !in s.garbage);
      s.(b := b, msgs := s.msgs + [msg], unacked := if id in b.ch then s.unacked + {id} else s.unacked)
    case Take(accepted) => s.(b := Receive(s.b, s.size, accepted))
    case Tick(accepted) => s.(b := StartFlush(s.b, accepted))
    case SettleOne => s.(b := Settle(s.b), unacked := s.unacked - {s.b.buf[s.b.phase.done]})
    case FinishFlush => s.(b := Finish(s.b))
    case Expire(id) => s.(unacked := s.unacked - {id})
  }

  function Start(size: nat, garbage: set<nat>): Sys {
    Sys(IDLE, size, garbage, [], {})
  }

  predicate Possible(s: Sys, events: seq<Event>)
    decreases |events|
  {
    events == [] || (Enabled(s, events[0]) && Possible(Apply(s, events[0]), events[1..]))
  }

  function Run(s: Sys, events: seq<Event>): Sys
    requires Possible(s, events)
    decreases |events|
  {
    if events == [] then s else Run(Apply(s, events[0]), events[1..])
  }

  // ----- Every delivery in exactly one place

  /** The deliveries of the buffer that are not settled yet. */
  function Pending(b: Bridge): seq<nat> {
    if b.phase.Settling? && b.phase.done <= |b.buf| then b.buf[b.phase.done..] else b.buf
  }

  function Ids(n: nat): seq<nat> {
    if n == 0 then [] else Ids(n - 1) + [n - 1]
  }

  lemma {:induction false} IdsCount(n: nat, id: nat)
    ensures multiset(Ids(n))[id] == if id < n then 1 else 0
  {
    if n > 0 {
      IdsCount(n - 1, id);
    }
  }

  /** Where the deliveries are, with multiplicity. */
  function Places(b: Bridge): multiset<nat> {
    multiset(b.ch) + multiset(Pending(b)) + multiset(b.acked) + multiset(b.naked) + multiset(b.refused)
  }

  predicate Phased(s: Sys) {
    && s.size >= 1
    && |s.b.ch| <= 2 * s.size
    && match s.b.phase
       case Collecting => |s.b.buf| < s.size
       case Settling(_, done) => 0 < |s.b.buf| <= s.size && done <= |s.b.buf|
  }

  predicate Conserved(s: Sys) {
    Places(s.b) == multiset(Ids(|s.msgs|))
  }

  lemma CallbackConserves(b: Bridge, size: nat, id: nat, parseable: bool)
    ensures Places(Callback(b, size, id, parseable)) == Places(b) + multiset{id}
  {
  }

  lemma StartFlushConserves(b: Bridge, accepted: bool)
    requires b.phase.Collecting?
    ensures Places(StartFlush(b, accepted)) == Places(b)
    ensures Pending(StartFlush(b, accepted)) == b.buf
  {
    assert b.buf[0..] == b.buf;
  }

  lemma ReceiveConserves(b: Bridge, size: nat, accepted: bool)
    requires b.phase.Collecting? && b.ch != []
    ensures Places(Receive(b, size, accepted)) == Places(b)
    ensures Pending(Receive(b, size, accepted)) == b.buf + [b.ch[0]]
  {
    var r := b.(ch := b.ch[1..], buf := b.buf + [b.ch[0]]);
    assert b.ch == [b.ch[0]] + b.ch[1..];
    assert Places(r) == Places(b);
    StartFlushConserves(r, accepted);
  }

  lemma SettleConserves(b: Bridge)
    requires CanSettle(b)
    ensures Places(Settle(b)) == Places(b)
    ensures Pending(b) == [b.buf[b.phase.done]] + Pending(Settle(b))
  {
    assert b.buf[b.phase.done..] == [b.buf[b.phase.done]] + b.buf[b.phase.done + 1..];
  }

  lemma FinishConserves(b: Bridge)
    requires b.phase.Settling? && b.phase.done == |b.buf|
    ensures Places(Finish(b)) == Places(b) && Pending(b) == []
  {
  }

  lemma StepPhased(s: Sys, e: Event)
    requires Phased(s) && Enabled(s, e)
    ensures Phased(Apply(s, e))
  {
  }

  /** A delivery adds itself; no other step changes how often a delivery occurs. */
  lemma StepPlaces(s: Sys, e: Event)
    requires Enabled(s, e)
    ensures Places(Apply(s, e).b) == if e.Deliver? then Places(s.b) + multiset{|s.msgs|} else Places(s.b)
  {
    match e {
      case Deliver(msg) => CallbackConserves(s.b, s.size, |s.msgs|, msg !in s.garbage);
      case Take(accepted) => ReceiveConserves(s.b, s.size, accepted);
      case Tick(accepted) => StartFlushConserves(s.b, accepted);
      case SettleOne => SettleConserves(s.b);
      case FinishFlush => FinishConserves(s.b);
      case Expire(id) =>
    }
  }

  lemma IdsNext(n: nat)
    ensures multiset(Ids(n + 1)) == multiset(Ids(n)) + multiset{n}
  {
  }

  lemma StepConserves(s: Sys, e: Event)
    requires Conserved(s) && Enabled(s, e)
    ensures Conserved(Apply(s, e))
  {
    StepPlaces(s, e);
    IdsNext(|s.msgs|);
    assert |Apply(s, e).msgs| == |s.msgs| + if e.Deliver? then 1 else 0;
  }

  // ----- Acknowledged means accepted

  /** What the lists say about the deliveries in them. */
  ghost predicate Truthful(s: Sys) {
    Parsed(s) && Accepted(s)
  }

  ghost predicate Parsed(s: Sys) {
    forall id :: id in s.b.ch || id in s.b.buf || id in s.b.naked || id in s.b.refused ==>
      id < |s.msgs| && s.msgs[id] !in s.garbage
  }

  ghost predicate Accepted(s: Sys) {
    && (forall id :: id in s.b.acked ==>
          id < |s.msgs| && (s.msgs[id] in s.garbage || exists k :: 0 <= k < |s.b.batches| && id in s.b.batches[k]))
    && (forall k, id :: 0 <= k < |s.b.batches| && id in s.b.batches[k] ==>
          || id in s.b.acked
          || (s.b.phase.Settling? && s.b.phase.accepted && k == |s.b.batches| - 1 && id in Pending(s.b)))
    && (s.b.phase.Settling? && s.b.phase.accepted ==> s.b.batches != [] && s.b.batches[|s.b.batches| - 1] == s.b.buf)
  }

  lemma DeliverTruthful(s: Sys, msg: nat)
    requires Phased(s) && Truthful(s) && Enabled(s, Deliver(msg))
    ensures Truthful(Apply(s, Deliver(msg)))
  {
    DeliverParsed(s, msg);
    var t := Apply(s, Deliver(msg));
    assert Pending(t.b) == Pending(s.b) && t.b.batches == s.b.batches;
    forall id | id in t.b.acked
      ensures id < |t.msgs| && (t.msgs[id] in t.garbage || exists k :: 0 <= k < |t.b.batches| && id in t.b.batches[k])
    {
      assert id in s.b.acked || id == |s.msgs|;
    }
  }

  lemma DeliverParsed(s: Sys, msg: nat)
    requires Parsed(s) && Enabled(s, Deliver(msg))
    ensures Parsed(Apply(s, Deliver(msg)))
  {
  }

  lemma FlushTruthful(s: Sys, accepted: bool)
    requires Truthful(s) && s.b.phase.Collecting?
    ensures Truthful(s.(b := StartFlush(s.b, accepted)))
  {
    StartFlushConserves(s.b, accepted);
    var batches := StartFlush(s.b, accepted).batches;
    assert forall k :: 0 <= k < |s.b.batches| ==> batches[k] == s.b.batches[k];
    forall id | id in s.b.acked && s.msgs[id] !in s.garbage
      ensures exists k :: 0 <= k < |batches| && id in batches[k]
    {
      var k :| 0 <= k < |s.b.batches| && id in s.b.batches[k];
      assert id in batches[k];
    }
  }

  lemma TakeTruthful(s: Sys, accepted: bool)
    requires Truthful(s) && Enabled(s, Take(accepted))
    ensures Truthful(Apply(s, Take(accepted)))
  {
    var t := s.(b := s.b.(ch := s.b.ch[1..], buf := s.b.buf + [s.b.ch[0]]));
    assert s.b.ch[0] in s.b.ch;
    assert forall id :: id in t.b.buf <==> id in s.b.buf || id == s.b.ch[0];
    assert forall id :: id in t.b.ch ==> id in s.b.ch;
    assert Truthful(t);
    FlushTruthful(t, accepted);
  }

  lemma SettleTruthful(s: Sys)
    requires Phased(s) && Truthful(s) && Enabled(s, SettleOne)
    ensures Truthful(Apply(s, SettleOne))
  {
    SettleAccepted(s);
    assert s.b.buf[s.b.phase.done] in s.b.buf;
  }

  lemma SettleAccepted(s: Sys)
    requires Phased(s) && Truthful(s) && Enabled(s, SettleOne)
    ensures Accepted(Apply(s, SettleOne))
  {
    var id, t := s.b.buf[s.b.phase.done], Apply(s, SettleOne);
    assert id in s.b.buf && s.msgs == t.msgs && s.garbage == t.garbage;
    forall x | x in t.b.acked
      ensures x < |t.msgs| && (t.msgs[x] in t.garbage || exists k :: 0 <= k < |t.b.batches| && x in t.b.batches[k])
    {
      if x !in s.b.acked {
        assert x in s.b.batches[|s.b.batches| - 1];
      }
    }
    forall k, x | 0 <= k < |t.b.batches| && x in t.b.batches[k] && x !in t.b.acked
      ensures t.b.phase.accepted && k == |t.b.batches| - 1 && x in Pending(t.b)
    {
      PendingNext(s.b, x);
    }
  }

  lemma PendingNext(b: Bridge, x: nat)
    requires CanSettle(b)
    ensures x in Pending(b) <==> x == b.buf[b.phase.done] || x in Pending(Settle(b))
  {
    assert b.buf[b.phase.done..] == [b.buf[b.phase.done]] + b.buf[b.phase.done + 1..];
  }

  lemma StepTruthful(s: Sys, e: Event)
    requires Phased(s) && Truthful(s) && Enabled(s, e)
    ensures Truthful(Apply(s, e))
  {
    match e {
      case Deliver(msg) => DeliverTruthful(s, msg);
      case Take(accepted) => TakeTruthful(s, accepted);
      case Tick(accepted) => FlushTruthful(s, accepted);
      case SettleOne => SettleTruthful(s);
      case FinishFlush => FinishConserves(s.b);
      case Expire(id) =>
    }
  }

  /** The counters are exact whenever the loop is between flushes. */
  predicate Counted(b: Bridge) {
    && b.st.dropped == |b.refused|
    && b.st.sent == |b.batches| - (if b.phase.Settling? && b.phase.accepted then 1 else 0)
    && b.st.failed == |b.rejected| - (if b.phase.Settling? && !b.phase.accepted then 1 else 0)
    && b.st.naked == |b.naked| - (if b.phase.Settling? && !b.phase.accepted then b.phase.done else 0)
  }

  lemma StepCounted(s: Sys, e: Event)
    requires Phased(s) && Counted(s.b) && Enabled(s, e)
    ensures Counted(Apply(s, e).b)
  {
  }

  ghost predicate Inv(s: Sys) {
    Phased(s) && Conserved(s) && Truthful(s) && Counted(s.b)
  }

  lemma StartInv(size: nat, garbage: set<nat>)
    requires size >= 1
    ensures Inv(Start(size, garbage))
  {
  }

  lemma StepInv(s: Sys, e: Event)
    requires Inv(s) && Enabled(s, e)
    ensures Inv(Apply(s, e))
  {
    StepPhased(s, e);
    StepConserves(s, e);
    StepTruthful(s, e);
    StepCounted(s, e);
  }

  lemma {:induction false} InvInEveryRun(s: Sys, events: seq<Event>)
    requires Inv(s) && Possible(s, events)
    ensures Inv(Run(s, events))
    decreases |events|
  {
    if events != [] {
      StepInv(s, events[0]);
      InvInEveryRun(Apply(s, events[0]), events[1..]);
    }
  }

  /** In every run, whatever Loki answers and whenever deliveries expire: each delivery is in exactly one place
      (channel, unsettled buffer, acked, naked, refused) and there once; an acknowledged one is unparseable or in
      a batch Loki accepted, so a message that is never acknowledged unparsed reaches Loki before the server
      forgets it; and the buffer is below the batch size whenever the loop waits. */
  lemma EveryDeliveryAccounted(size: nat, garbage: set<nat>, events: seq<Event>, id: nat)
    requires size >= 1 && Possible(Start(size, garbage), events)
    requires id < |Run(Start(size, garbage), events).msgs|
    ensures var s := Run(Start(size, garbage), events);
            var b := s.b;
            && multiset(b.ch)[id] + multiset(Pending(b))[id] + multiset(b.acked)[id] + multiset(b.naked)[id]
               + multiset(b.refused)[id] == 1
            && (id in b.acked && s.msgs[id] !in garbage ==> exists k :: 0 <= k < |b.batches| && id in b.batches[k])
            && (s.msgs[id] in garbage ==> id in b.acked)
            && (b.phase.Collecting? ==>
                 |b.buf| < size && b.st == Stats(|b.refused|, |b.batches|, |b.rejected|, |b.naked|))
  {
    var s0 := Start(size, garbage);
    StartInv(size, garbage);
    InvInEveryRun(s0, events);
    RunKeepsConfig(s0, events);
    var s := Run(s0, events);
    IdsCount(|s.msgs|, id);
    assert Places(s.b)[id] == 1;
    if s.msgs[id] in garbage {
      assert id !in Pending(s.b) by {
        assert id in Pending(s.b) ==> id in s.b.buf;
      }
    }
  }

  lemma {:induction false} RunKeepsConfig(s: Sys, events: seq<Event>)
    requires Possible(s, events)
    ensures Run(s, events).size == s.size && Run(s, events).garbage == s.garbage
    decreases |events|
  {
    if events != [] {
      RunKeepsConfig(Apply(s, events[0]), events[1..]);
    }
  }

  // ----- When a batch is pushed, and what is in it

  /** A receive pushes a batch exactly when it fills the buffer to the batch size; the batch is the buffer with the
      received delivery at its end. */
  lemma TakePushesFullBatch(s: Sys, accepted: bool)
    requires Phased(s) && Enabled(s, Take(accepted))
    ensures var b, t := s.b, Apply(s, Take(accepted)).b;
            && t.ch == b.ch[1..] && t.buf == b.buf + [b.ch[0]]
            && (t.phase.Settling? <==> |t.buf| == s.size)
            && t.batches == b.batches + (if |t.buf| == s.size && accepted then [t.buf] else [])
            && t.rejected == b.rejected + (if |t.buf| == s.size && !accepted then [t.buf] else [])
            && (t.phase.Settling? ==> t.phase.done == 0 && t.phase.accepted == accepted)
  {
  }

  /** A tick pushes whatever is buffered, if anything. */
  lemma TickPushesBuffer(s: Sys, accepted: bool)
    requires Phased(s) && Enabled(s, Tick(accepted))
    ensures var b, t := s.b, Apply(s, Tick(accepted)).b;
            && t.ch == b.ch && t.buf == b.buf && |b.buf| < s.size
            && (t.phase.Settling? <==> b.buf != [])
            && t.batches == b.batches + (if b.buf != [] && accepted then [b.buf] else [])
            && t.rejected == b.rejected + (if b.buf != [] && !accepted then [b.buf] else [])
  {
  }

  /** How many of the batches are not full. */
  function Short(batches: seq<seq<nat>>, size: nat): nat {
    if batches == [] then 0
    else Short(batches[..|batches| - 1], size) + if |batches[|batches| - 1]| == size then 0 else 1
  }

  lemma ShortNext(batches: seq<seq<nat>>, batch: seq<nat>, size: nat)
    ensures Short(batches + [batch], size) == Short(batches, size) + if |batch| == size then 0 else 1
    ensures Short(batches + [], size) == Short(batches, size)
  {
    assert (batches + [batch])[..|batches|] == batches;
    assert batches + [] == batches;
  }

  /** How many ticks of the run find something in the buffer. */
  function BusyTicks(s: Sys, events: seq<Event>): nat
    requires Possible(s, events)
    decreases |events|
  {
    if events == [] then 0
    else (if events[0].Tick? && s.b.buf != [] then 1 else 0) + BusyTicks(Apply(s, events[0]), events[1..])
  }

  lemma StepShort(s: Sys, e: Event)
    requires Phased(s) && Enabled(s, e)
    ensures var t := Apply(s, e);
            Short(t.b.batches, s.size) + Short(t.b.rejected, s.size) ==
            Short(s.b.batches, s.size) + Short(s.b.rejected, s.size) + if e.Tick? && s.b.buf != [] then 1 else 0
  {
    match e {
      case Take(accepted) =>
        TakePushesFullBatch(s, accepted);
        ShortNext(s.b.batches, s.b.buf + [s.b.ch[0]], s.size);
        ShortNext(s.b.rejected, s.b.buf + [s.b.ch[0]], s.size);
      case Tick(accepted) =>
        TickPushesBuffer(s, accepted);
        ShortNext(s.b.batches, s.b.buf, s.size);
        ShortNext(s.b.rejected, s.b.buf, s.size);
      case Deliver(_) =>
      case SettleOne =>
      case FinishFlush =>
      case Expire(_) =>
    }
  }

  /** In every run each busy tick pushes one batch that is not full, and every other batch is full. */
  lemma {:induction false} OnlyTicksPushShort(s: Sys, events: seq<Event>)
    requires Phased(s) && Possible(s, events)
    ensures var t := Run(s, events);
            Short(t.b.batches, s.size) + Short(t.b.rejected, s.size) ==
            Short(s.b.batches, s.size) + Short(s.b.rejected, s.size) + BusyTicks(s, events)
    decreases |events|
  {
    if events != [] {
      StepShort(s, events[0]);
      StepPhased(s, events[0]);
      OnlyTicksPushShort(Apply(s, events[0]), events[1..]);
    }
  }

  function Concat(batches: seq<seq<nat>>): seq<nat> {
    if batches == [] then [] else Concat(batches[..|batches| - 1]) + batches[|batches| - 1]
  }

  lemma ConcatNext(batches: seq<seq<nat>>, batch: seq<nat>)
    ensures Concat(batches + [batch]) == Concat(batches) + batch
  {
    assert (batches + [batch])[..|batches|] == batches;
  }

  predicate Increasing(ids: seq<nat>) {
    forall i, j :: 0 <= i < j < |ids| ==> ids[i] < ids[j]
  }

  /** The buffer, unless it has been pushed already. */
  function Unpushed(b: Bridge): seq<nat> {
    if b.phase.Settling? then [] else b.buf
  }

  /** Pushed batches, buffer and channel hold deliveries in the order of their arrival. */
  predicate InOrder(s: Sys) {
    && Increasing(Concat(s.b.batches) + (Unpushed(s.b) + s.b.ch))
    && Increasing(Concat(s.b.rejected) + (Unpushed(s.b) + s.b.ch))
    && (forall id :: id in s.b.ch ==> id < |s.msgs|)
    && (forall id :: id in Unpushed(s.b) ==> id < |s.msgs|)
    && (forall id :: id in Concat(s.b.batches) ==> id < |s.msgs|)
    && (forall id :: id in Concat(s.b.rejected) ==> id < |s.msgs|)
  }

  lemma OnePush(done: seq<nat>, batch: seq<nat>, ch: seq<nat>)
    ensures done + (batch + ch) == done + batch + ([] + ch)
    ensures Increasing(done + (batch + ch)) ==> Increasing(done + ([] + ch))
  {
    assert done + (batch + ch) == done + batch + ([] + ch);
    if Increasing(done + (batch + ch)) {
      var all, rest := done + (batch + ch), done + ([] + ch);
      forall i, j | 0 <= i < j < |rest|
        ensures rest[i] < rest[j]
      {
        var i' := if i < |done| then i else i + |batch|;
        var j' := if j < |done| then j else j + |batch|;
        assert all[i'] == rest[i] && all[j'] == rest[j];
      }
    }
  }

  lemma PushInOrder(s: Sys, accepted: bool)
    requires InOrder(s) && s.b.phase.Collecting? && s.b.buf != []
    ensures InOrder(s.(b := StartFlush(s.b, accepted)))
  {
    ConcatNext(s.b.batches, s.b.buf);
    ConcatNext(s.b.rejected, s.b.buf);
    OnePush(Concat(s.b.batches), s.b.buf, s.b.ch);
    OnePush(Concat(s.b.rejected), s.b.buf, s.b.ch);
  }

  lemma TakeInOrder(s: Sys, accepted: bool)
    requires InOrder(s) && Enabled(s, Take(accepted))
    ensures InOrder(Apply(s, Take(accepted)))
  {
    ReceivedInOrder(s);
    var t := s.(b := s.b.(ch := s.b.ch[1..], buf := s.b.buf + [s.b.ch[0]]));
    PushInOrder(t, accepted);
    assert Apply(s, Take(accepted)) == if |t.b.buf| >= s.size then t.(b := StartFlush(t.b, accepted)) else t;
  }

  lemma ReceivedInOrder(s: Sys)
    requires InOrder(s) && s.b.phase.Collecting? && s.b.ch != []
    ensures InOrder(s.(b := s.b.(ch := s.b.ch[1..], buf := s.b.buf + [s.b.ch[0]])))
  {
    assert s.b.buf + [s.b.ch[0]] + s.b.ch[1..] == s.b.buf + s.b.ch;
    assert s.b.ch[0] in s.b.ch && forall id :: id in s.b.ch[1..] ==> id in s.b.ch;
  }

  lemma DeliverInOrder(s: Sys, msg: nat)
    requires InOrder(s) && Enabled(s, Deliver(msg))
    ensures InOrder(Apply(s, Deliver(msg)))
  {
    var t, u, id := Apply(s, Deliver(msg)), Unpushed(s.b), |s.msgs|;
    if t.b.ch != s.b.ch {
      assert t.b.ch == s.b.ch + [id];
      OneMore(Concat(s.b.batches) + (u + s.b.ch), id);
      OneMore(Concat(s.b.rejected) + (u + s.b.ch), id);
      Behind(Concat(s.b.batches), u, s.b.ch, id);
      Behind(Concat(s.b.rejected), u, s.b.ch, id);
    }
  }

  lemma Behind(done: seq<nat>, u: seq<nat>, ch: seq<nat>, id: nat)
    ensures done + (u + ch) + [id] == done + (u + (ch + [id]))
  {
  }

  lemma OneMore(ids: seq<nat>, id: nat)
    requires Increasing(ids) && forall x :: x in ids ==> x < id
    ensures Increasing(ids + [id])
  {
    forall i, j | 0 <= i < j < |ids + [id]|
      ensures (ids + [id])[i] < (ids + [id])[j]
    {
      assert ids[i] in ids;
    }
  }

  lemma StepInOrder(s: Sys, e: Event)
    requires InOrder(s) && Enabled(s, e)
    ensures InOrder(Apply(s, e))
  {
    match e {
      case Deliver(msg) => DeliverInOrder(s, msg);
      case Take(accepted) => TakeInOrder(s, accepted);
      case Tick(accepted) =>
        if s.b.buf != [] {
          PushInOrder(s, accepted);
        }
      case SettleOne =>
      case FinishFlush =>
      case Expire(_) =>
    }
  }

  /** In every run the batches Loki accepted, one after the other, then what is collected and what is in the channel,
      are in the order of arrival, and so are the rejected ones: nothing overtakes. */
  lemma {:induction false} BatchesInArrivalOrder(s: Sys, events: seq<Event>)
    requires InOrder(s) && Possible(s, events)
    ensures var b := Run(s, events).b;
            && Increasing(Concat(b.batches) + (Unpushed(b) + b.ch))
            && Increasing(Concat(b.rejected) + (Unpushed(b) + b.ch))
    decreases |events|
  {
    if events != [] {
      StepInOrder(s, events[0]);
      BatchesInArrivalOrder(Apply(s, events[0]), events[1..]);
    }
  }

  /** From the start: how full the batches are and in which order. */
  lemma BatchesFromStart(size: nat, garbage: set<nat>, events: seq<Event>)
    requires size >= 1 && Possible(Start(size, garbage), events)
    ensures var b := Run(Start(size, garbage), events).b;
            && Short(b.batches, size) + Short(b.rejected, size) == BusyTicks(Start(size, garbage), events)
            && Increasing(Concat(b.batches) + (Unpushed(b) + b.ch))
            && Increasing(Concat(b.rejected) + (Unpushed(b) + b.ch))
  {
    OnlyTicksPushShort(Start(size, garbage), events);
    BatchesInArrivalOrder(Start(size, garbage), events);
  }

  // ----- Progress

  predicate Idle(b: Bridge) {
    b.phase.Collecting? && b.ch == [] && b.buf == []
  }

  /** The loop's next step when Loki accepts what is pushed from now on. */
  function Next(s: Sys): (e: Event)
    requires Phased(s) && !Idle(s.b)
    ensures Enabled(s, e)
  {
    match s.b.phase
    case Settling(_, done) => if done < |s.b.buf| then SettleOne else FinishFlush
    case Collecting => if s.b.ch != [] then Take(true) else Tick(true)
  }

  /** Bounds the steps the loop still has to make. */
  function Work(b: Bridge): int {
    5 * |b.ch| + match b.phase
                 case Collecting => if b.buf == [] then 0 else 2 * |b.buf| + 2
                 case Settling(_, done) => |b.buf| - done + 1
  }

  /** The delivery is acknowledged, or will be if Loki accepts what is pushed from now on. */
  predicate OnItsWay(b: Bridge, id: nat) {
    id in b.acked || id in b.ch || (id in Pending(b) && (b.phase.Settling? ==> b.phase.accepted))
  }

  lemma NextWorks(s: Sys)
    requires Phased(s) && !Idle(s.b)
    ensures 0 <= Work(Apply(s, Next(s)).b) < Work(s.b)
  {
  }

  /** Loki accepts every batch pushed in these events. */
  predicate Accepting(events: seq<Event>) {
    forall e :: e in events ==> (e.Take? || e.Tick? ==> e.accepted)
  }

  lemma StepKeepsOnItsWay(s: Sys, e: Event, id: nat)
    requires Phased(s) && Enabled(s, e) && Accepting([e]) && OnItsWay(s.b, id)
    ensures OnItsWay(Apply(s, e).b, id)
  {
    assert e in [e];
    match e {
      case Deliver(msg) => assert Pending(Apply(s, e).b) == Pending(s.b);
      case Take(accepted) =>
        ReceiveConserves(s.b, s.size, accepted);
        assert id in s.b.ch <==> id == s.b.ch[0] || id in s.b.ch[1..];
      case Tick(accepted) => StartFlushConserves(s.b, accepted);
      case SettleOne => PendingNext(s.b, id);
      case FinishFlush =>
      case Expire(other) =>
    }
  }

  /** In every run, deliveries, expiries and ticks included, in which Loki accepts what is pushed: whatever was on its
      way at the start and is in no channel or buffer at the end has been acknowledged. */
  lemma {:induction false} AcceptingRunAcks(s: Sys, events: seq<Event>, id: nat)
    requires Inv(s) && Possible(s, events) && Accepting(events) && OnItsWay(s.b, id)
    ensures var t := Run(s, events);
            Inv(t) && OnItsWay(t.b, id) && (Idle(t.b) ==> id in t.b.acked)
    decreases |events|
  {
    if events != [] {
      assert forall e :: e in events[1..] ==> e in events;
      assert events[0] in events;
      StepInv(s, events[0]);
      StepKeepsOnItsWay(s, events[0], id);
      AcceptingRunAcks(Apply(s, events[0]), events[1..], id);
    }
  }

  /** From every state the loop comes to rest if Loki accepts. */
  lemma {:induction false} Drains(s: Sys) returns (events: seq<Event>)
    requires Inv(s)
    ensures Possible(s, events) && Accepting(events) && Idle(Run(s, events).b)
    decreases Work(s.b)
  {
    if Idle(s.b) {
      return [];
    }
    var e := Next(s);
    StepInv(s, e);
    NextWorks(s);
    var rest := Drains(Apply(s, e));
    events := [e] + rest;
    assert events[1..] == rest;
  }

  ghost predicate InAcceptedBatch(b: Bridge, id: nat) {
    id in b.acked && exists k :: 0 <= k < |b.batches| && id in b.batches[k]
  }

  /** At-least-once: whatever happened before, one more delivery of a parseable message that finds room in the channel
      ends up in an accepted batch and acknowledged in every continuation in which Loki accepts and the loop comes to
      rest; and it can come to rest. */
  lemma RedeliveryReachesLoki(size: nat, garbage: set<nat>, history: seq<Event>, msg: nat)
    requires size >= 1 && Possible(Start(size, garbage), history) && msg !in garbage
    requires var s := Run(Start(size, garbage), history);
             Enabled(s, Deliver(msg)) && |s.b.ch| < 2 * size
    ensures var s := Run(Start(size, garbage), history);
            var again := Apply(s, Deliver(msg));
            && (forall events :: Possible(again, events) && Accepting(events) && Idle(Run(again, events).b) ==>
                  InAcceptedBatch(Run(again, events).b, |s.msgs|))
            && exists events :: Possible(again, events) && Accepting(events) && Idle(Run(again, events).b)
  {
    var s0 := Start(size, garbage);
    StartInv(size, garbage);
    InvInEveryRun(s0, history);
    RunKeepsConfig(s0, history);
    var s := Run(s0, history);
    StepInv(s, Deliver(msg));
    var again := Apply(s, Deliver(msg));
    assert again.b.ch[|s.b.ch|] == |s.msgs|;
    ParsedReachesLoki(again, |s.msgs|);
  }

  lemma ParsedReachesLoki(s: Sys, id: nat)
    requires Inv(s) && id < |s.msgs| && s.msgs[id] !in s.garbage && OnItsWay(s.b, id)
    ensures forall events :: Possible(s, events) && Accepting(events) && Idle(Run(s, events).b) ==>
              InAcceptedBatch(Run(s, events).b, id)
    ensures exists events :: Possible(s, events) && Accepting(events) && Idle(Run(s, events).b)
  {
    forall events | Possible(s, events) && Accepting(events) && Idle(Run(s, events).b)
      ensures InAcceptedBatch(Run(s, events).b, id)
    {
      AcceptingRunAcks(s, events, id);
      MessagesStay(s, events);
      assert Run(s, events).msgs[id] == s.msgs[id];
    }
    var events := Drains(s);
  }

  lemma {:induction false} MessagesStay(s: Sys, events: seq<Event>)
    requires Possible(s, events)
    ensures var t := Run(s, events);
            t.garbage == s.garbage && s.msgs <= t.msgs
    decreases |events|
  {
    if events != [] {
      MessagesStay(Apply(s, events[0]), events[1..]);
    }
  }

  // ----- When the channel can overflow without expiry

  lemma DistinctFromCounts(s: seq<nat>)
    requires forall x :: multiset(s)[x] <= 1
    ensures Distinct(s)
  {
    forall i, j | 0 <= i < j < |s|
      ensures s[i] != s[j]
    {
      var a, b := s[..j], s[j..];
      assert s == a + b;
      assert a[i] in a && b[0] in b;
      assert multiset(s)[s[i]] == multiset(a)[s[i]] + multiset(b)[s[i]];
      assert s[i] !in b;
    }
  }

  /** The server still waits for everything that is in the channel. */
  predicate Waiting(s: Sys) {
    forall id :: id in s.b.ch ==> id in s.unacked
  }

  lemma ChannelFits(s: Sys)
    requires Conserved(s) && Waiting(s)
    ensures |s.b.ch| <= |s.unacked|
  {
    forall x
      ensures multiset(s.b.ch)[x] <= 1
    {
      IdsCount(|s.msgs|, x);
      assert multiset(s.b.ch)[x] <= Places(s.b)[x];
    }
    DistinctFromCounts(s.b.ch);
    EnumerationLength(s.b.ch, Elems(s.b.ch));
    SubsetSize(Elems(s.b.ch), s.unacked);
  }

  lemma SettleWaiting(s: Sys)
    requires Conserved(s) && Waiting(s) && Enabled(s, SettleOne)
    ensures Waiting(Apply(s, SettleOne))
  {
    var id := s.b.buf[s.b.phase.done];
    IdsCount(|s.msgs|, id);
    assert id in Pending(s.b);
    assert multiset(s.b.ch)[id] + multiset(Pending(s.b))[id] <= Places(s.b)[id] <= 1;
    assert id !in s.b.ch;
  }

  lemma StepWaiting(s: Sys, e: Event)
    requires Phased(s) && Conserved(s) && Waiting(s) && Enabled(s, e) && !e.Expire?
    ensures Waiting(Apply(s, e)) && Apply(s, e).b.refused == s.b.refused
  {
    match e {
      case Deliver(msg) => ChannelFits(s);
      case Take(accepted) =>
      case Tick(accepted) =>
      case SettleOne => SettleWaiting(s);
      case FinishFlush =>
    }
  }

  predicate NoExpiry(events: seq<Event>) {
    forall e :: e in events ==> !e.Expire?
  }

  lemma {:induction false} WaitingInEveryRun(s: Sys, events: seq<Event>)
    requires Inv(s) && Waiting(s) && Possible(s, events) && NoExpiry(events)
    ensures Inv(Run(s, events)) && Waiting(Run(s, events)) && Run(s, events).b.refused == s.b.refused
    decreases |events|
  {
    if events != [] {
      assert events[0] in events && forall e :: e in events[1..] ==> e in events;
      StepInv(s, events[0]);
      StepWaiting(s, events[0]);
      WaitingInEveryRun(Apply(s, events[0]), events[1..]);
    }
  }

  /** Because the channel is as long as MaxAckPending, the channel-full branch is never taken in a run in which
      no delivery expires, however deliveries, flushes, acks and naks interleave. */
  lemma NothingDroppedWithoutExpiry(size: nat, garbage: set<nat>, events: seq<Event>)
    requires size >= 1 && Possible(Start(size, garbage), events) && NoExpiry(events)
    ensures var b := Run(Start(size, garbage), events).b; b.refused == [] && b.st.dropped == 0
  {
    StartInv(size, garbage);
    WaitingInEveryRun(Start(size, garbage), events);
  }

  /** What the server waits for is in the channel or unsettled in the buffer. */
  predicate Covered(s: Sys) {
    forall id :: id in s.unacked ==> id in s.b.ch || id in Pending(s.b)
  }

  lemma StepCovered(s: Sys, e: Event)
    requires Phased(s) && Covered(s) && Enabled(s, e)
    ensures Covered(Apply(s, e))
  {
    match e {
      case Deliver(msg) => assert Pending(Apply(s, e).b) == Pending(s.b);
      case Take(accepted) => TakeCovered(s, accepted);
      case Tick(accepted) => StartFlushConserves(s.b, accepted);
      case SettleOne => SettleCovered(s);
      case FinishFlush => FinishConserves(s.b);
      case Expire(id) =>
    }
  }

  lemma TakeCovered(s: Sys, accepted: bool)
    requires Covered(s) && Enabled(s, Take(accepted))
    ensures Covered(Apply(s, Take(accepted)))
  {
    ReceiveConserves(s.b, s.size, accepted);
    assert Pending(s.b) == s.b.buf;
    assert forall id :: id in s.b.ch <==> id == s.b.ch[0] || id in s.b.ch[1..];
  }

  lemma SettleCovered(s: Sys)
    requires Covered(s) && Enabled(s, SettleOne)
    ensures Covered(Apply(s, SettleOne))
  {
    forall id | id in Apply(s, SettleOne).unacked
      ensures id in s.b.ch || id in Pending(Settle(s.b))
    {
      PendingNext(s.b, id);
    }
  }

  lemma {:induction false} CoveredInEveryRun(s: Sys, events: seq<Event>)
    requires Inv(s) && Covered(s) && Possible(s, events)
    ensures Covered(Run(s, events))
    decreases |events|
  {
    if events != [] {
      StepInv(s, events[0]);
      StepCovered(s, events[0]);
      CoveredInEveryRun(Apply(s, events[0]), events[1..]);
    }
  }

  /** A delivery in the channel that the server has given up on. */
  ghost predicate Forgotten(s: Sys, id: nat) {
    Inv(s) && Covered(s) && id in s.b.ch && id !in s.unacked
  }

  /** Loki accepts what is in the buffer; the channel waits. */
  lemma {:induction false} EmptyBuffer(s: Sys, id: nat) returns (events: seq<Event>)
    requires Forgotten(s, id)
    ensures Possible(s, events) && NoExpiry(events)
    ensures var t := Run(s, events);
            && Forgotten(t, id) && t.b.phase.Collecting? && t.b.buf == []
            && t.b.ch == s.b.ch && t.b.refused == s.b.refused && t.size == s.size && t.garbage == s.garbage
    decreases Work(s.b)
  {
    if s.b.phase.Collecting? && s.b.buf == [] {
      return [];
    }
    var e := if s.b.phase.Collecting? then Tick(true)
             else if s.b.phase.done < |s.b.buf| then SettleOne
             else FinishFlush;
    StepInv(s, e);
    StepCovered(s, e);
    var rest := EmptyBuffer(Apply(s, e), id);
    events := [e] + rest;
    assert events[1..] == rest;
  }

  /** Fewer deliveries are waited for than are in the channel, so the server goes on until it is full. */
  lemma {:induction false} FillUp(s: Sys, id: nat, msg: nat) returns (events: seq<Event>)
    requires Forgotten(s, id) && s.b.phase.Collecting? && s.b.buf == [] && msg !in s.garbage
    ensures Possible(s, events) && NoExpiry(events) && |Run(s, events).b.refused| > |s.b.refused|
    decreases 2 * s.size - |s.b.ch|
  {
    FewerWaited(s, id);
    var e := Deliver(msg);
    var t := Apply(s, e);
    StepInv(s, e);
    StepCovered(s, e);
    if |s.b.ch| == 2 * s.size {
      events := [e];
      assert Run(t, []) == t;
    } else {
      assert id < |s.msgs|;
      var rest := FillUp(t, id, msg);
      events := [e] + rest;
      assert events[1..] == rest;
    }
  }

  lemma FewerWaited(s: Sys, id: nat)
    requires Forgotten(s, id) && s.b.phase.Collecting? && s.b.buf == []
    ensures |s.unacked| < |s.b.ch|
  {
    var ids := Elems(s.b.ch);
    SubsetSize(s.unacked, ids - {id});
    ElemsSize(s.b.ch);
    assert ids == ids - {id} + {id};
  }

  lemma {:induction false} ElemsSize(q: seq<nat>)
    ensures |Elems(q)| <= |q|
  {
    if q != [] {
      ElemsSize(q[1..]);
      assert Elems(q) == {q[0]} + Elems(q[1..]);
    }
  }

  lemma {:induction false} AboveAll(xs: set<nat>) returns (n: nat)
    ensures forall x :: x in xs ==> x < n
  {
    n := 0;
    if xs != {} {
      var x :| x in xs;
      n := AboveAll(xs - {x});
      assert xs == xs - {x} + {x};
      if n <= x {
        n := x + 1;
      }
    }
  }

  lemma {:induction false} RunConcat(s: Sys, events: seq<Event>, events': seq<Event>)
    requires Possible(s, events) && Possible(Run(s, events), events')
    ensures Possible(s, events + events') && Run(s, events + events') == Run(Run(s, events), events')
    decreases |events|
  {
    if events == [] {
      assert events + events' == events';
    } else {
      RunConcat(Apply(s, events[0]), events[1..], events');
      assert (events + events')[1..] == events[1..] + events';
    }
  }

  lemma ForgottenOverflows(s: Sys, id: nat) returns (events: seq<Event>)
    requires Forgotten(s, id)
    ensures Possible(s, events) && NoExpiry(events) && |Run(s, events).b.refused| > |s.b.refused|
  {
    var msg := AboveAll(s.garbage);
    var first := EmptyBuffer(s, id);
    var second := FillUp(Run(s, first), id, msg);
    RunConcat(s, first, second);
    events := first + second;
    assert forall e :: e in events ==> e in first || e in second;
  }

  /** Which reachable states can still drop a delivery without any further expiry: exactly those in which the channel
      holds one that has expired there. */
  lemma NothingMoreDroppedIff(size: nat, garbage: set<nat>, history: seq<Event>)
    requires size >= 1 && Possible(Start(size, garbage), history)
    ensures var s := Run(Start(size, garbage), history);
            (forall events :: Possible(s, events) && NoExpiry(events) ==> Run(s, events).b.refused == s.b.refused)
            <==> forall id :: id in s.b.ch ==> id in s.unacked
  {
    var s0 := Start(size, garbage);
    StartInv(size, garbage);
    InvInEveryRun(s0, history);
    CoveredInEveryRun(s0, history);
    var s := Run(s0, history);
    if Waiting(s) {
      forall events | Possible(s, events) && NoExpiry(events)
        ensures Run(s, events).b.refused == s.b.refused
      {
        WaitingInEveryRun(s, events);
      }
    } else {
      var id :| id in s.b.ch && id !in s.unacked;
      var events := ForgottenOverflows(s, id);
    }
  }

  const SLOW_LOKI: seq<Event> := [Deliver(7), Deliver(8), Expire(0), Deliver(7)]

  /** With expiry it can be taken: a delivery that outlives AckWait in the channel is sent again. */
  lemma ExpiryOverflowsChannel()
    ensures Possible(Start(1, {}), SLOW_LOKI) && Run(Start(1, {}), SLOW_LOKI).b.st.dropped == 1
  {
    var s0 := Start(1, {});
    var s1 := Apply(s0, SLOW_LOKI[0]);
    assert s1.b.ch == [0] && s1.unacked == {0};
    var s2 := Apply(s1, SLOW_LOKI[1]);
    assert s2.b.ch == [0, 1] && s2.unacked == {0, 1};
    var s3 := Apply(s2, SLOW_LOKI[2]);
    assert s3.unacked == {1};
    var s4 := Apply(s3, SLOW_LOKI[3]);
    assert s4.b.st.dropped == 1;
    assert SLOW_LOKI[1..][1..][1..][1..] == [];
    assert Possible(s4, []) && Run(s4, []) == s4;
    assert SLOW_LOKI[1..][1..][1..] == [SLOW_LOKI[3]];
    assert Possible(s3, [SLOW_LOKI[3]]) && Run(s3, [SLOW_LOKI[3]]) == s4;
    assert SLOW_LOKI[1..][1..] == [SLOW_LOKI[2], SLOW_LOKI[3]];
    assert [SLOW_LOKI[2], SLOW_LOKI[3]][1..] == [SLOW_LOKI[3]];
    assert Possible(s2, [SLOW_LOKI[2], SLOW_LOKI[3]]) && Run(s2, [SLOW_LOKI[2], SLOW_LOKI[3]]) == s4;
    assert SLOW_LOKI[1..][0] == SLOW_LOKI[1];
    assert Possible(s1, SLOW_LOKI[1..]) && Run(s1, SLOW_LOKI[1..]) == s4;
  }
}
