/** Connection leases: a login sets the Redis key of a connId for six minutes, and every five minutes the gateway
    renews the keys of the connections in its table, hanging up on the first one whose key is gone. Times are
    seconds. */
module ConnLease {
  import opened Common
  import SessionRegistry

  const CONN_TIME := 360

  // ----- One renewal batch

  /** The reply to one SET XX: done, key absent, or a command error (which leaves the key as it was). */
  datatype Reply = Renewed | Missing | Failed

  predicate Live(redis: map<string, nat>, now: nat, k: string) {
    k in redis && now < redis[k]
  }

  function ReplyTo(redis: map<string, nat>, now: nat, k: string, faulty: set<string>): Reply {
    if k in faulty then Failed else if Live(redis, now, k) then Renewed else Missing
  }

  /** The keys after the batch: those that exist and whose command worked start a new lease. */
  function RenewAll(redis: map<string, nat>, now: nat, ids: set<string>, faulty: set<string>): map<string, nat> {
    map k | k in redis :: if k in ids && ReplyTo(redis, now, k, faulty) == Renewed then now + CONN_TIME else redis[k]
  }

  /** Ids with the given outcome, in batch order. */
  function Filtered(redis: map<string, nat>, now: nat, ids: seq<string>, faulty: set<string>,
                    renewed: bool): seq<string> {
    if ids == [] then []
    else
      var k := ids[|ids| - 1];
      Filtered(redis, now, ids[..|ids| - 1], faulty, renewed)
      + if (ReplyTo(redis, now, k, faulty) == Renewed) == renewed then [k] else []
  }

  /** The first error among the replies, `Renewed` if there is none. */
  function FirstError(redis: map<string, nat>, now: nat, ids: seq<string>, faulty: set<string>): Reply {
    var failed := Filtered(redis, now, ids, faulty, false);
    if failed == [] then Renewed else ReplyTo(redis, now, failed[0], faulty)
  }

  /** The pipeline reports the first error of its commands; anything but "absent" aborts the job. */
  predicate Aborts(redis: map<string, nat>, now: nat, ids: seq<string>, faulty: set<string>) {
    FirstError(redis, now, ids, faulty) == Failed
  }

  /** The connId the job hangs up on, if any: the first failure. */
  function Flagged(redis: map<string, nat>, now: nat, ids: seq<string>, faulty: set<string>): Option<string> {
    var failed := Filtered(redis, now, ids, faulty, false);
    if failed == [] || Aborts(redis, now, ids, faulty) then None else Some(failed[0])
  }

  class SyncJob {
    const connection: SessionRegistry.Connection
    var redis: map<string, nat>
    var hungUp: set<SessionRegistry.Socket>

    constructor (connection: SessionRegistry.Connection)
      ensures this.connection == connection && redis == map[] && hungUp == {}
    {
      this.connection := connection;
      redis, hungUp := map[], {};
    }

    /** The pipeline: every command runs; `err` is the first error. */
    method Exec(now: nat, ids: seq<string>, faulty: set<string>) returns (cmds: seq<Reply>, err: Reply)
      requires Distinct(ids)
      modifies this`redis
      ensures redis == RenewAll(old(redis), now, Elems(ids), faulty)
      ensures |cmds| == |ids| && forall j :: 0 <= j < |ids| ==> cmds[j] == ReplyTo(old(redis), now, ids[j], faulty)
      ensures err == FirstError(old(redis), now, ids, faulty)
    {
      ghost var start := redis;
      cmds := [];
      err := Renewed;
      assert Executed(start, now, ids[..0], faulty, redis, cmds, err);
      for i := 0 to |ids|
        invariant Executed(start, now, ids[..i], faulty, redis, cmds, err)
      {
        assert ids[..i + 1] == ids[..i] + [ids[i]];
        ExecutedNext(start, now, ids[..i], faulty, redis, cmds, err, ids[i]);
        var reply := ReplyTo(redis, now, ids[i], faulty);
        if reply == Renewed {
          redis := redis[ids[i] := now + CONN_TIME];
        } else if err == Renewed {
          err := reply;
        }
        cmds := cmds + [reply];
      }
      assert ids[..|ids|] == ids;
    }

    /** `ids` are distinct, as the keys of the table are. */
    method SetIfExistsBatchResult(now: nat, ids: seq<string>, faulty: set<string>)
      returns (aborted: bool, success: seq<string>, fail: seq<string>)
      requires Distinct(ids)
      modifies this`redis
      ensures redis == RenewAll(old(redis), now, Elems(ids), faulty)
      ensures aborted == Aborts(old(redis), now, ids, faulty)
      ensures aborted ==> success == [] && fail == []
      ensures !aborted ==> success == Filtered(old(redis), now, ids, faulty, true)
      ensures !aborted ==> fail == Filtered(old(redis), now, ids, faulty, false)
    {
      var cmds, err := Exec(now, ids, faulty);
      if err == Failed {
        return true, [], [];
      }
      aborted, success, fail := false, [], [];
      for i := 0 to |ids|
        modifies {}
        invariant success == Filtered(old(redis), now, ids[..i], faulty, true)
        invariant fail == Filtered(old(redis), now, ids[..i], faulty, false)
      {
        assert ids[..i + 1][..i] == ids[..i];
        if cmds[i] == Renewed {
          success := success + [ids[i]];
        } else {
          fail := fail + [ids[i]];
        }
      }
      assert ids[..|ids|] == ids;
    }

    /** One tick; `order` is the order in which the table is ranged over. */
    method Iotsync(now: nat, order: seq<string>, faulty: set<string>)
      requires Enumerates(order, connection.soketMap.Keys)
      modifies this
      ensures redis == RenewAll(old(redis), now, connection.soketMap.Keys, faulty)
      ensures var flagged := Flagged(old(redis), now, order, faulty);
              && (flagged.None? ==> hungUp == old(hungUp))
              && (flagged.Some? ==>
                   flagged.value in connection.soketMap && hungUp == old(hungUp) + {connection.soketMap[flagged.value]})
    {
      var aborted, success, fail := SetIfExistsBatchResult(now, order, faulty);
      if aborted {
        return;
      }
      FilteredMembers(old(redis), now, order, faulty, false);
      for i := 0 to |fail|
        modifies this`hungUp
        invariant i == 0 && hungUp == old(hungUp)
      {
        assert fail[i] in order;
        assert fail[i] in Elems(order);
        var conn := connection.GetconnByConnId(fail[i]);
        if conn.None? {
          continue;
        }
        hungUp := hungUp + {conn.value};
        return;
      }
    }
  }

  /** One more command: the others' leases and its own reply do not depend on the ones before it. */
  lemma RenewOne(redis: map<string, nat>, now: nat, ids: set<string>, faulty: set<string>, k: string)
    requires k !in ids
    ensures var r := RenewAll(redis, now, ids, faulty);
            && ReplyTo(r, now, k, faulty) == ReplyTo(redis, now, k, faulty)
            && RenewAll(redis, now, ids + {k}, faulty) ==
               if ReplyTo(redis, now, k, faulty) == Renewed then r[k := now + CONN_TIME] else r
  {
  }

  /** The state of the pipeline once the commands for `ids` have run. */
  ghost predicate Executed(start: map<string, nat>, now: nat, ids: seq<string>, faulty: set<string>,
                           redis: map<string, nat>, cmds: seq<Reply>, err: Reply) {
    && redis == RenewAll(start, now, Elems(ids), faulty)
    && |cmds| == |ids| && (forall j :: 0 <= j < |ids| ==> cmds[j] == ReplyTo(start, now, ids[j], faulty))
    && err == FirstError(start, now, ids, faulty)
  }

  lemma ExecutedNext(start: map<string, nat>, now: nat, ids: seq<string>, faulty: set<string>,
                     redis: map<string, nat>, cmds: seq<Reply>, err: Reply, k: string)
    requires Executed(start, now, ids, faulty, redis, cmds, err) && k !in ids
    ensures var reply := ReplyTo(redis, now, k, faulty);
            Executed(start, now, ids + [k], faulty, if reply == Renewed then redis[k := now + CONN_TIME] else redis,
                     cmds + [reply], if reply != Renewed && err == Renewed then reply else err)
  {
    assert Elems(ids + [k]) == Elems(ids) + {k};
    RenewOne(start, now, Elems(ids), faulty, k);
    NextError(start, now, ids, faulty, k);
  }

  lemma NextError(redis: map<string, nat>, now: nat, ids: seq<string>, faulty: set<string>, k: string)
    ensures var reply, err := ReplyTo(redis, now, k, faulty), FirstError(redis, now, ids, faulty);
            FirstError(redis, now, ids + [k], faulty) == if reply != Renewed && err == Renewed then reply else err
  {
    FailedAreNotRenewed(redis, now, ids, faulty);
    assert (ids + [k])[..|ids|] == ids;
  }

  lemma FailedAreNotRenewed(redis: map<string, nat>, now: nat, ids: seq<string>, faulty: set<string>)
    ensures var failed := Filtered(redis, now, ids, faulty, false);
            failed != [] ==> ReplyTo(redis, now, failed[0], faulty) != Renewed
  {
    FilteredMembers(redis, now, ids, faulty, false);
    var failed := Filtered(redis, now, ids, faulty, false);
    if failed != [] {
      assert failed[0] in failed;
    }
  }

  lemma {:induction false} FilteredMembers(redis: map<string, nat>, now: nat, ids: seq<string>, faulty: set<string>,
                                           renewed: bool)
    ensures forall k :: k in Filtered(redis, now, ids, faulty, renewed) <==>
              k in ids && (ReplyTo(redis, now, k, faulty) == Renewed) == renewed
  {
    if ids != [] {
      var n := |ids| - 1;
      FilteredMembers(redis, now, ids[..n], faulty, renewed);
      assert forall k :: k in ids <==> k in ids[..n] || k == ids[n];
    }
  }

  /** The job hangs up only on a connection whose key is gone, even when commands fail; and if no command fails
      it hangs up on one whenever some key is gone. */
  lemma FlaggedIsStale(redis: map<string, nat>, now: nat, ids: seq<string>, faulty: set<string>)
    ensures var f := Flagged(redis, now, ids, faulty);
            && (f.Some? ==> f.value in ids && f.value !in faulty && !Live(redis, now, f.value))
            && (faulty == {} ==> (f.Some? <==> exists k :: k in ids && !Live(redis, now, k)))
  {
    var failed := Filtered(redis, now, ids, faulty, false);
    FilteredMembers(redis, now, ids, faulty, false);
    if failed != [] {
      assert failed[0] in failed;
    }
    if faulty == {} {
      forall k | k in ids && !Live(redis, now, k)
        ensures failed != []
      {
        assert k in failed;
      }
    }
  }

  /** Command `i` is the first that does not renew its key. */
  predicate FailsFirst(redis: map<string, nat>, now: nat, ids: seq<string>, faulty: set<string>, i: nat) {
    i < |ids| && (ids[i] in faulty || !Live(redis, now, ids[i])) && AllRenewed(redis, now, ids[..i], faulty)
  }

  lemma {:induction false} FirstFailedAt(redis: map<string, nat>, now: nat, ids: seq<string>, faulty: set<string>)
    returns (i: nat)
    requires Filtered(redis, now, ids, faulty, false) != []
    ensures FailsFirst(redis, now, ids, faulty, i) && Filtered(redis, now, ids, faulty, false)[0] == ids[i]
  {
    var n := |ids| - 1;
    NoFailureIff(redis, now, ids[..n], faulty);
    if Filtered(redis, now, ids[..n], faulty, false) == [] {
      i := n;
    } else {
      i := FirstFailedAt(redis, now, ids[..n], faulty);
      assert ids[..n][..i] == ids[..i];
    }
  }

  lemma AllBefore(redis: map<string, nat>, now: nat, ids: seq<string>, faulty: set<string>, n: nat)
    requires n <= |ids| && AllRenewed(redis, now, ids[..n], faulty)
    ensures forall l :: 0 <= l < n ==> ids[l] !in faulty && Live(redis, now, ids[l])
  {
    forall l | 0 <= l < n
      ensures ids[l] !in faulty && Live(redis, now, ids[l])
    {
      assert ids[..n][l] == ids[l];
    }
  }

  lemma FailsFirstOnce(redis: map<string, nat>, now: nat, ids: seq<string>, faulty: set<string>, i: nat, j: nat)
    requires FailsFirst(redis, now, ids, faulty, i) && FailsFirst(redis, now, ids, faulty, j)
    ensures i == j
  {
    AllBefore(redis, now, ids, faulty, i);
    AllBefore(redis, now, ids, faulty, j);
  }

  /** The first command that does not renew its key decides: the job is aborted exactly when that one fails, and hangs
      up on its connection exactly when that one's key is gone. */
  lemma FirstFailureDecides(redis: map<string, nat>, now: nat, ids: seq<string>, faulty: set<string>, i: nat)
    requires FailsFirst(redis, now, ids, faulty, i)
    ensures Aborts(redis, now, ids, faulty) <==> ids[i] in faulty
    ensures Flagged(redis, now, ids, faulty) == if ids[i] in faulty then None else Some(ids[i])
  {
    assert ids[i] in ids;
    NoFailureIff(redis, now, ids, faulty);
    var j := FirstFailedAt(redis, now, ids, faulty);
    FailsFirstOnce(redis, now, ids, faulty, i, j);
  }

  /** If there is none, it does neither. */
  lemma NoFailureNoHangUp(redis: map<string, nat>, now: nat, ids: seq<string>, faulty: set<string>)
    ensures AllRenewed(redis, now, ids, faulty) <==> forall i :: !FailsFirst(redis, now, ids, faulty, i)
    ensures AllRenewed(redis, now, ids, faulty) ==>
              !Aborts(redis, now, ids, faulty) && Flagged(redis, now, ids, faulty) == None
  {
    NoFailureIff(redis, now, ids, faulty);
    if !AllRenewed(redis, now, ids, faulty) {
      var i := FirstFailedAt(redis, now, ids, faulty);
    } else {
      assert ids[..|ids|] == ids;
      AllBefore(redis, now, ids, faulty, |ids|);
    }
  }

  /** Every key is there and no command fails. */
  predicate AllRenewed(redis: map<string, nat>, now: nat, ids: seq<string>, faulty: set<string>) {
    forall k :: k in ids ==> k !in faulty && Live(redis, now, k)
  }

  lemma NoFailureIff(redis: map<string, nat>, now: nat, ids: seq<string>, faulty: set<string>)
    ensures Filtered(redis, now, ids, faulty, false) == [] <==> AllRenewed(redis, now, ids, faulty)
  {
    FilteredMembers(redis, now, ids, faulty, false);
    var failed := Filtered(redis, now, ids, faulty, false);
    if failed != [] {
      assert failed[0] in failed;
    }
  }

  // ----- Timed runs

  /** `table` holds the connIds registered at this gateway, `lastTick` the time of the last renewal. */
  datatype Sys = Sys(now: nat, redis: map<string, nat>, table: set<string>, lastTick: nat)

  datatype Event =
    | Advance(d: nat)
    | Login(k: string)                                   // the device service sets the key
    | Register(k: string)                                // the gateway stores the connection
    | Tick(order: seq<string>, faulty: set<string>)      // a renewal
    | Closed(k: string)                                  // a socket carrying k closes

  predicate Enabled(s: Sys, e: Event) {
    e.Tick? ==> Enumerates(e.order, s.table)
  }

  function Apply(s: Sys, e: Event): Sys
    requires Enabled(s, e)
  {
    match e
    case Advance(d) => s.(now := s.now + d)
    case Login(k) => s.(redis := s.redis[k := s.now + CONN_TIME])
    case Register(k) => s.(table := s.table + {k})
    case Tick(order, faulty) => s.(redis := RenewAll(s.redis, s.now, s.table, faulty), lastTick := s.now)
    case Closed(k) => s.(redis := s.redis - {k}, table := s.table - {k})
  }

  /** A login and a renewal that works give a lease of six minutes, and a renewal touches nothing else. */
  lemma LeasesLast(s: Sys, k: string, order: seq<string>, faulty: set<string>, d: nat)
    requires Enumerates(order, s.table)
    ensures Live(Apply(s, Login(k)).redis, s.now + d, k) <==> d < 360
    ensures var t := Apply(s, Tick(order, faulty));
            && t.now == s.now == t.lastTick && t.table == s.table && t.redis.Keys == s.redis.Keys
            && if k in s.table && k !in faulty && Live(s.redis, s.now, k)
               then Live(t.redis, s.now + d, k) <==> d < 360
               else k in s.redis ==> t.redis[k] == s.redis[k]
  {
  }

  /** Ticks are at most `gap` apart. */
  predicate Timely(s: Sys, e: Event, gap: nat) {
    e.Advance? ==> s.now + e.d <= s.lastTick + gap
  }

  /** The connection is registered and its key outlives the latest possible next tick. */
  predicate Safe(s: Sys, k: string, gap: nat) {
    && s.lastTick <= s.now <= s.lastTick + gap
    && k in s.table && k in s.redis && s.redis[k] > s.lastTick + gap
  }

  /** The step neither closes a socket carrying `k` nor fails to renew it nor hangs up on it. */
  predicate Spares(s: Sys, e: Event, k: string) {
    && (e.Closed? ==> e.k != k)
    && (e.Tick? ==> k !in e.faulty)
  }

  predicate Possible(s: Sys, events: seq<Event>)
    decreases |events|
  {
    events == [] || (Enabled(s, events[0]) && Possible(Apply(s, events[0]), events[1..]))
  }

  function Run(s: Sys, events: seq<Event>): Sys
    requires Possible(s, events)
    decreases |events|
  {
    if events == [] then s else Run(Apply(s, events[0]), events[1..])
  }

  predicate TimelyRun(s: Sys, events: seq<Event>, k: string, gap: nat)
    requires Possible(s, events)
    decreases |events|
  {
    events == [] ||
    (Timely(s, events[0], gap) && Spares(s, events[0], k) && TimelyRun(Apply(s, events[0]), events[1..], k, gap))
  }

  /** No tick of the run hangs up on `k`. */
  predicate NeverFlagged(s: Sys, events: seq<Event>, k: string)
    requires Possible(s, events)
    decreases |events|
  {
    events == [] ||
    ((events[0].Tick? ==> Flagged(s.redis, s.now, events[0].order, events[0].faulty) != Some(k))
     && NeverFlagged(Apply(s, events[0]), events[1..], k))
  }

  lemma StepKeepsSafe(s: Sys, e: Event, k: string, gap: nat)
    requires Safe(s, k, gap) && gap < CONN_TIME && Enabled(s, e) && Timely(s, e, gap) && Spares(s, e, k)
    ensures Safe(Apply(s, e), k, gap)
    ensures e.Tick? ==> Flagged(s.redis, s.now, e.order, e.faulty) != Some(k)
  {
    if e.Tick? {
      FlaggedIsStale(s.redis, s.now, e.order, e.faulty);
    }
  }

  /** In every timed run with ticks at most `gap` < 6 minutes apart, a connection that is registered while its
      key outlives the next tick keeps its key and is never hung up on, as long as no socket carrying its
      connId closes and its own renewals do not fail. */
  lemma {:induction false} SafeConnectionStays(s: Sys, events: seq<Event>, k: string, gap: nat)
    requires Safe(s, k, gap) && gap < CONN_TIME && Possible(s, events) && TimelyRun(s, events, k, gap)
    ensures Safe(Run(s, events), k, gap) && Live(Run(s, events).redis, Run(s, events).now, k)
    ensures NeverFlagged(s, events, k)
    decreases |events|
  {
    if events != [] {
      StepKeepsSafe(s, events[0], k, gap);
      SafeConnectionStays(Apply(s, events[0]), events[1..], k, gap);
    }
  }

  /** No timely run from here hangs up on `k`. */
  ghost predicate NeverHungUp(s: Sys, k: string, gap: nat) {
    forall events :: Possible(s, events) && TimelyRun(s, events, k, gap) ==> NeverFlagged(s, events, k)
  }

  lemma {:induction false} FirstFailureIsFirst(redis: map<string, nat>, now: nat, ids: seq<string>)
    requires ids != [] && !Live(redis, now, ids[0])
    ensures Flagged(redis, now, ids, {}) == Some(ids[0])
  {
    var n := |ids| - 1;
    if n > 0 {
      FirstFailureIsFirst(redis, now, ids[..n]);
    } else {
      assert Filtered(redis, now, ids[..n], {}, false) == [];
    }
  }

  /** The last moment a tick may come, `k` being first in the order. */
  lemma LastMoment(s: Sys, k: string, gap: nat) returns (events: seq<Event>)
    requires k in s.table && s.lastTick <= s.now <= s.lastTick + gap
    requires !Live(s.redis, s.lastTick + gap, k)
    ensures Possible(s, events) && TimelyRun(s, events, k, gap) && !NeverFlagged(s, events, k)
  {
    var others := EnumerationExists(s.table - {k});
    var order := [k] + others;
    assert k !in others by {
      assert k !in Elems(others);
    }
    assert Elems(order) == {k} + Elems(others);
    var wait, tick := Advance(s.lastTick + gap - s.now), Tick(order, {});
    events := [wait, tick];
    assert events[1..] == [tick] && [tick][1..] == [];
    FirstFailureIsFirst(s.redis, s.lastTick + gap, order);
    var t := Apply(s, wait);
    assert !NeverFlagged(t, [tick], k);
  }

  /** Exactly which registered connections are safe from the job in every timely run: those whose key outlives the
      latest possible next tick. */
  lemma NeverHungUpIff(s: Sys, k: string, gap: nat)
    requires k in s.table && s.lastTick <= s.now <= s.lastTick + gap && gap < CONN_TIME
    ensures NeverHungUp(s, k, gap) <==> k in s.redis && s.redis[k] > s.lastTick + gap
  {
    if Safe(s, k, gap) {
      forall events | Possible(s, events) && TimelyRun(s, events, k, gap)
        ensures NeverFlagged(s, events, k)
      {
        SafeConnectionStays(s, events, k, gap);
      }
    } else {
      var events := LastMoment(s, k, gap);
    }
  }

  /** A connection that registers is safe exactly when its login came later than `CONN_TIME - gap` before the last
      tick; a login less than `CONN_TIME - gap` before the registration is always late enough. */
  lemma RegistrationIsSafeIff(s: Sys, k: string, gap: nat, login: nat)
    requires s.lastTick <= s.now <= s.lastTick + gap && gap < CONN_TIME
    requires login <= s.now && k in s.redis && s.redis[k] == login + CONN_TIME
    ensures NeverHungUp(Apply(s, Register(k)), k, gap) <==> login + CONN_TIME > s.lastTick + gap
    ensures s.now < login + (CONN_TIME - gap) ==> NeverHungUp(Apply(s, Register(k)), k, gap)
  {
    NeverHungUpIff(Apply(s, Register(k)), k, gap);
  }

  /** The first tick after registration decides: in time, it makes the connection safe; too late, the key is gone
      for good, the connection is stale, and only another login revives the key. */
  lemma FirstTickDecides(s: Sys, k: string, gap: nat, order: seq<string>)
    requires k in s.table && k in s.redis && gap < CONN_TIME && Enabled(s, Tick(order, {}))
    ensures var t := Apply(s, Tick(order, {}));
            && (s.now < s.redis[k] <==> Safe(t, k, gap))
            && (s.now >= s.redis[k] ==> k in Stale(t) && Flagged(s.redis, s.now, order, {}).Some?)
  {
    FlaggedIsStale(s.redis, s.now, order, {});
    assert k in Elems(order);
    assert k in order;
  }

  const LATE: seq<Event> := [Advance(1), Login("dev"), Advance(298), Tick([], {}), Advance(60), Register("dev")]

  const REGISTERED := Sys(359, map["dev" := 361], {"dev"}, 299)

  /** Registering before the first time to live runs out is not enough: a device that logged in just after one tick
      and registers two seconds before its key expires, the next tick still to come, can be hung up on. */
  lemma LateRegistrationIsFlagged()
    ensures var s0 := Sys(0, map[], {}, 0);
            Possible(s0, LATE) && TimelyRun(s0, LATE, "dev", 300) && Run(s0, LATE) == REGISTERED
    ensures Live(REGISTERED.redis, REGISTERED.now, "dev") && !NeverHungUp(REGISTERED, "dev", 300)
  {
    var s0 := Sys(0, map[], {}, 0);
    var s1 := Sys(1, map[], {}, 0);
    var s2 := Sys(1, map["dev" := 361], {}, 0);
    var s3 := Sys(299, map["dev" := 361], {}, 0);
    var s4 := Sys(299, map["dev" := 361], {}, 299);
    var s5 := Sys(359, map["dev" := 361], {}, 299);
    EmptyTick(s3);
    Unroll(s0, LATE, [s0, s1, s2, s3, s4, s5, REGISTERED], "dev", 300);
    NeverHungUpIff(REGISTERED, "dev", 300);
  }

  lemma EmptyTick(s: Sys)
    requires s.table == {}
    ensures Enabled(s, Tick([], {})) && Apply(s, Tick([], {})) == s.(lastTick := s.now)
  {
    assert Elems<string>([]) == {};
    assert RenewAll(s.redis, s.now, {}, {}) == s.redis;
  }

  lemma {:induction false} Unroll(s: Sys, events: seq<Event>, states: seq<Sys>, k: string, gap: nat)
    requires |states| == |events| + 1 && states[0] == s
    requires forall i :: 0 <= i < |events| ==>
               && Enabled(states[i], events[i]) && Apply(states[i], events[i]) == states[i + 1]
               && Timely(states[i], events[i], gap) && Spares(states[i], events[i], k)
    ensures Possible(s, events) && Run(s, events) == states[|events|] && TimelyRun(s, events, k, gap)
    decreases |events|
  {
    if events != [] {
      assert Apply(states[0], events[0]) == states[1];
      Unroll(states[1], events[1..], states[1..], k, gap);
    }
  }

  // ----- Stale connections go away one per tick

  function Stale(s: Sys): set<string> {
    set k | k in s.table && !Live(s.redis, s.now, k)
  }

  /** No event makes a connection stale that was not. */
  ghost predicate NoNewStale(s: Sys, events: seq<Event>)
    requires Possible(s, events)
    decreases |events|
  {
    events == [] || (Stale(Apply(s, events[0])) <= Stale(s) && NoNewStale(Apply(s, events[0]), events[1..]))
  }

  lemma TickKeepsStale(s: Sys, order: seq<string>, faulty: set<string>)
    requires Enumerates(order, s.table)
    ensures Stale(Apply(s, Tick(order, faulty))) == Stale(s)
  {
  }

  lemma {:induction false} StaleShrinks(s: Sys, events: seq<Event>, k: string)
    requires Possible(s, events) && NoNewStale(s, events)
    ensures Stale(Run(s, events)) <= Stale(s)
    ensures Closed(k) in events ==> k !in Stale(Run(s, events))
    decreases |events|
  {
    if events != [] {
      StaleShrinks(Apply(s, events[0]), events[1..], k);
      assert Closed(k) in events ==> events[0] == Closed(k) || Closed(k) in events[1..];
    }
  }

  /** No event but a close of `k` takes a stale connection away: nobody else closes or logs in again. */
  predicate OnlyCloses(events: seq<Event>, k: string, stale: set<string>) {
    forall e :: e in events ==> (e.Login? || e.Closed? ==> e.k == k || e.k !in stale)
  }

  lemma {:induction false} StaleStays(s: Sys, events: seq<Event>, k: string, stale: set<string>)
    requires Possible(s, events) && OnlyCloses(events, k, stale) && stale - {k} <= Stale(s)
    ensures stale - {k} <= Stale(Run(s, events))
    decreases |events|
  {
    if events != [] {
      assert events[0] in events;
      assert forall e :: e in events[1..] ==> e in events;
      var t := Apply(s, events[0]);
      assert stale - {k} <= Stale(t);
      StaleStays(t, events[1..], k, stale);
    }
  }

  /** A tick, and whatever happens before the next one: waiting, logins, registrations, closes. */
  datatype Period = Period(order: seq<string>, rest: seq<Event>)

  predicate PeriodPossible(s: Sys, p: Period) {
    Enumerates(p.order, s.table) && Possible(Apply(s, Tick(p.order, {})), p.rest)
  }

  function After(s: Sys, p: Period): Sys
    requires PeriodPossible(s, p)
  {
    Run(Apply(s, Tick(p.order, {})), p.rest)
  }

  function FlaggedAt(s: Sys, p: Period): Option<string> {
    Flagged(s.redis, s.now, p.order, {})
  }

  /** Nothing becomes stale, and the close of the connection that is hung up on comes before the next tick. */
  ghost predicate Clearing(s: Sys, p: Period)
    requires PeriodPossible(s, p)
  {
    && NoNewStale(Apply(s, Tick(p.order, {})), p.rest)
    && (FlaggedAt(s, p).Some? ==> Closed(FlaggedAt(s, p).value) in p.rest)
  }

  predicate NothingElse(s: Sys, p: Period) {
    FlaggedAt(s, p).Some? ==> OnlyCloses(p.rest, FlaggedAt(s, p).value, Stale(s))
  }

  /** Whatever else happens between two ticks, a stale connection is gone at the second, and if none of the others
      closes or logs in again it is the only one. */
  lemma PeriodRemovesOne(s: Sys, p: Period)
    requires PeriodPossible(s, p) && Clearing(s, p)
    ensures Stale(s) != {} <==> FlaggedAt(s, p).Some?
    ensures FlaggedAt(s, p).Some? ==> FlaggedAt(s, p).value in Stale(s) && FlaggedAt(s, p).value !in Stale(After(s, p))
    ensures Stale(After(s, p)) <= Stale(s)
    ensures NothingElse(s, p) && FlaggedAt(s, p).Some? ==> Stale(After(s, p)) == Stale(s) - {FlaggedAt(s, p).value}
  {
    var ticked := Apply(s, Tick(p.order, {}));
    assert forall k :: k in p.order <==> k in s.table by {
      assert forall k :: k in p.order <==> k in Elems(p.order);
    }
    TickKeepsStale(s, p.order, {});
    FlaggedIsStale(s.redis, s.now, p.order, {});
    if FlaggedAt(s, p).Some? {
      StaleShrinks(ticked, p.rest, FlaggedAt(s, p).value);
      if NothingElse(s, p) {
        StaleStays(ticked, p.rest, FlaggedAt(s, p).value, Stale(s));
      }
    } else {
      StaleShrinks(ticked, p.rest, "");
    }
  }

  ghost predicate PeriodsClear(s: Sys, periods: seq<Period>)
    decreases |periods|
  {
    periods == [] ||
    (PeriodPossible(s, periods[0]) && Clearing(s, periods[0]) && PeriodsClear(After(s, periods[0]), periods[1..]))
  }

  predicate NothingElseIn(s: Sys, periods: seq<Period>)
    requires PeriodsClear(s, periods)
    decreases |periods|
  {
    periods == [] || (NothingElse(s, periods[0]) && NothingElseIn(After(s, periods[0]), periods[1..]))
  }

  function AfterAll(s: Sys, periods: seq<Period>): Sys
    requires PeriodsClear(s, periods)
    decreases |periods|
  {
    if periods == [] then s else AfterAll(After(s, periods[0]), periods[1..])
  }

  /** After n ticks at least n stale connections are gone, until none is left; exactly n if the job alone removes
      them, because it hangs up on one per tick. */
  lemma {:induction false} PeriodsRemoveAll(s: Sys, periods: seq<Period>)
    requires PeriodsClear(s, periods)
    ensures var left := if |periods| >= |Stale(s)| then 0 else |Stale(s)| - |periods|;
            && |Stale(AfterAll(s, periods))| <= left
            && (NothingElseIn(s, periods) ==> |Stale(AfterAll(s, periods))| == left)
    decreases |periods|
  {
    if periods != [] {
      var t := After(s, periods[0]);
      PeriodRemovesOne(s, periods[0]);
      PeriodsRemoveAll(t, periods[1..]);
      if FlaggedAt(s, periods[0]).Some? {
        SubsetSize(Stale(t), Stale(s) - {FlaggedAt(s, periods[0]).value});
      }
    }
  }

  // ----- What adds no stale connection

  /** Every registered connection is stale or outlives the next tick. */
  predicate Lasting(s: Sys, gap: nat) {
    s.lastTick <= s.now <= s.lastTick + gap && forall k :: k in s.table - Stale(s) ==> s.redis[k] > s.lastTick + gap
  }

  predicate InTime(s: Sys, events: seq<Event>, gap: nat)
    requires Possible(s, events)
    decreases |events|
  {
    events == [] ||
    (!events[0].Tick? && Timely(s, events[0], gap)
     && (events[0].Register? ==> events[0].k in s.redis && s.redis[events[0].k] > s.lastTick + gap)
     && InTime(Apply(s, events[0]), events[1..], gap))
  }

  lemma TickMakesLasting(s: Sys, order: seq<string>, gap: nat)
    requires Enumerates(order, s.table) && gap < CONN_TIME
    ensures Lasting(Apply(s, Tick(order, {})), gap)
  {
  }

  /** With ticks less than six minutes apart and registrations that are safe in the sense above, nothing becomes
      stale after a tick without failures. */
  lemma {:induction false} InTimeAddsNoStale(s: Sys, events: seq<Event>, gap: nat)
    requires Lasting(s, gap) && gap < CONN_TIME && Possible(s, events) && InTime(s, events, gap)
    ensures NoNewStale(s, events)
    decreases |events|
  {
    if events != [] {
      InTimeAddsNoStale(Apply(s, events[0]), events[1..], gap);
    }
  }

  /** So the hypotheses of the stale count hold of a period in which registrations are in time and the connection that
      is hung up on closes. */
  lemma InTimeIsClearing(s: Sys, p: Period, gap: nat)
    requires PeriodPossible(s, p) && gap < CONN_TIME && InTime(Apply(s, Tick(p.order, {})), p.rest, gap)
    requires FlaggedAt(s, p).Some? ==> Closed(FlaggedAt(s, p).value) in p.rest
    ensures Clearing(s, p)
  {
    TickMakesLasting(s, p.order, gap);
    InTimeAddsNoStale(Apply(s, Tick(p.order, {})), p.rest, gap);
  }
}
