/** The distributed lock: a Redis key set only if absent, with a time to live, deleted by whoever unlocks.
    Times are milliseconds. */
module LeaseLock {
  import opened Common

  const LOCK_TTL := 10000
  const MAX_WAIT := 5000
  const RETRY_INTERVAL := 100

  // ----- One key and its clients

  /** `key` is the expiry time of the Redis key; `holders` maps each client whose Lock returned nil and that has
      not unlocked to the time its lease ends. */
  datatype Sys = Sys(now: nat, key: Option<nat>, holders: map<nat, nat>)

  datatype Event = Advance(d: nat) | TryLock(c: nat) | Unlock(c: nat)

  const FREE := Sys(0, None, map[])

  predicate Live(s: Sys) {
    s.key.Some? && s.now < s.key.value
  }

  function Apply(s: Sys, e: Event): Sys {
    match e
    case Advance(d) => s.(now := s.now + d)
    case TryLock(c) =>
      if Live(s) then s else Sys(s.now, Some(s.now + LOCK_TTL), s.holders[c := s.now + LOCK_TTL])
    case Unlock(c) => Sys(s.now, None, s.holders - {c})
  }

  function Run(s: Sys, events: seq<Event>): Sys
    decreases |events|
  {
    if events == [] then s else Run(Apply(s, events[0]), events[1..])
  }

  /** No holder outlives its lease, and nobody unlocks a lock that another client holds. */
  predicate Disciplined(s: Sys, e: Event) {
    match e
    case Advance(d) => forall c :: c in s.holders ==> s.now + d < s.holders[c]
    case TryLock(_) => true
    case Unlock(c) => s.holders == map[] || c in s.holders
  }

  predicate DisciplinedRun(s: Sys, events: seq<Event>)
    decreases |events|
  {
    events == [] || (Disciplined(s, events[0]) && DisciplinedRun(Apply(s, events[0]), events[1..]))
  }

  /** Either nobody holds the lock and the key is absent, or one client does and the key is its live lease. */
  ghost predicate Exclusive(s: Sys) {
    if s.holders == map[] then s.key == None
    else exists c: nat, t: nat :: s.holders == map[c := t] && s.key == Some(t) && s.now < t
  }

  /** A step keeps the lock exclusive exactly when it is disciplined. */
  lemma StepKeepsExclusiveIff(s: Sys, e: Event)
    requires Exclusive(s)
    ensures Exclusive(Apply(s, e)) <==> Disciplined(s, e)
  {
    var t := Apply(s, e);
    if s.holders != map[] {
      var c: nat, until: nat :| s.holders == map[c := until] && s.key == Some(until) && s.now < until;
      match e {
        case Advance(d) =>
          assert c in s.holders;
          if Disciplined(s, e) {
            assert t.holders == map[c := until];
          }
        case TryLock(_) =>
        case Unlock(c') =>
          if c' == c {
            assert t.holders == map[];
          } else {
            assert c in t.holders;
          }
      }
    } else if e.TryLock? {
      assert t.holders == map[e.c := s.now + LOCK_TTL];
    } else {
      assert t.holders == map[];
    }
  }

  /** A client gets the lock exactly when the key is gone, and has it for ten seconds. */
  lemma LockOutcome(s: Sys, c: nat, d: nat)
    ensures Live(s) ==> Apply(s, TryLock(c)) == s
    ensures !Live(s) ==>
              var t := Apply(s, TryLock(c));
              && c in t.holders && t.holders[c] == t.now + 10000 && t.now == s.now
              && (Live(Apply(t, Advance(d))) <==> d < 10000)
  {
  }

  /** From then on another client gets it exactly when it has been unlocked or ten seconds have passed. */
  lemma SecondLockIff(s: Sys, c: nat, other: nat, d: nat, unlocked: bool)
    requires !Live(s) && other !in s.holders && other != c
    ensures var t := Apply(Apply(s, TryLock(c)), Advance(d));
            var u := if unlocked then Apply(t, Unlock(c)) else t;
            other in Apply(u, TryLock(other)).holders <==> unlocked || d >= 10000
  {
  }

  /** In every timed run in which holders unlock within the time to live and only holders unlock, at most one
      client holds the lock, and while one does the key is there. */
  lemma {:induction false} AtMostOneHolder(s: Sys, events: seq<Event>)
    requires Exclusive(s) && DisciplinedRun(s, events)
    ensures var t := Run(s, events);
            && Exclusive(t) && |t.holders| <= 1
            && (t.holders != map[] ==> Live(t))
    decreases |events|
  {
    if events != [] {
      StepKeepsExclusiveIff(s, events[0]);
      AtMostOneHolder(Apply(s, events[0]), events[1..]);
    }
  }

  lemma AtMostOneHolderFromFree(events: seq<Event>)
    requires DisciplinedRun(FREE, events)
    ensures var t := Run(FREE, events);
            |t.holders| <= 1 && (t.holders != map[] ==> Live(t))
  {
    AtMostOneHolder(FREE, events);
  }

  /** Any undisciplined step while the lock is held lets a second client in. */
  lemma UndisciplinedStepAdmitsSecond(s: Sys, e: Event, c: nat, other: nat)
    requires Exclusive(s) && c in s.holders && !Disciplined(s, e) && other != c
    ensures var t := Apply(Apply(s, e), TryLock(other)); c in t.holders && other in t.holders
  {
    var c0: nat, until: nat :| s.holders == map[c0 := until] && s.key == Some(until) && s.now < until;
    assert c0 == c;
  }

  // ----- The retry loop

  /** The environment of one call: the Redis reply and duration of each attempt, whether each wait ends with its
      timer rather than with the context, and how late that timer fires. */
  datatype Env = Env(reply: nat -> bool, took: nat -> nat, timerFirst: nat -> bool, lag: nat -> nat)

  /** Attempts are made until one succeeds, the deadline has passed after a failure, or the context ends a wait:
      at most 51 of them, and success is reported exactly when the last one succeeded. */
  method BlockUntilLock(start: nat, env: Env) returns (locked: bool, attempts: nat)
    ensures 1 <= attempts <= 51
    ensures forall k :: 0 <= k < attempts - 1 ==> !env.reply(k) && env.timerFirst(k)
    ensures locked <==> env.reply(attempts - 1)
    ensures !locked ==> !env.timerFirst(attempts - 1) || Elapsed(env, attempts) + Waited(env, attempts - 1) >= 5000
  {
    var now := start;
    attempts := 0;
    while true
      invariant 0 <= attempts <= MAX_WAIT / RETRY_INTERVAL
      invariant now == start + Elapsed(env, attempts) + Waited(env, attempts)
      invariant Waited(env, attempts) >= attempts * RETRY_INTERVAL
      invariant forall k :: 0 <= k < attempts ==> !env.reply(k) && env.timerFirst(k)
      decreases MAX_WAIT / RETRY_INTERVAL - attempts
    {
      now := now + env.took(attempts);
      attempts := attempts + 1;
      if env.reply(attempts - 1) {
        return true, attempts;
      }
      if now >= start + MAX_WAIT {
        return false, attempts;
      }
      if !env.timerFirst(attempts - 1) {
        return false, attempts;
      }
      now := now + RETRY_INTERVAL + env.lag(attempts - 1);
    }
  }

  /** Time spent in the first `n` attempts. */
  function Elapsed(env: Env, n: nat): nat {
    if n == 0 then 0 else Elapsed(env, n - 1) + env.took(n - 1)
  }

  /** Time spent waiting after the first `n` attempts. */
  function Waited(env: Env, n: nat): nat {
    if n == 0 then 0 else Waited(env, n - 1) + RETRY_INTERVAL + env.lag(n - 1)
  }

  /** Each wait takes a tenth of a second, and longer only if its timer fires late. */
  lemma {:induction false} WaitedIs(env: Env, n: nat)
    ensures Waited(env, n) >= 100 * n
    ensures (forall k :: 0 <= k < n ==> env.lag(k) == 0) ==> Waited(env, n) == 100 * n
  {
    if n > 0 {
      WaitedIs(env, n - 1);
    }
  }
}
