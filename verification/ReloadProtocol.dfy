/** Any number of concurrent reloads of one device client, as a step system. A reload takes its snapshot under
    the read lock, creates clients outside the lock, commits under the write lock if the mode value is still
    the one it saw, and closes clients outside the lock; each of these is one step. */
module ReloadProtocol {
  import opened Common
  import opened DeviceClient

  datatype InFlight =
    | Snapped(snap: Snap, at: int)
    | Built(snap: Snap, at: int, made: Slots)
    | Closing(todo: seq<Client>)

  /** `history` (the modes committed so far) and `created` only serve to state properties. */
  datatype Sys = Sys(
    mode: PushMode,
    slots: Slots,
    chain: seq<Client>,
    history: seq<PushMode>,
    hasMq: bool,
    nextId: nat,
    created: set<Client>,
    released: seq<Client>,
    reloads: map<nat, InFlight>)

  datatype Event =
    | Begin(r: nat, newMode: PushMode)
    | Build(r: nat, natsOk: bool)
    | Commit(r: nat)
    | CloseNext(r: nat)
    | Return(r: nat)

  function SlotSet(s: Slots): set<Client> {
    (if s.grpc.Some? then {s.grpc.value} else {})
    + (if s.http.Some? then {s.http.value} else {})
    + (if s.nats.Some? then {s.nats.value} else {})
  }

  function Start(mode: PushMode, hasMq: bool, natsOk: bool): Sys {
    var slots := InitSlots(mode, hasMq, natsOk, 0);
    Sys(mode, slots, Chain(slots), [mode], hasMq, 3, SlotSet(slots), [], map[])
  }

  predicate Enabled(s: Sys, e: Event) {
    match e
    case Begin(r, _) => r !in s.reloads
    case Build(r, _) => r in s.reloads && s.reloads[r].Snapped?
    case Commit(r) => r in s.reloads && s.reloads[r].Built?
    case CloseNext(r) => r in s.reloads && s.reloads[r].Closing? && s.reloads[r].todo != []
    case Return(r) => r in s.reloads && s.reloads[r].Closing? && s.reloads[r].todo == []
  }

  function ApplyBegin(s: Sys, r: nat, newMode: PushMode): Sys {
    if newMode == s.mode then s
    else s.(reloads := s.reloads[r := Snapped(Snap(newMode, s.mode, s.slots), |s.history| - 1)])
  }

  function ApplyBuild(s: Sys, r: nat, natsOk: bool): Sys
    requires Enabled(s, Build(r, natsOk))
  {
    var Snapped(snap, at) := s.reloads[r];
    var made := Fresh(snap.newMode, snap.prev, s.hasMq, natsOk, s.nextId);
    s.(nextId := s.nextId + 3, created := s.created + SlotSet(made), reloads := s.reloads[r := Built(snap, at, made)])
  }

  /** The mode moved on: the reload keeps nothing but the list of what it made. */
  function Defeat(s: Sys, r: nat, todo: seq<Client>): Sys {
    s.(reloads := s.reloads[r := Closing(todo)])
  }

  function Install(s: Sys, r: nat, newMode: PushMode, next: Slots, todo: seq<Client>): Sys {
    s.(mode := newMode, slots := next, chain := Chain(next), history := s.history + [newMode],
    reloads := s.reloads[r := Closing(todo)])
  }

  function ApplyCommit(s: Sys, r: nat): Sys
    requires Enabled(s, Commit(r))
  {
    var Built(snap, _, made) := s.reloads[r];
    if s.mode != snap.oldMode then
      Defeat(s, r, Discarded(made))
    else
      Install(s, r, snap.newMode, Merged(snap.newMode, snap.prev, made), Dropped(snap.oldMode, snap.newMode, snap.prev))
  }

  function ApplyCloseNext(s: Sys, r: nat): Sys
    requires Enabled(s, CloseNext(r))
  {
    var todo := s.reloads[r].todo;
    s.(released := s.released + [todo[0]], reloads := s.reloads[r := Closing(todo[1..])])
  }

  function Apply(s: Sys, e: Event): Sys
    requires Enabled(s, e)
  {
    match e
    case Begin(r, newMode) => ApplyBegin(s, r, newMode)
    case Build(r, natsOk) => ApplyBuild(s, r, natsOk)
    case Commit(r) => ApplyCommit(s, r)
    case CloseNext(r) => ApplyCloseNext(s, r)
    case Return(r) => s.(reloads := s.reloads - {r})
  }

  // ----- Runs

  predicate Possible(s: Sys, events: seq<Event>)
    decreases |events|
  {
    events == [] || (Enabled(s, events[0]) && Possible(Apply(s, events[0]), events[1..]))
  }

  function Run(s: Sys, events: seq<Event>): Sys
    requires Possible(s, events)
    decreases |events|
  {
    if events == [] then s else Run(Apply(s, events[0]), events[1..])
  }

  /** The mode a reload saw has not been committed again since its snapshot. */
  predicate NotRecurred(s: Sys, r: nat)
    requires Enabled(s, Commit(r))
  {
    forall v :: 0 <= v < |s.history| && s.reloads[r].at < v ==> s.history[v] != s.reloads[r].snap.oldMode
  }

  predicate NoRecurrence(s: Sys, events: seq<Event>)
    requires Possible(s, events)
    decreases |events|
  {
    events == [] ||
    ((events[0].Commit? ==> NotRecurred(s, events[0].r)) && NoRecurrence(Apply(s, events[0]), events[1..]))
  }

  // ----- What holds in every run, recurrence or not

  /** The reload is responsible for the client: it made it and has not committed, or it has yet to close it. */
  predicate Holds(f: InFlight, c: Client) {
    match f
    case Snapped(_, _) => false
    case Built(_, _, made) => In(c, made)
    case Closing(todo) => c in todo
  }

  predicate MadeFor(snap: Snap, made: Slots, hasMq: bool) {
    && (made.grpc.Some? <==> snap.newMode.grpc && snap.prev.grpc.None?)
    && (made.http.Some? <==> snap.newMode.http && snap.prev.http.None?)
    && (made.nats.Some? <==> snap.newMode.nats && snap.prev.nats.None? && hasMq)
    && Kinded(made)
  }

  /** A snapshot describes the state of the version it was taken at. */
  ghost predicate SnapOk(s: Sys, snap: Snap, at: int) {
    && snap.newMode != snap.oldMode
    && Shaped(snap.oldMode, snap.prev) && (snap.prev.nats.Some? ==> s.hasMq)
    && (forall c :: In(c, snap.prev) ==> c in s.created)
    && 0 <= at < |s.history| && s.history[at] == snap.oldMode
    && (at == |s.history| - 1 ==> snap.prev == s.slots)
  }

  ghost predicate FlightOk(s: Sys, f: InFlight) {
    && (forall c :: Holds(f, c) ==> c in s.created)
    && match f
       case Snapped(snap, at) => SnapOk(s, snap, at)
       case Built(snap, at, made) => SnapOk(s, snap, at) && MadeFor(snap, made, s.hasMq)
       case Closing(todo) => Distinct(todo)
  }

  /** From the first commit on the nats slot is filled exactly when its bit is set and NATS is configured. */
  predicate NatsFilled(s: Sys) {
    && (s.slots.nats.Some? ==> s.hasMq)
    && (|s.history| > 1 ==> (s.slots.nats.Some? <==> s.mode.nats && s.hasMq))
  }

  ghost predicate Coherent(s: Sys) {
    && s.history != [] && s.history[|s.history| - 1] == s.mode
    && Shaped(s.mode, s.slots) && NatsFilled(s) && s.chain == Chain(s.slots)
    && (forall c :: In(c, s.slots) || c in s.released ==> c in s.created)
    && (forall c :: c in s.created ==> c.id < s.nextId)
    && (forall r :: r in s.reloads ==> FlightOk(s, s.reloads[r]))
  }

  lemma StartCoherent(mode: PushMode, hasMq: bool, natsOk: bool)
    ensures Coherent(Start(mode, hasMq, natsOk))
  {
  }

  lemma Seq3Distinct(a: Option<Client>, b: Option<Client>, c: Option<Client>)
    requires a.Some? ==> a != b && a != c
    requires b.Some? ==> b != c
    ensures Distinct(Seq3(a, b, c))
  {
  }

  lemma MergedShape(snap: Snap, made: Slots, hasMq: bool)
    requires Shaped(snap.oldMode, snap.prev) && MadeFor(snap, made, hasMq)
    ensures var next := Merged(snap.newMode, snap.prev, made);
            Shaped(snap.newMode, next) && (next.nats.Some? <==> snap.newMode.nats && (snap.prev.nats.Some? || hasMq))
    ensures Distinct(Dropped(snap.oldMode, snap.newMode, snap.prev)) && Distinct(Discarded(made))
  {
    Seq3Distinct(made.grpc, made.http, made.nats);
    Seq3Distinct(When(snap.oldMode.grpc && !snap.newMode.grpc, snap.prev.grpc),
                 When(snap.oldMode.http && !snap.newMode.http, snap.prev.http),
                 When(snap.oldMode.nats && !snap.newMode.nats, snap.prev.nats));
  }

  /** Where one client goes in a commit: from the snapshot or the new clients to the new slots or the
      closing list, from the new clients of a defeated reload to its closing list. */
  lemma ClientMoves(snap: Snap, made: Slots, hasMq: bool, c: Client)
    requires Shaped(snap.oldMode, snap.prev) && MadeFor(snap, made, hasMq)
    ensures c in Discarded(made) <==> In(c, made)
    ensures var next := Merged(snap.newMode, snap.prev, made);
            var dropped := Dropped(snap.oldMode, snap.newMode, snap.prev);
            && (In(c, snap.prev) || In(c, made) <==> In(c, next) || c in dropped)
            && (c in dropped && In(c, next) ==> In(c, made))
            && (c in dropped ==> In(c, snap.prev))
  {
    InDropped(snap.oldMode, snap.newMode, snap.prev, c);
    InSeq3(made.grpc, made.http, made.nats, c);
  }

  /** `next` and `todo` share out the clients of the snapshot and of the reload. */
  ghost predicate Shares(f: InFlight, next: Slots, todo: seq<Client>)
    requires f.Built?
  {
    && Distinct(todo)
    && (forall c :: In(c, f.snap.prev) || In(c, f.made) <==> In(c, next) || c in todo)
    && (forall c :: c in todo && In(c, next) ==> In(c, f.made))
    && (forall c :: c in todo ==> In(c, f.snap.prev))
  }

  lemma CommitShares(f: InFlight, hasMq: bool)
    requires f.Built? && Shaped(f.snap.oldMode, f.snap.prev) && MadeFor(f.snap, f.made, hasMq)
    ensures Shares(f, Merged(f.snap.newMode, f.snap.prev, f.made), Dropped(f.snap.oldMode, f.snap.newMode, f.snap.prev))
    ensures Distinct(Discarded(f.made)) && forall c :: c in Discarded(f.made) <==> In(c, f.made)
  {
    MergedShape(f.snap, f.made, hasMq);
    forall c {
      ClientMoves(f.snap, f.made, hasMq, c);
    }
  }

  lemma DefeatCoherent(s: Sys, r: nat, todo: seq<Client>)
    requires Coherent(s) && Enabled(s, Commit(r))
    requires Distinct(todo) && forall c :: c in todo <==> In(c, s.reloads[r].made)
    ensures Coherent(Defeat(s, r, todo))
    ensures OwnedOnce(s) ==> OwnedOnce(Defeat(s, r, todo))
  {
    var t := Defeat(s, r, todo);
    assert FlightOk(s, s.reloads[r]);
    forall c
      ensures Holds(t.reloads[r], c) <==> Holds(s.reloads[r], c)
    {
    }
    forall q | q in t.reloads
      ensures FlightOk(t, t.reloads[q])
    {
      assert q != r ==> FlightOk(s, s.reloads[q]);
    }
    if OwnedOnce(s) {
      forall o, c
        ensures Owns(t, o, c) <==> Owns(s, o, c)
      {
      }
      MoveKeepsOwned(s, t, map[]);
    }
  }

  lemma InstallCoherent(s: Sys, r: nat, next: Slots, todo: seq<Client>)
    requires Coherent(s) && Enabled(s, Commit(r))
    requires Shares(s.reloads[r], next, todo) && Shaped(s.reloads[r].snap.newMode, next)
    requires next.nats.Some? <==> s.reloads[r].snap.newMode.nats && s.hasMq
    ensures Coherent(Install(s, r, s.reloads[r].snap.newMode, next, todo))
  {
    var t := Install(s, r, s.reloads[r].snap.newMode, next, todo);
    var f := s.reloads[r];
    assert FlightOk(s, f);
    forall c
      ensures Holds(t.reloads[r], c) ==> c in s.created
      ensures In(c, next) ==> c in s.created
    {
      assert Holds(f, c) <==> In(c, f.made);
    }
    forall q | q in t.reloads
      ensures FlightOk(t, t.reloads[q])
    {
      assert q != r ==> FlightOk(s, s.reloads[q]);
    }
  }

  lemma BuildCoherent(s: Sys, r: nat, natsOk: bool)
    requires Coherent(s) && Enabled(s, Build(r, natsOk))
    ensures Coherent(ApplyBuild(s, r, natsOk))
  {
    var t := ApplyBuild(s, r, natsOk);
    assert FlightOk(s, s.reloads[r]);
    forall q | q in t.reloads
      ensures FlightOk(t, t.reloads[q])
    {
      assert q != r ==> FlightOk(s, s.reloads[q]);
    }
  }

  lemma CloseCoherent(s: Sys, r: nat)
    requires Coherent(s) && Enabled(s, CloseNext(r))
    ensures Coherent(ApplyCloseNext(s, r))
  {
    var t := ApplyCloseNext(s, r);
    var todo := s.reloads[r].todo;
    assert FlightOk(s, s.reloads[r]);
    DistinctTail(todo);
    assert Holds(s.reloads[r], todo[0]);
    forall c | c in todo[1..]
      ensures c in s.created
    {
      assert Holds(s.reloads[r], c);
    }
    forall q | q in t.reloads
      ensures FlightOk(t, t.reloads[q])
    {
      assert q != r ==> FlightOk(s, s.reloads[q]);
    }
  }

  lemma CommitCoherent(s: Sys, r: nat)
    requires Coherent(s) && Enabled(s, Commit(r))
    ensures Coherent(ApplyCommit(s, r))
  {
    var f := s.reloads[r];
    assert FlightOk(s, f);
    CommitShares(f, s.hasMq);
    MergedShape(f.snap, f.made, s.hasMq);
    if s.mode != f.snap.oldMode {
      DefeatCoherent(s, r, Discarded(f.made));
    } else {
      InstallCoherent(s, r, Merged(f.snap.newMode, f.snap.prev, f.made),
        Dropped(f.snap.oldMode, f.snap.newMode, f.snap.prev));
    }
  }

  lemma BeginCoherent(s: Sys, r: nat, newMode: PushMode)
    requires Coherent(s) && Enabled(s, Begin(r, newMode))
    ensures Coherent(ApplyBegin(s, r, newMode))
  {
    var t := ApplyBegin(s, r, newMode);
    forall q | q in t.reloads
      ensures FlightOk(t, t.reloads[q])
    {
      assert q != r ==> FlightOk(s, s.reloads[q]);
    }
  }

  lemma StepCoherent(s: Sys, e: Event)
    requires Coherent(s) && Enabled(s, e)
    ensures Coherent(Apply(s, e))
  {
    match e {
      case Begin(r, newMode) => BeginCoherent(s, r, newMode);
      case Build(r, natsOk) => BuildCoherent(s, r, natsOk);
      case Commit(r) => CommitCoherent(s, r);
      case CloseNext(r) => CloseCoherent(s, r);
      case Return(r) =>
        var t := Apply(s, e);
        forall q | q in t.reloads
          ensures FlightOk(t, t.reloads[q])
        {
          assert FlightOk(s, s.reloads[q]);
        }
    }
  }

  /** After every step of every interleaving the grpc and http slots are filled exactly when their mode bits
      are set, the nats slot only if its bit is, and the chain is the filled slots in priority order. */
  lemma {:induction false} ShapeInEveryRun(s: Sys, events: seq<Event>)
    requires Coherent(s) && Possible(s, events)
    ensures var t := Run(s, events);
            && Coherent(t) && Shaped(t.mode, t.slots) && t.chain == Chain(t.slots)
            && (|t.history| > 1 ==> (t.slots.nats.Some? <==> t.mode.nats && t.hasMq))
    decreases |events|
  {
    if events != [] {
      StepCoherent(s, events[0]);
      ShapeInEveryRun(Apply(s, events[0]), events[1..]);
    }
  }

  // ----- Ownership

  datatype Owner = InSlot | InReload(r: nat) | Released

  predicate Owns(s: Sys, o: Owner, c: Client) {
    match o
    case InSlot => In(c, s.slots)
    case InReload(r) => r in s.reloads && Holds(s.reloads[r], c)
    case Released => c in s.released
  }

  /** Every client ever created has exactly one owner, and none has been released twice. */
  ghost predicate OwnedOnce(s: Sys) {
    && (forall c :: c in s.created ==> exists o :: Owns(s, o, c))
    && (forall c, o, o' :: Owns(s, o, c) && Owns(s, o', c) ==> o == o')
    && Distinct(s.released)
  }

  lemma StartOwned(mode: PushMode, hasMq: bool, natsOk: bool)
    ensures OwnedOnce(Start(mode, hasMq, natsOk))
  {
    var s := Start(mode, hasMq, natsOk);
    forall c | c in s.created
      ensures exists o :: Owns(s, o, c)
    {
      assert Owns(s, InSlot, c);
    }
  }

  /** Steps that move each client from one owner to another, or create it with one, keep ownership. */
  lemma MoveKeepsOwned(s: Sys, t: Sys, moved: map<Client, Owner>)
    requires OwnedOnce(s) && Distinct(t.released)
    requires t.created == s.created + moved.Keys
    requires forall o, c :: c !in moved ==> (Owns(t, o, c) <==> Owns(s, o, c))
    requires forall o, c :: c in moved ==> (Owns(t, o, c) <==> o == moved[c])
    ensures OwnedOnce(t)
  {
    forall c | c in t.created
      ensures exists o :: Owns(t, o, c)
    {
      if c in moved {
        assert Owns(t, moved[c], c);
      } else {
        var o :| Owns(s, o, c);
        assert Owns(t, o, c);
      }
    }
  }

  lemma OwnedIsCreated(s: Sys, o: Owner, c: Client)
    requires Coherent(s) && Owns(s, o, c)
    ensures c in s.created
  {
    match o {
      case InSlot =>
      case InReload(r) => assert FlightOk(s, s.reloads[r]);
      case Released =>
    }
  }

  /** A new client belongs to the reload that made it, the others where they were. */
  lemma BuiltOwner(s: Sys, r: nat, natsOk: bool, o: Owner, c: Client)
    requires Coherent(s) && Enabled(s, Build(r, natsOk))
    ensures var t := ApplyBuild(s, r, natsOk);
            var made := t.reloads[r].made;
            && (c !in SlotSet(made) ==> (Owns(t, o, c) <==> Owns(s, o, c)))
            && (c in SlotSet(made) ==> (Owns(t, o, c) <==> o == InReload(r)))
  {
    var made := ApplyBuild(s, r, natsOk).reloads[r].made;
    assert c in SlotSet(made) <==> In(c, made);
    if c in SlotSet(made) {
      assert c.id >= s.nextId;
      if Owns(s, o, c) {
        OwnedIsCreated(s, o, c);
      }
    }
  }

  lemma BuildKeepsOwned(s: Sys, r: nat, natsOk: bool)
    requires Coherent(s) && OwnedOnce(s) && Enabled(s, Build(r, natsOk))
    ensures OwnedOnce(ApplyBuild(s, r, natsOk))
  {
    var t := ApplyBuild(s, r, natsOk);
    var moved := map c | c in SlotSet(t.reloads[r].made) :: InReload(r);
    assert moved.Keys == SlotSet(t.reloads[r].made);
    forall o, c
      ensures c !in moved ==> (Owns(t, o, c) <==> Owns(s, o, c))
      ensures c in moved ==> (Owns(t, o, c) <==> o == moved[c])
    {
      BuiltOwner(s, r, natsOk, o, c);
    }
    MoveKeepsOwned(s, t, moved);
  }

  lemma CloseKeepsOwned(s: Sys, r: nat)
    requires Coherent(s) && OwnedOnce(s) && Enabled(s, CloseNext(r))
    ensures OwnedOnce(ApplyCloseNext(s, r))
    ensures s.reloads[r].todo[0] !in s.released && !In(s.reloads[r].todo[0], s.slots)
  {
    var t := ApplyCloseNext(s, r);
    var todo := s.reloads[r].todo;
    assert FlightOk(s, s.reloads[r]);
    DistinctTail(todo);
    var c0 := todo[0];
    assert Owns(s, InReload(r), c0);
    assert c0 !in s.released by {
      assert c0 in s.released ==> Owns(s, Released, c0);
    }
    assert !In(c0, s.slots) by {
      assert In(c0, s.slots) ==> Owns(s, InSlot, c0);
    }
    var moved := map[c0 := Released];
    assert c0 in s.created;
    forall o, c
      ensures c != c0 ==> (Owns(t, o, c) <==> Owns(s, o, c))
      ensures c == c0 ==> (Owns(t, o, c) <==> o == Released)
    {
      assert c in todo <==> c == c0 || c in todo[1..];
      assert Owns(s, o, c0) ==> o == InReload(r);
    }
    MoveKeepsOwned(s, t, moved);
  }

  /** One client through a current commit: what owns it afterwards corresponds to what owned it before. */
  lemma InstalledOwner(s: Sys, r: nat, next: Slots, todo: seq<Client>, o: Owner, c: Client)
    requires Coherent(s) && OwnedOnce(s) && Enabled(s, Commit(r))
    requires Shares(s.reloads[r], next, todo) && s.slots == s.reloads[r].snap.prev
    ensures var t := Install(s, r, s.reloads[r].snap.newMode, next, todo);
            && (o != InSlot && o != InReload(r) ==> (Owns(t, o, c) <==> Owns(s, o, c)))
            && (Owns(t, InSlot, c) || Owns(t, InReload(r), c) <==> Owns(s, InSlot, c) || Owns(s, InReload(r), c))
            && !(Owns(t, InSlot, c) && Owns(t, InReload(r), c))
  {
    var f := s.reloads[r];
    assert Owns(s, InSlot, c) <==> In(c, f.snap.prev);
    assert Owns(s, InReload(r), c) <==> In(c, f.made);
  }

  lemma InstallKeepsOwned(s: Sys, r: nat, next: Slots, todo: seq<Client>)
    requires Coherent(s) && OwnedOnce(s) && Enabled(s, Commit(r))
    requires Shares(s.reloads[r], next, todo) && s.slots == s.reloads[r].snap.prev
    ensures OwnedOnce(Install(s, r, s.reloads[r].snap.newMode, next, todo))
  {
    var t := Install(s, r, s.reloads[r].snap.newMode, next, todo);
    forall c | c in t.created
      ensures exists o :: Owns(t, o, c)
    {
      var o :| Owns(s, o, c);
      InstalledOwner(s, r, next, todo, o, c);
      assert Owns(t, o, c) || Owns(t, InSlot, c) || Owns(t, InReload(r), c);
    }
    forall c, o, o' | Owns(t, o, c) && Owns(t, o', c)
      ensures o == o'
    {
      InstalledOwner(s, r, next, todo, o, c);
      InstalledOwner(s, r, next, todo, o', c);
    }
  }

  /** The mode check passes but the slots are not those of the snapshot: the commit reinstalls or re-closes
      a client that already belongs elsewhere, or forgets one that nobody will close. */
  lemma StaleInstallBreaksOwnership(s: Sys, r: nat, next: Slots, todo: seq<Client>)
    requires Coherent(s) && OwnedOnce(s) && Enabled(s, Commit(r)) && s.mode == s.reloads[r].snap.oldMode
    requires Shares(s.reloads[r], next, todo) && s.slots != s.reloads[r].snap.prev
    ensures !OwnedOnce(Install(s, r, s.reloads[r].snap.newMode, next, todo))
  {
    var t := Install(s, r, s.reloads[r].snap.newMode, next, todo);
    var f := s.reloads[r];
    assert FlightOk(s, f);
    if b :| In(b, s.slots) && !In(b, f.snap.prev) {
      assert Owns(s, InSlot, b);
      assert !Owns(s, InReload(r), b);
      forall o
        ensures !Owns(t, o, b)
      {
        assert o != InSlot ==> !Owns(s, o, b);
      }
      assert b in t.created;
    } else {
      var a := StaleClient(s, f.snap);
      assert a in s.created;
      var o :| Owns(s, o, a);
      assert o != InSlot;
      assert !In(a, f.made);
      assert o != InReload(r);
      assert Owns(t, o, a);
      assert Owns(t, InSlot, a) || Owns(t, InReload(r), a);
    }
  }

  /** Two shaped slot records of one mode that differ, the current one holding nothing new: some client of
      the snapshot has left the slots. */
  lemma StaleClient(s: Sys, snap: Snap) returns (a: Client)
    requires Shaped(s.mode, s.slots) && Shaped(s.mode, snap.prev)
    requires s.slots != snap.prev && forall b :: In(b, s.slots) ==> In(b, snap.prev)
    ensures In(a, snap.prev) && !In(a, s.slots) && a.kind.Nats? && snap.prev.nats == Some(a)
  {
    assert s.slots.grpc.Some? ==> In(s.slots.grpc.value, s.slots);
    assert s.slots.http.Some? ==> In(s.slots.http.value, s.slots);
    assert s.slots.nats.Some? ==> In(s.slots.nats.value, s.slots);
    assert s.slots.grpc == snap.prev.grpc && s.slots.http == snap.prev.http;
    a := snap.prev.nats.value;
  }

  /** Exactly when a commit whose mode check passes is harmless: the slots are still those of its snapshot.
      Comparing the mode value alone, as the code does, does not establish this. */
  lemma CommitKeepsOwnershipIff(s: Sys, r: nat)
    requires Coherent(s) && OwnedOnce(s) && Enabled(s, Commit(r)) && s.mode == s.reloads[r].snap.oldMode
    ensures OwnedOnce(ApplyCommit(s, r)) <==> s.slots == s.reloads[r].snap.prev
  {
    var f := s.reloads[r];
    assert FlightOk(s, f);
    CommitShares(f, s.hasMq);
    var t := ApplyCommit(s, r);
    if s.slots == f.snap.prev {
      InstallKeepsOwned(s, r, t.slots, t.reloads[r].todo);
    } else {
      StaleInstallBreaksOwnership(s, r, t.slots, t.reloads[r].todo);
    }
  }

  /** If the step is a commit whose mode check passes, the slots are those of its snapshot. */
  predicate FreshCommit(s: Sys, e: Event)
    requires Enabled(s, e)
  {
    e.Commit? && s.mode == s.reloads[e.r].snap.oldMode ==> s.slots == s.reloads[e.r].snap.prev
  }

  lemma NotRecurredIsFresh(s: Sys, r: nat)
    requires Coherent(s) && Enabled(s, Commit(r)) && NotRecurred(s, r)
    ensures FreshCommit(s, Commit(r))
  {
    assert FlightOk(s, s.reloads[r]);
    assert s.history[|s.history| - 1] == s.mode;
  }

  /** Stale commits are the only steps that break ownership, and every one of them does. */
  lemma StepKeepsOwnedIff(s: Sys, e: Event)
    requires Coherent(s) && OwnedOnce(s) && Enabled(s, e)
    ensures OwnedOnce(Apply(s, e)) <==> FreshCommit(s, e)
  {
    match e {
      case Begin(r, newMode) =>
        var t := Apply(s, e);
        forall o, c
          ensures Owns(t, o, c) <==> Owns(s, o, c)
        {
        }
        MoveKeepsOwned(s, t, map[]);
      case Build(r, natsOk) => BuildKeepsOwned(s, r, natsOk);
      case Commit(r) =>
        var f := s.reloads[r];
        assert FlightOk(s, f);
        if s.mode != f.snap.oldMode {
          CommitShares(f, s.hasMq);
          DefeatCoherent(s, r, Discarded(f.made));
        } else {
          CommitKeepsOwnershipIff(s, r);
        }
      case CloseNext(r) => CloseKeepsOwned(s, r);
      case Return(r) =>
        var t := Apply(s, e);
        forall o, c
          ensures Owns(t, o, c) <==> Owns(s, o, c)
        {
        }
        MoveKeepsOwned(s, t, map[]);
    }
  }

  /** Each client has exactly one owner in every state of the run. */
  ghost predicate OwnedThroughout(s: Sys, events: seq<Event>)
    requires Possible(s, events)
    decreases |events|
  {
    OwnedOnce(s) && (events == [] || OwnedThroughout(Apply(s, events[0]), events[1..]))
  }

  predicate FreshCommits(s: Sys, events: seq<Event>)
    requires Possible(s, events)
    decreases |events|
  {
    events == [] || (FreshCommit(s, events[0]) && FreshCommits(Apply(s, events[0]), events[1..]))
  }

  /** Exactly the runs that keep ownership: those in which every commit whose mode check passes finds the slots
      of its snapshot. */
  lemma {:induction false} OwnedThroughoutIff(s: Sys, events: seq<Event>)
    requires Coherent(s) && OwnedOnce(s) && Possible(s, events)
    ensures OwnedThroughout(s, events) <==> FreshCommits(s, events)
    decreases |events|
  {
    if events != [] {
      var t := Apply(s, events[0]);
      StepCoherent(s, events[0]);
      StepKeepsOwnedIff(s, events[0]);
      if OwnedOnce(t) {
        OwnedThroughoutIff(t, events[1..]);
      }
    }
  }

  lemma {:induction false} OwnedInEveryFreshRun(s: Sys, events: seq<Event>)
    requires Coherent(s) && OwnedOnce(s) && Possible(s, events) && FreshCommits(s, events)
    ensures Coherent(Run(s, events)) && OwnedOnce(Run(s, events))
    decreases |events|
  {
    if events != [] {
      StepCoherent(s, events[0]);
      StepKeepsOwnedIff(s, events[0]);
      OwnedInEveryFreshRun(Apply(s, events[0]), events[1..]);
    }
  }

  /** If no mode value recurs between a snapshot and its commit, every commit is fresh. */
  lemma {:induction false} NoRecurrenceIsFresh(s: Sys, events: seq<Event>)
    requires Coherent(s) && Possible(s, events) && NoRecurrence(s, events)
    ensures FreshCommits(s, events)
    decreases |events|
  {
    if events != [] {
      StepCoherent(s, events[0]);
      if events[0].Commit? {
        NotRecurredIsFresh(s, events[0].r);
      }
      NoRecurrenceIsFresh(Apply(s, events[0]), events[1..]);
    }
  }

  /** In every interleaving of any number of reloads in which no mode value recurs between a snapshot and its
      commit, each client has exactly one owner at all times. */
  lemma OwnedInEveryRun(s: Sys, events: seq<Event>)
    requires Coherent(s) && OwnedOnce(s) && Possible(s, events) && NoRecurrence(s, events)
    ensures Coherent(Run(s, events)) && OwnedOnce(Run(s, events)) && OwnedThroughout(s, events)
  {
    NoRecurrenceIsFresh(s, events);
    OwnedInEveryFreshRun(s, events);
    OwnedThroughoutIff(s, events);
  }

  // ----- Open and closed connections

  /** Only the NATS client has a `Close()` of the shape `closeIfPossible` looks for. */
  predicate Closed(s: Sys, c: Client) {
    c in s.released && c.kind.Nats?
  }

  predicate Open(s: Sys, c: Client) {
    c in s.created && c.live && !Closed(s, c)
  }

  /** No installed client is closed, no client is closed twice, and once all reloads have returned the open NATS
      connections are exactly the installed one; a released grpc or http client stays open, because it cannot be
      closed. */
  ghost predicate Tidy(s: Sys) {
    && Distinct(s.released)
    && (forall c :: In(c, s.slots) ==> c !in s.released && (c.live ==> Open(s, c)))
    && (s.reloads == map[] ==>
          forall c: Client :: Open(s, c) <==> c.live && (In(c, s.slots) || (c in s.released && !c.kind.Nats?)))
    && (s.reloads == map[] ==>
          forall c: Client :: c.kind.Nats? ==> (Open(s, c) <==> c.live && s.slots.nats == Some(c)))
  }

  lemma OwnedIsTidy(s: Sys)
    requires Coherent(s) && OwnedOnce(s)
    ensures Tidy(s)
  {
    forall c | In(c, s.slots)
      ensures c !in s.released
    {
      assert Owns(s, InSlot, c);
      assert c in s.released ==> Owns(s, Released, c);
    }
    if s.reloads == map[] {
      forall c | c in s.created
        ensures In(c, s.slots) || c in s.released
      {
        var o :| Owns(s, o, c);
      }
    }
  }

  /** Main consequence, for every run in which each commit whose mode check passes finds the slots of its snapshot,
      whether modes recur or not. */
  lemma NoInstalledClientClosed(mode: PushMode, hasMq: bool, natsOk: bool, events: seq<Event>)
    requires Possible(Start(mode, hasMq, natsOk), events) && FreshCommits(Start(mode, hasMq, natsOk), events)
    ensures Tidy(Run(Start(mode, hasMq, natsOk), events))
  {
    var s := Start(mode, hasMq, natsOk);
    StartCoherent(mode, hasMq, natsOk);
    StartOwned(mode, hasMq, natsOk);
    OwnedInEveryFreshRun(s, events);
    OwnedIsTidy(Run(s, events));
  }

  /** In particular for every run in which no mode value recurs between a snapshot and its commit. */
  lemma TidyWithoutRecurrence(mode: PushMode, hasMq: bool, natsOk: bool, events: seq<Event>)
    requires Possible(Start(mode, hasMq, natsOk), events) && NoRecurrence(Start(mode, hasMq, natsOk), events)
    ensures Tidy(Run(Start(mode, hasMq, natsOk), events))
  {
    StartCoherent(mode, hasMq, natsOk);
    NoRecurrenceIsFresh(Start(mode, hasMq, natsOk), events);
    NoInstalledClientClosed(mode, hasMq, natsOk, events);
  }

  // ----- Some hypothesis is needed

  const N_ONLY := PushMode(false, false, true)
  const N_HTTP := PushMode(true, false, true)

  const NATS_1 := Client(2, Nats, true)
  const HTTP_1 := Client(4, Http, true)
  const NATS_2 := Client(8, Nats, true)
  const HTTP_2 := Client(10, Http, true)

  /** The slow reload 1 takes its snapshot; reload 2 switches to http and closes the first NATS client. */
  const LEAVING: seq<Event> := [Begin(1, N_HTTP), Begin(2, HTTP_ONLY), Build(2, true)] + [Commit(2), CloseNext(2)]
  /** Reload 3 switches back to the mode of the snapshot, with a new NATS client. */
  const RETURNING: seq<Event> := [Begin(3, N_ONLY), Build(3, true), Commit(3)]
  /** Reload 1 goes on. */
  const STALE: seq<Event> := [Build(1, true), Commit(1)]

  const SLOW := Snapped(Snap(N_HTTP, N_ONLY, Slots(None, None, Some(NATS_1))), 0)

  const LEFT := Sys(HTTP_ONLY, Slots(None, Some(HTTP_1), None), [HTTP_1], [N_ONLY, HTTP_ONLY], true, 6,
                    {NATS_1, HTTP_1}, [NATS_1], map[1 := SLOW, 2 := Closing([])])

  const RETURNED := Sys(N_ONLY, Slots(None, None, Some(NATS_2)), [NATS_2], [N_ONLY, HTTP_ONLY, N_ONLY], true, 9,
                        {NATS_1, HTTP_1, NATS_2}, [NATS_1], map[1 := SLOW, 2 := Closing([]), 3 := Closing([HTTP_1])])

  lemma RunLeaving()
    ensures Possible(Start(N_ONLY, true, true), LEAVING) && Run(Start(N_ONLY, true, true), LEAVING) == LEFT
  {
    var s0 := Start(N_ONLY, true, true);
    var first, second := [Begin(1, N_HTTP), Begin(2, HTTP_ONLY), Build(2, true)], [Commit(2), CloseNext(2)];
    var s3 := RunBeginning();
    RunSwitching(s3);
    RunConcat(s0, first, second);
  }

  lemma RunBeginning() returns (s3: Sys)
    ensures var first := [Begin(1, N_HTTP), Begin(2, HTTP_ONLY), Build(2, true)];
            Possible(Start(N_ONLY, true, true), first) && Run(Start(N_ONLY, true, true), first) == s3
    ensures s3 == Start(N_ONLY, true, true).(nextId := 6, created := {NATS_1, HTTP_1}, reloads := s3.reloads)
    ensures s3.reloads == map[1 := SLOW, 2 := Built(Snap(HTTP_ONLY, N_ONLY, Slots(None, None, Some(NATS_1))), 0,
                                                    Slots(None, Some(HTTP_1), None))]
  {
    var s0 := Start(N_ONLY, true, true);
    var s1 := Apply(s0, Begin(1, N_HTTP));
    var s2 := Apply(s1, Begin(2, HTTP_ONLY));
    s3 := Apply(s2, Build(2, true));
    UnrollRun(s0, [Begin(1, N_HTTP), Begin(2, HTTP_ONLY), Build(2, true)], [s0, s1, s2, s3]);
  }

  lemma RunSwitching(s3: Sys)
    requires s3 == Start(N_ONLY, true, true).(nextId := 6, created := {NATS_1, HTTP_1}, reloads := s3.reloads)
    requires s3.reloads == map[1 := SLOW, 2 := Built(Snap(HTTP_ONLY, N_ONLY, Slots(None, None, Some(NATS_1))), 0,
                                                     Slots(None, Some(HTTP_1), None))]
    ensures Possible(s3, [Commit(2), CloseNext(2)]) && Run(s3, [Commit(2), CloseNext(2)]) == LEFT
  {
    var s4 := Apply(s3, Commit(2));
    assert s4.reloads[2].todo == [NATS_1] && s4.chain == [HTTP_1];
    var s5 := Apply(s4, CloseNext(2));
    assert s4.reloads[2].todo[1..] == [];
    assert s5.reloads == LEFT.reloads;
    UnrollRun(s3, [Commit(2), CloseNext(2)], [s3, s4, s5]);
  }

  lemma RunReturning()
    ensures Possible(LEFT, RETURNING) && Run(LEFT, RETURNING) == RETURNED
  {
    var s1 := Apply(LEFT, RETURNING[0]);
    var s2 := Apply(s1, RETURNING[1]);
    var s3 := Apply(s2, RETURNING[2]);
    assert s3.reloads[3].todo == [HTTP_1] && s3.chain == [NATS_2];
    assert s3.reloads == RETURNED.reloads;
    assert s3.created == RETURNED.created;
    UnrollRun(LEFT, RETURNING, [LEFT, s1, s2, s3]);
  }

  lemma RunStale()
    ensures Possible(RETURNED, STALE)
    ensures var t := Run(RETURNED, STALE);
            && t.slots == Slots(None, Some(HTTP_2), Some(NATS_1)) && t.released == [NATS_1] && NATS_2 in t.created
            && t.reloads == map[1 := Closing([]), 2 := Closing([]), 3 := Closing([HTTP_1])]
  {
    var s1 := Apply(RETURNED, STALE[0]);
    var s2 := Apply(s1, STALE[1]);
    assert s2.reloads[1].todo == [];
    UnrollRun(RETURNED, STALE, [RETURNED, s1, s2]);
  }

  lemma {:induction false} RunConcat(s: Sys, a: seq<Event>, b: seq<Event>)
    requires Possible(s, a) && Possible(Run(s, a), b)
    ensures Possible(s, a + b) && Run(s, a + b) == Run(Run(s, a), b)
    decreases |a|
  {
    if a == [] {
      assert a + b == b;
    } else {
      RunConcat(Apply(s, a[0]), a[1..], b);
      assert (a + b)[1..] == a[1..] + b;
    }
  }

  /** A run in which the mode goes nats, http, nats under a slow reload: the reload commits, installs a NATS
      client that has already been closed, and leaves the newer one open without an owner. */
  lemma RecurrenceInstallsClosedClient()
    ensures var s := Start(N_ONLY, true, true);
            var events := LEAVING + RETURNING + STALE;
            && Possible(s, events)
            && var t := Run(s, events);
               && t.slots.nats.Some? && Closed(t, t.slots.nats.value)
               && Open(t, NATS_2) && forall o :: !Owns(t, o, NATS_2)
  {
    var s := Start(N_ONLY, true, true);
    RunLeaving();
    RunReturning();
    RunStale();
    RunConcat(s, LEAVING, RETURNING);
    RunConcat(s, LEAVING + RETURNING, STALE);
    var t := Run(RETURNED, STALE);
    forall o
      ensures !Owns(t, o, NATS_2)
    {
    }
  }

  /** A list of states linked by the events is the run. */
  lemma {:induction false} UnrollRun(s: Sys, events: seq<Event>, states: seq<Sys>)
    requires |states| == |events| + 1 && states[0] == s
    requires forall i :: 0 <= i < |events| ==>
               Enabled(states[i], events[i]) && Apply(states[i], events[i]) == states[i + 1]
    ensures Possible(s, events) && Run(s, events) == states[|events|]
    decreases |events|
  {
    if events != [] {
      assert Apply(states[0], events[0]) == states[1];
      UnrollRun(states[1], events[1..], states[1..]);
    }
  }

  // ----- Dead NATS clients

  predicate AllLive(s: Slots) {
    (s.grpc.Some? ==> s.grpc.value.live) && (s.http.Some? ==> s.http.value.live) && (s.nats.Some? ==> s.nats.value.live)
  }

  /** The step installs a dead client: a commit whose mode check passes, of a reload whose NATS creation failed. */
  predicate DeadCommit(s: Sys, e: Event)
    requires Enabled(s, e)
  {
    e.Commit? && s.mode == s.reloads[e.r].snap.oldMode && s.reloads[e.r].made.nats.Some?
      && !s.reloads[e.r].made.nats.value.live
  }

  predicate NoDeadCommits(s: Sys, events: seq<Event>)
    requires Possible(s, events)
    decreases |events|
  {
    events == [] || (!DeadCommit(s, events[0]) && NoDeadCommits(Apply(s, events[0]), events[1..]))
  }

  predicate LiveThroughout(s: Sys, events: seq<Event>)
    requires Possible(s, events)
    decreases |events|
  {
    AllLive(s.slots) && (events == [] || LiveThroughout(Apply(s, events[0]), events[1..]))
  }

  /** Snapshots hold live clients, and what a reload creates is live except for its NATS client. */
  predicate LiveFlight(f: InFlight) {
    && (f.Snapped? || f.Built? ==> AllLive(f.snap.prev))
    && (f.Built? ==> AllLive(f.made.(nats := None)))
  }

  ghost predicate LiveSys(s: Sys) {
    AllLive(s.slots) && forall r :: r in s.reloads ==> LiveFlight(s.reloads[r])
  }

  lemma StartLive(mode: PushMode, hasMq: bool, natsOk: bool)
    ensures LiveSys(Start(mode, hasMq, natsOk))
  {
  }

  lemma StepLiveIff(s: Sys, e: Event)
    requires Coherent(s) && LiveSys(s) && Enabled(s, e)
    ensures AllLive(Apply(s, e).slots) <==> !DeadCommit(s, e)
    ensures !DeadCommit(s, e) ==> LiveSys(Apply(s, e))
  {
    if e.Commit? {
      assert FlightOk(s, s.reloads[e.r]);
      assert LiveFlight(s.reloads[e.r]);
    }
    forall r | r in Apply(s, e).reloads && (!e.Begin? || r != e.r)
      ensures LiveFlight(Apply(s, e).reloads[r])
    {
      assert LiveFlight(s.reloads[r]);
    }
  }

  /** Exactly when a NATS client whose creation failed stays out of the slots: no reload that made one gets its
      commit past the mode check. The log text "disabled" is true of those runs only. */
  lemma {:induction false} LiveThroughoutIff(s: Sys, events: seq<Event>)
    requires Coherent(s) && LiveSys(s) && Possible(s, events)
    ensures LiveThroughout(s, events) <==> NoDeadCommits(s, events)
    decreases |events|
  {
    if events != [] {
      StepCoherent(s, events[0]);
      StepLiveIff(s, events[0]);
      if !DeadCommit(s, events[0]) {
        LiveThroughoutIff(Apply(s, events[0]), events[1..]);
      }
    }
  }

  /** From construction on: the shape always, single ownership and live slots exactly under their conditions. */
  lemma ReloadsFromStart(mode: PushMode, hasMq: bool, natsOk: bool, events: seq<Event>)
    requires Possible(Start(mode, hasMq, natsOk), events)
    ensures var s := Start(mode, hasMq, natsOk);
            var t := Run(s, events);
            && Shaped(t.mode, t.slots) && t.chain == Chain(t.slots)
            && (t.slots.nats.Some? <==> t.mode.nats && hasMq && (|t.history| > 1 || natsOk))
            && (OwnedThroughout(s, events) <==> FreshCommits(s, events))
            && (LiveThroughout(s, events) <==> NoDeadCommits(s, events))
  {
    var s := Start(mode, hasMq, natsOk);
    StartCoherent(mode, hasMq, natsOk);
    StartOwned(mode, hasMq, natsOk);
    StartLive(mode, hasMq, natsOk);
    ShapeInEveryRun(s, events);
    NoCommitNoChange(s, events);
    InitSlotsIff(mode, hasMq, natsOk, 0);
    OwnedThroughoutIff(s, events);
    LiveThroughoutIff(s, events);
  }

  lemma {:induction false} NoCommitNoChange(s: Sys, events: seq<Event>)
    requires Possible(s, events)
    ensures var t := Run(s, events);
            && t.hasMq == s.hasMq && |t.history| >= |s.history|
            && (|t.history| == |s.history| ==> t.slots == s.slots && t.mode == s.mode)
    decreases |events|
  {
    if events != [] {
      NoCommitNoChange(Apply(s, events[0]), events[1..]);
    }
  }

  // ----- What the steps of a reload come to

  /** What a merge keeps, adds and leaves to be closed. */
  lemma MergedOutcome(snap: Snap, made: Slots, hasMq: bool)
    requires Shaped(snap.oldMode, snap.prev) && MadeFor(snap, made, hasMq)
    ensures var next := Merged(snap.newMode, snap.prev, made);
            && KeepsWanted(snap.newMode, snap.prev, next)
            && (forall c :: In(c, next) ==> In(c, made) || In(c, snap.prev))
            && (forall c :: In(c, made) ==> In(c, next))
            && forall c :: c in Dropped(snap.oldMode, snap.newMode, snap.prev) <==> In(c, snap.prev) && !In(c, next)
  {
    forall c
      ensures c in Dropped(snap.oldMode, snap.newMode, snap.prev) <==>
                In(c, snap.prev) && !In(c, Merged(snap.newMode, snap.prev, made))
    {
      InDropped(snap.oldMode, snap.newMode, snap.prev, c);
    }
  }

  /** If the mode is still the one the reload saw, the commit installs the new mode, keeping of the snapshot what the
      new mode wants, with all that the reload made, and leaves exactly the rest of the snapshot to be closed. */
  lemma WinningCommit(s: Sys, r: nat)
    requires Coherent(s) && Enabled(s, Commit(r)) && s.mode == s.reloads[r].snap.oldMode
    ensures var f, t := s.reloads[r], Apply(s, Commit(r));
            && t.mode == f.snap.newMode && KeepsWanted(t.mode, f.snap.prev, t.slots)
            && (forall c :: In(c, f.made) ==> In(c, t.slots))
            && (t.slots.nats.Some? <==> t.mode.nats && s.hasMq)
            && t.released == s.released && t.reloads.Keys == s.reloads.Keys && t.reloads[r].Closing?
            && InClosingOrder(t.reloads[r].todo)
            && forall c :: c in t.reloads[r].todo <==> In(c, f.snap.prev) && !In(c, t.slots)
  {
    var f := s.reloads[r];
    assert FlightOk(s, f);
    MergedShape(f.snap, f.made, s.hasMq);
    MergedOutcome(f.snap, f.made, s.hasMq);
    ClosingOrder(f.snap.oldMode, f.snap.newMode, f.snap.prev);
    var next, todo := Merged(f.snap.newMode, f.snap.prev, f.made), Dropped(f.snap.oldMode, f.snap.newMode, f.snap.prev);
    InstallIs(s, r, f.snap.newMode, next, todo);
  }

  lemma InstallIs(s: Sys, r: nat, newMode: PushMode, next: Slots, todo: seq<Client>)
    requires r in s.reloads
    ensures var t := Install(s, r, newMode, next, todo);
            && t.mode == newMode && t.slots == next && t.released == s.released
            && t.reloads.Keys == s.reloads.Keys && t.reloads[r] == Closing(todo)
  {
  }

  /** Otherwise it changes nothing and leaves exactly what the reload made to be closed. */
  lemma LosingCommit(s: Sys, r: nat)
    requires Coherent(s) && Enabled(s, Commit(r)) && s.mode != s.reloads[r].snap.oldMode
    ensures var f, t := s.reloads[r], Apply(s, Commit(r));
            && r in t.reloads && t.reloads[r].Closing? && t == s.(reloads := s.reloads[r := t.reloads[r]])
            && InClosingOrder(t.reloads[r].todo)
            && forall c :: c in t.reloads[r].todo <==> In(c, f.made)
  {
    var f := s.reloads[r];
    assert FlightOk(s, f);
    CommitShares(f, s.hasMq);
    ClosingOrder(f.snap.oldMode, f.snap.newMode, f.made);
  }

  lemma ThreeSteps(s: Sys, r: nat, newMode: PushMode, natsOk: bool) returns (made: Slots, todo: seq<Client>)
    requires r !in s.reloads && newMode != s.mode
    ensures made == Fresh(newMode, s.slots, s.hasMq, natsOk, s.nextId) && todo == Dropped(s.mode, newMode, s.slots)
    ensures var events, next := [Begin(r, newMode), Build(r, natsOk), Commit(r)], Merged(newMode, s.slots, made);
            && Possible(s, events)
            && Run(s, events) == s.(mode := newMode, slots := next, chain := Chain(next),
                                    history := s.history + [newMode],
                                    nextId := s.nextId + 3, created := s.created + SlotSet(made),
                                    reloads := s.reloads[r := Closing(todo)])
  {
    made := Fresh(newMode, s.slots, s.hasMq, natsOk, s.nextId);
    todo := Dropped(s.mode, newMode, s.slots);
    var snap, at := Snap(newMode, s.mode, s.slots), |s.history| - 1;
    var s1 := s.(reloads := s.reloads[r := Snapped(snap, at)]);
    var s2 := s.(nextId := s.nextId + 3, created := s.created + SlotSet(made),
                 reloads := s.reloads[r := Built(snap, at, made)]);
    assert s1.reloads[r := Built(snap, at, made)] == s2.reloads;
    assert Apply(s1, Build(r, natsOk)) == s2;
    var s3 := Apply(s2, Commit(r));
    assert s2.reloads[r := Closing(todo)] == s.reloads[r := Closing(todo)];
    UnrollRun(s, [Begin(r, newMode), Build(r, natsOk), Commit(r)], [s, s1, s2, s3]);
  }

  /** Whatever else is in flight: a reload whose steps nobody interrupts takes the client from any mode to any other,
      keeps what both want, makes the rest, NATS included if it is configured, and is left with exactly the clients it
      uninstalled. A reload to the current mode does nothing. */
  lemma UninterruptedReload(s: Sys, r: nat, newMode: PushMode, natsOk: bool)
    requires Coherent(s) && r !in s.reloads
    ensures newMode == s.mode ==> Apply(s, Begin(r, newMode)) == s
    ensures newMode != s.mode ==>
              var events := [Begin(r, newMode), Build(r, natsOk), Commit(r)];
              && Possible(s, events)
              && var t := Run(s, events);
                 && t.mode == newMode && Shaped(newMode, t.slots) && KeepsWanted(newMode, s.slots, t.slots)
                 && (t.slots.nats.Some? <==> newMode.nats && s.hasMq)
                 && (forall c :: In(c, t.slots) && !In(c, s.slots) ==>
                       c !in s.created && (c.live <==> natsOk || !c.kind.Nats?))
                 && r in t.reloads && t.reloads[r].Closing? && t.released == s.released
                 && (forall c :: c in t.reloads[r].todo <==> In(c, s.slots) && !In(c, t.slots))
                 && t.reloads - {r} == s.reloads
  {
    if newMode != s.mode {
      var made, todo := ThreeSteps(s, r, newMode, natsOk);
      QuietReload(s.mode, newMode, s.slots, made, s.hasMq, natsOk, s.nextId);
      assert s.reloads[r := Closing(todo)] - {r} == s.reloads;
    }
  }

  function Closes(r: nat, n: nat): seq<Event> {
    if n == 0 then [Return(r)] else [CloseNext(r)] + Closes(r, n - 1)
  }

  /** The reload then closes its clients one by one, in order, and is done. */
  lemma {:induction false} ClosingReleases(s: Sys, r: nat)
    requires r in s.reloads && s.reloads[r].Closing?
    ensures var todo := s.reloads[r].todo;
            && Possible(s, Closes(r, |todo|))
            && Run(s, Closes(r, |todo|)) == s.(released := s.released + todo, reloads := s.reloads - {r})
    decreases |s.reloads[r].todo|
  {
    var todo := s.reloads[r].todo;
    if todo == [] {
      assert s.released + todo == s.released;
      assert Closes(r, 0)[1..] == [];
    } else {
      var t := Apply(s, CloseNext(r));
      ClosingReleases(t, r);
      assert Closes(r, |todo|)[1..] == Closes(r, |todo| - 1);
      assert s.released + [todo[0]] + todo[1..] == s.released + todo;
      assert t.reloads - {r} == s.reloads - {r};
    }
  }

  predicate AllBuildsWork(events: seq<Event>) {
    forall i :: 0 <= i < |events| && events[i].Build? ==> events[i].natsOk
  }

  ghost predicate MadeLive(s: Sys) {
    forall r :: r in s.reloads && s.reloads[r].Built? ==> AllLive(s.reloads[r].made)
  }

  lemma StepMadeLive(s: Sys, e: Event)
    requires MadeLive(s) && Enabled(s, e) && (e.Build? ==> e.natsOk)
    ensures !DeadCommit(s, e) && MadeLive(Apply(s, e))
  {
    var t := Apply(s, e);
    forall r | r in t.reloads && t.reloads[r].Built?
      ensures AllLive(t.reloads[r].made)
    {
      assert r in s.reloads && s.reloads[r].Built? ==> AllLive(s.reloads[r].made);
    }
  }

  lemma {:induction false} BuildsWorkNoDeadCommits(s: Sys, events: seq<Event>)
    requires MadeLive(s) && Possible(s, events) && AllBuildsWork(events)
    ensures NoDeadCommits(s, events)
    decreases |events|
  {
    if events != [] {
      StepMadeLive(s, events[0]);
      assert AllBuildsWork(events[1..]) by {
        assert forall i :: 0 <= i < |events[1..]| ==> events[1..][i] == events[i + 1];
      }
      BuildsWorkNoDeadCommits(Apply(s, events[0]), events[1..]);
    }
  }

  /** In particular, if no NATS creation fails during a reload, every client in the slots is live at all times. */
  lemma LiveIfBuildsWork(mode: PushMode, hasMq: bool, natsOk: bool, events: seq<Event>)
    requires Possible(Start(mode, hasMq, natsOk), events) && AllBuildsWork(events)
    ensures LiveThroughout(Start(mode, hasMq, natsOk), events)
  {
    BuildsWorkNoDeadCommits(Start(mode, hasMq, natsOk), events);
    ReloadsFromStart(mode, hasMq, natsOk, events);
  }

  /** Whenever it commits, a reload whose NATS creation failed installs the dead client in the slot and in the
      chain, contrary to the log text "disabled", unless the mode check defeats it. */
  lemma FailedBuildIsInstalled(s: Sys, r: nat)
    requires Coherent(s) && Enabled(s, Commit(r))
    requires s.reloads[r].made.nats.Some? && !s.reloads[r].made.nats.value.live
    ensures var t := Apply(s, Commit(r));
            if s.mode == s.reloads[r].snap.oldMode
            then t.slots.nats == s.reloads[r].made.nats && t.slots.nats.value in t.chain
            else t.slots == s.slots && t.chain == s.chain && s.reloads[r].made.nats.value in t.reloads[r].todo
  {
    assert FlightOk(s, s.reloads[r]);
    var t, made := Apply(s, Commit(r)), s.reloads[r].made;
    InSeq3(t.slots.grpc, t.slots.nats, t.slots.http, made.nats.value);
    InSeq3(made.grpc, made.http, made.nats, made.nats.value);
  }
}
