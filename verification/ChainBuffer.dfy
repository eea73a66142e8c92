/** Pushes walking the chain while commits rewrite its buffer. A push copies the slice header under the lock and
    reads the cells after unlocking; a commit truncates the same slice and appends to it, in place while the
    capacity lasts. Appends and reads interleave one by one. */
module ChainBuffer {
  import opened Common
  import opened DeviceClient

  /** A push in flight: its copy of the slice header, the version it was copied at, the cells read so far. */
  datatype Walk = Walk(arr: nat, len: nat, at: nat, seen: Cells)

  /** `heap` holds every backing array ever allocated; the chain is the first `len` cells of array `arr`.
      The last element of `hist` is the chain being written, or the current one once `len` reaches its length. */
  datatype Buf = Buf(heap: seq<Cells>, arr: nat, len: nat, hist: seq<seq<Client>>, walks: map<nat, Walk>)

  datatype Event =
    | StartRebuild(target: seq<Client>)
    | AppendNext
    | StartPush(p: nat)
    | ReadNext(p: nat)

  const EMPTY := Buf([[]], 0, 0, [[]], map[])

  predicate Bounded(b: Buf) {
    && b.hist != [] && b.arr < |b.heap| && b.len <= |b.heap[b.arr]| && b.len <= |Target(b)|
    && forall p :: p in b.walks ==> b.walks[p].arr < |b.heap| && b.walks[p].len <= |b.heap[b.walks[p].arr]|
  }

  function Target(b: Buf): seq<Client>
    requires b.hist != []
  {
    b.hist[|b.hist| - 1]
  }

  /** Nobody holds the write lock. */
  predicate Unlocked(b: Buf)
    requires b.hist != []
  {
    b.len == |Target(b)|
  }

  predicate Enabled(b: Buf, e: Event) {
    Bounded(b) &&
    match e
    case StartRebuild(_) => Unlocked(b)
    case AppendNext => !Unlocked(b)
    case StartPush(p) => Unlocked(b) && p !in b.walks
    case ReadNext(p) => p in b.walks && |b.walks[p].seen| < b.walks[p].len
  }

  function Apply(b: Buf, e: Event): (r: Buf)
    requires Enabled(b, e)
    ensures Bounded(r)
  {
    match e
    case StartRebuild(target) => b.(len := 0, hist := b.hist + [target])
    case AppendNext =>
      var cells := AppendCells(b.heap[b.arr], b.len, Target(b)[b.len]);
      if b.len < |b.heap[b.arr]| then b.(heap := b.heap[b.arr := cells], len := b.len + 1)
      else b.(heap := b.heap + [cells], arr := |b.heap|, len := b.len + 1)
    case StartPush(p) => b.(walks := b.walks[p := Walk(b.arr, b.len, |b.hist| - 1, [])])
    case ReadNext(p) =>
      var w := b.walks[p];
      b.(walks := b.walks[p := w.(seen := w.seen + [b.heap[w.arr][|w.seen|]])])
  }

  predicate Possible(b: Buf, events: seq<Event>)
    decreases |events|
  {
    events == [] || (Enabled(b, events[0]) && Possible(Apply(b, events[0]), events[1..]))
  }

  function Run(b: Buf, events: seq<Event>): Buf
    requires Possible(b, events)
    decreases |events|
  {
    if events == [] then b else Run(Apply(b, events[0]), events[1..])
  }

  // ----- What a cell can hold

  /** The cell holds the client that stood at index `k` of version `v`. */
  predicate Holds(cell: Option<Client>, hist: seq<seq<Client>>, k: nat, v: int) {
    0 <= v < |hist| && k < |hist[v]| && cell == Some(hist[v][k])
  }

  /** ... of some version not older than `at`. */
  ghost predicate HoldsSince(cell: Option<Client>, hist: seq<seq<Client>>, k: nat, at: nat) {
    exists v :: at <= v && Holds(cell, hist, k, v)
  }

  ghost predicate WalkOk(b: Buf, w: Walk)
    requires Bounded(b)
  {
    && w.arr < |b.heap| && w.len <= |b.heap[w.arr]| && w.at < |b.hist| && |w.seen| <= w.len == |b.hist[w.at]|
    && (forall k :: 0 <= k < w.len ==> HoldsSince(b.heap[w.arr][k], b.hist, k, w.at))
    && (forall k :: 0 <= k < |w.seen| ==> HoldsSince(w.seen[k], b.hist, k, w.at))
    && (w.at == |b.hist| - 1 ==>
          && w.arr == b.arr && w.len == b.len
          && forall k :: 0 <= k < |w.seen| ==> w.seen[k] == Some(b.hist[w.at][k]))
  }

  ghost predicate Inv(b: Buf) {
    && Bounded(b)
    && (forall k :: 0 <= k < b.len ==> b.heap[b.arr][k] == Some(Target(b)[k]))
    && (forall p :: p in b.walks ==> WalkOk(b, b.walks[p]))
  }

  lemma HoldsLonger(cell: Option<Client>, hist: seq<seq<Client>>, k: nat, at: nat, next: seq<Client>)
    requires HoldsSince(cell, hist, k, at)
    ensures HoldsSince(cell, hist + [next], k, at)
  {
    var v :| at <= v && Holds(cell, hist, k, v);
    assert Holds(cell, hist + [next], k, v);
  }

  lemma RebuildKeeps(b: Buf, target: seq<Client>)
    requires Inv(b) && Enabled(b, StartRebuild(target))
    ensures Inv(Apply(b, StartRebuild(target)))
  {
    var t := Apply(b, StartRebuild(target));
    forall p | p in t.walks
      ensures WalkOk(t, t.walks[p])
    {
      var w := b.walks[p];
      assert WalkOk(b, w);
      forall k | 0 <= k < w.len
        ensures HoldsSince(t.heap[w.arr][k], t.hist, k, w.at)
      {
        HoldsLonger(b.heap[w.arr][k], b.hist, k, w.at, target);
      }
      forall k | 0 <= k < |w.seen|
        ensures HoldsSince(w.seen[k], t.hist, k, w.at)
      {
        HoldsLonger(w.seen[k], b.hist, k, w.at, target);
      }
    }
  }

  lemma AppendKeeps(b: Buf)
    requires Inv(b) && Enabled(b, AppendNext)
    ensures Inv(Apply(b, AppendNext))
  {
    var t := Apply(b, AppendNext);
    forall k | 0 <= k < t.len
      ensures t.heap[t.arr][k] == Some(Target(t)[k])
    {
      assert k < b.len ==> t.heap[t.arr][k] == t.heap[t.arr][..b.len][k] == b.heap[b.arr][k];
    }
    forall p | p in t.walks
      ensures WalkOk(t, t.walks[p])
    {
      var w := b.walks[p];
      assert WalkOk(b, w);
      forall k | 0 <= k < w.len
        ensures HoldsSince(t.heap[w.arr][k], t.hist, k, w.at)
      {
        if w.arr == b.arr && k == b.len {
          assert Holds(t.heap[w.arr][k], t.hist, k, |t.hist| - 1);
        } else {
          assert t.heap[w.arr][k] == b.heap[w.arr][k];
        }
      }
    }
  }

  lemma PushKeeps(b: Buf, p: nat)
    requires Inv(b) && Enabled(b, StartPush(p))
    ensures Inv(Apply(b, StartPush(p)))
  {
    var t := Apply(b, StartPush(p));
    forall k | 0 <= k < b.len
      ensures HoldsSince(t.heap[t.arr][k], t.hist, k, |t.hist| - 1)
    {
      assert Holds(t.heap[t.arr][k], t.hist, k, |t.hist| - 1);
    }
    forall q | q in t.walks
      ensures WalkOk(t, t.walks[q])
    {
      assert q != p ==> WalkOk(b, b.walks[q]);
    }
  }

  lemma ReadKeeps(b: Buf, p: nat)
    requires Inv(b) && Enabled(b, ReadNext(p))
    ensures Inv(Apply(b, ReadNext(p)))
  {
    var t := Apply(b, ReadNext(p));
    assert WalkOk(b, b.walks[p]);
    forall q | q in t.walks
      ensures WalkOk(t, t.walks[q])
    {
      assert q != p ==> WalkOk(b, b.walks[q]);
    }
  }

  lemma {:induction false} InvInEveryRun(b: Buf, events: seq<Event>)
    requires Inv(b) && Possible(b, events)
    ensures Inv(Run(b, events))
    decreases |events|
  {
    if events != [] {
      match events[0] {
        case StartRebuild(target) => RebuildKeeps(b, target);
        case AppendNext => AppendKeeps(b);
        case StartPush(p) => PushKeeps(b, p);
        case ReadNext(p) => ReadKeeps(b, p);
      }
      InvInEveryRun(Apply(b, events[0]), events[1..]);
    }
  }

  /** Whatever rebuilds run under it, the `k`-th client a push reads is one that stood at index `k` of the
      chain it copied or of a later one, never an unset cell. */
  lemma ReadsComeFromChains(events: seq<Event>, p: nat, k: nat)
    requires Possible(EMPTY, events)
    requires p in Run(EMPTY, events).walks && k < |Run(EMPTY, events).walks[p].seen|
    ensures var b := Run(EMPTY, events);
            var w := b.walks[p];
            exists v :: w.at <= v < |b.hist| && k < |b.hist[v]| && w.seen[k] == Some(b.hist[v][k])
  {
    InvInEveryRun(EMPTY, events);
    var b := Run(EMPTY, events);
    var w := b.walks[p];
    assert WalkOk(b, w);
    var v :| w.at <= v && Holds(w.seen[k], b.hist, k, v);
  }

  function Clients(cells: Cells): seq<Client>
    requires forall i :: 0 <= i < |cells| ==> cells[i].Some?
  {
    seq(|cells|, i requires 0 <= i < |cells| => cells[i].value)
  }

  /** If no commit has started since the push copied the header, it has read a prefix of that chain; a push
      that reads to the end therefore answers as `Push` does when nobody interferes. */
  lemma UndisturbedPushWalksItsSnapshot(events: seq<Event>, p: nat, answer: Client -> Answer)
    requires Possible(EMPTY, events) && p in Run(EMPTY, events).walks
    requires Run(EMPTY, events).walks[p].at == |Run(EMPTY, events).hist| - 1
    ensures var b := Run(EMPTY, events);
            var w := b.walks[p];
            && w.at < |b.hist| && |w.seen| <= |b.hist[w.at]|
            && w.seen == Filled(b.hist[w.at][..|w.seen|])
            && (|w.seen| == w.len ==>
                  Clients(w.seen) == b.hist[w.at] &&
                  Fallback(Clients(w.seen), answer, NoClientAvailable) ==
                    Fallback(b.hist[w.at], answer, NoClientAvailable))
  {
    InvInEveryRun(EMPTY, events);
    var b := Run(EMPTY, events);
    var w := b.walks[p];
    assert WalkOk(b, w);
    if |w.seen| == w.len {
      assert Clients(w.seen) == b.hist[w.at];
    }
  }

  // ----- Which rebuilds a push can overlap without missing a client

  predicate InAll(x: Client, ts: seq<seq<Client>>) {
    forall k :: 0 <= k < |ts| ==> x in ts[k]
  }

  /** The first `k` new chains fit into the old array. */
  predicate Fit(ts: seq<seq<Client>>, k: int, capacity: nat)
    requires k <= |ts|
  {
    forall m :: 0 <= m < k ==> |ts[m]| <= capacity
  }

  /** Rebuild `k` puts another client into the cell of `c[i]`, which all the chains contain. */
  predicate Displaces(c: seq<Client>, ts: seq<seq<Client>>, capacity: nat, i: int, k: int) {
    && 0 <= i < |c| && 0 <= k < |ts| && InAll(c[i], ts)
    && i < |ts[k]| && i < capacity && Fit(ts, k, capacity) && ts[k][i] != c[i]
  }

  /** No rebuild of the list displaces a client that all the chains contain. */
  predicate Harmless(c: seq<Client>, ts: seq<seq<Client>>, capacity: nat) {
    forall i, k :: 0 <= i < |c| && 0 <= k < |ts| ==> !Displaces(c, ts, capacity, i, k)
  }

  /** The clients common to all the chains have been read. */
  predicate SeesCommon(seen: Cells, c: seq<Client>, ts: seq<seq<Client>>) {
    forall x :: x in c && InAll(x, ts) ==> Some(x) in seen
  }

  /** Nothing but rebuilds, to the chains of `ts` one after the other as far as they come, and the reads of push
      `p`, which reads to the end. */
  predicate Overlap(b: Buf, p: nat, ts: seq<seq<Client>>, events: seq<Event>) {
    && Possible(b, events)
    && (forall e :: e in events ==> e.StartRebuild? || e.AppendNext? || e == ReadNext(p))
    && var t := Run(b, events);
       t.hist <= b.hist + ts && p in t.walks && |t.walks[p].seen| == t.walks[p].len
  }

  /** `b` has just seen push `p` copy the header. */
  predicate JustPushed(b: Buf, p: nat) {
    && Bounded(b) && Unlocked(b) && p in b.walks && b.walks[p] == Walk(b.arr, b.len, |b.hist| - 1, [])
    && forall i :: 0 <= i < b.len ==> b.heap[b.arr][i] == Some(Target(b)[i])
  }

  /** No rebuild displaces the client at index `i`. */
  predicate Stands(b: Buf, ts: seq<seq<Client>>, i: nat)
    requires Bounded(b)
  {
    && i < |Target(b)| && InAll(Target(b)[i], ts)
    && forall k :: 0 <= k < |ts| ==> !Displaces(Target(b), ts, |b.heap[b.arr]|, i, k)
  }

  /** `t` lies between that moment and the end of the walk. */
  predicate Overlapping(b: Buf, t: Buf, p: nat, ts: seq<seq<Client>>)
    requires JustPushed(b, p)
  {
    && OldArray(b, t, ts)
    && p in t.walks && t.walks[p].arr == b.arr && t.walks[p].len == b.len && |t.walks[p].seen| <= b.len
    && forall i :: 0 <= i < |t.walks[p].seen| && Stands(b, ts, i) ==> t.walks[p].seen[i] == Some(Target(b)[i])
  }

  /** The cells of the clients that stand are as they were. */
  predicate OldArray(b: Buf, t: Buf, ts: seq<seq<Client>>)
    requires Bounded(b)
  {
    && Bounded(t) && b.arr < |t.heap| && |t.heap[b.arr]| == |b.heap[b.arr]| && b.hist <= t.hist <= b.hist + ts
    && (t.hist == b.hist ==> t.arr == b.arr && t.len == b.len)
    && (t.arr == b.arr ==> Fit(ts, |t.hist| - |b.hist| - 1, |b.heap[b.arr]|))
    && forall i :: 0 <= i < |b.heap[b.arr]| && Stands(b, ts, i) ==> t.heap[b.arr][i] == Some(Target(b)[i])
  }

  lemma OldArrayStart(b: Buf, t: Buf, ts: seq<seq<Client>>, target: seq<Client>)
    requires Bounded(b) && Unlocked(b) && OldArray(b, t, ts) && Enabled(t, StartRebuild(target))
    requires t.hist + [target] <= b.hist + ts
    ensures OldArray(b, Apply(t, StartRebuild(target)), ts)
  {
    var m := |t.hist| - |b.hist|;
    if t.arr == b.arr && m > 0 {
      assert Target(t) == (b.hist + ts)[|t.hist| - 1] == ts[m - 1];
      assert |ts[m - 1]| <= |b.heap[b.arr]|;
    }
  }

  lemma OldArrayAppend(b: Buf, t: Buf, ts: seq<seq<Client>>)
    requires Bounded(b) && Unlocked(b) && OldArray(b, t, ts) && Enabled(t, AppendNext)
    ensures OldArray(b, Apply(t, AppendNext), ts)
  {
    var m := |t.hist| - |b.hist|;
    assert Target(t) == (b.hist + ts)[|t.hist| - 1] == ts[m - 1];
    if t.arr == b.arr && t.len < |b.heap[b.arr]| && Stands(b, ts, t.len) {
      assert !Displaces(Target(b), ts, |b.heap[b.arr]|, t.len, m - 1);
      assert ts[m - 1][t.len] == Target(b)[t.len];
    }
  }

  lemma OverlapStep(b: Buf, t: Buf, p: nat, ts: seq<seq<Client>>, e: Event)
    requires JustPushed(b, p) && Overlapping(b, t, p, ts) && Enabled(t, e)
    requires e.StartRebuild? || e.AppendNext? || e == ReadNext(p)
    requires Apply(t, e).hist <= b.hist + ts
    ensures Overlapping(b, Apply(t, e), p, ts)
  {
    match e {
      case StartRebuild(target) => OldArrayStart(b, t, ts, target);
      case AppendNext => OldArrayAppend(b, t, ts);
      case ReadNext(_) =>
    }
  }

  lemma {:induction false} HistGrows(b: Buf, events: seq<Event>)
    requires Possible(b, events)
    ensures b.hist <= Run(b, events).hist
    decreases |events|
  {
    if events != [] {
      HistGrows(Apply(b, events[0]), events[1..]);
    }
  }

  lemma {:induction false} OverlapRun(b: Buf, t: Buf, p: nat, ts: seq<seq<Client>>, events: seq<Event>)
    requires JustPushed(b, p) && Overlapping(b, t, p, ts) && Possible(t, events)
    requires forall e :: e in events ==> e.StartRebuild? || e.AppendNext? || e == ReadNext(p)
    requires Run(t, events).hist <= b.hist + ts
    ensures Overlapping(b, Run(t, events), p, ts)
    decreases |events|
  {
    if events != [] {
      var u := Apply(t, events[0]);
      HistGrows(u, events[1..]);
      assert events[0] in events && forall e :: e in events[1..] ==> e in events;
      OverlapStep(b, t, p, ts, events[0]);
      OverlapRun(b, u, p, ts, events[1..]);
    }
  }

  lemma HarmlessSeesCommon(b: Buf, p: nat, ts: seq<seq<Client>>, events: seq<Event>)
    requires JustPushed(b, p) && Overlap(b, p, ts, events) && Harmless(Target(b), ts, |b.heap[b.arr]|)
    ensures SeesCommon(Run(b, events).walks[p].seen, Target(b), ts)
  {
    OverlapRun(b, b, p, ts, events);
    var t := Run(b, events);
    var seen, c := t.walks[p].seen, Target(b);
    forall x | x in c && InAll(x, ts)
      ensures Some(x) in seen
    {
      var i: nat :| i < |c| && c[i] == x;
      assert Stands(b, ts, i);
      assert seen[i] == Some(x);
    }
  }

  // ----- The other rebuilds

  function Repeat(e: Event, n: nat): seq<Event> {
    if n == 0 then [] else [e] + Repeat(e, n - 1)
  }

  lemma {:induction false} InRepeat(e: Event, n: nat)
    ensures forall x :: x in Repeat(e, n) ==> x == e
  {
    if n > 0 {
      InRepeat(e, n - 1);
    }
  }

  /** The events are possible and lead from `b` to `t`. */
  predicate Leads(b: Buf, events: seq<Event>, t: Buf) {
    Possible(b, events) && Run(b, events) == t
  }

  lemma LeadsFirst(b: Buf, e: Event, events: seq<Event>, t: Buf)
    requires Enabled(b, e) && Leads(Apply(b, e), events, t)
    ensures Leads(b, [e] + events, t)
  {
    assert ([e] + events)[1..] == events;
  }

  lemma {:induction false} LeadsConcat(b: Buf, events: seq<Event>, t: Buf, events': seq<Event>, u: Buf)
    requires Leads(b, events, t) && Leads(t, events', u)
    ensures Leads(b, events + events', u)
    decreases |events|
  {
    if events == [] {
      assert events + events' == events';
    } else {
      LeadsRest(b, events, t);
      LeadsConcat(Apply(b, events[0]), events[1..], t, events', u);
      LeadsFirst(b, events[0], events[1..] + events', u);
      FirstAgain(events, events');
    }
  }

  lemma LeadsRest(b: Buf, events: seq<Event>, t: Buf)
    requires events != [] && Leads(b, events, t)
    ensures Enabled(b, events[0]) && Leads(Apply(b, events[0]), events[1..], t)
  {
  }

  lemma FirstAgain(events: seq<Event>, events': seq<Event>)
    requires events != []
    ensures [events[0]] + (events[1..] + events') == events + events'
  {
  }

  /** The push has read `n` more cells as they are. */
  function Reading(b: Buf, p: nat, n: nat): Buf
    requires Bounded(b) && p in b.walks && |b.walks[p].seen| + n <= b.walks[p].len
  {
    var w := b.walks[p];
    b.(walks := b.walks[p := w.(seen := w.seen + b.heap[w.arr][|w.seen|..|w.seen| + n])])
  }

  lemma NoMoreReads(b: Buf, p: nat)
    requires Bounded(b) && p in b.walks && |b.walks[p].seen| <= b.walks[p].len
    ensures Reading(b, p, 0) == b
  {
    var w := b.walks[p];
    assert b.heap[w.arr][|w.seen|..|w.seen| + 0] == [];
    assert w.seen + [] == w.seen;
    assert w.(seen := w.seen) == w;
    assert b.walks[p := w] == b.walks;
  }

  lemma OneReadMore(b: Buf, p: nat, n: nat)
    requires Bounded(b) && p in b.walks && 0 < n && |b.walks[p].seen| + n <= b.walks[p].len
    ensures Enabled(b, ReadNext(p)) && |Apply(b, ReadNext(p)).walks[p].seen| + n - 1 <= b.walks[p].len
    ensures Reading(Apply(b, ReadNext(p)), p, n - 1) == Reading(b, p, n)
  {
    var w := b.walks[p];
    var cells := b.heap[w.arr];
    assert w.seen + [cells[|w.seen|]] + cells[|w.seen| + 1..|w.seen| + n] == w.seen + cells[|w.seen|..|w.seen| + n];
  }

  lemma {:induction false} ReadMany(b: Buf, p: nat, n: nat)
    requires Bounded(b) && p in b.walks && |b.walks[p].seen| + n <= b.walks[p].len
    ensures Leads(b, Repeat(ReadNext(p), n), Reading(b, p, n))
    decreases n
  {
    if n == 0 {
      NoMoreReads(b, p);
    } else {
      OneReadMore(b, p, n);
      ReadMany(Apply(b, ReadNext(p)), p, n - 1);
      LeadsFirst(b, ReadNext(p), Repeat(ReadNext(p), n - 1), Reading(b, p, n));
    }
  }

  /** The rebuild has written its next `n` cells in place. */
  predicate WritesOn(b: Buf, n: nat, t: Buf)
    requires Bounded(b) && b.len + n <= |Target(b)|
  {
    && Bounded(t) && t.hist == b.hist && t.walks == b.walks && t.arr == b.arr && t.len == b.len + n
    && |t.heap| == |b.heap| && |t.heap[t.arr]| == |b.heap[b.arr]|
    && forall k :: 0 <= k < |b.heap[b.arr]| ==>
         t.heap[t.arr][k] == if b.len <= k < b.len + n then Some(Target(b)[k]) else b.heap[b.arr][k]
  }

  lemma {:induction false} AppendMany(b: Buf, n: nat) returns (t: Buf)
    requires Bounded(b) && b.len + n <= |Target(b)| && b.len + n <= |b.heap[b.arr]|
    ensures Leads(b, Repeat(AppendNext, n), t) && WritesOn(b, n, t)
    decreases n
  {
    t := b;
    if n > 0 {
      var u := Apply(b, AppendNext);
      t := AppendMany(u, n - 1);
      LeadsFirst(b, AppendNext, Repeat(AppendNext, n - 1), t);
    }
  }

  lemma ReadOn(b: Buf, p: nat, n: nat, seen: Cells) returns (t: Buf)
    requires Bounded(b) && p in b.walks && b.walks[p].seen == seen && |seen| + n <= b.walks[p].len
    ensures Leads(b, Repeat(ReadNext(p), n), t)
    ensures Bounded(t) && t.heap == b.heap && t.arr == b.arr && t.len == b.len && t.hist == b.hist && p in t.walks
    ensures t.walks[p].arr == b.walks[p].arr && t.walks[p].len == b.walks[p].len
    ensures t.walks[p].seen == seen + b.heap[b.walks[p].arr][|seen|..|seen| + n]
  {
    ReadMany(b, p, n);
    t := Reading(b, p, n);
  }

  /** A rebuild that has written its first `n` cells, in place. */
  function RebuildEvents(target: seq<Client>, n: nat): seq<Event> {
    [StartRebuild(target)] + Repeat(AppendNext, n)
  }

  lemma Overwrite(b: Buf, target: seq<Client>, n: nat) returns (t: Buf)
    requires Enabled(b, StartRebuild(target)) && n <= |target| && n <= |b.heap[b.arr]|
    ensures Leads(b, RebuildEvents(target, n), t)
    ensures Bounded(t) && t.hist == b.hist + [target] && t.walks == b.walks && t.arr == b.arr && t.len == n
    ensures |t.heap| == |b.heap| && |t.heap[b.arr]| == |b.heap[b.arr]|
    ensures forall k :: 0 <= k < |b.heap[b.arr]| ==>
              t.heap[b.arr][k] == if k < n then Some(target[k]) else b.heap[b.arr][k]
  {
    t := AppendMany(Apply(b, StartRebuild(target)), n);
    LeadsFirst(b, StartRebuild(target), Repeat(AppendNext, n), t);
  }

  /** The first `k` rebuilds, each to its end. */
  function AllRebuilds(ts: seq<seq<Client>>, k: nat): seq<Event>
    requires k <= |ts|
  {
    if k == 0 then [] else AllRebuilds(ts, k - 1) + RebuildEvents(ts[k - 1], |ts[k - 1]|)
  }

  /** The client `x` is in none of the cells after index `i`. */
  predicate NoneAfter(cells: Cells, i: nat, n: nat, x: Client) {
    n <= |cells| && forall l :: i < l < n ==> cells[l] != Some(x)
  }

  /** Rebuilds that leave `x` at index `i`, or do not get that far, put it nowhere behind. */
  lemma {:induction false} RebuildAll(b: Buf, ts: seq<seq<Client>>, k: nat, i: nat, n: nat, x: Client) returns (t: Buf)
    requires Bounded(b) && Unlocked(b) && k <= |ts| && Fit(ts, k, |b.heap[b.arr]|)
    requires NoneAfter(b.heap[b.arr], i, n, x)
    requires forall m :: 0 <= m < k ==> Distinct(ts[m]) && (i < |ts[m]| ==> ts[m][i] == x)
    ensures Leads(b, AllRebuilds(ts, k), t)
    ensures Bounded(t) && Unlocked(t) && t.hist == b.hist + ts[..k] && t.walks == b.walks && t.arr == b.arr
    ensures |t.heap| == |b.heap| && |t.heap[b.arr]| == |b.heap[b.arr]| && NoneAfter(t.heap[b.arr], i, n, x)
    decreases k
  {
    t := b;
    if k > 0 {
      var u := RebuildAll(b, ts, k - 1, i, n, x);
      var target := ts[k - 1];
      t := Overwrite(u, target, |target|);
      LeadsConcat(b, AllRebuilds(ts, k - 1), u, RebuildEvents(target, |target|), t);
      assert ts[..k] == ts[..k - 1] + [target];
      forall l | i < l < n
        ensures t.heap[b.arr][l] != Some(x)
      {
        assert l < |target| ==> target[l] != target[i];
      }
    } else {
      assert b.hist + ts[..0] == b.hist;
    }
  }

  /** The push reads the cells before index `i`, the rebuilds go on until the `k`-th has written that cell, the push
      reads the rest. */
  function Squeezing(p: nat, ts: seq<seq<Client>>, k: nat, i: nat, n: nat): seq<Event>
    requires k < |ts| && i <= n
  {
    Repeat(ReadNext(p), i) + (AllRebuilds(ts, k) + (RebuildEvents(ts[k], i + 1) + Repeat(ReadNext(p), n - i)))
  }

  lemma {:induction false} RebuildsOnly(ts: seq<seq<Client>>, k: nat)
    requires k <= |ts|
    ensures forall e :: e in AllRebuilds(ts, k) ==> e.StartRebuild? || e.AppendNext?
  {
    if k > 0 {
      RebuildsOnly(ts, k - 1);
      InRepeat(AppendNext, |ts[k - 1]|);
    }
  }

  lemma SqueezingEvents(p: nat, ts: seq<seq<Client>>, k: nat, i: nat, n: nat)
    requires k < |ts| && i <= n
    ensures forall e :: e in Squeezing(p, ts, k, i, n) ==> e.StartRebuild? || e.AppendNext? || e == ReadNext(p)
  {
    InRepeat(ReadNext(p), i);
    RebuildsOnly(ts, k);
    InRepeat(AppendNext, i + 1);
    InRepeat(ReadNext(p), n - i);
  }

  /** The rebuilds of that schedule; behind the cell read next, `x` is nowhere to be found. */
  lemma Squeeze(b: Buf, ts: seq<seq<Client>>, k: nat, i: nat, n: nat, x: Client) returns (t: Buf)
    requires Bounded(b) && Unlocked(b) && k < |ts| && Fit(ts, k, |b.heap[b.arr]|) && NoneAfter(b.heap[b.arr], i, n, x)
    requires forall m :: 0 <= m < k ==> Distinct(ts[m]) && (i < |ts[m]| ==> ts[m][i] == x)
    requires i < |ts[k]| && i < n && ts[k][i] != x
    ensures Leads(b, AllRebuilds(ts, k) + RebuildEvents(ts[k], i + 1), t)
    ensures Bounded(t) && t.hist == b.hist + ts[..k + 1] && t.walks == b.walks && b.arr < |t.heap|
    ensures n <= |t.heap[b.arr]| && forall l :: i <= l < n ==> t.heap[b.arr][l] != Some(x)
  {
    var u := RebuildAll(b, ts, k, i, n, x);
    t := Overwrite(u, ts[k], i + 1);
    LeadsConcat(b, AllRebuilds(ts, k), u, RebuildEvents(ts[k], i + 1), t);
    assert ts[..k + 1] == ts[..k] + [ts[k]];
  }

  lemma LeadsThrice(b: Buf, e1: seq<Event>, b1: Buf, e2: seq<Event>, e3: seq<Event>, b3: Buf, e4: seq<Event>, t: Buf)
    requires Leads(b, e1, b1) && Leads(b1, e2 + e3, b3) && Leads(b3, e4, t)
    ensures Leads(b, e1 + (e2 + (e3 + e4)), t)
  {
    LeadsConcat(b1, e2 + e3, b3, e4, t);
    assert e2 + e3 + e4 == e2 + (e3 + e4);
    LeadsConcat(b, e1, b1, e2 + (e3 + e4), t);
  }

  /** If rebuild `k` is the first to put another client into the cell of `c[i]`, a push can be led past `c[i]`. */
  lemma SqueezeMisses(b: Buf, p: nat, ts: seq<seq<Client>>, i: nat, k: nat) returns (events: seq<Event>)
    requires JustPushed(b, p) && Distinct(Target(b)) && forall m :: 0 <= m < |ts| ==> Distinct(ts[m])
    requires Displaces(Target(b), ts, |b.heap[b.arr]|, i, k)
    requires forall m :: 0 <= m < k ==> !Displaces(Target(b), ts, |b.heap[b.arr]|, i, m)
    ensures Overlap(b, p, ts, events)
    ensures Some(Target(b)[i]) !in Run(b, events).walks[p].seen
  {
    OnlyAtItsIndex(b, ts, i, k);
    var t := SqueezeRun(b, p, ts, i, k, Target(b)[i]);
    events := Squeezing(p, ts, k, i, b.len);
    SqueezingEvents(p, ts, k, i, b.len);
    assert ts[..k + 1] <= ts;
  }

  lemma SqueezeRun(b: Buf, p: nat, ts: seq<seq<Client>>, i: nat, k: nat, x: Client) returns (t: Buf)
    requires JustPushed(b, p) && k < |ts| && Fit(ts, k, |b.heap[b.arr]|) && i < |ts[k]| && i < b.len && ts[k][i] != x
    requires NoneAfter(b.heap[b.arr], i, b.len, x) && forall l :: 0 <= l < i ==> b.heap[b.arr][l] != Some(x)
    requires forall m :: 0 <= m < k ==> Distinct(ts[m]) && (i < |ts[m]| ==> ts[m][i] == x)
    ensures Leads(b, Squeezing(p, ts, k, i, b.len), t)
    ensures t.hist == b.hist + ts[..k + 1] && p in t.walks
    ensures |t.walks[p].seen| == t.walks[p].len && Some(x) !in t.walks[p].seen
  {
    var n := b.len;
    var b1 := ReadOn(b, p, i, []);
    var b3 := Squeeze(b1, ts, k, i, n, x);
    t := ReadOn(b3, p, n - i, b1.walks[p].seen);
    LeadsThrice(b, Repeat(ReadNext(p), i), b1, AllRebuilds(ts, k), RebuildEvents(ts[k], i + 1), b3,
                Repeat(ReadNext(p), n - i), t);
    Spliced(b.heap[b.arr], b3.heap[b.arr], i, n, x);
  }

  lemma OnlyAtItsIndex(b: Buf, ts: seq<seq<Client>>, i: nat, k: nat)
    requires Bounded(b) && Unlocked(b) && Distinct(Target(b))
    requires forall l :: 0 <= l < b.len ==> b.heap[b.arr][l] == Some(Target(b)[l])
    requires Displaces(Target(b), ts, |b.heap[b.arr]|, i, k)
    requires forall m :: 0 <= m < k ==> !Displaces(Target(b), ts, |b.heap[b.arr]|, i, m)
    ensures var x := Target(b)[i];
            && NoneAfter(b.heap[b.arr], i, b.len, x)
            && (forall l :: 0 <= l < i ==> b.heap[b.arr][l] != Some(x))
            && forall m :: 0 <= m < k && i < |ts[m]| ==> ts[m][i] == x
  {
    var c, cells := Target(b), b.heap[b.arr];
    forall l | 0 <= l < b.len && l != i
      ensures cells[l] != Some(c[i])
    {
      assert cells[l] == Some(c[l]);
    }
    forall m | 0 <= m < k && i < |ts[m]|
      ensures ts[m][i] == c[i]
    {
      assert !Displaces(c, ts, |cells|, i, m);
    }
  }

  lemma Spliced(cells: Cells, cells': Cells, i: nat, n: nat, x: Client)
    requires i <= n <= |cells| && n <= |cells'|
    requires forall l :: 0 <= l < i ==> cells[l] != Some(x)
    requires forall l :: i <= l < n ==> cells'[l] != Some(x)
    ensures var seen := [] + cells[0..0 + i] + cells'[i..i + (n - i)];
            |seen| == n && Some(x) !in seen
  {
  }

  lemma {:induction false} FirstDisplacement(c: seq<Client>, ts: seq<seq<Client>>, capacity: nat, i: nat, k: nat)
    returns (first: nat)
    requires Displaces(c, ts, capacity, i, k)
    ensures first <= k && Displaces(c, ts, capacity, i, first)
    ensures forall m :: 0 <= m < first ==> !Displaces(c, ts, capacity, i, m)
  {
    if m: nat :| m < k && Displaces(c, ts, capacity, i, m) {
      first := FirstDisplacement(c, ts, capacity, i, m);
    } else {
      first := k;
    }
  }

  /** A push that any list of rebuilds overlaps reads every client that the chain it copied and all the new ones have
      in common, however appends and reads interleave, exactly when no rebuild of the list displaces one. */
  lemma OverlapHarmlessIff(b: Buf, p: nat, ts: seq<seq<Client>>)
    requires Inv(b) && Enabled(b, StartPush(p))
    requires Distinct(Target(b)) && forall k :: 0 <= k < |ts| ==> Distinct(ts[k])
    ensures var s := Apply(b, StartPush(p));
            (forall events :: Overlap(s, p, ts, events) ==> SeesCommon(Run(s, events).walks[p].seen, Target(b), ts))
            <==> Harmless(Target(b), ts, |b.heap[b.arr]|)
  {
    var s, c := Apply(b, StartPush(p)), Target(b);
    if Harmless(c, ts, |b.heap[b.arr]|) {
      forall events | Overlap(s, p, ts, events)
        ensures SeesCommon(Run(s, events).walks[p].seen, c, ts)
      {
        HarmlessSeesCommon(s, p, ts, events);
      }
    } else {
      var i: nat, k: nat :| i < |c| && k < |ts| && Displaces(c, ts, |b.heap[b.arr]|, i, k);
      var first := FirstDisplacement(c, ts, |b.heap[b.arr]|, i, k);
      var events := SqueezeMisses(s, p, ts, i, first);
      assert c[i] in c;
    }
  }

  /** One rebuild is harmless exactly when each common client keeps its index or stands beyond the cells overwritten. */
  lemma OneRebuildHarmlessIff(c: seq<Client>, t: seq<Client>, capacity: nat)
    requires Distinct(c) && Distinct(t)
    ensures Harmless(c, [t], capacity) <==>
            forall i, j :: 0 <= i < |c| && 0 <= j < |t| && c[i] == t[j] ==> i == j || i >= |t| || i >= capacity
  {
    forall i | 0 <= i < |c|
      ensures Displaces(c, [t], capacity, i, 0) <==> c[i] in t && i < |t| && i < capacity && t[i] != c[i]
    {
      assert [t][0] == t;
    }
    if Harmless(c, [t], capacity) {
      forall i, j | 0 <= i < |c| && 0 <= j < |t| && c[i] == t[j] && i < |t| && i < capacity
        ensures i == j
      {
        assert !Displaces(c, [t], capacity, i, 0);
      }
    }
  }

  /** Clients may come and go at the end of the chain, any number of times. */
  lemma EndsAreHarmless(c: seq<Client>, ts: seq<seq<Client>>, capacity: nat)
    requires forall k :: 0 <= k < |ts| ==> c <= ts[k] || ts[k] <= c
    ensures Harmless(c, ts, capacity)
  {
  }

  /** Harmless one by one is not harmless together: after grpc and http have gone, http comes back into the cell that
      NATS had when the push began. */
  lemma HarmlessRebuildsAddUp()
    ensures Harmless([G, N, H], [[N]], 4) && Harmless([N], [[N, H]], 4) && !Harmless([G, N, H], [[N], [N, H]], 4)
  {
    OneRebuildHarmlessIff([G, N, H], [N], 4);
    EndsAreHarmless([N], [[N, H]], 4);
    var ts := [[N], [N, H]];
    assert N in ts[0] && N in ts[1];
    assert Displaces([G, N, H], ts, 4, 1, 1);
  }

  /** How many clients precede NATS and http in the chain. */
  function BeforeNats(s: Slots): nat {
    |OptSeq(s.grpc)|
  }

  function BeforeHttp(s: Slots): nat {
    |OptSeq(s.grpc)| + |OptSeq(s.nats)|
  }

  predicate InPlace(s: Slots, k: nat, c: Client) {
    match c.kind
    case Grpc => k == 0 && s.grpc == Some(c)
    case Nats => k == BeforeNats(s) && s.nats == Some(c)
    case Http => k == BeforeHttp(s) && s.http == Some(c)
  }

  lemma ChainPlaces(s: Slots)
    requires Kinded(s)
    ensures Distinct(Chain(s))
    ensures s.nats.Some? ==> BeforeNats(s) < |Chain(s)| && Chain(s)[BeforeNats(s)] == s.nats.value
    ensures s.http.Some? ==> BeforeHttp(s) < |Chain(s)| && Chain(s)[BeforeHttp(s)] == s.http.value
    ensures forall k :: 0 <= k < |Chain(s)| ==> InPlace(s, k, Chain(s)[k])
  {
  }

  function Chains(nexts: seq<Slots>): (ts: seq<seq<Client>>)
    ensures |ts| == |nexts|
  {
    seq(|nexts|, k requires 0 <= k < |nexts| => Chain(nexts[k]))
  }

  predicate KeepsNats(prev: Slots, nexts: seq<Slots>) {
    prev.nats.Some? && forall k :: 0 <= k < |nexts| ==> nexts[k].nats == prev.nats
  }

  predicate KeepsHttp(prev: Slots, nexts: seq<Slots>) {
    prev.http.Some? && forall k :: 0 <= k < |nexts| ==> nexts[k].http == prev.http
  }

  /** The cell `i` that a client had is out of reach of change `k`, or the client has the same index after it. */
  predicate StaysAt(i: nat, j: nat, nexts: seq<Slots>, k: nat, capacity: nat)
    requires k < |nexts|
  {
    i == j || i >= |Chain(nexts[k])| || i >= capacity || !Fit(Chains(nexts), k, capacity)
  }

  lemma ChainMembers(s: Slots, x: Client)
    requires Kinded(s)
    ensures x in Chain(s) <==> s.grpc == Some(x) || s.nats == Some(x) || s.http == Some(x)
    ensures s.grpc.Some? ==> |Chain(s)| > 0 && Chain(s)[0] == s.grpc.value
  {
    InSeq3(s.grpc, s.nats, s.http, x);
  }

  lemma KeptInAll(prev: Slots, nexts: seq<Slots>, x: Client)
    requires Kinded(prev) && (forall k :: 0 <= k < |nexts| ==> Kinded(nexts[k])) && x in Chain(prev)
    ensures x.kind.Nats? ==> (InAll(x, Chains(nexts)) <==> KeepsNats(prev, nexts))
    ensures x.kind.Http? ==> (InAll(x, Chains(nexts)) <==> KeepsHttp(prev, nexts))
  {
    ChainMembers(prev, x);
    forall k | 0 <= k < |nexts|
      ensures x in Chains(nexts)[k] <==>
                nexts[k].grpc == Some(x) || nexts[k].nats == Some(x) || nexts[k].http == Some(x)
    {
      ChainMembers(nexts[k], x);
    }
  }

  /** Which successive changes of the slots are harmless: those that keep, as long as the chains fit into the array, the
      number of clients before a NATS and before an http client kept throughout, unless the chain is too short, or the
      array too small, for its cell to be overwritten. */
  lemma ModeChangesHarmlessIff(prev: Slots, nexts: seq<Slots>, capacity: nat)
    requires Kinded(prev) && forall k :: 0 <= k < |nexts| ==> Kinded(nexts[k])
    ensures Harmless(Chain(prev), Chains(nexts), capacity) <==>
            forall k :: 0 <= k < |nexts| ==>
              && (KeepsNats(prev, nexts) ==> StaysAt(BeforeNats(prev), BeforeNats(nexts[k]), nexts, k, capacity))
              && (KeepsHttp(prev, nexts) ==> StaysAt(BeforeHttp(prev), BeforeHttp(nexts[k]), nexts, k, capacity))
  {
    var c, ts := Chain(prev), Chains(nexts);
    ChainPlaces(prev);
    forall i, k | 0 <= i < |c| && 0 <= k < |nexts|
      ensures Displaces(c, ts, capacity, i, k) <==> DisplacedSlot(prev, nexts, k, capacity, i)
    {
      KeptInAll(prev, nexts, c[i]);
      DisplacedIn(prev, nexts, k, capacity, i);
    }
    forall k | 0 <= k < |nexts|
      ensures (exists i :: 0 <= i < |c| && DisplacedSlot(prev, nexts, k, capacity, i)) <==>
              || (KeepsNats(prev, nexts) && !StaysAt(BeforeNats(prev), BeforeNats(nexts[k]), nexts, k, capacity))
              || (KeepsHttp(prev, nexts) && !StaysAt(BeforeHttp(prev), BeforeHttp(nexts[k]), nexts, k, capacity))
    {
      if KeepsNats(prev, nexts) && !StaysAt(BeforeNats(prev), BeforeNats(nexts[k]), nexts, k, capacity) {
        assert DisplacedSlot(prev, nexts, k, capacity, BeforeNats(prev));
      }
      if KeepsHttp(prev, nexts) && !StaysAt(BeforeHttp(prev), BeforeHttp(nexts[k]), nexts, k, capacity) {
        assert DisplacedSlot(prev, nexts, k, capacity, BeforeHttp(prev));
      }
    }
  }

  predicate DisplacedSlot(prev: Slots, nexts: seq<Slots>, k: nat, capacity: nat, i: nat)
    requires k < |nexts| && i < |Chain(prev)|
  {
    match Chain(prev)[i].kind
    case Grpc => false
    case Nats => KeepsNats(prev, nexts) && !StaysAt(i, BeforeNats(nexts[k]), nexts, k, capacity)
    case Http => KeepsHttp(prev, nexts) && !StaysAt(i, BeforeHttp(nexts[k]), nexts, k, capacity)
  }

  lemma DisplacedIn(prev: Slots, nexts: seq<Slots>, k: nat, capacity: nat, i: nat)
    requires Kinded(prev) && (forall m :: 0 <= m < |nexts| ==> Kinded(nexts[m])) && k < |nexts| && i < |Chain(prev)|
    ensures Displaces(Chain(prev), Chains(nexts), capacity, i, k) <==> DisplacedSlot(prev, nexts, k, capacity, i)
  {
    var x, next := Chain(prev)[i], nexts[k];
    KeptInAll(prev, nexts, x);
    ChainPlaces(prev);
    ChainPlaces(next);
    ChainMembers(next, x);
    assert InPlace(prev, i, x);
    if i < |Chain(next)| {
      assert InPlace(next, i, Chain(next)[i]);
    }
  }

  // ----- A disturbed walk can miss a client that both chains contain

  const G := Client(0, Grpc, true)
  const N := Client(2, Nats, true)
  const H := Client(1, Http, true)

  const BUILD: seq<Event> := [StartRebuild([G, N, H]), AppendNext, AppendNext, AppendNext]
  const WALK: seq<Event> := [StartPush(7), ReadNext(7)]
  const SHRINK: seq<Event> := [StartRebuild([N, H]), AppendNext, AppendNext]
  const WALK_ON: seq<Event> := [ReadNext(7), ReadNext(7)]

  /** The arrays after building the three-client chain, the last one holding these cells. */
  function Heap(c0: Client, c1: Client, c2: Client): seq<Cells> {
    [[], [Some(G)], [Some(G), Some(N)], [Some(c0), Some(c1), Some(c2), None]]
  }

  const BUILT := Buf(Heap(G, N, H), 3, 3, [[], [G, N, H]], map[])
  const WALKING := BUILT.(walks := map[7 := Walk(3, 3, 1, [Some(G)])])
  const SHRUNK := WALKING.(heap := Heap(N, H, H), len := 2, hist := [[], [G, N, H], [N, H]])
  const TORN := SHRUNK.(walks := map[7 := Walk(3, 3, 1, [Some(G), Some(H), Some(H)])])

  predicate Step(b: Buf, e: Event, t: Buf) {
    Enabled(b, e) && Apply(b, e) == t
  }

  /** The states are linked by the events. */
  predicate Linked(events: seq<Event>, states: seq<Buf>) {
    |states| == |events| + 1 && forall i :: 0 <= i < |events| ==> Step(states[i], events[i], states[i + 1])
  }

  lemma {:induction false} LinkedRun(events: seq<Event>, states: seq<Buf>)
    requires Linked(events, states)
    ensures Possible(states[0], events) && Run(states[0], events) == states[|events|]
    decreases |events|
  {
    if events != [] {
      assert Step(states[0], events[0], states[1]);
      LinkedRun(events[1..], states[1..]);
    }
  }

  lemma LinkedConcat(events: seq<Event>, states: seq<Buf>, events': seq<Event>, states': seq<Buf>)
    requires Linked(events, states) && Linked(events', states') && states[|events|] == states'[0]
    ensures Linked(events + events', states + states'[1..])
  {
    var both := states + states'[1..];
    forall i | 0 <= i < |events + events'|
      ensures Step(both[i], (events + events')[i], both[i + 1])
    {
      if i < |events| {
        assert Step(states[i], events[i], states[i + 1]);
      } else {
        var j := i - |events|;
        assert Step(states'[j], events'[j], states'[j + 1]);
        assert both[i] == states'[j];
      }
    }
  }

  lemma RunBuild() returns (states: seq<Buf>)
    ensures Linked(BUILD, states) && states[0] == EMPTY && states[4] == BUILT
  {
    var s1 := Apply(EMPTY, BUILD[0]);
    var s2 := Apply(s1, BUILD[1]);
    assert s2.heap[1] == [Some(G)];
    var s3 := Apply(s2, BUILD[2]);
    assert s3.heap[2] == [Some(G), Some(N)];
    var s4 := Apply(s3, BUILD[3]);
    assert s4.heap[3] == [Some(G), Some(N), Some(H), None];
    assert s4.heap == BUILT.heap;
    states := [EMPTY, s1, s2, s3, s4];
  }

  lemma RunWalk() returns (states: seq<Buf>)
    ensures Linked(WALK, states) && states[0] == BUILT && states[2] == WALKING
  {
    var s1 := Apply(BUILT, WALK[0]);
    assert s1.walks[7] == Walk(3, 3, 1, []);
    var s2 := Apply(s1, WALK[1]);
    assert s2.walks[7].seen == [Some(G)];
    assert s2.walks == WALKING.walks;
    states := [BUILT, s1, s2];
  }

  lemma RunShrink() returns (states: seq<Buf>)
    ensures Linked(SHRINK, states) && states[0] == WALKING && states[3] == SHRUNK
  {
    var s1 := Apply(WALKING, SHRINK[0]);
    var s2 := Apply(s1, SHRINK[1]);
    assert s2.heap[3] == Heap(N, N, H)[3];
    var s3 := Apply(s2, SHRINK[2]);
    assert s3.heap[3] == Heap(N, H, H)[3];
    assert s3.heap == Heap(N, H, H) && s3.hist == SHRUNK.hist;
    states := [WALKING, s1, s2, s3];
  }

  lemma RunWalkOn() returns (states: seq<Buf>)
    ensures Linked(WALK_ON, states) && states[0] == SHRUNK && states[2] == TORN
  {
    var s1 := Apply(SHRUNK, WALK_ON[0]);
    assert s1.walks[7].seen == [Some(G), Some(H)];
    var s2 := Apply(s1, WALK_ON[1]);
    assert s2.walks[7].seen == [Some(G), Some(H), Some(H)];
    assert s2.walks == TORN.walks;
    states := [SHRUNK, s1, s2];
  }

  /** grpc is dropped while a push is between its first and second client: the shifted cells make it ask http
      twice and the NATS client, installed all along, never. */
  lemma TornWalkSkipsAClient()
    ensures var events := BUILD + WALK + SHRINK + WALK_ON;
            Possible(EMPTY, events) && Run(EMPTY, events) == TORN
  {
    var a := RunBuild();
    var b := RunWalk();
    var c := RunShrink();
    var d := RunWalkOn();
    LinkedConcat(BUILD, a, WALK, b);
    LinkedConcat(BUILD + WALK, a + b[1..], SHRINK, c);
    LinkedConcat(BUILD + WALK + SHRINK, a + b[1..] + c[1..], WALK_ON, d);
    LinkedRun(BUILD + WALK + SHRINK + WALK_ON, a + b[1..] + c[1..] + d[1..]);
  }
}
