/** The push client of the gateway: mode strings, client slots, the fallback chain and its buffer.
    `ReloadProtocol` and `ChainBuffer` reuse the functions declared here. */
module DeviceClient {
  import opened Common

  // ----- Mode strings

  /** The bit mask of `PushMode`, one flag per bit. */
  datatype PushMode = PushMode(http: bool, grpc: bool, nats: bool) {
    /** The number the program stores: http is bit 1, grpc bit 2, nats bit 4. */
    function Mask(): int {
      (if http then 1 else 0) + (if grpc then 2 else 0) + (if nats then 4 else 0)
    }
  }

  const HTTP_ONLY := PushMode(true, false, false)

  /** Unicode white space, as trimmed from each part of a mode string. */
  predicate IsSpace(c: char) {
    var n := c as int;
    9 <= n <= 13 || n in {0x20, 0x85, 0xA0, 0x1680, 0x2028, 0x2029, 0x202f, 0x205f, 0x3000} || 0x2000 <= n <= 0x200a
  }

  function TrimLeft(s: string): string {
    if s != [] && IsSpace(s[0]) then TrimLeft(s[1..]) else s
  }

  function TrimRight(s: string): string {
    if s != [] && IsSpace(s[|s| - 1]) then TrimRight(s[..|s| - 1]) else s
  }

  function TrimSpace(s: string): string {
    TrimRight(TrimLeft(s))
  }

  predicate AllSpace(s: string) {
    forall c :: c in s ==> IsSpace(c)
  }

  predicate Trimmed(s: string) {
    s == [] || (!IsSpace(s[0]) && !IsSpace(s[|s| - 1]))
  }

  /** Among the ASCII characters tab, the line breaks and the blank are white space. */
  lemma AsciiSpaces(c: char)
    requires c as int < 0x80
    ensures IsSpace(c) <==> c as int in {9, 10, 11, 12, 13, 32}
  {
  }

  lemma {:induction false} TrimLeftPadded(pad: string, s: string)
    requires AllSpace(pad)
    ensures TrimLeft(pad + s) == TrimLeft(s)
  {
    if pad != [] {
      assert pad[0] in pad && (pad + s)[1..] == pad[1..] + s;
      TrimLeftPadded(pad[1..], s);
    } else {
      assert pad + s == s;
    }
  }

  lemma {:induction false} TrimRightPadded(s: string, pad: string)
    requires AllSpace(pad)
    ensures TrimRight(s + pad) == TrimRight(s)
  {
    if pad != [] {
      var n := |pad| - 1;
      assert pad[n] in pad && (s + pad)[..|s + pad| - 1] == s + pad[..n];
      TrimRightPadded(s, pad[..n]);
    } else {
      assert s + pad == s;
    }
  }

  /** Trimming removes the white space around a name and nothing of the name. */
  lemma TrimPadded(pad: string, name: string, pad': string)
    requires AllSpace(pad) && AllSpace(pad') && Trimmed(name)
    ensures TrimSpace(pad + name + pad') == name
  {
    assert pad + name + pad' == pad + (name + pad');
    TrimLeftPadded(pad, name + pad');
    if name == [] {
      assert name + pad' == pad' + [];
      TrimLeftPadded(pad', []);
    } else {
      assert TrimLeft(name + pad') == name + pad';
      TrimRightPadded(name, pad');
    }
  }

  function Split(s: string, sep: char): (parts: seq<string>)
    ensures |parts| >= 1
  {
    if s == [] then [[]]
    else
      var rest := Split(s[1..], sep);
      if s[0] == sep then [[]] + rest else [[s[0]] + rest[0]] + rest[1..]
  }

  function Join(parts: seq<string>, sep: char): string
    requires |parts| >= 1
  {
    if |parts| == 1 then parts[0] else parts[0] + [sep] + Join(parts[1..], sep)
  }

  /** Splitting undoes joining when no part contains the separator. */
  lemma {:induction false} SplitJoin(parts: seq<string>, sep: char)
    requires |parts| >= 1
    requires forall i :: 0 <= i < |parts| ==> sep !in parts[i]
    ensures Split(Join(parts, sep), sep) == parts
    decreases |parts|, |parts[0]|
  {
    var s := Join(parts, sep);
    if parts[0] == [] {
      if |parts| > 1 {
        SplitJoin(parts[1..], sep);
        assert s[1..] == Join(parts[1..], sep);
        assert parts == [parts[0]] + parts[1..];
      } else {
        assert parts == [[]];
      }
    } else {
      var shorter := [parts[0][1..]] + parts[1..];
      SplitJoin(shorter, sep);
      assert s[0] == parts[0][0];
      assert shorter[1..] == parts[1..];
      assert s[1..] == Join(shorter, sep);
      assert s[0] in parts[0];
      assert [s[0]] + shorter[0] == parts[0];
      assert parts == [[s[0]] + shorter[0]] + shorter[1..];
    }
  }

  /** One of the comma-separated parts of `model` is `name`, white space around it ignored. */
  predicate Requests(model: string, name: string) {
    exists i :: 0 <= i < |Split(model, ',')| && TrimSpace(Split(model, ',')[i]) == name
  }

  /** `mode` has the bits `model` requests, and http when it requests none. */
  predicate Named(model: string, mode: PushMode) {
    && (mode.grpc <==> Requests(model, "grpc"))
    && (mode.nats <==> Requests(model, "nats"))
    && (mode.http <==> Requests(model, "http") || !(Requests(model, "grpc") || Requests(model, "nats")))
  }

  method ParseMode(model: string) returns (mode: PushMode)
    ensures Named(model, mode)
    ensures 1 <= mode.Mask() <= 7
  {
    var parts := Split(model, ',');
    if model == "" {
      assert TrimSpace(parts[0]) == "";
      return HTTP_ONLY;
    }
    mode := PushMode(false, false, false);
    for k := 0 to |parts|
      invariant mode.http <==> exists i :: 0 <= i < k && TrimSpace(parts[i]) == "http"
      invariant mode.grpc <==> exists i :: 0 <= i < k && TrimSpace(parts[i]) == "grpc"
      invariant mode.nats <==> exists i :: 0 <= i < k && TrimSpace(parts[i]) == "nats"
    {
      var m := TrimSpace(parts[k]);
      if m == "http" {
        mode := mode.(http := true);
      } else if m == "grpc" {
        mode := mode.(grpc := true);
      } else if m == "nats" {
        mode := mode.(nats := true);
      }
    }
    if mode.Mask() == 0 {
      return HTTP_ONLY;
    }
  }

  /** The names of the modes in a mask, in the order of the fallback chain. */
  function ModeNames(mode: PushMode): seq<string> {
    (if mode.grpc then ["grpc"] else []) + (if mode.nats then ["nats"] else []) + (if mode.http then ["http"] else [])
  }

  lemma RequestsJoined(parts: seq<string>, name: string)
    requires |parts| >= 1
    requires forall i :: 0 <= i < |parts| ==> ',' !in parts[i] && TrimSpace(parts[i]) == parts[i]
    ensures Requests(Join(parts, ','), name) <==> name in parts
  {
    SplitJoin(parts, ',');
  }

  function Padded(pads: seq<string>, names: seq<string>, pads': seq<string>): seq<string>
    requires |pads| == |names| == |pads'|
  {
    seq(|names|, i requires 0 <= i < |names| => pads[i] + names[i] + pads'[i])
  }

  /** White space around the commas does not change what is requested. */
  lemma PaddedNamesRequested(pads: seq<string>, names: seq<string>, pads': seq<string>, name: string)
    requires |pads| == |names| == |pads'| >= 1
    requires forall i :: 0 <= i < |names| ==>
               AllSpace(pads[i]) && AllSpace(pads'[i]) && Trimmed(names[i]) && ',' !in names[i]
    ensures Requests(Join(Padded(pads, names, pads'), ','), name) <==> name in names
  {
    var parts := Padded(pads, names, pads');
    AsciiSpaces(',');
    forall i | 0 <= i < |names|
      ensures ',' !in parts[i] && TrimSpace(parts[i]) == names[i]
    {
      TrimPadded(pads[i], names[i], pads'[i]);
    }
    SplitJoin(parts, ',');
  }

  lemma NamedByRequests(model: string, names: seq<string>, mode: PushMode)
    requires forall name :: name in ["grpc", "nats", "http"] ==> (Requests(model, name) <==> name in names)
    ensures Named(model, mode) <==>
            && mode.grpc == ("grpc" in names) && mode.nats == ("nats" in names)
            && mode.http == ("http" in names || ("grpc" !in names && "nats" !in names))
  {
    assert "grpc" in ["grpc", "nats", "http"] && "nats" in ["grpc", "nats", "http"]
      && "http" in ["grpc", "nats", "http"];
  }

  /** For example. */
  lemma GrpcAndNats(mode: PushMode)
    ensures Named("grpc, nats", mode) <==> mode == PushMode(false, true, true)
  {
    var pads, names, pads' := ["", " "], ["grpc", "nats"], ["", ""];
    AsciiSpaces(' ');
    LettersAreNotSpaces("grpc");
    LettersAreNotSpaces("nats");
    GrpcCommaNats();
    forall name | name in ["grpc", "nats", "http"]
      ensures Requests("grpc, nats", name) <==> name in names
    {
      PaddedNamesRequested(pads, names, pads', name);
    }
    NamedByRequests("grpc, nats", names, mode);
  }

  lemma GrpcCommaNats()
    ensures Join(Padded(["", " "], ["grpc", "nats"], ["", ""]), ',') == "grpc, nats"
  {
    assert "" + "grpc" + "" == "grpc" && " " + "nats" + "" == " nats";
    assert Padded(["", " "], ["grpc", "nats"], ["", ""]) == ["grpc", " nats"];
    assert ["grpc", " nats"][1..] == [" nats"];
    assert Join([" nats"], ',') == " nats";
    assert "grpc" + [','] + " nats" == "grpc, nats";
  }

  lemma LettersAreNotSpaces(name: string)
    requires forall c :: c in name ==> 'a' <= c <= 'z'
    ensures Trimmed(name) && ',' !in name
  {
    if name != [] {
      assert name[0] in name && name[|name| - 1] in name;
      AsciiSpaces(name[0]);
      AsciiSpaces(name[|name| - 1]);
    }
  }

  /** http is bit 1, grpc bit 2, nats bit 4, and a mask determines its modes. */
  lemma MaskBits(mode: PushMode, mode': PushMode)
    ensures PushMode(true, false, false).Mask() == 1
    ensures PushMode(false, true, false).Mask() == 2
    ensures PushMode(false, false, true).Mask() == 4
    ensures mode.Mask() == mode'.Mask() <==> mode == mode'
  {
  }

  lemma NamesAreTrimmed()
    ensures forall name :: name in ["grpc", "nats", "http"] ==> TrimSpace(name) == name && ',' !in name
  {
    assert TrimSpace("grpc") == "grpc";
    assert TrimSpace("nats") == "nats";
    assert TrimSpace("http") == "http";
  }

  /** Every non-empty mask has a mode string that yields it, and no other mask. */
  lemma EveryModeHasAName(mode: PushMode)
    requires mode.Mask() != 0
    ensures forall mode' :: Named(Join(ModeNames(mode), ','), mode') <==> mode' == mode
  {
    var names := ModeNames(mode);
    NamesAreTrimmed();
    RequestsJoined(names, "grpc");
    RequestsJoined(names, "nats");
    RequestsJoined(names, "http");
  }

  // ----- Clients and slots

  datatype Kind = Grpc | Http | Nats

  /** A client object. `live` is false for the nil pointer that a failed creation during a reload
      stores in the interface variable: not nil as an interface, but without a connection. */
  datatype Client = Client(id: nat, kind: Kind, live: bool)

  datatype Slots = Slots(grpc: Option<Client>, http: Option<Client>, nats: Option<Client>)

  const NO_SLOTS := Slots(None, None, None)

  /** The client is installed in one of the slots. */
  predicate In(c: Client, s: Slots) {
    s.grpc == Some(c) || s.http == Some(c) || s.nats == Some(c)
  }

  function OptSeq(c: Option<Client>): seq<Client> {
    if c.Some? then [c.value] else []
  }

  /** The clients among `a`, `b`, `c`, in that order. */
  function Seq3(a: Option<Client>, b: Option<Client>, c: Option<Client>): seq<Client> {
    OptSeq(a) + OptSeq(b) + OptSeq(c)
  }

  lemma InSeq3(a: Option<Client>, b: Option<Client>, c: Option<Client>, x: Client)
    ensures x in Seq3(a, b, c) <==> a == Some(x) || b == Some(x) || c == Some(x)
  {
    assert x in Seq3(a, b, c) <==> x in OptSeq(a) || x in OptSeq(b) || x in OptSeq(c);
  }

  /** The priority order: grpc, then nats, then http. */
  function Chain(s: Slots): seq<Client> {
    Seq3(s.grpc, s.nats, s.http)
  }

  /** What the constructor creates; a failed or unconfigured NATS client leaves its slot empty. */
  function InitSlots(mode: PushMode, hasMq: bool, natsOk: bool, nextId: nat): Slots {
    Slots(if mode.grpc then Some(Client(nextId, Grpc, true)) else None,
          if mode.http then Some(Client(nextId + 1, Http, true)) else None,
          if mode.nats && hasMq && natsOk then Some(Client(nextId + 2, Nats, true)) else None)
  }

  /** The constructor makes exactly the clients asked for; NATS only if it is configured and its creation works. */
  lemma InitSlotsIff(mode: PushMode, hasMq: bool, natsOk: bool, nextId: nat)
    ensures var s := InitSlots(mode, hasMq, natsOk, nextId);
            && (s.grpc.Some? <==> mode.grpc) && (s.http.Some? <==> mode.http)
            && (s.nats.Some? <==> mode.nats && hasMq && natsOk)
            && Kinded(s) && forall c :: In(c, s) ==> c.live && nextId <= c.id < nextId + 3
  {
  }

  /** What a reload creates outside the lock: the missing clients only. A failed NATS creation still
      yields a (dead) client. */
  function Fresh(newMode: PushMode, prev: Slots, hasMq: bool, natsOk: bool, nextId: nat): Slots {
    Slots(if newMode.grpc && prev.grpc.None? then Some(Client(nextId, Grpc, true)) else None,
          if newMode.http && prev.http.None? then Some(Client(nextId + 1, Http, true)) else None,
          if newMode.nats && prev.nats.None? && hasMq then Some(Client(nextId + 2, Nats, natsOk)) else None)
  }

  /** Exactly the clients that are missing are made, each new and of its kind, and live unless it is a NATS client
      whose creation failed. */
  lemma FreshIff(newMode: PushMode, prev: Slots, hasMq: bool, natsOk: bool, nextId: nat)
    ensures var made := Fresh(newMode, prev, hasMq, natsOk, nextId);
            && (made.grpc.Some? <==> newMode.grpc && prev.grpc.None?)
            && (made.http.Some? <==> newMode.http && prev.http.None?)
            && (made.nats.Some? <==> newMode.nats && prev.nats.None? && hasMq)
            && Kinded(made)
            && forall c :: In(c, made) ==> nextId <= c.id < nextId + 3 && (c.live <==> natsOk || !c.kind.Nats?)
  {
  }

  function Pick(wanted: bool, prev: Option<Client>, made: Option<Client>): Option<Client> {
    if wanted && prev.Some? then prev else made
  }

  /** The slots a successful commit installs. */
  function Merged(newMode: PushMode, prev: Slots, made: Slots): Slots {
    Slots(Pick(newMode.grpc, prev.grpc, made.grpc),
          Pick(newMode.http, prev.http, made.http),
          Pick(newMode.nats, prev.nats, made.nats))
  }

  function When(c: bool, client: Option<Client>): Option<Client> {
    if c then client else None
  }

  /** The old clients a successful reload closes afterwards, in closing order. */
  function Dropped(oldMode: PushMode, newMode: PushMode, prev: Slots): seq<Client> {
    Seq3(When(oldMode.grpc && !newMode.grpc, prev.grpc),
         When(oldMode.http && !newMode.http, prev.http),
         When(oldMode.nats && !newMode.nats, prev.nats))
  }

  /** The new clients a defeated reload discards, in closing order. */
  function Discarded(made: Slots): seq<Client> {
    Seq3(made.grpc, made.http, made.nats)
  }

  /** Each slot holds a client of its kind. */
  predicate Kinded(s: Slots) {
    && (s.grpc.Some? ==> s.grpc.value.kind.Grpc?)
    && (s.nats.Some? ==> s.nats.value.kind.Nats?)
    && (s.http.Some? ==> s.http.value.kind.Http?)
  }

  /** grpc and http slots are filled exactly when their bits are set; the nats slot only if its bit is. */
  predicate Shaped(mode: PushMode, s: Slots) {
    && (s.grpc.Some? <==> mode.grpc)
    && (s.http.Some? <==> mode.http)
    && (s.nats.Some? ==> mode.nats)
    && Kinded(s)
  }

  /** The order in which a reload closes: grpc, http, nats. */
  predicate ClosesBefore(a: Kind, b: Kind) {
    (a.Grpc? && !b.Grpc?) || (a.Http? && b.Nats?)
  }

  predicate InClosingOrder(todo: seq<Client>) {
    forall i, j :: 0 <= i < j < |todo| ==> ClosesBefore(todo[i].kind, todo[j].kind)
  }

  lemma ClosingOrder(oldMode: PushMode, newMode: PushMode, s: Slots)
    requires Kinded(s)
    ensures InClosingOrder(Dropped(oldMode, newMode, s)) && InClosingOrder(Discarded(s))
  {
    InOrder3(s.grpc, s.http, s.nats);
    InOrder3(When(oldMode.grpc && !newMode.grpc, s.grpc), When(oldMode.http && !newMode.http, s.http),
             When(oldMode.nats && !newMode.nats, s.nats));
  }

  lemma InOrder3(a: Option<Client>, b: Option<Client>, c: Option<Client>)
    requires a.Some? ==> a.value.kind.Grpc?
    requires b.Some? ==> b.value.kind.Http?
    requires c.Some? ==> c.value.kind.Nats?
    ensures InClosingOrder(Seq3(a, b, c))
  {
  }

  /** All clients in the slots were created before `nextId`. */
  ghost predicate Minted(s: Slots, nextId: nat) {
    forall c :: In(c, s) ==> c.id < nextId
  }

  predicate KeepsWanted(newMode: PushMode, prev: Slots, next: Slots) {
    && (newMode.grpc && prev.grpc.Some? ==> next.grpc == prev.grpc)
    && (newMode.http && prev.http.Some? ==> next.http == prev.http)
    && (newMode.nats && prev.nats.Some? ==> next.nats == prev.nats)
  }

  /** One reload step on values: shape, retention, and "released = uninstalled". */
  lemma QuietReload(mode: PushMode, newMode: PushMode, prev: Slots, made: Slots, hasMq: bool, natsOk: bool, nextId: nat)
    requires Shaped(mode, prev) && Minted(prev, nextId)
    requires made == Fresh(newMode, prev, hasMq, natsOk, nextId)
    ensures var next := Merged(newMode, prev, made);
            && Shaped(newMode, next) && Minted(next, nextId + 3)
            && KeepsWanted(newMode, prev, next)
            && (next.nats.Some? <==> newMode.nats && (prev.nats.Some? || hasMq))
            && (forall c :: In(c, made) ==> In(c, next))
            && (forall c :: In(c, next) && !In(c, prev) ==> c.id >= nextId && (c.live <==> natsOk || !c.kind.Nats?))
            && forall c :: c in Dropped(mode, newMode, prev) <==> In(c, prev) && !In(c, next)
  {
    FreshIff(newMode, prev, hasMq, natsOk, nextId);
    var next := Merged(newMode, prev, made);
    forall c
      ensures c in Dropped(mode, newMode, prev) <==> In(c, prev) && !In(c, next)
    {
      InDropped(mode, newMode, prev, c);
    }
  }

  lemma InDropped(oldMode: PushMode, newMode: PushMode, prev: Slots, c: Client)
    ensures c in Dropped(oldMode, newMode, prev) <==>
      || (oldMode.grpc && !newMode.grpc && prev.grpc == Some(c))
      || (oldMode.http && !newMode.http && prev.http == Some(c))
      || (oldMode.nats && !newMode.nats && prev.nats == Some(c))
  {
    InSeq3(When(oldMode.grpc && !newMode.grpc, prev.grpc), When(oldMode.http && !newMode.http, prev.http),
           When(oldMode.nats && !newMode.nats, prev.nats), c);
  }

  // ----- The fallback walk

  datatype Answer = Reply(resp: string, respond: bool) | Error(err: string) | Panic

  datatype PushOutcome =
    | NoClientAvailable
    | Replied(resp: string, respond: bool)
    | AllFailed(lastErr: string)
    | Panicked

  /** A call on a dead client dereferences a nil pointer. */
  function Ask(answer: Client -> Answer, c: Client): Answer {
    if c.live then answer(c) else Panic
  }

  function Fallback(chain: seq<Client>, answer: Client -> Answer, soFar: PushOutcome): PushOutcome {
    if chain == [] then soFar
    else match Ask(answer, chain[0])
      case Reply(resp, respond) => Replied(resp, respond)
      case Error(err) => Fallback(chain[1..], answer, AllFailed(err))
      case Panic => Panicked
  }

  /** The first `k` clients are live and answer with an error. */
  predicate AllFail(chain: seq<Client>, answer: Client -> Answer, k: nat)
    requires k <= |chain|
  {
    forall j :: 0 <= j < k ==> chain[j].live && answer(chain[j]).Error?
  }

  /** What a walk of the chain comes to, in terms of the answers of its clients alone: if all before one fail, that
      client's reply is the result, and a dead one panics; if all fail, the last error is; and only a client's reply
      is ever returned. */
  ghost predicate WalkLaw(chain: seq<Client>, answer: Client -> Answer, soFar: PushOutcome, r: PushOutcome) {
    && (forall k :: 0 <= k < |chain| && AllFail(chain, answer, k) && chain[k].live && answer(chain[k]).Reply? ==>
          r == Replied(answer(chain[k]).resp, answer(chain[k]).respond))
    && (forall k :: 0 <= k < |chain| && AllFail(chain, answer, k) && (!chain[k].live || answer(chain[k]).Panic?) ==>
          r == Panicked)
    && (AllFail(chain, answer, |chain|) ==>
          r == if chain == [] then soFar else AllFailed(answer(chain[|chain| - 1]).err))
    && (r.Replied? && r != soFar ==>
          exists k :: 0 <= k < |chain| && AllFail(chain, answer, k) && chain[k].live &&
                      answer(chain[k]) == Reply(r.resp, r.respond))
  }

  /** The walk stops at the first client that does not fail, and reports the last error if all do. */
  lemma {:induction false} FallbackIsFirstSuccessOrLastError(chain: seq<Client>, answer: Client -> Answer,
                                                             soFar: PushOutcome)
    ensures WalkLaw(chain, answer, soFar, Fallback(chain, answer, soFar))
  {
    if chain != [] {
      var c, rest, r := chain[0], chain[1..], Fallback(chain, answer, soFar);
      if c.live && answer(c).Error? {
        var next := AllFailed(answer(c).err);
        FallbackIsFirstSuccessOrLastError(rest, answer, next);
        FailsLater(chain, answer);
      } else {
        assert forall k :: 0 <= k < |chain| && AllFail(chain, answer, k) ==> k == 0;
        assert AllFail(chain, answer, 0);
      }
    }
  }

  lemma FailsLater(chain: seq<Client>, answer: Client -> Answer)
    requires chain != [] && chain[0].live && answer(chain[0]).Error?
    ensures forall k :: 0 < k <= |chain| ==> (AllFail(chain, answer, k) <==> AllFail(chain[1..], answer, k - 1))
  {
    forall k | 0 < k <= |chain| && AllFail(chain[1..], answer, k - 1)
      ensures AllFail(chain, answer, k)
    {
      assert forall j :: 0 < j < k ==> chain[j] == chain[1..][j - 1];
    }
  }

  /** A dead NATS client left by a failed reload blocks the walk: http is never asked, whatever it would
      have answered, once grpc has failed or is absent. */
  lemma DeadClientBlocksFallback(s: Slots, answer: Client -> Answer)
    requires s.nats.Some? && !s.nats.value.live
    ensures s.grpc.None? || (s.grpc.value.live && answer(s.grpc.value).Error?) ==>
              Fallback(Chain(s), answer, NoClientAvailable) == Panicked
  {
    var chain := Chain(s);
    if s.grpc.None? {
      assert chain[0] == s.nats.value;
    } else if s.grpc.value.live && answer(s.grpc.value).Error? {
      assert chain[0] == s.grpc.value && chain[1..][0] == s.nats.value;
    }
  }

  // ----- The chain buffer

  /** Capacity after growing a full buffer (interface values, fewer than 256). */
  function Grown(capacity: nat): nat {
    if capacity == 0 then 1 else 2 * capacity
  }

  type Cells = seq<Option<Client>>

  /** One append to a slice of length `n` over `cells`: in place while capacity lasts, else into a copy. */
  function AppendCells(cells: Cells, n: nat, c: Client): (r: Cells)
    requires n <= |cells|
    ensures n < |r| && r[n] == Some(c) && r[..n] == cells[..n]
    ensures n < |cells| ==> |r| == |cells| && r[n + 1..] == cells[n + 1..]
  {
    if n < |cells| then cells[n := Some(c)]
    else cells + [Some(c)] + seq(Grown(|cells|) - |cells| - 1, _ => None)
  }

  lemma CopiedAppend(cells: Cells, c: Client, bigger: Cells)
    requires |bigger| == Grown(|cells|) && bigger[..|cells|] == cells && bigger[|cells|] == Some(c)
    requires forall j :: |cells| < j < |bigger| ==> bigger[j] == None
    ensures bigger == AppendCells(cells, |cells|, c)
  {
  }

  function Filled(chain: seq<Client>): Cells {
    seq(|chain|, i requires 0 <= i < |chain| => Some(chain[i]))
  }

  lemma FilledSeq3(a: Option<Client>, b: Option<Client>, c: Option<Client>)
    ensures Filled(Seq3(a, b, c)) == Filled(OptSeq(a)) + Filled(OptSeq(b)) + Filled(OptSeq(c))
    ensures forall i :: 0 <= i < |Seq3(a, b, c)| ==>
              Some(Seq3(a, b, c)[i]) == if i < |OptSeq(a)| then a else if i < |OptSeq(a)| + |OptSeq(b)| then b else c
  {
  }

  datatype Snap = Snap(newMode: PushMode, oldMode: PushMode, prev: Slots)

  class DeviceCli {
    var mode: PushMode
    var http: Option<Client>
    var grpc: Option<Client>
    var nats: Option<Client>
    var buf: array<Option<Client>>   // backing array of the chain
    var used: nat                    // length of the chain
    const hasMq: bool
    var nextId: nat                  // clients created so far, by anyone
    var released: seq<Client>        // clients handed to closeIfPossible, in order

    ghost predicate Valid()
      reads this, buf
    {
      used <= buf.Length && buf[..used] == Filled(Chain(SlotsNow()))
    }

    function SlotsNow(): Slots
      reads this
    {
      Slots(grpc, http, nats)
    }

    constructor (model: string, hasMq: bool, natsOk: bool)
      ensures Valid() && fresh(buf)
      ensures Named(model, mode) && this.hasMq == hasMq && nextId == 3 && released == []
      ensures SlotsNow() == InitSlots(mode, hasMq, natsOk, 0) && Shaped(mode, SlotsNow())
      ensures nats.Some? <==> mode.nats && hasMq && natsOk
      ensures forall c :: In(c, SlotsNow()) ==> c.live && c.id < nextId
    {
      this.hasMq := hasMq;
      mode := HTTP_ONLY;
      grpc := None;
      http := None;
      nats := None;
      buf := new Option<Client>[0];
      used := 0;
      nextId := 3;
      released := [];
      new;
      mode := ParseMode(model);
      if mode.grpc {
        grpc := Some(Client(0, Grpc, true));
      }
      if mode.http {
        http := Some(Client(1, Http, true));
      }
      if mode.nats && hasMq && natsOk {
        nats := Some(Client(2, Nats, true));
      }
      assert SlotsNow() == InitSlots(mode, hasMq, natsOk, 0);
      InitSlotsIff(mode, hasMq, natsOk, 0);
      RebuildChain();
    }

    method Append(c: Client)
      requires used <= buf.Length
      modifies this`buf, this`used, buf
      ensures used == old(used) + 1 <= buf.Length
      ensures buf[..] == AppendCells(old(buf[..]), old(used), c)
      ensures buf == old(buf) || fresh(buf)
      ensures used <= old(buf.Length) ==> buf == old(buf)
      ensures forall i :: 0 <= i < old(buf.Length) ==> old(buf)[i] == if i == old(used) then Some(c) else old(buf[i])
    {
      if used == buf.Length {
        var bigger := new Option<Client>[Grown(buf.Length)](_ => None);
        for i := 0 to used
          modifies bigger
          invariant bigger[..i] == buf[..i]
          invariant forall j :: i <= j < bigger.Length ==> bigger[j] == None
        {
          bigger[i] := buf[i];
        }
        bigger[used] := Some(c);
        assert buf[..used] == buf[..];
        CopiedAppend(buf[..], c, bigger[..]);
        buf := bigger;
      } else {
        buf[used] := Some(c);
      }
      used := used + 1;
    }

    /** `if slot != nil { append }`. */
    method AppendSlot(slot: Option<Client>)
      requires used <= buf.Length
      modifies this`buf, this`used, buf
      ensures used == old(used) + |OptSeq(slot)| <= buf.Length
      ensures buf[..used] == old(buf[..used]) + Filled(OptSeq(slot))
      ensures buf == old(buf) || fresh(buf)
      ensures used <= old(buf.Length) ==> buf == old(buf)
      ensures forall i :: 0 <= i < old(buf.Length) ==>
                old(buf)[i] == if old(used) <= i < used then slot else old(buf[i])
    {
      if slot.Some? {
        Append(slot.value);
        assert buf[..used] == old(buf[..used]) + [slot];
      }
    }

    /** Rewrites the chain over the old buffer. Whatever its capacity, the old array ends with the new
        chain written over its first cells and the other cells as they were. */
    method RebuildChain()
      requires used <= buf.Length
      modifies this`buf, this`used, buf
      ensures Valid()
      ensures buf == old(buf) || fresh(buf)
      ensures |Chain(SlotsNow())| <= old(buf.Length) ==> buf == old(buf)
      ensures forall i :: 0 <= i < old(buf.Length) ==>
                old(buf)[i] == if i < |Chain(SlotsNow())| then Some(Chain(SlotsNow())[i]) else old(buf[i])
    {
      used := 0;
      AppendSlot(grpc);
      AppendSlot(nats);
      AppendSlot(http);
      FilledSeq3(grpc, nats, http);
    }

    /** Under the read lock: nothing to do when the mode is already the requested one. */
    method Snapshot(newMode: PushMode) returns (snap: Option<Snap>)
      ensures newMode == mode ==> snap == None
      ensures newMode != mode ==> snap == Some(Snap(newMode, mode, SlotsNow()))
    {
      if newMode == mode {
        return None;
      }
      return Some(Snap(newMode, mode, Slots(grpc, http, nats)));
    }

    /** Outside the lock. */
    method Build(snap: Snap, natsOk: bool) returns (made: Slots)
      modifies this`nextId
      ensures made == Fresh(snap.newMode, snap.prev, hasMq, natsOk, old(nextId))
      ensures made.grpc.Some? <==> snap.newMode.grpc && snap.prev.grpc.None?
      ensures made.http.Some? <==> snap.newMode.http && snap.prev.http.None?
      ensures made.nats.Some? <==> snap.newMode.nats && snap.prev.nats.None? && hasMq
      ensures forall c :: In(c, made) ==> old(nextId) <= c.id < nextId && (c.live <==> natsOk || !c.kind.Nats?)
      ensures nextId == old(nextId) + 3
    {
      made := NO_SLOTS;
      if snap.newMode.grpc && snap.prev.grpc.None? {
        made := made.(grpc := Some(Client(nextId, Grpc, true)));
      }
      if snap.newMode.http && snap.prev.http.None? {
        made := made.(http := Some(Client(nextId + 1, Http, true)));
      }
      if snap.newMode.nats && snap.prev.nats.None? && hasMq {
        made := made.(nats := Some(Client(nextId + 2, Nats, natsOk)));
      }
      nextId := nextId + 3;
    }

    /** Under the write lock; `todo` lists what must be closed after unlocking. The mode value alone
        decides whether the snapshot is still current. */
    method Commit(snap: Snap, made: Slots) returns (won: bool, todo: seq<Client>)
      requires Valid()
      modifies this`mode, this`grpc, this`http, this`nats, this`buf, this`used, buf
      ensures Valid()
      ensures won <==> old(mode) == snap.oldMode
      ensures won ==> mode == snap.newMode && SlotsNow() == Merged(snap.newMode, snap.prev, made)
      ensures won ==> todo == Dropped(snap.oldMode, snap.newMode, snap.prev)
      ensures !won ==> mode == old(mode) && SlotsNow() == old(SlotsNow()) && buf == old(buf) && buf[..] == old(buf[..])
      ensures !won ==> used == old(used) && todo == Discarded(made)
    {
      if mode != snap.oldMode {
        return false, Discarded(made);
      }
      if snap.newMode.grpc && snap.prev.grpc.Some? {
        grpc := snap.prev.grpc;
      } else if made.grpc.Some? {
        grpc := made.grpc;
      } else {
        grpc := None;
      }
      if snap.newMode.http && snap.prev.http.Some? {
        http := snap.prev.http;
      } else if made.http.Some? {
        http := made.http;
      } else {
        http := None;
      }
      if snap.newMode.nats && snap.prev.nats.Some? {
        nats := snap.prev.nats;
      } else if made.nats.Some? {
        nats := made.nats;
      } else {
        nats := None;
      }
      mode := snap.newMode;
      RebuildChain();
      return true, Dropped(snap.oldMode, snap.newMode, snap.prev);
    }

    method CloseEach(todo: seq<Client>)
      modifies this`released
      ensures released == old(released) + todo
    {
      for i := 0 to |todo|
        invariant released == old(released) + todo[..i]
      {
        released := released + [todo[i]];
      }
      assert todo[..|todo|] == todo;
    }

    /** A reload that nobody interferes with: it always installs the mode the string asks for, keeps the shape,
        keeps every client both modes want, and releases exactly the clients it uninstalled. */
    method Reload(model: string, natsOk: bool)
      requires Valid() && Shaped(mode, SlotsNow()) && Minted(SlotsNow(), nextId)
      modifies this, buf
      ensures Valid() && Named(model, mode) && Shaped(mode, SlotsNow()) && Minted(SlotsNow(), nextId)
      ensures mode == old(mode) ==> SlotsNow() == old(SlotsNow())
      ensures KeepsWanted(mode, old(SlotsNow()), SlotsNow())
      ensures mode != old(mode) ==> (nats.Some? <==> mode.nats && (old(nats).Some? || hasMq))
      ensures forall c :: In(c, SlotsNow()) && !In(c, old(SlotsNow())) ==>
                c.id >= old(nextId) && (c.live <==> natsOk || !c.kind.Nats?)
      ensures old(released) <= released && InClosingOrder(released[|old(released)|..])
      ensures forall c :: c in released[|old(released)|..] <==> In(c, old(SlotsNow())) && !In(c, SlotsNow())
    {
      var newMode := ParseMode(model);
      var snap := Snapshot(newMode);
      if snap.None? {
        return;
      }
      var made := Build(snap.value, natsOk);
      QuietReload(mode, newMode, SlotsNow(), made, hasMq, natsOk, old(nextId));
      var won, todo := Commit(snap.value, made);
      CloseEach(todo);
      ClosingOrder(old(mode), newMode, old(SlotsNow()));
      assert released[|old(released)|..] == todo;
    }

    /** Walks the chain as it stood when the lock was released, nobody interfering. */
    method Push(answer: Client -> Answer) returns (outcome: PushOutcome)
      requires Valid()
      ensures outcome == Fallback(Chain(SlotsNow()), answer, NoClientAvailable)
      ensures WalkLaw(Chain(SlotsNow()), answer, NoClientAvailable, outcome)
    {
      FallbackIsFirstSuccessOrLastError(Chain(SlotsNow()), answer, NoClientAvailable);
      var chain, n := buf, used;
      outcome := NoClientAvailable;
      if n == 0 {
        return;
      }
      ghost var clients := Chain(SlotsNow());
      for i := 0 to n
        invariant !outcome.Replied? && !outcome.Panicked?
        invariant Fallback(clients, answer, NoClientAvailable) == Fallback(clients[i..], answer, outcome)
      {
        assert chain[i] == chain[..used][i] == Some(clients[i]);
        assert clients[i..][1..] == clients[i + 1..];
        match Ask(answer, chain[i].value) {
          case Reply(resp, respond) =>
            return Replied(resp, respond);
          case Error(err) =>
            outcome := AllFailed(err);
          case Panic =>
            return Panicked;
        }
      }
    }
  }
}
