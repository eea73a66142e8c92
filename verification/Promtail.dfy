/** The Promtail client: a bounded queue of log entries, a batch indexed by level, three reasons to push the batch,
    and the translation of a batch into the push request. */
module Promtail {
  import opened Common

  // ----- Levels and labels

  /** Levels are bytes; six of them are named. */
  type Level = l: nat | l < 256

  const DEBUG: Level := 0
  const INFO: Level := 1
  const WARN: Level := 2
  const ERROR: Level := 3
  const FATAL: Level := 4
  const PANIC: Level := 5

  type Labels = map<string, string>

  const LEVEL_LABEL := "level"

  function LevelString(l: Level): string {
    match l
    case 0 => "DEBUG"
    case 1 => "INFO"
    case 2 => "WARN"
    case 3 => "ERROR"
    case 4 => "FATAL"
    case 5 => "PANIC"
    case _ => "unknown"
  }

  /** The position of a level's stream; Panic and Fatal are stored the other way round than numbered. */
  function LevelIndex(l: Level): int {
    if l == DEBUG then 0
    else if l == INFO then 1
    else if l == WARN then 2
    else if l == ERROR then 3
    else if l == PANIC then 4
    else if l == FATAL then 5
    else -1
  }

  const CACHED_LEVELS: seq<Level> := [DEBUG, INFO, WARN, ERROR, PANIC, FATAL]

  /** The names and the places of the levels. */
  lemma LevelsAre(l: Level)
    ensures LevelString(0) == "DEBUG" && LevelString(1) == "INFO" && LevelString(2) == "WARN"
    ensures LevelString(3) == "ERROR" && LevelString(4) == "FATAL" && LevelString(5) == "PANIC"
    ensures l > 5 ==> LevelString(l) == "unknown"
    ensures CACHED_LEVELS == [0, 1, 2, 3, 5, 4]
    ensures 0 <= LevelIndex(l) <==> l <= 5
    ensures l <= 5 ==> LevelIndex(l) < 6 && CACHED_LEVELS[LevelIndex(l)] == l
    ensures forall i :: 0 <= i < 6 && CACHED_LEVELS[i] == l ==> i == LevelIndex(l)
  {
  }

  /** Each label set overrides the ones before it. */
  function Merged(srcs: seq<Labels>): Labels {
    if srcs == [] then map[] else Merged(srcs[..|srcs| - 1]) + srcs[|srcs| - 1]
  }

  /** Every label of every set is there, with the value of the last set that has it. */
  lemma {:induction false} MergedIs(srcs: seq<Labels>, k: string)
    ensures k in Merged(srcs) <==> exists i :: 0 <= i < |srcs| && k in srcs[i]
    ensures forall i :: 0 <= i < |srcs| && k in srcs[i] && (forall j :: i < j < |srcs| ==> k !in srcs[j]) ==>
              Merged(srcs)[k] == srcs[i][k]
  {
    if srcs != [] {
      var n := |srcs| - 1;
      MergedIs(srcs[..n], k);
      assert forall i :: 0 <= i < n ==> srcs[..n][i] == srcs[i];
    }
  }

  /** The inner loop; the order of the keys is arbitrary. */
  method CopyInto(dst: Labels, src: Labels) returns (r: Labels)
    ensures r == dst + src
  {
    r := dst;
    var todo := src.Keys;
    while todo != {}
      invariant todo <= src.Keys
      invariant r.Keys == dst.Keys + (src.Keys - todo)
      invariant forall k :: k in r ==>
                  r[k] == if k in src && k !in todo then src[k] else if k in dst then dst[k] else r[k]
      decreases |todo|
    {
      var key :| key in todo;
      todo := todo - {key};
      r := r[key := src[key]];
    }
  }

  method CopyAndMergeLabels(srcs: seq<Labels>) returns (dst: Labels)
    ensures dst == Merged(srcs)
  {
    dst := map[];
    for i := 0 to |srcs|
      invariant dst == Merged(srcs[..i])
    {
      dst := CopyInto(dst, srcs[i]);
      assert srcs[..i + 1][..i] == srcs[..i];
    }
    assert srcs[..|srcs|] == srcs;
  }

  // ----- Streams and batches

  datatype LogEntry = LogEntry(timestamp: int, message: string)

  datatype Packed = Packed(level: Level, labels: Labels, entry: LogEntry)

  datatype LogStream = LogStream(level: Level, labels: Labels, entries: seq<LogEntry>)

  datatype Batch = Batch(size: nat, streams: seq<LogStream>)

  /** A stream whose level label overrides every other label of that name. */
  function LeveledStream(level: Level, srcs: seq<Labels>, entries: seq<LogEntry>): LogStream {
    LogStream(level, Merged(srcs + [map[LEVEL_LABEL := LevelString(level)]]), entries)
  }

  function EmptyBatch(predefined: Labels): Batch {
    Batch(0, seq(6, i requires 0 <= i < 6 => LeveledStream(CACHED_LEVELS[i], [predefined], [])))
  }

  /** The entry goes to its level's stream, unless it has labels of its own or an unnamed level. */
  predicate Cached(p: Packed) {
    p.labels == map[] && LevelIndex(p.level) >= 0
  }

  function Added(b: Batch, predefined: Labels, p: Packed): Batch
    requires |b.streams| >= 6
  {
    if Cached(p) then
      var i := LevelIndex(p.level);
      Batch(b.size + 1, b.streams[i := b.streams[i].(entries := b.streams[i].entries + [p.entry])])
    else
      Batch(b.size + 1, b.streams + [LeveledStream(p.level, [predefined, p.labels], [p.entry])])
  }

  class LogStreamBatch {
    const predefinedLabels: Labels
    var size: nat
    var streams: seq<LogStream>

    function State(): Batch
      reads this
    {
      Batch(size, streams)
    }

    constructor (labels: Labels)
      ensures predefinedLabels == labels && State() == EmptyBatch(labels)
    {
      predefinedLabels := labels;
      size, streams := 0, [];
      new;
      Reset();
    }

    method NewLeveledStream(level: Level, predefined: seq<Labels>) returns (s: LogStream)
      ensures s == LeveledStream(level, predefined, [])
    {
      var labels := CopyAndMergeLabels(predefined + [map[LEVEL_LABEL := LevelString(level)]]);
      return LogStream(level, labels, []);
    }

    method Add(p: Packed)
      requires |streams| >= 6
      modifies this
      ensures State() == Added(old(State()), predefinedLabels, p)
    {
      size := size + 1;
      var cachedIndex := LevelIndex(p.level);
      if |p.labels| > 0 || cachedIndex < 0 {
        var dedicated := NewLeveledStream(p.level, [predefinedLabels, p.labels]);
        streams := streams + [dedicated.(entries := [p.entry])];
      } else {
        var s := streams[cachedIndex];
        streams := streams[cachedIndex := s.(entries := s.entries + [p.entry])];
      }
    }

    method Reset()
      modifies this
      ensures State() == EmptyBatch(predefinedLabels)
    {
      size := 0;
      var made := [];
      for i := 0 to |CACHED_LEVELS|
        modifies {}
        invariant made == EmptyBatch(predefinedLabels).streams[..i]
      {
        var s := NewLeveledStream(CACHED_LEVELS[i], [predefinedLabels]);
        made := made + [s];
      }
      streams := made;
    }
  }

  // ----- What a batch holds

  /** The batch after adding entries one by one. */
  function BatchOf(predefined: Labels, ps: seq<Packed>): (b: Batch)
    ensures |b.streams| >= 6
  {
    if ps == [] then EmptyBatch(predefined) else Added(BatchOf(predefined, ps[..|ps| - 1]), predefined, ps[|ps| - 1])
  }

  /** The unlabelled entries of one level, in order of arrival. */
  function OfLevel(ps: seq<Packed>, level: Level): seq<LogEntry> {
    if ps == [] then []
    else
      var p := ps[|ps| - 1];
      OfLevel(ps[..|ps| - 1], level) + if p.labels == map[] && p.level == level then [p.entry] else []
  }

  /** The streams of the other entries, one each, in order of arrival. */
  function Dedicated(predefined: Labels, ps: seq<Packed>): seq<LogStream> {
    if ps == [] then []
    else
      var p := ps[|ps| - 1];
      Dedicated(predefined, ps[..|ps| - 1])
      + if p.labels == map[] && p.level <= 5 then [] else [LeveledStream(p.level, [predefined, p.labels], [p.entry])]
  }

  function Lengths(streams: seq<LogStream>): nat {
    if streams == [] then 0 else |streams[0].entries| + Lengths(streams[1..])
  }

  lemma {:induction false} LengthsConcat(a: seq<LogStream>, b: seq<LogStream>)
    ensures Lengths(a + b) == Lengths(a) + Lengths(b)
  {
    if a == [] {
      assert a + b == b;
    } else {
      assert (a + b)[1..] == a[1..] + b;
      LengthsConcat(a[1..], b);
    }
  }

  lemma {:induction false} LengthsUpdate(s: seq<LogStream>, i: nat, t: LogStream)
    requires i < |s|
    ensures Lengths(s[i := t]) == Lengths(s) - |s[i].entries| + |t.entries|
  {
    var a, b := s[..i], s[i + 1..];
    assert s == a + ([s[i]] + b) && s[i := t] == a + ([t] + b);
    LengthsConcat(a, [s[i]] + b);
    LengthsConcat(a, [t] + b);
    assert ([s[i]] + b)[1..] == b && ([t] + b)[1..] == b;
  }

  lemma {:induction false} EmptyLengths(s: seq<LogStream>)
    requires forall i :: 0 <= i < |s| ==> s[i].entries == []
    ensures Lengths(s) == 0
  {
    if s != [] {
      EmptyLengths(s[1..]);
    }
  }

  /** `size` is the number of entries and the sum of the stream lengths; the first six streams hold exactly the
      unlabelled entries of their levels in order of arrival, the others one labelled or unnamed-level entry each. */
  lemma {:induction false} BatchRepresents(predefined: Labels, ps: seq<Packed>)
    ensures Represents(predefined, ps, BatchOf(predefined, ps))
  {
    if ps == [] {
      EmptyLengths(BatchOf(predefined, []).streams);
    } else {
      var n := |ps| - 1;
      BatchRepresents(predefined, ps[..n]);
      AddedRepresents(predefined, ps[..n], BatchOf(predefined, ps[..n]), ps[n]);
      assert ps == ps[..n] + [ps[n]];
    }
  }

  predicate Represents(predefined: Labels, ps: seq<Packed>, b: Batch) {
    && |b.streams| >= 6
    && b.size == |ps| == Lengths(b.streams)
    && (forall i :: 0 <= i < 6 ==>
         b.streams[i] == LeveledStream(CACHED_LEVELS[i], [predefined], OfLevel(ps, CACHED_LEVELS[i])))
    && b.streams[6..] == Dedicated(predefined, ps)
  }

  lemma AddedRepresents(predefined: Labels, ps: seq<Packed>, before: Batch, p: Packed)
    requires Represents(predefined, ps, before)
    ensures Represents(predefined, ps + [p], Added(before, predefined, p))
  {
    assert (ps + [p])[..|ps|] == ps;
    var b := Added(before, predefined, p);
    LevelsAre(p.level);
    if Cached(p) {
      var i := LevelIndex(p.level);
      LengthsUpdate(before.streams, i, b.streams[i]);
      assert b.streams[6..] == before.streams[6..];
    } else {
      var s := LeveledStream(p.level, [predefined, p.labels], [p.entry]);
      assert Lengths([s]) == 1;
      LengthsConcat(before.streams, [s]);
      assert b.streams[6..] == before.streams[6..] + [s];
    }
  }

  /** Whatever default or custom labels say, the level label of a stream is its level. */
  lemma LevelLabelIsForced(level: Level, srcs: seq<Labels>, entries: seq<LogEntry>)
    ensures var labels := LeveledStream(level, srcs, entries).labels;
            LEVEL_LABEL in labels && labels[LEVEL_LABEL] == LevelString(level)
  {
    var all := srcs + [map[LEVEL_LABEL := LevelString(level)]];
    assert all[|all| - 1] == map[LEVEL_LABEL := LevelString(level)];
  }

  /** Custom labels override the default ones, and the level overrides both. */
  lemma StreamLabelsAre(level: Level, predefined: Labels, labels: Labels, entries: seq<LogEntry>)
    ensures LeveledStream(level, [predefined, labels], entries).labels ==
            predefined + labels + map["level" := LevelString(level)]
    ensures LeveledStream(level, [predefined], entries).labels == predefined + map["level" := LevelString(level)]
  {
    var top := map["level" := LevelString(level)];
    assert [predefined] + [top] == [predefined, top] && [predefined, labels] + [top] == [predefined, labels, top];
    assert [predefined, labels, top][..2] == [predefined, labels] && [predefined, labels][..1] == [predefined];
    assert [predefined, top][..1] == [predefined] && [predefined][..0] == [];
    assert Merged([]) + predefined == predefined;
    assert Merged([predefined]) == predefined;
    assert Merged([predefined, labels]) == predefined + labels;
  }

  lemma {:induction false} BatchLevels(predefined: Labels, ps: seq<Packed>, i: nat)
    requires i < |BatchOf(predefined, ps).streams|
    ensures var s := BatchOf(predefined, ps).streams[i];
            LEVEL_LABEL in s.labels && s.labels[LEVEL_LABEL] == LevelString(s.level)
    decreases |ps|
  {
    if ps == [] {
      LevelLabelIsForced(CACHED_LEVELS[i], [predefined], []);
    } else {
      var n := |ps| - 1;
      if i < |BatchOf(predefined, ps[..n]).streams| {
        BatchLevels(predefined, ps[..n], i);
      } else {
        LevelLabelIsForced(ps[n].level, [predefined, ps[n].labels], [ps[n].entry]);
      }
    }
  }

  // ----- The push request

  /** What may come in: streams and entries are pointers. */
  datatype RawStream = RawStream(level: Level, labels: Labels, entries: seq<Option<LogEntry>>)

  datatype Value = Value(timestamp: int, line: string)

  datatype DtoStream = DtoStream(labels: Labels, values: seq<Value>)

  function FormatValue(level: Level, e: LogEntry): Value {
    Value(e.timestamp, LevelString(level) + ": " + e.message)
  }

  function Values(level: Level, entries: seq<Option<LogEntry>>): seq<Value> {
    if entries == [] then []
    else
      var e := entries[|entries| - 1];
      Values(level, entries[..|entries| - 1]) + if e.Some? then [FormatValue(level, e.value)] else []
  }

  predicate Skipped(s: Option<RawStream>) {
    s.None? || s.value.entries == []
  }

  function Dto(streams: seq<Option<RawStream>>): seq<DtoStream> {
    if streams == [] then []
    else
      var s := streams[|streams| - 1];
      Dto(streams[..|streams| - 1])
      + if Skipped(s) then [] else [DtoStream(s.value.labels, Values(s.value.level, s.value.entries))]
  }

  /** A nil list of streams yields no request. */
  method TransformLogStreamsToDTO(list: Option<seq<Option<RawStream>>>) returns (result: Option<seq<DtoStream>>)
    ensures result == if list.None? then None else Some(Dto(list.value))
  {
    if list.None? {
      return None;
    }
    var streams := list.value;
    var request: seq<DtoStream> := [];
    for i := 0 to |streams|
      invariant request == Dto(streams[..i])
    {
      assert streams[..i + 1][..i] == streams[..i];
      if streams[i].None? || |streams[i].value.entries| == 0 {
        continue;
      }
      var s := streams[i].value;
      var values: seq<Value> := [];
      for j := 0 to |s.entries|
        invariant values == Values(s.level, s.entries[..j])
      {
        assert s.entries[..j + 1][..j] == s.entries[..j];
        if s.entries[j].None? {
          continue;
        }
        values := values + [FormatValue(s.level, s.entries[j].value)];
      }
      assert s.entries[..|s.entries|] == s.entries;
      request := request + [DtoStream(s.labels, values)];
    }
    assert streams[..|streams|] == streams;
    return Some(request);
  }

  predicate OnlyNil(s: Option<RawStream>) {
    s.Some? && s.value.entries != [] && forall j :: 0 <= j < |s.value.entries| ==> s.value.entries[j].None?
  }

  lemma {:induction false} ValuesEmptyIff(level: Level, entries: seq<Option<LogEntry>>)
    ensures Values(level, entries) == [] <==> forall j :: 0 <= j < |entries| ==> entries[j].None?
  {
    if entries != [] {
      var n := |entries| - 1;
      ValuesEmptyIff(level, entries[..n]);
      assert forall j :: 0 <= j < n ==> entries[..n][j] == entries[j];
    }
  }

  /** The request has no empty stream exactly when no stream consists of nil entries only. */
  lemma {:induction false} NoEmptyStreamIff(streams: seq<Option<RawStream>>)
    ensures (forall k :: 0 <= k < |Dto(streams)| ==> Dto(streams)[k].values != []) <==>
            (forall i :: 0 <= i < |streams| ==> !OnlyNil(streams[i]))
  {
    if streams != [] {
      var n := |streams| - 1;
      var s, before := streams[n], Dto(streams[..n]);
      NoEmptyStreamIff(streams[..n]);
      assert forall i :: 0 <= i < n ==> streams[..n][i] == streams[i];
      if !Skipped(s) {
        ValuesEmptyIff(s.value.level, s.value.entries);
        assert Dto(streams)[|before|].values == [] <==> OnlyNil(s);
      }
      assert forall k :: 0 <= k < |before| ==> Dto(streams)[k] == before[k];
      if forall k :: 0 <= k < |Dto(streams)| ==> Dto(streams)[k].values != [] {
        assert forall k :: 0 <= k < |before| ==> before[k].values != [];
      }
    }
  }

  /** The values of a request, in order. */
  function Emitted(request: seq<DtoStream>): seq<Value> {
    if request == [] then [] else Emitted(request[..|request| - 1]) + request[|request| - 1].values
  }

  function Pointers(streams: seq<LogStream>): seq<Option<RawStream>> {
    seq(|streams|, i requires 0 <= i < |streams| =>
      Some(RawStream(streams[i].level, streams[i].labels, SomeEntries(streams[i].entries))))
  }

  function SomeEntries(entries: seq<LogEntry>): seq<Option<LogEntry>> {
    seq(|entries|, j requires 0 <= j < |entries| => Some(entries[j]))
  }

  function Formatted(level: Level, entries: seq<LogEntry>): seq<Value> {
    seq(|entries|, j requires 0 <= j < |entries| => FormatValue(level, entries[j]))
  }

  /** The values of streams, in order. */
  function AllValues(streams: seq<LogStream>): seq<Value> {
    if streams == [] then []
    else AllValues(streams[..|streams| - 1]) + Formatted(streams[|streams| - 1].level, streams[|streams| - 1].entries)
  }

  lemma {:induction false} ValuesOfSome(level: Level, entries: seq<LogEntry>)
    ensures Values(level, SomeEntries(entries)) == Formatted(level, entries)
  {
    if entries != [] {
      var n := |entries| - 1;
      ValuesOfSome(level, entries[..n]);
      assert SomeEntries(entries)[..n] == SomeEntries(entries[..n]);
      assert Formatted(level, entries) == Formatted(level, entries[..n]) + [FormatValue(level, entries[n])];
    } else {
      assert SomeEntries(entries) == [];
    }
  }

  lemma EmittedAppend(request: seq<DtoStream>, d: DtoStream)
    ensures Emitted(request + [d]) == Emitted(request) + d.values
  {
    assert (request + [d])[..|request|] == request;
  }

  /** One more stream is one more element of the request, unless the stream is empty. */
  lemma DtoOne(init: seq<LogStream>, s: LogStream)
    ensures Dto(Pointers(init + [s])) ==
            Dto(Pointers(init)) + if s.entries == [] then [] else [DtoStream(s.labels, Formatted(s.level, s.entries))]
  {
    var raw := Pointers(init + [s]);
    assert raw[..|init|] == Pointers(init);
    assert raw[|init|] == Some(RawStream(s.level, s.labels, SomeEntries(s.entries)));
    assert s.entries == [] <==> SomeEntries(s.entries) == [] by {
      assert |SomeEntries(s.entries)| == |s.entries|;
    }
    ValuesOfSome(s.level, s.entries);
  }

  /** The translation neither loses nor duplicates nor reorders an entry. */
  lemma {:induction false} DtoKeepsEntries(streams: seq<LogStream>)
    ensures Emitted(Dto(Pointers(streams))) == AllValues(streams)
  {
    if streams == [] {
      assert Pointers(streams) == [];
    } else {
      var n := |streams| - 1;
      var init, s := streams[..n], streams[n];
      assert streams == init + [s];
      DtoKeepsEntries(init);
      DtoOne(init, s);
      AllValuesAppend(init, s);
      if s.entries == [] {
        assert Formatted(s.level, s.entries) == [];
        assert AllValues(init) + [] == AllValues(init);
        assert Dto(Pointers(init)) + [] == Dto(Pointers(init));
      } else {
        EmittedAppend(Dto(Pointers(init)), DtoStream(s.labels, Formatted(s.level, s.entries)));
      }
    }
  }

  /** The values the entries of a batch should become. */
  function Expected(ps: seq<Packed>): seq<Value> {
    if ps == [] then [] else Expected(ps[..|ps| - 1]) + [FormatValue(ps[|ps| - 1].level, ps[|ps| - 1].entry)]
  }

  lemma AllValuesAppend(s: seq<LogStream>, t: LogStream)
    ensures AllValues(s + [t]) == AllValues(s) + Formatted(t.level, t.entries)
  {
    assert (s + [t])[..|s|] == s;
  }

  lemma Reassociate(x: seq<Value>, y: seq<Value>, z: seq<Value>)
    ensures x + y + z == x + (y + z)
    ensures x + [] == x
  {
  }

  lemma {:induction false} AllValuesConcat(a: seq<LogStream>, b: seq<LogStream>)
    ensures AllValues(a + b) == AllValues(a) + AllValues(b)
    decreases |b|
  {
    if b == [] {
      assert a + b == a;
      Reassociate(AllValues(a), [], []);
    } else {
      var init, t := b[..|b| - 1], b[|b| - 1];
      assert b == init + [t];
      assert a + b == (a + init) + [t];
      AllValuesConcat(a, init);
      AllValuesAppend(a + init, t);
      AllValuesAppend(init, t);
      Reassociate(AllValues(a), AllValues(init), Formatted(t.level, t.entries));
    }
  }

  lemma AllValuesUpdate(s: seq<LogStream>, i: nat, t: LogStream, v: Value)
    requires i < |s| && Formatted(t.level, t.entries) == Formatted(s[i].level, s[i].entries) + [v]
    ensures multiset(AllValues(s[i := t])) == multiset(AllValues(s)) + multiset{v}
  {
    var a, b := s[..i], s[i + 1..];
    assert s == a + [s[i]] + b;
    assert s[i := t] == a + [t] + b;
    AllValuesSplit(a, s[i], b);
    AllValuesSplit(a, t, b);
    InsertedOnce(AllValues(a), Formatted(s[i].level, s[i].entries), v, AllValues(b));
  }

  lemma InsertedOnce(a: seq<Value>, f: seq<Value>, v: Value, b: seq<Value>)
    ensures multiset(a + (f + [v]) + b) == multiset(a + f + b) + multiset{v}
  {
  }

  lemma AllValuesSplit(a: seq<LogStream>, t: LogStream, b: seq<LogStream>)
    ensures AllValues(a + [t] + b) == AllValues(a) + Formatted(t.level, t.entries) + AllValues(b)
  {
    AllValuesConcat(a + [t], b);
    AllValuesAppend(a, t);
  }

  lemma {:induction false} EmptyValues(s: seq<LogStream>)
    requires forall i :: 0 <= i < |s| ==> s[i].entries == []
    ensures AllValues(s) == []
  {
    if s != [] {
      EmptyValues(s[..|s| - 1]);
      assert Formatted(s[|s| - 1].level, []) == [];
    }
  }

  lemma {:induction false} BatchKeepsEntries(predefined: Labels, ps: seq<Packed>)
    ensures multiset(AllValues(BatchOf(predefined, ps).streams)) == multiset(Expected(ps))
  {
    if ps == [] {
      EmptyValues(BatchOf(predefined, ps).streams);
    } else {
      var n := |ps| - 1;
      var p := ps[n];
      var before := BatchOf(predefined, ps[..n]);
      BatchKeepsEntries(predefined, ps[..n]);
      assert Expected(ps) == Expected(ps[..n]) + [FormatValue(p.level, p.entry)];
      if Cached(p) {
        CachedLevelAt(predefined, ps[..n], p);
        CachedValue(before, predefined, p);
      } else {
        DedicatedValue(before, predefined, p);
      }
    }
  }

  lemma CachedLevelAt(predefined: Labels, ps: seq<Packed>, p: Packed)
    requires Cached(p)
    ensures BatchOf(predefined, ps).streams[LevelIndex(p.level)].level == p.level
  {
    BatchRepresents(predefined, ps);
  }

  lemma CachedValue(before: Batch, predefined: Labels, p: Packed)
    requires |before.streams| >= 6 && Cached(p) && before.streams[LevelIndex(p.level)].level == p.level
    ensures multiset(AllValues(Added(before, predefined, p).streams)) ==
            multiset(AllValues(before.streams)) + multiset{FormatValue(p.level, p.entry)}
  {
    var s := before.streams[LevelIndex(p.level)];
    var t := s.(entries := s.entries + [p.entry]);
    assert Formatted(t.level, t.entries) == Formatted(s.level, s.entries) + [FormatValue(p.level, p.entry)];
    AllValuesUpdate(before.streams, LevelIndex(p.level), t, FormatValue(p.level, p.entry));
  }

  lemma DedicatedValue(before: Batch, predefined: Labels, p: Packed)
    requires |before.streams| >= 6 && !Cached(p)
    ensures multiset(AllValues(Added(before, predefined, p).streams)) ==
            multiset(AllValues(before.streams)) + multiset{FormatValue(p.level, p.entry)}
  {
    var s := LeveledStream(p.level, [predefined, p.labels], [p.entry]);
    AllValuesAppend(before.streams, s);
    assert Formatted(s.level, s.entries) == [FormatValue(p.level, p.entry)];
  }

  lemma {:induction false} DtoLevels(streams: seq<LogStream>, k: nat)
    requires streams != [] && k < |Dto(Pointers(streams))|
    ensures exists i :: 0 <= i < |streams| && Dto(Pointers(streams))[k].labels == streams[i].labels
                        && Dto(Pointers(streams))[k].values == Formatted(streams[i].level, streams[i].entries)
                        && streams[i].entries != []
    decreases |streams|
  {
    var n := |streams| - 1;
    assert streams == streams[..n] + [streams[n]];
    DtoOne(streams[..n], streams[n]);
    var before := Dto(Pointers(streams[..n]));
    if k < |before| {
      DtoLevels(streams[..n], k);
      var i :| 0 <= i < n && before[k].labels == streams[..n][i].labels
               && before[k].values == Formatted(streams[..n][i].level, streams[..n][i].entries)
                  && streams[..n][i].entries != [];
      assert streams[..n][i] == streams[i];
    }
  }

  /** From entries to request: a push emits exactly the batch's entries, in no empty stream, and each value's
      level label names the level written in its line. */
  lemma PushEmitsBatch(predefined: Labels, ps: seq<Packed>)
    ensures var request := Dto(Pointers(BatchOf(predefined, ps).streams));
            && multiset(Emitted(request)) == multiset(Expected(ps)) && |Expected(ps)| == |ps|
            && (forall i :: 0 <= i < |ps| ==>
                  && Expected(ps)[i].timestamp == ps[i].entry.timestamp
                  && Expected(ps)[i].line == LevelString(ps[i].level) + ": " + ps[i].entry.message)
            && forall k :: 0 <= k < |request| ==>
                 && request[k].values != []
                 && LEVEL_LABEL in request[k].labels
                 && exists level: Level, entries :: request[k].labels[LEVEL_LABEL] == LevelString(level)
                                                    && request[k].values == Formatted(level, entries)
  {
    var streams := BatchOf(predefined, ps).streams;
    var request := Dto(Pointers(streams));
    DtoKeepsEntries(streams);
    BatchKeepsEntries(predefined, ps);
    ExpectedLines(ps);
    forall k | 0 <= k < |request|
      ensures request[k].values != [] && LEVEL_LABEL in request[k].labels
      ensures exists level: Level, entries :: request[k].labels[LEVEL_LABEL] == LevelString(level)
                                              && request[k].values == Formatted(level, entries)
    {
      DtoLevels(streams, k);
      var i :| 0 <= i < |streams| && request[k].labels == streams[i].labels
               && request[k].values == Formatted(streams[i].level, streams[i].entries) && streams[i].entries != [];
      BatchLevels(predefined, ps, i);
      assert |request[k].values| == |streams[i].entries|;
    }
  }

  // ----- What becomes of one entry

  /** The value says when, how severe and what. */
  predicate Says(v: Value, p: Packed) {
    v.timestamp == p.entry.timestamp && v.line == LevelString(p.level) + ": " + p.entry.message
  }

  /** The labels of an entry: the defaults, overridden by its own, overridden by its level. */
  function LabelsFor(predefined: Labels, p: Packed): Labels {
    predefined + p.labels + map["level" := LevelString(p.level)]
  }

  /** The stream has the entry at position `m`. */
  predicate Streamed(s: LogStream, predefined: Labels, p: Packed, m: nat) {
    m < |s.entries| && s.entries[m] == p.entry && s.level == p.level && s.labels == LabelsFor(predefined, p)
  }

  predicate Placed(b: Batch, predefined: Labels, p: Packed, j: nat, m: nat) {
    j < |b.streams| && Streamed(b.streams[j], predefined, p, m)
  }

  lemma AddedPlace(before: Batch, predefined: Labels, ps: seq<Packed>, p: Packed) returns (j: nat, m: nat)
    requires Represents(predefined, ps, before)
    ensures Placed(Added(before, predefined, p), predefined, p, j, m)
  {
    LevelsAre(p.level);
    if Cached(p) {
      j := LevelIndex(p.level);
      m := |before.streams[j].entries|;
      StreamLabelsAre(p.level, predefined, map[], before.streams[j].entries);
      assert predefined + map[] == predefined;
    } else {
      j, m := |before.streams|, 0;
      StreamLabelsAre(p.level, predefined, p.labels, [p.entry]);
    }
  }

  lemma AddedKeeps(before: Batch, predefined: Labels, p: Packed, j: nat, m: nat)
    requires |before.streams| >= 6 && j < |before.streams| && m < |before.streams[j].entries|
    ensures var s, t := before.streams[j], Added(before, predefined, p).streams[j];
            m < |t.entries| && t.entries[m] == s.entries[m] && t.level == s.level && t.labels == s.labels
  {
  }

  lemma AddedOnly(before: Batch, predefined: Labels, ps: seq<Packed>, p: Packed, j: nat, m: nat)
    requires Represents(predefined, ps, before)
    requires j < |Added(before, predefined, p).streams| && m < |Added(before, predefined, p).streams[j].entries|
    ensures (j < |before.streams| && m < |before.streams[j].entries|)
            || Streamed(Added(before, predefined, p).streams[j], predefined, p, m)
  {
    LevelsAre(p.level);
    if Cached(p) {
      StreamLabelsAre(p.level, predefined, map[], before.streams[LevelIndex(p.level)].entries);
      assert predefined + map[] == predefined;
    } else {
      StreamLabelsAre(p.level, predefined, p.labels, [p.entry]);
    }
  }

  lemma NothingInEmptyBatch(predefined: Labels)
    ensures forall j :: 0 <= j < |BatchOf(predefined, []).streams| ==> BatchOf(predefined, []).streams[j].entries == []
  {
  }

  lemma StreamedStays(before: Batch, predefined: Labels, p: Packed, q: Packed, j: nat, m: nat)
    requires |before.streams| >= 6 && Placed(before, predefined, q, j, m)
    ensures Placed(Added(before, predefined, p), predefined, q, j, m)
  {
    AddedKeeps(before, predefined, p, j, m);
  }

  lemma {:induction false} BatchHas(predefined: Labels, ps: seq<Packed>, i: nat) returns (j: nat, m: nat)
    requires i < |ps|
    ensures Placed(BatchOf(predefined, ps), predefined, ps[i], j, m)
    decreases |ps|
  {
    var init, p := ps[..|ps| - 1], ps[|ps| - 1];
    var before := BatchOf(predefined, init);
    assert BatchOf(predefined, ps) == Added(before, predefined, p);
    if i < |init| {
      assert init[i] == ps[i];
      j, m := BatchHas(predefined, init, i);
      StreamedStays(before, predefined, p, ps[i], j, m);
    } else {
      BatchRepresents(predefined, init);
      j, m := AddedPlace(before, predefined, init, p);
    }
  }

  lemma {:induction false} BatchOnlyHas(predefined: Labels, ps: seq<Packed>, j: nat, m: nat) returns (i: nat)
    requires j < |BatchOf(predefined, ps).streams| && m < |BatchOf(predefined, ps).streams[j].entries|
    ensures i < |ps| && Streamed(BatchOf(predefined, ps).streams[j], predefined, ps[i], m)
    decreases |ps|
  {
    NothingInEmptyBatch(predefined);
    assert ps != [];
    var n := |ps| - 1;
    var before := BatchOf(predefined, ps[..n]);
    BatchRepresents(predefined, ps[..n]);
    AddedOnly(before, predefined, ps[..n], ps[n], j, m);
    if j < |before.streams| && m < |before.streams[j].entries| {
      i := BatchOnlyHas(predefined, ps[..n], j, m);
      AddedKeeps(before, predefined, ps[n], j, m);
    } else {
      i := n;
    }
  }

  lemma {:induction false} DtoHas(streams: seq<LogStream>, j: nat) returns (k: nat)
    requires j < |streams| && streams[j].entries != []
    ensures var request := Dto(Pointers(streams));
            && k < |request| && request[k].labels == streams[j].labels
            && request[k].values == Formatted(streams[j].level, streams[j].entries)
    decreases |streams|
  {
    var n := |streams| - 1;
    assert streams == streams[..n] + [streams[n]];
    DtoOne(streams[..n], streams[n]);
    if j < n {
      k := DtoHas(streams[..n], j);
    } else {
      k := |Dto(Pointers(streams[..n]))|;
    }
  }

  lemma FormattedSays(s: LogStream, predefined: Labels, p: Packed, m: nat)
    requires Streamed(s, predefined, p, m)
    ensures m < |Formatted(s.level, s.entries)| && Says(Formatted(s.level, s.entries)[m], p)
  {
  }

  /** The push request for a batch of these entries. */
  function Request(predefined: Labels, ps: seq<Packed>): seq<DtoStream> {
    Dto(Pointers(BatchOf(predefined, ps).streams))
  }

  /** Every entry of the batch is sent: its time, its level and message as one line, under its own labels. */
  lemma EveryEntryIsSent(predefined: Labels, ps: seq<Packed>, i: nat) returns (k: nat, m: nat)
    requires i < |ps|
    ensures var request := Request(predefined, ps);
            && k < |request| && m < |request[k].values|
            && Says(request[k].values[m], ps[i]) && request[k].labels == LabelsFor(predefined, ps[i])
  {
    var streams := BatchOf(predefined, ps).streams;
    var j;
    j, m := BatchHas(predefined, ps, i);
    k := DtoHas(streams, j);
    FormattedSays(streams[j], predefined, ps[i], m);
  }

  /** And nothing else is. */
  lemma OnlyEntriesAreSent(predefined: Labels, ps: seq<Packed>, k: nat, m: nat) returns (i: nat)
    requires k < |Request(predefined, ps)| && m < |Request(predefined, ps)[k].values|
    ensures i < |ps| && Says(Request(predefined, ps)[k].values[m], ps[i])
    ensures Request(predefined, ps)[k].labels == LabelsFor(predefined, ps[i])
  {
    var streams := BatchOf(predefined, ps).streams;
    DtoLevels(streams, k);
    var j :| 0 <= j < |streams| && Request(predefined, ps)[k].labels == streams[j].labels
             && Request(predefined, ps)[k].values == Formatted(streams[j].level, streams[j].entries)
             && streams[j].entries != [];
    i := BatchOnlyHas(predefined, ps, j, m);
    FormattedSays(streams[j], predefined, ps[i], m);
  }

  /** One expected value per entry, in order, each saying what its entry says. */
  lemma {:induction false} ExpectedLines(ps: seq<Packed>)
    ensures |Expected(ps)| == |ps| && forall i :: 0 <= i < |ps| ==> Says(Expected(ps)[i], ps[i])
  {
    if ps != [] {
      ExpectedLines(ps[..|ps| - 1]);
    }
  }

  // ----- The exchange loop

  const QUEUE_SIZE := 1024

  /** `batch` and `pushes` are what the program has; the other lists name the entries behind them. */
  datatype Client = Client(
    sendBatchSize: nat, predefined: Labels,
    queue: seq<Packed>, batch: Batch, pushes: seq<seq<LogStream>>,
    isStopped: bool, running: bool,
    accepted: seq<Packed>, inBatch: seq<Packed>, pushed: seq<seq<Packed>>)

  datatype Event =
    | Log(p: Packed, sawStop: bool)   // a logging call, which may have read the stop flag earlier
    | Take
    | Timeout
    | Close
    | Stop

  function NewClient(sendBatchSize: nat, predefined: Labels): Client {
    Client(sendBatchSize, predefined, [], EmptyBatch(predefined), [], false, true, [], [], [])
  }

  predicate Enabled(c: Client, e: Event) {
    match e
    case Log(_, sawStop) => sawStop ==> c.isStopped
    case Take => c.running && c.queue != [] && |c.batch.streams| >= 6
    case Timeout => c.running
    case Close => true
    case Stop => c.running && c.isStopped
  }

  function Pushing(c: Client): Client {
    c.(pushes := c.pushes + [c.batch.streams], pushed := c.pushed + [c.inBatch])
  }

  function Resetting(c: Client): Client {
    c.(batch := EmptyBatch(c.predefined), inBatch := [])
  }

  function Apply(c: Client, e: Event): Client
    requires Enabled(c, e)
  {
    match e
    case Log(p, sawStop) =>
      if sawStop || |c.queue| >= QUEUE_SIZE then c
      else c.(queue := c.queue + [p], accepted := c.accepted + [p])
    case Take =>
      var p := c.queue[0];
      var t := c.(queue := c.queue[1..], batch := Added(c.batch, c.predefined, p), inBatch := c.inBatch + [p]);
      if t.batch.size >= c.sendBatchSize then Resetting(Pushing(t)) else t
    case Timeout => if c.batch.size > 0 then Resetting(Pushing(c)) else c
    case Close => c.(isStopped := true)
    case Stop => (if c.batch.size > 0 then Pushing(c) else c).(running := false, inBatch := [])
  }

  /** The body of the loop, case by case. */
  class Exchange {
    const sendBatchSize: nat
    const batch: LogStreamBatch
    var queue: seq<Packed>
    var pushes: seq<seq<LogStream>>
    var isStopped: bool
    var running: bool
    ghost var accepted: seq<Packed>
    ghost var inBatch: seq<Packed>
    ghost var pushed: seq<seq<Packed>>

    ghost function State(): Client
      reads this, batch
    {
      Client(sendBatchSize, batch.predefinedLabels, queue, batch.State(), pushes, isStopped, running, accepted, inBatch,
        pushed)
    }

    constructor (size: nat, labels: Labels)
      ensures fresh(batch) && State() == NewClient(size, labels)
    {
      sendBatchSize := size;
      batch := new LogStreamBatch(labels);
      queue, pushes, isStopped, running := [], [], false, true;
      accepted, inBatch, pushed := [], [], [];
    }

    method LogfWithLabels(p: Packed, sawStop: bool)
      requires sawStop ==> isStopped
      modifies this
      ensures State() == Apply(old(State()), Log(p, sawStop))
    {
      if sawStop {
        return;
      }
      if |queue| < QUEUE_SIZE {
        queue := queue + [p];
        accepted := accepted + [p];
      }
    }

    method Push()
      modifies this
      ensures State() == Pushing(old(State()))
    {
      pushes := pushes + [batch.streams];
      pushed := pushed + [inBatch];
    }

    method OnEntry()
      requires Enabled(State(), Take)
      modifies this, batch
      ensures State() == Apply(old(State()), Take)
    {
      var p := queue[0];
      queue := queue[1..];
      batch.Add(p);
      inBatch := inBatch + [p];
      if batch.size >= sendBatchSize {
        Push();
        batch.Reset();
        inBatch := [];
      }
    }

    method OnTimeout()
      requires running
      modifies this, batch
      ensures State() == Apply(old(State()), Timeout)
    {
      if batch.size > 0 {
        Push();
        batch.Reset();
        inBatch := [];
      }
    }

    method OnStop()
      requires running && isStopped
      modifies this
      ensures State() == Apply(old(State()), Stop)
    {
      if batch.size > 0 {
        Push();
      }
      running := false;
      inBatch := [];
    }
  }

  // ----- Conservation over all runs

  function Concat(batches: seq<seq<Packed>>): seq<Packed> {
    if batches == [] then [] else Concat(batches[..|batches| - 1]) + batches[|batches| - 1]
  }

  lemma ConcatOne(batches: seq<seq<Packed>>, batch: seq<Packed>)
    ensures Concat(batches + [batch]) == Concat(batches) + batch
  {
    assert (batches + [batch])[..|batches|] == batches;
  }

  function Max(a: nat, b: nat): nat {
    if a > b then a else b
  }

  ghost predicate Inv(c: Client) {
    && c.accepted == Concat(c.pushed) + c.inBatch + c.queue
    && |c.queue| <= QUEUE_SIZE
    && (c.running ==> c.batch == BatchOf(c.predefined, c.inBatch) && |c.inBatch| < Max(1, c.sendBatchSize))
    && (!c.running ==> c.inBatch == [])
    && |c.pushes| == |c.pushed|
    && (forall i :: 0 <= i < |c.pushed| ==>
         c.pushed[i] != [] && c.pushes[i] == BatchOf(c.predefined, c.pushed[i]).streams)
  }

  lemma PushingInv(c: Client)
    requires c.accepted == Concat(c.pushed) + c.inBatch + c.queue && |c.pushes| == |c.pushed|
    requires c.batch == BatchOf(c.predefined, c.inBatch) && c.inBatch != []
    requires forall i :: 0 <= i < |c.pushed| ==>
               c.pushed[i] != [] && c.pushes[i] == BatchOf(c.predefined, c.pushed[i]).streams
    ensures var t := Pushing(c);
            && t.accepted == Concat(t.pushed) + [] + t.queue && |t.pushes| == |t.pushed|
            && forall i :: 0 <= i < |t.pushed| ==>
               t.pushed[i] != [] && t.pushes[i] == BatchOf(t.predefined, t.pushed[i]).streams
  {
    var t := Pushing(c);
    ConcatOne(c.pushed, c.inBatch);
    assert Concat(t.pushed) + [] == Concat(c.pushed) + c.inBatch;
  }

  lemma TakeInv(c: Client)
    requires Inv(c) && Enabled(c, Take)
    ensures Inv(Apply(c, Take))
  {
    var p := c.queue[0];
    var t := c.(queue := c.queue[1..], batch := Added(c.batch, c.predefined, p), inBatch := c.inBatch + [p]);
    assert t.inBatch[..|c.inBatch|] == c.inBatch;
    assert t.batch == BatchOf(t.predefined, t.inBatch);
    assert c.queue == [p] + t.queue;
    assert t.accepted == Concat(t.pushed) + t.inBatch + t.queue;
    BatchRepresents(t.predefined, t.inBatch);
    if t.batch.size >= c.sendBatchSize {
      PushingInv(t);
    }
  }

  lemma StepInv(c: Client, e: Event)
    requires Inv(c) && Enabled(c, e)
    ensures Inv(Apply(c, e))
  {
    match e {
      case Log(p, sawStop) =>
        var t := Apply(c, e);
        assert Concat(c.pushed) + c.inBatch + (c.queue + [p]) ==
               Concat(c.pushed) + c.inBatch + c.queue + [p];
      case Take => TakeInv(c);
      case Timeout =>
        BatchRepresents(c.predefined, c.inBatch);
        if c.batch.size > 0 {
          PushingInv(c);
        }
      case Close =>
      case Stop =>
        BatchRepresents(c.predefined, c.inBatch);
        if c.batch.size > 0 {
          PushingInv(c);
        }
    }
  }

  predicate Possible(c: Client, events: seq<Event>)
    decreases |events|
  {
    events == [] || (Enabled(c, events[0]) && Possible(Apply(c, events[0]), events[1..]))
  }

  function Run(c: Client, events: seq<Event>): Client
    requires Possible(c, events)
    decreases |events|
  {
    if events == [] then c else Run(Apply(c, events[0]), events[1..])
  }

  lemma {:induction false} InvInEveryRun(c: Client, events: seq<Event>)
    requires Inv(c) && Possible(c, events)
    ensures Inv(Run(c, events))
    ensures Run(c, events).sendBatchSize == c.sendBatchSize && Run(c, events).predefined == c.predefined
    decreases |events|
  {
    if events != [] {
      StepInv(c, events[0]);
      InvInEveryRun(Apply(c, events[0]), events[1..]);
    }
  }

  /** In every run, whatever the order of calls, timeouts and the stop: the accepted entries are, in order, those
      of the pushes, of the batch and of the queue; the batch stays below max(1, sendBatchSize); no push is
      empty and each emits exactly its entries; after the stop only the queue holds accepted entries that were
      not pushed. */
  lemma AcceptedEntriesConserved(sendBatchSize: nat, predefined: Labels, events: seq<Event>)
    requires Possible(NewClient(sendBatchSize, predefined), events)
    ensures var c := Run(NewClient(sendBatchSize, predefined), events);
            && c.accepted == Concat(c.pushed) + c.inBatch + c.queue
            && (c.running ==> c.batch.size == |c.inBatch| < Max(1, sendBatchSize))
            && (!c.running ==> c.accepted == Concat(c.pushed) + c.queue)
            && |c.pushes| == |c.pushed|
            && forall i :: 0 <= i < |c.pushes| ==>
                 && c.pushed[i] != [] && Dto(Pointers(c.pushes[i])) == Request(predefined, c.pushed[i])
                 && multiset(Emitted(Dto(Pointers(c.pushes[i])))) == multiset(Expected(c.pushed[i]))
  {
    var c0 := NewClient(sendBatchSize, predefined);
    assert Inv(c0);
    InvInEveryRun(c0, events);
    var c := Run(c0, events);
    BatchRepresents(predefined, c.inBatch);
    forall i | 0 <= i < |c.pushes|
      ensures multiset(Emitted(Dto(Pointers(c.pushes[i])))) == multiset(Expected(c.pushed[i]))
    {
      PushEmitsBatch(predefined, c.pushed[i]);
    }
    assert Concat(c.pushed) + [] == Concat(c.pushed);
  }

  // ----- What each event does, and when batches are pushed

  /** A call that has not seen the stop is accepted, at the end of the queue, exactly when fewer than 1024 entries
      wait; one that has seen it is not. */
  lemma LogIsAcceptedIff(c: Client, p: Packed, sawStop: bool)
    requires Enabled(c, Log(p, sawStop))
    ensures var t := Apply(c, Log(p, sawStop));
            if !sawStop && |c.queue| < 1024
            then t == c.(queue := c.queue + [p], accepted := c.accepted + [p])
            else t == c
  {
  }

  /** The oldest entry goes into the batch, which is pushed exactly when that makes it sendBatchSize entries long. */
  lemma TakePushesFullBatch(c: Client)
    requires Inv(c) && Enabled(c, Take)
    ensures var t, batch := Apply(c, Take), c.inBatch + [c.queue[0]];
            && t.queue == c.queue[1..] && t.accepted == c.accepted && t.running && t.isStopped == c.isStopped
            && if |batch| == Max(1, c.sendBatchSize)
               then t.pushed == c.pushed + [batch] && t.inBatch == []
               else t.pushed == c.pushed && t.inBatch == batch
  {
    BatchSize(c.predefined, c.inBatch);
    assert Added(c.batch, c.predefined, c.queue[0]).size == |c.inBatch| + 1;
  }

  lemma BatchSize(predefined: Labels, ps: seq<Packed>)
    ensures BatchOf(predefined, ps).size == |ps|
  {
    BatchRepresents(predefined, ps);
  }

  /** A timeout pushes whatever is in the batch; so does the stop, which ends the loop; a close only asks for it. */
  lemma TimeoutAndStopPushBatch(c: Client)
    requires Inv(c) && c.running
    ensures var t, batches := Apply(c, Timeout), if c.inBatch == [] then [] else [c.inBatch];
            && t.pushed == c.pushed + batches && t.inBatch == [] && t.running && t.queue == c.queue
            && t.accepted == c.accepted && t.isStopped == c.isStopped
    ensures Apply(c, Close) == c.(isStopped := true)
    ensures c.isStopped ==>
              var t, batches := Apply(c, Stop), if c.inBatch == [] then [] else [c.inBatch];
              && t.pushed == c.pushed + batches && t.inBatch == [] && !t.running && t.queue == c.queue
              && t.accepted == c.accepted && t.isStopped
  {
    BatchRepresents(c.predefined, c.inBatch);
    assert c.pushed + [] == c.pushed;
  }

  /** How many of the pushed batches are shorter than `size`. */
  function Short(pushed: seq<seq<Packed>>, size: nat): nat {
    if pushed == [] then 0
    else Short(pushed[..|pushed| - 1], size) + if |pushed[|pushed| - 1]| == size then 0 else 1
  }

  lemma ShortNext(pushed: seq<seq<Packed>>, batch: seq<Packed>, size: nat)
    ensures Short(pushed + [batch], size) == Short(pushed, size) + if |batch| == size then 0 else 1
    ensures Short(pushed + [], size) == Short(pushed, size)
  {
    assert (pushed + [batch])[..|pushed|] == pushed;
    assert pushed + [] == pushed;
  }

  /** The event finds a batch to push although it is not full. */
  predicate Flushes(c: Client, e: Event) {
    (e.Timeout? || e.Stop?) && c.inBatch != []
  }

  function Flushing(c: Client, events: seq<Event>): nat
    requires Possible(c, events)
    decreases |events|
  {
    if events == [] then 0
    else (if Flushes(c, events[0]) then 1 else 0) + Flushing(Apply(c, events[0]), events[1..])
  }

  lemma StepShort(c: Client, e: Event)
    requires Inv(c) && Enabled(c, e)
    ensures var size := Max(1, c.sendBatchSize);
            Short(Apply(c, e).pushed, size) == Short(c.pushed, size) + if Flushes(c, e) then 1 else 0
  {
    match e {
      case Take =>
        TakePushesFullBatch(c);
        ShortNext(c.pushed, c.inBatch + [c.queue[0]], Max(1, c.sendBatchSize));
      case Timeout =>
        TimeoutAndStopPushBatch(c);
        ShortNext(c.pushed, c.inBatch, Max(1, c.sendBatchSize));
      case Stop =>
        TimeoutAndStopPushBatch(c);
        ShortNext(c.pushed, c.inBatch, Max(1, c.sendBatchSize));
      case Log(_, _) =>
      case Close =>
    }
  }

  /** In every run each timeout or stop that finds a batch pushes it as it is, and every other batch is full. */
  lemma {:induction false} OnlyTimeoutsAndStopPushShort(c: Client, events: seq<Event>)
    requires Inv(c) && Possible(c, events)
    ensures var size := Max(1, c.sendBatchSize);
            Short(Run(c, events).pushed, size) == Short(c.pushed, size) + Flushing(c, events)
    decreases |events|
  {
    if events != [] {
      StepShort(c, events[0]);
      StepInv(c, events[0]);
      OnlyTimeoutsAndStopPushShort(Apply(c, events[0]), events[1..]);
    }
  }

  lemma ShortFromStart(sendBatchSize: nat, predefined: Labels, events: seq<Event>)
    requires Possible(NewClient(sendBatchSize, predefined), events)
    ensures Short(Run(NewClient(sendBatchSize, predefined), events).pushed, Max(1, sendBatchSize)) ==
            Flushing(NewClient(sendBatchSize, predefined), events)
  {
    assert Inv(NewClient(sendBatchSize, predefined));
    OnlyTimeoutsAndStopPushShort(NewClient(sendBatchSize, predefined), events);
  }
}
