/** How a batch of log entries is split into Loki streams: one stream per (source, job, level), in the order in
    which the keys are first seen. */
module LogGrouping {
  import opened Common

  datatype Entry = Entry(timestamp: string, level: string, source: string, job: string, message: string)

  datatype Key = Key(source: string, job: string, level: string)

  /** A stream's values are the entries, each rendered on its own. */
  datatype Stream = Stream(labels: map<string, string>, values: seq<Entry>)

  function KeyOf(e: Entry): Key {
    Key(e.source, e.job, e.level)
  }

  function LabelsOf(k: Key): map<string, string> {
    map["source" := k.source, "job" := k.job, "level" := k.level]
  }

  /** The labels say where the entry comes from and how severe it is. */
  predicate Labelled(e: Entry, labels: map<string, string>) {
    labels == map["source" := e.source, "job" := e.job, "level" := e.level]
  }

  lemma LabelledIff(e: Entry, k: Key)
    ensures Labelled(e, LabelsOf(k)) <==> KeyOf(e) == k
  {
    var l, l' := LabelsOf(k), map["source" := e.source, "job" := e.job, "level" := e.level];
    assert l == l' ==> l["source"] == l'["source"] && l["job"] == l'["job"] && l["level"] == l'["level"];
  }

  /** The entries with a key, in their order. */
  function Select(entries: seq<Entry>, k: Key): seq<Entry> {
    if entries == [] then []
    else
      var e := entries[|entries| - 1];
      Select(entries[..|entries| - 1], k) + if KeyOf(e) == k then [e] else []
  }

  /** The distinct keys, in order of first appearance. */
  function FirstSeen(entries: seq<Entry>): seq<Key> {
    if entries == [] then []
    else
      var keys, k := FirstSeen(entries[..|entries| - 1]), KeyOf(entries[|entries| - 1]);
      if k in keys then keys else keys + [k]
  }

  function Streams(keys: seq<Key>, entries: seq<Entry>): seq<Stream> {
    seq(|keys|, i requires 0 <= i < |keys| => Stream(LabelsOf(keys[i]), Select(entries, keys[i])))
  }

  /** The grouping loop of the push: a map of streams and the list of its keys. */
  method Group(entries: seq<Entry>) returns (streams: seq<Stream>)
    ensures streams == Streams(FirstSeen(entries), entries)
  {
    var streamsMap: map<Key, Stream> := map[];
    var streamKeys: seq<Key> := [];
    for i := 0 to |entries|
      invariant streamKeys == FirstSeen(entries[..i])
      invariant forall k :: k in streamKeys <==> k in streamsMap
      invariant forall k :: k in streamsMap ==> streamsMap[k] == Stream(LabelsOf(k), Select(entries[..i], k))
    {
      var e := entries[i];
      var key := Key(e.source, e.job, e.level);
      assert entries[..i + 1][..i] == entries[..i];
      AbsentSelectsNothing(entries[..i], key);
      var s: Stream;
      if key in streamsMap {
        s := streamsMap[key];
      } else {
        s := Stream(map["source" := e.source, "job" := e.job, "level" := e.level], []);
        streamKeys := streamKeys + [key];
      }
      streamsMap := streamsMap[key := s.(values := s.values + [e])];
    }
    assert entries[..|entries|] == entries;
    streams := [];
    for i := 0 to |streamKeys|
      invariant streams == Streams(streamKeys, entries)[..i]
    {
      assert streamKeys[i] in streamKeys;
      streams := streams + [streamsMap[streamKeys[i]]];
    }
  }

  lemma {:induction false} AbsentSelectsNothing(entries: seq<Entry>, k: Key)
    ensures k in FirstSeen(entries) <==> Select(entries, k) != []
  {
    if entries != [] {
      AbsentSelectsNothing(entries[..|entries| - 1], k);
    }
  }

  /** Labels are pairwise distinct. */
  lemma {:induction false} KeysDistinct(entries: seq<Entry>)
    ensures Distinct(FirstSeen(entries))
  {
    if entries != [] {
      KeysDistinct(entries[..|entries| - 1]);
    }
  }

  /** `entries[p]` is the first entry with its key. */
  predicate FirstWithKey(entries: seq<Entry>, p: nat) {
    p < |entries| && forall q :: 0 <= q < p ==> KeyOf(entries[q]) != KeyOf(entries[p])
  }

  /** Stream `i` comes before stream `j` exactly when its key appears before. */
  lemma {:induction false} FirstSeenOrder(entries: seq<Entry>) returns (at: seq<nat>)
    ensures |at| == |FirstSeen(entries)|
    ensures forall i :: 0 <= i < |at| ==> FirstWithKey(entries, at[i]) && KeyOf(entries[at[i]]) == FirstSeen(entries)[i]
    ensures forall i, j :: 0 <= i < j < |at| ==> at[i] < at[j]
  {
    at := [];
    if entries != [] {
      var n := |entries| - 1;
      var init := entries[..n];
      at := FirstSeenOrder(init);
      forall p: nat | p < n
        ensures FirstWithKey(entries, p) <==> FirstWithKey(init, p)
      {
      }
      SeenInInit(init, KeyOf(entries[n]));
      if KeyOf(entries[n]) !in FirstSeen(init) {
        assert FirstWithKey(entries, n);
        at := at + [n];
      }
    }
  }

  lemma {:induction false} SeenInInit(entries: seq<Entry>, k: Key)
    ensures k in FirstSeen(entries) <==> exists q :: 0 <= q < |entries| && KeyOf(entries[q]) == k
  {
    if entries != [] {
      var n := |entries| - 1;
      var init := entries[..n];
      SeenInInit(init, k);
      if q :| 0 <= q < |entries| && KeyOf(entries[q]) == k {
        assert q < n ==> KeyOf(init[q]) == k;
      }
    }
  }

  function Flatten(streams: seq<Stream>): seq<Entry> {
    if streams == [] then [] else streams[0].values + Flatten(streams[1..])
  }

  lemma FlattenStep(keys: seq<Key>, entries: seq<Entry>)
    requires keys != []
    ensures Flatten(Streams(keys, entries)) == Select(entries, keys[0]) + Flatten(Streams(keys[1..], entries))
  {
    assert Streams(keys, entries)[1..] == Streams(keys[1..], entries);
  }

  lemma SelectAppend(entries: seq<Entry>, e: Entry, k: Key)
    ensures Select(entries + [e], k) == Select(entries, k) + if KeyOf(e) == k then [e] else []
  {
    assert (entries + [e])[..|entries|] == entries;
  }

  function Once(c: bool, e: Entry): multiset<Entry> {
    if c then multiset{e} else multiset{}
  }

  /** Adding an entry adds it once, to the stream of its key. */
  lemma {:induction false} FlattenAdds(keys: seq<Key>, entries: seq<Entry>, e: Entry)
    requires Distinct(keys)
    ensures multiset(Flatten(Streams(keys, entries + [e]))) ==
            multiset(Flatten(Streams(keys, entries))) + Once(KeyOf(e) in keys, e)
    decreases |keys|
  {
    if keys != [] {
      var k := keys[0];
      DistinctTail(keys);
      FlattenAdds(keys[1..], entries, e);
      FlattenStep(keys, entries);
      FlattenStep(keys, entries + [e]);
      SelectAppend(entries, e, k);
      assert KeyOf(e) in keys <==> KeyOf(e) == k || KeyOf(e) in keys[1..];
    }
  }

  lemma {:induction false} FlattenConcat(a: seq<Stream>, b: seq<Stream>)
    ensures Flatten(a + b) == Flatten(a) + Flatten(b)
  {
    if a == [] {
      assert a + b == b;
    } else {
      assert (a + b)[1..] == a[1..] + b;
      FlattenConcat(a[1..], b);
    }
  }

  /** A key without entries contributes nothing. */
  lemma FlattenNewKey(keys: seq<Key>, entries: seq<Entry>, k: Key)
    requires Select(entries, k) == []
    ensures Flatten(Streams(keys + [k], entries)) == Flatten(Streams(keys, entries))
  {
    assert Streams(keys + [k], entries) == Streams(keys, entries) + [Stream(LabelsOf(k), [])];
    FlattenConcat(Streams(keys, entries), [Stream(LabelsOf(k), [])]);
    assert Flatten([Stream(LabelsOf(k), [])]) == [];
  }

  /** No entry is lost, duplicated or changed: together the streams are a permutation of the batch. */
  lemma {:induction false} StreamsArePermutation(entries: seq<Entry>)
    ensures multiset(Flatten(Streams(FirstSeen(entries), entries))) == multiset(entries)
  {
    if entries == [] {
      assert Streams([], entries) == [];
    } else {
      var n := |entries| - 1;
      var init, e := entries[..n], entries[n];
      assert entries == init + [e];
      var keys := FirstSeen(init);
      StreamsArePermutation(init);
      KeysDistinct(entries);
      FlattenAdds(FirstSeen(entries), init, e);
      if KeyOf(e) !in keys {
        AbsentSelectsNothing(init, KeyOf(e));
        FlattenNewKey(keys, init, KeyOf(e));
      }
    }
  }

  /** The streams of a batch: distinct labels, no empty stream, each holding exactly the entries whose source, job and
      level its labels name, all of them together the batch. */
  lemma GroupingIsStable(entries: seq<Entry>)
    ensures var streams := Streams(FirstSeen(entries), entries);
            && (forall i, j :: 0 <= i < j < |streams| ==> streams[i].labels != streams[j].labels)
            && (forall i :: 0 <= i < |streams| ==> streams[i].values != [])
            && (forall i, e :: 0 <= i < |streams| ==>
                  (e in streams[i].values <==> e in entries && Labelled(e, streams[i].labels)))
            && (forall e :: e in entries ==> exists i :: 0 <= i < |streams| && Labelled(e, streams[i].labels))
            && multiset(Flatten(streams)) == multiset(entries)
  {
    var keys, streams := FirstSeen(entries), Streams(FirstSeen(entries), entries);
    KeysDistinct(entries);
    StreamsArePermutation(entries);
    forall i, j | 0 <= i < j < |streams|
      ensures streams[i].labels != streams[j].labels
    {
      LabelsDiffer(keys[i], keys[j]);
    }
    forall i | 0 <= i < |streams|
      ensures streams[i].values != []
    {
      AbsentSelectsNothing(entries, keys[i]);
    }
    forall i, e | 0 <= i < |streams|
      ensures e in streams[i].values <==> e in entries && Labelled(e, streams[i].labels)
    {
      SelectMembers(entries, keys[i], e);
      LabelledIff(e, keys[i]);
    }
    forall e | e in entries
      ensures exists i :: 0 <= i < |streams| && Labelled(e, streams[i].labels)
    {
      var i := StreamOf(entries, e);
    }
  }

  lemma StreamOf(entries: seq<Entry>, e: Entry) returns (i: nat)
    requires e in entries
    ensures i < |FirstSeen(entries)| && Labelled(e, Streams(FirstSeen(entries), entries)[i].labels)
  {
    SeenInInit(entries, KeyOf(e));
    i :| i < |FirstSeen(entries)| && FirstSeen(entries)[i] == KeyOf(e);
    LabelledIff(e, KeyOf(e));
  }

  lemma LabelsDiffer(k: Key, k': Key)
    requires k != k'
    ensures LabelsOf(k) != LabelsOf(k')
  {
    LabelledIff(Entry("", k.level, k.source, k.job, ""), k');
  }

  lemma {:induction false} SelectMembers(entries: seq<Entry>, k: Key, e: Entry)
    ensures e in Select(entries, k) <==> e in entries && KeyOf(e) == k
  {
    if entries != [] {
      var n := |entries| - 1;
      SelectMembers(entries[..n], k, e);
      assert e in entries <==> e in entries[..n] || e == entries[n];
    }
  }

  /** A stream is a subsequence of the batch: its `m`-th value is the `m`-th entry with its labels. */
  lemma StreamPositions(entries: seq<Entry>, i: nat) returns (at: seq<nat>)
    requires i < |FirstSeen(entries)|
    ensures var stream := Streams(FirstSeen(entries), entries)[i];
            && |at| == |stream.values|
            && (forall m :: 0 <= m < |at| ==> at[m] < |entries| && stream.values[m] == entries[at[m]])
            && (forall m, m' :: 0 <= m < m' < |at| ==> at[m] < at[m'])
            && forall p :: 0 <= p < |entries| ==> (p in at <==> Labelled(entries[p], stream.labels))
  {
    var k := FirstSeen(entries)[i];
    at := SelectPositions(entries, k);
    forall p | 0 <= p < |entries|
      ensures p in at <==> Labelled(entries[p], LabelsOf(k))
    {
      LabelledIff(entries[p], k);
    }
  }

  /** Streams come in the order in which an entry with their labels first appears. */
  lemma StreamOrder(entries: seq<Entry>) returns (at: seq<nat>)
    ensures var streams := Streams(FirstSeen(entries), entries);
            && |at| == |streams|
            && (forall i :: 0 <= i < |at| ==> at[i] < |entries| && Labelled(entries[at[i]], streams[i].labels))
            && (forall i, q :: 0 <= i < |at| && 0 <= q < at[i] ==> !Labelled(entries[q], streams[i].labels))
            && forall i, j :: 0 <= i < j < |at| ==> at[i] < at[j]
  {
    var keys := FirstSeen(entries);
    at := FirstSeenOrder(entries);
    forall i, q | 0 <= i < |at| && 0 <= q <= at[i]
      ensures Labelled(entries[q], LabelsOf(keys[i])) <==> q == at[i]
    {
      LabelledIff(entries[q], keys[i]);
    }
  }

  /** `Select` is the subsequence of the entries with the key: its `m`-th element is the `m`-th such entry. */
  lemma {:induction false} SelectPositions(entries: seq<Entry>, k: Key) returns (at: seq<nat>)
    ensures |at| == |Select(entries, k)|
    ensures forall i :: 0 <= i < |at| ==>
              at[i] < |entries| && Select(entries, k)[i] == entries[at[i]] && KeyOf(entries[at[i]]) == k
    ensures forall i, j :: 0 <= i < j < |at| ==> at[i] < at[j]
    ensures forall p :: 0 <= p < |entries| && KeyOf(entries[p]) == k ==> p in at
  {
    at := [];
    if entries != [] {
      var n := |entries| - 1;
      at := SelectPositions(entries[..n], k);
      if KeyOf(entries[n]) == k {
        at := at + [n];
      }
    }
  }
}
