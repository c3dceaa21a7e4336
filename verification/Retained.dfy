/** The bounded store of retained messages (crates/GatoMQTT/src/router/retained.rs). */
module Retained {
  import opened Basics
  import opened Sessions
  import opened Topics
  import opened BoundedMap

  datatype RetainedEntry = RetainedEntry(topic: string, payload: Bytes, qos: QoS)

  datatype SetResult = SetOk | TopicTooLong | PayloadTooLarge | StoreFull

  datatype Write = Write(topic: string, payload: Bytes, qos: QoS)

  /** Index of the entry for `topic`, or the number of entries. */
  function IndexOf(es: seq<RetainedEntry>, topic: string): nat {
    FirstWhere(es, (e: RetainedEntry) => e.topic == topic)
  }

  /** The entries and the result after one `set`. */
  function SetEntry(es: seq<RetainedEntry>, cap: nat, w: Write): (seq<RetainedEntry>, SetResult) {
    if |w.topic| > TOPIC_CAP then (es, TopicTooLong)
    else
      var i := IndexOf(es, w.topic);
      if i < |es| then
        if w.payload == [] then (es[..i] + es[i + 1..], SetOk)
        else if |w.payload| > PAYLOAD_CAP then (es, PayloadTooLarge)
        else (es[i := RetainedEntry(w.topic, w.payload, w.qos)], SetOk)
      else if w.payload == [] then (es, SetOk)
      else if |w.payload| > PAYLOAD_CAP then (es, PayloadTooLarge)
      else if |es| >= cap then (es, StoreFull)
      else (es + [RetainedEntry(w.topic, w.payload, w.qos)], SetOk)
  }

  class RetainedStore {
    const capacity: nat
    var entries: seq<RetainedEntry>

    constructor (capacity: nat)
      ensures this.capacity == capacity && entries == []
    {
      this.capacity := capacity;
      entries := [];
    }

    method Position(topic: string) returns (i: nat)
      ensures i == IndexOf(entries, topic)
    {
      i := 0;
      while i < |entries| && entries[i].topic != topic
        invariant i <= |entries|
        invariant forall k :: 0 <= k < i ==> entries[k].topic != topic
      {
        i := i + 1;
      }
    }

    method Set(topic: string, payload: Bytes, qos: QoS) returns (result: SetResult)
      modifies this
      ensures (entries, result) == SetEntry(old(entries), capacity, Write(topic, payload, qos))
    {
      if |topic| > TOPIC_CAP { return TopicTooLong; }
      var i := Position(topic);
      if i < |entries| {
        if payload == [] {
          entries := entries[..i] + entries[i + 1..];
          return SetOk;
        }
        if |payload| > PAYLOAD_CAP { return PayloadTooLarge; }
        entries := entries[i := RetainedEntry(topic, payload, qos)];
        return SetOk;
      }
      if payload == [] { return SetOk; }
      if |payload| > PAYLOAD_CAP { return PayloadTooLarge; }
      if |entries| >= capacity { return StoreFull; }
      entries := entries + [RetainedEntry(topic, payload, qos)];
      return SetOk;
    }
  }

  /** `matching`: the entries a filter selects, in store order. */
  function Matching(es: seq<RetainedEntry>, filter: string): seq<RetainedEntry> {
    if es == [] then []
    else
      var init := Matching(es[..|es| - 1], filter);
      if Matches(filter, es[|es| - 1].topic) then init + [es[|es| - 1]] else init
  }

  // -- refinement of a bounded map ----------------------------------------------

  datatype Kept = Kept(payload: Bytes, qos: QoS)

  type View = map<string, Kept>

  ghost function Pairs(es: seq<RetainedEntry>): seq<Pair<string, Kept>> {
    seq(|es|, i requires 0 <= i < |es| => Pair(es[i].topic, Kept(es[i].payload, es[i].qos)))
  }

  ghost predicate Represents(es: seq<RetainedEntry>, m: View) {
    Unique(Pairs(es)) && AsMap(Pairs(es)) == m
  }

  ghost predicate Bounded(m: View, cap: nat) {
    |m| <= cap && forall t :: t in m ==> |t| <= TOPIC_CAP && 0 < |m[t].payload| <= PAYLOAD_CAP
  }

  /** The map-level meaning of a write. */
  ghost function SetSpec(m: View, cap: nat, w: Write): (View, SetResult) {
    if |w.topic| > TOPIC_CAP then (m, TopicTooLong)
    else if w.payload == [] then (m - {w.topic}, SetOk)
    else if |w.payload| > PAYLOAD_CAP then (m, PayloadTooLarge)
    else if w.topic !in m && |m| >= cap then (m, StoreFull)
    else (m[w.topic := Kept(w.payload, w.qos)], SetOk)
  }

  lemma {:induction false} IndexOfKey(es: seq<RetainedEntry>, topic: string)
    ensures topic in AsMap(Pairs(es)) <==> IndexOf(es, topic) < |es|
  {
    KeyOfMap(Pairs(es), topic);
    var i := IndexOf(es, topic);
    if i < |es| { assert Pairs(es)[i].key == topic; }
    if j :| 0 <= j < |es| && Pairs(es)[j].key == topic { assert es[j].topic == topic; }
  }

  lemma {:induction false} KnownTopicRefines(es: seq<RetainedEntry>, cap: nat, w: Write)
    requires Unique(Pairs(es)) && IndexOf(es, w.topic) < |es|
    ensures SetEntry(es, cap, w).1 == SetSpec(AsMap(Pairs(es)), cap, w).1
    ensures Represents(SetEntry(es, cap, w).0, SetSpec(AsMap(Pairs(es)), cap, w).0)
  {
    IndexOfKey(es, w.topic);
    var i, ps := IndexOf(es, w.topic), Pairs(es);
    if w.payload == [] {
      RemoveIsDelete(ps, i);
      var es' := es[..i] + es[i + 1..];
      assert Pairs(es') == ps[..i] + ps[i + 1..] by {
        forall k | 0 <= k < |es'| ensures Pairs(es')[k] == (ps[..i] + ps[i + 1..])[k] {
          assert es'[k] == if k < i then es[k] else es[k + 1];
        }
      }
    } else {
      var v := Kept(w.payload, w.qos);
      ReplaceIsUpdate(ps, i, v);
      assert Pairs(es[i := RetainedEntry(w.topic, w.payload, w.qos)]) == ps[i := Pair(w.topic, v)];
    }
  }

  lemma {:induction false} NewTopicRefines(es: seq<RetainedEntry>, cap: nat, w: Write)
    requires Unique(Pairs(es)) && IndexOf(es, w.topic) == |es|
    ensures SetEntry(es, cap, w).1 == SetSpec(AsMap(Pairs(es)), cap, w).1
    ensures Represents(SetEntry(es, cap, w).0, SetSpec(AsMap(Pairs(es)), cap, w).0)
  {
    IndexOfKey(es, w.topic);
    Size(Pairs(es));
    var ps := Pairs(es);
    assert AsMap(ps) - {w.topic} == AsMap(ps);
    AppendIsInsert(ps, Pair(w.topic, Kept(w.payload, w.qos)));
    assert Pairs(es + [RetainedEntry(w.topic, w.payload, w.qos)]) == ps + [Pair(w.topic, Kept(w.payload, w.qos))];
  }

  /** One write refines one map update, with the same result. */
  lemma {:induction false} SetRefines(es: seq<RetainedEntry>, m: View, cap: nat, w: Write)
    requires Represents(es, m)
    ensures SetEntry(es, cap, w).1 == SetSpec(m, cap, w).1
    ensures Represents(SetEntry(es, cap, w).0, SetSpec(m, cap, w).0)
  {
    if IndexOf(es, w.topic) < |es| { KnownTopicRefines(es, cap, w); } else { NewTopicRefines(es, cap, w); }
  }

  lemma {:induction false} SetSpecBounded(m: View, cap: nat, w: Write)
    requires Bounded(m, cap)
    ensures Bounded(SetSpec(m, cap, w).0, cap)
  {
    var m' := m[w.topic := Kept(w.payload, w.qos)];
    assert (m - {w.topic}).Keys == m.Keys - {w.topic};
    assert m'.Keys == m.Keys + {w.topic};
    if w.topic in m { assert m'.Keys == m.Keys; }
  }

  function Run(es: seq<RetainedEntry>, cap: nat, ws: seq<Write>): (seq<RetainedEntry>, seq<SetResult>)
    decreases |ws|
  {
    if ws == [] then (es, [])
    else
      var (es', r) := SetEntry(es, cap, ws[0]);
      var (es'', rs) := Run(es', cap, ws[1..]);
      (es'', [r] + rs)
  }

  ghost function RunSpec(m: View, cap: nat, ws: seq<Write>): (View, seq<SetResult>)
    decreases |ws|
  {
    if ws == [] then (m, [])
    else
      var (m', r) := SetSpec(m, cap, ws[0]);
      var (m'', rs) := RunSpec(m', cap, ws[1..]);
      (m'', [r] + rs)
  }

  /** Every run of writes, errors included, is a run of the bounded map. */
  lemma {:induction false} RunRefines(es: seq<RetainedEntry>, m: View, cap: nat, ws: seq<Write>)
    requires Represents(es, m) && Bounded(m, cap)
    ensures Run(es, cap, ws).1 == RunSpec(m, cap, ws).1
    ensures Represents(Run(es, cap, ws).0, RunSpec(m, cap, ws).0)
    ensures Bounded(RunSpec(m, cap, ws).0, cap)
    decreases |ws|
  {
    if ws != [] {
      SetRefines(es, m, cap, ws[0]);
      SetSpecBounded(m, cap, ws[0]);
      RunRefines(SetEntry(es, cap, ws[0]).0, SetSpec(m, cap, ws[0]).0, cap, ws[1..]);
    }
  }

  /** `matching` returns exactly the matching entries, once each. */
  lemma {:induction false} MatchingExact(es: seq<RetainedEntry>, filter: string, e: RetainedEntry)
    ensures multiset(Matching(es, filter))[e] == if Matches(filter, e.topic) then multiset(es)[e] else 0
    ensures |Matching(es, filter)| <= |es|
    decreases |es|
  {
    if es != [] {
      var n := |es| - 1;
      MatchingExact(es[..n], filter, e);
      assert es == es[..n] + [es[n]];
      assert multiset(es) == multiset(es[..n]) + multiset{es[n]};
    }
  }
}
