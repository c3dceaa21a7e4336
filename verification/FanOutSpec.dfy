/**
 What a fan-out does to each session, without the loop
 (crates/GatoMQTT/src/handler/publish.rs, lines 114-192 and 265-355).
 */
module FanOutSpec {
  import opened Basics
  import opened Sessions
  import opened PublishStore
  import opened Topics
  import opened FanOut

  function Effective(m: Message, t: Target): QoS {
    MinQos(m.qos, t.qos)
  }

  /** The number of leading targets whose frame encodes. */
  function Reach(ts: seq<Target>, m: Message): (n: nat)
    ensures n <= |ts|
    ensures n < |ts| ==> !Encodes(m.topic, m.payload, Effective(m, ts[n]))
    ensures forall j :: 0 <= j < n ==> Encodes(m.topic, m.payload, Effective(m, ts[j]))
  {
    if ts == [] || !Encodes(m.topic, m.payload, Effective(m, ts[0])) then 0 else 1 + Reach(ts[1..], m)
  }

  /** The deliveries among the first `n` targets that ask to be tracked. */
  function Wanting(r: Registry, ts: seq<Target>, m: Message, n: nat): nat
    requires n <= |ts| && Targets(r.slots, ts)
  {
    if n == 0 then 0
    else
      Wanting(r, ts, m, n - 1) +
      if Trackable(r.slots[ts[n - 1].id].value, Effective(m, ts[n - 1]), |r.store|) then 1 else 0
  }

  /** The handle every tracked delivery of this publish will carry. */
  function Ticket(r: Registry, m: Message): Option<Handle> {
    if Room(r, m) then Some(Handle(FirstEmpty(r.store), r.nextGeneration)) else None
  }

  /** Tracked: queued at QoS 1, room in the inflight list, room in the store, count not saturated. */
  predicate Tracked(r: Registry, ts: seq<Target>, m: Message, j: nat)
    requires j < |ts| && Targets(r.slots, ts)
  {
    && Trackable(r.slots[ts[j].id].value, Effective(m, ts[j]), |r.store|)
    && Room(r, m)
    && Wanting(r, ts, m, j) < REFCOUNT_MAX
  }

  function ReceiverAfter(r: Registry, ts: seq<Target>, m: Message, now: nat, maxDrops: nat, j: nat): Session
    requires j < |ts| && Targets(r.slots, ts)
  {
    var s := r.slots[ts[j].id].value;
    var q := Effective(m, ts[j]);
    var s' := Enqueue(s, m, q, maxDrops);
    if Tracked(r, ts, m, j) then WithDelivery(s', PidFor(s, q), Ticket(r, m).value, now) else s'
  }

  function StoreAfter(r: Registry, m: Message, wanting: nat): Store {
    if wanting == 0 || !Room(r, m) then r.store
    else r.store[FirstEmpty(r.store) :=
                   Some(Stored(m.topic, m.payload, m.retain, r.nextGeneration, Min(wanting, REFCOUNT_MAX)))]
  }

  function Burn(g: nat, n: nat): nat {
    if n == 0 then g else NextGeneration(Burn(g, n - 1))
  }

  /** One generation per stored publish; one per attempt for a publish too large to store. */
  function GenerationAfter(r: Registry, m: Message, wanting: nat): nat {
    if FirstEmpty(r.store) == |r.store| || wanting == 0 then r.nextGeneration
    else if Fits(m.topic, m.payload) then NextGeneration(r.nextGeneration)
    else Burn(r.nextGeneration, wanting)
  }

  ghost predicate SlotsAfter(r: Registry, slots: Slots, ts: seq<Target>, m: Message, now: nat, maxDrops: nat, n: nat)
    requires n <= |ts| && Targets(r.slots, ts)
  {
    && |slots| == |r.slots|
    && (forall j :: 0 <= j < n ==> slots[ts[j].id] == Some(ReceiverAfter(r, ts, m, now, maxDrops, j)))
    && (forall i :: 0 <= i < |slots| && (forall j :: 0 <= j < n ==> ts[j].id != i) ==> slots[i] == r.slots[i])
  }

  ghost predicate SignalsAfter(r: Registry, before: seq<bool>, signals: seq<bool>, ts: seq<Target>, n: nat)
    requires n <= |ts| && Targets(r.slots, ts) && |before| == |r.slots|
  {
    && |signals| == |before|
    && (forall i :: 0 <= i < |signals| ==>
          (signals[i] <==> before[i] || exists j :: 0 <= j < n && ts[j].id == i && |r.slots[i].value.outbox| < MAX_OUTBOX))
  }

  ghost predicate SharedAfter(r: Registry, g: Fan, m: Message, wanting: nat) {
    && g.shared == (if wanting == 0 then None else Ticket(r, m))
    && g.reg.store == StoreAfter(r, m, wanting)
    && g.reg.nextGeneration == GenerationAfter(r, m, wanting)
    && g.reg.lwts == r.lwts
  }

  /** The state after the first `n` targets, all of which encoded. */
  ghost predicate Routed(r: Registry, before: seq<bool>, g: Fan, ts: seq<Target>, m: Message, now: nat,
      maxDrops: nat, n: nat)
    requires n <= |ts| && Targets(r.slots, ts) && |before| == |r.slots|
  {
    && g.ok
    && SlotsAfter(r, g.reg.slots, ts, m, now, maxDrops, n)
    && SignalsAfter(r, before, g.signals, ts, n)
    && SharedAfter(r, g, m, Wanting(r, ts, m, n))
  }

  /** One more reference to the shared copy, wherever the slots have moved meanwhile. */
  lemma {:induction false} ShareExact(r: Registry, g: Fan, m: Message, wanting: nat)
    requires SharedAfter(r, g, m, wanting)
    ensures var (g', h) := Share(g, m);
            && SharedAfter(r, g', m, wanting + 1)
            && g'.reg.slots == g.reg.slots && g'.signals == g.signals && g'.ok == g.ok
            && h == (if Room(r, m) && wanting < REFCOUNT_MAX then Ticket(r, m) else None)
  {
    assert Burn(r.nextGeneration, wanting + 1) == NextGeneration(Burn(r.nextGeneration, wanting));
    if wanting > 0 && Room(r, m) {
      var p := FirstEmpty(r.store);
      assert g.reg.store[p].value.refcount == Min(wanting, REFCOUNT_MAX);
      if wanting < REFCOUNT_MAX {
        assert Acquire(g.reg.store, g.shared.value) == StoreAfter(r, m, wanting + 1);
      }
    } else if wanting > 0 {
      assert g.shared.None?;
    }
  }

  lemma {:induction false} SlotsExtend(r: Registry, slots: Slots, slots': Slots, ts: seq<Target>, m: Message,
      now: nat, maxDrops: nat, n: nat)
    requires n < |ts| && Targets(r.slots, ts)
    requires SlotsAfter(r, slots, ts, m, now, maxDrops, n)
    requires slots' == slots[ts[n].id := Some(ReceiverAfter(r, ts, m, now, maxDrops, n))]
    ensures SlotsAfter(r, slots', ts, m, now, maxDrops, n + 1)
  {
    forall i | 0 <= i < |slots'| && (forall j :: 0 <= j < n + 1 ==> ts[j].id != i)
      ensures slots'[i] == r.slots[i]
    {
      assert ts[n].id != i;
      assert forall j :: 0 <= j < n ==> ts[j].id != i;
    }
  }

  lemma {:induction false} SignalsExtend(r: Registry, before: seq<bool>, signals: seq<bool>, ts: seq<Target>, n: nat)
    requires n < |ts| && Targets(r.slots, ts) && |before| == |r.slots|
    requires SignalsAfter(r, before, signals, ts, n)
    ensures var id := ts[n].id;
            SignalsAfter(r, before,
                         if |r.slots[id].value.outbox| < MAX_OUTBOX then signals[id := true] else signals, ts, n + 1)
  {
    var id := ts[n].id;
    var signals' := if |r.slots[id].value.outbox| < MAX_OUTBOX then signals[id := true] else signals;
    forall i | 0 <= i < |signals'|
      ensures signals'[i] <==> (before[i] || exists j :: 0 <= j < n + 1 && ts[j].id == i && |r.slots[i].value.outbox| < MAX_OUTBOX)
    {
      if i == id {
        if |r.slots[id].value.outbox| < MAX_OUTBOX { assert ts[n].id == i; }
      } else if exists j :: 0 <= j < n + 1 && ts[j].id == i && |r.slots[i].value.outbox| < MAX_OUTBOX {
        var j :| 0 <= j < n + 1 && ts[j].id == i && |r.slots[i].value.outbox| < MAX_OUTBOX;
        assert j < n;
      }
    }
  }

  /** One iteration, as far as the target's slot, its signal and the shared copy are concerned. */
  lemma {:induction false} DeliverOneExact(r: Registry, g: Fan, t: Target, s: Session, m: Message, now: nat,
      maxDrops: nat, wanting: nat)
    requires t.id < |g.reg.slots| == |g.signals| && g.reg.slots[t.id] == Some(s)
    requires SharedAfter(r, g, m, wanting)
    requires Encodes(m.topic, m.payload, Effective(m, t))
    ensures var g' := DeliverOne(g, t, m, now, maxDrops);
            var q := Effective(m, t);
            var want := Trackable(s, q, |r.store|);
            && g'.ok == g.ok
            && g'.signals == (if |s.outbox| < MAX_OUTBOX then g.signals[t.id := true] else g.signals)
            && SharedAfter(r, g', m, if want then wanting + 1 else wanting)
            && g'.reg.slots == g.reg.slots[t.id := Some(
                 if want && Room(r, m) && wanting < REFCOUNT_MAX
                 then WithDelivery(Enqueue(s, m, q, maxDrops), PidFor(s, q), Ticket(r, m).value, now)
                 else Enqueue(s, m, q, maxDrops))]
  {
    var q := Effective(m, t);
    assert |g.reg.store| == |r.store|;
    var g1 := g.(reg := PutSession(g.reg, t.id, Enqueue(s, m, q, maxDrops)),
                 signals := if |s.outbox| < MAX_OUTBOX then g.signals[t.id := true] else g.signals);
    if Trackable(s, q, |r.store|) { ShareExact(r, g1, m, wanting); }
  }

  lemma {:induction false} RouteStep(r: Registry, before: seq<bool>, g: Fan, ts: seq<Target>, m: Message, now: nat,
      maxDrops: nat, n: nat)
    requires n < |ts| && Targets(r.slots, ts) && |before| == |r.slots|
    requires Routed(r, before, g, ts, m, now, maxDrops, n)
    requires Encodes(m.topic, m.payload, Effective(m, ts[n]))
    ensures Routed(r, before, DeliverOne(g, ts[n], m, now, maxDrops), ts, m, now, maxDrops, n + 1)
  {
    DeliverNext(r, before, g, ts, m, now, maxDrops, n);
    SignalsExtend(r, before, g.signals, ts, n);
    SlotsExtend(r, g.reg.slots, DeliverOne(g, ts[n], m, now, maxDrops).reg.slots, ts, m, now, maxDrops, n);
  }

  lemma {:induction false} DeliverNext(r: Registry, before: seq<bool>, g: Fan, ts: seq<Target>, m: Message,
      now: nat, maxDrops: nat, n: nat)
    requires n < |ts| && Targets(r.slots, ts) && |before| == |r.slots|
    requires Routed(r, before, g, ts, m, now, maxDrops, n)
    requires Encodes(m.topic, m.payload, Effective(m, ts[n]))
    ensures var g' := DeliverOne(g, ts[n], m, now, maxDrops);
            var id := ts[n].id;
            && g'.ok && SharedAfter(r, g', m, Wanting(r, ts, m, n + 1))
            && g'.signals == (if |r.slots[id].value.outbox| < MAX_OUTBOX then g.signals[id := true] else g.signals)
            && g'.reg.slots == g.reg.slots[id := Some(ReceiverAfter(r, ts, m, now, maxDrops, n))]
  {
    var id := ts[n].id;
    assert g.reg.slots[id] == r.slots[id];
    DeliverOneExact(r, g, ts[n], r.slots[id].value, m, now, maxDrops, Wanting(r, ts, m, n));
  }

  lemma {:induction false} RouteNext(f: Fan, ts: seq<Target>, n: nat, m: Message, now: nat, maxDrops: nat)
    requires 0 < n <= |ts| && Route(f, ts, n - 1, m, now, maxDrops).ok
    ensures Route(f, ts, n, m, now, maxDrops) == DeliverOne(Route(f, ts, n - 1, m, now, maxDrops), ts[n - 1], m, now, maxDrops)
  {
  }

  lemma {:induction false} RoutePrefix(r: Registry, before: seq<bool>, ts: seq<Target>, m: Message, now: nat,
      maxDrops: nat, n: nat)
    requires n <= Reach(ts, m) && Targets(r.slots, ts) && |before| == |r.slots|
    ensures Routed(r, before, Route(Fan(r, before, None, true), ts, n, m, now, maxDrops), ts, m, now, maxDrops, n)
  {
    if n > 0 {
      RoutePrefix(r, before, ts, m, now, maxDrops, n - 1);
      var g := Route(Fan(r, before, None, true), ts, n - 1, m, now, maxDrops);
      assert Encodes(m.topic, m.payload, Effective(m, ts[n - 1]));
      RouteStep(r, before, g, ts, m, now, maxDrops, n - 1);
      RouteNext(Fan(r, before, None, true), ts, n, m, now, maxDrops);
    }
  }

  lemma {:induction false} RouteStuck(f: Fan, ts: seq<Target>, k: nat, n: nat, m: Message, now: nat, maxDrops: nat)
    requires k <= n <= |ts| && !Route(f, ts, k, m, now, maxDrops).ok
    ensures Route(f, ts, n, m, now, maxDrops) == Route(f, ts, k, m, now, maxDrops)
  {
    if k < n { RouteStuck(f, ts, k, n - 1, m, now, maxDrops); }
  }

  /** A frame that does not encode costs its receiver a packet id and ends the fan-out. */
  lemma {:induction false} RouteWhole(r: Registry, before: seq<bool>, ts: seq<Target>, m: Message, now: nat,
      maxDrops: nat)
    requires Targets(r.slots, ts) && |before| == |r.slots|
    ensures var k := Reach(ts, m);
            var f := Fan(r, before, None, true);
            var g := Route(f, ts, k, m, now, maxDrops);
            && Routed(r, before, g, ts, m, now, maxDrops, k)
            && Route(f, ts, |ts|, m, now, maxDrops) ==
               (if k == |ts| then g
                else g.(reg := PutSession(g.reg, ts[k].id, Addressed(r.slots[ts[k].id].value, Effective(m, ts[k]))),
                        ok := false))
  {
    var k := Reach(ts, m);
    var f := Fan(r, before, None, true);
    RoutePrefix(r, before, ts, m, now, maxDrops, k);
    if k < |ts| {
      var g := Route(f, ts, k, m, now, maxDrops);
      assert g.reg.slots[ts[k].id] == r.slots[ts[k].id];
      RouteStuck(f, ts, k + 1, |ts|, m, now, maxDrops);
    }
  }

  /** The complete fan-out of a publish. */
  function Deliver(r: Registry, before: seq<bool>, skip: Option<nat>, m: Message, now: nat, maxDrops: nat): Fan {
    var ts := Subscribers(r.slots, m.topic, skip, |r.slots|);
    Route(Fan(r, before, None, true), ts, |ts|, m, now, maxDrops)
  }

  /** What happened to the j-th target, in the slot it occupies. */
  ghost predicate TargetServed(r: Registry, before: seq<bool>, g: Fan, ts: seq<Target>, m: Message, now: nat,
      maxDrops: nat, j: nat)
    requires j < |ts| && Targets(r.slots, ts) && |before| == |r.slots|
    requires |g.reg.slots| == |g.signals| == |r.slots|
  {
    var i, k := ts[j].id, Reach(ts, m);
    var s := r.slots[i].value;
    if j < k then
      && g.reg.slots[i] == Some(ReceiverAfter(r, ts, m, now, maxDrops, j))
      && g.signals[i] == (before[i] || |s.outbox| < MAX_OUTBOX)
    else
      && g.reg.slots[i] == Some(if j == k then Addressed(s, Effective(m, ts[j])) else s)
      && g.signals[i] == before[i]
  }

  lemma {:induction false} TargetsServed(r: Registry, before: seq<bool>, ts: seq<Target>, m: Message, now: nat,
      maxDrops: nat, j: nat)
    requires j < |ts| && Targets(r.slots, ts) && |before| == |r.slots|
    ensures var g := Route(Fan(r, before, None, true), ts, |ts|, m, now, maxDrops);
            && |g.reg.slots| == |g.signals| == |r.slots|
            && TargetServed(r, before, g, ts, m, now, maxDrops, j)
  {
    var i, k := ts[j].id, Reach(ts, m);
    RouteWhole(r, before, ts, m, now, maxDrops);
    if j < k {
      assert ts[j].id == i;
    } else {
      assert forall x :: 0 <= x < k ==> ts[x].id != i;
    }
  }

  lemma {:induction false} OthersUntouched(r: Registry, before: seq<bool>, ts: seq<Target>, m: Message, now: nat,
      maxDrops: nat, i: nat)
    requires i < |r.slots| && Targets(r.slots, ts) && |before| == |r.slots|
    requires forall j :: 0 <= j < |ts| ==> ts[j].id != i
    ensures var g := Route(Fan(r, before, None, true), ts, |ts|, m, now, maxDrops);
            && |g.reg.slots| == |g.signals| == |r.slots|
            && g.reg.slots[i] == r.slots[i] && g.signals[i] == before[i]
  {
    RouteWhole(r, before, ts, m, now, maxDrops);
  }

  /**
   What the fan-out does to slot `i`. A session that does not subscribe, an empty slot and the
   skipped sender are untouched. A subscriber is one of the targets. Before the first frame that
   does not encode a target gets exactly the specified delivery; at that frame only a packet id is
   drawn; after it nothing happens.
   */
  lemma {:induction false} FanOutPerSession(r: Registry, before: seq<bool>, skip: Option<nat>, m: Message, now: nat,
      maxDrops: nat, i: nat)
    requires |before| == |r.slots| && i < |r.slots|
    ensures var ts := Subscribers(r.slots, m.topic, skip, |r.slots|);
            var g := Deliver(r, before, skip, m, now, maxDrops);
            var q := Recipient(r.slots, m.topic, skip, i);
            && Targets(r.slots, ts) && |g.reg.slots| == |g.signals| == |r.slots|
            && (q.None? ==> g.reg.slots[i] == r.slots[i] && g.signals[i] == before[i])
            && (q.Some? ==> exists j :: 0 <= j < |ts| && ts[j] == Target(i, q.value) &&
                                        TargetServed(r, before, g, ts, m, now, maxDrops, j))
  {
    var ts := Subscribers(r.slots, m.topic, skip, |r.slots|);
    SubscribersExact(r.slots, m.topic, skip, |r.slots|);
    var q := Recipient(r.slots, m.topic, skip, i);
    if q.Some? {
      var j :| 0 <= j < |ts| && ts[j].id == i;
      assert ts[j] == Target(i, q.value);
      TargetsServed(r, before, ts, m, now, maxDrops, j);
    } else {
      OthersUntouched(r, before, ts, m, now, maxDrops, i);
    }
  }

  /** What the fan-out does to everything that is not a session. */
  lemma {:induction false} FanOutShared(r: Registry, before: seq<bool>, skip: Option<nat>, m: Message, now: nat,
      maxDrops: nat)
    requires |before| == |r.slots|
    ensures var ts := Subscribers(r.slots, m.topic, skip, |r.slots|);
            var k := Reach(ts, m);
            var g := Deliver(r, before, skip, m, now, maxDrops);
            && Targets(r.slots, ts)
            && (g.ok <==> forall j :: 0 <= j < |ts| ==> Encodes(m.topic, m.payload, Effective(m, ts[j])))
            && g.reg.store == StoreAfter(r, m, Wanting(r, ts, m, k))
            && g.reg.nextGeneration == GenerationAfter(r, m, Wanting(r, ts, m, k))
            && g.reg.lwts == r.lwts
  {
    var ts := Subscribers(r.slots, m.topic, skip, |r.slots|);
    SubscribersExact(r.slots, m.topic, skip, |r.slots|);
    RouteWhole(r, before, ts, m, now, maxDrops);
  }

  lemma {:induction false} WantingBound(r: Registry, ts: seq<Target>, m: Message, n: nat)
    requires n <= |ts| && Targets(r.slots, ts)
    ensures Wanting(r, ts, m, n) <= n
  {
    if n > 0 { WantingBound(r, ts, m, n - 1); }
  }

  lemma {:induction false} TargetPosition(slots: Slots, ts: seq<Target>, j: nat)
    requires Targets(slots, ts) && j < |ts|
    ensures j <= ts[j].id
  {
    if j > 0 {
      TargetPosition(slots, ts, j - 1);
      assert ts[j - 1].id < ts[j].id;
    }
  }

  /**
   The delivery contract when every frame encodes: one packet at the lower of the two QoS levels, or
   one counted drop if the outbox is full; an inflight entry exactly when a QoS 1 packet was queued
   and both the inflight list and the publish store had room; nothing else about the session changes.
   */
  lemma {:induction false} DeliveryContract(r: Registry, before: seq<bool>, skip: Option<nat>, m: Message, now: nat,
      maxDrops: nat, i: nat)
    requires |before| == |r.slots| <= REFCOUNT_MAX && i < |r.slots| && r.slots[i].Some? && skip != Some(i)
    requires Deliver(r, before, skip, m, now, maxDrops).ok
    ensures var g := Deliver(r, before, skip, m, now, maxDrops);
            var s := r.slots[i].value;
            var best := MatchQos(s.subscriptions, m.topic);
            && IsBestMatch(s.subscriptions, m.topic, best)
            && |g.reg.slots| == |g.signals| == |r.slots| && g.reg.slots[i].Some?
            && var s' := g.reg.slots[i].value;
               if best.None? then s' == s
               else
                 var q := MinQos(m.qos, best.value);
                 var pid := PidFor(s, q);
                 var queued := |s.outbox| < MAX_OUTBOX;
                 var tracked := queued && q == AtLeastOnce && |s.inflight| < |r.store| && Room(r, m);
                 && (queued ==> g.signals[i])
                 && s' == s.(lastPid := if q == AtMostOnce then s.lastPid else pid,
                             outbox := if queued then s.outbox + [Packet(q, pid, m.retain, m.topic, m.payload)] else s.outbox,
                             drops := if queued then s.drops else Min(s.drops + 1, 255),
                             quarantined := s.quarantined || (!queued && Min(s.drops + 1, 255) >= maxDrops),
                             inflight := if tracked then s.inflight + [Inflight(pid, Ticket(r, m).value, now, 0)] else s.inflight)
  {
    MatchQosIsBest(r.slots[i].value.subscriptions, m.topic);
    FanOutPerSession(r, before, skip, m, now, maxDrops, i);
    FanOutShared(r, before, skip, m, now, maxDrops);
    var ts := Subscribers(r.slots, m.topic, skip, |r.slots|);
    var q := Recipient(r.slots, m.topic, skip, i);
    if q.Some? {
      var j :| 0 <= j < |ts| && ts[j] == Target(i, q.value) &&
               TargetServed(r, before, Deliver(r, before, skip, m, now, maxDrops), ts, m, now, maxDrops, j);
      assert j < Reach(ts, m);
      WantingBound(r, ts, m, j);
      TargetPosition(r.slots, ts, j);
      ReceiverContract(r, ts, m, now, maxDrops, j);
    }
  }

  lemma {:induction false} ReceiverContract(r: Registry, ts: seq<Target>, m: Message, now: nat, maxDrops: nat, j: nat)
    requires j < |ts| && Targets(r.slots, ts) && Wanting(r, ts, m, j) < REFCOUNT_MAX
    ensures var s := r.slots[ts[j].id].value;
            var q := Effective(m, ts[j]);
            var pid := PidFor(s, q);
            var queued := |s.outbox| < MAX_OUTBOX;
            var tracked := queued && q == AtLeastOnce && |s.inflight| < |r.store| && Room(r, m);
            ReceiverAfter(r, ts, m, now, maxDrops, j) ==
              s.(lastPid := if q == AtMostOnce then s.lastPid else pid,
                 outbox := if queued then s.outbox + [Packet(q, pid, m.retain, m.topic, m.payload)] else s.outbox,
                 drops := if queued then s.drops else Min(s.drops + 1, 255),
                 quarantined := s.quarantined || (!queued && Min(s.drops + 1, 255) >= maxDrops),
                 inflight := if tracked then s.inflight + [Inflight(pid, Ticket(r, m).value, now, 0)] else s.inflight)
  {
  }
}
