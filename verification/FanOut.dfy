/**
 Routing a publish to its subscribers (crates/GatoMQTT/src/router/dispatcher.rs,
 crates/GatoMQTT/src/handler/publish.rs).
 */
module FanOut {
  import opened Basics
  import opened Sessions
  import opened PublishStore
  import opened Topics

  // -- who receives, and at which QoS ------------------------------------------

  /** The accumulator of the subscription loop. */
  function MatchQos(subs: seq<Subscription>, topic: string): Option<QoS> {
    if subs == [] then None
    else
      var init := MatchQos(subs[..|subs| - 1], topic);
      var s := subs[|subs| - 1];
      if !Matches(s.filter, topic) then init
      else if init.None? then Some(s.qos)
      else Some(MaxQos(init.value, s.qos))
  }

  /** `q` is the highest QoS among the filters that match, if any does. */
  predicate IsBestMatch(subs: seq<Subscription>, topic: string, q: Option<QoS>) {
    && (forall i :: 0 <= i < |subs| && Matches(subs[i].filter, topic) ==>
          q.Some? && Rank(subs[i].qos) <= Rank(q.value))
    && (q.Some? ==> exists i :: 0 <= i < |subs| && Matches(subs[i].filter, topic) && subs[i].qos == q.value)
  }

  lemma {:induction false} MatchQosIsBest(subs: seq<Subscription>, topic: string)
    ensures IsBestMatch(subs, topic, MatchQos(subs, topic))
    decreases |subs|
  {
    if subs != [] {
      var n := |subs| - 1;
      MatchQosIsBest(subs[..n], topic);
      var init := MatchQos(subs[..n], topic);
      if init.Some? {
        var i :| 0 <= i < n && Matches(subs[..n][i].filter, topic) && subs[..n][i].qos == init.value;
        assert subs[i] == subs[..n][i];
      }
      forall i | 0 <= i < |subs| && Matches(subs[i].filter, topic)
        ensures MatchQos(subs, topic).Some? && Rank(subs[i].qos) <= Rank(MatchQos(subs, topic).value)
      {
        if i < n { assert subs[i] == subs[..n][i]; }
      }
    }
  }

  lemma {:induction false} BestMatchUnique(subs: seq<Subscription>, topic: string, a: Option<QoS>, b: Option<QoS>)
    requires IsBestMatch(subs, topic, a) && IsBestMatch(subs, topic, b)
    ensures a == b
  {
    if a.Some? {
      var i :| 0 <= i < |subs| && Matches(subs[i].filter, topic) && subs[i].qos == a.value;
      var j :| 0 <= j < |subs| && Matches(subs[j].filter, topic) && subs[j].qos == b.value;
      assert Rank(a.value) == Rank(b.value);
    }
  }

  /** The QoS at which slot `i` subscribes to `topic`; None for an empty, skipped or unmatched slot. */
  function Recipient(slots: Slots, topic: string, skip: Option<nat>, i: nat): Option<QoS>
    requires i < |slots|
  {
    if slots[i].None? || skip == Some(i) then None
    else MatchQos(slots[i].value.subscriptions, topic)
  }

  datatype Target = Target(id: nat, qos: QoS)

  /** find_subscribers (skip = sender) and find_all_subscribers (skip = None), up to slot `n`. */
  function Subscribers(slots: Slots, topic: string, skip: Option<nat>, n: nat): seq<Target>
    requires n <= |slots|
  {
    if n == 0 then []
    else
      var init := Subscribers(slots, topic, skip, n - 1);
      var q := Recipient(slots, topic, skip, n - 1);
      if q.None? then init else init + [Target(n - 1, q.value)]
  }

  /** A target list over these slots: ids in range, occupied, strictly increasing. */
  predicate Targets(slots: Slots, ts: seq<Target>) {
    && (forall j :: 0 <= j < |ts| ==> ts[j].id < |slots| && slots[ts[j].id].Some?)
    && (forall j, k :: 0 <= j < k < |ts| ==> ts[j].id < ts[k].id)
  }

  lemma {:induction false} SubscribersAreTargets(slots: Slots, topic: string, skip: Option<nat>, n: nat)
    requires n <= |slots|
    ensures var ts := Subscribers(slots, topic, skip, n);
            && Targets(slots, ts)
            && (forall j :: 0 <= j < |ts| ==>
                  ts[j].id < n && Recipient(slots, topic, skip, ts[j].id) == Some(ts[j].qos))
  {
    if n > 0 { SubscribersAreTargets(slots, topic, skip, n - 1); }
  }

  lemma {:induction false} RecipientListed(slots: Slots, topic: string, skip: Option<nat>, n: nat, i: nat)
      returns (j: nat)
    requires i < n <= |slots| && Recipient(slots, topic, skip, i).Some?
    ensures j < |Subscribers(slots, topic, skip, n)| && Subscribers(slots, topic, skip, n)[j].id == i
  {
    if i == n - 1 {
      j := |Subscribers(slots, topic, skip, n - 1)|;
    } else {
      j := RecipientListed(slots, topic, skip, n - 1, i);
    }
  }

  /** The target list is exactly the recipients, once each, in slot order. */
  lemma {:induction false} SubscribersExact(slots: Slots, topic: string, skip: Option<nat>, n: nat)
    requires n <= |slots|
    ensures var ts := Subscribers(slots, topic, skip, n);
            && Targets(slots, ts)
            && (forall j :: 0 <= j < |ts| ==>
                  ts[j].id < n && Recipient(slots, topic, skip, ts[j].id) == Some(ts[j].qos))
            && (forall i :: 0 <= i < n && Recipient(slots, topic, skip, i).Some? ==>
                  exists j :: 0 <= j < |ts| && ts[j].id == i)
  {
    SubscribersAreTargets(slots, topic, skip, n);
    var ts := Subscribers(slots, topic, skip, n);
    forall i | 0 <= i < n && Recipient(slots, topic, skip, i).Some?
      ensures exists j :: 0 <= j < |ts| && ts[j].id == i
    {
      var j := RecipientListed(slots, topic, skip, n, i);
    }
  }

  // -- one subscriber -----------------------------------------------------------

  /** A packet id is drawn from the receiver for QoS 1 and 2. */
  function Addressed(s: Session, q: QoS): Session {
    if q == AtMostOnce then s else s.(lastPid := NextPid(s.lastPid))
  }

  function PidFor(s: Session, q: QoS): nat {
    if q == AtMostOnce then 0 else NextPid(s.lastPid)
  }

  function PacketFor(s: Session, m: Message, q: QoS): Packet {
    Packet(q, PidFor(s, q), m.retain, m.topic, m.payload)
  }

  /** The receiver after its packet was queued, or dropped because the outbox is full. */
  function Enqueue(s: Session, m: Message, q: QoS, maxDrops: nat): Session {
    var a := Addressed(s, q);
    if |s.outbox| < MAX_OUTBOX then a.(outbox := s.outbox + [PacketFor(s, m, q)])
    else
      var d := Min(s.drops + 1, 255);
      a.(drops := d, quarantined := s.quarantined || d >= maxDrops)
  }

  /** A QoS 1 packet was queued and the inflight list has room. */
  predicate Trackable(s: Session, q: QoS, cap: nat) {
    q == AtLeastOnce && |s.outbox| < MAX_OUTBOX && |s.inflight| < cap
  }

  function WithDelivery(s: Session, pid: nat, h: Handle, now: nat): Session {
    s.(inflight := s.inflight + [Inflight(pid, h, now, 0)])
  }

  datatype Fan = Fan(reg: Registry, signals: seq<bool>, shared: Option<Handle>, ok: bool)

  /** acquire_shared_publish: one stored copy per publish, one reference per delivery. */
  function Share(f: Fan, m: Message): (Fan, Option<Handle>) {
    if f.shared.Some? then
      var h := f.shared.value;
      if CanAcquire(f.reg.store, h) then
        (f.(reg := f.reg.(store := Acquire(f.reg.store, h))), Some(h))
      else (f, None)
    else
      var (reg, h) := StoreRef(f.reg, m);
      (f.(reg := reg, shared := h), h)
  }

  function PutSession(r: Registry, id: nat, s: Session): Registry
    requires id < |r.slots|
  {
    r.(slots := r.slots[id := Some(s)])
  }

  /** One iteration of the fan-out loop; `ok` turns false when the frame does not encode. */
  function DeliverOne(f: Fan, t: Target, m: Message, now: nat, maxDrops: nat): (f': Fan)
  {
    if t.id >= |f.reg.slots| || t.id >= |f.signals| || f.reg.slots[t.id].None? then f
    else
      var s := f.reg.slots[t.id].value;
      var q := MinQos(m.qos, t.qos);
      if !Encodes(m.topic, m.payload, q) then
        f.(reg := PutSession(f.reg, t.id, Addressed(s, q)), ok := false)
      else
        var s' := Enqueue(s, m, q, maxDrops);
        var g := f.(reg := PutSession(f.reg, t.id, s'),
                    signals := if |s.outbox| < MAX_OUTBOX then f.signals[t.id := true] else f.signals);
        if !Trackable(s, q, |f.reg.store|) then g
        else
          var (g', h) := Share(g, m);
          if h.None? then g'
          else g'.(reg := PutSession(g'.reg, t.id, WithDelivery(s', PidFor(s, q), h.value, now)))
  }

  /** The fan-out loop after `n` targets; nothing more happens once a frame failed to encode. */
  function Route(f: Fan, ts: seq<Target>, n: nat, m: Message, now: nat, maxDrops: nat): Fan
    requires n <= |ts|
  {
    if n == 0 then f
    else
      var g := Route(f, ts, n - 1, m, now, maxDrops);
      if g.ok then DeliverOne(g, ts[n - 1], m, now, maxDrops) else g
  }

  // -- conservation -------------------------------------------------------------

  ghost predicate Conserved(r: Registry) {
    Balanced(r.store, Held(r.slots))
  }

  /** Swapping a session for one with the same inflight handles. */
  lemma {:induction false} SwapConserved(r: Registry, id: nat, s: Session)
    requires Conserved(r) && id < |r.slots| && r.slots[id].Some?
    requires s.inflight == r.slots[id].value.inflight
    ensures Held(PutSession(r, id, s).slots) == Held(r.slots)
    ensures Conserved(PutSession(r, id, s))
  {
    HeldUpdate(r.slots, id, Some(s));
    Cancel(Held(PutSession(r, id, s).slots), Held(r.slots), SlotHandles(Some(s)));
  }

  /** Adding an entry takes over a reference already counted in the store. */
  lemma {:induction false} TrackConserved(r: Registry, id: nat, s: Session, pid: nat, h: Handle, now: nat)
    requires id < |r.slots| && r.slots[id] == Some(s)
    requires Balanced(r.store, Held(r.slots) + multiset{h})
    ensures Conserved(PutSession(r, id, WithDelivery(s, pid, h, now)))
  {
    var s' := WithDelivery(s, pid, h, now);
    HandlesOfAppend(s.inflight, Inflight(pid, h, now, 0));
    HeldUpdate(r.slots, id, Some(s'));
    var x, y, z := Held(PutSession(r, id, s').slots), Held(r.slots), SlotHandles(Some(s));
    CancelOne(y, x, z, h);
  }

  /** The shared handle gains exactly one reference, or nothing is stored. */
  lemma {:induction false} ShareBalanced(f: Fan, m: Message)
    requires Conserved(f.reg)
    ensures var (g, h) := Share(f, m);
            && g.reg.slots == f.reg.slots && g.signals == f.signals && g.ok == f.ok
            && |g.reg.store| == |f.reg.store|
            && Balanced(g.reg.store, if h.Some? then Held(f.reg.slots) + multiset{h.value} else Held(f.reg.slots))
            && (forall k :: k in Held(f.reg.slots) ==> SameContent(f.reg.store, g.reg.store, k))
  {
    var held := Held(f.reg.slots);
    if f.shared.Some? {
      if CanAcquire(f.reg.store, f.shared.value) { AcquireBalanced(f.reg.store, f.shared.value, held); }
    } else {
      StoreRefBalanced(f.reg, m, held);
    }
  }

  lemma {:induction false} DeliverOneConserves(f: Fan, t: Target, m: Message, now: nat, maxDrops: nat)
    requires Conserved(f.reg)
    ensures Conserved(DeliverOne(f, t, m, now, maxDrops).reg)
  {
    if t.id < |f.reg.slots| && t.id < |f.signals| && f.reg.slots[t.id].Some? {
      var s := f.reg.slots[t.id].value;
      var q := MinQos(m.qos, t.qos);
      SwapConserved(f.reg, t.id, Addressed(s, q));
      var s' := Enqueue(s, m, q, maxDrops);
      SwapConserved(f.reg, t.id, s');
      if Encodes(m.topic, m.payload, q) && Trackable(s, q, |f.reg.store|) {
        var g := f.(reg := PutSession(f.reg, t.id, s'),
                    signals := if |s.outbox| < MAX_OUTBOX then f.signals[t.id := true] else f.signals);
        ShareBalanced(g, m);
        var (g', h) := Share(g, m);
        if h.Some? { TrackConserved(g'.reg, t.id, s', PidFor(s, q), h.value, now); }
      }
    }
  }

  lemma {:induction false} RouteConserves(f: Fan, ts: seq<Target>, n: nat, m: Message, now: nat, maxDrops: nat)
    requires n <= |ts| && Conserved(f.reg)
    ensures Conserved(Route(f, ts, n, m, now, maxDrops).reg)
  {
    if n > 0 {
      RouteConserves(f, ts, n - 1, m, now, maxDrops);
      DeliverOneConserves(Route(f, ts, n - 1, m, now, maxDrops), ts[n - 1], m, now, maxDrops);
    }
  }
}
