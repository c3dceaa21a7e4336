/**
 The registry as the code keeps it: fixed arrays updated in place
 (crates/GatoMQTT/src/session/registry.rs, crates/GatoMQTT/src/router/dispatcher.rs,
 crates/GatoMQTT/src/handler/publish.rs, crates/GatoMQTT/src/handler/connect.rs).
 Every method is proved against the value-level function that the safety results are about.
 */
module RegistryClass {
  import opened Basics
  import opened RateLimit
  import opened Sessions
  import opened PublishStore
  import opened Topics
  import opened FanOut
  import opened FanOutSpec
  import opened Retained
  import opened RegistryOps
  import opened Connect
  import opened Publish

  method FirstFree<T>(cells: array<Option<T>>) returns (p: nat)
    ensures p == FirstEmpty(cells[..])
  {
    p := 0;
    while p < cells.Length && cells[p].Some?
      invariant p <= cells.Length
      invariant forall k :: 0 <= k < p ==> cells[k].Some?
    {
      p := p + 1;
    }
  }

  /** The QoS at which a subscription list receives a topic. */
  method BestQos(subs: seq<Subscription>, topic: string) returns (q: Option<QoS>)
    ensures q == MatchQos(subs, topic)
    ensures IsBestMatch(subs, topic, q)
  {
    q := None;
    for i := 0 to |subs|
      invariant q == MatchQos(subs[..i], topic)
    {
      assert subs[..i + 1][..i] == subs[..i];
      var matched := TopicMatches(subs[i].filter, topic);
      if matched {
        q := if q.None? then Some(subs[i].qos) else Some(MaxQos(q.value, subs[i].qos));
      }
    }
    assert subs[..|subs|] == subs;
    MatchQosIsBest(subs, topic);
  }

  class SessionRegistry {
    const slots: array<Option<Session>>
    const stored: array<Option<Stored>>
    var nextGeneration: nat
    var lwts: seq<Lwt>

    ghost predicate Valid() {
      slots as object != stored as object
    }

    ghost function View(): Registry
      reads this, slots, stored
    {
      Registry(slots[..], stored[..], nextGeneration, lwts)
    }

    constructor (maxSessions: nat, maxInflight: nat)
      ensures Valid() && fresh(slots) && fresh(stored)
      ensures slots.Length == maxSessions && stored.Length == maxInflight
      ensures Conserved(View()) && DistinctClients(View().slots)
      ensures nextGeneration == 1 && lwts == []
      ensures forall i :: 0 <= i < maxSessions ==> slots[i].None?
    {
      slots := new Option<Session>[maxSessions](_ => None);
      stored := new Option<Stored>[maxInflight](_ => None);
      nextGeneration := 1;
      lwts := [];
      new;
      EmptyHoldsNothing(slots[..]);
    }

    method FindByClientId(client: string) returns (i: nat)
      ensures i == FindClient(slots[..], client)
    {
      i := 0;
      while i < slots.Length && !(slots[i].Some? && slots[i].value.clientId == client)
        invariant i <= slots.Length
        invariant forall k :: 0 <= k < i ==> slots[k].Some? ==> slots[k].value.clientId != client
      {
        i := i + 1;
      }
    }

    method StorePublishRef(m: Message) returns (h: Option<Handle>)
      requires Valid()
      modifies this`nextGeneration, stored
      ensures (View(), h) == StoreRef(old(View()), m)
    {
      var p := FirstFree(stored);
      if p == stored.Length { return None; }
      var generation := nextGeneration;
      nextGeneration := (nextGeneration + 1) % GENERATIONS;
      if nextGeneration == 0 { nextGeneration := 1; }
      if |m.topic| > TOPIC_CAP || |m.payload| > PAYLOAD_CAP { return None; }
      stored[p] := Some(Stored(m.topic, m.payload, m.retain, generation, 1));
      return Some(Handle(p, generation));
    }

    method AcquireStoredPublish(h: Handle) returns (ok: bool)
      requires Valid()
      modifies stored
      ensures ok == CanAcquire(old(stored[..]), h)
      ensures View() == old(View()).(store := Acquire(old(stored[..]), h))
    {
      if h.slot >= stored.Length || stored[h.slot].None? || stored[h.slot].value.generation != h.generation { return false; }
      var st := stored[h.slot].value;
      if st.refcount >= REFCOUNT_MAX { return false; }
      stored[h.slot] := Some(st.(refcount := st.refcount + 1));
      return true;
    }

    method ReleaseStoredPublish(h: Handle)
      requires Valid()
      modifies stored
      ensures View() == old(View()).(store := Release(old(stored[..]), h))
    {
      if h.slot >= stored.Length || stored[h.slot].None? || stored[h.slot].value.generation != h.generation { return; }
      var st := stored[h.slot].value;
      var left := if st.refcount == 0 then 0 else st.refcount - 1;
      stored[h.slot] := if left == 0 then None else Some(st.(refcount := left));
    }

    method Remove(id: nat) returns (removed: Option<Session>)
      requires Valid()
      modifies slots, stored
      ensures View() == RemoveSession(old(View()), id)
      ensures removed == if id < slots.Length then old(slots[id]) else None
    {
      if id >= slots.Length || slots[id].None? { return None; }
      removed := slots[id];
      slots[id] := None;
      var es := removed.value.inflight;
      ghost var vacated := slots[..];
      var i := 0;
      while i < |es|
        invariant i <= |es| && slots[..] == vacated
        invariant ReleaseAll(old(stored[..]), es) == ReleaseAll(stored[..], es[i..])
        invariant nextGeneration == old(nextGeneration) && lwts == old(lwts)
      {
        ReleaseStoredPublish(es[i].publish);
        assert es[i..][1..] == es[i + 1..];
        i := i + 1;
      }
    }

    /** inflight_remove and the release of its publish. */
    method HandlePuback(id: nat, pid: nat)
      requires Valid() && id < slots.Length && slots[id].Some?
      modifies slots, stored
      ensures View() == Acknowledge(old(View()), id, pid)
    {
      var s := slots[id].value;
      var i := 0;
      while i < |s.inflight| && s.inflight[i].packetId != pid
        invariant i <= |s.inflight|
        invariant forall k :: 0 <= k < i ==> s.inflight[k].packetId != pid
      {
        i := i + 1;
      }
      if i < |s.inflight| {
        slots[id] := Some(s.(inflight := s.inflight[..i] + s.inflight[i + 1..]));
        ReleaseStoredPublish(s.inflight[i].publish);
      }
    }

    /** find_subscribers with a sender to skip, find_all_subscribers without. */
    method FindSubscribers(topic: string, skip: Option<nat>) returns (ts: seq<Target>)
      ensures ts == Subscribers(slots[..], topic, skip, slots.Length)
    {
      ts := [];
      for i := 0 to slots.Length
        invariant ts == Subscribers(slots[..], topic, skip, i)
      {
        if slots[i].Some? && skip != Some(i) {
          var q := BestQos(slots[i].value.subscriptions, topic);
          if q.Some? { ts := ts + [Target(i, q.value)]; }
        }
      }
    }

    /** acquire_shared_publish. */
    method AcquireShared(shared: Option<Handle>, m: Message) returns (shared': Option<Handle>, h: Option<Handle>)
      requires Valid()
      modifies this`nextGeneration, stored
      ensures var (f, got) := Share(Fan(old(View()), [], shared, true), m);
              View() == f.reg && shared' == f.shared && h == got
    {
      if shared.Some? {
        var ok := AcquireStoredPublish(shared.value);
        return shared, if ok then shared else None;
      }
      h := StorePublishRef(m);
      return h, h;
    }

    /** One iteration of the fan-out loop. */
    method DeliverTo(t: Target, signals: array<bool>, shared: Option<Handle>, m: Message, now: nat, maxDrops: nat)
      returns (shared': Option<Handle>, ok: bool)
      requires Valid() && signals.Length == slots.Length && t.id < slots.Length
      requires signals as object != slots as object && signals as object != stored as object
      modifies this`nextGeneration, slots, stored, signals
      ensures Fan(View(), signals[..], shared', ok) ==
              DeliverOne(Fan(old(View()), old(signals[..]), shared, true), t, m, now, maxDrops)
    {
      ghost var f := Fan(View(), signals[..], shared, true);
      if slots[t.id].None? { return shared, true; }
      var s := slots[t.id].value;
      var q := MinQos(m.qos, t.qos);
      var pid := 0;
      if q != AtMostOnce {
        pid := NextPid(s.lastPid);
        s := s.(lastPid := pid);
        slots[t.id] := Some(s);
      }
      if !Encodes(m.topic, m.payload, q) {
        assert slots[..] == f.reg.slots[t.id := Some(s)];
        return shared, false;
      }
      if |s.outbox| >= MAX_OUTBOX {
        var d := Min(s.drops + 1, 255);
        slots[t.id] := Some(s.(drops := d, quarantined := s.quarantined || d >= maxDrops));
        assert slots[..] == f.reg.slots[t.id := slots[t.id]];
        return shared, true;
      }
      s := s.(outbox := s.outbox + [Packet(q, pid, m.retain, m.topic, m.payload)]);
      slots[t.id] := Some(s);
      signals[t.id] := true;
      assert slots[..] == f.reg.slots[t.id := Some(s)];
      assert signals[..] == f.signals[t.id := true];
      if q != AtLeastOnce || |s.inflight| >= stored.Length { return shared, true; }
      var h;
      shared', h := AcquireShared(shared, m);
      if h.Some? {
        slots[t.id] := Some(s.(inflight := s.inflight + [Inflight(pid, h.value, now, 0)]));
        assert slots[..] == f.reg.slots[t.id := slots[t.id]];
      }
      ok := true;
    }

    /** The fan-out loop; it stops at the first frame that does not encode. */
    method RouteLoop(ts: seq<Target>, signals: array<bool>, m: Message, now: nat, maxDrops: nat)
        returns (ghost shared': Option<Handle>, ok: bool)
      requires Valid() && signals.Length == slots.Length
      requires signals as object != slots as object && signals as object != stored as object
      requires forall j :: 0 <= j < |ts| ==> ts[j].id < slots.Length
      modifies this`nextGeneration, slots, stored, signals
      ensures Fan(View(), signals[..], shared', ok) ==
              Route(Fan(old(View()), old(signals[..]), None, true), ts, |ts|, m, now, maxDrops)
    {
      ghost var f0 := Fan(View(), signals[..], None, true);
      var shared: Option<Handle> := None;
      var i := 0;
      ok := true;
      while i < |ts| && ok
        invariant i <= |ts|
        invariant Fan(View(), signals[..], shared, ok) == Route(f0, ts, i, m, now, maxDrops)
      {
        shared, ok := DeliverTo(ts[i], signals, shared, m, now, maxDrops);
        i := i + 1;
      }
      if !ok { RouteStuck(f0, ts, i, |ts|, m, now, maxDrops); }
      shared' := shared;
    }

    /** Find the subscribers of a topic and deliver to each. */
    method FanOutLoop(skip: Option<nat>, signals: array<bool>, m: Message, now: nat, maxDrops: nat) returns (ok: bool)
      requires Valid() && signals.Length == slots.Length
      requires signals as object != slots as object && signals as object != stored as object
      modifies this`nextGeneration, slots, stored, signals
      ensures var f := Deliver(old(View()), old(signals[..]), skip, m, now, maxDrops);
              View() == f.reg && signals[..] == f.signals && ok == f.ok
    {
      var ts := FindSubscribers(m.topic, skip);
      SubscribersAreTargets(slots[..], m.topic, skip, slots.Length);
      ghost var shared;
      shared, ok := RouteLoop(ts, signals, m, now, maxDrops);
    }

    /** handle_publish_at. */
    method HandlePublish(sender: nat, retained: RetainedStore, signals: array<bool>, m: Message, now: nat,
        cfg: Config, handlerAccepts: bool)
      returns (result: PublishResult)
      requires Valid() && signals.Length == slots.Length && cfg.hz > 0 && retained.capacity == cfg.maxRetained
      requires signals as object != slots as object && signals as object != stored as object
      modifies this`nextGeneration, slots, stored, signals, retained
      ensures (Shared(View(), retained.entries, signals[..]), result) ==
              Publish.HandlePublish(old(Shared(View(), retained.entries, signals[..])), sender, m, now, cfg, handlerAccepts)
    {
      if sender >= slots.Length || slots[sender].None? { return SenderNotFound; }
      var s := slots[sender].value;
      var admitted := Admits(s.rate, now, cfg.hz);
      var rate := Consume(s.rate, now, cfg.hz);
      slots[sender] := Some(s.(rate := rate));
      assert slots[..] == old(slots[..])[sender := slots[sender]];
      if !admitted {
        return if rate.violations >= cfg.maxViolations || m.qos != AtMostOnce then RateLimitDisconnect else Published;
      }
      if m.retain {
        var res := retained.Set(m.topic, m.payload, m.qos);
        if res != SetOk { return RetainedRefused; }
      }
      var ok := FanOutLoop(Some(sender), signals, m, now, cfg.maxDrops);
      if !ok { return FrameTooLarge; }
      var command := TopicMatches(COMMAND_FILTER, m.topic);
      if command {
        if |m.topic| > TOPIC_CAP || |m.payload| > PAYLOAD_CAP { return IntentTooLarge; }
        if !handlerAccepts && m.qos != AtMostOnce { return HandlerOverloaded; }
      }
      return Published;
    }

    /** process_outbound_publish. */
    method ProcessOutbound(retained: RetainedStore, signals: array<bool>, m: Message, now: nat, cfg: Config)
      requires Valid() && signals.Length == slots.Length && retained.capacity == cfg.maxRetained
      requires signals as object != slots as object && signals as object != stored as object
      modifies this`nextGeneration, slots, stored, signals, retained
      ensures Shared(View(), retained.entries, signals[..]) ==
              OutboundPublish(old(Shared(View(), retained.entries, signals[..])), m, now, cfg)
    {
      if m.retain {
        var res := retained.Set(m.topic, m.payload, m.qos);
        if res != SetOk { return; }
      }
      var ok := FanOutLoop(None, signals, m, now, cfg.maxDrops);
    }

    /** process_inflight_retries_at; `writes` transport writes succeed before one fails. */
    method ProcessRetries(id: nat, now: nat, timeout: nat, maxRetries: nat, writes: nat)
      returns (sent: seq<Resend>, error: Option<RetryError>)
      requires Valid() && id < slots.Length && slots[id].Some?
      modifies slots
      ensures var p := RetryAll(old(slots[id]).value, stored[..], now, timeout, maxRetries, writes);
              && sent == p.sent && error == p.error
              && slots[..] == old(slots[..])[id := Some(old(slots[id]).value.(inflight := p.entries))]
    {
      ghost var s := slots[id].value;
      var n := |slots[id].value.inflight|;
      sent, error := [], None;
      ghost var p := Pass(s.inflight, sent, error);
      for i := 0 to n
        invariant p == RetryPass(s.inflight, i, stored[..], now, timeout, maxRetries, writes)
        invariant p.error.None? && error == p.error && sent == p.sent
        invariant slots[..] == old(slots[..])[id := Some(s.(inflight := p.entries))]
      {
        assert slots[id] == Some(s.(inflight := p.entries));
        sent, error := RetryEntry(id, i, now, timeout, maxRetries, writes, sent);
        p := RetryOne(p, i, stored[..], now, timeout, maxRetries, writes);
        if error.Some? {
          RetryStuck(s.inflight, i + 1, n, stored[..], now, timeout, maxRetries, writes);
          return;
        }
      }
    }

    /** One turn of the retry loop. */
    method RetryEntry(id: nat, i: nat, now: nat, timeout: nat, maxRetries: nat, writes: nat, sofar: seq<Resend>)
      returns (sent: seq<Resend>, error: Option<RetryError>)
      requires Valid() && id < slots.Length && slots[id].Some? && i < |slots[id].value.inflight|
      modifies slots
      ensures var s := old(slots[id]).value;
              var p := RetryOne(Pass(s.inflight, sofar, None), i, stored[..], now, timeout, maxRetries, writes);
              && sent == p.sent && error == p.error
              && slots[..] == old(slots[..])[id := Some(s.(inflight := p.entries))]
    {
      sent, error := sofar, None;
      var e := slots[id].value.inflight[i];
      if now < e.sentAt || now - e.sentAt < timeout {
        assert old(slots[id]).value == old(slots[id]).value.(inflight := old(slots[id]).value.inflight);
        return;
      }
      e := e.(retries := if e.retries < 255 then e.retries + 1 else 255);
      SetEntryAt(id, i, e);
      if e.retries > maxRetries { return sent, Some(MaxRetriesExceeded); }
      if e.packetId == 0 { return sent, Some(InvalidPacketId); }
      var h := e.publish;
      if h.slot >= stored.Length || stored[h.slot].None? || stored[h.slot].value.generation != h.generation {
        return sent, Some(MissingStoredPublish);
      }
      if |sent| >= writes { return sent, Some(WriteFailed); }
      var st := stored[h.slot].value;
      sent := sent + [Resend(e.packetId, st.topic, st.payload, st.retain)];
      ghost var es := old(slots[id]).value.inflight;
      assert slots[id] == Some(old(slots[id]).value.(inflight := es[i := e]));
      assert es[i := e][i := e.(sentAt := now)] == es[i := e.(sentAt := now)];
      SetEntryAt(id, i, e.(sentAt := now));
    }

    /** Writes back one entry of a session's inflight list. */
    method SetEntryAt(id: nat, i: nat, e: Inflight)
      requires id < slots.Length && slots[id].Some? && i < |slots[id].value.inflight|
      modifies slots
      ensures var s := old(slots[id]).value;
              slots[..] == old(slots[..])[id := Some(s.(inflight := s.inflight[i := e]))]
    {
      slots[id] := Some(slots[id].value.(inflight := slots[id].value.inflight[i := e]));
    }

    /** record_published_lwt. */
    method RecordPublishedLwt(w: Lwt) returns (ok: bool)
      modifies this`lwts
      ensures ok == (old(|lwts|) < slots.Length)
      ensures lwts == if ok then old(lwts) + [w] else old(lwts)
    {
      if |lwts| >= slots.Length { return false; }
      lwts := lwts + [w];
      return true;
    }

    /** prepare_connect. */
    method PrepareConnect(c: ConnectPacket) returns (result: ConnectResult)
      requires Valid()
      modifies this`lwts, slots, stored
      ensures (View(), result) == Connect.PrepareConnect(old(View()), c)
    {
      if !c.mqtt311 || c.clientId == "" || !c.credentials { return Rejected; }
      var i := FindByClientId(c.clientId);
      if !c.cleanSession && i < slots.Length {
        if !WillFits(c) { return Failed; }
        slots[i] := Some(slots[i].value.(lwt := c.will, keepalive := c.keepAlive, quarantined := false, drops := 0));
        assert slots[..] == old(slots[..])[i := slots[i]];
        return Accepted(i, true);
      }
      var displaced: Option<Lwt> := None;
      var previous := Remove(i);
      if previous.Some? { displaced := previous.value.lwt; }
      ghost var r := View();
      var free := FirstFree(slots);
      var ok := true;
      if free == slots.Length {
        if displaced.Some? { ok := RecordPublishedLwt(displaced.value); }
        return if ok then Rejected else Failed;
      }
      if |c.clientId| > CLIENT_CAP || !WillFits(c) { return Failed; }
      slots[free] := Some(FreshSession(c));
      assert slots[..] == r.slots[free := slots[free]];
      if displaced.Some? { ok := RecordPublishedLwt(displaced.value); }
      return if ok then Accepted(free, false) else Failed;
    }
  }

  lemma {:induction false} RetryStuck(es: seq<Inflight>, k: nat, n: nat, store: Store, now: nat, timeout: nat,
      maxRetries: nat, writes: nat)
    requires k <= n <= |es| && RetryPass(es, k, store, now, timeout, maxRetries, writes).error.Some?
    ensures RetryPass(es, n, store, now, timeout, maxRetries, writes) == RetryPass(es, k, store, now, timeout, maxRetries, writes)
  {
    if k < n { RetryStuck(es, k, n - 1, store, now, timeout, maxRetries, writes); }
  }
}
