/** CONNECT (crates/GatoMQTT/src/handler/connect.rs, lines 97-186). */
module Connect {
  import opened Basics
  import opened RateLimit
  import opened Sessions
  import opened PublishStore
  import opened FanOut
  import opened RegistryOps

  /** `credentials` says whether username and password equal the house token. */
  datatype ConnectPacket = ConnectPacket(
    mqtt311: bool, clientId: string, credentials: bool, cleanSession: bool, keepAlive: nat, will: Option<Lwt>)

  datatype ConnectResult = Accepted(slot: nat, sessionPresent: bool) | Rejected | Failed

  /** Refused before the registry is looked at. */
  predicate RefusedEarly(c: ConnectPacket) {
    !c.mqtt311 || c.clientId == "" || !c.credentials
  }

  predicate WillFits(c: ConnectPacket) {
    c.will.None? || Fits(c.will.value.topic, c.will.value.payload)
  }

  /** record_published_lwt; the queue holds as many wills as there are slots. */
  predicate WillQueueFull(r: Registry, displaced: Option<Lwt>) {
    displaced.Some? && |r.lwts| >= |r.slots|
  }

  function RecordWill(r: Registry, displaced: Option<Lwt>): Registry {
    if displaced.None? || |r.lwts| >= |r.slots| then r else r.(lwts := r.lwts + [displaced.value])
  }

  function Resumed(s: Session, c: ConnectPacket): Session {
    s.(lwt := c.will, keepalive := c.keepAlive, quarantined := false, drops := 0)
  }

  /** After any previous session of this client was discarded. */
  function ConnectFresh(r: Registry, displaced: Option<Lwt>, c: ConnectPacket): (o: (Registry, ConnectResult))
    ensures |o.0.slots| == |r.slots|
    ensures o.1.Accepted? ==> o.1.slot < |r.slots| && o.0.slots[o.1.slot].Some?
  {
    var free := FirstEmpty(r.slots);
    if free == |r.slots| then
      if WillQueueFull(r, displaced) then (r, Failed) else (RecordWill(r, displaced), Rejected)
    else if |c.clientId| > CLIENT_CAP || !WillFits(c) then (r, Failed)
    else
      var r' := PutSession(r, free, FreshSession(c));
      if WillQueueFull(r', displaced) then (r', Failed)
      else (RecordWill(r', displaced), Accepted(free, false))
  }

  function PrepareConnect(r: Registry, c: ConnectPacket): (o: (Registry, ConnectResult))
    ensures |o.0.slots| == |r.slots|
    ensures o.1.Accepted? ==> o.1.slot < |r.slots| && o.0.slots[o.1.slot].Some?
  {
    if RefusedEarly(c) then (r, Rejected)
    else
      var i := FindClient(r.slots, c.clientId);
      if !c.cleanSession && i < |r.slots| then
        if !WillFits(c) then (r, Failed)
        else (PutSession(r, i, Resumed(r.slots[i].value, c)), Accepted(i, true))
      else
        var displaced := if i < |r.slots| then r.slots[i].value.lwt else None;
        ConnectFresh(RemoveSession(r, i), displaced, c)
  }

  /** Every client id occurs in at most one slot. */
  ghost predicate DistinctClients(slots: Slots) {
    forall i, j :: 0 <= i < j < |slots| && slots[i].Some? && slots[j].Some? ==>
      slots[i].value.clientId != slots[j].value.clientId
  }

  function FreshSession(c: ConnectPacket): Session {
    NewSession(c.clientId, c.keepAlive, NewBucket(0, 0)).(lwt := c.will)
  }

  lemma {:induction false} FreshSlotHeld(slots: Slots, i: nat, s: Session)
    requires i < |slots| && slots[i].None? && s.inflight == []
    ensures Held(slots[i := Some(s)]) == Held(slots)
  {
    HeldUpdate(slots, i, Some(s));
    Cancel(Held(slots[i := Some(s)]), Held(slots), multiset{});
  }

  /** A fresh session holds no publish. */
  lemma {:induction false} ConnectFreshHeld(r: Registry, displaced: Option<Lwt>, c: ConnectPacket)
    ensures var r' := ConnectFresh(r, displaced, c).0;
            r'.store == r.store && Held(r'.slots) == Held(r.slots)
  {
    var free := FirstEmpty(r.slots);
    var r' := ConnectFresh(r, displaced, c).0;
    assert r'.slots == r.slots || (free < |r.slots| && r'.slots == r.slots[free := Some(FreshSession(c))]);
    if r'.slots != r.slots { FreshSlotHeld(r.slots, free, FreshSession(c)); }
  }

  lemma {:induction false} ConnectConserves(r: Registry, c: ConnectPacket)
    requires Conserved(r)
    ensures Conserved(PrepareConnect(r, c).0)
  {
    var i := FindClient(r.slots, c.clientId);
    if !c.cleanSession && i < |r.slots| {
      SwapConserved(r, i, Resumed(r.slots[i].value, c));
    } else {
      RemoveConserves(r, i);
      ConnectFreshHeld(RemoveSession(r, i), if i < |r.slots| then r.slots[i].value.lwt else None, c);
    }
  }

  /** The slots without any session of this client. */
  function Vacated(slots: Slots, client: string): Slots {
    var i := FindClient(slots, client);
    if i < |slots| then slots[i := None] else slots
  }

  /** The only ways in which a CONNECT, successful or not, changes the slots. */
  ghost predicate ConnectShape(slots: Slots, c: ConnectPacket, slots': Slots) {
    var i := FindClient(slots, c.clientId);
    var vacated := Vacated(slots, c.clientId);
    var free := FirstEmpty(vacated);
    || slots' == slots
    || (i < |slots| && slots' == slots[i := Some(Resumed(slots[i].value, c))])
    || slots' == vacated
    || (free < |vacated| && slots' == vacated[free := Some(FreshSession(c))])
  }

  lemma {:induction false} ConnectHasShape(r: Registry, c: ConnectPacket)
    ensures var (r', result) := PrepareConnect(r, c);
            && ConnectShape(r.slots, c, r'.slots)
            && (result.Accepted? ==>
                  && result.slot < |r'.slots| && r'.slots[result.slot].Some?
                  && r'.slots[result.slot].value.clientId == c.clientId)
  {
    var i := FindClient(r.slots, c.clientId);
    assert RemoveSession(r, i).slots == Vacated(r.slots, c.clientId);
  }

  lemma {:induction false} VacatedIsRid(slots: Slots, client: string, k: nat)
    requires DistinctClients(slots) && k < |slots| && Vacated(slots, client)[k].Some?
    ensures slots[k].Some? && Vacated(slots, client)[k] == slots[k] && slots[k].value.clientId != client
  {
  }

  lemma {:induction false} ShapeKeepsClientsDistinct(slots: Slots, c: ConnectPacket, slots': Slots)
    requires DistinctClients(slots) && ConnectShape(slots, c, slots')
    ensures DistinctClients(slots')
  {
    var vacated := Vacated(slots, c.clientId);
    var free := FirstEmpty(vacated);
    forall k | 0 <= k < |slots| && vacated[k].Some?
      ensures slots[k].Some? && vacated[k] == slots[k] && slots[k].value.clientId != c.clientId
    {
      VacatedIsRid(slots, c.clientId, k);
    }
  }

  lemma {:induction false} ConnectKeepsClientsDistinct(r: Registry, c: ConnectPacket)
    requires DistinctClients(r.slots)
    ensures DistinctClients(PrepareConnect(r, c).0.slots)
  {
    ConnectHasShape(r, c);
    ShapeKeepsClientsDistinct(r.slots, c, PrepareConnect(r, c).0.slots);
  }
}
