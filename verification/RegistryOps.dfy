/**
 Registry operations other than fan-out: removal, acknowledgement, retries
 (crates/GatoMQTT/src/session/registry.rs, crates/GatoMQTT/src/handler/publish.rs).
 */
module RegistryOps {
  import opened Basics
  import opened Sessions
  import opened PublishStore
  import opened FanOut

  /** Slot of the first session with this client id, or the number of slots. */
  function FindClient(slots: Slots, client: string): nat {
    FirstWhere(slots, (o: Option<Session>) => o.Some? && o.value.clientId == client)
  }

  /** SessionRegistry::remove: the session leaves and gives back every reference it holds. */
  function RemoveSession(r: Registry, id: nat): Registry {
    if id >= |r.slots| || r.slots[id].None? then r
    else r.(slots := r.slots[id := None], store := ReleaseAll(r.store, r.slots[id].value.inflight))
  }

  lemma {:induction false} RemoveConserves(r: Registry, id: nat)
    requires Conserved(r)
    ensures Conserved(RemoveSession(r, id))
    ensures forall h :: h in Held(RemoveSession(r, id).slots) ==> SameContent(r.store, RemoveSession(r, id).store, h)
  {
    if id < |r.slots| && r.slots[id].Some? {
      HeldUpdate(r.slots, id, None);
      var entries := r.slots[id].value.inflight;
      var rest := Held(r.slots[id := None]);
      assert rest + HandlesOf(entries) == Held(r.slots);
      ReleaseAllBalanced(r.store, entries, rest);
    }
  }

  /** Position of the first entry with this packet id, or the length of the list. */
  function EntryIndex(es: seq<Inflight>, pid: nat): nat {
    FirstWhere(es, (e: Inflight) => e.packetId == pid)
  }

  function WithoutEntry(s: Session, i: nat): Session
    requires i < |s.inflight|
  {
    s.(inflight := s.inflight[..i] + s.inflight[i + 1..])
  }

  /** handle_puback followed by release_stored_publish; an unknown id changes nothing. */
  function Acknowledge(r: Registry, id: nat, pid: nat): Registry
    requires id < |r.slots| && r.slots[id].Some?
  {
    var s := r.slots[id].value;
    var i := EntryIndex(s.inflight, pid);
    if i == |s.inflight| then r
    else PutSession(r, id, WithoutEntry(s, i)).(store := Release(r.store, s.inflight[i].publish))
  }

  lemma {:induction false} DropEntryHeld(r: Registry, id: nat, i: nat)
    requires id < |r.slots| && r.slots[id].Some? && i < |r.slots[id].value.inflight|
    ensures var s := r.slots[id].value;
            var held := Held(r.slots[id := Some(WithoutEntry(s, i))]);
            && s.inflight[i].publish in Held(r.slots)
            && held == Held(r.slots) - multiset{s.inflight[i].publish}
  {
    var s := r.slots[id].value;
    var s' := WithoutEntry(s, i);
    HandlesOfRemove(s.inflight, i);
    HeldUpdate(r.slots, id, Some(s'));
    CancelOne(Held(r.slots[id := Some(s')]), Held(r.slots), HandlesOf(s'.inflight), s.inflight[i].publish);
  }

  lemma {:induction false} AcknowledgeConserves(r: Registry, id: nat, pid: nat)
    requires Conserved(r) && id < |r.slots| && r.slots[id].Some?
    ensures Conserved(Acknowledge(r, id, pid))
  {
    var s := r.slots[id].value;
    var i := EntryIndex(s.inflight, pid);
    if i < |s.inflight| {
      DropEntryHeld(r, id, i);
      ReleaseBalanced(r.store, s.inflight[i].publish, Held(r.slots));
    }
  }

  // -- QoS 1 retries --------------------------------------------------------------

  datatype RetryError = MaxRetriesExceeded | InvalidPacketId | MissingStoredPublish | WriteFailed

  /** A retransmission: always with DUP set, at QoS 1. */
  datatype Resend = Resend(packetId: nat, topic: string, payload: Bytes, retain: bool)

  datatype Pass = Pass(entries: seq<Inflight>, sent: seq<Resend>, error: Option<RetryError>)

  predicate Due(e: Inflight, now: nat, timeout: nat) {
    now >= e.sentAt && now - e.sentAt >= timeout
  }

  function Bumped(e: Inflight): Inflight {
    e.(retries := Min(e.retries + 1, 255))
  }

  /** One iteration of the retry loop; `writes` retransmissions succeed, the next one fails. */
  function RetryOne(p: Pass, i: nat, store: Store, now: nat, timeout: nat, maxRetries: nat, writes: nat): Pass
    requires i < |p.entries|
  {
    var e := p.entries[i];
    if !Due(e, now, timeout) then p
    else
      var b := Bumped(e);
      var p' := p.(entries := p.entries[i := b]);
      if b.retries > maxRetries then p'.(error := Some(MaxRetriesExceeded))
      else if e.packetId == 0 then p'.(error := Some(InvalidPacketId))
      else if !Live(store, e.publish) then p'.(error := Some(MissingStoredPublish))
      else if |p.sent| >= writes then p'.(error := Some(WriteFailed))
      else
        var st := store[e.publish.slot].value;
        Pass(p.entries[i := b.(sentAt := now)],
             p.sent + [Resend(e.packetId, st.topic, st.payload, st.retain)], None)
  }

  /** The retry loop after `n` entries. */
  function RetryPass(entries: seq<Inflight>, n: nat, store: Store, now: nat, timeout: nat, maxRetries: nat,
      writes: nat): (p: Pass)
    requires n <= |entries|
    ensures |p.entries| == |entries|
  {
    if n == 0 then Pass(entries, [], None)
    else
      var p := RetryPass(entries, n - 1, store, now, timeout, maxRetries, writes);
      if p.error.Some? then p else RetryOne(p, n - 1, store, now, timeout, maxRetries, writes)
  }

  function RetryAll(s: Session, store: Store, now: nat, timeout: nat, maxRetries: nat, writes: nat): Pass {
    RetryPass(s.inflight, |s.inflight|, store, now, timeout, maxRetries, writes)
  }

  /** Retrying moves no handle and no packet id, and touches entries from the front only. */
  lemma {:induction false} RetryKeepsHandles(entries: seq<Inflight>, n: nat, store: Store, now: nat, timeout: nat,
      maxRetries: nat, writes: nat)
    requires n <= |entries|
    ensures var p := RetryPass(entries, n, store, now, timeout, maxRetries, writes);
            && (forall i :: 0 <= i < |entries| ==>
                  p.entries[i].publish == entries[i].publish && p.entries[i].packetId == entries[i].packetId)
            && (forall i :: n <= i < |entries| ==> p.entries[i] == entries[i])
  {
    if n > 0 { RetryKeepsHandles(entries, n - 1, store, now, timeout, maxRetries, writes); }
  }

  /** With every handle live, a retry always finds its publish. */
  lemma {:induction false} RetryFindsPublish(entries: seq<Inflight>, n: nat, store: Store, now: nat, timeout: nat,
      maxRetries: nat, writes: nat)
    requires n <= |entries|
    requires forall i :: 0 <= i < |entries| ==> Live(store, entries[i].publish)
    ensures RetryPass(entries, n, store, now, timeout, maxRetries, writes).error != Some(MissingStoredPublish)
  {
    if n > 0 {
      RetryFindsPublish(entries, n - 1, store, now, timeout, maxRetries, writes);
      RetryKeepsHandles(entries, n - 1, store, now, timeout, maxRetries, writes);
    }
  }

  lemma {:induction false} EntryHandleHeld(es: seq<Inflight>, i: nat)
    requires i < |es|
    ensures es[i].publish in HandlesOf(es)
  {
    if i > 0 { EntryHandleHeld(es[1..], i - 1); }
  }

  lemma {:induction false} SlotHandleHeld(slots: Slots, id: nat, h: Handle)
    requires id < |slots| && h in SlotHandles(slots[id])
    ensures h in Held(slots)
  {
    if id > 0 { SlotHandleHeld(slots[1..], id - 1, h); }
  }

  lemma {:induction false} InflightIsLive(r: Registry, id: nat)
    requires Conserved(r) && id < |r.slots| && r.slots[id].Some?
    ensures forall i :: 0 <= i < |r.slots[id].value.inflight| ==> Live(r.store, r.slots[id].value.inflight[i].publish)
  {
    var es := r.slots[id].value.inflight;
    forall i | 0 <= i < |es| ensures Live(r.store, es[i].publish) {
      EntryHandleHeld(es, i);
      SlotHandleHeld(r.slots, id, es[i].publish);
    }
  }

  /** In a conserved registry `MissingStoredPublish` is unreachable, and retrying conserves. */
  lemma {:induction false} RetryConserves(r: Registry, id: nat, now: nat, timeout: nat, maxRetries: nat, writes: nat)
    requires Conserved(r) && id < |r.slots| && r.slots[id].Some?
    ensures var s := r.slots[id].value;
            var p := RetryAll(s, r.store, now, timeout, maxRetries, writes);
            && p.error != Some(MissingStoredPublish)
            && Conserved(PutSession(r, id, s.(inflight := p.entries)))
  {
    var s := r.slots[id].value;
    var p := RetryAll(s, r.store, now, timeout, maxRetries, writes);
    InflightIsLive(r, id);
    RetryFindsPublish(s.inflight, |s.inflight|, r.store, now, timeout, maxRetries, writes);
    RetryKeepsHandles(s.inflight, |s.inflight|, r.store, now, timeout, maxRetries, writes);
    HandlesOfSame(s.inflight, p.entries);
    var s' := s.(inflight := p.entries);
    HeldUpdate(r.slots, id, Some(s'));
    Cancel(Held(PutSession(r, id, s').slots), Held(r.slots), SlotHandles(Some(s)));
  }
}
