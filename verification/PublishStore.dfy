/**
 The reference-counted, generation-tagged publish store
 (crates/GatoMQTT/src/session/registry.rs).
 */
module PublishStore {
  import opened Basics
  import opened Sessions

  const REFCOUNT_MAX := 65535

  predicate Live(store: Store, h: Handle) {
    h.slot < |store| && store[h.slot].Some? && store[h.slot].value.generation == h.generation
  }

  /** The handle under which the publish in slot `p` is reachable. */
  function HandleAt(store: Store, p: nat): Handle
    requires p < |store| && store[p].Some?
  {
    Handle(p, store[p].value.generation)
  }

  /** Index of the first empty slot, or the length of the store. */
  function FirstEmpty<T>(cells: seq<Option<T>>): (p: nat)
    ensures p <= |cells|
    ensures p < |cells| ==> cells[p].None?
    ensures forall i :: 0 <= i < p ==> cells[i].Some?
  {
    if cells == [] || cells[0].None? then 0 else 1 + FirstEmpty(cells[1..])
  }

  function NextGeneration(g: nat): nat {
    var n := (g + 1) % GENERATIONS;
    if n == 0 then 1 else n
  }

  predicate Fits(topic: string, payload: Bytes) {
    |topic| <= TOPIC_CAP && |payload| <= PAYLOAD_CAP
  }

  /** Whether a publish can be stored now. */
  predicate Room(r: Registry, m: Message) {
    FirstEmpty(r.store) < |r.store| && Fits(m.topic, m.payload)
  }

  /** store_publish_ref. A publish that does not fit still burns a generation. */
  function StoreRef(r: Registry, m: Message): (Registry, Option<Handle>) {
    var p := FirstEmpty(r.store);
    if p == |r.store| then (r, None)
    else
      var r' := r.(nextGeneration := NextGeneration(r.nextGeneration));
      if !Fits(m.topic, m.payload) then (r', None)
      else
        (r'.(store := r.store[p := Some(Stored(m.topic, m.payload, m.retain, r.nextGeneration, 1))]),
         Some(Handle(p, r.nextGeneration)))
  }

  function Recount(store: Store, p: nat, n: nat): Store
    requires p < |store| && store[p].Some?
  {
    store[p := Some(store[p].value.(refcount := n))]
  }

  predicate CanAcquire(store: Store, h: Handle) {
    Live(store, h) && store[h.slot].value.refcount < REFCOUNT_MAX
  }

  /** acquire_stored_publish; unchanged when the handle is stale or the count would overflow. */
  function Acquire(store: Store, h: Handle): Store {
    if CanAcquire(store, h) then Recount(store, h.slot, store[h.slot].value.refcount + 1) else store
  }

  /** release_stored_publish. */
  function Release(store: Store, h: Handle): Store {
    if !Live(store, h) then store
    else if store[h.slot].value.refcount <= 1 then store[h.slot := None]
    else Recount(store, h.slot, store[h.slot].value.refcount - 1)
  }

  /** release_stored_publish for every entry of a removed session, in order. */
  function ReleaseAll(store: Store, entries: seq<Inflight>): Store
    decreases entries
  {
    if entries == [] then store else ReleaseAll(Release(store, entries[0].publish), entries[1..])
  }

  // -- the conservation invariant ------------------------------------------

  /** The handles of an inflight list, with multiplicity. */
  ghost function HandlesOf(entries: seq<Inflight>): multiset<Handle> {
    if entries == [] then multiset{} else multiset{entries[0].publish} + HandlesOf(entries[1..])
  }

  ghost function SlotHandles(slot: Option<Session>): multiset<Handle> {
    if slot.None? then multiset{} else HandlesOf(slot.value.inflight)
  }

  /** The handles held by all sessions together. */
  ghost function Held(slots: Slots): multiset<Handle> {
    if slots == [] then multiset{} else SlotHandles(slots[0]) + Held(slots[1..])
  }

  /**
   Every occupied slot is counted exactly once per holder and has a holder, and every held
   handle is live. `held` may count handles that are between the store and a session.
   */
  ghost predicate Balanced(store: Store, held: multiset<Handle>) {
    && (forall p :: 0 <= p < |store| && store[p].Some? ==>
          1 <= store[p].value.refcount == held[HandleAt(store, p)] <= REFCOUNT_MAX)
    && (forall h :: h in held ==> Live(store, h))
  }

  /** The payload a handle stands for. */
  ghost predicate SameContent(a: Store, b: Store, h: Handle) {
    Live(a, h) && Live(b, h) &&
    a[h.slot].value.(refcount := 0) == b[h.slot].value.(refcount := 0)
  }

  lemma {:induction false} HandlesOfAppend(entries: seq<Inflight>, e: Inflight)
    ensures HandlesOf(entries + [e]) == HandlesOf(entries) + multiset{e.publish}
  {
    if entries == [] {
      assert [e][1..] == [];
    } else {
      assert (entries + [e])[1..] == entries[1..] + [e];
      HandlesOfAppend(entries[1..], e);
    }
  }

  lemma {:induction false} HandlesOfRemove(entries: seq<Inflight>, i: nat)
    requires i < |entries|
    ensures HandlesOf(entries) == HandlesOf(entries[..i] + entries[i + 1..]) + multiset{entries[i].publish}
  {
    var rest := entries[..i] + entries[i + 1..];
    if i == 0 {
      assert rest == entries[1..];
    } else {
      assert rest[1..] == entries[1..][..i - 1] + entries[1..][i..];
      HandlesOfRemove(entries[1..], i - 1);
    }
  }

  lemma {:induction false} HandlesOfSame(a: seq<Inflight>, b: seq<Inflight>)
    requires |a| == |b| && forall i :: 0 <= i < |a| ==> a[i].publish == b[i].publish
    ensures HandlesOf(a) == HandlesOf(b)
  {
    if a != [] { HandlesOfSame(a[1..], b[1..]); }
  }

  lemma {:induction false} HeldUpdateAt(slots: Slots, i: nat, s: Option<Session>, h: Handle)
    requires i < |slots|
    ensures Held(slots[i := s])[h] + SlotHandles(slots[i])[h] == Held(slots)[h] + SlotHandles(s)[h]
  {
    var slots' := slots[i := s];
    if i == 0 {
      assert slots'[1..] == slots[1..];
    } else {
      assert slots'[1..] == slots[1..][i - 1 := s];
      HeldUpdateAt(slots[1..], i - 1, s, h);
    }
  }

  /** Replacing one slot moves exactly that slot's handles. */
  lemma {:induction false} HeldUpdate(slots: Slots, i: nat, s: Option<Session>)
    requires i < |slots|
    ensures Held(slots[i := s]) + SlotHandles(slots[i]) == Held(slots) + SlotHandles(s)
  {
    forall h ensures (Held(slots[i := s]) + SlotHandles(slots[i]))[h] == (Held(slots) + SlotHandles(s))[h] {
      HeldUpdateAt(slots, i, s, h);
    }
  }

  lemma {:induction false} EmptyHoldsNothing(slots: Slots)
    requires forall i :: 0 <= i < |slots| ==> slots[i].None?
    ensures Held(slots) == multiset{}
  {
    if slots != [] { EmptyHoldsNothing(slots[1..]); }
  }

  lemma {:induction false} Cancel(x: multiset<Handle>, y: multiset<Handle>, z: multiset<Handle>)
    requires x + z == y + z
    ensures x == y
  {
    forall h ensures x[h] == y[h] {
      assert (x + z)[h] == (y + z)[h];
    }
  }

  lemma {:induction false} CancelOne(x: multiset<Handle>, y: multiset<Handle>, z: multiset<Handle>, h: Handle)
    requires x + (z + multiset{h}) == y + z
    ensures x + multiset{h} == y && y - multiset{h} == x && h in y
  {
    forall k ensures (x + multiset{h})[k] == y[k] {
      assert (x + (z + multiset{h}))[k] == (y + z)[k];
    }
  }

  /** Storing a publish adds one held handle; no reused generation can alias a live one. */
  lemma {:induction false} StoreRefBalanced(r: Registry, m: Message, held: multiset<Handle>)
    requires Balanced(r.store, held)
    ensures var (r', h) := StoreRef(r, m);
            && h.Some? == Room(r, m)
            && (h.Some? ==> Balanced(r'.store, held + multiset{h.value}))
            && (h.None? ==> r'.store == r.store)
            && (forall k :: k in held ==> SameContent(r.store, r'.store, k))
  {
    var p := FirstEmpty(r.store);
    if Room(r, m) {
      var h := Handle(p, r.nextGeneration);
      assert h !in held;
    }
  }

  lemma {:induction false} AcquireBalanced(store: Store, h: Handle, held: multiset<Handle>)
    requires Balanced(store, held) && CanAcquire(store, h)
    ensures Balanced(Acquire(store, h), held + multiset{h})
    ensures forall k :: k in held ==> SameContent(store, Acquire(store, h), k)
  {
    assert HandleAt(store, h.slot) == h;
    var store' := Acquire(store, h);
    forall p | 0 <= p < |store'| && store'[p].Some?
      ensures HandleAt(store', p) == HandleAt(store, p)
    {}
  }

  lemma {:induction false} ReleaseBalanced(store: Store, h: Handle, held: multiset<Handle>)
    requires Balanced(store, held) && h in held
    ensures Balanced(Release(store, h), held - multiset{h})
    ensures forall k :: k in held - multiset{h} ==> SameContent(store, Release(store, h), k)
  {
    assert HandleAt(store, h.slot) == h;
    var store' := Release(store, h);
    forall p | 0 <= p < |store'| && store'[p].Some?
      ensures HandleAt(store', p) == HandleAt(store, p)
    {}
    forall k | k in held - multiset{h}
      ensures Live(store', k)
    {
      assert k in held;
      if k.slot == h.slot { assert k == h; }
    }
  }

  lemma {:induction false} ReleaseAllBalanced(store: Store, entries: seq<Inflight>, held: multiset<Handle>)
    requires Balanced(store, held + HandlesOf(entries))
    ensures Balanced(ReleaseAll(store, entries), held)
    ensures forall k :: k in held ==> SameContent(store, ReleaseAll(store, entries), k)
    decreases entries
  {
    if entries == [] {
      assert held + HandlesOf(entries) == held;
    } else {
      var h := entries[0].publish;
      var all := held + HandlesOf(entries);
      assert h in all;
      ReleaseBalanced(store, h, all);
      assert all - multiset{h} == held + HandlesOf(entries[1..]);
      ReleaseAllBalanced(Release(store, h), entries[1..], held);
    }
  }
}
