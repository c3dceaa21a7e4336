/**
 The life of a QoS 1 delivery: packet ids and retransmissions
 (crates/GatoMQTT/src/session/state.rs, crates/GatoMQTT/src/handler/publish.rs).
 A session's inflight list is followed together with a history of what each entry went through.
 */
module Deliveries {
  import opened Basics
  import opened Sessions
  import opened PublishStore
  import opened RegistryOps

  // -- packet ids ------------------------------------------------------------------------

  const PIDS := 65535

  /** The packet id after `n` allocations of a fresh session. */
  function PidAt(n: nat): nat {
    if n == 0 then 0 else NextPid(PidAt(n - 1))
  }

  lemma {:induction false} PidClosedForm(n: nat)
    requires n > 0
    ensures PidAt(n) == (n - 1) % PIDS + 1
  {
    if n > 1 {
      PidClosedForm(n - 1);
      StepModulo(n - 2);
      StepPid(PidAt(n - 1));
    }
  }

  lemma {:induction false} StepPid(p: nat)
    requires 1 <= p <= PIDS
    ensures NextPid(p) == if p == PIDS then 1 else p + 1
  {
  }

  lemma {:induction false} PidInRange(n: nat)
    requires n > 0
    ensures 1 <= PidAt(n) <= PIDS
  {
    PidClosedForm(n);
  }

  /** The first round of ids counts up from 1. */
  lemma {:induction false} FirstRound(n: nat)
    requires 1 <= n <= PIDS
    ensures PidAt(n) == n
  {
    PidClosedForm(n);
  }

  lemma {:induction false} ResiduesDiffer(x: nat, y: nat)
    requires x < y < x + PIDS
    ensures x % PIDS != y % PIDS
  {
    assert x == PIDS * (x / PIDS) + x % PIDS && y == PIDS * (y / PIDS) + y % PIDS;
  }

  lemma {:induction false} StepModulo(k: nat)
    ensures (k + 1) % PIDS == if k % PIDS == PIDS - 1 then 0 else k % PIDS + 1
  {
    var q, m := k / PIDS, k % PIDS;
    assert k == PIDS * q + m;
  }

  /** Packet ids are never 0, and any 65535 consecutive allocations are pairwise distinct. */
  lemma {:induction false} PidsDistinct(a: nat, b: nat)
    requires 0 < a < b < a + PIDS
    ensures 1 <= PidAt(a) <= PIDS && PidAt(a) != PidAt(b)
  {
    PidClosedForm(a);
    PidClosedForm(b);
    ResiduesDiffer(a - 1, b - 1);
  }

  /** The window cannot be longer: the ids repeat after 65535 allocations. */
  lemma {:induction false} PidsRepeat(a: nat)
    requires a > 0
    ensures PidAt(a + PIDS) == PidAt(a)
  {
    PidClosedForm(a);
    PidClosedForm(a + PIDS);
  }

  // -- one retry pass, exactly -------------------------------------------------------------

  function Retried(e: Inflight, now: nat, timeout: nat): Inflight {
    if Due(e, now, timeout) then Bumped(e).(sentAt := now) else e
  }

  function ResendOf(e: Inflight, store: Store): Resend
    requires Live(store, e.publish)
  {
    var st := store[e.publish.slot].value;
    Resend(e.packetId, st.topic, st.payload, st.retain)
  }

  /** The due entries, in order, as they are retransmitted. */
  function DueResends(es: seq<Inflight>, n: nat, store: Store, now: nat, timeout: nat): seq<Resend>
    requires n <= |es| && forall i :: 0 <= i < |es| ==> Live(store, es[i].publish)
  {
    if n == 0 then []
    else
      var init := DueResends(es, n - 1, store, now, timeout);
      if Due(es[n - 1], now, timeout) then init + [ResendOf(es[n - 1], store)] else init
  }

  /** A pass without error retransmits exactly the due entries, and none of them had used up its retries. */
  lemma {:induction false} RetryExact(es: seq<Inflight>, n: nat, store: Store, now: nat, timeout: nat,
      maxRetries: nat, writes: nat)
    requires n <= |es| && forall i :: 0 <= i < |es| ==> Live(store, es[i].publish)
    requires RetryPass(es, n, store, now, timeout, maxRetries, writes).error.None?
    ensures var p := RetryPass(es, n, store, now, timeout, maxRetries, writes);
            && (forall i :: 0 <= i < n ==> p.entries[i] == Retried(es[i], now, timeout))
            && (forall i :: n <= i < |es| ==> p.entries[i] == es[i])
            && (forall i :: 0 <= i < n && Due(es[i], now, timeout) ==> Min(es[i].retries + 1, 255) <= maxRetries)
            && p.sent == DueResends(es, n, store, now, timeout)
  {
    if n > 0 { RetryExact(es, n - 1, store, now, timeout, maxRetries, writes); }
  }

  // -- any retry pass, also one that stops midway ----------------------------------------------

  /** The pass writes entry `i`: it is due, and no entry up to it stops the pass. */
  predicate Resent(es: seq<Inflight>, i: nat, store: Store, now: nat, timeout: nat, maxRetries: nat, writes: nat)
    requires i < |es|
  {
    Due(es[i], now, timeout) && RetryPass(es, i + 1, store, now, timeout, maxRetries, writes).error.None?
  }

  /** The error with which the pass stops at entry `i`, if it does. */
  function StopAt(es: seq<Inflight>, i: nat, store: Store, now: nat, timeout: nat, maxRetries: nat, writes: nat):
      Option<RetryError>
    requires i < |es|
  {
    if RetryPass(es, i, store, now, timeout, maxRetries, writes).error.Some? then None
    else RetryPass(es, i + 1, store, now, timeout, maxRetries, writes).error
  }

  /** Entry `i` after the pass: only a write that went through moves its time, any attempt raises its counter. */
  function PassedOver(es: seq<Inflight>, i: nat, store: Store, now: nat, timeout: nat, maxRetries: nat, writes: nat):
      Inflight
    requires i < |es|
  {
    if Resent(es, i, store, now, timeout, maxRetries, writes) then Bumped(es[i]).(sentAt := now)
    else if StopAt(es, i, store, now, timeout, maxRetries, writes).Some? then Bumped(es[i])
    else es[i]
  }

  /** What the pass puts on the wire. */
  function Resends(es: seq<Inflight>, n: nat, store: Store, now: nat, timeout: nat, maxRetries: nat, writes: nat):
      seq<Resend>
    requires n <= |es| && forall i :: 0 <= i < |es| ==> Live(store, es[i].publish)
  {
    if n == 0 then []
    else
      var init := Resends(es, n - 1, store, now, timeout, maxRetries, writes);
      if Resent(es, n - 1, store, now, timeout, maxRetries, writes) then init + [ResendOf(es[n - 1], store)] else init
  }

  /** The entry's counter, raised, is within the limit exactly when the entry is written or its write is tried. */
  ghost predicate WithinLimit(es: seq<Inflight>, i: nat, store: Store, now: nat, timeout: nat, maxRetries: nat,
      writes: nat)
    requires i < |es|
  {
    var stop := StopAt(es, i, store, now, timeout, maxRetries, writes);
    && (Resent(es, i, store, now, timeout, maxRetries, writes) ==> Bumped(es[i]).retries <= maxRetries && stop.None?)
    && (stop.Some? ==> (stop.value == MaxRetriesExceeded <==> Bumped(es[i]).retries > maxRetries))
  }

  /** Every pass, wherever and for whatever reason it stops: what it makes of entry `i`. */
  lemma {:induction false} PassExact(es: seq<Inflight>, n: nat, i: nat, store: Store, now: nat, timeout: nat,
      maxRetries: nat, writes: nat)
    requires n <= |es| && i < |es| && Live(store, es[i].publish)
    ensures RetryPass(es, n, store, now, timeout, maxRetries, writes).entries[i]
      == if i < n then PassedOver(es, i, store, now, timeout, maxRetries, writes) else es[i]
    ensures i < n ==> WithinLimit(es, i, store, now, timeout, maxRetries, writes)
  {
    if n > 0 {
      PassExact(es, n - 1, i, store, now, timeout, maxRetries, writes);
      if i == n - 1 { PassOver(es, i, store, now, timeout, maxRetries, writes); }
    }
  }

  /** The loop turn of entry `i`, which the turns before it left as it was. */
  lemma {:induction false} PassOver(es: seq<Inflight>, i: nat, store: Store, now: nat, timeout: nat, maxRetries: nat,
      writes: nat)
    requires i < |es| && Live(store, es[i].publish)
    requires RetryPass(es, i, store, now, timeout, maxRetries, writes).entries[i] == es[i]
    ensures RetryPass(es, i + 1, store, now, timeout, maxRetries, writes).entries[i]
      == PassedOver(es, i, store, now, timeout, maxRetries, writes)
    ensures WithinLimit(es, i, store, now, timeout, maxRetries, writes)
  {
  }

  /** What it puts on the wire. */
  lemma {:induction false} PassSends(es: seq<Inflight>, n: nat, store: Store, now: nat, timeout: nat, maxRetries: nat,
      writes: nat)
    requires n <= |es| && forall i :: 0 <= i < |es| ==> Live(store, es[i].publish)
    ensures RetryPass(es, n, store, now, timeout, maxRetries, writes).sent
      == Resends(es, n, store, now, timeout, maxRetries, writes)
  {
    if n > 0 {
      PassSends(es, n - 1, store, now, timeout, maxRetries, writes);
      PassExact(es, n - 1, n - 1, store, now, timeout, maxRetries, writes);
    }
  }

  lemma {:induction false} ErrorSticks(es: seq<Inflight>, i: nat, n: nat, store: Store, now: nat, timeout: nat,
      maxRetries: nat, writes: nat)
    requires i <= n <= |es| && RetryPass(es, n, store, now, timeout, maxRetries, writes).error.None?
    ensures RetryPass(es, i, store, now, timeout, maxRetries, writes).error.None?
  {
    if i < n { ErrorSticks(es, i, n - 1, store, now, timeout, maxRetries, writes); }
  }

  // -- histories ------------------------------------------------------------------------------

  datatype Content = Content(topic: string, payload: Bytes, retain: bool)

  /**
   `serial`: which allocation issued the id; `sends`: first transmission and retransmissions;
   `failed`: retransmissions whose write failed; `refused`: passes that gave up on the entry.
   */
  datatype History = History(serial: nat, sends: seq<nat>, failed: nat, refused: nat, content: Content)

  datatype Track = Track(inflight: seq<Inflight>, lastPid: nat, allocs: nat, past: seq<History>, store: Store)

  /** What can happen to the inflight list of a session between its creation and its end. */
  datatype Step =
    | Idle
    | Alloc                                       // a packet id drawn without an inflight entry
    | Admit(publish: Handle, now: nat)            // a tracked QoS 1 delivery
    | Ack(pid: nat)                               // PUBACK
    | Retry(now: nat, writes: nat)                // a retry pass

  datatype Limits = Limits(timeout: nat, maxRetries: nat)

  function ContentOf(store: Store, h: Handle): Content
    requires Live(store, h)
  {
    var st := store[h.slot].value;
    Content(st.topic, st.payload, st.retain)
  }

  /** The inflight list and packet-id counter after a step: the code's own operations. */
  function Moves(es: seq<Inflight>, lastPid: nat, step: Step, store: Store, lim: Limits): (seq<Inflight>, nat) {
    match step
    case Idle => (es, lastPid)
    case Alloc => (es, NextPid(lastPid))
    case Admit(h, now) => (es + [Inflight(NextPid(lastPid), h, now, 0)], NextPid(lastPid))
    case Ack(pid) =>
      var i := EntryIndex(es, pid);
      (if i == |es| then es else es[..i] + es[i + 1..], lastPid)
    case Retry(now, writes) => (RetryPass(es, |es|, store, now, lim.timeout, lim.maxRetries, writes).entries, lastPid)
  }

  /** The retry pass in this step, if it is one, goes through. */
  predicate Survives(t: Track, step: Step, lim: Limits) {
    step.Retry? ==>
      RetryPass(t.inflight, |t.inflight|, t.store, step.now, lim.timeout, lim.maxRetries, step.writes).error.None?
  }

  /** One delivery after a pass that wrote it or not, and that stopped at it or not. */
  function Noted(h: History, resent: bool, stop: Option<RetryError>, now: nat): History {
    if resent then h.(sends := h.sends + [now])
    else if stop.None? then h
    else if stop.value == MaxRetriesExceeded then h.(refused := h.refused + 1)
    else h.(failed := h.failed + 1)
  }

  function Logged(past: seq<History>, es: seq<Inflight>, store: Store, now: nat, writes: nat, lim: Limits): seq<History>
    requires |past| == |es|
  {
    seq(|past|, i requires 0 <= i < |past| =>
      Noted(past[i], Resent(es, i, store, now, lim.timeout, lim.maxRetries, writes),
            StopAt(es, i, store, now, lim.timeout, lim.maxRetries, writes), now))
  }

  /** The history beside the code: it only records. */
  function Recorded(t: Track, step: Step, store': Store, lim: Limits): Track
    requires |t.past| == |t.inflight| && (step.Admit? ==> Live(store', step.publish))
  {
    var (es, lastPid) := Moves(t.inflight, t.lastPid, step, t.store, lim);
    var allocs := if step.Alloc? || step.Admit? then t.allocs + 1 else t.allocs;
    var past :=
      match step
      case Admit(h, now) => t.past + [History(allocs, [now], 0, 0, ContentOf(store', h))]
      case Ack(pid) =>
        var i := EntryIndex(t.inflight, pid);
        if i == |t.inflight| then t.past else t.past[..i] + t.past[i + 1..]
      case Retry(now, writes) => Logged(t.past, t.inflight, t.store, now, writes, lim)
      case _ => t.past;
    Track(es, lastPid, allocs, past, store')
  }

  /** What the rest of the broker may do to the store: held publishes keep their content. */
  ghost predicate StoreKept(t: Track, store': Store, es: seq<Inflight>) {
    && (forall i :: 0 <= i < |es| ==> Live(store', es[i].publish))
    && (forall i, j :: 0 <= i < |t.inflight| && 0 <= j < |es| && t.inflight[i].publish == es[j].publish ==>
          SameContent(t.store, store', es[j].publish))
  }

  predicate Spaced(sends: seq<nat>, timeout: nat) {
    forall i :: 0 <= i < |sends| - 1 ==> sends[i] + timeout <= sends[i + 1]
  }

  /** What is true of every entry and its history. */
  ghost predicate Faithful(t: Track, i: nat, lim: Limits)
    requires i < |t.inflight| && i < |t.past|
  {
    var e, h := t.inflight[i], t.past[i];
    && 1 <= h.serial <= t.allocs && e.packetId == PidAt(h.serial)
    && |h.sends| > 0 && h.sends[|h.sends| - 1] == e.sentAt
    && e.retries == Min(|h.sends| - 1 + h.failed + h.refused, 255)
    && Spaced(h.sends, lim.timeout)
    && Live(t.store, e.publish) && ContentOf(t.store, e.publish) == h.content
  }

  ghost predicate Good(t: Track, lim: Limits) {
    && |t.past| == |t.inflight| && t.lastPid == PidAt(t.allocs)
    && (forall i :: 0 <= i < |t.inflight| ==> Faithful(t, i, lim))
    && (forall i, j :: 0 <= i < j < |t.past| ==> t.past[i].serial < t.past[j].serial)
  }

  /** An entry that was not touched stays faithful wherever it moved. */
  lemma {:induction false} Carried(t: Track, t': Track, j: nat, i: nat, lim: Limits)
    requires j < |t.inflight| && j < |t.past| && i < |t'.inflight| && i < |t'.past|
    requires Faithful(t, j, lim) && t'.inflight[i] == t.inflight[j] && t'.past[i] == t.past[j] && t.allocs <= t'.allocs
    requires SameContent(t.store, t'.store, t.inflight[j].publish)
    ensures Faithful(t', i, lim)
  {
  }

  lemma {:induction false} RemovedAt<T>(xs: seq<T>, k: nat, i: nat)
    requires k < |xs| && i < |xs| - 1
    ensures |xs[..k] + xs[k + 1..]| == |xs| - 1
    ensures (xs[..k] + xs[k + 1..])[i] == xs[if i < k then i else i + 1]
  {
  }

  lemma {:induction false} AckCarries(t: Track, pid: nat, store': Store, lim: Limits, i: nat)
    requires Good(t, lim) && EntryIndex(t.inflight, pid) < |t.inflight| && i < |t.inflight| - 1
    requires StoreKept(t, store', Moves(t.inflight, t.lastPid, Ack(pid), t.store, lim).0)
    ensures var t' := Recorded(t, Ack(pid), store', lim);
            && |t'.inflight| == |t'.past| == |t.inflight| - 1 && Faithful(t', i, lim)
            && t'.past[i] == t.past[if i < EntryIndex(t.inflight, pid) then i else i + 1]
  {
    var t' := Recorded(t, Ack(pid), store', lim);
    var k := EntryIndex(t.inflight, pid);
    var j := if i < k then i else i + 1;
    RemovedAt(t.inflight, k, i);
    RemovedAt(t.past, k, i);
    assert t'.inflight[i] == t.inflight[j] && t'.past[i] == t.past[j];
    assert Faithful(t, j, lim);
    Carried(t, t', j, i, lim);
  }

  lemma {:induction false} AdmitKeepsGood(t: Track, h: Handle, now: nat, store': Store, lim: Limits)
    requires Good(t, lim) && Live(store', h)
    requires StoreKept(t, store', Moves(t.inflight, t.lastPid, Admit(h, now), t.store, lim).0)
    ensures Good(Recorded(t, Admit(h, now), store', lim), lim)
  {
    var t' := Recorded(t, Admit(h, now), store', lim);
    assert PidAt(t.allocs + 1) == NextPid(PidAt(t.allocs));
    forall i | 0 <= i < |t'.inflight| ensures Faithful(t', i, lim) {
      if i < |t.inflight| { assert Faithful(t, i, lim) && t'.inflight[i] == t.inflight[i]; }
    }
    forall i | 0 <= i < |t.past| ensures t'.past[i].serial < t'.past[|t.past|].serial {
      assert Faithful(t, i, lim);
    }
  }

  lemma {:induction false} AckKeepsGood(t: Track, pid: nat, store': Store, lim: Limits)
    requires Good(t, lim)
    requires StoreKept(t, store', Moves(t.inflight, t.lastPid, Ack(pid), t.store, lim).0)
    ensures Good(Recorded(t, Ack(pid), store', lim), lim)
  {
    var t' := Recorded(t, Ack(pid), store', lim);
    var k := EntryIndex(t.inflight, pid);
    if k == |t.inflight| {
      StoreMoves(t, Idle, store', lim);
      assert t' == Recorded(t, Idle, store', lim);
    } else {
      forall i | 0 <= i < |t.inflight| - 1
        ensures Faithful(t', i, lim) && t'.past[i] == t.past[if i < k then i else i + 1]
      {
        AckCarries(t, pid, store', lim, i);
      }
    }
  }

  /** A pass keeps an entry faithful: what it writes comes at least a timeout later, with the same content. */
  lemma {:induction false} PassedFaithful(t: Track, t': Track, now: nat, writes: nat, lim: Limits, i: nat)
    requires i < |t.inflight| == |t.past| && |t'.inflight| == |t'.past| == |t.past| && Faithful(t, i, lim)
    requires t'.inflight[i] == PassedOver(t.inflight, i, t.store, now, lim.timeout, lim.maxRetries, writes)
    requires t'.past == Logged(t.past, t.inflight, t.store, now, writes, lim)
    requires t'.allocs == t.allocs && SameContent(t.store, t'.store, t.inflight[i].publish)
    ensures Faithful(t', i, lim)
  {
    assert t'.past[i] == Noted(t.past[i], Resent(t.inflight, i, t.store, now, lim.timeout, lim.maxRetries, writes),
        StopAt(t.inflight, i, t.store, now, lim.timeout, lim.maxRetries, writes), now);
  }

  lemma {:induction false} GoodIsLive(t: Track, lim: Limits)
    requires Good(t, lim)
    ensures forall i :: 0 <= i < |t.inflight| ==> Live(t.store, t.inflight[i].publish)
  {
    forall i | 0 <= i < |t.inflight| ensures Live(t.store, t.inflight[i].publish) { assert Faithful(t, i, lim); }
  }

  lemma {:induction false} RetryFaithful(t: Track, now: nat, writes: nat, store': Store, lim: Limits, i: nat)
    requires Good(t, lim) && i < |t.inflight|
    requires StoreKept(t, store', Moves(t.inflight, t.lastPid, Retry(now, writes), t.store, lim).0)
    ensures var t' := Recorded(t, Retry(now, writes), store', lim);
            && |t'.inflight| == |t'.past| == |t.past|
            && Faithful(t', i, lim) && t'.past[i].serial == t.past[i].serial
  {
    var t' := Recorded(t, Retry(now, writes), store', lim);
    assert Faithful(t, i, lim);
    RetryKeepsHandles(t.inflight, |t.inflight|, t.store, now, lim.timeout, lim.maxRetries, writes);
    PassExact(t.inflight, |t.inflight|, i, t.store, now, lim.timeout, lim.maxRetries, writes);
    PassedFaithful(t, t', now, writes, lim, i);
  }

  lemma {:induction false} RetryKeepsGood(t: Track, now: nat, writes: nat, store': Store, lim: Limits)
    requires Good(t, lim)
    requires StoreKept(t, store', Moves(t.inflight, t.lastPid, Retry(now, writes), t.store, lim).0)
    ensures Good(Recorded(t, Retry(now, writes), store', lim), lim)
  {
    var t' := Recorded(t, Retry(now, writes), store', lim);
    forall i | 0 <= i < |t.inflight| ensures Faithful(t', i, lim) && t'.past[i].serial == t.past[i].serial {
      RetryFaithful(t, now, writes, store', lim, i);
    }
  }

  lemma {:induction false} StepKeepsGood(t: Track, step: Step, store': Store, lim: Limits)
    requires Good(t, lim)
    requires step.Admit? ==> Live(store', step.publish)
    requires StoreKept(t, store', Moves(t.inflight, t.lastPid, step, t.store, lim).0)
    ensures Good(Recorded(t, step, store', lim), lim)
  {
    match step {
      case Admit(h, now) => AdmitKeepsGood(t, h, now, store', lim);
      case Ack(pid) => AckKeepsGood(t, pid, store', lim);
      case Retry(now, writes) => RetryKeepsGood(t, now, writes, store', lim);
      case Idle => StoreMoves(t, step, store', lim);
      case Alloc =>
        assert PidAt(t.allocs + 1) == NextPid(PidAt(t.allocs));
        StoreMoves(t, step, store', lim);
    }
  }

  lemma {:induction false} StoreMoves(t: Track, step: Step, store': Store, lim: Limits)
    requires Good(t, lim) && (step.Idle? || step.Alloc?) && StoreKept(t, store', t.inflight)
    ensures forall i :: 0 <= i < |t.inflight| ==> Faithful(Recorded(t, step, store', lim), i, lim)
  {
    var t' := Recorded(t, step, store', lim);
    forall i | 0 <= i < |t.inflight| ensures Faithful(t', i, lim) { assert Faithful(t, i, lim); }
  }

  // -- runs --------------------------------------------------------------------------------------

  /** A step on a store that keeps what is held. */
  ghost predicate Recordable(t: Track, step: Step, store': Store, lim: Limits) {
    && |t.past| == |t.inflight|
    && (step.Admit? ==> Live(store', step.publish))
    && StoreKept(t, store', Moves(t.inflight, t.lastPid, step, t.store, lim).0)
  }

  lemma {:induction false} RecordedAligned(t: Track, step: Step, store': Store, lim: Limits)
    requires Recordable(t, step, store', lim)
    ensures var t' := Recorded(t, step, store', lim); |t'.past| == |t'.inflight|
  {
  }

  /** The whole life of a session, from its creation with nothing in flight. */
  ghost predicate Life(ts: seq<Track>, steps: seq<Step>, lim: Limits) {
    && |ts| == |steps| + 1
    && ts[0].inflight == [] && ts[0].past == [] && ts[0].lastPid == 0 && ts[0].allocs == 0
    && forall i :: 0 <= i < |steps| ==>
         Recordable(ts[i], steps[i], ts[i + 1].store, lim) && ts[i + 1] == Recorded(ts[i], steps[i], ts[i + 1].store, lim)
  }

  lemma {:induction false} LifeExtends(ts: seq<Track>, steps: seq<Step>, step: Step, t: Track, lim: Limits)
    requires Life(ts, steps, lim)
    requires Recordable(ts[|steps|], step, t.store, lim) && t == Recorded(ts[|steps|], step, t.store, lim)
    ensures Life(ts + [t], steps + [step], lim)
  {
    var ts', steps' := ts + [t], steps + [step];
    forall i | 0 <= i < |steps'|
      ensures Recordable(ts'[i], steps'[i], ts'[i + 1].store, lim)
      ensures ts'[i + 1] == Recorded(ts'[i], steps'[i], ts'[i + 1].store, lim)
    {
      if i < |steps| { assert ts'[i + 1] == ts[i + 1]; }
    }
  }

  /** The step that admitted this delivery. */
  ghost predicate AdmittedBy(t: Track, step: Step, t': Track, h: History) {
    && step.Admit? && Live(t'.store, step.publish)
    && h.serial == t.allocs + 1 && |h.sends| > 0 && h.sends[0] == step.now
    && h.content == ContentOf(t'.store, step.publish)
  }

  /** Every delivery in flight was admitted by a step of the life, and its history begins there. */
  lemma {:induction false} EveryEntryWasAdmitted(ts: seq<Track>, steps: seq<Step>, lim: Limits, n: nat, j: nat)
      returns (i: nat)
    requires Life(ts, steps, lim) && n <= |steps| && j < |ts[n].past|
    ensures i < n && AdmittedBy(ts[i], steps[i], ts[i + 1], ts[n].past[j])
    decreases n
  {
    var t, step := ts[n - 1], steps[n - 1];
    assert Recordable(t, step, ts[n].store, lim) && ts[n] == Recorded(t, step, ts[n].store, lim);
    if step.Admit? && j == |t.past| {
      NewestIsAdmitted(t, step, ts[n].store, lim);
      i := n - 1;
    } else {
      SameBeginning(t, step, ts[n].store, lim, j);
      i := EveryEntryWasAdmitted(ts, steps, lim, n - 1, EarlierIndex(t, step, j));
      StaysAdmitted(ts[i], steps[i], ts[i + 1], t.past[EarlierIndex(t, step, j)], ts[n].past[j]);
    }
  }

  lemma {:induction false} NewestIsAdmitted(t: Track, step: Step, store': Store, lim: Limits)
    requires Recordable(t, step, store', lim) && step.Admit?
    ensures var t' := Recorded(t, step, store', lim);
            |t'.past| == |t.past| + 1 && AdmittedBy(t, step, t', t'.past[|t.past|])
  {
  }

  lemma {:induction false} StaysAdmitted(t: Track, step: Step, t': Track, h: History, h': History)
    requires AdmittedBy(t, step, t', h) && h'.serial == h.serial && h'.content == h.content && h.sends <= h'.sends
    ensures AdmittedBy(t, step, t', h')
  {
  }

  /** Where an entry of the list after a step was before it. */
  function EarlierIndex(t: Track, step: Step, j: nat): nat {
    if step.Ack? && EntryIndex(t.inflight, step.pid) <= j && EntryIndex(t.inflight, step.pid) < |t.inflight| then j + 1 else j
  }

  lemma {:induction false} SameBeginning(t: Track, step: Step, store': Store, lim: Limits, j: nat)
    requires Recordable(t, step, store', lim) && j < |Recorded(t, step, store', lim).past|
    requires !(step.Admit? && j == |t.past|)
    ensures EarlierIndex(t, step, j) < |t.past|
    ensures var h, h' := t.past[EarlierIndex(t, step, j)], Recorded(t, step, store', lim).past[j];
            && h'.serial == h.serial && h'.content == h.content && h.sends <= h'.sends && (step.Retry? || h' == h)
  {
    if step.Ack? && EntryIndex(t.inflight, step.pid) < |t.inflight| {
      RemovedAt(t.past, EntryIndex(t.inflight, step.pid), j);
    }
  }

  /**
   Throughout the life of a session, whatever becomes of its retry passes, every unacknowledged
   delivery keeps the packet id it was issued and the content of its first transmission, was never
   sent sooner than `timeout` after the previous transmission, and its counter, up to 255, counts
   every retransmission that was written, failed or refused.
   */
  lemma {:induction false} LifeIsGood(ts: seq<Track>, steps: seq<Step>, lim: Limits, n: nat)
    requires Life(ts, steps, lim) && n <= |steps|
    ensures Good(ts[n], lim)
  {
    if n > 0 {
      LifeIsGood(ts, steps, lim, n - 1);
      StepKeepsGood(ts[n - 1], steps[n - 1], ts[n].store, lim);
    }
  }

  /** What goes out in a retry pass, complete or not, carries the id and content of the first transmission. */
  lemma {:induction false} ResendsRepeatTheFirst(t: Track, now: nat, writes: nat, lim: Limits)
    requires Good(t, lim)
    ensures forall i :: 0 <= i < |t.inflight| ==> Live(t.store, t.inflight[i].publish)
    ensures RetryPass(t.inflight, |t.inflight|, t.store, now, lim.timeout, lim.maxRetries, writes).sent
      == Resends(t.inflight, |t.inflight|, t.store, now, lim.timeout, lim.maxRetries, writes)
    ensures forall i :: 0 <= i < |t.inflight| ==>
      var h := t.past[i];
      ResendOf(t.inflight[i], t.store) ==
      Resend(PidAt(h.serial), h.content.topic, h.content.payload, h.content.retain)
  {
    GoodIsLive(t, lim);
    PassSends(t.inflight, |t.inflight|, t.store, now, lim.timeout, lim.maxRetries, writes);
    forall i | 0 <= i < |t.inflight|
      ensures ResendOf(t.inflight[i], t.store) ==
              Resend(PidAt(t.past[i].serial), t.past[i].content.topic, t.past[i].content.payload, t.past[i].content.retain)
    {
      assert Faithful(t, i, lim);
    }
  }

  // -- how often a delivery is sent --------------------------------------------------------------

  /** Every delivery was written, or its write tried, at most once plus `maxRetries` times. */
  ghost predicate Limited(t: Track, lim: Limits) {
    forall i :: 0 <= i < |t.past| ==> |t.past[i].sends| + t.past[i].failed <= 1 + lim.maxRetries
  }

  lemma {:induction false} PassLimited(t: Track, now: nat, writes: nat, lim: Limits, i: nat)
    requires Good(t, lim) && Limited(t, lim) && lim.maxRetries < 255 && i < |t.past|
    ensures var h := Logged(t.past, t.inflight, t.store, now, writes, lim)[i];
            |h.sends| + h.failed <= 1 + lim.maxRetries
  {
    assert Faithful(t, i, lim);
    PassExact(t.inflight, |t.inflight|, i, t.store, now, lim.timeout, lim.maxRetries, writes);
  }

  lemma {:induction false} StepKeepsLimited(t: Track, step: Step, store': Store, lim: Limits)
    requires Good(t, lim) && Limited(t, lim) && lim.maxRetries < 255 && Recordable(t, step, store', lim)
    ensures Limited(Recorded(t, step, store', lim), lim)
  {
    var t' := Recorded(t, step, store', lim);
    forall j | 0 <= j < |t'.past| ensures |t'.past[j].sends| + t'.past[j].failed <= 1 + lim.maxRetries {
      if step.Retry? {
        PassLimited(t, step.now, step.writes, lim, j);
      } else if !(step.Admit? && j == |t.past|) {
        SameBeginning(t, step, store', lim, j);
      }
    }
  }

  /** Below 255 that holds throughout the life of a session, failed passes included. */
  lemma {:induction false} LifeIsLimited(ts: seq<Track>, steps: seq<Step>, lim: Limits, n: nat)
    requires Life(ts, steps, lim) && lim.maxRetries < 255 && n <= |steps|
    ensures Limited(ts[n], lim)
  {
    if n > 0 {
      LifeIsLimited(ts, steps, lim, n - 1);
      LifeIsGood(ts, steps, lim, n - 1);
      StepKeepsLimited(ts[n - 1], steps[n - 1], ts[n].store, lim);
    }
  }

  const ENDLESS := Handle.Handle(0, 1)
  const ENDLESS_STORE: Store := [Some(Stored("x", [], false, 1, 1))]

  /** At 255 a session can live on and send the same delivery any number of times. */
  lemma {:induction false} EndlessLife(lim: Limits, n: nat) returns (ts: seq<Track>, steps: seq<Step>)
    requires lim.maxRetries >= 255
    ensures Life(ts, steps, lim) && ts[|steps|].store == ENDLESS_STORE && |ts[|steps|].past| == 1
    ensures |ts[|steps|].past[0].sends| == n + 1
  {
    var t, step;
    if n == 0 {
      ts, steps, step := [Track([], 0, 0, [], ENDLESS_STORE)], [], Admit(ENDLESS, 0);
    } else {
      ts, steps := EndlessLife(lim, n - 1);
      LifeIsGood(ts, steps, lim, |steps|);
      var e := ts[|steps|].inflight[0];
      assert Faithful(ts[|steps|], 0, lim);
      PidInRange(ts[|steps|].past[0].serial);
      step := Retry(e.sentAt + lim.timeout, 1);
      EndlessRetry(ts[|steps|], step.now, lim);
    }
    t := Recorded(ts[|steps|], step, ENDLESS_STORE, lim);
    LifeExtends(ts, steps, step, t, lim);
    ts, steps := ts + [t], steps + [step];
  }

  lemma {:induction false} EndlessRetry(t: Track, now: nat, lim: Limits)
    requires |t.inflight| == |t.past| == 1 && Live(t.store, t.inflight[0].publish) && t.inflight[0].packetId != 0
    requires Due(t.inflight[0], now, lim.timeout) && lim.maxRetries >= 255
    ensures Recordable(t, Retry(now, 1), t.store, lim)
    ensures |Recorded(t, Retry(now, 1), t.store, lim).past[0].sends| == |t.past[0].sends| + 1
  {
    RetryKeepsHandles(t.inflight, 1, t.store, now, lim.timeout, lim.maxRetries, 1);
    assert RetryPass(t.inflight, 0, t.store, now, lim.timeout, lim.maxRetries, 1).error.None?;
    assert Resent(t.inflight, 0, t.store, now, lim.timeout, lim.maxRetries, 1);
  }

  /** So the limit is kept by every life exactly when it is below 255. */
  lemma {:induction false} LimitedExactly(lim: Limits)
    ensures (forall ts, steps :: Life(ts, steps, lim) ==> Limited(ts[|steps|], lim)) <==> lim.maxRetries < 255
  {
    if lim.maxRetries < 255 {
      forall ts, steps | Life(ts, steps, lim) ensures Limited(ts[|steps|], lim) {
        LifeIsLimited(ts, steps, lim, |steps|);
      }
    } else {
      var ts, steps := EndlessLife(lim, lim.maxRetries + 1);
      assert Life(ts, steps, lim) && !Limited(ts[|steps|], lim);
    }
  }

  /** No write of this delivery failed, and no pass gave up on it. */
  ghost predicate Unfailed(t: Track) {
    forall i :: 0 <= i < |t.past| ==> t.past[i].failed == t.past[i].refused == 0
  }

  /** Each entry's counter is the number of its retransmissions, within the limit. */
  ghost predicate Counted(t: Track, lim: Limits) {
    && |t.past| == |t.inflight|
    && forall i :: 0 <= i < |t.inflight| ==>
         |t.past[i].sends| == t.inflight[i].retries + 1 && t.inflight[i].retries <= lim.maxRetries
  }

  /** While every pass goes through, the counter is the number of retransmissions. */
  lemma {:induction false} UnfailedLife(ts: seq<Track>, steps: seq<Step>, lim: Limits, n: nat)
    requires Life(ts, steps, lim) && n <= |steps| && lim.maxRetries < 255
    requires forall i :: 0 <= i < n ==> Survives(ts[i], steps[i], lim)
    ensures Unfailed(ts[n]) && Counted(ts[n], lim)
  {
    if n > 0 {
      UnfailedLife(ts, steps, lim, n - 1);
      StepUnfailed(ts[n - 1], steps[n - 1], ts[n].store, lim);
    }
    LifeIsGood(ts, steps, lim, n);
    LifeIsLimited(ts, steps, lim, n);
    forall i | 0 <= i < |ts[n].inflight| ensures |ts[n].past[i].sends| == ts[n].inflight[i].retries + 1 {
      assert Faithful(ts[n], i, lim);
    }
  }

  lemma {:induction false} StepUnfailed(t: Track, step: Step, store': Store, lim: Limits)
    requires Unfailed(t) && Recordable(t, step, store', lim) && Survives(t, step, lim)
    ensures Unfailed(Recorded(t, step, store', lim))
  {
    var t' := Recorded(t, step, store', lim);
    forall j | 0 <= j < |t'.past| ensures t'.past[j].failed == t'.past[j].refused == 0 {
      if step.Retry? {
        ErrorSticks(t.inflight, j + 1, |t.inflight|, t.store, step.now, lim.timeout, lim.maxRetries, step.writes);
      } else if !(step.Admit? && j == |t.past|) {
        SameBeginning(t, step, store', lim, j);
      }
    }
  }

  /** The pass cannot go on with this entry: it is due and its counter would pass the limit. */
  predicate Exhausted(e: Inflight, now: nat, timeout: nat, maxRetries: nat) {
    Due(e, now, timeout) && Min(e.retries + 1, 255) > maxRetries
  }

  /**
   While writes succeed, a pass over valid entries fails exactly when one of them is exhausted, and
   never for another reason.
   */
  lemma {:induction false} RetryFailsExactly(es: seq<Inflight>, n: nat, store: Store, now: nat, timeout: nat,
      maxRetries: nat, writes: nat)
    requires n <= |es| <= writes
    requires forall i :: 0 <= i < |es| ==> Live(store, es[i].publish) && es[i].packetId != 0
    ensures var p := RetryPass(es, n, store, now, timeout, maxRetries, writes);
            && |p.sent| <= n
            && (p.error == Some(MaxRetriesExceeded) <==>
                  exists i :: 0 <= i < n && Exhausted(es[i], now, timeout, maxRetries))
            && (p.error.Some? ==> p.error == Some(MaxRetriesExceeded))
  {
    if n > 0 {
      RetryFailsExactly(es, n - 1, store, now, timeout, maxRetries, writes);
      RetryKeepsHandles(es, n - 1, store, now, timeout, maxRetries, writes);
    }
  }

  /** Whatever the transport does, a pass with an exhausted entry fails. */
  lemma {:induction false} ExhaustedEntryFailsPass(es: seq<Inflight>, i: nat, store: Store, now: nat, timeout: nat,
      maxRetries: nat, writes: nat)
    requires i < |es| && Exhausted(es[i], now, timeout, maxRetries)
    requires forall k :: 0 <= k < |es| ==> Live(store, es[k].publish)
    ensures RetryPass(es, |es|, store, now, timeout, maxRetries, writes).error.Some?
  {
    if RetryPass(es, |es|, store, now, timeout, maxRetries, writes).error.None? {
      RetryExact(es, |es|, store, now, timeout, maxRetries, writes);
      assert false;
    }
  }

  /** Below 255 the exhausted entries are the due ones that used up their retries, and one of them fails any pass. */
  lemma {:induction false} ExhaustedEntryEndsSession(t: Track, i: nat, now: nat, writes: nat, lim: Limits)
    requires Good(t, lim) && lim.maxRetries < 255 && i < |t.inflight|
    ensures Exhausted(t.inflight[i], now, lim.timeout, lim.maxRetries) <==>
            Due(t.inflight[i], now, lim.timeout) &&
            |t.past[i].sends| + t.past[i].failed + t.past[i].refused > lim.maxRetries
    ensures Exhausted(t.inflight[i], now, lim.timeout, lim.maxRetries) ==> !Survives(t, Retry(now, writes), lim)
  {
    assert Faithful(t, i, lim);
    if Exhausted(t.inflight[i], now, lim.timeout, lim.maxRetries) {
      GoodIsLive(t, lim);
      ExhaustedEntryFailsPass(t.inflight, i, t.store, now, lim.timeout, lim.maxRetries, writes);
    }
  }

  /** With `maxRetries` at 255 the counter saturates: no list of valid entries is ever given up for its retries. */
  lemma {:induction false} SaturatedRetriesNeverEnd(es: seq<Inflight>, store: Store, now: nat, timeout: nat,
      maxRetries: nat, writes: nat)
    requires maxRetries >= 255 && |es| <= writes
    requires forall i :: 0 <= i < |es| ==> Live(store, es[i].publish) && es[i].packetId != 0
    ensures RetryPass(es, |es|, store, now, timeout, maxRetries, writes).error.None?
  {
    RetryFailsExactly(es, |es|, store, now, timeout, maxRetries, writes);
  }

  /** Every entry left before 65535 further allocations. */
  ghost predicate Prompt(t: Track) {
    forall i :: 0 <= i < |t.past| ==> t.allocs < t.past[i].serial + PIDS
  }

  /** Then the ids in flight are distinct, and a PUBACK of a tracked delivery's own id removes exactly that delivery. */
  lemma {:induction false} AckRemovesItsDelivery(t: Track, k: nat, store': Store, lim: Limits)
    requires Good(t, lim) && Prompt(t) && k < |t.inflight|
    ensures forall i, j :: 0 <= i < j < |t.inflight| ==> t.inflight[i].packetId != t.inflight[j].packetId
    ensures Recorded(t, Ack(PidAt(t.past[k].serial)), store', lim).past == t.past[..k] + t.past[k + 1..]
    ensures Recorded(t, Ack(PidAt(t.past[k].serial)), store', lim).inflight == t.inflight[..k] + t.inflight[k + 1..]
  {
    forall i, j | 0 <= i < j < |t.inflight| ensures t.inflight[i].packetId != t.inflight[j].packetId {
      assert Faithful(t, i, lim) && Faithful(t, j, lim);
      PidsDistinct(t.past[i].serial, t.past[j].serial);
    }
    assert Faithful(t, k, lim);
    assert EntryIndex(t.inflight, t.inflight[k].packetId) == k;
  }

  /** The id the session's counter issued as number `serial` is not in flight any more, or never was. */
  ghost predicate Untracked(t: Track, serial: nat) {
    && 1 <= serial <= t.allocs < serial + PIDS
    && forall i :: 0 <= i < |t.past| ==> t.past[i].serial != serial
  }

  /** A PUBACK of a recent id of the counter that is not tracked removes nothing. */
  lemma {:induction false} UntrackedAckRemovesNothing(t: Track, serial: nat, store': Store, lim: Limits)
    requires Good(t, lim) && Prompt(t) && Untracked(t, serial)
    ensures Recorded(t, Ack(PidAt(serial)), store', lim).inflight == t.inflight
    ensures Recorded(t, Ack(PidAt(serial)), store', lim).past == t.past
  {
    forall i | 0 <= i < |t.inflight| ensures t.inflight[i].packetId != PidAt(serial) {
      assert Faithful(t, i, lim);
      var p := t.past[i].serial;
      if p < serial { PidsDistinct(p, serial); } else { PidsDistinct(serial, p); }
    }
  }

  /** A PUBACK, whoever issued the id, leaves the inflight list alone exactly when no entry carries that id. */
  lemma {:induction false} AckHarmlessExactly(es: seq<Inflight>, lastPid: nat, pid: nat, store: Store, lim: Limits)
    ensures Moves(es, lastPid, Ack(pid), store, lim).0 == es <==> forall i :: 0 <= i < |es| ==> es[i].packetId != pid
  {
  }
}
