/**
 Connection loops interleaving over the shared broker state
 (crates/GatoMQTT/src/handler/connection.rs). One step runs from taking the registry lock to
 releasing it, or is an outcome of an await that touches no shared state.
 */
module Broker {
  import opened Basics
  import opened RateLimit
  import opened Sessions
  import opened PublishStore
  import opened Topics
  import opened FanOut
  import opened FanOutSpec
  import opened Retained
  import opened Subscribe
  import opened RegistryOps
  import opened Connect
  import opened Publish
  import opened Timers

  datatype Inbound =
    | InPublish(m: Message)
    | InPuback(pid: nat)
    | InSubscribe(requests: seq<Request>)
    | InUnsubscribe(filters: seq<string>)
    | InPing
    | InDisconnect
    | InOther

  /** Where a running connection loop is. */
  datatype Point =
    | Acking                                 // writing CONNACK
    | Flushing                               // about to take the lock and look at the outbox
    | Writing                                // writing a packet taken from the outbox
    | Checking                               // about to take the lock for retries and timers
    | Waiting                                // in select: packet, timer or signal
    | Handling(packet: Inbound)              // about to take the lock for a packet
    | Replying(publishes: seq<Packet>)       // writing PUBACK, SUBACK and retained messages, UNSUBACK or PINGRESP
    | Closing(clean: bool)                   // cleanup, before the will is looked up
    | Willing(lwt: Lwt, targets: seq<Target>) // cleanup, before the will is queued
    | Removing                               // cleanup, before the session is removed

  /** A connection task: between connections, or running for a client on a slot. */
  datatype Loop = Off | On(slot: nat, client: string, tenure: nat, at: Point)

  /** `tenures` is a history variable: it numbers the successive sessions of each slot. */
  datatype Sys = Sys(sh: Shared, loops: seq<Loop>, tenures: seq<nat>)

  datatype Action =
    | AckWritten(ok: bool)
    | Flush
    | Written(ok: bool)
    | Check(retryAt: nat, writes: nat, now: nat)
    | TimerFired
    | SignalFired
    | Arrived(packet: Inbound)
    | ReadFailed
    | Handle(at: nat, handlerAccepts: bool)
    | ReplyWritten(ok: bool)
    | CloseWill
    | QueueWill
    | Remove

  datatype Event =
    | Connecting(loop: nat, packet: ConnectPacket, at: nat)
    | Acting(loop: nat, action: Action)
    | Outbound(m: Message, at: nat)
    | TakeWill

  // -- lock regions of one loop -----------------------------------------------------

  function SessionAt(sh: Shared, slot: nat): Option<Session> {
    if slot < |sh.reg.slots| then sh.reg.slots[slot] else None
  }

  function WithSession(sh: Shared, slot: nat, s: Session): Shared
    requires slot < |sh.reg.slots|
  {
    sh.(reg := PutSession(sh.reg, slot, s))
  }

  /** One turn of flush_outbox_for_session. */
  function FlushStep(sh: Shared, slot: nat): (Shared, Point) {
    var o := SessionAt(sh, slot);
    if o.None? then (sh, Checking)
    else if o.value.outbox == [] then (WithSession(sh, slot, o.value.(drops := 0)), Checking)
    else (WithSession(sh, slot, o.value.(outbox := o.value.outbox[1..])), Writing)
  }

  /** Quarantine, retries (the lock is held across the writes) and keepalive. */
  function CheckStep(sh: Shared, slot: nat, retryAt: nat, writes: nat, now: nat, cfg: Config): (Shared, Point) {
    var o := SessionAt(sh, slot);
    if o.None? || o.value.quarantined then (sh, Closing(false))
    else
      var s := o.value;
      var p := RetryAll(s, sh.reg.store, retryAt, cfg.retryTicks, cfg.maxRetries, writes);
      var s' := s.(inflight := p.entries);
      (WithSession(sh, slot, s'),
       if p.error.Some? || KeepaliveExpired(s', now, cfg.hz) then Closing(false) else Waiting)
  }

  function Touched(sh: Shared, slot: nat, now: nat): Shared
    requires SessionAt(sh, slot).Some?
  {
    WithSession(sh, slot, sh.reg.slots[slot].value.(lastActivity := now))
  }

  /** The lock region of a packet, on a session that exists and was just touched. */
  function HandleStep(sh: Shared, slot: nat, p: Inbound, now: nat, cfg: Config, handlerAccepts: bool): (Shared, Point)
    requires SessionAt(sh, slot).Some? && cfg.hz > 0
  {
    var s := sh.reg.slots[slot].value;
    match p
    case InPublish(m) =>
      var (sh', res) := HandlePublish(sh, slot, m, now, cfg, handlerAccepts);
      (sh', if res == RateLimitDisconnect || res == HandlerOverloaded then Closing(false)
            else if m.qos == AtLeastOnce then Replying([]) else Flushing)
    case InPuback(pid) => (sh.(reg := Acknowledge(sh.reg, slot, pid)), Flushing)
    case InSubscribe(ts) =>
      var p := Granted(s.subscriptions, cfg.maxSubs, ts, |ts|);
      var replay := Replayed(sh.retained, cfg.maxRetained, p.added, |p.added|);
      (WithSession(sh, slot, s.(subscriptions := p.subs)), Replying(ReplayPackets(replay, |replay|).packets))
    case InUnsubscribe(fs) =>
      (WithSession(sh, slot, s.(subscriptions := Dropped(s.subscriptions, fs, |fs|))), Replying([]))
    case InPing => (sh, Replying([]))
    case InDisconnect => (sh, Flushing)
    case InOther => (sh, Flushing)
  }

  /** find_lwt_subscribers: every matching session of another client, up to slot `n`. */
  function WillTargets(slots: Slots, client: string, topic: string, n: nat): seq<Target>
    requires n <= |slots|
  {
    if n == 0 then []
    else
      var init := WillTargets(slots, client, topic, n - 1);
      var o := slots[n - 1];
      if o.None? || o.value.clientId == client then init
      else
        var q := MatchQos(o.value.subscriptions, topic);
        if q.None? then init else init + [Target(n - 1, q.value)]
  }

  /** The first lock region of an unclean cleanup. */
  function CloseStep(sh: Shared, slot: nat, cfg: Config): (Shared, Point) {
    var o := SessionAt(sh, slot);
    if o.None? || o.value.lwt.None? then (sh, Removing)
    else
      var w := o.value.lwt.value;
      var (es, res) := if w.retain then SetEntry(sh.retained, cfg.maxRetained, Write(w.topic, w.payload, w.qos))
                       else (sh.retained, SetOk);
      var ts := WillTargets(sh.reg.slots, o.value.clientId, w.topic, |sh.reg.slots|);
      (sh.(retained := es), if res != SetOk || ts == [] then Removing else Willing(w, ts))
  }

  /** The second lock region: queue the will at the subscription's QoS; a full outbox loses it. */
  function QueueOne(sh: Shared, w: Lwt, t: Target): Shared {
    var o := SessionAt(sh, t.id);
    if o.None? || t.id >= |sh.signals| || !Encodes(w.topic, w.payload, t.qos) || |o.value.outbox| >= MAX_OUTBOX then sh
    else
      var p := Packet(t.qos, if t.qos == AtMostOnce then 0 else 1, w.retain, w.topic, w.payload);
      WithSession(sh, t.id, o.value.(outbox := o.value.outbox + [p])).(signals := sh.signals[t.id := true])
  }

  function QueueWills(sh: Shared, w: Lwt, ts: seq<Target>, n: nat): Shared
    requires n <= |ts|
  {
    if n == 0 then sh else QueueOne(QueueWills(sh, w, ts, n - 1), w, ts[n - 1])
  }

  predicate Ready(sh: Shared, slot: nat, at: Point, a: Action) {
    match a
    case AckWritten(_) => at.Acking?
    case Flush => at.Flushing?
    case Written(_) => at.Writing?
    case Check(_, _, _) => at.Checking?
    case TimerFired => at.Waiting?
    case SignalFired => at.Waiting? && slot < |sh.signals| && sh.signals[slot]
    case Arrived(_) => at.Waiting?
    case ReadFailed => at.Waiting?
    case Handle(_, _) => at.Handling?
    case ReplyWritten(_) => at.Replying?
    case CloseWill => at.Closing?
    case QueueWill => at.Willing?
    case Remove => at.Removing?
  }

  /** What one action of a loop does; None when the loop is over. */
  function Act(sh: Shared, slot: nat, at: Point, a: Action, cfg: Config): (Shared, Option<Point>)
    requires Ready(sh, slot, at, a) && cfg.hz > 0
  {
    match a
    case AckWritten(ok) => (sh, if ok then Some(Flushing) else None)
    case Flush => var (sh', p) := FlushStep(sh, slot); (sh', Some(p))
    case Written(ok) => (sh, Some(if ok then Flushing else Closing(false)))
    case Check(retryAt, writes, now) => var (sh', p) := CheckStep(sh, slot, retryAt, writes, now, cfg); (sh', Some(p))
    case TimerFired => (sh, Some(Flushing))
    case SignalFired => (sh.(signals := sh.signals[slot := false]), Some(Flushing))
    case Arrived(p) => (sh, Some(if p.InDisconnect? then Closing(true) else Handling(p)))
    case ReadFailed => (sh, Some(Closing(false)))
    case Handle(now, accepts) =>
      if SessionAt(sh, slot).None? then (sh, Some(Closing(false)))
      else
        var (sh', p) := HandleStep(Touched(sh, slot, now), slot, at.packet, now, cfg, accepts);
        (sh', Some(p))
    case ReplyWritten(ok) => (sh, Some(if ok then Flushing else Closing(false)))
    case CloseWill =>
      if at.clean then (sh, Some(Removing))
      else var (sh', p) := CloseStep(sh, slot, cfg); (sh', Some(p))
    case QueueWill => (QueueWills(sh, at.lwt, at.targets, |at.targets|), Some(Removing))
    case Remove =>
      (sh.(reg := RemoveSession(sh.reg, slot),
           signals := if slot < |sh.signals| then sh.signals[slot := false] else sh.signals), None)
  }

  // -- accepting a CONNECT ------------------------------------------------------------

  /** reset_empty_session_signals, then the reset of the accepted slot. */
  function ResetSignals(slots: Slots, signals: seq<bool>, accepted: Option<nat>): seq<bool>
    requires |signals| == |slots|
  {
    seq(|signals|, i requires 0 <= i < |signals| => signals[i] && slots[i].Some? && accepted != Some(i))
  }

  function Activated(r: Registry, slot: nat, now: nat, cfg: Config): Registry
    requires slot < |r.slots| && r.slots[slot].Some?
  {
    PutSession(r, slot, r.slots[slot].value.(rate := NewBucket(cfg.rateCapacity, cfg.ratePerSec), lastActivity := now))
  }

  /** The CONNECT discards the client's previous session and may open a new one. */
  predicate OpensAnew(r: Registry, c: ConnectPacket) {
    !RefusedEarly(c) && (c.cleanSession || FindClient(r.slots, c.clientId) == |r.slots|)
  }

  function Bump(tenures: seq<nat>, i: nat): seq<nat> {
    if i < |tenures| then tenures[i := tenures[i] + 1] else tenures
  }

  function TenuresAfter(tenures: seq<nat>, r: Registry, c: ConnectPacket): (t: seq<nat>)
    ensures |t| == |tenures|
  {
    if !OpensAnew(r, c) then tenures
    else Bump(Bump(tenures, FindClient(r.slots, c.clientId)), FirstEmpty(Vacated(r.slots, c.clientId)))
  }

  function ConnectStep(sh: Shared, c: ConnectPacket, now: nat, cfg: Config): (o: (Shared, Option<nat>))
    requires |sh.signals| == |sh.reg.slots|
    ensures o.1.Some? ==> o.1.value < |sh.reg.slots|
  {
    var (r, result) := PrepareConnect(sh.reg, c);
    if result.Accepted? then
      (sh.(reg := Activated(r, result.slot, now, cfg), signals := ResetSignals(r.slots, sh.signals, Some(result.slot))),
       Some(result.slot))
    else (sh.(reg := r, signals := ResetSignals(r.slots, sh.signals, None)), None)
  }

  // -- the system ---------------------------------------------------------------------

  predicate Shaped(s: Sys) {
    |s.sh.signals| == |s.sh.reg.slots| == |s.tenures|
  }

  predicate Enabled(s: Sys, e: Event) {
    match e
    case Connecting(l, _, _) => l < |s.loops| && s.loops[l].Off?
    case Acting(l, a) => l < |s.loops| && s.loops[l].On? && Ready(s.sh, s.loops[l].slot, s.loops[l].at, a)
    case Outbound(_, _) => true
    case TakeWill => s.sh.reg.lwts != []
  }

  function Apply(s: Sys, e: Event, cfg: Config): Sys
    requires Shaped(s) && Enabled(s, e) && cfg.hz > 0
  {
    match e
    case Connecting(l, c, now) =>
      var (sh, slot) := ConnectStep(s.sh, c, now, cfg);
      var tenures := TenuresAfter(s.tenures, s.sh.reg, c);
      Sys(sh, if slot.Some? then s.loops[l := On(slot.value, c.clientId, tenures[slot.value], Acking)] else s.loops,
          tenures)
    case Acting(l, a) =>
      var loop := s.loops[l];
      var (sh, p) := Act(s.sh, loop.slot, loop.at, a, cfg);
      Sys(sh, s.loops[l := if p.Some? then loop.(at := p.value) else Off],
          if a.Remove? then Bump(s.tenures, loop.slot) else s.tenures)
    case Outbound(m, now) => s.(sh := OutboundPublish(s.sh, m, now, cfg))
    case TakeWill => s.(sh := s.sh.(reg := s.sh.reg.(lwts := s.sh.reg.lwts[1..])))
  }
}
