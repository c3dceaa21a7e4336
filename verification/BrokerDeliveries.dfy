/** Every step of the broker moves each session's inflight list by one of the delivery steps. */
module BrokerDeliveries {
  import opened Basics
  import opened RateLimit
  import opened Sessions
  import opened PublishStore
  import opened FanOut
  import opened FanOutSpec
  import opened RegistryOps
  import opened Connect
  import opened Publish
  import opened Broker
  import opened BrokerSafety
  import opened BrokerRuns
  import D = Deliveries

  // -- held publishes keep their content -----------------------------------------------------

  /** A handle held before and after stands for the same publish. */
  ghost predicate KeepsContent(r: Registry, r': Registry) {
    forall h :: h in Held(r.slots) && h in Held(r'.slots) ==> SameContent(r.store, r'.store, h)
  }

  lemma {:induction false} SameStoreKeepsContent(r: Registry, r': Registry)
    requires Conserved(r) && r'.store == r.store
    ensures KeepsContent(r, r')
  {
  }

  /** A delivery adds holders and never disturbs a held publish. */
  lemma {:induction false} DeliverOneContent(f: Fan, t: Target, m: Message, now: nat, maxDrops: nat, h: Handle)
    requires Conserved(f.reg) && h in Held(f.reg.slots)
    ensures var g := DeliverOne(f, t, m, now, maxDrops);
            h in Held(g.reg.slots) && SameContent(f.reg.store, g.reg.store, h)
  {
    if t.id < |f.reg.slots| && t.id < |f.signals| && f.reg.slots[t.id].Some? {
      var s := f.reg.slots[t.id].value;
      var q := MinQos(m.qos, t.qos);
      var s' := Enqueue(s, m, q, maxDrops);
      SwapConserved(f.reg, t.id, Addressed(s, q));
      SwapConserved(f.reg, t.id, s');
      if Encodes(m.topic, m.payload, q) && Trackable(s, q, |f.reg.store|) {
        var g := f.(reg := PutSession(f.reg, t.id, s'),
                    signals := if |s.outbox| < MAX_OUTBOX then f.signals[t.id := true] else f.signals);
        ShareBalanced(g, m);
        var (g', k) := Share(g, m);
        if k.Some? { TrackHolds(g'.reg, t.id, s', PidFor(s, q), k.value, now, h); }
      }
    }
  }

  lemma {:induction false} TrackHolds(r: Registry, id: nat, s: Session, pid: nat, k: Handle, now: nat, h: Handle)
    requires id < |r.slots| && r.slots[id] == Some(s) && h in Held(r.slots)
    ensures h in Held(PutSession(r, id, WithDelivery(s, pid, k, now)).slots)
  {
    var s' := WithDelivery(s, pid, k, now);
    HandlesOfAppend(s.inflight, Inflight(pid, k, now, 0));
    HeldUpdateAt(r.slots, id, Some(s'), h);
  }

  lemma {:induction false} RouteContent(f: Fan, ts: seq<Target>, n: nat, m: Message, now: nat, maxDrops: nat, h: Handle)
    requires n <= |ts| && Conserved(f.reg) && h in Held(f.reg.slots)
    ensures var g := Route(f, ts, n, m, now, maxDrops);
            h in Held(g.reg.slots) && SameContent(f.reg.store, g.reg.store, h)
  {
    if n == 0 {
      assert Live(f.reg.store, h);
    } else {
      RouteContent(f, ts, n - 1, m, now, maxDrops, h);
      RouteConserves(f, ts, n - 1, m, now, maxDrops);
      RouteOneMore(f, Route(f, ts, n - 1, m, now, maxDrops), Route(f, ts, n, m, now, maxDrops), ts, n, m, now, maxDrops, h);
    }
  }

  lemma {:induction false} RouteOneMore(f: Fan, g: Fan, g': Fan, ts: seq<Target>, n: nat, m: Message, now: nat,
      maxDrops: nat, h: Handle)
    requires 0 < n <= |ts| && g' == if g.ok then DeliverOne(g, ts[n - 1], m, now, maxDrops) else g
    requires Conserved(g.reg) && h in Held(g.reg.slots) && SameContent(f.reg.store, g.reg.store, h)
    ensures h in Held(g'.reg.slots) && SameContent(f.reg.store, g'.reg.store, h)
  {
    if g.ok { DeliverOneContent(g, ts[n - 1], m, now, maxDrops, h); }
  }

  lemma {:induction false} DeliverContent(r: Registry, signals: seq<bool>, skip: Option<nat>, m: Message, now: nat,
      maxDrops: nat)
    requires Conserved(r)
    ensures KeepsContent(r, Deliver(r, signals, skip, m, now, maxDrops).reg)
  {
    var ts := Subscribers(r.slots, m.topic, skip, |r.slots|);
    forall h | h in Held(r.slots)
      ensures SameContent(r.store, Deliver(r, signals, skip, m, now, maxDrops).reg.store, h)
    {
      RouteContent(Fan(r, signals, None, true), ts, |ts|, m, now, maxDrops, h);
    }
  }

  lemma {:induction false} HandlePublishContent(sh: Shared, sender: nat, m: Message, now: nat, cfg: Config,
      accepts: bool)
    requires cfg.hz > 0 && Conserved(sh.reg)
    ensures KeepsContent(sh.reg, HandlePublish(sh, sender, m, now, cfg, accepts).0.reg)
  {
    var sh' := HandlePublish(sh, sender, m, now, cfg, accepts).0;
    if sh'.reg.store == sh.reg.store {
      SameStoreKeepsContent(sh.reg, sh'.reg);
    } else {
      SenderOnlyPays(sh, sender, m, now, cfg, accepts);
    }
  }

  lemma {:induction false} SenderOnlyPays(sh: Shared, sender: nat, m: Message, now: nat, cfg: Config, accepts: bool)
    requires cfg.hz > 0 && Conserved(sh.reg) && sender < |sh.reg.slots| && sh.reg.slots[sender].Some?
    requires HandlePublish(sh, sender, m, now, cfg, accepts).0.reg.store != sh.reg.store
    ensures KeepsContent(sh.reg, HandlePublish(sh, sender, m, now, cfg, accepts).0.reg)
  {
    var s := sh.reg.slots[sender].value;
    var s' := s.(rate := Consume(s.rate, now, cfg.hz));
    SwapConserved(sh.reg, sender, s');
    PublishDelivers(sh, sender, m, now, cfg, accepts);
    DeliverContent(PutSession(sh.reg, sender, s'), sh.signals, Some(sender), m, now, cfg.maxDrops);
  }

  lemma {:induction false} PublishDelivers(sh: Shared, sender: nat, m: Message, now: nat, cfg: Config, accepts: bool)
    requires cfg.hz > 0 && sender < |sh.reg.slots| && sh.reg.slots[sender].Some?
    requires HandlePublish(sh, sender, m, now, cfg, accepts).0.reg.store != sh.reg.store
    ensures var s := sh.reg.slots[sender].value;
            var r := PutSession(sh.reg, sender, s.(rate := Consume(s.rate, now, cfg.hz)));
            HandlePublish(sh, sender, m, now, cfg, accepts).0.reg
              == Deliver(r, sh.signals, Some(sender), m, now, cfg.maxDrops).reg
  {
  }

  lemma {:induction false} AcknowledgeContent(r: Registry, id: nat, pid: nat)
    requires Conserved(r) && id < |r.slots| && r.slots[id].Some?
    ensures KeepsContent(r, Acknowledge(r, id, pid))
  {
    var s := r.slots[id].value;
    var i := EntryIndex(s.inflight, pid);
    if i < |s.inflight| {
      DropEntryHeld(r, id, i);
      ReleaseBalanced(r.store, s.inflight[i].publish, Held(r.slots));
    }
  }

  lemma {:induction false} HandleContent(sh: Shared, slot: nat, p: Inbound, now: nat, cfg: Config, accepts: bool)
    requires SessionAt(sh, slot).Some? && cfg.hz > 0 && Conserved(sh.reg)
    ensures KeepsContent(sh.reg, HandleStep(sh, slot, p, now, cfg, accepts).0.reg)
  {
    if p.InPublish? {
      HandlePublishContent(sh, slot, p.m, now, cfg, accepts);
    } else if p.InPuback? {
      AcknowledgeContent(sh.reg, slot, p.pid);
    } else {
      SameStoreKeepsContent(sh.reg, HandleStep(sh, slot, p, now, cfg, accepts).0.reg);
    }
  }

  lemma {:induction false} QueueWillsStore(sh: Shared, w: Lwt, ts: seq<Target>, n: nat)
    requires n <= |ts|
    ensures QueueWills(sh, w, ts, n).reg.store == sh.reg.store
  {
    if n > 0 { QueueWillsStore(sh, w, ts, n - 1); }
  }

  lemma {:induction false} TouchedHandleContent(sh: Shared, slot: nat, p: Inbound, now: nat, cfg: Config, accepts: bool)
    requires SessionAt(sh, slot).Some? && cfg.hz > 0 && Conserved(sh.reg)
    ensures KeepsContent(sh.reg, HandleStep(Touched(sh, slot, now), slot, p, now, cfg, accepts).0.reg)
  {
    var mid := Touched(sh, slot, now);
    SwapConserved(sh.reg, slot, mid.reg.slots[slot].value);
    HandleContent(mid, slot, p, now, cfg, accepts);
  }

  lemma {:induction false} ActContent(sh: Shared, slot: nat, at: Point, a: Action, cfg: Config)
    requires Ready(sh, slot, at, a) && cfg.hz > 0 && Conserved(sh.reg)
    ensures KeepsContent(sh.reg, Act(sh, slot, at, a, cfg).0.reg)
  {
    if a.Remove? {
      RemoveConserves(sh.reg, slot);
    } else if a.Handle? && SessionAt(sh, slot).Some? {
      TouchedHandleContent(sh, slot, at.packet, a.at, cfg, a.handlerAccepts);
    } else {
      OtherActsKeepStore(sh, slot, at, a, cfg);
      SameStoreKeepsContent(sh.reg, Act(sh, slot, at, a, cfg).0.reg);
    }
  }

  lemma {:induction false} OtherActsKeepStore(sh: Shared, slot: nat, at: Point, a: Action, cfg: Config)
    requires Ready(sh, slot, at, a) && cfg.hz > 0 && !a.Remove? && (a.Handle? ==> SessionAt(sh, slot).None?)
    ensures Act(sh, slot, at, a, cfg).0.reg.store == sh.reg.store
  {
    if a.QueueWill? { QueueWillsStore(sh, at.lwt, at.targets, |at.targets|); }
  }

  lemma {:induction false} ConnectContent(r: Registry, c: ConnectPacket)
    requires Conserved(r)
    ensures KeepsContent(r, PrepareConnect(r, c).0)
  {
    var r' := PrepareConnect(r, c).0;
    var i := FindClient(r.slots, c.clientId);
    if RefusedEarly(c) || (!c.cleanSession && i < |r.slots|) {
      SameStoreKeepsContent(r, r');
    } else {
      RemoveConserves(r, i);
      ConnectFreshHeld(RemoveSession(r, i), if i < |r.slots| then r.slots[i].value.lwt else None, c);
    }
  }

  /** No step of the broker changes the content of a publish that stays held. */
  lemma {:induction false} StepContent(s: Sys, e: Event, cfg: Config)
    requires Safe(s) && Enabled(s, e) && cfg.hz > 0
    ensures KeepsContent(s.sh.reg, Apply(s, e, cfg).sh.reg)
  {
    match e {
      case Connecting(l, c, now) =>
        ConnectContent(s.sh.reg, c);
        ConnectConserves(s.sh.reg, c);
        var (r, result) := PrepareConnect(s.sh.reg, c);
        if result.Accepted? {
          SwapConserved(r, result.slot, Activated(r, result.slot, now, cfg).slots[result.slot].value);
        }
      case Acting(l, a) => ActContent(s.sh, s.loops[l].slot, s.loops[l].at, a, cfg);
      case Outbound(m, now) =>
        DeliverContent(s.sh.reg, s.sh.signals, None, m, now, cfg.maxDrops);
        var r' := Apply(s, e, cfg).sh.reg;
        if r'.store == s.sh.reg.store { SameStoreKeepsContent(s.sh.reg, r'); }
      case TakeWill => SameStoreKeepsContent(s.sh.reg, Apply(s, e, cfg).sh.reg);
    }
  }

  // -- the step each session takes ------------------------------------------------------------

  function LimitsOf(cfg: Config): D.Limits {
    D.Limits(cfg.retryTicks, cfg.maxRetries)
  }

  /** Session `a` became `b` by this delivery step. */
  ghost predicate Moved(a: Option<Session>, b: Option<Session>, step: D.Step, store: Store, cfg: Config) {
    a.Some? && b.Some? &&
    D.Moves(a.value.inflight, a.value.lastPid, step, store, LimitsOf(cfg)) == (b.value.inflight, b.value.lastPid)
  }

  /** A tracked delivery starts with its packet: queued in the same step, at QoS 1, under the new id, with the stored content. */
  ghost predicate Queued(a: Option<Session>, b: Option<Session>, step: D.Step, store': Store) {
    step.Admit? ==>
      && a.Some? && b.Some? && Live(store', step.publish)
      && var c := D.ContentOf(store', step.publish);
         b.value.outbox == a.value.outbox + [Packet(AtLeastOnce, NextPid(a.value.lastPid), c.retain, c.topic, c.payload)]
  }

  lemma {:induction false} WantingGrows(r: Registry, ts: seq<Target>, m: Message, j: nat, n: nat)
    requires j <= n <= |ts| && Targets(r.slots, ts)
    ensures Wanting(r, ts, m, j) <= Wanting(r, ts, m, n)
  {
    if j < n { WantingGrows(r, ts, m, j, n - 1); }
  }

  /** The stored copy a fan-out leaves is the message it delivered. */
  lemma {:induction false} TicketContent(r: Registry, m: Message, wanting: nat)
    requires wanting > 0 && Ticket(r, m).Some?
    ensures Live(StoreAfter(r, m, wanting), Ticket(r, m).value)
    ensures D.ContentOf(StoreAfter(r, m, wanting), Ticket(r, m).value) == D.Content(m.topic, m.payload, m.retain)
  {
  }

  lemma {:induction false} TrackedIsStored(r: Registry, signals: seq<bool>, skip: Option<nat>, m: Message, now: nat,
      maxDrops: nat, j: nat)
    requires |signals| == |r.slots|
    requires var ts := Subscribers(r.slots, m.topic, skip, |r.slots|);
             Targets(r.slots, ts) && j < Reach(ts, m) && Tracked(r, ts, m, j)
    ensures var g := Deliver(r, signals, skip, m, now, maxDrops);
            && Ticket(r, m).Some? && Live(g.reg.store, Ticket(r, m).value)
            && D.ContentOf(g.reg.store, Ticket(r, m).value) == D.Content(m.topic, m.payload, m.retain)
  {
    var ts := Subscribers(r.slots, m.topic, skip, |r.slots|);
    FanOutShared(r, signals, skip, m, now, maxDrops);
    WantingGrows(r, ts, m, j + 1, Reach(ts, m));
    TicketContent(r, m, Wanting(r, ts, m, Reach(ts, m)));
  }

  lemma {:induction false} DeliverStep(r: Registry, signals: seq<bool>, skip: Option<nat>, m: Message, now: nat,
      cfg: Config, k: nat)
    returns (step: D.Step)
    requires |signals| == |r.slots| && k < |r.slots| && r.slots[k].Some?
    ensures var g := Deliver(r, signals, skip, m, now, cfg.maxDrops);
            && |g.reg.slots| == |r.slots| && !step.Retry? && !step.Ack?
            && Moved(r.slots[k], g.reg.slots[k], step, r.store, cfg)
            && Queued(r.slots[k], g.reg.slots[k], step, g.reg.store) && (step.Admit? ==> step.now == now)
            && (skip == Some(k) ==> step.Idle?)
  {
    FanOutPerSession(r, signals, skip, m, now, cfg.maxDrops, k);
    var ts := Subscribers(r.slots, m.topic, skip, |r.slots|);
    var g := Deliver(r, signals, skip, m, now, cfg.maxDrops);
    var q := Recipient(r.slots, m.topic, skip, k);
    step := D.Idle;
    if q.Some? {
      var j :| 0 <= j < |ts| && ts[j] == Target(k, q.value) && TargetServed(r, signals, g, ts, m, now, cfg.maxDrops, j);
      if j <= Reach(ts, m) && Effective(m, ts[j]) != AtMostOnce {
        step := if j < Reach(ts, m) && Tracked(r, ts, m, j) then D.Admit(Ticket(r, m).value, now) else D.Alloc;
        if step.Admit? { TrackedIsStored(r, signals, skip, m, now, cfg.maxDrops, j); }
      }
    }
  }

  lemma {:induction false} HandlePublishStep(sh: Shared, sender: nat, m: Message, now: nat, cfg: Config,
      accepts: bool, k: nat)
    returns (step: D.Step)
    requires |sh.signals| == |sh.reg.slots| && k < |sh.reg.slots| && sh.reg.slots[k].Some? && cfg.hz > 0
    ensures var sh' := HandlePublish(sh, sender, m, now, cfg, accepts).0;
            && |sh'.reg.slots| == |sh.reg.slots| && !step.Retry? && !step.Ack?
            && Moved(sh.reg.slots[k], sh'.reg.slots[k], step, sh.reg.store, cfg)
            && Queued(sh.reg.slots[k], sh'.reg.slots[k], step, sh'.reg.store) && (step.Admit? ==> step.now == now)
  {
    step := D.Idle;
    if sender < |sh.reg.slots| && sh.reg.slots[sender].Some? {
      var s := sh.reg.slots[sender].value;
      var r := PutSession(sh.reg, sender, s.(rate := Consume(s.rate, now, cfg.hz)));
      var sh' := HandlePublish(sh, sender, m, now, cfg, accepts).0;
      if sh'.reg != r { step := DeliverStep(r, sh.signals, Some(sender), m, now, cfg, k); }
    }
  }

  lemma {:induction false} PubackStep(r: Registry, k: nat, pid: nat, cfg: Config)
    requires k < |r.slots| && r.slots[k].Some?
    ensures |Acknowledge(r, k, pid).slots| == |r.slots|
    ensures Moved(r.slots[k], Acknowledge(r, k, pid).slots[k], D.Ack(pid), r.store, cfg)
  {
  }

  lemma {:induction false} HandleStepStep(sh: Shared, slot: nat, p: Inbound, now: nat, cfg: Config, accepts: bool,
      k: nat)
    returns (step: D.Step)
    requires |sh.signals| == |sh.reg.slots| && k < |sh.reg.slots| && sh.reg.slots[k].Some? && cfg.hz > 0
    requires SessionAt(sh, slot).Some?
    ensures var sh' := HandleStep(sh, slot, p, now, cfg, accepts).0;
            && |sh'.reg.slots| == |sh.reg.slots| && !step.Retry?
            && Moved(sh.reg.slots[k], sh'.reg.slots[k], step, sh.reg.store, cfg)
            && Queued(sh.reg.slots[k], sh'.reg.slots[k], step, sh'.reg.store) && (step.Admit? ==> step.now == now)
            && (step.Ack? ==> slot == k && p == InPuback(step.pid))
  {
    if p.InPublish? {
      step := HandlePublishStep(sh, slot, p.m, now, cfg, accepts, k);
    } else if p.InPuback? && slot == k {
      PubackStep(sh.reg, k, p.pid, cfg);
      step := D.Ack(p.pid);
    } else {
      step := D.Idle;
    }
  }

  lemma {:induction false} QueueWillsStep(sh: Shared, w: Lwt, ts: seq<Target>, n: nat, k: nat)
    requires n <= |ts| && k < |sh.reg.slots| && sh.reg.slots[k].Some?
    ensures var sh' := QueueWills(sh, w, ts, n);
            && |sh'.reg.slots| == |sh.reg.slots| && sh'.reg.slots[k].Some?
            && sh'.reg.slots[k].value.inflight == sh.reg.slots[k].value.inflight
            && sh'.reg.slots[k].value.lastPid == sh.reg.slots[k].value.lastPid
  {
    if n > 0 { QueueWillsStep(sh, w, ts, n - 1, k); }
  }

  lemma {:induction false} ActStep(sh: Shared, slot: nat, at: Point, a: Action, cfg: Config, k: nat)
      returns (step: D.Step)
    requires |sh.signals| == |sh.reg.slots| && Ready(sh, slot, at, a) && cfg.hz > 0
    requires k < |sh.reg.slots| && sh.reg.slots[k].Some? && !(a.Remove? && slot == k)
    ensures var sh' := Act(sh, slot, at, a, cfg).0;
            && |sh'.reg.slots| == |sh.reg.slots|
            && Moved(sh.reg.slots[k], sh'.reg.slots[k], step, sh.reg.store, cfg)
            && Queued(sh.reg.slots[k], sh'.reg.slots[k], step, sh'.reg.store)
            && (step.Admit? ==> a.Handle? && step.now == a.at)
            && (step.Ack? ==> a.Handle? && slot == k && at.packet == InPuback(step.pid))
            && (step.Retry? ==> a.Check? && slot == k && step == D.Retry(a.retryAt, a.writes))
  {
    step := D.Idle;
    if a.Check? && slot == k && !sh.reg.slots[k].value.quarantined {
      step := D.Retry(a.retryAt, a.writes);
    } else if a.Handle? && SessionAt(sh, slot).Some? {
      step := HandleStepStep(Touched(sh, slot, a.at), slot, at.packet, a.at, cfg, a.handlerAccepts, k);
    } else if a.QueueWill? {
      QueueWillsStep(sh, at.lwt, at.targets, |at.targets|, k);
    }
  }

  lemma {:induction false} PrepareKeepsDeliveries(r: Registry, tenures: seq<nat>, c: ConnectPacket, k: nat)
    requires |tenures| == |r.slots| && k < |r.slots| && r.slots[k].Some? && TenuresAfter(tenures, r, c)[k] == tenures[k]
    ensures var o := PrepareConnect(r, c).0.slots[k];
            && o.Some? && o.value.inflight == r.slots[k].value.inflight && o.value.lastPid == r.slots[k].value.lastPid
            && o.value.outbox == r.slots[k].value.outbox
  {
    if OpensAnew(r, c) {
      ConnectHasShape(r, c);
      var i := FindClient(r.slots, c.clientId);
      var vacated := Vacated(r.slots, c.clientId);
      assert k != i && k != FirstEmpty(vacated);
      assert vacated[k] == r.slots[k];
    }
  }

  /** A CONNECT that does not renew a slot leaves its deliveries alone. */
  lemma {:induction false} ConnectKeepsDeliveries(s: Sys, e: Event, cfg: Config, k: nat)
    requires Shaped(s) && Enabled(s, e) && cfg.hz > 0 && e.Connecting?
    requires k < |s.sh.reg.slots| && s.sh.reg.slots[k].Some?
    requires |Apply(s, e, cfg).tenures| == |s.tenures| && Apply(s, e, cfg).tenures[k] == s.tenures[k]
    ensures var s' := Apply(s, e, cfg);
            && |s'.sh.reg.slots| == |s.sh.reg.slots|
            && Moved(s.sh.reg.slots[k], s'.sh.reg.slots[k], D.Idle, s.sh.reg.store, cfg)
            && s'.sh.reg.slots[k].value.outbox == s.sh.reg.slots[k].value.outbox
  {
    PrepareKeepsDeliveries(s.sh.reg, s.tenures, e.packet, k);
  }

  /** When an event happens, if it can start a delivery. */
  function TimeOf(e: Event): nat {
    match e
    case Outbound(_, at) => at
    case Acting(_, Handle(at, _)) => at
    case _ => 0
  }

  /** What in the broker a delivery step of slot `k` stands for. */
  ghost predicate Caused(s: Sys, e: Event, s': Sys, k: nat, step: D.Step) {
    && k < |s.sh.reg.slots| && k < |s'.sh.reg.slots|
    && Queued(s.sh.reg.slots[k], s'.sh.reg.slots[k], step, s'.sh.reg.store)
    && (step.Admit? ==> step.now == TimeOf(e))
    && (step.Ack? || step.Retry? ==> e.Acting? && e.loop < |s.loops| && s.loops[e.loop].On? && s.loops[e.loop].slot == k)
    && (step.Ack? ==> e.action.Handle? && s.loops[e.loop].at == Handling(InPuback(step.pid)))
    && (step.Retry? ==> e.action.Check? && step == D.Retry(e.action.retryAt, e.action.writes))
  }

  /** Each step of the broker is one delivery step of every session that outlives it. */
  lemma {:induction false} SessionStep(s: Sys, e: Event, cfg: Config, k: nat) returns (step: D.Step)
    requires Safe(s) && Enabled(s, e) && cfg.hz > 0
    requires k < |s.sh.reg.slots| && s.sh.reg.slots[k].Some?
    requires |Apply(s, e, cfg).tenures| == |s.tenures| && Apply(s, e, cfg).tenures[k] == s.tenures[k]
    ensures var s' := Apply(s, e, cfg);
            && |s'.sh.reg.slots| == |s.sh.reg.slots|
            && Moved(s.sh.reg.slots[k], s'.sh.reg.slots[k], step, s.sh.reg.store, cfg)
            && Caused(s, e, s', k, step)
  {
    match e {
      case Connecting(l, c, now) =>
        ConnectKeepsDeliveries(s, e, cfg, k);
        step := D.Idle;
      case Acting(l, a) => step := ActStep(s.sh, s.loops[l].slot, s.loops[l].at, a, cfg, k);
      case Outbound(m, now) =>
        step := DeliverStep(s.sh.reg, s.sh.signals, None, m, now, cfg, k);
        if Apply(s, e, cfg).sh.reg == s.sh.reg { step := D.Idle; }
      case TakeWill => step := D.Idle;
    }
  }

  // -- whole runs --------------------------------------------------------------------------------

  /** From step `a`, when it was opened, to step `n` slot `k` holds one session. */
  ghost predicate Serves(tr: seq<Sys>, es: seq<Event>, cfg: Config, k: nat, a: nat, n: nat) {
    && Run(tr, es, cfg) && 0 < a <= n <= |es| && Opens(tr, es, k, a - 1)
    && forall i :: a <= i < n ==> KeepsSession(tr, es, k, i)
  }

  /** Step `i` is a CONNECT that opens a session on slot `k`. */
  ghost predicate Opens(tr: seq<Sys>, es: seq<Event>, k: nat, i: nat) {
    && i < |es| < |tr| && es[i].Connecting? && SessionAt(tr[i + 1].sh, k).Some?
    && tr[i + 1].sh.reg.slots[k].value.inflight == [] && tr[i + 1].sh.reg.slots[k].value.lastPid == 0
  }

  /** Step `i` keeps the session of slot `k`. */
  ghost predicate KeepsSession(tr: seq<Sys>, es: seq<Event>, k: nat, i: nat) {
    && i < |es| < |tr| && |tr[i + 1].tenures| == |tr[i].tenures|
    && k < |tr[i].tenures| && tr[i + 1].tenures[k] == tr[i].tenures[k]
  }

  /** A CONNECT that discards the client's session leaves its slot empty or opens a new one on the first empty slot. */
  lemma {:induction false} AnewOrVacated(r: Registry, c: ConnectPacket)
    requires OpensAnew(r, c)
    ensures var vacated := Vacated(r.slots, c.clientId);
            var free := FirstEmpty(vacated);
            var slots' := PrepareConnect(r, c).0.slots;
            slots' == vacated || (free < |vacated| && slots' == vacated[free := Some(FreshSession(c))])
  {
    assert RemoveSession(r, FindClient(r.slots, c.clientId)).slots == Vacated(r.slots, c.clientId);
  }

  /** After a CONNECT that discards the client's session, an occupied slot is another client's or the new one. */
  lemma {:induction false} OpeningIsFresh(r: Registry, tenures: seq<nat>, c: ConnectPacket, k: nat)
    requires |tenures| == |r.slots| && k < |r.slots| && PrepareConnect(r, c).0.slots[k].Some?
    requires r.slots[k].None? || TenuresAfter(tenures, r, c)[k] != tenures[k]
    ensures PrepareConnect(r, c).0.slots[k] == Some(FreshSession(c))
  {
    if OpensAnew(r, c) { AnewOrVacated(r, c); }
  }

  /** Only a CONNECT brings a session to a slot. */
  lemma {:induction false} OccupantsStay(s: Sys, e: Event, cfg: Config, k: nat)
    requires Safe(s) && Enabled(s, e) && cfg.hz > 0 && !e.Connecting?
    requires k < |s.tenures| && SessionAt(Apply(s, e, cfg).sh, k).Some?
    ensures s.sh.reg.slots[k].Some? && Apply(s, e, cfg).tenures[k] == s.tenures[k]
  {
    match e {
      case Acting(l, a) => ActStays(s.sh, s.loops[l].slot, s.loops[l].at, a, cfg);
      case Outbound(m, now) =>
        OutboundGrows(s.sh, m, now, cfg);
        var sh' := Apply(s, e, cfg).sh;
        assert SlotGrew(s.sh.reg.slots[k], sh'.reg.slots[k], s.sh.signals[k], sh'.signals[k]);
      case TakeWill =>
    }
  }

  /** A session that appears in a slot was opened by a CONNECT, with nothing in flight. */
  lemma {:induction false} NewcomerIsFresh(s: Sys, e: Event, cfg: Config, k: nat)
    requires Safe(s) && Enabled(s, e) && cfg.hz > 0 && k < |s.tenures| && SessionAt(Apply(s, e, cfg).sh, k).Some?
    requires s.sh.reg.slots[k].None? || Apply(s, e, cfg).tenures[k] != s.tenures[k]
    ensures var t := Apply(s, e, cfg).sh.reg.slots[k].value;
            e.Connecting? && t.inflight == [] && t.lastPid == 0
  {
    if e.Connecting? {
      OpeningIsFresh(s.sh.reg, s.tenures, e.packet, k);
    } else {
      OccupantsStay(s, e, cfg, k);
    }
  }

  lemma {:induction false} TenuresStay(s: Sys, e: Event, cfg: Config)
    requires Safe(s) && Enabled(s, e) && cfg.hz > 0
    ensures |Apply(s, e, cfg).tenures| == |s.tenures|
  {
  }

  /** Every session of every state of every run was opened by a CONNECT of that run. */
  lemma {:induction false} SessionWasOpened(tr: seq<Sys>, es: seq<Event>, cfg: Config, k: nat, n: nat) returns (a: nat)
    requires Run(tr, es, cfg) && n <= |es| && SessionAt(tr[n].sh, k).Some?
    ensures Serves(tr, es, cfg, k, a, n)
  {
    var m := n - 1;
    RunIsSafe(tr, es, cfg, n);
    RunIsSafe(tr, es, cfg, m);
    assert RunStep(tr, es, cfg, m);
    TenuresStay(tr[m], es[m], cfg);
    if SessionAt(tr[m].sh, k).Some? && tr[n].tenures[k] == tr[m].tenures[k] {
      a := SessionWasOpened(tr, es, cfg, k, m);
      ServesMore(tr, es, cfg, k, a, m);
    } else {
      NewcomerIsFresh(tr[m], es[m], cfg, k);
      a := n;
    }
  }

  lemma {:induction false} ServesMore(tr: seq<Sys>, es: seq<Event>, cfg: Config, k: nat, a: nat, n: nat)
    requires Serves(tr, es, cfg, k, a, n) && n < |es| && KeepsSession(tr, es, k, n)
    ensures Serves(tr, es, cfg, k, a, n + 1)
  {
  }

  /** `t` is a history of the deliveries of slot `k` in this state. */
  ghost predicate Tracks(t: D.Track, s: Sys, k: nat) {
    && k < |s.sh.reg.slots| && s.sh.reg.slots[k].Some?
    && t.inflight == s.sh.reg.slots[k].value.inflight && t.lastPid == s.sh.reg.slots[k].value.lastPid
    && t.store == s.sh.reg.store
  }

  lemma {:induction false} HeldEntry(slots: Slots, k: nat, i: nat)
    requires k < |slots| && slots[k].Some? && i < |slots[k].value.inflight|
    ensures slots[k].value.inflight[i].publish in Held(slots)
  {
    EntryHandleHeld(slots[k].value.inflight, i);
    SlotHandleHeld(slots, k, slots[k].value.inflight[i].publish);
  }

  /** The broker treats the store as the history needs it. */
  lemma {:induction false} BrokerKeepsStore(s: Sys, s': Sys, k: nat, t: D.Track)
    requires Safe(s) && Safe(s') && KeepsContent(s.sh.reg, s'.sh.reg) && Tracks(t, s, k)
    requires k < |s'.sh.reg.slots| && s'.sh.reg.slots[k].Some?
    ensures D.StoreKept(t, s'.sh.reg.store, s'.sh.reg.slots[k].value.inflight)
  {
    var es, es' := t.inflight, s'.sh.reg.slots[k].value.inflight;
    InflightIsLive(s'.sh.reg, k);
    forall i, j | 0 <= i < |es| && 0 <= j < |es'| && es[i].publish == es'[j].publish
      ensures SameContent(t.store, s'.sh.reg.store, es'[j].publish)
    {
      HeldEntry(s.sh.reg.slots, k, i);
      HeldEntry(s'.sh.reg.slots, k, j);
    }
  }

  /** One more step of the broker is one more step of the history. */
  lemma {:induction false} TrackStep(s: Sys, e: Event, cfg: Config, k: nat, t: D.Track)
      returns (t': D.Track, step: D.Step)
    requires Safe(s) && Enabled(s, e) && cfg.hz > 0
    requires Tracks(t, s, k) && |t.past| == |t.inflight|
    requires |Apply(s, e, cfg).tenures| == |s.tenures| && Apply(s, e, cfg).tenures[k] == s.tenures[k]
    ensures Tracks(t', Apply(s, e, cfg), k) && |t'.past| == |t'.inflight|
    ensures Caused(s, e, Apply(s, e, cfg), k, step)
    ensures D.Recordable(t, step, t'.store, LimitsOf(cfg)) && t' == D.Recorded(t, step, t'.store, LimitsOf(cfg))
  {
    var s' := Apply(s, e, cfg);
    step := SessionStep(s, e, cfg, k);
    StepSafe(s, e, cfg);
    StepContent(s, e, cfg);
    BrokerKeepsStore(s, s', k, t);
    t' := D.Recorded(t, step, s'.sh.reg.store, LimitsOf(cfg));
    D.RecordedAligned(t, step, s'.sh.reg.store, LimitsOf(cfg));
  }

  /** `ts` and `steps` are the history of slot `k` from state `a` to state `n` of a run. */
  ghost predicate HistoryOf(tr: seq<Sys>, es: seq<Event>, cfg: Config, k: nat, a: nat, n: nat, ts: seq<D.Track>,
      steps: seq<D.Step>) {
    && a <= n <= |es| < |tr| && |steps| == n - a && |ts| == |steps| + 1
    && (forall i :: 0 <= i < |ts| ==> Tracks(ts[i], tr[a + i], k))
    && (forall i :: 0 <= i < |steps| ==> Caused(tr[a + i], es[a + i], tr[a + i + 1], k, steps[i]))
  }

  lemma {:induction false} HistoryGrows(tr: seq<Sys>, es: seq<Event>, cfg: Config, k: nat, a: nat, n: nat,
      ts: seq<D.Track>, steps: seq<D.Step>, t: D.Track, step: D.Step)
    requires HistoryOf(tr, es, cfg, k, a, n, ts, steps) && n < |es|
    requires Tracks(t, tr[n + 1], k) && Caused(tr[n], es[n], tr[n + 1], k, step)
    ensures HistoryOf(tr, es, cfg, k, a, n + 1, ts + [t], steps + [step])
  {
    var ts', steps' := ts + [t], steps + [step];
    forall i | 0 <= i < |ts'| ensures Tracks(ts'[i], tr[a + i], k) {
      if i < |ts| { assert Tracks(ts[i], tr[a + i], k); }
    }
    forall i | 0 <= i < |steps'| ensures Caused(tr[a + i], es[a + i], tr[a + i + 1], k, steps'[i]) {
      if i < |steps| { assert Caused(tr[a + i], es[a + i], tr[a + i + 1], k, steps[i]); }
    }
  }

  /**
   In every run of the broker the life of a session's deliveries, from its opening on and through
   failed retry passes, is a life in the sense of `Deliveries`: step by step the recorded one, each
   step caused by the broker's own event, and each tracked delivery starting with the packet queued
   in that same step.
   */
  lemma {:induction false} DeliveriesInRuns(tr: seq<Sys>, es: seq<Event>, cfg: Config, k: nat, a: nat, n: nat)
      returns (ts: seq<D.Track>, steps: seq<D.Step>)
    requires Serves(tr, es, cfg, k, a, n)
    ensures HistoryOf(tr, es, cfg, k, a, n, ts, steps) && D.Life(ts, steps, LimitsOf(cfg))
    ensures |ts[n - a].past| == |ts[n - a].inflight|
    decreases n
  {
    if n == a {
      ts, steps := [D.Track([], 0, 0, [], tr[a].sh.reg.store)], [];
    } else {
      ServesLess(tr, es, cfg, k, a, n);
      ServedStep(tr, es, cfg, k, a, n);
      ts, steps := DeliveriesInRuns(tr, es, cfg, k, a, n - 1);
      ts, steps := OneStepMore(tr, es, cfg, k, a, n - 1, ts, steps);
    }
  }

  lemma {:induction false} ServedStep(tr: seq<Sys>, es: seq<Event>, cfg: Config, k: nat, a: nat, n: nat)
    requires Serves(tr, es, cfg, k, a, n) && a < n
    ensures Serving(tr, es, cfg, k, n - 1)
  {
    RunIsSafe(tr, es, cfg, n - 1);
    assert RunStep(tr, es, cfg, n - 1) && KeepsSession(tr, es, k, n - 1);
  }

  lemma {:induction false} ServesLess(tr: seq<Sys>, es: seq<Event>, cfg: Config, k: nat, a: nat, n: nat)
    requires Serves(tr, es, cfg, k, a, n) && a < n
    ensures Serves(tr, es, cfg, k, a, n - 1)
  {
    forall i | a <= i < n - 1 ensures KeepsSession(tr, es, k, i) {
      assert a <= i < n;
    }
  }

  ghost predicate Serving(tr: seq<Sys>, es: seq<Event>, cfg: Config, k: nat, i: nat) {
    i < |es| < |tr| && RunStep(tr, es, cfg, i) && Safe(tr[i]) && KeepsSession(tr, es, k, i)
  }

  lemma {:induction false} OneStepMore(tr: seq<Sys>, es: seq<Event>, cfg: Config, k: nat, a: nat, n: nat,
      ts: seq<D.Track>, steps: seq<D.Step>)
      returns (ts': seq<D.Track>, steps': seq<D.Step>)
    requires HistoryOf(tr, es, cfg, k, a, n, ts, steps) && D.Life(ts, steps, LimitsOf(cfg))
    requires |ts[n - a].past| == |ts[n - a].inflight| && Serving(tr, es, cfg, k, n)
    ensures HistoryOf(tr, es, cfg, k, a, n + 1, ts', steps') && D.Life(ts', steps', LimitsOf(cfg))
    ensures |ts'[n + 1 - a].past| == |ts'[n + 1 - a].inflight|
  {
    assert Tracks(ts[n - a], tr[a + (n - a)], k);
    var t', step := TrackStep(tr[n], es[n], cfg, k, ts[n - a]);
    HistoryGrows(tr, es, cfg, k, a, n, ts, steps, t', step);
    D.LifeExtends(ts, steps, step, t', LimitsOf(cfg));
    ts', steps' := ts + [t'], steps + [step];
  }

  /**
   Every session of every state of every run has such a history from its opening on, good in each of
   its states and, below 255, within the retry limit.
   */
  lemma {:induction false} RunDeliveriesAreGood(tr: seq<Sys>, es: seq<Event>, cfg: Config, k: nat, n: nat)
      returns (a: nat, ts: seq<D.Track>, steps: seq<D.Step>)
    requires Run(tr, es, cfg) && n <= |es| && SessionAt(tr[n].sh, k).Some?
    ensures Serves(tr, es, cfg, k, a, n)
    ensures HistoryOf(tr, es, cfg, k, a, n, ts, steps) && D.Life(ts, steps, LimitsOf(cfg))
    ensures forall i :: 0 <= i < |ts| ==> D.Good(ts[i], LimitsOf(cfg))
    ensures cfg.maxRetries < 255 ==> forall i :: 0 <= i < |ts| ==> D.Limited(ts[i], LimitsOf(cfg))
    ensures forall h :: h in ts[n - a].past ==> StartedInRun(tr, es, k, a, n, h)
  {
    var lim := LimitsOf(cfg);
    a := SessionWasOpened(tr, es, cfg, k, n);
    ts, steps := DeliveriesInRuns(tr, es, cfg, k, a, n);
    forall i | 0 <= i < |ts| ensures D.Good(ts[i], lim) && (cfg.maxRetries < 255 ==> D.Limited(ts[i], lim)) {
      D.LifeIsGood(ts, steps, lim, i);
      if cfg.maxRetries < 255 { D.LifeIsLimited(ts, steps, lim, i); }
    }
    forall h | h in ts[n - a].past ensures StartedInRun(tr, es, k, a, n, h) {
      HistoryStarted(tr, es, cfg, k, a, n, ts, steps, h);
    }
  }

  lemma {:induction false} HistoryStarted(tr: seq<Sys>, es: seq<Event>, cfg: Config, k: nat, a: nat, n: nat,
      ts: seq<D.Track>, steps: seq<D.Step>, h: D.History)
    requires HistoryOf(tr, es, cfg, k, a, n, ts, steps) && D.Life(ts, steps, LimitsOf(cfg)) && h in ts[n - a].past
    ensures StartedInRun(tr, es, k, a, n, h)
  {
    var j :| 0 <= j < |ts[n - a].past| && ts[n - a].past[j] == h;
    var i := D.EveryEntryWasAdmitted(ts, steps, LimitsOf(cfg), n - a, j);
    D.LifeIsGood(ts, steps, LimitsOf(cfg), i);
    AdmissionStarts(tr, es, cfg, k, a, n, ts, steps, i, h);
  }

  lemma {:induction false} AdmissionStarts(tr: seq<Sys>, es: seq<Event>, cfg: Config, k: nat, a: nat, n: nat,
      ts: seq<D.Track>, steps: seq<D.Step>, i: nat, h: D.History)
    requires HistoryOf(tr, es, cfg, k, a, n, ts, steps) && i < |steps|
    requires D.AdmittedBy(ts[i], steps[i], ts[i + 1], h) && ts[i].lastPid == D.PidAt(ts[i].allocs)
    ensures StartsAt(tr, es, k, a + i, h)
  {
    assert Caused(tr[a + i], es[a + i], tr[a + i + 1], k, steps[i]);
    assert Tracks(ts[i], tr[a + i], k);
    assert Tracks(ts[i + 1], tr[a + (i + 1)], k);
    assert D.PidAt(h.serial) == NextPid(ts[i].lastPid);
  }

  /** Step `i` of the run queued the first transmission of this delivery, and its history says so. */
  ghost predicate StartsAt(tr: seq<Sys>, es: seq<Event>, k: nat, i: nat, h: D.History) {
    && i < |es| < |tr| && k < |tr[i].sh.reg.slots| && k < |tr[i + 1].sh.reg.slots|
    && tr[i].sh.reg.slots[k].Some? && tr[i + 1].sh.reg.slots[k].Some?
    && |h.sends| > 0 && h.sends[0] == TimeOf(es[i])
    && tr[i + 1].sh.reg.slots[k].value.outbox == tr[i].sh.reg.slots[k].value.outbox
         + [Packet(AtLeastOnce, D.PidAt(h.serial), h.content.retain, h.content.topic, h.content.payload)]
  }

  ghost predicate StartedInRun(tr: seq<Sys>, es: seq<Event>, k: nat, a: nat, n: nat, h: D.History) {
    exists i :: a <= i < n && StartsAt(tr, es, k, i, h)
  }

  /** Some earlier step of this session queued the packet of which `r` is a copy. */
  ghost predicate Repeats(tr: seq<Sys>, k: nat, a: nat, n: nat, r: Resend) {
    exists i, p: Packet ::
      && a <= i < n && QueuedAt(tr, k, i, p)
      && p.qos == AtLeastOnce && r == Resend(p.packetId, p.topic, p.payload, p.retain)
  }

  ghost predicate QueuedAt(tr: seq<Sys>, k: nat, i: nat, p: Packet) {
    && i + 1 < |tr| && k < |tr[i].sh.reg.slots| && k < |tr[i + 1].sh.reg.slots|
    && tr[i].sh.reg.slots[k].Some? && tr[i + 1].sh.reg.slots[k].Some?
    && tr[i + 1].sh.reg.slots[k].value.outbox == tr[i].sh.reg.slots[k].value.outbox + [p]
  }

  lemma {:induction false} ResendsOf(es: seq<Inflight>, n: nat, store: Store, now: nat, lim: D.Limits, writes: nat,
      r: Resend)
      returns (i: nat)
    requires n <= |es| && forall i :: 0 <= i < |es| ==> Live(store, es[i].publish)
    requires r in D.Resends(es, n, store, now, lim.timeout, lim.maxRetries, writes)
    ensures i < n && r == D.ResendOf(es[i], store)
  {
    if r in D.Resends(es, n - 1, store, now, lim.timeout, lim.maxRetries, writes) {
      i := ResendsOf(es, n - 1, store, now, lim, writes, r);
    } else {
      i := n - 1;
    }
  }

  /**
   In every run, whatever any retry pass of a session writes, also one that then fails, is a copy of
   the packet first queued for that delivery.
   */
  lemma {:induction false} RetriesRepeatQueuedPackets(tr: seq<Sys>, es: seq<Event>, cfg: Config, k: nat, n: nat,
      now: nat, writes: nat)
      returns (a: nat)
    requires Run(tr, es, cfg) && n <= |es| && SessionAt(tr[n].sh, k).Some?
    ensures Serves(tr, es, cfg, k, a, n)
    ensures var s := tr[n].sh.reg.slots[k].value;
            forall r :: r in RetryAll(s, tr[n].sh.reg.store, now, cfg.retryTicks, cfg.maxRetries, writes).sent ==>
              Repeats(tr, k, a, n, r)
  {
    var ts, steps;
    a, ts, steps := RunDeliveriesAreGood(tr, es, cfg, k, n);
    var t, lim := ts[n - a], LimitsOf(cfg);
    assert Tracks(t, tr[a + (n - a)], k);
    D.ResendsRepeatTheFirst(t, now, writes, lim);
    forall r | r in RetryAll(tr[n].sh.reg.slots[k].value, tr[n].sh.reg.store, now, cfg.retryTicks, cfg.maxRetries, writes).sent
      ensures Repeats(tr, k, a, n, r)
    {
      var j := ResendsOf(t.inflight, |t.inflight|, t.store, now, lim, writes, r);
      var h := t.past[j];
      assert StartedInRun(tr, es, k, a, n, h);
      var i :| a <= i < n && StartsAt(tr, es, k, i, h);
      var p := Packet(AtLeastOnce, D.PidAt(h.serial), h.content.retain, h.content.topic, h.content.payload);
      assert QueuedAt(tr, k, i, p);
    }
  }

  /** The retry pass of slot `k` in this step, if there is one, meets an error. */
  ghost predicate RetryFails(s: Sys, e: Event, cfg: Config, k: nat) {
    && e.Acting? && e.action.Check? && e.loop < |s.loops| && s.loops[e.loop].On? && s.loops[e.loop].slot == k
    && SessionAt(s.sh, k).Some?
    && var a := e.action;
       RetryAll(s.sh.reg.slots[k].value, s.sh.reg.store, a.retryAt, cfg.retryTicks, cfg.maxRetries, a.writes).error.Some?
  }

  /** In every run, until a retry pass of the session fails, the counter of a delivery is its number of retransmissions. */
  lemma {:induction false} UnfailedInRuns(tr: seq<Sys>, es: seq<Event>, cfg: Config, k: nat, n: nat)
      returns (a: nat, ts: seq<D.Track>, steps: seq<D.Step>)
    requires Run(tr, es, cfg) && n <= |es| && SessionAt(tr[n].sh, k).Some? && cfg.maxRetries < 255
    ensures Serves(tr, es, cfg, k, a, n)
    ensures HistoryOf(tr, es, cfg, k, a, n, ts, steps) && D.Life(ts, steps, LimitsOf(cfg))
    ensures (forall i :: a <= i < n ==> !RetryFails(tr[i], es[i], cfg, k)) ==>
      D.Unfailed(ts[n - a]) && D.Counted(ts[n - a], LimitsOf(cfg))
  {
    a, ts, steps := RunDeliveriesAreGood(tr, es, cfg, k, n);
    if forall i :: a <= i < n ==> !RetryFails(tr[i], es[i], cfg, k) {
      forall i | 0 <= i < n - a ensures D.Survives(ts[i], steps[i], LimitsOf(cfg)) {
        assert Caused(tr[a + i], es[a + i], tr[a + i + 1], k, steps[i]) && Tracks(ts[i], tr[a + i], k);
        assert !RetryFails(tr[a + i], es[a + i], cfg, k);
      }
      D.UnfailedLife(ts, steps, LimitsOf(cfg), n - a);
    }
  }

  // -- acknowledgements in runs ----------------------------------------------------------------------

  /** What the step of a loop on slot `k` that handles a PUBACK leaves in flight there. */
  function AfterPuback(sh: Shared, k: nat, pid: nat, now: nat, cfg: Config, accepts: bool): seq<Inflight>
    requires SessionAt(sh, k).Some? && cfg.hz > 0
  {
    var o := SessionAt(Act(sh, k, Handling(InPuback(pid)), Action.Handle(now, accepts), cfg).0, k);
    if o.Some? then o.value.inflight else []
  }

  lemma {:induction false} TrackedPuback(s: Sys, k: nat, t: D.Track, j: nat, now: nat, cfg: Config, accepts: bool)
    requires Tracks(t, s, k) && D.Good(t, LimitsOf(cfg)) && D.Prompt(t) && j < |t.inflight| && cfg.hz > 0
    ensures AfterPuback(s.sh, k, t.inflight[j].packetId, now, cfg, accepts) == t.inflight[..j] + t.inflight[j + 1..]
  {
    PubackStep(Touched(s.sh, k, now).reg, k, t.inflight[j].packetId, cfg);
    D.AckRemovesItsDelivery(t, j, t.store, LimitsOf(cfg));
    assert D.Faithful(t, j, LimitsOf(cfg));
  }

  lemma {:induction false} UntrackedPuback(s: Sys, k: nat, t: D.Track, serial: nat, now: nat, cfg: Config, accepts: bool)
    requires Tracks(t, s, k) && D.Good(t, LimitsOf(cfg)) && D.Prompt(t) && D.Untracked(t, serial) && cfg.hz > 0
    ensures AfterPuback(s.sh, k, D.PidAt(serial), now, cfg, accepts) == t.inflight
  {
    PubackStep(Touched(s.sh, k, now).reg, k, D.PidAt(serial), cfg);
    D.UntrackedAckRemovesNothing(t, serial, t.store, LimitsOf(cfg));
  }

  /**
   In every run, while entries leave within 65535 allocations, the broker's handling of a PUBACK of a
   tracked delivery's id removes just that delivery, and of a recent id of the counter that is not
   tracked, nothing.
   */
  lemma {:induction false} AcksInRuns(tr: seq<Sys>, es: seq<Event>, cfg: Config, k: nat, n: nat, now: nat, accepts: bool)
      returns (a: nat, ts: seq<D.Track>, steps: seq<D.Step>)
    requires Run(tr, es, cfg) && n <= |es| && SessionAt(tr[n].sh, k).Some?
    ensures Serves(tr, es, cfg, k, a, n)
    ensures HistoryOf(tr, es, cfg, k, a, n, ts, steps) && D.Life(ts, steps, LimitsOf(cfg))
    ensures D.Prompt(ts[n - a]) ==>
      var t := ts[n - a];
      && (forall j :: 0 <= j < |t.inflight| ==>
            AfterPuback(tr[n].sh, k, t.inflight[j].packetId, now, cfg, accepts) == t.inflight[..j] + t.inflight[j + 1..])
      && (forall serial :: D.Untracked(t, serial) ==>
            AfterPuback(tr[n].sh, k, D.PidAt(serial), now, cfg, accepts) == t.inflight)
  {
    a, ts, steps := RunDeliveriesAreGood(tr, es, cfg, k, n);
    var t := ts[n - a];
    assert Tracks(t, tr[a + (n - a)], k);
    if D.Prompt(t) {
      forall j | 0 <= j < |t.inflight|
        ensures AfterPuback(tr[n].sh, k, t.inflight[j].packetId, now, cfg, accepts) == t.inflight[..j] + t.inflight[j + 1..]
      {
        TrackedPuback(tr[n], k, t, j, now, cfg, accepts);
      }
      forall serial | D.Untracked(t, serial)
        ensures AfterPuback(tr[n].sh, k, D.PidAt(serial), now, cfg, accepts) == t.inflight
      {
        UntrackedPuback(tr[n], k, t, serial, now, cfg, accepts);
      }
    }
  }
}
