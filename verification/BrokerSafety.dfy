/** What every interleaving of connection loops keeps. */
module BrokerSafety {
  import opened Basics
  import opened Sessions
  import opened PublishStore
  import opened FanOut
  import opened RegistryOps
  import opened Connect
  import opened Publish
  import opened Broker

  // -- effect of one action on the shared state ---------------------------------------

  /** Slot `i` keeps its occupant. */
  predicate Stays(a: Option<Session>, b: Option<Session>) {
    a.Some? == b.Some? && (a.Some? ==> a.value.clientId == b.value.clientId)
  }

  /** Every slot other than `me` keeps its occupant; its outbox is only appended to, with a signal. */
  ghost predicate OthersGrew(a: Shared, b: Shared, me: nat) {
    && |a.reg.slots| == |b.reg.slots| && |a.signals| == |b.signals| == |a.reg.slots|
    && (forall i :: 0 <= i < |a.reg.slots| && i != me ==>
          SlotGrew(a.reg.slots[i], b.reg.slots[i], a.signals[i], b.signals[i]))
  }

  ghost predicate AllStay(a: Shared, b: Shared) {
    && |a.reg.slots| == |b.reg.slots|
    && (forall i :: 0 <= i < |a.reg.slots| ==> Stays(a.reg.slots[i], b.reg.slots[i]))
  }

  /** A waiting loop with something to send has been signalled. */
  predicate Alert(sh: Shared, slot: nat, at: Point) {
    (at.Checking? || at.Waiting?) && slot < |sh.signals| && SessionAt(sh, slot).Some? ==>
      (SessionAt(sh, slot).value.outbox == [] || sh.signals[slot])
  }

  lemma {:induction false} GrewOthers(a: Shared, b: Shared, me: nat)
    requires Grew(a.reg, b.reg, a.signals, b.signals)
    ensures OthersGrew(a, b, me) && AllStay(a, b)
  {
    forall i | 0 <= i < |a.reg.slots| ensures Stays(a.reg.slots[i], b.reg.slots[i]) {
      assert SlotGrew(a.reg.slots[i], b.reg.slots[i], a.signals[i], b.signals[i]);
    }
  }

  lemma {:induction false} QueueOneGrows(sh: Shared, w: Lwt, t: Target)
    requires |sh.signals| == |sh.reg.slots|
    ensures var sh' := QueueOne(sh, w, t);
            Grew(sh.reg, sh'.reg, sh.signals, sh'.signals)
  {
    var sh' := QueueOne(sh, w, t);
    forall i | 0 <= i < |sh.reg.slots|
      ensures SlotGrew(sh.reg.slots[i], sh'.reg.slots[i], sh.signals[i], sh'.signals[i])
    {}
  }

  lemma {:induction false} QueueOneConserves(sh: Shared, w: Lwt, t: Target)
    requires Conserved(sh.reg)
    ensures Conserved(QueueOne(sh, w, t).reg)
  {
    var o := SessionAt(sh, t.id);
    var sh' := QueueOne(sh, w, t);
    if sh' != sh { SwapConserved(sh.reg, t.id, sh'.reg.slots[t.id].value); }
  }

  lemma {:induction false} GrewTransitive(a: Shared, b: Shared, c: Shared)
    requires Grew(a.reg, b.reg, a.signals, b.signals) && Grew(b.reg, c.reg, b.signals, c.signals)
    ensures Grew(a.reg, c.reg, a.signals, c.signals)
  {
    forall i | 0 <= i < |a.reg.slots|
      ensures SlotGrew(a.reg.slots[i], c.reg.slots[i], a.signals[i], c.signals[i])
    {
      assert SlotGrew(a.reg.slots[i], b.reg.slots[i], a.signals[i], b.signals[i]);
      assert SlotGrew(b.reg.slots[i], c.reg.slots[i], b.signals[i], c.signals[i]);
    }
  }

  lemma {:induction false} QueueWillsGrows(sh: Shared, w: Lwt, ts: seq<Target>, n: nat)
    requires n <= |ts| && |sh.signals| == |sh.reg.slots|
    ensures var sh' := QueueWills(sh, w, ts, n);
            Grew(sh.reg, sh'.reg, sh.signals, sh'.signals)
  {
    if n > 0 {
      QueueWillsGrows(sh, w, ts, n - 1);
      var mid := QueueWills(sh, w, ts, n - 1);
      QueueOneGrows(mid, w, ts[n - 1]);
      GrewTransitive(sh, mid, QueueOne(mid, w, ts[n - 1]));
    }
  }

  lemma {:induction false} QueueWillsConserves(sh: Shared, w: Lwt, ts: seq<Target>, n: nat)
    requires n <= |ts| && Conserved(sh.reg)
    ensures Conserved(QueueWills(sh, w, ts, n).reg)
  {
    if n > 0 {
      QueueWillsConserves(sh, w, ts, n - 1);
      QueueOneConserves(QueueWills(sh, w, ts, n - 1), w, ts[n - 1]);
    }
  }

  /** A region that replaces only the loop's own session. */
  lemma {:induction false} OwnSessionOnly(sh: Shared, sh': Shared, slot: nat, s: Session)
    requires |sh.signals| == |sh.reg.slots| && SessionAt(sh, slot).Some?
    requires sh'.reg.slots == sh.reg.slots[slot := Some(s)] && sh'.signals == sh.signals
    requires s.clientId == sh.reg.slots[slot].value.clientId
    ensures OthersGrew(sh, sh', slot) && AllStay(sh, sh')
  {
  }

  lemma {:induction false} HandleStepEffect(sh: Shared, slot: nat, p: Inbound, now: nat, cfg: Config, accepts: bool)
    requires |sh.signals| == |sh.reg.slots| && SessionAt(sh, slot).Some? && cfg.hz > 0
    ensures var (sh', at) := HandleStep(sh, slot, p, now, cfg, accepts);
            && OthersGrew(sh, sh', slot) && AllStay(sh, sh')
            && !at.Checking? && !at.Waiting?
  {
    var sh' := HandleStep(sh, slot, p, now, cfg, accepts).0;
    if p.InPublish? {
      HandlePublishGrows(sh, slot, p.m, now, cfg, accepts);
      GrewOthers(sh, sh', slot);
    } else {
      assert sh'.reg.slots == sh.reg.slots[slot := sh'.reg.slots[slot]];
      OwnSessionOnly(sh, sh', slot, sh'.reg.slots[slot].value);
    }
  }

  lemma {:induction false} HandleStepConserves(sh: Shared, slot: nat, p: Inbound, now: nat, cfg: Config, accepts: bool)
    requires SessionAt(sh, slot).Some? && cfg.hz > 0 && Conserved(sh.reg)
    ensures Conserved(HandleStep(sh, slot, p, now, cfg, accepts).0.reg)
  {
    var sh' := HandleStep(sh, slot, p, now, cfg, accepts).0;
    match p {
      case InPublish(m) => HandlePublishConserves(sh, slot, m, now, cfg, accepts);
      case InPuback(pid) => AcknowledgeConserves(sh.reg, slot, pid);
      case InSubscribe(ts) => SwapConserved(sh.reg, slot, sh'.reg.slots[slot].value);
      case InUnsubscribe(fs) => SwapConserved(sh.reg, slot, sh'.reg.slots[slot].value);
      case InPing =>
      case InDisconnect =>
      case InOther =>
    }
  }

  lemma {:induction false} FlushEffect(sh: Shared, slot: nat)
    requires |sh.signals| == |sh.reg.slots|
    ensures var (sh', at) := FlushStep(sh, slot);
            OthersGrew(sh, sh', slot) && AllStay(sh, sh') && Alert(sh', slot, at)
  {
    var sh' := FlushStep(sh, slot).0;
    if SessionAt(sh, slot).Some? {
      OwnSessionOnly(sh, sh', slot, sh'.reg.slots[slot].value);
    }
  }

  lemma {:induction false} CheckEffect(sh: Shared, slot: nat, retryAt: nat, writes: nat, now: nat, cfg: Config)
    requires |sh.signals| == |sh.reg.slots|
    ensures var (sh', at) := CheckStep(sh, slot, retryAt, writes, now, cfg);
            OthersGrew(sh, sh', slot) && AllStay(sh, sh') && (Alert(sh, slot, Checking) ==> Alert(sh', slot, at))
  {
    var sh' := CheckStep(sh, slot, retryAt, writes, now, cfg).0;
    if SessionAt(sh, slot).Some? {
      assert sh'.reg.slots == sh.reg.slots[slot := sh'.reg.slots[slot]];
      OwnSessionOnly(sh, sh', slot, sh'.reg.slots[slot].value);
    }
  }

  lemma {:induction false} HandleEffect(sh: Shared, slot: nat, p: Inbound, now: nat, cfg: Config, accepts: bool)
    requires |sh.signals| == |sh.reg.slots| && SessionAt(sh, slot).Some? && cfg.hz > 0
    ensures var (sh', at) := HandleStep(Touched(sh, slot, now), slot, p, now, cfg, accepts);
            OthersGrew(sh, sh', slot) && AllStay(sh, sh') && Alert(sh', slot, at)
  {
    var mid := Touched(sh, slot, now);
    OwnSessionOnly(sh, mid, slot, mid.reg.slots[slot].value);
    HandleStepEffect(mid, slot, p, now, cfg, accepts);
  }

  /** Every action keeps the other slots' occupants and wakes them; all but Remove keep its own. */
  lemma {:induction false} ActEffect(sh: Shared, slot: nat, at: Point, a: Action, cfg: Config)
    requires |sh.signals| == |sh.reg.slots| && Ready(sh, slot, at, a) && cfg.hz > 0
    ensures var (sh', p) := Act(sh, slot, at, a, cfg);
            && OthersGrew(sh, sh', slot)
            && (!a.Remove? ==> AllStay(sh, sh'))
            && (p.Some? && Alert(sh, slot, at) ==> Alert(sh', slot, p.value))
  {
    match a {
      case Flush => FlushEffect(sh, slot);
      case Check(t, w, now) => CheckEffect(sh, slot, t, w, now, cfg);
      case Handle(now, accepts) =>
        if SessionAt(sh, slot).Some? { HandleEffect(sh, slot, at.packet, now, cfg, accepts); }
      case QueueWill =>
        QueueWillsGrows(sh, at.lwt, at.targets, |at.targets|);
        GrewOthers(sh, QueueWills(sh, at.lwt, at.targets, |at.targets|), slot);
      case _ =>
    }
  }

  /** Nobody appears and nobody changes client. */
  lemma {:induction false} ActStays(sh: Shared, slot: nat, at: Point, a: Action, cfg: Config)
    requires |sh.signals| == |sh.reg.slots| && Ready(sh, slot, at, a) && cfg.hz > 0
    ensures var sh' := Act(sh, slot, at, a, cfg).0;
            && |sh'.reg.slots| == |sh.reg.slots| == |sh'.signals|
            && (forall i :: 0 <= i < |sh.reg.slots| ==> sh'.reg.slots[i].Some? ==>
                  sh.reg.slots[i].Some? && sh.reg.slots[i].value.clientId == sh'.reg.slots[i].value.clientId)
  {
    var sh' := Act(sh, slot, at, a, cfg).0;
    ActEffect(sh, slot, at, a, cfg);
    forall i | 0 <= i < |sh.reg.slots| && sh'.reg.slots[i].Some?
      ensures sh.reg.slots[i].Some? && sh.reg.slots[i].value.clientId == sh'.reg.slots[i].value.clientId
    {
      if i != slot { assert SlotGrew(sh.reg.slots[i], sh'.reg.slots[i], sh.signals[i], sh'.signals[i]); }
    }
  }

  /** Apart from taking a packet out to write it, a loop's action only adds to its own outbox too. */
  lemma {:induction false} OwnOutboxGrows(sh: Shared, slot: nat, at: Point, a: Action, cfg: Config)
    requires |sh.signals| == |sh.reg.slots| && Ready(sh, slot, at, a) && cfg.hz > 0
    requires SessionAt(sh, slot).Some? && !a.Flush? && !a.Remove?
    ensures var sh' := Act(sh, slot, at, a, cfg).0;
            SessionAt(sh', slot).Some? && sh.reg.slots[slot].value.outbox <= sh'.reg.slots[slot].value.outbox
  {
    if a.Handle? {
      var mid := Touched(sh, slot, a.at);
      if at.packet.InPublish? {
        HandlePublishGrows(mid, slot, at.packet.m, a.at, cfg, a.handlerAccepts);
        var sh' := Act(sh, slot, at, a, cfg).0;
        assert SlotGrew(mid.reg.slots[slot], sh'.reg.slots[slot], mid.signals[slot], sh'.signals[slot]);
      }
    } else if a.QueueWill? {
      QueueWillsGrows(sh, at.lwt, at.targets, |at.targets|);
      var sh' := Act(sh, slot, at, a, cfg).0;
      assert SlotGrew(sh.reg.slots[slot], sh'.reg.slots[slot], sh.signals[slot], sh'.signals[slot]);
    }
  }

  lemma {:induction false} CheckConserves(sh: Shared, slot: nat, retryAt: nat, writes: nat, now: nat, cfg: Config)
    requires Conserved(sh.reg)
    ensures Conserved(CheckStep(sh, slot, retryAt, writes, now, cfg).0.reg)
  {
    if SessionAt(sh, slot).Some? {
      RetryConserves(sh.reg, slot, retryAt, cfg.retryTicks, cfg.maxRetries, writes);
    }
  }

  lemma {:induction false} FlushConserves(sh: Shared, slot: nat)
    requires Conserved(sh.reg)
    ensures Conserved(FlushStep(sh, slot).0.reg)
  {
    var sh' := FlushStep(sh, slot).0;
    if SessionAt(sh, slot).Some? { SwapConserved(sh.reg, slot, sh'.reg.slots[slot].value); }
  }

  lemma {:induction false} ActConserves(sh: Shared, slot: nat, at: Point, a: Action, cfg: Config)
    requires Ready(sh, slot, at, a) && cfg.hz > 0 && Conserved(sh.reg)
    ensures Conserved(Act(sh, slot, at, a, cfg).0.reg)
  {
    match a {
      case Flush => FlushConserves(sh, slot);
      case Check(t, w, now) => CheckConserves(sh, slot, t, w, now, cfg);
      case Handle(now, accepts) =>
        if SessionAt(sh, slot).Some? {
          var mid := Touched(sh, slot, now);
          SwapConserved(sh.reg, slot, mid.reg.slots[slot].value);
          HandleStepConserves(mid, slot, at.packet, now, cfg, accepts);
        }
      case QueueWill => QueueWillsConserves(sh, at.lwt, at.targets, |at.targets|);
      case Remove => RemoveConserves(sh.reg, slot);
      case _ =>
    }
  }
}
