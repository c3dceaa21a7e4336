/** What a CONNECT for a client whose loop still runs does to the wake-up guarantee. */
module BrokerTakeover {
  import opened Basics
  import opened RateLimit
  import opened Sessions
  import opened PublishStore
  import opened FanOut
  import opened RegistryOps
  import opened Connect
  import opened Publish
  import opened Broker
  import opened BrokerSafety
  import opened BrokerRuns
  import opened BrokerExamples

  predicate Parked(loop: Loop, k: nat) {
    loop.On? && loop.slot == k && (loop.at.Checking? || loop.at.Waiting?)
  }

  /** The CONNECT resumes a session that has something to send while a loop is about to wait, or waits, on its slot. */
  ghost predicate LosesWakeup(s: Sys, c: ConnectPacket) {
    var k := FindClient(s.sh.reg.slots, c.clientId);
    && !RefusedEarly(c) && !c.cleanSession && WillFits(c)
    && k < |s.sh.reg.slots| && s.sh.reg.slots[k].value.outbox != []
    && exists l :: 0 <= l < |s.loops| && Parked(s.loops[l], k)
  }

  /** Discarding the client's session leaves nothing to send on its slot. */
  lemma {:induction false} DiscardedSlotIsQuiet(sh: Shared, c: ConnectPacket, now: nat, cfg: Config)
    requires |sh.signals| == |sh.reg.slots| && !RefusedEarly(c) && c.cleanSession
    requires FindClient(sh.reg.slots, c.clientId) < |sh.reg.slots|
    ensures var k := FindClient(sh.reg.slots, c.clientId);
            var sh' := ConnectStep(sh, c, now, cfg).0;
            |sh'.reg.slots| == |sh.reg.slots| && (sh'.reg.slots[k].Some? ==> sh'.reg.slots[k].value.outbox == [])
  {
  }

  lemma {:induction false} ResumedSlotIsReset(sh: Shared, c: ConnectPacket, now: nat, cfg: Config)
    requires |sh.signals| == |sh.reg.slots| && !RefusedEarly(c) && !c.cleanSession && WillFits(c)
    requires FindClient(sh.reg.slots, c.clientId) < |sh.reg.slots|
    ensures var k := FindClient(sh.reg.slots, c.clientId);
            var sh' := ConnectStep(sh, c, now, cfg).0;
            && |sh'.reg.slots| == |sh'.signals| == |sh.reg.slots|
            && !sh'.signals[k] && sh'.reg.slots[k].Some?
            && sh'.reg.slots[k].value.outbox == sh.reg.slots[k].value.outbox
  {
  }

  lemma {:induction false} OwnerIsFound(s: Sys, l: nat)
    requires Safe(s) && Owned(s) && l < |s.loops| && s.loops[l].On?
    ensures FindClient(s.sh.reg.slots, s.loops[l].client) == s.loops[l].slot
  {
    assert Owns(s, s.loops[l]);
    var i := FindClient(s.sh.reg.slots, s.loops[l].client);
    assert i <= s.loops[l].slot;
  }

  /** What becomes of one running loop. */
  lemma {:induction false} LoopAfterConnect(s: Sys, e: Event, cfg: Config, l: nat)
    requires Safe(s) && Owned(s) && Woken(s) && Enabled(s, e) && cfg.hz > 0 && e.Connecting?
    requires l < |s.loops| && s.loops[l].On?
    ensures var s' := Apply(s, e, cfg);
            var k := FindClient(s.sh.reg.slots, e.packet.clientId);
            Alert(s'.sh, s.loops[l].slot, s.loops[l].at) <==>
              !(Parked(s.loops[l], k) && LosesWakeup(s, e.packet))
  {
    var c, loop := e.packet, s.loops[l];
    var k := FindClient(s.sh.reg.slots, c.clientId);
    assert Owns(s, loop) && Alert(s.sh, loop.slot, loop.at);
    OwnerIsFound(s, l);
    if loop.client != c.clientId {
      ConnectSparesOthers(s.sh, s.tenures, c, e.at, cfg, loop.slot);
      assert k < |s.sh.reg.slots| ==> loop.slot != k;
    } else if RefusedEarly(c) || (!c.cleanSession && !WillFits(c)) {
      IdleConnect(s.sh, s.tenures, c, e.at, cfg, k);
    } else if c.cleanSession {
      DiscardedSlotIsQuiet(s.sh, c, e.at, cfg);
    } else {
      ResumedSlotIsReset(s.sh, c, e.at, cfg);
    }
  }

  /** A CONNECT keeps the wake-up guarantee if and only if it is not such a resume. */
  lemma {:induction false} WakeupLostExactly(s: Sys, e: Event, cfg: Config)
    requires Safe(s) && Owned(s) && Woken(s) && Enabled(s, e) && cfg.hz > 0 && e.Connecting?
    ensures Woken(Apply(s, e, cfg)) <==> !LosesWakeup(s, e.packet)
  {
    var s' := Apply(s, e, cfg);
    ConnectShapes(s, e, cfg);
    forall l | 0 <= l < |s.loops| && s.loops[l].On?
      ensures s'.loops[l] == s.loops[l]
      ensures Alert(s'.sh, s.loops[l].slot, s.loops[l].at) <==>
        !(Parked(s.loops[l], FindClient(s.sh.reg.slots, e.packet.clientId)) && LosesWakeup(s, e.packet))
    {
      LoopAfterConnect(s, e, cfg, l);
    }
    if LosesWakeup(s, e.packet) {
      var l :| 0 <= l < |s.loops| && Parked(s.loops[l], FindClient(s.sh.reg.slots, e.packet.clientId));
      assert !Alert(s'.sh, s'.loops[l].slot, s'.loops[l].at);
    }
  }

  // -- an input that loses it ------------------------------------------------------------------

  const NEWS := Message("x", [], AtMostOnce, false)

  /** Client "c" waits with a packet in its outbox and its signal set; a second task is free. */
  function BusyClient(cfg: Config): Sys {
    var s := Subscriber(cfg).(outbox := [Packet(AtMostOnce, 0, false, "x", [])]);
    Sys(Shared(Registry([Some(s)], [None], 1, []), [], [true]), [On(0, "c", 1, Waiting), Off], [1])
  }

  lemma {:induction false} NewsIsQueued(cfg: Config)
    ensures var sh := BusyClient(cfg).sh;
            DeliverOne(Before(cfg), Target(0, AtLeastOnce), NEWS, 0, cfg.maxDrops) == Fan(sh.reg, sh.signals, None, true)
  {
    assert Encodes("x", [], AtMostOnce);
    assert Enqueue(Subscriber(cfg), NEWS, AtMostOnce, cfg.maxDrops) == BusyClient(cfg).sh.reg.slots[0].value;
  }

  /** The client connected, subscribed to "x" and waited when a publish to "x" came. */
  lemma {:induction false} BusyClientIsReachable(cfg: Config)
    requires cfg.hz > 0 && cfg.maxSubs >= 1
    ensures Reachable(BusyClient(cfg), cfg)
  {
    StartIsReachable(Empty([]), cfg);
    ListeningIsReachable(cfg, []);
    ReachStep(Connected(Subscriber(cfg), [], Waiting), Outbound(NEWS, 0), cfg);
    DeliverToListener(cfg, NEWS, 0, [], Waiting);
    NewsIsQueued(cfg);
  }

  const RESUME := ConnectPacket(true, "c", true, false, 0, None)

  lemma {:induction false} ResumeLosesWakeup(cfg: Config)
    requires cfg.hz > 0 && cfg.maxSubs >= 1
    ensures var s := BusyClient(cfg);
            && Reachable(s, cfg) && Safe(s) && Owned(s) && Woken(s) && Enabled(s, Connecting(1, RESUME, 0))
            && !Woken(Apply(s, Connecting(1, RESUME, 0), cfg))
  {
    var s := BusyClient(cfg);
    BusyClientIsReachable(cfg);
    ReachStep(s, Connecting(1, RESUME, 0), cfg);
    assert Owns(s, s.loops[0]);
    assert Parked(s.loops[0], 0);
    assert LosesWakeup(s, RESUME);
    WakeupLostExactly(s, Connecting(1, RESUME, 0), cfg);
  }
}
