/** Safety of whole runs of the broker. */
module BrokerRuns {
  import opened Basics
  import opened Sessions
  import opened PublishStore
  import opened FanOut
  import opened RegistryOps
  import opened Connect
  import opened Publish
  import opened Broker
  import opened BrokerSafety

  // -- what holds in every run ----------------------------------------------------------

  /** References are conserved and no client occupies two slots. */
  ghost predicate Safe(s: Sys) {
    Shaped(s) && Conserved(s.sh.reg) && DistinctClients(s.sh.reg.slots)
  }

  // -- what holds when no running client is taken over ------------------------------------

  predicate Owns(s: Sys, loop: Loop) {
    loop.On? ==>
      && loop.slot < |s.sh.reg.slots| && loop.slot < |s.tenures|
      && s.sh.reg.slots[loop.slot].Some?
      && s.sh.reg.slots[loop.slot].value.clientId == loop.client
      && s.tenures[loop.slot] == loop.tenure
  }

  /** Each running loop holds its own session, the one it obtained, on a slot of its own. */
  ghost predicate Owned(s: Sys) {
    && (forall l :: 0 <= l < |s.loops| ==> Owns(s, s.loops[l]))
    && (forall l, k :: 0 <= l < k < |s.loops| && s.loops[l].On? && s.loops[k].On? ==>
          s.loops[l].slot != s.loops[k].slot)
  }

  /** No loop waits on an unset signal while its outbox holds a packet. */
  ghost predicate Woken(s: Sys) {
    forall l :: 0 <= l < |s.loops| && s.loops[l].On? ==> Alert(s.sh, s.loops[l].slot, s.loops[l].at)
  }

  /** No running loop serves the client that connects, or the packet never gets that far. */
  ghost predicate Harmless(s: Sys, c: ConnectPacket) {
    || RefusedEarly(c)
    || (!c.cleanSession && !WillFits(c))
    || (forall l :: 0 <= l < |s.loops| && s.loops[l].On? ==> s.loops[l].client != c.clientId)
  }

  ghost predicate Polite(s: Sys, e: Event) {
    e.Connecting? ==> Harmless(s, e.packet)
  }

  // -- every step is safe -------------------------------------------------------------------

  lemma {:induction false} StayDistinct(a: Slots, b: Slots)
    requires DistinctClients(a) && |a| == |b|
    requires forall i :: 0 <= i < |a| ==> b[i].Some? ==> a[i].Some? && a[i].value.clientId == b[i].value.clientId
    ensures DistinctClients(b)
  {
  }

  lemma {:induction false} ConnectStepSafe(sh: Shared, c: ConnectPacket, now: nat, cfg: Config)
    requires |sh.signals| == |sh.reg.slots| && Conserved(sh.reg) && DistinctClients(sh.reg.slots)
    ensures var sh' := ConnectStep(sh, c, now, cfg).0;
            && Conserved(sh'.reg) && DistinctClients(sh'.reg.slots)
            && |sh'.signals| == |sh'.reg.slots| == |sh.reg.slots|
  {
    ConnectConserves(sh.reg, c);
    ConnectKeepsClientsDistinct(sh.reg, c);
    var (r, result) := PrepareConnect(sh.reg, c);
    if result.Accepted? {
      var r' := Activated(r, result.slot, now, cfg);
      SwapConserved(r, result.slot, r'.slots[result.slot].value);
      StayDistinct(r.slots, r'.slots);
    }
  }

  lemma {:induction false} ActSafe(sh: Shared, slot: nat, at: Point, a: Action, cfg: Config)
    requires |sh.signals| == |sh.reg.slots| && Ready(sh, slot, at, a) && cfg.hz > 0
    requires Conserved(sh.reg) && DistinctClients(sh.reg.slots)
    ensures var sh' := Act(sh, slot, at, a, cfg).0;
            && Conserved(sh'.reg) && DistinctClients(sh'.reg.slots)
            && |sh'.signals| == |sh'.reg.slots| == |sh.reg.slots|
  {
    ActConserves(sh, slot, at, a, cfg);
    ActStays(sh, slot, at, a, cfg);
    StayDistinct(sh.reg.slots, Act(sh, slot, at, a, cfg).0.reg.slots);
  }

  /** In every reachable state references balance and client ids are distinct. */
  lemma {:induction false} StepSafe(s: Sys, e: Event, cfg: Config)
    requires Safe(s) && Enabled(s, e) && cfg.hz > 0
    ensures Safe(Apply(s, e, cfg))
  {
    match e {
      case Connecting(l, c, now) => ConnectStepSafe(s.sh, c, now, cfg);
      case Acting(l, a) => ActSafe(s.sh, s.loops[l].slot, s.loops[l].at, a, cfg);
      case Outbound(m, now) =>
        OutboundConserves(s.sh, m, now, cfg);
        OutboundGrows(s.sh, m, now, cfg);
        var sh' := OutboundPublish(s.sh, m, now, cfg);
        GrewOthers(s.sh, sh', 0);
        StayDistinct(s.sh.reg.slots, sh'.reg.slots);
      case TakeWill =>
    }
  }

  // -- ownership and wake-ups under polite connects ---------------------------------------------

  /** A CONNECT leaves this occupied slot alone. */
  predicate Spared(sh: Shared, tenures: seq<nat>, sh': Shared, tenures': seq<nat>, k: nat)
    requires |sh.reg.slots| == |sh.signals| == |tenures|
    requires |sh'.reg.slots| == |sh'.signals| == |tenures'| == |tenures| && k < |tenures|
  {
    sh'.reg.slots[k] == sh.reg.slots[k] && sh'.signals[k] == sh.signals[k] && tenures'[k] == tenures[k]
  }

  /** The slot a CONNECT is accepted on is the client's own or was free. */
  lemma {:induction false} AcceptedSlot(r: Registry, c: ConnectPacket)
    ensures var result := PrepareConnect(r, c).1;
            result.Accepted? ==>
              || result.slot == FindClient(r.slots, c.clientId)
              || result.slot == FirstEmpty(Vacated(r.slots, c.clientId))
  {
    assert RemoveSession(r, FindClient(r.slots, c.clientId)).slots == Vacated(r.slots, c.clientId);
  }

  lemma {:induction false} ConnectSparesOthers(sh: Shared, tenures: seq<nat>, c: ConnectPacket, now: nat,
      cfg: Config, k: nat)
    requires |sh.reg.slots| == |sh.signals| == |tenures| && k < |tenures|
    requires sh.reg.slots[k].Some? && sh.reg.slots[k].value.clientId != c.clientId
    ensures var (sh', slot) := ConnectStep(sh, c, now, cfg);
            var tenures' := TenuresAfter(tenures, sh.reg, c);
            && |sh'.reg.slots| == |sh'.signals| == |tenures|
            && Spared(sh, tenures, sh', tenures', k) && slot != Some(k)
  {
    ConnectHasShape(sh.reg, c);
    AcceptedSlot(sh.reg, c);
    var i := FindClient(sh.reg.slots, c.clientId);
    var vacated := Vacated(sh.reg.slots, c.clientId);
    assert k != i;
    assert vacated[k].Some?;
    var (r, result) := PrepareConnect(sh.reg, c);
    assert r.slots[k] == sh.reg.slots[k];
  }

  /** A CONNECT that is refused or whose will does not fit changes no session. */
  lemma {:induction false} IdleConnect(sh: Shared, tenures: seq<nat>, c: ConnectPacket, now: nat, cfg: Config, k: nat)
    requires |sh.reg.slots| == |sh.signals| == |tenures| && k < |tenures| && sh.reg.slots[k].Some?
    requires RefusedEarly(c) || (!c.cleanSession && !WillFits(c))
    ensures var (sh', slot) := ConnectStep(sh, c, now, cfg);
            var tenures' := TenuresAfter(tenures, sh.reg, c);
            && |sh'.reg.slots| == |sh'.signals| == |tenures|
            && Spared(sh, tenures, sh', tenures', k) && slot.None?
  {
    var i := FindClient(sh.reg.slots, c.clientId);
    assert RemoveSession(sh.reg, |sh.reg.slots|) == sh.reg;
    if i == |sh.reg.slots| { assert Vacated(sh.reg.slots, c.clientId) == sh.reg.slots; }
    assert PrepareConnect(sh.reg, c).0.slots == sh.reg.slots;
  }

  /** A harmless CONNECT changes nothing for a running loop. */
  lemma {:induction false} HarmlessSparesLoop(s: Sys, e: Event, cfg: Config, l: nat)
    requires Shaped(s) && Owned(s) && Enabled(s, e) && cfg.hz > 0 && e.Connecting? && Harmless(s, e.packet)
    requires l < |s.loops| && s.loops[l].On?
    ensures var s' := Apply(s, e, cfg);
            && Shaped(s') && |s'.tenures| == |s.tenures| && s'.loops[l] == s.loops[l]
            && Spared(s.sh, s.tenures, s'.sh, s'.tenures, s.loops[l].slot)
            && (s'.loops[e.loop].On? ==> s'.loops[e.loop].slot != s.loops[l].slot)
  {
    assert Owns(s, s.loops[l]);
    if RefusedEarly(e.packet) || (!e.packet.cleanSession && !WillFits(e.packet)) {
      IdleConnect(s.sh, s.tenures, e.packet, e.at, cfg, s.loops[l].slot);
    } else {
      ConnectSparesOthers(s.sh, s.tenures, e.packet, e.at, cfg, s.loops[l].slot);
    }
  }

  lemma {:induction false} ConnectShapes(s: Sys, e: Event, cfg: Config)
    requires Shaped(s) && Enabled(s, e) && cfg.hz > 0 && e.Connecting?
    ensures var s' := Apply(s, e, cfg);
            && Shaped(s') && |s'.tenures| == |s.tenures| && |s'.loops| == |s.loops|
            && (forall k :: 0 <= k < |s.loops| && k != e.loop ==> s'.loops[k] == s.loops[k])
            && Owns(s', s'.loops[e.loop])
            && (s'.loops[e.loop].On? ==> s'.loops[e.loop].at.Acking?)
  {
    ConnectHasShape(s.sh.reg, e.packet);
  }

  lemma {:induction false} ConnectKeepsOwned(s: Sys, e: Event, cfg: Config)
    requires Shaped(s) && Owned(s) && Woken(s) && Enabled(s, e) && cfg.hz > 0 && e.Connecting? && Harmless(s, e.packet)
    ensures Owned(Apply(s, e, cfg)) && Woken(Apply(s, e, cfg))
  {
    var s' := Apply(s, e, cfg);
    ConnectShapes(s, e, cfg);
    forall k | 0 <= k < |s.loops| && k != e.loop && s.loops[k].On?
      ensures Owns(s', s'.loops[k]) && Alert(s'.sh, s'.loops[k].slot, s'.loops[k].at)
      ensures s'.loops[e.loop].On? ==> s'.loops[e.loop].slot != s'.loops[k].slot
    {
      assert Owns(s, s.loops[k]);
      HarmlessSparesLoop(s, e, cfg, k);
    }
  }

  lemma {:induction false} OtherLoopUndisturbed(s: Sys, l: nat, a: Action, cfg: Config, k: nat)
    requires Shaped(s) && Owned(s) && Woken(s) && Enabled(s, Acting(l, a)) && cfg.hz > 0
    requires k < |s.loops| && k != l && s.loops[k].On?
    ensures var s' := Apply(s, Acting(l, a), cfg);
            && |s'.tenures| == |s.tenures|
            && Owns(s', s.loops[k]) && Alert(s'.sh, s.loops[k].slot, s.loops[k].at)
  {
    ActEffect(s.sh, s.loops[l].slot, s.loops[l].at, a, cfg);
    var sh' := Act(s.sh, s.loops[l].slot, s.loops[l].at, a, cfg).0;
    var j := s.loops[k].slot;
    assert Owns(s, s.loops[k]) && Owns(s, s.loops[l]);
    assert j != s.loops[l].slot;
    assert SlotGrew(s.sh.reg.slots[j], sh'.reg.slots[j], s.sh.signals[j], sh'.signals[j]);
  }

  lemma {:induction false} ActingLoopKeepsItsOwn(s: Sys, l: nat, a: Action, cfg: Config)
    requires Shaped(s) && Owned(s) && Woken(s) && Enabled(s, Acting(l, a)) && cfg.hz > 0
    ensures var s' := Apply(s, Acting(l, a), cfg);
            Owns(s', s'.loops[l]) && (s'.loops[l].On? ==> Alert(s'.sh, s'.loops[l].slot, s'.loops[l].at))
  {
    ActEffect(s.sh, s.loops[l].slot, s.loops[l].at, a, cfg);
    assert Owns(s, s.loops[l]);
  }

  lemma {:induction false} ActKeepsOwned(s: Sys, l: nat, a: Action, cfg: Config)
    requires Shaped(s) && Owned(s) && Woken(s) && Enabled(s, Acting(l, a)) && cfg.hz > 0
    ensures Owned(Apply(s, Acting(l, a), cfg)) && Woken(Apply(s, Acting(l, a), cfg))
  {
    var s' := Apply(s, Acting(l, a), cfg);
    ActingLoopKeepsItsOwn(s, l, a, cfg);
    forall k | 0 <= k < |s.loops| && k != l && s.loops[k].On?
      ensures Owns(s', s'.loops[k]) && Alert(s'.sh, s'.loops[k].slot, s'.loops[k].at)
    {
      OtherLoopUndisturbed(s, l, a, cfg, k);
    }
  }

  lemma {:induction false} OutboundKeepsOwned(s: Sys, m: Message, now: nat, cfg: Config)
    requires Shaped(s) && Owned(s) && Woken(s) && cfg.hz > 0
    ensures Owned(Apply(s, Outbound(m, now), cfg)) && Woken(Apply(s, Outbound(m, now), cfg))
  {
    var s' := Apply(s, Outbound(m, now), cfg);
    OutboundGrows(s.sh, m, now, cfg);
    forall k | 0 <= k < |s.loops| && s.loops[k].On?
      ensures Owns(s', s.loops[k]) && Alert(s'.sh, s.loops[k].slot, s.loops[k].at)
    {
      var j := s.loops[k].slot;
      assert Owns(s, s.loops[k]);
      assert SlotGrew(s.sh.reg.slots[j], s'.sh.reg.slots[j], s.sh.signals[j], s'.sh.signals[j]);
    }
  }

  /** Every step other than taking over a running client keeps ownership and wake-ups. */
  lemma {:induction false} StepOwned(s: Sys, e: Event, cfg: Config)
    requires Shaped(s) && Owned(s) && Woken(s) && Enabled(s, e) && cfg.hz > 0 && Polite(s, e)
    ensures Owned(Apply(s, e, cfg)) && Woken(Apply(s, e, cfg))
  {
    match e {
      case Connecting(l, c, now) => ConnectKeepsOwned(s, e, cfg);
      case Acting(l, a) => ActKeepsOwned(s, l, a, cfg);
      case Outbound(m, now) => OutboundKeepsOwned(s, m, now, cfg);
      case TakeWill =>
        var s' := Apply(s, e, cfg);
        forall k | 0 <= k < |s.loops| ensures Owns(s', s.loops[k]) { assert Owns(s, s.loops[k]); }
    }
  }

  /** Exactly the harmless CONNECTs keep ownership: the condition cannot be weakened. */
  lemma {:induction false} TakeoverIsExactlyTheHazard(s: Sys, e: Event, cfg: Config)
    requires Safe(s) && Owned(s) && Woken(s) && Enabled(s, e) && cfg.hz > 0 && e.Connecting?
    ensures Owned(Apply(s, e, cfg)) <==> Harmless(s, e.packet)
  {
    if Harmless(s, e.packet) {
      ConnectKeepsOwned(s, e, cfg);
    } else {
      var l :| 0 <= l < |s.loops| && s.loops[l].On? && s.loops[l].client == e.packet.clientId;
      TakeoverBreaksOwnership(s, e, cfg, l);
    }
  }

  lemma {:induction false} TakeoverBreaksOwnership(s: Sys, e: Event, cfg: Config, l: nat)
    requires Safe(s) && Owned(s) && Enabled(s, e) && cfg.hz > 0 && e.Connecting? && !Harmless(s, e.packet)
    requires l < |s.loops| && s.loops[l].On? && s.loops[l].client == e.packet.clientId
    ensures !Owned(Apply(s, e, cfg))
  {
    var s' := Apply(s, e, cfg);
    var k, c := s.loops[l].slot, e.packet;
    assert Owns(s, s.loops[l]);
    assert FindClient(s.sh.reg.slots, c.clientId) == k by {
      var i := FindClient(s.sh.reg.slots, c.clientId);
      assert i <= k;
    }
    assert s'.loops[l] == s.loops[l];
    if c.cleanSession {
      assert s'.tenures[k] > s.tenures[k];
      assert !Owns(s', s'.loops[l]);
    } else {
      assert s'.loops[e.loop].On? && s'.loops[e.loop].slot == k;
    }
  }

  /** Cleanup removes the very session its loop obtained, and only that one. */
  lemma {:induction false} CleanupRemovesItsOwnSession(s: Sys, l: nat, cfg: Config)
    requires Shaped(s) && Owned(s) && Enabled(s, Acting(l, Remove)) && cfg.hz > 0
    ensures var s' := Apply(s, Acting(l, Remove), cfg);
            var loop := s.loops[l];
            && loop.slot < |s.sh.reg.slots| == |s.tenures|
            && s.sh.reg.slots[loop.slot].Some?
            && s.sh.reg.slots[loop.slot].value.clientId == loop.client
            && s.tenures[loop.slot] == loop.tenure
            && s'.sh.reg.slots == s.sh.reg.slots[loop.slot := None]
            && s'.loops == s.loops[l := Off]
  {
    assert Owns(s, s.loops[l]);
  }

  // -- runs ------------------------------------------------------------------------------------

  predicate Initial(s: Sys) {
    && Shaped(s)
    && (forall i :: 0 <= i < |s.sh.reg.slots| ==> s.sh.reg.slots[i].None?)
    && (forall p :: 0 <= p < |s.sh.reg.store| ==> s.sh.reg.store[p].None?)
    && (forall l :: 0 <= l < |s.loops| ==> s.loops[l].Off?)
    && s.sh.retained == []
  }

  ghost predicate Run(tr: seq<Sys>, es: seq<Event>, cfg: Config) {
    && cfg.hz > 0 && |tr| == |es| + 1 && Initial(tr[0])
    && forall i :: 0 <= i < |es| ==> RunStep(tr, es, cfg, i)
  }

  ghost predicate RunStep(tr: seq<Sys>, es: seq<Event>, cfg: Config, i: nat) {
    && i < |es| < |tr| && cfg.hz > 0
    && Shaped(tr[i]) && Enabled(tr[i], es[i]) && tr[i + 1] == Apply(tr[i], es[i], cfg)
  }

  /** In every reachable state of every run references balance and client ids are distinct. */
  lemma {:induction false} RunIsSafe(tr: seq<Sys>, es: seq<Event>, cfg: Config, n: nat)
    requires Run(tr, es, cfg) && n <= |es|
    ensures Safe(tr[n])
  {
    if n == 0 {
      EmptyHoldsNothing(tr[0].sh.reg.slots);
    } else {
      RunIsSafe(tr, es, cfg, n - 1);
      assert RunStep(tr, es, cfg, n - 1);
      StepSafe(tr[n - 1], es[n - 1], cfg);
    }
  }

  /** In every run without a takeover of a running client, ownership and wake-ups hold throughout. */
  lemma {:induction false} PoliteRunIsOwned(tr: seq<Sys>, es: seq<Event>, cfg: Config, n: nat)
    requires Run(tr, es, cfg) && n <= |es|
    requires forall i :: 0 <= i < n ==> Polite(tr[i], es[i])
    ensures Owned(tr[n]) && Woken(tr[n])
  {
    if n > 0 {
      PoliteRunIsOwned(tr, es, cfg, n - 1);
      assert RunStep(tr, es, cfg, n - 1);
      StepOwned(tr[n - 1], es[n - 1], cfg);
    }
  }

  /** No run ever meets `MissingStoredPublish`, and no publish slot leaks. */
  lemma {:induction false} RunNeverLosesAPublish(tr: seq<Sys>, es: seq<Event>, cfg: Config, n: nat)
    requires Run(tr, es, cfg) && n <= |es|
    ensures var r := tr[n].sh.reg;
            && (forall id, now, writes :: 0 <= id < |r.slots| && r.slots[id].Some? && 0 <= now && 0 <= writes ==>
                  RetryAll(r.slots[id].value, r.store, now, cfg.retryTicks, cfg.maxRetries, writes).error
                  != Some(MissingStoredPublish))
            && (forall p :: 0 <= p < |r.store| && r.store[p].Some? ==>
                  r.store[p].value.refcount == Held(r.slots)[HandleAt(r.store, p)] >= 1)
  {
    RunIsSafe(tr, es, cfg, n);
    var r := tr[n].sh.reg;
    forall id, now, writes | 0 <= id < |r.slots| && r.slots[id].Some? && 0 <= now && 0 <= writes
      ensures RetryAll(r.slots[id].value, r.store, now, cfg.retryTicks, cfg.maxRetries, writes).error
              != Some(MissingStoredPublish)
    {
      RetryConserves(r, id, now, cfg.retryTicks, cfg.maxRetries, writes);
    }
  }
}
