/** In every run the subscription lists and the retained store are bounded maps. */
module BrokerTables {
  import opened Basics
  import opened Sessions
  import opened PublishStore
  import opened FanOut
  import opened BoundedMap
  import opened Retained
  import opened Subscribe
  import opened RegistryOps
  import opened Connect
  import opened Publish
  import opened Broker
  import opened BrokerSafety
  import R = BrokerRuns

  /** The entries are a map from short topics to non-empty bounded payloads, within the capacity. */
  ghost predicate RetainedOk(es: seq<RetainedEntry>, cap: nat) {
    exists m :: Represents(es, m) && Bounded(m, cap)
  }

  ghost predicate ListsOk(slots: Slots, cap: nat) {
    forall k :: 0 <= k < |slots| && slots[k].Some? ==> ListOk(slots[k].value.subscriptions, cap)
  }

  ghost predicate TablesOk(s: Sys, cfg: Config) {
    ListsOk(s.sh.reg.slots, cfg.maxSubs) && RetainedOk(s.sh.retained, cfg.maxRetained)
  }

  lemma {:induction false} EmptyTables(cap: nat)
    ensures ListOk([], cap) && RetainedOk([], cap)
  {
    var grants: Grants := map[];
    assert FilterPairs([]) == [] && AsMap<string, QoS>([]) == grants;
    assert IsGrantList([], grants) && WellGranted(grants, cap);
    var view: View := map[];
    assert Pairs([]) == [] && AsMap<string, Kept>([]) == view;
    assert Represents([], view) && Bounded(view, cap);
  }

  lemma {:induction false} SetKeepsRetained(es: seq<RetainedEntry>, cap: nat, w: Write)
    requires RetainedOk(es, cap)
    ensures RetainedOk(SetEntry(es, cap, w).0, cap)
  {
    var m :| Represents(es, m) && Bounded(m, cap);
    SetRefines(es, m, cap, w);
    SetSpecBounded(m, cap, w);
  }

  lemma {:induction false} PacketKeepsList(subs: seq<Subscription>, cap: nat, ts: seq<Request>, fs: seq<string>)
    requires ListOk(subs, cap)
    ensures ListOk(Granted(subs, cap, ts, |ts|).subs, cap) && ListOk(Dropped(subs, fs, |fs|), cap)
  {
    var m :| IsGrantList(subs, m) && WellGranted(m, cap);
    PacketsRefine(subs, m, cap, ts, fs);
  }

  // -- retained store -------------------------------------------------------------------------------

  lemma {:induction false} ActRetained(sh: Shared, slot: nat, at: Point, a: Action, cfg: Config)
    requires Ready(sh, slot, at, a) && cfg.hz > 0 && RetainedOk(sh.retained, cfg.maxRetained)
    ensures RetainedOk(Act(sh, slot, at, a, cfg).0.retained, cfg.maxRetained)
  {
    if a.Handle? && at.packet.InPublish? {
      var m := at.packet.m;
      SetKeepsRetained(sh.retained, cfg.maxRetained, Write(m.topic, m.payload, m.qos));
    } else if a.CloseWill? && SessionAt(sh, slot).Some? && sh.reg.slots[slot].value.lwt.Some? {
      var w := sh.reg.slots[slot].value.lwt.value;
      SetKeepsRetained(sh.retained, cfg.maxRetained, Write(w.topic, w.payload, w.qos));
    } else if a.QueueWill? {
      WillsKeepRetained(sh, at.lwt, at.targets, |at.targets|);
    }
  }

  lemma {:induction false} WillsKeepRetained(sh: Shared, w: Lwt, ts: seq<Target>, n: nat)
    requires n <= |ts|
    ensures QueueWills(sh, w, ts, n).retained == sh.retained
  {
    if n > 0 { WillsKeepRetained(sh, w, ts, n - 1); }
  }

  // -- subscription lists ------------------------------------------------------------------------------

  /** A loop's action changes no list but its own. */
  lemma {:induction false} OwnList(sh: Shared, slot: nat, at: Point, a: Action, cfg: Config)
    requires |sh.signals| == |sh.reg.slots| && Ready(sh, slot, at, a) && cfg.hz > 0
    requires SessionAt(sh, slot).Some? && !a.Remove? && ListOk(sh.reg.slots[slot].value.subscriptions, cfg.maxSubs)
    ensures var sh' := Act(sh, slot, at, a, cfg).0;
            SessionAt(sh', slot).Some? && ListOk(sh'.reg.slots[slot].value.subscriptions, cfg.maxSubs)
  {
    var sh' := Act(sh, slot, at, a, cfg).0;
    if a.Handle? {
      var mid := Touched(sh, slot, a.at);
      match at.packet
      case InPublish(m) =>
        HandlePublishGrows(mid, slot, m, a.at, cfg, a.handlerAccepts);
        assert SlotGrew(mid.reg.slots[slot], sh'.reg.slots[slot], mid.signals[slot], sh'.signals[slot]);
      case InSubscribe(ts) => PacketKeepsList(sh.reg.slots[slot].value.subscriptions, cfg.maxSubs, ts, []);
      case InUnsubscribe(fs) => PacketKeepsList(sh.reg.slots[slot].value.subscriptions, cfg.maxSubs, [], fs);
      case _ =>
    } else if a.QueueWill? {
      QueueWillsGrows(sh, at.lwt, at.targets, |at.targets|);
      assert SlotGrew(sh.reg.slots[slot], sh'.reg.slots[slot], sh.signals[slot], sh'.signals[slot]);
    }
  }

  lemma {:induction false} ActLists(sh: Shared, slot: nat, at: Point, a: Action, cfg: Config)
    requires |sh.signals| == |sh.reg.slots| && Ready(sh, slot, at, a) && cfg.hz > 0 && ListsOk(sh.reg.slots, cfg.maxSubs)
    ensures ListsOk(Act(sh, slot, at, a, cfg).0.reg.slots, cfg.maxSubs)
  {
    var sh' := Act(sh, slot, at, a, cfg).0;
    ActEffect(sh, slot, at, a, cfg);
    forall k | 0 <= k < |sh'.reg.slots| && sh'.reg.slots[k].Some?
      ensures ListOk(sh'.reg.slots[k].value.subscriptions, cfg.maxSubs)
    {
      if k != slot {
        assert SlotGrew(sh.reg.slots[k], sh'.reg.slots[k], sh.signals[k], sh'.signals[k]);
      } else if !a.Remove? {
        assert Stays(sh.reg.slots[k], sh'.reg.slots[k]);
        OwnList(sh, slot, at, a, cfg);
      }
    }
  }

  lemma {:induction false} ConnectLists(sh: Shared, c: ConnectPacket, now: nat, cfg: Config)
    requires |sh.signals| == |sh.reg.slots| && ListsOk(sh.reg.slots, cfg.maxSubs)
    ensures ListsOk(ConnectStep(sh, c, now, cfg).0.reg.slots, cfg.maxSubs)
  {
    ConnectHasShape(sh.reg, c);
    EmptyTables(cfg.maxSubs);
    ShapeKeepsLists(sh.reg.slots, c, PrepareConnect(sh.reg, c).0.slots, cfg.maxSubs);
  }

  lemma {:induction false} ShapeKeepsLists(slots: Slots, c: ConnectPacket, slots': Slots, cap: nat)
    requires ListsOk(slots, cap) && ConnectShape(slots, c, slots') && ListOk([], cap)
    ensures ListsOk(slots', cap)
  {
    assert ListsOk(Vacated(slots, c.clientId), cap);
  }

  lemma {:induction false} StepTables(s: Sys, e: Event, cfg: Config)
    requires Shaped(s) && Enabled(s, e) && cfg.hz > 0 && TablesOk(s, cfg)
    ensures TablesOk(Apply(s, e, cfg), cfg)
  {
    match e {
      case Connecting(l, c, now) => ConnectLists(s.sh, c, now, cfg);
      case Acting(l, a) =>
        ActLists(s.sh, s.loops[l].slot, s.loops[l].at, a, cfg);
        ActRetained(s.sh, s.loops[l].slot, s.loops[l].at, a, cfg);
      case Outbound(m, now) =>
        SetKeepsRetained(s.sh.retained, cfg.maxRetained, Write(m.topic, m.payload, m.qos));
        OutboundGrows(s.sh, m, now, cfg);
        var sh' := OutboundPublish(s.sh, m, now, cfg);
        forall k | 0 <= k < |sh'.reg.slots| && sh'.reg.slots[k].Some?
          ensures ListOk(sh'.reg.slots[k].value.subscriptions, cfg.maxSubs)
        {
          assert SlotGrew(s.sh.reg.slots[k], sh'.reg.slots[k], s.sh.signals[k], sh'.signals[k]);
        }
      case TakeWill =>
    }
  }

  /** In every reachable state of every run each subscription list and the retained store are such maps. */
  lemma {:induction false} RunTables(tr: seq<Sys>, es: seq<Event>, cfg: Config, n: nat)
    requires R.Run(tr, es, cfg) && n <= |es|
    ensures TablesOk(tr[n], cfg)
  {
    if n == 0 {
      EmptyTables(cfg.maxRetained);
    } else {
      RunTables(tr, es, cfg, n - 1);
      assert R.RunStep(tr, es, cfg, n - 1);
      StepTables(tr[n - 1], es[n - 1], cfg);
    }
  }
}
