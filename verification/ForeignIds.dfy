/**
 Packet ids the broker issues outside a session's counter: retained messages replayed after a
 SUBSCRIBE are numbered from 1 (crates/GatoMQTT/src/handler/subscribe.rs), wills always carry 1
 (crates/GatoMQTT/src/handler/connection.rs). Their PUBACKs go to the same inflight list.
 */
module ForeignIds {
  import opened Basics
  import opened RateLimit
  import opened Sessions
  import opened PublishStore
  import opened Topics
  import opened FanOut
  import opened FanOutSpec
  import opened Retained
  import opened Subscribe
  import opened RegistryOps
  import opened Publish
  import opened Broker
  import opened BrokerRuns
  import opened BrokerExamples
  import D = Deliveries

  /** No entry in flight carries this id. */
  ghost predicate Unused(es: seq<Inflight>, pid: nat) {
    forall i :: 0 <= i < |es| ==> es[i].packetId != pid
  }

  /** In the broker a PUBACK leaves a session's deliveries alone exactly when no entry in flight carries its id. */
  lemma {:induction false} PubackHarmlessExactly(sh: Shared, slot: nat, pid: nat, now: nat, cfg: Config, accepts: bool)
    requires SessionAt(sh, slot).Some? && cfg.hz > 0
    ensures var sh' := HandleStep(sh, slot, InPuback(pid), now, cfg, accepts).0;
            && SessionAt(sh', slot).Some?
            && (sh'.reg.slots[slot].value.inflight == sh.reg.slots[slot].value.inflight <==>
                  Unused(sh.reg.slots[slot].value.inflight, pid))
  {
    var es := sh.reg.slots[slot].value.inflight;
    var i := EntryIndex(es, pid);
    if i < |es| { assert es[i].packetId == pid; }
  }

  // -- retained messages ----------------------------------------------------------------------

  /** How many of the first `n` replayed messages ask for an acknowledgement. */
  function Acked(es: seq<RetainedEntry>, n: nat): nat
    requires n <= |es|
  {
    if n == 0 then 0 else Acked(es, n - 1) + if es[n - 1].qos == AtMostOnce then 0 else 1
  }

  lemma {:induction false} ReplayIdsCountUp(es: seq<RetainedEntry>, n: nat)
    requires n <= |es|
    ensures ReplayPackets(es, n).lastPid == D.PidAt(Acked(es, n))
    ensures forall i :: 0 <= i < n ==>
      && ReplayPackets(es, n).packets[i].qos == es[i].qos
      && (es[i].qos != AtMostOnce ==>
            Acked(es, i + 1) >= 1 && ReplayPackets(es, n).packets[i].packetId == D.PidAt(Acked(es, i + 1)))
  {
    if n > 0 {
      ReplayIdsCountUp(es, n - 1);
      var r, r' := ReplayPackets(es, n - 1), ReplayPackets(es, n);
      assert r'.packets[..n - 1] == r.packets;
      assert forall i :: 0 <= i < n - 1 ==> r'.packets[i] == r.packets[i];
    }
  }

  lemma {:induction false} AckedGrows(es: seq<RetainedEntry>, i: nat, n: nat)
    requires i <= n <= |es|
    ensures Acked(es, i) <= Acked(es, n)
  {
    if i < n { AckedGrows(es, i, n - 1); }
  }

  /** Which message gets the id `p`. */
  lemma {:induction false} AckedReaches(es: seq<RetainedEntry>, n: nat, p: nat) returns (i: nat)
    requires n <= |es| && 1 <= p <= Acked(es, n)
    ensures i < n && es[i].qos != AtMostOnce && Acked(es, i + 1) == p
  {
    if Acked(es, n - 1) >= p { i := AckedReaches(es, n - 1, p); } else { i := n - 1; }
  }

  /** `p` is the packet id of a replayed message that asks for an acknowledgement. */
  ghost predicate ReplayUses(es: seq<RetainedEntry>, p: nat) {
    exists i :: 0 <= i < |es| && es[i].qos != AtMostOnce && ReplayPackets(es, |es|).packets[i].packetId == p
  }

  /** The ids of a replay are exactly 1 up to the number of messages that ask for an acknowledgement, or all ids. */
  function ReplayIds(es: seq<RetainedEntry>): nat {
    Min(Acked(es, |es|), D.PIDS)
  }

  lemma {:induction false} ReplayIdsAre(es: seq<RetainedEntry>, p: nat)
    ensures ReplayUses(es, p) <==> 1 <= p <= ReplayIds(es)
  {
    if ReplayUses(es, p) {
      var i :| 0 <= i < |es| && es[i].qos != AtMostOnce && ReplayPackets(es, |es|).packets[i].packetId == p;
      ReplayIdOf(es, i);
    }
    if 1 <= p <= ReplayIds(es) {
      var i := AckedReaches(es, |es|, p);
      ReplayIdOf(es, i);
      D.FirstRound(p);
    }
  }

  lemma {:induction false} ReplayIdOf(es: seq<RetainedEntry>, i: nat)
    requires i < |es| && es[i].qos != AtMostOnce
    ensures ReplayPackets(es, |es|).packets[i].packetId == D.PidAt(Acked(es, i + 1))
    ensures 1 <= D.PidAt(Acked(es, i + 1)) <= ReplayIds(es)
  {
    ReplayIdsCountUp(es, |es|);
    AckedGrows(es, i + 1, |es|);
    D.PidInRange(Acked(es, i + 1));
    if Acked(es, i + 1) <= D.PIDS { D.FirstRound(Acked(es, i + 1)); }
  }

  /** The ids a client acknowledges when it receives these packets. */
  function AckIds(ps: seq<Packet>, n: nat): seq<nat>
    requires n <= |ps|
  {
    if n == 0 then []
    else AckIds(ps, n - 1) + if ps[n - 1].qos == AtMostOnce then [] else [ps[n - 1].packetId]
  }

  lemma {:induction false} AckIdsAre(ps: seq<Packet>, n: nat, p: nat)
    requires n <= |ps|
    ensures p in AckIds(ps, n) <==> exists i :: 0 <= i < n && ps[i].qos != AtMostOnce && ps[i].packetId == p
  {
    if n > 0 { AckIdsAre(ps, n - 1, p); }
  }

  lemma {:induction false} ReplayAcksAre(es: seq<RetainedEntry>, p: nat)
    ensures var ps := ReplayPackets(es, |es|).packets; p in AckIds(ps, |ps|) <==> 1 <= p <= ReplayIds(es)
  {
    var ps := ReplayPackets(es, |es|).packets;
    ReplayIdsCountUp(es, |es|);
    AckIdsAre(ps, |ps|, p);
    ReplayIdsAre(es, p);
  }

  /** The registry after the first `n` of these PUBACKs of slot `id`. */
  function AcknowledgeAll(r: Registry, id: nat, pids: seq<nat>, n: nat): (r': Registry)
    requires n <= |pids| && id < |r.slots| && r.slots[id].Some?
    ensures id < |r'.slots| && r'.slots[id].Some?
  {
    if n == 0 then r else Acknowledge(AcknowledgeAll(r, id, pids, n - 1), id, pids[n - 1])
  }

  /** PUBACKs leave the deliveries alone exactly when no entry carries one of their ids; otherwise one is lost. */
  lemma {:induction false} AcksHarmlessExactly(r: Registry, id: nat, pids: seq<nat>, n: nat)
    requires n <= |pids| && id < |r.slots| && r.slots[id].Some?
    ensures var es, es' := r.slots[id].value.inflight, AcknowledgeAll(r, id, pids, n).slots[id].value.inflight;
            && (es' == es || |es'| < |es|)
            && (es' == es <==> forall i :: 0 <= i < n ==> Unused(es, pids[i]))
  {
    if n > 0 {
      AcksHarmlessExactly(r, id, pids, n - 1);
      OneAck(AcknowledgeAll(r, id, pids, n - 1), id, pids[n - 1]);
    }
  }

  lemma {:induction false} OneAck(r: Registry, id: nat, pid: nat)
    requires id < |r.slots| && r.slots[id].Some?
    ensures var es := r.slots[id].value.inflight;
            var o := Acknowledge(r, id, pid).slots;
            && id < |o| && o[id].Some?
            && if Unused(es, pid) then o[id].value.inflight == es else |o[id].value.inflight| == |es| - 1
  {
    var es := r.slots[id].value.inflight;
    var i := EntryIndex(es, pid);
    if i < |es| { assert es[i].packetId == pid; }
  }

  /** Acknowledging every packet of the replay, one after the other, leaves the session's deliveries alone. */
  predicate ReplaySafe(r: Registry, id: nat, es: seq<RetainedEntry>)
    requires id < |r.slots| && r.slots[id].Some?
  {
    var ps := ReplayPackets(es, |es|).packets;
    var pids := AckIds(ps, |ps|);
    AcknowledgeAll(r, id, pids, |pids|).slots[id].value.inflight == r.slots[id].value.inflight
  }

  /** A replay can be acknowledged without harm exactly when no delivery in flight has an id it reuses. */
  lemma {:induction false} ReplaySafeExactly(r: Registry, id: nat, es: seq<RetainedEntry>)
    requires id < |r.slots| && r.slots[id].Some?
    ensures ReplaySafe(r, id, es) <==>
      forall i :: 0 <= i < |r.slots[id].value.inflight| ==>
        !(1 <= r.slots[id].value.inflight[i].packetId <= ReplayIds(es))
  {
    var inflight, ps := r.slots[id].value.inflight, ReplayPackets(es, |es|).packets;
    var pids := AckIds(ps, |ps|);
    AcksHarmlessExactly(r, id, pids, |pids|);
    forall i | 0 <= i < |inflight|
      ensures inflight[i].packetId in pids <==> 1 <= inflight[i].packetId <= ReplayIds(es)
    {
      ReplayAcksAre(es, inflight[i].packetId);
    }
  }

  /** The broker writes that replay: its packets are those of the granted filters' retained messages. */
  lemma {:induction false} SubscribeReplays(sh: Shared, slot: nat, ts: seq<Request>, now: nat, cfg: Config, accepts: bool)
    requires SessionAt(sh, slot).Some? && cfg.hz > 0
    ensures var s := sh.reg.slots[slot].value;
            var p := Granted(s.subscriptions, cfg.maxSubs, ts, |ts|);
            var es := Cut(AllMatching(sh.retained, p.added, |p.added|), cfg.maxRetained);
            var (sh', at) := HandleStep(sh, slot, InSubscribe(ts), now, cfg, accepts);
            && at == Replying(ReplayPackets(es, |es|).packets)
            && SessionAt(sh', slot).Some? && sh'.reg.slots[slot].value.inflight == s.inflight
  {
    var p := Granted(sh.reg.slots[slot].value.subscriptions, cfg.maxSubs, ts, |ts|);
    ReplayIsCut(sh.retained, cfg.maxRetained, p.added, |p.added|);
  }

  // -- wills ------------------------------------------------------------------------------------

  /** A will that is queued with an acknowledgement carries id 1, whatever the receiver has in flight. */
  lemma {:induction false} WillIdIsOne(sh: Shared, w: Lwt, t: Target)
    requires QueueOne(sh, w, t) != sh && t.qos != AtMostOnce
    ensures SessionAt(sh, t.id).Some? && SessionAt(QueueOne(sh, w, t), t.id).Some?
    ensures QueueOne(sh, w, t).reg.slots[t.id].value.outbox
      == sh.reg.slots[t.id].value.outbox + [Packet(t.qos, 1, w.retain, w.topic, w.payload)]
  {
  }

  // -- an input that loses a delivery --------------------------------------------------------------

  const NOTE := RetainedEntry("a", [7], AtLeastOnce)
  const NOTED := Message("a", [7], AtLeastOnce, true)
  const NEWS := Message("x", [], AtLeastOnce, false)
  const WANT_A := InSubscribe([Request("a", AtLeastOnce)])

  /**
   The session's first delivery is in flight, the retained store holds one QoS 1 message, and the
   session's loop is about to handle a SUBSCRIBE for it.
   */
  function FirstInFlight(cfg: Config): Sys {
    var s := Subscriber(cfg).(inflight := [Inflight(1, Handle.Handle(0, 1), 0, 0)], lastPid := 1,
                              outbox := [Packet(AtLeastOnce, 1, false, "x", [])]);
    Sys(Shared(Registry([Some(s)], [Some(Stored("x", [], false, 1, 1))], 2, []), [NOTE], [true]),
        [On(0, "c", 1, Handling(WANT_A)), Off], [1])
  }

  lemma {:induction false} LettersDiffer()
    ensures !Matches("x", "a") && Matching([NOTE], "x") == [] && Matching([NOTE], "a") == [NOTE]
  {
    PlainFilterMatchesOnlyItself("x", "a");
    assert [NOTE][..0] == [];
  }

  lemma {:induction false} NoteFits(cap: nat)
    requires cap >= 1
    ensures SetEntry([], cap, Write("a", [7], AtLeastOnce)) == ([NOTE], SetOk)
  {
    assert IndexOf([], "a") == 0 && [] + [NOTE] == [NOTE];
  }

  /** The message is retained before anybody connects. */
  lemma {:induction false} NoteIsRetained(cfg: Config)
    requires cfg.hz > 0 && cfg.maxRetained >= 1
    ensures Reachable(Empty([NOTE]), cfg)
  {
    StartIsReachable(Empty([]), cfg);
    ReachStep(Empty([]), Outbound(NOTED, 0), cfg);
    var r := Empty([]).sh.reg;
    assert Subscribers(r.slots, "a", None, 0) == [] && Subscribers(r.slots, "a", None, 1) == [];
    NoteFits(cfg.maxRetained);
    assert Apply(Empty([]), Outbound(NOTED, 0), cfg) == Empty([NOTE]);
  }

  /** A client connects, subscribes to "x", then to "a"; before that is handled a publish to "x" comes. */
  lemma {:induction false} FirstInFlightIsReachable(cfg: Config)
    requires cfg.hz > 0 && cfg.maxSubs >= 2 && cfg.maxRetained >= 1
    ensures Reachable(FirstInFlight(cfg), cfg)
  {
    NoteIsRetained(cfg);
    LettersDiffer();
    ListeningIsReachable(cfg, [NOTE]);
    LoopMoves(cfg, Subscriber(cfg), [NOTE], Waiting, Arrived(WANT_A), Handling(WANT_A));
    ReachStep(Connected(Subscriber(cfg), [NOTE], Handling(WANT_A)), Outbound(NEWS, 0), cfg);
    DeliverToListener(cfg, NEWS, 0, [NOTE], Handling(WANT_A));
    NewsIsTracked(cfg);
  }

  lemma {:induction false} NewsIsTracked(cfg: Config)
    ensures var sh := FirstInFlight(cfg).sh;
            DeliverOne(Before(cfg), Target(0, AtLeastOnce), NEWS, 0, cfg.maxDrops)
              == Fan(sh.reg, sh.signals, Some(Handle.Handle(0, 1)), true)
  {
    var s := FirstInFlight(cfg).sh.reg.slots[0].value;
    assert Encodes("x", [], AtLeastOnce) && [] + s.inflight == s.inflight;
    assert Enqueue(Subscriber(cfg), NEWS, AtLeastOnce, cfg.maxDrops) == s.(inflight := []);
    var g := Before(cfg).(reg := PutSession(Before(cfg).reg, 0, s.(inflight := [])), signals := [true]);
    NewsIsStored(g);
    assert WithDelivery(s.(inflight := []), 1, Handle.Handle(0, 1), 0) == s;
    assert Share(g, NEWS).0.reg.slots[0 := Some(s)] == [Some(s)];
  }

  lemma {:induction false} NewsIsStored(f: Fan)
    requires f.shared.None? && f.reg.store == [None] && f.reg.nextGeneration == 1
    ensures Share(f, NEWS) == (f.(reg := f.reg.(store := [Some(Stored("x", [], false, 1, 1))], nextGeneration := 2),
                                 shared := Some(Handle.Handle(0, 1))), Some(Handle.Handle(0, 1)))
  {
    assert FirstEmpty(f.reg.store) == 0;
    assert StoreRef(f.reg, NEWS).0.store == [Some(Stored("x", [], false, 1, 1))];
  }

  lemma {:induction false} WantAGrants(cfg: Config)
    requires cfg.maxSubs >= 2
    ensures Granted(Subscriber(cfg).subscriptions, cfg.maxSubs, WANT_A.requests, 1).added == ["a"]
  {
    LetterIsValid('a');
    var subs := Subscriber(cfg).subscriptions;
    assert Granted(subs, cfg.maxSubs, WANT_A.requests, 0) == Progress(subs, [], []);
    assert FilterIndex(subs, "a") == 1;
  }

  lemma {:induction false} NoteIsReplayed(cap: nat)
    requires cap >= 1
    ensures Replayed([NOTE], cap, ["a"], 1) == [NOTE]
    ensures ReplayPackets([NOTE], 1).packets == [Packet(AtLeastOnce, 1, true, "a", [7])]
  {
    LettersDiffer();
    assert Replayed([NOTE], cap, ["a"], 0) + Matching([NOTE], "a") == [NOTE];
    assert ReplayPackets([NOTE], 0) == Replay([], 0);
  }

  /**
   A reachable state in which the replayed message carries id 1 too, and its PUBACK removes the
   session's own delivery 1, which nobody acknowledged.
   */
  lemma {:induction false} ReplayAckDropsDelivery(cfg: Config)
    requires cfg.hz > 0 && cfg.maxSubs >= 2 && cfg.maxRetained >= 1
    ensures var sh := FirstInFlight(cfg).sh;
            var (sh1, at1) := HandleStep(sh, 0, WANT_A, 0, cfg, true);
            && Reachable(FirstInFlight(cfg), cfg)
            && at1 == Replying([Packet(AtLeastOnce, 1, true, "a", [7])])
            && SessionAt(sh1, 0).Some? && sh1.reg.slots[0].value.inflight == sh.reg.slots[0].value.inflight
            && |sh1.reg.slots[0].value.inflight| == 1
            && SessionAt(HandleStep(sh1, 0, InPuback(1), 0, cfg, true).0, 0).Some?
            && HandleStep(sh1, 0, InPuback(1), 0, cfg, true).0.reg.slots[0].value.inflight == []
  {
    FirstInFlightIsReachable(cfg);
    WantAGrants(cfg);
    NoteIsReplayed(cfg.maxRetained);
    assert EntryIndex(FirstInFlight(cfg).sh.reg.slots[0].value.inflight, 1) == 0;
  }
}
