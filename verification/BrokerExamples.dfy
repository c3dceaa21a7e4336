/** Reachable states of the broker: a client that subscribed to one topic and waits for packets. */
module BrokerExamples {
  import opened Basics
  import opened RateLimit
  import opened Sessions
  import opened PublishStore
  import opened Topics
  import opened FanOut
  import opened FanOutSpec
  import opened Retained
  import opened Subscribe
  import opened RegistryOps
  import opened Connect
  import opened Publish
  import opened Broker
  import opened BrokerRuns

  /** Some run ends in this state. */
  ghost predicate Reachable(s: Sys, cfg: Config) {
    exists tr, es :: BrokerRuns.Run(tr, es, cfg) && tr[|es|] == s
  }

  lemma {:induction false} StartIsReachable(s: Sys, cfg: Config)
    requires Initial(s) && cfg.hz > 0
    ensures Reachable(s, cfg)
  {
    assert BrokerRuns.Run([s], [], cfg);
  }

  lemma {:induction false} ReachStep(s: Sys, e: Event, cfg: Config)
    requires Reachable(s, cfg) && Enabled(s, e) && cfg.hz > 0
    ensures Safe(s) && Reachable(Apply(s, e, cfg), cfg)
  {
    var tr, es :| BrokerRuns.Run(tr, es, cfg) && tr[|es|] == s;
    RunIsSafe(tr, es, cfg, |es|);
    var tr', es' := tr + [Apply(s, e, cfg)], es + [e];
    forall i | 0 <= i < |es'| ensures RunStep(tr', es', cfg, i) {
      if i < |es| { assert RunStep(tr, es, cfg, i); }
    }
    assert BrokerRuns.Run(tr', es', cfg) && tr'[|es'|] == Apply(s, e, cfg);
  }

  // -- one slot, two tasks -----------------------------------------------------------------------

  /** Nobody is connected; the retained store holds `notes`. */
  function Empty(notes: seq<RetainedEntry>): Sys {
    Sys(Shared(Registry([None], [None], 1, []), notes, [false]), [Off, Off], [0])
  }

  /** Client "c" is connected, its loop is at `p`. */
  function Connected(s: Session, notes: seq<RetainedEntry>, p: Point): Sys {
    Sys(Shared(Registry([Some(s)], [None], 1, []), notes, [false]), [On(0, "c", 1, p), Off], [1])
  }

  const HELLO := ConnectPacket(true, "c", true, true, 0, None)

  function Newcomer(cfg: Config): Session {
    NewSession("c", 0, NewBucket(cfg.rateCapacity, cfg.ratePerSec))
  }

  function Subscriber(cfg: Config): Session {
    Newcomer(cfg).(subscriptions := [Subscription("x", AtLeastOnce)])
  }

  /** An action that leaves the shared state alone only moves the loop. */
  lemma {:induction false} LoopMoves(cfg: Config, s: Session, notes: seq<RetainedEntry>, p: Point, a: Action, p': Point)
    requires Reachable(Connected(s, notes, p), cfg) && cfg.hz > 0 && !a.Remove?
    requires var sh := Connected(s, notes, p).sh; Ready(sh, 0, p, a) && Act(sh, 0, p, a, cfg) == (sh, Some(p'))
    ensures Reachable(Connected(s, notes, p'), cfg)
  {
    ReachStep(Connected(s, notes, p), Acting(0, a), cfg);
    assert Connected(s, notes, p).loops[0 := On(0, "c", 1, p')] == Connected(s, notes, p').loops;
  }

  lemma {:induction false} HelloPrepares(r: Registry)
    requires r.slots == [None]
    ensures PrepareConnect(r, HELLO) == (r.(slots := [Some(FreshSession(HELLO))]), Accepted(0, false))
    ensures TenuresAfter([0], r, HELLO) == [1]
  {
    assert FindClient(r.slots, "c") == 1 && FirstEmpty(r.slots) == 0;
    assert RemoveSession(r, 1) == r && Vacated(r.slots, "c") == r.slots;
    assert r.slots[0 := Some(FreshSession(HELLO))] == [Some(FreshSession(HELLO))];
  }

  lemma {:induction false} HelloConnects(cfg: Config, notes: seq<RetainedEntry>)
    requires cfg.hz > 0
    ensures Apply(Empty(notes), Connecting(0, HELLO, 0), cfg) == Connected(Newcomer(cfg), notes, Acking)
  {
    var r := Empty(notes).sh.reg;
    HelloPrepares(r);
    var r' := PrepareConnect(r, HELLO).0;
    assert ResetSignals(r'.slots, [false], Some(0)) == [false];
    assert Activated(r', 0, 0, cfg).slots == [Some(Newcomer(cfg))];
  }

  lemma {:induction false} HelloIsAccepted(cfg: Config, notes: seq<RetainedEntry>)
    requires Reachable(Empty(notes), cfg) && cfg.hz > 0
    ensures Reachable(Connected(Newcomer(cfg), notes, Flushing), cfg)
  {
    ReachStep(Empty(notes), Connecting(0, HELLO, 0), cfg);
    HelloConnects(cfg, notes);
    LoopMoves(cfg, Newcomer(cfg), notes, Acking, AckWritten(true), Flushing);
  }

  /** A session with nothing to send and nothing to retry goes on to wait. */
  lemma {:induction false} IdleTurn(cfg: Config, s: Session, notes: seq<RetainedEntry>)
    requires Reachable(Connected(s, notes, Flushing), cfg) && cfg.hz > 0
    requires s.outbox == [] && s.inflight == [] && s.drops == 0 && !s.quarantined && s.keepalive == 0
    ensures Reachable(Connected(s, notes, Waiting), cfg)
  {
    var sh := Connected(s, notes, Flushing).sh;
    assert sh.reg.slots[0 := Some(s)] == sh.reg.slots;
    LoopMoves(cfg, s, notes, Flushing, Flush, Checking);
    LoopMoves(cfg, s, notes, Checking, Check(0, 0, 0), Waiting);
  }

  lemma {:induction false} LetterIsValid(c: char)
    requires c != '/' && c != '+' && c != '#'
    ensures ValidFilter([c])
  {
    assert Split([c]) == [[c]];
  }

  const WANT_X := InSubscribe([Request("x", AtLeastOnce)])

  lemma {:induction false} SubscribeGrants(cfg: Config)
    requires cfg.maxSubs >= 1
    ensures Granted([], cfg.maxSubs, WANT_X.requests, 1)
      == Progress([Subscription("x", AtLeastOnce)], [Success(AtLeastOnce)], ["x"])
  {
    LetterIsValid('x');
    assert Granted([], cfg.maxSubs, WANT_X.requests, 0) == Progress([], [], []);
  }

  lemma {:induction false} SubscribeStep(cfg: Config, notes: seq<RetainedEntry>)
    requires cfg.hz > 0 && cfg.maxSubs >= 1 && Matching(notes, "x") == []
    ensures Apply(Connected(Newcomer(cfg), notes, Handling(WANT_X)), Acting(0, Action.Handle(0, true)), cfg)
      == Connected(Subscriber(cfg), notes, Replying([]))
  {
    SubscribeGrants(cfg);
    assert Replayed(notes, cfg.maxRetained, ["x"], 0) + Matching(notes, "x") == [];
    assert Replayed(notes, cfg.maxRetained, ["x"], 1) == [];
    var sh := Connected(Newcomer(cfg), notes, Waiting).sh;
    assert Touched(sh, 0, 0) == sh;
    assert [Some(Newcomer(cfg))][0 := Some(Subscriber(cfg))] == [Some(Subscriber(cfg))];
    assert HandleStep(sh, 0, WANT_X, 0, cfg, true) == (Connected(Subscriber(cfg), notes, Waiting).sh, Replying([]));
  }

  lemma {:induction false} SubscribeIsHandled(cfg: Config, notes: seq<RetainedEntry>)
    requires Reachable(Connected(Newcomer(cfg), notes, Handling(WANT_X)), cfg) && cfg.hz > 0 && cfg.maxSubs >= 1
    requires Matching(notes, "x") == []
    ensures Reachable(Connected(Subscriber(cfg), notes, Flushing), cfg)
  {
    var s := Connected(Newcomer(cfg), notes, Handling(WANT_X));
    ReachStep(s, Acting(0, Action.Handle(0, true)), cfg);
    SubscribeStep(cfg, notes);
    LoopMoves(cfg, Subscriber(cfg), notes, Replying([]), ReplyWritten(true), Flushing);
  }

  /** The client connects, subscribes to "x" and waits. */
  lemma {:induction false} ListeningIsReachable(cfg: Config, notes: seq<RetainedEntry>)
    requires Reachable(Empty(notes), cfg) && cfg.hz > 0 && cfg.maxSubs >= 1 && Matching(notes, "x") == []
    ensures Reachable(Connected(Subscriber(cfg), notes, Waiting), cfg)
  {
    HelloIsAccepted(cfg, notes);
    IdleTurn(cfg, Newcomer(cfg), notes);
    LoopMoves(cfg, Newcomer(cfg), notes, Waiting, Arrived(WANT_X), Handling(WANT_X));
    SubscribeIsHandled(cfg, notes);
    IdleTurn(cfg, Subscriber(cfg), notes);
  }

  /** A publish to "x" has that client as its only target. */
  lemma {:induction false} OnlyTarget(cfg: Config, m: Message)
    requires m.topic == "x"
    ensures Subscribers([Some(Subscriber(cfg))], "x", None, 1) == [Target(0, AtLeastOnce)]
  {
    var subs := Subscriber(cfg).subscriptions;
    assert subs[..0] == [];
    assert MatchQos(subs, "x") == Some(AtLeastOnce);
    assert Subscribers([Some(Subscriber(cfg))], "x", None, 0) == [];
  }

  /** The broker before a fan-out to that client. */
  function Before(cfg: Config): Fan {
    Fan(Registry([Some(Subscriber(cfg))], [None], 1, []), [false], None, true)
  }

  /** So its fan-out is one delivery. */
  lemma {:induction false} DeliverToListener(cfg: Config, m: Message, now: nat, notes: seq<RetainedEntry>, p: Point)
    requires m.topic == "x" && !m.retain && cfg.hz > 0
    ensures var g := DeliverOne(Before(cfg), Target(0, AtLeastOnce), m, now, cfg.maxDrops);
            Apply(Connected(Subscriber(cfg), notes, p), Outbound(m, now), cfg)
              == Sys(Shared(g.reg, notes, g.signals), [On(0, "c", 1, p), Off], [1])
  {
    OnlyTarget(cfg, m);
    assert Route(Before(cfg), [Target(0, AtLeastOnce)], 0, m, now, cfg.maxDrops) == Before(cfg);
  }
}
