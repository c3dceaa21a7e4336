/** Inbound and outbound PUBLISH (crates/GatoMQTT/src/handler/publish.rs). */
module Publish {
  import opened Basics
  import opened RateLimit
  import opened Sessions
  import opened PublishStore
  import opened Topics
  import opened FanOut
  import opened FanOutSpec
  import opened Retained

  const COMMAND_FILTER := "sb/+/device/+/set"

  datatype Config = Config(
    hz: nat, rateCapacity: nat, ratePerSec: nat, maxViolations: nat, maxDrops: nat,
    retryTicks: nat, maxRetries: nat, maxSubs: nat, maxRetained: nat)

  /** What the connection loops share: the registry, the retained store and the wake-up signals. */
  datatype Shared = Shared(reg: Registry, retained: seq<RetainedEntry>, signals: seq<bool>)

  datatype PublishResult = Published | SenderNotFound | RateLimitDisconnect | RetainedRefused | FrameTooLarge |
                           IntentTooLarge | HandlerOverloaded

  function AfterRouting(sh: Shared, f: Fan): Shared {
    sh.(reg := f.reg, signals := f.signals)
  }

  /** The retained store is written first; a refusal ends the publish. */
  function Retain(sh: Shared, m: Message, cfg: Config): (Shared, SetResult) {
    if !m.retain then (sh, SetOk)
    else
      var (es, res) := SetEntry(sh.retained, cfg.maxRetained, Write(m.topic, m.payload, m.qos));
      (sh.(retained := es), res)
  }

  /** After the fan-out, a command topic is handed to the control domain, which may refuse it. */
  function Dispatch(m: Message, handlerAccepts: bool): PublishResult {
    if !Matches(COMMAND_FILTER, m.topic) then Published
    else if !Fits(m.topic, m.payload) then IntentTooLarge
    else if !handlerAccepts && m.qos != AtMostOnce then HandlerOverloaded
    else Published
  }

  /** handle_publish_at. */
  function HandlePublish(sh: Shared, sender: nat, m: Message, now: nat, cfg: Config, handlerAccepts: bool): (Shared,
      PublishResult)
    requires cfg.hz > 0
  {
    if sender >= |sh.reg.slots| || sh.reg.slots[sender].None? then (sh, SenderNotFound)
    else
      var s := sh.reg.slots[sender].value;
      var rate := Consume(s.rate, now, cfg.hz);
      var sh1 := sh.(reg := PutSession(sh.reg, sender, s.(rate := rate)));
      if !Admits(s.rate, now, cfg.hz) then
        (sh1, if rate.violations >= cfg.maxViolations || m.qos != AtMostOnce then RateLimitDisconnect else Published)
      else
        var (sh2, res) := Retain(sh1, m, cfg);
        if res != SetOk then (sh2, RetainedRefused)
        else
          var f := Deliver(sh2.reg, sh2.signals, Some(sender), m, now, cfg.maxDrops);
          (AfterRouting(sh2, f), if f.ok then Dispatch(m, handlerAccepts) else FrameTooLarge)
  }

  /** process_outbound_publish: no sender, no rate limit, no command dispatch. */
  function OutboundPublish(sh: Shared, m: Message, now: nat, cfg: Config): Shared {
    var (sh1, res) := Retain(sh, m, cfg);
    if res != SetOk then sh1
    else AfterRouting(sh1, Deliver(sh1.reg, sh1.signals, None, m, now, cfg.maxDrops))
  }

  // -- effect on what the other loops see -----------------------------------------

  /** A slot keeps its occupant, the outbox is only appended to, and anything added comes with a signal. */
  predicate SlotGrew(a: Option<Session>, b: Option<Session>, signalA: bool, signalB: bool) {
    && a.Some? == b.Some?
    && (signalA ==> signalB)
    && (a.Some? ==>
          && a.value.clientId == b.value.clientId
          && a.value.subscriptions == b.value.subscriptions
          && a.value.outbox <= b.value.outbox
          && (a.value.outbox == b.value.outbox || signalB))
  }

  ghost predicate Grew(a: Registry, b: Registry, signalsA: seq<bool>, signalsB: seq<bool>) {
    && |a.slots| == |b.slots| == |signalsA| == |signalsB|
    && forall i :: 0 <= i < |a.slots| ==> SlotGrew(a.slots[i], b.slots[i], signalsA[i], signalsB[i])
  }

  lemma {:induction false} DeliverGrows(r: Registry, signals: seq<bool>, skip: Option<nat>, m: Message, now: nat,
      maxDrops: nat)
    requires |signals| == |r.slots|
    ensures var f := Deliver(r, signals, skip, m, now, maxDrops);
            Grew(r, f.reg, signals, f.signals)
  {
    var f := Deliver(r, signals, skip, m, now, maxDrops);
    var ts := Subscribers(r.slots, m.topic, skip, |r.slots|);
    SubscribersExact(r.slots, m.topic, skip, |r.slots|);
    RouteWhole(r, signals, ts, m, now, maxDrops);
    forall i | 0 <= i < |r.slots| ensures SlotGrew(r.slots[i], f.reg.slots[i], signals[i], f.signals[i]) {
      DeliverGrowsAt(r, signals, skip, m, now, maxDrops, i);
    }
  }

  lemma {:induction false} DeliverGrowsAt(r: Registry, signals: seq<bool>, skip: Option<nat>, m: Message, now: nat,
      maxDrops: nat, i: nat)
    requires |signals| == |r.slots| && i < |r.slots|
    ensures var f := Deliver(r, signals, skip, m, now, maxDrops);
            |f.reg.slots| == |f.signals| == |r.slots| && SlotGrew(r.slots[i], f.reg.slots[i], signals[i], f.signals[i])
  {
    FanOutPerSession(r, signals, skip, m, now, maxDrops, i);
  }

  lemma {:induction false} DeliverConserves(r: Registry, signals: seq<bool>, skip: Option<nat>, m: Message,
      now: nat, maxDrops: nat)
    requires Conserved(r)
    ensures Conserved(Deliver(r, signals, skip, m, now, maxDrops).reg)
  {
    var ts := Subscribers(r.slots, m.topic, skip, |r.slots|);
    RouteConserves(Fan(r, signals, None, true), ts, |ts|, m, now, maxDrops);
  }

  lemma {:induction false} HandlePublishConserves(sh: Shared, sender: nat, m: Message, now: nat, cfg: Config,
      handlerAccepts: bool)
    requires cfg.hz > 0 && Conserved(sh.reg)
    ensures Conserved(HandlePublish(sh, sender, m, now, cfg, handlerAccepts).0.reg)
  {
    if sender < |sh.reg.slots| && sh.reg.slots[sender].Some? {
      var s := sh.reg.slots[sender].value;
      var s' := s.(rate := Consume(s.rate, now, cfg.hz));
      SwapConserved(sh.reg, sender, s');
      DeliverConserves(PutSession(sh.reg, sender, s'), sh.signals, Some(sender), m, now, cfg.maxDrops);
    }
  }

  lemma {:induction false} HandlePublishGrows(sh: Shared, sender: nat, m: Message, now: nat, cfg: Config,
      handlerAccepts: bool)
    requires cfg.hz > 0 && |sh.signals| == |sh.reg.slots|
    ensures var sh' := HandlePublish(sh, sender, m, now, cfg, handlerAccepts).0;
            Grew(sh.reg, sh'.reg, sh.signals, sh'.signals)
  {
    if sender < |sh.reg.slots| && sh.reg.slots[sender].Some? {
      var s := sh.reg.slots[sender].value;
      var r' := PutSession(sh.reg, sender, s.(rate := Consume(s.rate, now, cfg.hz)));
      DeliverGrows(r', sh.signals, Some(sender), m, now, cfg.maxDrops);
    }
  }

  lemma {:induction false} OutboundConserves(sh: Shared, m: Message, now: nat, cfg: Config)
    requires Conserved(sh.reg)
    ensures Conserved(OutboundPublish(sh, m, now, cfg).reg)
  {
    DeliverConserves(sh.reg, sh.signals, None, m, now, cfg.maxDrops);
  }

  lemma {:induction false} OutboundGrows(sh: Shared, m: Message, now: nat, cfg: Config)
    requires |sh.signals| == |sh.reg.slots|
    ensures var sh' := OutboundPublish(sh, m, now, cfg);
            Grew(sh.reg, sh'.reg, sh.signals, sh'.signals)
  {
    DeliverGrows(sh.reg, sh.signals, None, m, now, cfg.maxDrops);
  }
}
