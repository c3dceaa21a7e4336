/** When a connection loop gives its session up, and that it then removes it. */
module BrokerEnds {
  import opened Basics
  import opened RateLimit
  import opened Sessions
  import opened PublishStore
  import opened FanOut
  import opened FanOutSpec
  import opened RegistryOps
  import opened Connect
  import opened Publish
  import opened Timers
  import opened Broker
  import opened BrokerSafety
  import opened BrokerRuns
  import opened BrokerDeliveries
  import D = Deliveries

  // -- packet ids in flight -----------------------------------------------------------------------

  ghost predicate IdsValid(es: seq<Inflight>) {
    forall i :: 0 <= i < |es| ==> 1 <= es[i].packetId <= D.PIDS
  }

  ghost predicate AllIdsValid(s: Sys) {
    forall k :: 0 <= k < |s.sh.reg.slots| && s.sh.reg.slots[k].Some? ==> IdsValid(s.sh.reg.slots[k].value.inflight)
  }

  /** In every run every packet id in flight is a valid one. */
  lemma {:induction false} RunIdsValid(tr: seq<Sys>, es: seq<Event>, cfg: Config, n: nat)
    requires Run(tr, es, cfg) && n <= |es|
    ensures AllIdsValid(tr[n])
  {
    forall k | 0 <= k < |tr[n].sh.reg.slots| && tr[n].sh.reg.slots[k].Some?
      ensures IdsValid(tr[n].sh.reg.slots[k].value.inflight)
    {
      var a, ts, steps := RunDeliveriesAreGood(tr, es, cfg, k, n);
      assert Tracks(ts[n - a], tr[a + (n - a)], k);
      GoodIdsValid(ts[n - a], LimitsOf(cfg));
    }
  }

  lemma {:induction false} GoodIdsValid(t: D.Track, lim: D.Limits)
    requires D.Good(t, lim)
    ensures IdsValid(t.inflight)
  {
    forall i | 0 <= i < |t.inflight| ensures 1 <= t.inflight[i].packetId <= D.PIDS {
      assert D.Faithful(t, i, lim);
      D.PidInRange(t.past[i].serial);
    }
  }

  // -- what a check decides -------------------------------------------------------------------------

  /** Some delivery of the session is due and out of retries. */
  ghost predicate GivenUp(s: Session, now: nat, cfg: Config) {
    exists i :: 0 <= i < |s.inflight| && D.Exhausted(s.inflight[i], now, cfg.retryTicks, cfg.maxRetries)
  }

  /**
   A check on a session that is not quarantined, while writes succeed, ends the loop exactly when a
   delivery is out of retries or the keepalive has expired; otherwise the loop waits.
   */
  lemma {:induction false} CheckDecides(sh: Shared, slot: nat, retryAt: nat, writes: nat, now: nat, cfg: Config)
    requires Conserved(sh.reg) && SessionAt(sh, slot).Some? && !sh.reg.slots[slot].value.quarantined
    requires IdsValid(sh.reg.slots[slot].value.inflight) && |sh.reg.slots[slot].value.inflight| <= writes
    ensures var s := sh.reg.slots[slot].value;
            CheckStep(sh, slot, retryAt, writes, now, cfg).1 ==
              if GivenUp(s, retryAt, cfg) || KeepaliveExpired(s, now, cfg.hz) then Closing(false) else Waiting
  {
    var s := sh.reg.slots[slot].value;
    InflightIsLive(sh.reg, slot);
    D.RetryFailsExactly(s.inflight, |s.inflight|, sh.reg.store, retryAt, cfg.retryTicks, cfg.maxRetries, writes);
  }

  /** Whatever the transport does, a delivery out of retries or an expired keepalive ends the loop. */
  lemma {:induction false} CheckGivesUp(sh: Shared, slot: nat, retryAt: nat, writes: nat, now: nat, cfg: Config)
    requires Conserved(sh.reg) && SessionAt(sh, slot).Some?
    requires var s := sh.reg.slots[slot].value; GivenUp(s, retryAt, cfg) || KeepaliveExpired(s, now, cfg.hz)
    ensures CheckStep(sh, slot, retryAt, writes, now, cfg).1 == Closing(false)
  {
    var s := sh.reg.slots[slot].value;
    if !s.quarantined && GivenUp(s, retryAt, cfg) {
      InflightIsLive(sh.reg, slot);
      var i :| 0 <= i < |s.inflight| && D.Exhausted(s.inflight[i], retryAt, cfg.retryTicks, cfg.maxRetries);
      D.ExhaustedEntryFailsPass(s.inflight, i, sh.reg.store, retryAt, cfg.retryTicks, cfg.maxRetries, writes);
    }
  }

  /** At 255 no delivery is ever out of retries, in any state. */
  lemma {:induction false} NeverGivenUpAt255(s: Session, now: nat, cfg: Config)
    requires cfg.maxRetries >= 255
    ensures !GivenUp(s, now, cfg)
  {
  }

  /** The same in every run: what a check decides in a reachable state. */
  lemma {:induction false} CheckDecidesInRuns(tr: seq<Sys>, es: seq<Event>, cfg: Config, n: nat, slot: nat,
      retryAt: nat, writes: nat, now: nat)
    requires Run(tr, es, cfg) && n <= |es| && SessionAt(tr[n].sh, slot).Some?
    requires var s := tr[n].sh.reg.slots[slot].value; !s.quarantined && |s.inflight| <= writes
    ensures var s := tr[n].sh.reg.slots[slot].value;
            CheckStep(tr[n].sh, slot, retryAt, writes, now, cfg).1 ==
              if GivenUp(s, retryAt, cfg) || KeepaliveExpired(s, now, cfg.hz) then Closing(false) else Waiting
  {
    RunIsSafe(tr, es, cfg, n);
    RunIdsValid(tr, es, cfg, n);
    CheckDecides(tr[n].sh, slot, retryAt, writes, now, cfg);
  }

  // -- a silent client ----------------------------------------------------------------------------

  /** The CONNECT is refused, or its will does not fit: it changes no session. */
  predicate Idles(c: ConnectPacket) {
    RefusedEarly(c) || (!c.cleanSession && !WillFits(c))
  }

  /** In this step no loop handles a packet on slot `k`, and the client of its session does not connect anew. */
  predicate Unheard(s: Sys, e: Event, k: nat) {
    match e
    case Connecting(_, c, _) => SessionAt(s.sh, k).Some? && s.sh.reg.slots[k].value.clientId == c.clientId ==> Idles(c)
    case Acting(l, a) => l < |s.loops| && s.loops[l].On? && s.loops[l].slot == k ==> !a.Handle?
    case _ => true
  }

  /** The two sessions count their keepalive from the same moment. */
  predicate SameActivity(a: Option<Session>, b: Option<Session>) {
    a.Some? && b.Some? && a.value.keepalive == b.value.keepalive && a.value.lastActivity == b.value.lastActivity
  }

  lemma {:induction false} DeliverKeepsActivity(r: Registry, signals: seq<bool>, skip: Option<nat>, m: Message, now: nat,
      maxDrops: nat, k: nat)
    requires |signals| == |r.slots| && k < |r.slots| && r.slots[k].Some?
    ensures var g := Deliver(r, signals, skip, m, now, maxDrops);
            |g.reg.slots| == |r.slots| && SameActivity(r.slots[k], g.reg.slots[k])
  {
    FanOutPerSession(r, signals, skip, m, now, maxDrops, k);
  }

  lemma {:induction false} HandleKeepsActivity(sh: Shared, slot: nat, p: Inbound, now: nat, cfg: Config, accepts: bool,
      k: nat)
    requires |sh.signals| == |sh.reg.slots| && cfg.hz > 0 && SessionAt(sh, slot).Some? && SessionAt(sh, k).Some?
    ensures SameActivity(SessionAt(sh, k), SessionAt(HandleStep(sh, slot, p, now, cfg, accepts).0, k))
  {
    if p.InPublish? {
      var s := sh.reg.slots[slot].value;
      var r := PutSession(sh.reg, slot, s.(rate := Consume(s.rate, now, cfg.hz)));
      DeliverKeepsActivity(r, sh.signals, Some(slot), p.m, now, cfg.maxDrops, k);
    }
  }

  lemma {:induction false} QueueWillsKeepsActivity(sh: Shared, w: Lwt, ts: seq<Target>, n: nat, k: nat)
    requires n <= |ts| && SessionAt(sh, k).Some?
    ensures SameActivity(SessionAt(sh, k), SessionAt(QueueWills(sh, w, ts, n), k))
  {
    if n > 0 { QueueWillsKeepsActivity(sh, w, ts, n - 1, k); }
  }

  lemma {:induction false} ActKeepsActivity(sh: Shared, slot: nat, at: Point, a: Action, cfg: Config, k: nat)
    requires |sh.signals| == |sh.reg.slots| && Ready(sh, slot, at, a) && cfg.hz > 0 && SessionAt(sh, k).Some?
    requires slot == k ==> !a.Handle? && !a.Remove?
    ensures SameActivity(SessionAt(sh, k), SessionAt(Act(sh, slot, at, a, cfg).0, k))
  {
    if a.Handle? && SessionAt(sh, slot).Some? {
      HandleKeepsActivity(Touched(sh, slot, a.at), slot, at.packet, a.at, cfg, a.handlerAccepts, k);
    } else if a.QueueWill? {
      QueueWillsKeepsActivity(sh, at.lwt, at.targets, |at.targets|, k);
    }
  }

  /** A session that outlives a step in which nothing is heard of its client keeps its activity. */
  lemma {:induction false} StepKeepsActivity(s: Sys, e: Event, cfg: Config, k: nat)
    requires Safe(s) && Enabled(s, e) && cfg.hz > 0 && SessionAt(s.sh, k).Some? && Unheard(s, e, k)
    requires |Apply(s, e, cfg).tenures| == |s.tenures| && Apply(s, e, cfg).tenures[k] == s.tenures[k]
    ensures SameActivity(SessionAt(s.sh, k), SessionAt(Apply(s, e, cfg).sh, k))
  {
    match e {
      case Connecting(l, c, now) =>
        if s.sh.reg.slots[k].value.clientId == c.clientId {
          IdleConnect(s.sh, s.tenures, c, now, cfg, k);
        } else {
          ConnectSparesOthers(s.sh, s.tenures, c, now, cfg, k);
        }
      case Acting(l, a) => ActKeepsActivity(s.sh, s.loops[l].slot, s.loops[l].at, a, cfg, k);
      case Outbound(m, now) => DeliverKeepsActivity(s.sh.reg, s.sh.signals, None, m, now, cfg.maxDrops, k);
      case TakeWill =>
    }
  }

  /** Step `j`: the loop runs on, its session stays, and nothing is heard of its client. */
  ghost predicate Silent(tr: seq<Sys>, es: seq<Event>, l: nat, k: nat, j: nat) {
    && j < |es| < |tr| && KeepsSession(tr, es, k, j) && Unheard(tr[j], es[j], k)
    && l < |tr[j].loops| && tr[j].loops[l].On? && tr[j].loops[l].slot == k
  }

  /** In a run without takeovers it is enough that the loop runs on and handles no packet. */
  lemma {:induction false} PoliteSilence(tr: seq<Sys>, es: seq<Event>, cfg: Config, l: nat, j: nat)
    requires Run(tr, es, cfg) && j < |es| && (forall i :: 0 <= i <= j ==> Polite(tr[i], es[i]))
    requires l < |tr[j].loops| && l < |tr[j + 1].loops| && tr[j].loops[l].On? && tr[j + 1].loops[l].On?
    requires !(es[j].Acting? && es[j].loop == l && es[j].action.Handle?)
    ensures Silent(tr, es, l, tr[j].loops[l].slot, j) && tr[j + 1].loops[l].slot == tr[j].loops[l].slot
  {
    RunIsSafe(tr, es, cfg, j);
    assert RunStep(tr, es, cfg, j);
    PoliteRunIsOwned(tr, es, cfg, j);
    PoliteRunIsOwned(tr, es, cfg, j + 1);
    TenuresStay(tr[j], es[j], cfg);
    assert Owns(tr[j], tr[j].loops[l]) && Owns(tr[j + 1], tr[j + 1].loops[l]);
    RunningLoopStays(tr[j], es[j], cfg, l);
    if es[j].Acting? { assert Owns(tr[j], tr[j].loops[es[j].loop]); }
  }

  lemma {:induction false} RunningLoopStays(s: Sys, e: Event, cfg: Config, l: nat)
    requires Shaped(s) && Enabled(s, e) && cfg.hz > 0 && l < |s.loops| && s.loops[l].On?
    ensures |Apply(s, e, cfg).loops| == |s.loops|
    ensures var loop := Apply(s, e, cfg).loops[l];
            loop.On? ==> loop == s.loops[l].(at := loop.at)
  {
  }

  lemma {:induction false} SilenceKeepsActivity(tr: seq<Sys>, es: seq<Event>, cfg: Config, l: nat, k: nat, a: nat, n: nat)
    requires Run(tr, es, cfg) && a <= n <= |es| && SessionAt(tr[a].sh, k).Some?
    requires forall j :: a <= j < n ==> Silent(tr, es, l, k, j)
    ensures SameActivity(SessionAt(tr[a].sh, k), SessionAt(tr[n].sh, k))
    decreases n
  {
    if a < n {
      var j := n - 1;
      SilenceKeepsActivity(tr, es, cfg, l, k, a, j);
      RunIsSafe(tr, es, cfg, j);
      assert RunStep(tr, es, cfg, j) && Silent(tr, es, l, k, j);
      StepKeepsActivity(tr[j], es[j], cfg, k);
    }
  }

  /** `c` are checks of loop `l`, in the order of the run. */
  ghost predicate ChecksOf(es: seq<Event>, l: nat, c: seq<nat>) {
    && |c| > 0
    && (forall i :: 0 <= i < |c| ==> c[i] < |es| && es[c[i]].Acting? && es[c[i]].loop == l && es[c[i]].action.Check?)
    && (forall i, j :: 0 <= i < j < |c| ==> c[i] < c[j])
  }

  function CheckTimes(es: seq<Event>, c: seq<nat>): seq<nat>
    requires forall i :: 0 <= i < |c| ==> c[i] < |es| && es[c[i]].Acting? && es[c[i]].action.Check?
  {
    seq(|c|, i requires 0 <= i < |c| => es[c[i]].action.now)
  }

  /** After each check the loop sleeps as that check asked, and checks again at most `late` ticks after the timer. */
  ghost predicate Timed(tr: seq<Sys>, es: seq<Event>, cfg: Config, l: nat, k: nat, c: seq<nat>, waits: seq<nat>, cap: nat,
      late: nat)
  {
    && ChecksOf(es, l, c) && |waits| == |c| && |es| < |tr|
    && (forall i :: 0 <= i < |c| ==>
          && SessionAt(tr[c[i] + 1].sh, k).Some?
          && IsSleep(tr[c[i] + 1].sh.reg.slots[k].value, es[c[i]].action.now, cfg.retryTicks, cap, cfg.hz, waits[i]))
    && (forall i :: 0 <= i < |c| - 1 ==>
          CheckTimes(es, c)[i] <= CheckTimes(es, c)[i + 1] <= CheckTimes(es, c)[i] + waits[i] + late)
  }

  lemma {:induction false} RunChecksAreSilent(tr: seq<Sys>, es: seq<Event>, cfg: Config, l: nat, k: nat, c: seq<nat>,
      waits: seq<nat>, cap: nat, late: nat)
    returns (checks: seq<Session>)
    requires Run(tr, es, cfg) && Timed(tr, es, cfg, l, k, c, waits, cap, late) && SessionAt(tr[c[0]].sh, k).Some?
    requires forall j :: c[0] <= j <= c[|c| - 1] ==> Silent(tr, es, l, k, j)
    ensures SilentChecks(tr[c[0]].sh.reg.slots[k].value, checks, CheckTimes(es, c), waits, cfg.retryTicks, cap, cfg.hz, late)
  {
    checks := seq(|c|, i requires 0 <= i < |c| => tr[c[i] + 1].sh.reg.slots[k].value);
    forall i | 0 <= i < |c| ensures SameActivity(SessionAt(tr[c[0]].sh, k), Some(checks[i])) {
      SilenceKeepsActivity(tr, es, cfg, l, k, c[0], c[i] + 1);
    }
  }

  /** The keepalive deadline of the session of slot `k` in this state. */
  function DeadlineOf(s: Sys, k: nat, hz: nat): nat {
    if SessionAt(s.sh, k).Some? then KeepaliveDeadline(s.sh.reg.slots[k].value, hz) else 0
  }

  /** The check in step `j` finds the session, and its keepalive not expired. */
  ghost predicate InTime(tr: seq<Sys>, es: seq<Event>, cfg: Config, k: nat, j: nat) {
    && j < |es| < |tr| && es[j].Acting? && es[j].action.Check? && SessionAt(tr[j].sh, k).Some?
    && !KeepaliveExpired(tr[j].sh.reg.slots[k].value, es[j].action.now, cfg.hz)
  }

  /** In step `j` the loop starts to close. */
  ghost predicate StartsClosing(tr: seq<Sys>, l: nat, j: nat) {
    && j + 1 < |tr| && l < |tr[j].loops| && l < |tr[j + 1].loops| && tr[j].loops[l].On?
    && tr[j + 1].loops[l] == tr[j].loops[l].(at := Closing(false))
  }

  lemma {:induction false} LateCheckCloses(tr: seq<Sys>, es: seq<Event>, cfg: Config, l: nat, k: nat, j: nat)
    requires Run(tr, es, cfg) && Silent(tr, es, l, k, j) && SessionAt(tr[j].sh, k).Some?
    requires es[j].Acting? && es[j].loop == l && es[j].action.Check?
    requires KeepaliveExpired(tr[j].sh.reg.slots[k].value, es[j].action.now, cfg.hz)
    ensures StartsClosing(tr, l, j)
  {
    RunIsSafe(tr, es, cfg, j);
    assert RunStep(tr, es, cfg, j);
    var a := es[j].action;
    CheckGivesUp(tr[j].sh, k, a.retryAt, a.writes, a.now, cfg);
  }

  /**
   A silent client in a run: while its loop handles no packet, the first check after the keepalive
   deadline, one tick and the timer's lateness past it, starts to close the loop; none before it finds
   the keepalive expired.
   */
  lemma {:induction false} SilentClientIsClosed(tr: seq<Sys>, es: seq<Event>, cfg: Config, l: nat, k: nat, c: seq<nat>,
      waits: seq<nat>, cap: nat, late: nat)
    returns (m: nat)
    requires Run(tr, es, cfg) && Timed(tr, es, cfg, l, k, c, waits, cap, late)
    requires forall j :: c[0] <= j <= c[|c| - 1] ==> Silent(tr, es, l, k, j)
    requires SessionAt(tr[c[0]].sh, k).Some? && tr[c[0]].sh.reg.slots[k].value.keepalive > 0
    requires CheckTimes(es, c)[0] <= DeadlineOf(tr[c[0]], k, cfg.hz) < CheckTimes(es, c)[|c| - 1]
    ensures 0 < m < |c| && StartsClosing(tr, l, c[m])
    ensures DeadlineOf(tr[c[0]], k, cfg.hz) < CheckTimes(es, c)[m] <= DeadlineOf(tr[c[0]], k, cfg.hz) + 1 + late
    ensures forall i :: 0 <= i < m ==> InTime(tr, es, cfg, k, c[i])
  {
    var s := tr[c[0]].sh.reg.slots[k].value;
    var checks := RunChecksAreSilent(tr, es, cfg, l, k, c, waits, cap, late);
    m := SilentSessionExpires(s, checks, CheckTimes(es, c), waits, cfg.retryTicks, cap, cfg.hz, late);
    forall i | 0 <= i < |c| ensures SameActivity(SessionAt(tr[c[0]].sh, k), SessionAt(tr[c[i]].sh, k)) {
      SilenceKeepsActivity(tr, es, cfg, l, k, c[0], c[i]);
    }
    assert Silent(tr, es, l, k, c[m]);
    LateCheckCloses(tr, es, cfg, l, k, c[m]);
  }

  // -- from giving up to removal ---------------------------------------------------------------------

  /** Actions a closing loop has left at most; 4 for a loop that is not closing. */
  function ActionsLeft(loop: Loop): nat {
    if loop.Off? then 0
    else match loop.at
      case Closing(_) => 3
      case Willing(_, _) => 2
      case Removing => 1
      case _ => 4
  }

  predicate Closes(loop: Loop) {
    loop.On? && ActionsLeft(loop) < 4
  }

  /** Only its own actions move a closing loop; each brings it closer to the end, which is the removal of its slot. */
  lemma {:induction false} ClosingStep(s: Sys, e: Event, cfg: Config, l: nat)
    requires Shaped(s) && Enabled(s, e) && cfg.hz > 0 && l < |s.loops| && Closes(s.loops[l])
    ensures var s' := Apply(s, e, cfg);
            && |s'.loops| == |s.loops|
            && if !(e.Acting? && e.loop == l) then s'.loops[l] == s.loops[l]
               else
                 && ActionsLeft(s'.loops[l]) < ActionsLeft(s.loops[l])
                 && (s'.loops[l].On? ==> s'.loops[l].slot == s.loops[l].slot)
                 && (s'.loops[l].Off? <==> e.action == Remove)
                 && (e.action == Remove ==> SessionAt(s'.sh, s.loops[l].slot).None?)
  {
  }

  /** How many of the events from `a` to `n` are actions of loop `l`. */
  function ActionsOf(es: seq<Event>, l: nat, a: nat, n: nat): nat
    requires a <= n <= |es|
    decreases n
  {
    if n == a then 0 else ActionsOf(es, l, a, n - 1) + if es[n - 1].Acting? && es[n - 1].loop == l then 1 else 0
  }

  /** Either the loop still closes, with its actions used up one by one, or it has removed its slot. */
  ghost predicate Winding(tr: seq<Sys>, es: seq<Event>, l: nat, a: nat, n: nat) {
    && a <= n <= |es| < |tr| && l < |tr[n].loops|
    && ( || (Closes(tr[n].loops[l]) && ActionsLeft(tr[n].loops[l]) + ActionsOf(es, l, a, n) <= 3)
         || (exists i :: a <= i < n && RemovedIn(tr, es, l, i)))
  }

  ghost predicate RemovedIn(tr: seq<Sys>, es: seq<Event>, l: nat, i: nat) {
    && i < |es| < |tr| && l < |tr[i].loops| && tr[i].loops[l].On? && es[i] == Acting(l, Remove)
    && SessionAt(tr[i + 1].sh, tr[i].loops[l].slot).None?
  }

  lemma {:induction false} ClosingRun(tr: seq<Sys>, es: seq<Event>, cfg: Config, l: nat, a: nat, n: nat)
    requires Run(tr, es, cfg) && a <= n <= |es| && l < |tr[a].loops| && Closes(tr[a].loops[l])
    ensures Winding(tr, es, l, a, n)
    decreases n
  {
    if a < n {
      var i := n - 1;
      ClosingRun(tr, es, cfg, l, a, i);
      assert RunStep(tr, es, cfg, i);
      if Closes(tr[i].loops[l]) && ActionsLeft(tr[i].loops[l]) + ActionsOf(es, l, a, i) <= 3 {
        ClosingStep(tr[i], es[i], cfg, l);
        if es[i] == Acting(l, Remove) { assert RemovedIn(tr, es, l, i); }
      } else {
        LoopsStay(tr[i], es[i], cfg);
      }
    }
  }

  lemma {:induction false} LoopsStay(s: Sys, e: Event, cfg: Config)
    requires Shaped(s) && Enabled(s, e) && cfg.hz > 0
    ensures |Apply(s, e, cfg).loops| == |s.loops|
  {
  }

  /** Within three actions of its own, a closing loop removes the session of its slot. */
  lemma {:induction false} ClosingLoopRemoves(tr: seq<Sys>, es: seq<Event>, cfg: Config, l: nat, a: nat, n: nat)
    requires Run(tr, es, cfg) && a <= n <= |es| && l < |tr[a].loops| && Closes(tr[a].loops[l])
    requires ActionsOf(es, l, a, n) >= 3
    ensures exists i :: a <= i < n && RemovedIn(tr, es, l, i)
  {
    ClosingRun(tr, es, cfg, l, a, n);
  }

  /**
   In every run: a loop that checks its session when a delivery is out of retries or the keepalive has
   expired starts to close, and within its next three actions it removes the session.
   */
  lemma {:induction false} GivingUpEndsSession(tr: seq<Sys>, es: seq<Event>, cfg: Config, l: nat, a: nat, n: nat)
    requires Run(tr, es, cfg) && a < n <= |es| && es[a].Acting? && es[a].loop == l && es[a].action.Check?
    requires RunStep(tr, es, cfg, a) && SessionAt(tr[a].sh, tr[a].loops[l].slot).Some?
    requires var s := tr[a].sh.reg.slots[tr[a].loops[l].slot].value;
             GivenUp(s, es[a].action.retryAt, cfg) || KeepaliveExpired(s, es[a].action.now, cfg.hz)
    ensures tr[a + 1].loops[l] == tr[a].loops[l].(at := Closing(false))
    ensures ActionsOf(es, l, a + 1, n) >= 3 ==> exists i :: a < i < n && RemovedIn(tr, es, l, i)
  {
    var c := es[a].action;
    RunIsSafe(tr, es, cfg, a);
    CheckGivesUp(tr[a].sh, tr[a].loops[l].slot, c.retryAt, c.writes, c.now, cfg);
    if ActionsOf(es, l, a + 1, n) >= 3 {
      ClosingLoopRemoves(tr, es, cfg, l, a + 1, n);
    }
  }
}
