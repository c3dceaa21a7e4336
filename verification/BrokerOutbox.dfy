/** A session's outbox is a queue: packets leave it in order, one by one, and only to be written. */
module BrokerOutbox {
  import opened Basics
  import opened Sessions
  import opened FanOut
  import opened RegistryOps
  import opened Connect
  import opened Publish
  import opened Broker
  import opened BrokerSafety
  import opened BrokerRuns
  import opened BrokerDeliveries

  /** In this step a loop on slot `k` takes the first packet out to write it. */
  predicate Pops(s: Sys, e: Event, k: nat) {
    && e.Acting? && e.action.Flush? && e.loop < |s.loops| && s.loops[e.loop].On? && s.loops[e.loop].slot == k
    && SessionAt(s.sh, k).Some? && s.sh.reg.slots[k].value.outbox != []
  }

  /** What a step of the broker does to the outbox of a session that outlives it. */
  ghost predicate OutboxMoves(s: Sys, e: Event, s': Sys, k: nat) {
    && SessionAt(s.sh, k).Some? && SessionAt(s'.sh, k).Some?
    && var a, b := s.sh.reg.slots[k].value.outbox, s'.sh.reg.slots[k].value.outbox;
       if Pops(s, e, k) then b == a[1..] && e.loop < |s'.loops| && s'.loops[e.loop] == s.loops[e.loop].(at := Writing)
       else a <= b
  }

  lemma {:induction false} ActOutbox(s: Sys, l: nat, a: Action, cfg: Config, k: nat)
    requires Shaped(s) && Enabled(s, Acting(l, a)) && cfg.hz > 0
    requires SessionAt(s.sh, k).Some? && !(a.Remove? && s.loops[l].slot == k)
    ensures OutboxMoves(s, Acting(l, a), Apply(s, Acting(l, a), cfg), k)
  {
    var slot, at := s.loops[l].slot, s.loops[l].at;
    var sh' := Act(s.sh, slot, at, a, cfg).0;
    if slot != k {
      ActEffect(s.sh, slot, at, a, cfg);
      assert SlotGrew(s.sh.reg.slots[k], sh'.reg.slots[k], s.sh.signals[k], sh'.signals[k]);
    } else if !a.Flush? {
      OwnOutboxGrows(s.sh, slot, at, a, cfg);
    }
  }

  lemma {:induction false} StepOutbox(s: Sys, e: Event, cfg: Config, k: nat)
    requires Shaped(s) && Enabled(s, e) && cfg.hz > 0 && SessionAt(s.sh, k).Some?
    requires |Apply(s, e, cfg).tenures| == |s.tenures| && Apply(s, e, cfg).tenures[k] == s.tenures[k]
    ensures OutboxMoves(s, e, Apply(s, e, cfg), k)
  {
    match e {
      case Connecting(l, c, now) => ConnectKeepsDeliveries(s, e, cfg, k);
      case Acting(l, a) => ActOutbox(s, l, a, cfg, k);
      case Outbound(m, now) =>
        OutboundGrows(s.sh, m, now, cfg);
        var sh' := OutboundPublish(s.sh, m, now, cfg);
        assert SlotGrew(s.sh.reg.slots[k], sh'.reg.slots[k], s.sh.signals[k], sh'.signals[k]);
      case TakeWill =>
    }
  }

  // -- over runs ------------------------------------------------------------------------------------

  /** From state `a` to state `n` slot `k` holds one and the same session. */
  ghost predicate OneSession(tr: seq<Sys>, es: seq<Event>, k: nat, a: nat, n: nat) {
    && a <= n <= |es| < |tr| && SessionAt(tr[a].sh, k).Some?
    && forall i :: a <= i < n ==> SameTenure(tr, k, i)
  }

  ghost predicate SameTenure(tr: seq<Sys>, k: nat, i: nat) {
    && i + 1 < |tr| && |tr[i + 1].tenures| == |tr[i].tenures|
    && k < |tr[i].tenures| && tr[i + 1].tenures[k] == tr[i].tenures[k]
  }

  function OutboxAt(s: Sys, k: nat): seq<Packet> {
    if SessionAt(s.sh, k).Some? then s.sh.reg.slots[k].value.outbox else []
  }

  /** The packets taken out to be written, in order. */
  ghost function Taken(tr: seq<Sys>, es: seq<Event>, k: nat, a: nat, n: nat): seq<Packet>
    requires a <= n <= |es| < |tr|
    decreases n
  {
    if n == a then []
    else
      var out := OutboxAt(tr[n - 1], k);
      Taken(tr, es, k, a, n - 1) + if Pops(tr[n - 1], es[n - 1], k) && out != [] then out[..1] else []
  }

  /** The packets put in, in order. */
  ghost function Added(tr: seq<Sys>, es: seq<Event>, k: nat, a: nat, n: nat): seq<Packet>
    requires a <= n <= |es| < |tr|
    decreases n
  {
    if n == a then []
    else
      var out, out' := OutboxAt(tr[n - 1], k), OutboxAt(tr[n], k);
      Added(tr, es, k, a, n - 1) + if !Pops(tr[n - 1], es[n - 1], k) && |out| <= |out'| then out'[|out|..] else []
  }

  /** Nothing queued is lost, reordered or written twice: what was there and what was added is what was taken and what is left. */
  lemma {:induction false} OutboxIsAQueue(tr: seq<Sys>, es: seq<Event>, cfg: Config, k: nat, a: nat, n: nat)
    requires Run(tr, es, cfg) && OneSession(tr, es, k, a, n)
    ensures SessionAt(tr[n].sh, k).Some?
    ensures OutboxAt(tr[a], k) + Added(tr, es, k, a, n) == Taken(tr, es, k, a, n) + OutboxAt(tr[n], k)
    decreases n
  {
    if a < n {
      var i := n - 1;
      OutboxIsAQueue(tr, es, cfg, k, a, i);
      assert RunStep(tr, es, cfg, i) && SameTenure(tr, k, i);
      StepOutbox(tr[i], es[i], cfg, k);
      QueueStep(OutboxAt(tr[a], k), Added(tr, es, k, a, i), Taken(tr, es, k, a, i), OutboxAt(tr[i], k), OutboxAt(tr[n], k),
                Pops(tr[i], es[i], k));
    }
  }

  lemma {:induction false} QueueStep(start: seq<Packet>, added: seq<Packet>, taken: seq<Packet>, out: seq<Packet>,
      out': seq<Packet>, pops: bool)
    requires start + added == taken + out
    requires if pops then out != [] && out' == out[1..] else out <= out'
    ensures start + (added + if !pops then out'[|out|..] else []) == (taken + if pops then out[..1] else []) + out'
  {
    if pops {
      assert out == out[..1] + out';
      assert start + added == taken + out[..1] + out';
    } else {
      assert out' == out + out'[|out|..];
      assert start + (added + out'[|out|..]) == (start + added) + out'[|out|..];
    }
  }

  /** In a polite run the one that takes a packet out is the session's own loop, and no other loop runs on its slot. */
  lemma {:induction false} OwnLoopWrites(tr: seq<Sys>, es: seq<Event>, cfg: Config, k: nat, i: nat)
    requires Run(tr, es, cfg) && i < |es| && (forall j :: 0 <= j < i ==> Polite(tr[j], es[j]))
    requires Pops(tr[i], es[i], k)
    ensures Owns(tr[i], tr[i].loops[es[i].loop])
    ensures forall l :: 0 <= l < |tr[i].loops| && tr[i].loops[l].On? && tr[i].loops[l].slot == k ==> l == es[i].loop
  {
    PoliteRunIsOwned(tr, es, cfg, i);
  }
}
