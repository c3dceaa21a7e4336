/** SUBSCRIBE and UNSUBSCRIBE (crates/GatoMQTT/src/handler/subscribe.rs). */
module Subscribe {
  import opened Basics
  import opened Sessions
  import opened Topics
  import opened Retained
  import opened BoundedMap

  datatype ReturnCode = Success(qos: QoS) | Failure

  datatype Request = Request(filter: string, qos: QoS)

  /** Index of the subscription to `filter`, or the number of subscriptions. */
  function FilterIndex(subs: seq<Subscription>, filter: string): nat {
    FirstWhere(subs, (s: Subscription) => s.filter == filter)
  }

  datatype Upserted = Upserted(subs: seq<Subscription>, code: ReturnCode, inserted: bool)

  function Upsert(subs: seq<Subscription>, cap: nat, t: Request): Upserted {
    if !ValidFilter(t.filter) then Upserted(subs, Failure, false)
    else
      var i := FilterIndex(subs, t.filter);
      if i < |subs| then Upserted(subs[i := Subscription(t.filter, t.qos)], Success(t.qos), false)
      else if |subs| >= cap then Upserted(subs, Failure, false)
      else Upserted(subs + [Subscription(t.filter, t.qos)], Success(t.qos), true)
  }

  function Drop(subs: seq<Subscription>, filter: string): seq<Subscription> {
    var i := FilterIndex(subs, filter);
    if i < |subs| then subs[..i] + subs[i + 1..] else subs
  }

  /** Subscriptions, return codes and newly added filters after the first `n` requests. */
  datatype Progress = Progress(subs: seq<Subscription>, codes: seq<ReturnCode>, added: seq<string>)

  function Granted(subs: seq<Subscription>, cap: nat, ts: seq<Request>, n: nat): Progress
    requires n <= |ts|
  {
    if n == 0 then Progress(subs, [], [])
    else
      var p := Granted(subs, cap, ts, n - 1);
      var u := Upsert(p.subs, cap, ts[n - 1]);
      Progress(u.subs, p.codes + [u.code], if u.inserted then p.added + [ts[n - 1].filter] else p.added)
  }

  function Dropped(subs: seq<Subscription>, filters: seq<string>, n: nat): seq<Subscription>
    requires n <= |filters|
  {
    if n == 0 then subs else Drop(Dropped(subs, filters, n - 1), filters[n - 1])
  }

  /** Pushing into a vector of capacity `cap`; what does not fit is lost. */
  function Cut(es: seq<RetainedEntry>, cap: nat): seq<RetainedEntry> {
    if |es| <= cap then es else es[..cap]
  }

  /** The retained entries selected by each new filter in turn, cut off at the store capacity. */
  function Replayed(es: seq<RetainedEntry>, cap: nat, filters: seq<string>, n: nat): seq<RetainedEntry>
    requires n <= |filters|
  {
    if n == 0 then [] else Cut(Replayed(es, cap, filters, n - 1) + Matching(es, filters[n - 1]), cap)
  }

  /** The PUBLISH packets that follow the SUBACK, and the last packet id used: a counter of their own, from 1. */
  datatype Replay = Replay(packets: seq<Packet>, lastPid: nat)

  function ReplayPackets(es: seq<RetainedEntry>, n: nat): (r: Replay)
    requires n <= |es|
    ensures |r.packets| == n
  {
    if n == 0 then Replay([], 0)
    else
      var init, e := ReplayPackets(es, n - 1), es[n - 1];
      if e.qos == AtMostOnce then init.(packets := init.packets + [Packet(AtMostOnce, 0, true, e.topic, e.payload)])
      else
        var pid := NextPid(init.lastPid);
        Replay(init.packets + [Packet(e.qos, pid, true, e.topic, e.payload)], pid)
  }

  method FindFilter(subs: seq<Subscription>, filter: string) returns (i: nat)
    ensures i == FilterIndex(subs, filter)
  {
    i := 0;
    while i < |subs| && subs[i].filter != filter
      invariant i <= |subs|
      invariant forall k :: 0 <= k < i ==> subs[k].filter != filter
    {
      i := i + 1;
    }
  }

  method UpsertSubscription(subs: seq<Subscription>, cap: nat, t: Request) returns (u: Upserted)
    ensures u == Upsert(subs, cap, t)
  {
    var valid := IsValidFilter(t.filter);
    if !valid { return Upserted(subs, Failure, false); }
    var i := FindFilter(subs, t.filter);
    if i < |subs| { return Upserted(subs[i := Subscription(t.filter, t.qos)], Success(t.qos), false); }
    if |subs| >= cap { return Upserted(subs, Failure, false); }
    return Upserted(subs + [Subscription(t.filter, t.qos)], Success(t.qos), true);
  }

  method ReplayFilter(es: seq<RetainedEntry>, cap: nat, filter: string, sofar: seq<RetainedEntry>)
      returns (out: seq<RetainedEntry>)
    requires |sofar| <= cap
    ensures out == Cut(sofar + Matching(es, filter), cap)
  {
    out := sofar;
    assert sofar + Matching(es[..0], filter) == sofar;
    for i := 0 to |es|
      invariant out == Cut(sofar + Matching(es[..i], filter), cap)
    {
      assert es[..i + 1][..i] == es[..i];
      var matched := TopicMatches(filter, es[i].topic);
      if matched {
        assert sofar + Matching(es[..i + 1], filter) == (sofar + Matching(es[..i], filter)) + [es[i]];
        if |out| < cap { out := out + [es[i]]; }
      }
    }
    assert es[..|es|] == es;
  }

  /** prepare_subscribe. */
  method PrepareSubscribe(s: Session, cap: nat, ts: seq<Request>, es: seq<RetainedEntry>, retainedCap: nat)
    returns (s': Session, codes: seq<ReturnCode>, replay: seq<RetainedEntry>)
    ensures var p := Granted(s.subscriptions, cap, ts, |ts|);
            && s' == s.(subscriptions := p.subs)
            && codes == p.codes
            && replay == Replayed(es, retainedCap, p.added, |p.added|)
  {
    s', codes := s, [];
    var added: seq<string> := [];
    for n := 0 to |ts|
      invariant s' == s.(subscriptions := Granted(s.subscriptions, cap, ts, n).subs)
      invariant codes == Granted(s.subscriptions, cap, ts, n).codes
      invariant added == Granted(s.subscriptions, cap, ts, n).added
    {
      var u := UpsertSubscription(s'.subscriptions, cap, ts[n]);
      s' := s'.(subscriptions := u.subs);
      codes := codes + [u.code];
      if u.inserted { added := added + [ts[n].filter]; }
    }
    replay := [];
    for n := 0 to |added|
      invariant replay == Replayed(es, retainedCap, added, n) && |replay| <= retainedCap
    {
      replay := ReplayFilter(es, retainedCap, added[n], replay);
    }
  }

  /** The PUBLISH loop of write_prepared_subscribe, on a transport whose writes succeed. */
  method WritePreparedSubscribe(replay: seq<RetainedEntry>) returns (written: seq<Packet>)
    ensures written == ReplayPackets(replay, |replay|).packets
  {
    written := [];
    var nextPid := 1;
    for i := 0 to |replay|
      invariant written == ReplayPackets(replay, i).packets && nextPid == NextPid(ReplayPackets(replay, i).lastPid)
    {
      var e := replay[i];
      var pid := 0;
      if e.qos != AtMostOnce {
        pid := nextPid;
        nextPid := NextPid(nextPid);
      }
      written := written + [Packet(e.qos, pid, true, e.topic, e.payload)];
    }
  }

  /** apply_unsubscribe. */
  method ApplyUnsubscribe(s: Session, filters: seq<string>) returns (s': Session)
    ensures s' == s.(subscriptions := Dropped(s.subscriptions, filters, |filters|))
  {
    var subs := s.subscriptions;
    for n := 0 to |filters|
      invariant subs == Dropped(s.subscriptions, filters, n)
    {
      var i := FindFilter(subs, filters[n]);
      if i < |subs| {
        subs := subs[..i] + subs[i + 1..];
      }
    }
    s' := s.(subscriptions := subs);
  }

  // -- refinement of a bounded map ----------------------------------------------

  type Grants = map<string, QoS>

  ghost function FilterPairs(subs: seq<Subscription>): seq<Pair<string, QoS>> {
    seq(|subs|, i requires 0 <= i < |subs| => Pair(subs[i].filter, subs[i].qos))
  }

  ghost predicate IsGrantList(subs: seq<Subscription>, m: Grants) {
    Unique(FilterPairs(subs)) && AsMap(FilterPairs(subs)) == m
  }

  datatype Command = Subscribing(request: Request) | Unsubscribing(filter: string)

  function Perform(subs: seq<Subscription>, cap: nat, c: Command): seq<Subscription> {
    match c
    case Subscribing(t) => Upsert(subs, cap, t).subs
    case Unsubscribing(f) => Drop(subs, f)
  }

  /** A filter is granted iff it is valid and known or there is room; then the last QoS counts. */
  ghost function PerformSpec(m: Grants, cap: nat, c: Command): Grants {
    match c
    case Subscribing(t) =>
      if ValidFilter(t.filter) && (t.filter in m || |m| < cap) then m[t.filter := t.qos] else m
    case Unsubscribing(f) => m - {f}
  }

  lemma {:induction false} FilterIndexKey(subs: seq<Subscription>, filter: string)
    ensures filter in AsMap(FilterPairs(subs)) <==> FilterIndex(subs, filter) < |subs|
  {
    KeyOfMap(FilterPairs(subs), filter);
    var i := FilterIndex(subs, filter);
    if i < |subs| { assert FilterPairs(subs)[i].key == filter; }
    if j :| 0 <= j < |subs| && FilterPairs(subs)[j].key == filter { assert subs[j].filter == filter; }
  }

  /** The return code is Success exactly when the map-level grant happens. */
  lemma {:induction false} UpsertRefines(subs: seq<Subscription>, m: Grants, cap: nat, t: Request)
    requires IsGrantList(subs, m)
    ensures var u := Upsert(subs, cap, t);
            && IsGrantList(u.subs, PerformSpec(m, cap, Subscribing(t)))
            && u.code == (if ValidFilter(t.filter) && (t.filter in m || |m| < cap) then Success(t.qos) else Failure)
            && (u.inserted <==> u.code.Success? && t.filter !in m)
  {
    FilterIndexKey(subs, t.filter);
    var i, ps := FilterIndex(subs, t.filter), FilterPairs(subs);
    Size(ps);
    if i < |subs| {
      ReplaceIsUpdate(ps, i, t.qos);
      assert FilterPairs(subs[i := Subscription(t.filter, t.qos)]) == ps[i := Pair(t.filter, t.qos)];
    } else {
      AppendIsInsert(ps, Pair(t.filter, t.qos));
      assert FilterPairs(subs + [Subscription(t.filter, t.qos)]) == ps + [Pair(t.filter, t.qos)];
    }
  }

  lemma {:induction false} DropRefines(subs: seq<Subscription>, m: Grants, filter: string)
    requires IsGrantList(subs, m)
    ensures IsGrantList(Drop(subs, filter), m - {filter})
  {
    FilterIndexKey(subs, filter);
    var i, ps := FilterIndex(subs, filter), FilterPairs(subs);
    if i < |subs| {
      assert ps[i].key == filter;
      RemoveIsDelete(ps, i);
      PairsWithout(subs, i);
    } else {
      assert m - {filter} == m;
    }
  }

  lemma {:induction false} PairsWithout(subs: seq<Subscription>, i: nat)
    requires i < |subs|
    ensures FilterPairs(subs[..i] + subs[i + 1..]) == FilterPairs(subs)[..i] + FilterPairs(subs)[i + 1..]
  {
  }

  ghost predicate WellGranted(m: Grants, cap: nat) {
    |m| <= cap && forall f :: f in m ==> ValidFilter(f)
  }

  ghost function SubsAfter(subs: seq<Subscription>, cap: nat, cs: seq<Command>): seq<Subscription> {
    if cs == [] then subs else Perform(SubsAfter(subs, cap, cs[..|cs| - 1]), cap, cs[|cs| - 1])
  }

  ghost function GrantsAfter(m: Grants, cap: nat, cs: seq<Command>): Grants {
    if cs == [] then m else PerformSpec(GrantsAfter(m, cap, cs[..|cs| - 1]), cap, cs[|cs| - 1])
  }

  /** Over any run, the list is the bounded map from valid filters to the last QoS granted. */
  lemma {:induction false} SubscriptionsRefine(subs: seq<Subscription>, m: Grants, cap: nat, cs: seq<Command>)
    requires IsGrantList(subs, m) && WellGranted(m, cap)
    ensures IsGrantList(SubsAfter(subs, cap, cs), GrantsAfter(m, cap, cs))
    ensures WellGranted(GrantsAfter(m, cap, cs), cap)
    decreases |cs|
  {
    if cs != [] {
      var init, c := cs[..|cs| - 1], cs[|cs| - 1];
      SubscriptionsRefine(subs, m, cap, init);
      var subs', m' := SubsAfter(subs, cap, init), GrantsAfter(m, cap, init);
      match c {
        case Subscribing(t) =>
          UpsertRefines(subs', m', cap, t);
          assert m'[t.filter := t.qos].Keys == m'.Keys + {t.filter};
          if t.filter in m' { assert m'[t.filter := t.qos].Keys == m'.Keys; }
        case Unsubscribing(f) =>
          DropRefines(subs', m', f);
          assert (m' - {f}).Keys == m'.Keys - {f};
      }
    }
  }

  // What the broker runs, a batch per packet, is such a run of single commands.

  function Subscribings(ts: seq<Request>, n: nat): seq<Command>
    requires n <= |ts|
  {
    if n == 0 then [] else Subscribings(ts, n - 1) + [Subscribing(ts[n - 1])]
  }

  function Unsubscribings(filters: seq<string>, n: nat): seq<Command>
    requires n <= |filters|
  {
    if n == 0 then [] else Unsubscribings(filters, n - 1) + [Unsubscribing(filters[n - 1])]
  }

  lemma {:induction false} OneMoreCommand(subs: seq<Subscription>, cap: nat, cs: seq<Command>, c: Command)
    ensures SubsAfter(subs, cap, cs + [c]) == Perform(SubsAfter(subs, cap, cs), cap, c)
  {
    assert (cs + [c])[..|cs|] == cs;
  }

  lemma {:induction false} GrantedIsRun(subs: seq<Subscription>, cap: nat, ts: seq<Request>, n: nat)
    requires n <= |ts|
    ensures Granted(subs, cap, ts, n).subs == SubsAfter(subs, cap, Subscribings(ts, n))
  {
    if n > 0 {
      GrantedIsRun(subs, cap, ts, n - 1);
      OneMoreCommand(subs, cap, Subscribings(ts, n - 1), Subscribing(ts[n - 1]));
    }
  }

  lemma {:induction false} OneMoreGrant(m: Grants, cap: nat, cs: seq<Command>, c: Command)
    ensures GrantsAfter(m, cap, cs + [c]) == PerformSpec(GrantsAfter(m, cap, cs), cap, c)
  {
    assert (cs + [c])[..|cs|] == cs;
  }

  lemma {:induction false} DroppedRefines(subs: seq<Subscription>, m: Grants, cap: nat, filters: seq<string>, n: nat)
    requires n <= |filters| && IsGrantList(subs, m)
    ensures IsGrantList(Dropped(subs, filters, n), GrantsAfter(m, cap, Unsubscribings(filters, n)))
  {
    if n > 0 {
      var cs := Unsubscribings(filters, n - 1);
      DroppedRefines(subs, m, cap, filters, n - 1);
      DropRefines(Dropped(subs, filters, n - 1), GrantsAfter(m, cap, cs), filters[n - 1]);
      OneMoreGrant(m, cap, cs, Unsubscribing(filters[n - 1]));
    }
  }

  /** The list is a map from at most `cap` valid filters to the QoS granted. */
  ghost predicate ListOk(subs: seq<Subscription>, cap: nat) {
    exists m :: IsGrantList(subs, m) && WellGranted(m, cap)
  }

  /** A SUBSCRIBE or UNSUBSCRIBE packet performs its commands on that map, one after the other. */
  lemma {:induction false} PacketsRefine(subs: seq<Subscription>, m: Grants, cap: nat, ts: seq<Request>, fs: seq<string>)
    requires IsGrantList(subs, m) && WellGranted(m, cap)
    ensures IsGrantList(Granted(subs, cap, ts, |ts|).subs, GrantsAfter(m, cap, Subscribings(ts, |ts|)))
    ensures IsGrantList(Dropped(subs, fs, |fs|), GrantsAfter(m, cap, Unsubscribings(fs, |fs|)))
    ensures ListOk(Granted(subs, cap, ts, |ts|).subs, cap) && ListOk(Dropped(subs, fs, |fs|), cap)
  {
    GrantedIsRun(subs, cap, ts, |ts|);
    DroppedRefines(subs, m, cap, fs, |fs|);
    SubscriptionsRefine(subs, m, cap, Subscribings(ts, |ts|));
    SubscriptionsRefine(subs, m, cap, Unsubscribings(fs, |fs|));
  }

  /** The matching entries of each filter in turn, without the capacity. */
  function AllMatching(es: seq<RetainedEntry>, filters: seq<string>, n: nat): seq<RetainedEntry>
    requires n <= |filters|
  {
    if n == 0 then [] else AllMatching(es, filters, n - 1) + Matching(es, filters[n - 1])
  }

  lemma {:induction false} CutAppend(all: seq<RetainedEntry>, m: seq<RetainedEntry>, cap: nat)
    ensures Cut(Cut(all, cap) + m, cap) == Cut(all + m, cap)
  {
    if |all| > cap {
      var a, b := (all[..cap] + m)[..cap], (all + m)[..cap];
      assert |a| == |b|;
      forall i | 0 <= i < cap ensures a[i] == b[i] {}
      assert a == b;
    }
  }

  /** Overlapping new filters replay every match in turn, cut off at the store capacity. */
  lemma {:induction false} ReplayIsCut(es: seq<RetainedEntry>, cap: nat, filters: seq<string>, n: nat)
    requires n <= |filters|
    ensures Replayed(es, cap, filters, n) == Cut(AllMatching(es, filters, n), cap)
  {
    if n > 0 {
      ReplayIsCut(es, cap, filters, n - 1);
      CutAppend(AllMatching(es, filters, n - 1), Matching(es, filters[n - 1]), cap);
    }
  }

  /** A SUBSCRIBE that adds one filter replays exactly the matching retained entries, in store order. */
  lemma {:induction false} SingleFilterReplay(es: seq<RetainedEntry>, cap: nat, filter: string)
    requires |es| <= cap
    ensures Replayed(es, cap, [filter], 1) == Matching(es, filter)
  {
    if es != [] { MatchingExact(es, filter, es[0]); }
    assert Replayed(es, cap, [filter], 0) + Matching(es, filter) == Matching(es, filter);
  }
}
