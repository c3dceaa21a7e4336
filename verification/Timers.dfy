/** Keepalive and wake-up deadlines (crates/GatoMQTT/src/session/state.rs, lines 137-190). */
module Timers {
  import opened Basics
  import opened Sessions

  /** Instants are 64-bit tick counts. */
  const INSTANT_MAX := 0xFFFF_FFFF_FFFF_FFFF

  /** One and a half keepalive periods after the last activity, saturating. */
  function KeepaliveDeadline(s: Session, hz: nat): nat {
    if s.keepalive == 0 then INSTANT_MAX
    else Min(s.lastActivity + ((s.keepalive * 3) / 2) * hz, INSTANT_MAX)
  }

  predicate KeepaliveExpired(s: Session, now: nat, hz: nat) {
    s.keepalive != 0 && now > KeepaliveDeadline(s, hz)
  }

  /** Ticks until the keepalive deadline. */
  function KeepaliveLeft(s: Session, now: nat, hz: nat): nat {
    Max(KeepaliveDeadline(s, hz) - now, 0)
  }

  /** Ticks until an entry's retry is due; an entry stamped in the future counts as just sent. */
  function RetryLeft(e: Inflight, now: nat, retry: nat): nat {
    Max(retry - Max(now - e.sentAt, 0), 0)
  }

  /** `w` is the least of the cap, the keepalive remainder and the retry remainders, but at least one tick. */
  ghost predicate IsSleep(s: Session, now: nat, retry: nat, cap: nat, hz: nat, w: nat) {
    && 1 <= w <= Max(cap, 1)
    && (s.keepalive > 0 ==> w <= Max(KeepaliveLeft(s, now, hz), 1))
    && (forall i :: 0 <= i < |s.inflight| ==> w <= Max(RetryLeft(s.inflight[i], now, retry), 1))
    && (w == 1 || w == cap || (s.keepalive > 0 && w == KeepaliveLeft(s, now, hz))
        || exists i :: 0 <= i < |s.inflight| && w == RetryLeft(s.inflight[i], now, retry))
    && (w == 1 ==> cap <= 1 || (s.keepalive > 0 && KeepaliveLeft(s, now, hz) <= 1)
                   || exists i :: 0 <= i < |s.inflight| && RetryLeft(s.inflight[i], now, retry) <= 1)
  }

  /** next_wakeup_after. */
  method NextWakeupAfter(s: Session, now: nat, retry: nat, cap: nat, hz: nat) returns (wait: nat)
    ensures IsSleep(s, now, retry, cap, hz, wait)
  {
    wait := cap;
    if s.keepalive > 0 {
      var deadline := KeepaliveDeadline(s, hz);
      if now > deadline { return 1; }
      wait := Min(wait, deadline - now);
    }
    var i := 0;
    while i < |s.inflight|
      invariant i <= |s.inflight|
      invariant wait <= cap && (s.keepalive > 0 ==> wait <= KeepaliveLeft(s, now, hz))
      invariant forall k :: 0 <= k < i ==> wait <= RetryLeft(s.inflight[k], now, retry)
      invariant wait == cap || (s.keepalive > 0 && wait == KeepaliveLeft(s, now, hz))
                || exists k :: 0 <= k < i && wait == RetryLeft(s.inflight[k], now, retry)
    {
      var e := s.inflight[i];
      var elapsed := if now >= e.sentAt then now - e.sentAt else 0;
      var remaining := if elapsed >= retry then 0 else retry - elapsed;
      assert remaining == RetryLeft(s.inflight[i], now, retry);
      wait := Min(wait, remaining);
      i := i + 1;
    }
    wait := Max(wait, 1);
  }

  /** The sleep time is determined by its description. */
  lemma {:induction false} SleepUnique(s: Session, now: nat, retry: nat, cap: nat, hz: nat, v: nat, w: nat)
    requires IsSleep(s, now, retry, cap, hz, v) && IsSleep(s, now, retry, cap, hz, w)
    ensures v == w
  {
    SleepNotLess(s, now, retry, cap, hz, v, w);
    SleepNotLess(s, now, retry, cap, hz, w, v);
  }

  lemma {:induction false} SleepNotLess(s: Session, now: nat, retry: nat, cap: nat, hz: nat, v: nat, w: nat)
    requires IsSleep(s, now, retry, cap, hz, v) && IsSleep(s, now, retry, cap, hz, w)
    ensures w <= v
  {
    if v == 1 {
      if i :| 0 <= i < |s.inflight| && RetryLeft(s.inflight[i], now, retry) <= 1 {
        assert w <= Max(RetryLeft(s.inflight[i], now, retry), 1);
      }
    } else if v != cap && !(s.keepalive > 0 && v == KeepaliveLeft(s, now, hz)) {
      var i :| 0 <= i < |s.inflight| && v == RetryLeft(s.inflight[i], now, retry);
      assert w <= Max(RetryLeft(s.inflight[i], now, retry), 1);
    }
  }

  /** Waking after the sleep, a deadline that was still ahead is passed by at most one tick. */
  lemma {:induction false} NoDeadlineOverslept(s: Session, now: nat, retry: nat, cap: nat, hz: nat, w: nat)
    requires IsSleep(s, now, retry, cap, hz, w)
    ensures s.keepalive > 0 && now <= KeepaliveDeadline(s, hz) ==> now + w <= KeepaliveDeadline(s, hz) + 1
    ensures forall i :: 0 <= i < |s.inflight| && s.inflight[i].sentAt <= now <= s.inflight[i].sentAt + retry ==>
              now + w <= s.inflight[i].sentAt + retry + 1
  {
    forall i | 0 <= i < |s.inflight| && s.inflight[i].sentAt <= now <= s.inflight[i].sentAt + retry
      ensures now + w <= s.inflight[i].sentAt + retry + 1
    {
      assert w <= Max(RetryLeft(s.inflight[i], now, retry), 1);
    }
  }

  /**
   Checks of one session, with no packet in between: activity and keepalive stand still, and each
   check follows the previous one at most `late` ticks after the sleep that one asked for; a signal
   may wake the loop earlier.
   */
  ghost predicate SilentChecks(s: Session, checks: seq<Session>, times: seq<nat>, waits: seq<nat>, retry: nat,
      cap: nat, hz: nat, late: nat) {
    && |checks| == |times| == |waits| > 0
    && (forall i :: 0 <= i < |checks| ==>
          && checks[i].keepalive == s.keepalive && checks[i].lastActivity == s.lastActivity
          && IsSleep(checks[i], times[i], retry, cap, hz, waits[i]))
    && (forall i :: 0 <= i < |times| - 1 ==> times[i] <= times[i + 1] <= times[i] + waits[i] + late)
  }

  /** Checks that only the timer brings about: none comes before its sleep is over. */
  ghost predicate ByTimer(times: seq<nat>, waits: seq<nat>) {
    |waits| == |times| && forall i :: 0 <= i < |times| - 1 ==> times[i] + waits[i] <= times[i + 1]
  }

  /** Such checks get past any deadline: each comes at least one tick after the one before. */
  lemma {:induction false} TimerReachesDeadline(s: Session, checks: seq<Session>, times: seq<nat>, waits: seq<nat>,
      retry: nat, cap: nat, hz: nat, late: nat, n: nat)
    requires SilentChecks(s, checks, times, waits, retry, cap, hz, late) && ByTimer(times, waits) && n < |times|
    ensures times[n] >= times[0] + n
    ensures n > KeepaliveDeadline(s, hz) - times[0] ==> times[n] > KeepaliveDeadline(s, hz)
  {
    if n > 0 {
      TimerReachesDeadline(s, checks, times, waits, retry, cap, hz, late, n - 1);
      var i := n - 1;
      assert IsSleep(checks[i], times[i], retry, cap, hz, waits[i]);
      assert times[i + 1] >= times[i] + waits[i];
    }
  }

  /** From a check at or before the deadline, the first check after it is at most one tick and the lateness past it. */
  lemma {:induction false} FirstCheckAfterDeadline(s: Session, checks: seq<Session>, times: seq<nat>, waits: seq<nat>,
      retry: nat, cap: nat, hz: nat, late: nat, i: nat)
    returns (m: nat)
    requires SilentChecks(s, checks, times, waits, retry, cap, hz, late) && s.keepalive > 0 && i < |times|
    requires forall j :: 0 <= j <= i ==> times[j] <= KeepaliveDeadline(s, hz)
    requires times[|times| - 1] > KeepaliveDeadline(s, hz)
    ensures i < m < |times| && KeepaliveDeadline(s, hz) < times[m] <= KeepaliveDeadline(s, hz) + 1 + late
    ensures forall j :: 0 <= j < m ==> times[j] <= KeepaliveDeadline(s, hz)
    decreases |times| - i
  {
    assert IsSleep(checks[i], times[i], retry, cap, hz, waits[i]);
    NoDeadlineOverslept(checks[i], times[i], retry, cap, hz, waits[i]);
    assert times[i + 1] <= times[i] + waits[i] + late;
    if times[i + 1] > KeepaliveDeadline(s, hz) {
      m := i + 1;
    } else {
      m := FirstCheckAfterDeadline(s, checks, times, waits, retry, cap, hz, late, i + 1);
    }
  }

  /**
   A silent session is found expired by the first check after its deadline, which comes one tick after
   the deadline, plus at most the lateness of the timer: with punctual timers at `deadline + 1` exactly.
   */
  lemma {:induction false} SilentSessionExpires(s: Session, checks: seq<Session>, times: seq<nat>, waits: seq<nat>,
      retry: nat, cap: nat, hz: nat, late: nat)
    returns (m: nat)
    requires SilentChecks(s, checks, times, waits, retry, cap, hz, late) && s.keepalive > 0
    requires times[0] <= KeepaliveDeadline(s, hz) < times[|times| - 1]
    ensures 0 < m < |times| && KeepaliveDeadline(s, hz) < times[m] <= KeepaliveDeadline(s, hz) + 1 + late
    ensures late == 0 ==> times[m] == KeepaliveDeadline(s, hz) + 1
    ensures KeepaliveExpired(checks[m], times[m], hz)
    ensures forall j :: 0 <= j < m ==> !KeepaliveExpired(checks[j], times[j], hz)
  {
    m := FirstCheckAfterDeadline(s, checks, times, waits, retry, cap, hz, late, 0);
  }
}
