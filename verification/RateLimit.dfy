/**
 The per-session token bucket (crates/GatoMQTT/src/session/rate_limit.rs).
 Times are ticks; `hz` is the number of ticks in a second.
 */
module RateLimit {
  import opened Basics

  const U8_MAX := 255

  datatype Bucket = Bucket(tokens: nat, capacity: nat, rate: nat, lastRefill: nat, violations: nat)

  function NewBucket(capacity: nat, rate: nat): Bucket {
    Bucket(capacity, capacity, rate, 0, 0)
  }

  predicate InRange(b: Bucket) {
    b.tokens <= b.capacity <= U8_MAX && b.rate <= U8_MAX && b.violations <= U8_MAX
  }

  /** The refill that precedes a decision: whole elapsed seconds only, saturating at 255. */
  function Refill(b: Bucket, now: nat, hz: nat): Bucket
    requires hz > 0
  {
    if now < b.lastRefill || (now - b.lastRefill) / hz == 0 then b
    else
      var refill := Min(((now - b.lastRefill) / hz) * b.rate, U8_MAX);
      b.(tokens := Min(Min(b.tokens + refill, U8_MAX), b.capacity), lastRefill := now)
  }

  predicate Admits(b: Bucket, now: nat, hz: nat)
    requires hz > 0
  {
    Refill(b, now, hz).tokens > 0
  }

  function Consume(b: Bucket, now: nat, hz: nat): Bucket
    requires hz > 0
  {
    var r := Refill(b, now, hz);
    if r.tokens > 0 then r.(tokens := r.tokens - 1, violations := 0)
    else r.(violations := Min(r.violations + 1, U8_MAX))
  }

  /** The bucket as the code keeps it. */
  class TokenBucket {
    var tokens: nat
    const capacity: nat
    const rate: nat
    var lastRefill: nat
    var violations: nat

    constructor (capacity: nat, rate: nat)
      ensures View() == NewBucket(capacity, rate)
    {
      tokens, this.capacity, this.rate, lastRefill, violations := capacity, capacity, rate, 0, 0;
    }

    ghost function View(): Bucket
      reads this
    {
      Bucket(tokens, capacity, rate, lastRefill, violations)
    }

    method TryConsume(now: nat, hz: nat) returns (admitted: bool)
      requires hz > 0 && InRange(View())
      modifies this
      ensures View() == Consume(old(View()), now, hz) && InRange(View())
      ensures admitted == Admits(old(View()), now, hz)
    {
      if now >= lastRefill {
        var elapsedSecs := (now - lastRefill) / hz;
        if elapsedSecs > 0 {
          var refill := Min(elapsedSecs * rate, U8_MAX);
          tokens := Min(Min(tokens + refill, U8_MAX), capacity);
          lastRefill := now;
        }
      }
      if tokens > 0 {
        tokens := tokens - 1;
        violations := 0;
        return true;
      }
      violations := Min(violations + 1, U8_MAX);
      return false;
    }
  }

  // -- runs of calls -------------------------------------------------------------------

  ghost predicate Clocked(b: Bucket, times: seq<nat>) {
    && (forall i :: 0 <= i < |times| ==> b.lastRefill <= times[i])
    && (forall i, j :: 0 <= i < j < |times| ==> times[i] <= times[j])
  }

  /** The bucket after the first `n` calls. */
  function After(b: Bucket, times: seq<nat>, n: nat, hz: nat): Bucket
    requires n <= |times| && hz > 0
  {
    if n == 0 then b else Consume(After(b, times, n - 1, hz), times[n - 1], hz)
  }

  predicate AdmittedAt(b: Bucket, times: seq<nat>, i: nat, hz: nat)
    requires i < |times| && hz > 0
  {
    Admits(After(b, times, i, hz), times[i], hz)
  }

  /** How many of the calls i..j were admitted. */
  function Admitted(b: Bucket, times: seq<nat>, i: nat, j: nat, hz: nat): nat
    requires i <= j <= |times| && hz > 0
  {
    if i == j then 0 else Admitted(b, times, i, j - 1, hz) + if AdmittedAt(b, times, j - 1, hz) then 1 else 0
  }

  // Whole seconds and credit, by repeated subtraction and addition.

  ghost function Secs(span: nat, hz: nat): nat
    requires hz > 0
    decreases span
  {
    if span < hz then 0 else 1 + Secs(span - hz, hz)
  }

  ghost function Credit(rate: nat, secs: nat): nat
    decreases secs
  {
    if secs == 0 then 0 else rate + Credit(rate, secs - 1)
  }

  lemma {:induction false} SecsIsQuotient(span: nat, hz: nat)
    requires hz > 0
    ensures hz * Secs(span, hz) <= span < hz * Secs(span, hz) + hz
    decreases span
  {
    if span >= hz {
      SecsIsQuotient(span - hz, hz);
      assert hz * Secs(span, hz) == hz * Secs(span - hz, hz) + hz;
    }
  }

  lemma {:induction false} QuotientUnique(span: nat, hz: nat, p: nat, q: nat)
    requires hz * p <= span < hz * p + hz && hz * q <= span < hz * q + hz
    ensures p == q
  {
    if p < q { Apart(hz, p, q); } else if q < p { Apart(hz, q, p); }
  }

  lemma {:induction false} Apart(hz: nat, p: nat, q: nat)
    requires p < q
    ensures hz * p + hz <= hz * q
  {
    var k := q - p - 1;
    assert hz * (p + 1 + k) == hz * p + hz + hz * k;
  }

  lemma {:induction false} SecsIsDiv(span: nat, hz: nat)
    requires hz > 0
    ensures Secs(span, hz) == span / hz
  {
    SecsIsQuotient(span, hz);
    assert span == hz * (span / hz) + span % hz;
    QuotientUnique(span, hz, Secs(span, hz), span / hz);
  }

  lemma {:induction false} CreditIsProduct(rate: nat, secs: nat)
    ensures Credit(rate, secs) == secs * rate == rate * secs
    decreases secs
  {
    if secs > 0 {
      CreditIsProduct(rate, secs - 1);
      assert secs * rate == (secs - 1) * rate + rate;
    }
  }

  lemma {:induction false} CreditAdds(rate: nat, p: nat, q: nat)
    ensures Credit(rate, p + q) == Credit(rate, p) + Credit(rate, q)
    decreases q
  {
    if q > 0 { CreditAdds(rate, p, q - 1); }
  }

  lemma {:induction false} CreditMonotone(rate: nat, p: nat, q: nat)
    requires p <= q
    ensures Credit(rate, p) <= Credit(rate, q)
  {
    CreditAdds(rate, p, q - p);
  }

  lemma {:induction false} SecsMonotone(p: nat, q: nat, hz: nat)
    requires hz > 0 && p <= q
    ensures Secs(p, hz) <= Secs(q, hz)
    decreases p
  {
    if p >= hz { SecsMonotone(p - hz, q - hz, hz); }
  }

  lemma {:induction false} SecsAdd(p: nat, q: nat, hz: nat)
    requires hz > 0
    ensures Secs(p, hz) + Secs(q, hz) <= Secs(p + q, hz)
    decreases p
  {
    if p >= hz { SecsAdd(p - hz, q, hz); } else { SecsMonotone(q, p + q, hz); }
  }

  lemma {:induction false} AfterInRange(b: Bucket, times: seq<nat>, n: nat, hz: nat)
    requires n <= |times| && hz > 0 && InRange(b) && Clocked(b, times)
    ensures var a := After(b, times, n, hz);
            && InRange(a) && a.capacity == b.capacity && a.rate == b.rate && b.lastRefill <= a.lastRefill
            && (n > 0 ==> a.lastRefill <= times[n - 1] < a.lastRefill + hz)
  {
    if n > 0 {
      AfterInRange(b, times, n - 1, hz);
      var a := After(b, times, n - 1, hz);
      var now := times[n - 1];
      if n > 1 { assert times[n - 2] <= now; }
      assert a.lastRefill <= now;
      if (now - a.lastRefill) / hz == 0 {
        assert now - a.lastRefill == hz * ((now - a.lastRefill) / hz) + (now - a.lastRefill) % hz;
      }
    }
  }

  /** Whole seconds credited between two refill instants bound the tokens spent in between. */
  lemma {:induction false} SpendingBound(b: Bucket, times: seq<nat>, i: nat, j: nat, hz: nat)
    requires i <= j <= |times| && hz > 0 && InRange(b) && Clocked(b, times)
    ensures var x, y := After(b, times, i, hz), After(b, times, j, hz);
            && x.lastRefill <= y.lastRefill
            && Admitted(b, times, i, j, hz) + y.tokens <= x.tokens + Credit(b.rate, Secs(y.lastRefill - x.lastRefill, hz))
  {
    if i < j {
      SpendingBound(b, times, i, j - 1, hz);
      AfterInRange(b, times, j - 1, hz);
      var x, y, now := After(b, times, i, hz), After(b, times, j - 1, hz), times[j - 1];
      if j > 1 { assert times[j - 2] <= now; }
      CallBound(x.lastRefill, y, now, hz);
    }
  }

  /** One call spends at most what it finds and what it credits. */
  lemma {:induction false} CallBound(from: nat, y: Bucket, now: nat, hz: nat)
    requires hz > 0 && InRange(y) && from <= y.lastRefill <= now
    ensures var z := Consume(y, now, hz);
            && from <= z.lastRefill
            && (if Admits(y, now, hz) then 1 else 0) + z.tokens + Credit(y.rate, Secs(y.lastRefill - from, hz))
                 <= y.tokens + Credit(y.rate, Secs(z.lastRefill - from, hz))
  {
    RefillBound(from, y, now, hz);
  }

  lemma {:induction false} RefillBound(from: nat, y: Bucket, now: nat, hz: nat)
    requires hz > 0 && InRange(y) && from <= y.lastRefill <= now
    ensures var r := Refill(y, now, hz);
            && from <= r.lastRefill
            && r.tokens + Credit(y.rate, Secs(y.lastRefill - from, hz))
                 <= y.tokens + Credit(y.rate, Secs(r.lastRefill - from, hz))
  {
    var a, c := y.lastRefill - from, now - y.lastRefill;
    var p, q := Secs(a, hz), Secs(c, hz);
    RefillCredit(y, now, hz);
    SecsAdd(a, c, hz);
    assert a + c == now - from;
    CreditAdds(y.rate, p, q);
    CreditMonotone(y.rate, p + q, Secs(now - from, hz));
  }

  lemma {:induction false} RefillCredit(y: Bucket, now: nat, hz: nat)
    requires hz > 0 && InRange(y) && y.lastRefill <= now
    ensures var r := Refill(y, now, hz);
            if Secs(now - y.lastRefill, hz) == 0 then r == y
            else r.lastRefill == now && r.tokens <= y.tokens + Credit(y.rate, Secs(now - y.lastRefill, hz))
  {
    var d := (now - y.lastRefill) / hz;
    SecsIsDiv(now - y.lastRefill, hz);
    CreditIsProduct(y.rate, d);
    CappedSum(y.tokens, d * y.rate, y.capacity);
  }

  lemma {:induction false} CappedSum(tokens: nat, earned: nat, capacity: nat)
    ensures Min(Min(tokens + Min(earned, U8_MAX), U8_MAX), capacity) <= tokens + earned
  {
  }

  lemma {:induction false} AdmittedFirst(b: Bucket, times: seq<nat>, i: nat, j: nat, hz: nat)
    requires i < j <= |times| && hz > 0
    ensures Admitted(b, times, i, j, hz) ==
            (if AdmittedAt(b, times, i, hz) then 1 else 0) + Admitted(b, times, i + 1, j, hz)
  {
    if i + 1 < j { AdmittedFirst(b, times, i, j - 1, hz); }
  }

  lemma {:induction false} SecondsOfWindow(span: nat, credited: nat, rate: nat, hz: nat)
    requires hz > 0 && credited <= span + hz
    ensures Credit(rate, Secs(credited, hz)) <= rate * (span / hz + 1)
  {
    SecsMonotone(credited, span + hz, hz);
    SecsIsDiv(span, hz);
    CreditMonotone(rate, Secs(credited, hz), Secs(span, hz) + 1);
    CreditIsProduct(rate, Secs(span, hz) + 1);
  }

  lemma {:induction false} FirstCallBound(b: Bucket, times: seq<nat>, i: nat, hz: nat)
    requires i < |times| && hz > 0 && InRange(b) && Clocked(b, times)
    ensures (if AdmittedAt(b, times, i, hz) then 1 else 0) + After(b, times, i + 1, hz).tokens <= b.capacity
  {
    AfterInRange(b, times, i, hz);
  }

  /**
   Over any window of calls the number admitted is at most the capacity plus the rate for every whole
   second of the window and one more, despite saturation and dropped sub-second remainders.
   */
  lemma {:induction false} WindowBound(b: Bucket, times: seq<nat>, i: nat, j: nat, hz: nat)
    requires i < j <= |times| && hz > 0 && InRange(b) && Clocked(b, times)
    ensures times[i] <= times[j - 1]
    ensures Admitted(b, times, i, j, hz) <= b.capacity + b.rate * ((times[j - 1] - times[i]) / hz + 1)
  {
    if i < j - 1 { assert times[i] <= times[j - 1]; }
    AdmittedFirst(b, times, i, j, hz);
    FirstCallBound(b, times, i, hz);
    SpendingBound(b, times, i + 1, j, hz);
    AfterInRange(b, times, i + 1, hz);
    AfterInRange(b, times, j, hz);
    SecondsOfWindow(times[j - 1] - times[i],
                    After(b, times, j, hz).lastRefill - After(b, times, i + 1, hz).lastRefill, b.rate, hz);
  }

  /** The current run of refusals. */
  function Streak(b: Bucket, times: seq<nat>, n: nat, hz: nat): nat
    requires n <= |times| && hz > 0
  {
    if n == 0 || AdmittedAt(b, times, n - 1, hz) then 0 else Streak(b, times, n - 1, hz) + 1
  }

  lemma {:induction false} ViolationsCountTheStreak(b: Bucket, times: seq<nat>, n: nat, hz: nat)
    requires n <= |times| && hz > 0 && b.violations == 0
    ensures After(b, times, n, hz).violations == Min(Streak(b, times, n, hz), U8_MAX)
  {
    if n > 0 { ViolationsCountTheStreak(b, times, n - 1, hz); }
  }
}
