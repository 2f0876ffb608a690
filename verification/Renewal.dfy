/**
 * The renewal cap of the Redis lease: a timer that extends the lease every
 * third of its length, but only so many times.
 */
module Renewal {
  import opened Basics

  function Ceil(x: real): int {
    -((-x).Floor)
  }

  /** Milliseconds between two ticks. */
  function Interval(leaseMs: int): int {
    Max(10, leaseMs / 3)
  }

  /** The number of ticks that renew. */
  function MaxRenewals(leaseMs: int, deadlineMs: real): int {
    Max(1, Ceil(deadlineMs / Interval(leaseMs) as real))
  }

  lemma MulMono(a: int, b: int, i: int)
    requires a <= b && i >= 0
    ensures a * i <= b * i
  {
  }

  lemma MulMonoReal(a: real, b: real, i: real)
    requires a <= b && i > 0.0
    ensures a * i <= b * i
    ensures a < b ==> a * i < b * i
  {
  }

  lemma Shift(q: real, i: real)
    ensures (q + 1.0) * i == q * i + i
  {
  }

  /** The least whole number of intervals that reaches a length overshoots it by less than one. */
  lemma CeilSpans(d: real, i: real, m: real)
    requires i > 0.0 && m - 1.0 < d / i <= m
    ensures d <= m * i < d + i
  {
    var q := d / i;
    MulMonoReal(q, m, i);
    MulMonoReal(m, q + 1.0, i);
    Shift(q, i);
    assert q * i == d;
  }

  lemma PositiveQuotient(d: real, i: real)
    requires d > 0.0 && i > 0.0
    ensures d / i > 0.0
  {
  }

  lemma CeilOfPositive(q: real)
    requires q > 0.0
    ensures Ceil(q) >= 1 && Ceil(q) as real - 1.0 < q <= Ceil(q) as real
  {
  }

  /** The ticks that renew span the deadline, and overshoot it by less than one interval. */
  lemma RenewalsCoverTheDeadline(leaseMs: int, deadlineMs: real)
    requires deadlineMs > 0.0
    ensures var i, m := Interval(leaseMs) as real, MaxRenewals(leaseMs, deadlineMs) as real;
            deadlineMs <= m * i < deadlineMs + i
  {
    QuotientSpans(deadlineMs, Interval(leaseMs) as real);
    assert MaxRenewals(leaseMs, deadlineMs) == Ceil(deadlineMs / Interval(leaseMs) as real);
  }

  lemma QuotientSpans(d: real, i: real)
    requires d > 0.0 && i > 0.0
    ensures d <= Ceil(d / i) as real * i < d + i && Ceil(d / i) >= 1
  {
    PositiveQuotient(d, i);
    CeilOfPositive(d / i);
    CeilSpans(d, i, Ceil(d / i) as real);
  }

  // ----- the timer -----

  /** `expiresAt` is when Redis drops the lease; times count from the acquire. */
  datatype Timer = Timer(renewals: nat, lost: bool, cleared: bool, expiresAt: int)

  function Start(leaseMs: int): Timer {
    Timer(0, false, false, leaseMs)
  }

  /** One tick at time `now`, its renewal answered at once. */
  function Tick(t: Timer, leaseMs: int, maxRenewals: int, now: int): Timer {
    if t.cleared then t
    else if t.renewals + 1 > maxRenewals then t.(renewals := t.renewals + 1, lost := true, cleared := true)
    else if now < t.expiresAt then t.(renewals := t.renewals + 1, expiresAt := now + leaseMs)
    else t.(renewals := t.renewals + 1, lost := true)
  }

  function After(leaseMs: int, maxRenewals: int, ticks: seq<int>): Timer {
    if ticks == [] then Start(leaseMs)
    else Tick(After(leaseMs, maxRenewals, ticks[..|ticks| - 1]), leaseMs, maxRenewals, ticks[|ticks| - 1])
  }

  class LeaseTimer {
    var renewals: nat
    var lost: bool
    var cleared: bool
    var expiresAt: int

    ghost function View(): Timer
      reads this
    {
      Timer(renewals, lost, cleared, expiresAt)
    }

    constructor (leaseMs: int)
      ensures View() == Start(leaseMs)
    {
      renewals, lost, cleared, expiresAt := 0, false, false, leaseMs;
    }

    /** The interval callback. */
    method OnTick(leaseMs: int, maxRenewals: int, now: int)
      modifies this
      ensures View() == Tick(old(View()), leaseMs, maxRenewals, now)
    {
      if cleared { return; }
      renewals := renewals + 1;
      if renewals > maxRenewals {
        cleared := true;
        lost := true;
        return;
      }
      var renewed := now < expiresAt;
      if renewed { expiresAt := now + leaseMs; } else { lost := true; }
    }
  }

  // ----- punctual ticks -----

  function OnTime(interval: int, n: nat): (ticks: seq<int>)
    ensures |ticks| == n && forall k | 0 <= k < n :: ticks[k] == (k + 1) * interval
  {
    seq(n, k requires 0 <= k < n => (k + 1) * interval)
  }

  /** After `n` punctual ticks the lease runs to the last renewal plus its length; the cap tick flags it lost. */
  lemma {:induction false} PunctualTicks(leaseMs: int, maxRenewals: int, interval: int, n: nat)
    requires 0 < interval < leaseMs && maxRenewals >= 1
    ensures var t := After(leaseMs, maxRenewals, OnTime(interval, n));
            && t.expiresAt == Min(n, maxRenewals) * interval + leaseMs
            && t.renewals == Min(n, maxRenewals + 1) && (t.lost <==> n > maxRenewals) && (t.cleared <==> n > maxRenewals)
  {
    if n > 0 {
      PunctualTicks(leaseMs, maxRenewals, interval, n - 1);
      assert OnTime(interval, n)[..n - 1] == OnTime(interval, n - 1);
      assert n * interval == (n - 1) * interval + interval;
    }
  }

  /** Does a punctual holder have the lease at `time`, all ticks up to then done? */
  predicate Live(leaseMs: int, maxRenewals: int, interval: int, time: nat)
    requires interval > 0
  {
    time < After(leaseMs, maxRenewals, OnTime(interval, time / interval)).expiresAt
  }

  lemma Quotient(time: nat, interval: int)
    requires interval > 0
    ensures time / interval * interval <= time < time / interval * interval + interval
  {
  }

  lemma BeforeTheEnd(time: int, done: int, all: int, interval: int, leaseMs: int)
    requires done <= time < done + interval && done <= all && interval < leaseMs
    ensures time < done + leaseMs && time < all + leaseMs
  {
  }

  /** A punctual holder has the lease without a gap from the acquire until the last renewal runs out, and then never again. */
  lemma HeldWithoutAGap(leaseMs: int, maxRenewals: int, interval: int, time: nat)
    requires 0 < interval < leaseMs && maxRenewals >= 1
    ensures Live(leaseMs, maxRenewals, interval, time) <==> time < maxRenewals * interval + leaseMs
  {
    var n := time / interval;
    Quotient(time, interval);
    PunctualTicks(leaseMs, maxRenewals, interval, n);
    if n <= maxRenewals {
      MulMono(n, maxRenewals, interval);
      BeforeTheEnd(time, n * interval, maxRenewals * interval, interval, leaseMs);
    }
  }

  /** A tick comes before the lease runs out exactly for leases above ten milliseconds. */
  lemma TicksBeatTheLeaseIff(leaseMs: int)
    requires leaseMs >= 1
    ensures Interval(leaseMs) < leaseMs <==> leaseMs > 10
  {
  }

  lemma AsReal(m: int, i: int)
    ensures (m * i) as real == m as real * i as real
  {
  }

  lemma LiveSpan(time: int, deadlineMs: real, readMs: real, end: int, i: int, leaseMs: int, live: bool)
    requires deadlineMs <= end as real < deadlineMs + i as real
    requires live <==> time < end + leaseMs
    ensures time as real <= readMs + deadlineMs && readMs < leaseMs as real ==> live
    ensures time as real >= deadlineMs + i as real + leaseMs as real ==> !live
  {
  }

  lemma CapEnd(leaseMs: int, deadlineMs: real) returns (end: int)
    requires deadlineMs > 0.0
    ensures end == MaxRenewals(leaseMs, deadlineMs) * Interval(leaseMs)
    ensures deadlineMs <= end as real < deadlineMs + Interval(leaseMs) as real
  {
    RenewalsCoverTheDeadline(leaseMs, deadlineMs);
    AsReal(MaxRenewals(leaseMs, deadlineMs), Interval(leaseMs));
    end := MaxRenewals(leaseMs, deadlineMs) * Interval(leaseMs);
  }

  /**
   * The lease outlives the deadline, which starts only after a dedup read that
   * takes less than a lease, and it is claimable less than an interval and a
   * lease after a deadline that had started at once.
   */
  lemma SeatIsBounded(leaseMs: int, deadlineMs: real, readMs: real, time: nat)
    requires leaseMs > 10 && deadlineMs > 0.0
    ensures var i, m := Interval(leaseMs), MaxRenewals(leaseMs, deadlineMs);
            && (time as real <= readMs + deadlineMs && readMs < leaseMs as real ==> Live(leaseMs, m, i, time))
            && (time as real >= deadlineMs + i as real + leaseMs as real ==> !Live(leaseMs, m, i, time))
  {
    var i, m := Interval(leaseMs), MaxRenewals(leaseMs, deadlineMs);
    var end := CapEnd(leaseMs, deadlineMs);
    HeldWithoutAGap(leaseMs, m, i, time);
    LiveSpan(time, deadlineMs, readMs, end, i, leaseMs, Live(leaseMs, m, i, time));
  }

  // ----- the deadline starts a little later -----

  /**
   * The deadline is measured from after the dedup read, the ticks from the
   * acquire. The cap tick still comes after the deadline when that read takes
   * less than one interval, and for a deadline of whole intervals only then.
   */
  lemma CapTickFollowsDeadline(leaseMs: int, deadlineMs: real, readMs: real)
    requires deadlineMs > 0.0 && readMs >= 0.0
    ensures var i, m := Interval(leaseMs) as real, MaxRenewals(leaseMs, deadlineMs) as real;
            && (readMs < i ==> readMs + deadlineMs < (m + 1.0) * i)
            && (deadlineMs == m * i ==> (readMs + deadlineMs < (m + 1.0) * i <==> readMs < i))
  {
    RenewalsCoverTheDeadline(leaseMs, deadlineMs);
    var i, m := Interval(leaseMs) as real, MaxRenewals(leaseMs, deadlineMs) as real;
    assert (m + 1.0) * i == m * i + i;
  }

  // ----- ticks at any time -----

  predicate Renews(t: Timer, maxRenewals: int, now: int) {
    !t.cleared && t.renewals + 1 <= maxRenewals && now < t.expiresAt
  }

  /** When the last tick that renewed came; 0, the acquire, when none did. */
  function LastRenewed(leaseMs: int, maxRenewals: int, ticks: seq<int>): int {
    if ticks == [] then 0
    else
      var front, last := ticks[..|ticks| - 1], ticks[|ticks| - 1];
      if Renews(After(leaseMs, maxRenewals, front), maxRenewals, last) then last else LastRenewed(leaseMs, maxRenewals, front)
  }

  /** Whatever its ticks, a holder has the lease until one lease length after the last that renewed, and that is bounded too. */
  lemma {:induction false} AnyScheduleIsBounded(leaseMs: int, maxRenewals: int, ticks: seq<int>)
    requires leaseMs >= 1 && maxRenewals >= 0
    ensures var t := After(leaseMs, maxRenewals, ticks);
            && t.expiresAt == LastRenewed(leaseMs, maxRenewals, ticks) + leaseMs
            && t.expiresAt <= (Min(t.renewals, maxRenewals) + 1) * leaseMs
  {
    if ticks != [] {
      AnyScheduleIsBounded(leaseMs, maxRenewals, ticks[..|ticks| - 1]);
      var t := After(leaseMs, maxRenewals, ticks[..|ticks| - 1]);
      assert (t.renewals + 2) * leaseMs == (t.renewals + 1) * leaseMs + leaseMs;
    }
  }

  /**
   * The bound for punctual ticks holds for a schedule exactly when its last
   * renewing tick comes before the deadline and one interval.
   */
  lemma BoundHoldsIff(leaseMs: int, deadlineMs: real, ticks: seq<int>)
    requires leaseMs >= 1 && deadlineMs > 0.0
    ensures var i, m := Interval(leaseMs) as real, MaxRenewals(leaseMs, deadlineMs);
            After(leaseMs, m, ticks).expiresAt as real < deadlineMs + i + leaseMs as real
            <==> LastRenewed(leaseMs, m, ticks) as real < deadlineMs + i
  {
    AnyScheduleIsBounded(leaseMs, MaxRenewals(leaseMs, deadlineMs), ticks);
  }

  predicate InOrder(ticks: seq<int>) {
    forall j, k | 0 <= j < k < |ticks| :: ticks[j] <= ticks[k]
  }

  function Before(ticks: seq<int>, k: nat): int
    requires k <= |ticks|
  {
    if k == 0 then 0 else ticks[k - 1]
  }

  predicate Close(leaseMs: int, ticks: seq<int>, j: nat)
    requires j < |ticks|
  {
    ticks[j] < Before(ticks, j) + leaseMs
  }

  /** Up to tick `k` no two ticks, the acquire counting as one, are a lease length apart. */
  predicate Gapless(leaseMs: int, ticks: seq<int>, k: nat)
    requires k < |ticks|
  {
    forall j: nat | j <= k :: Close(leaseMs, ticks, j)
  }

  lemma GaplessStays(leaseMs: int, ticks: seq<int>, k: nat)
    requires k < |ticks| - 1
    ensures Gapless(leaseMs, ticks, k) <==> Gapless(leaseMs, ticks[..|ticks| - 1], k)
  {
    var front := ticks[..|ticks| - 1];
    forall j: nat | j <= k ensures Close(leaseMs, ticks, j) <==> Close(leaseMs, front, j) {
      assert Before(ticks, j) == Before(front, j) && ticks[j] == front[j];
    }
  }

  lemma GaplessMore(leaseMs: int, ticks: seq<int>)
    requires ticks != []
    ensures var n := |ticks| - 1;
            Gapless(leaseMs, ticks, n) <==>
            (n > 0 ==> Gapless(leaseMs, ticks[..n], n - 1)) && ticks[n] < (if n == 0 then 0 else ticks[..n][n - 1]) + leaseMs
  {
    var n := |ticks| - 1;
    assert Close(leaseMs, ticks, n) <==> ticks[n] < Before(ticks, n) + leaseMs;
    if n > 0 {
      GaplessStays(leaseMs, ticks, n - 1);
      assert Gapless(leaseMs, ticks, n) <==> Gapless(leaseMs, ticks, n - 1) && Close(leaseMs, ticks, n);
    }
  }

  /** The ticks that renew are the first ones, up to the cap or the first gap. */
  lemma {:induction false} RenewingTicks(leaseMs: int, maxRenewals: int, ticks: seq<int>)
    requires leaseMs >= 1 && maxRenewals >= 0 && InOrder(ticks)
    ensures var t, n := After(leaseMs, maxRenewals, ticks), |ticks|;
            && (n <= maxRenewals ==> t.renewals == n && !t.cleared)
            && (n > maxRenewals ==> t.cleared)
            && (0 < n <= maxRenewals ==>
                  if Gapless(leaseMs, ticks, n - 1) then t.expiresAt == ticks[n - 1] + leaseMs else t.expiresAt <= ticks[n - 1])
  {
    if ticks != [] {
      var n := |ticks| - 1;
      var front := ticks[..n];
      RenewingTicks(leaseMs, maxRenewals, front);
      GaplessMore(leaseMs, ticks);
    }
  }

  /** A tick renews exactly when it is within the cap and no gap came before it. */
  lemma RenewsIff(leaseMs: int, maxRenewals: int, ticks: seq<int>)
    requires leaseMs >= 1 && maxRenewals >= 0 && InOrder(ticks) && ticks != []
    ensures var n := |ticks| - 1;
            Renews(After(leaseMs, maxRenewals, ticks[..n]), maxRenewals, ticks[n]) <==> n < maxRenewals && Gapless(leaseMs, ticks, n)
  {
    var n := |ticks| - 1;
    var front := ticks[..n];
    RenewingTicks(leaseMs, maxRenewals, front);
    GaplessMore(leaseMs, ticks);
  }

  /** No tick that the cap and the gaps before it let through comes as late as `bound`. */
  ghost predicate NoneTooLate(leaseMs: int, maxRenewals: int, ticks: seq<int>, bound: real) {
    forall k: nat | k < |ticks| && k < maxRenewals && Gapless(leaseMs, ticks, k) :: ticks[k] as real < bound
  }

  lemma OneMoreTick(leaseMs: int, maxRenewals: int, ticks: seq<int>, bound: real)
    requires ticks != []
    ensures var n := |ticks| - 1;
            NoneTooLate(leaseMs, maxRenewals, ticks, bound) <==>
            && NoneTooLate(leaseMs, maxRenewals, ticks[..n], bound)
            && (n < maxRenewals && Gapless(leaseMs, ticks, n) ==> ticks[n] as real < bound)
  {
    var n := |ticks| - 1;
    var front := ticks[..n];
    forall k: nat | k < n ensures Gapless(leaseMs, ticks, k) <==> Gapless(leaseMs, front, k) {
      GaplessStays(leaseMs, ticks, k);
    }
  }

  lemma {:induction false} LastRenewedIsEarlyIff(leaseMs: int, maxRenewals: int, ticks: seq<int>, bound: real)
    requires leaseMs >= 1 && maxRenewals >= 0 && InOrder(ticks) && bound > 0.0
    ensures LastRenewed(leaseMs, maxRenewals, ticks) as real < bound <==> NoneTooLate(leaseMs, maxRenewals, ticks, bound)
  {
    if ticks != [] {
      var n := |ticks| - 1;
      LastRenewedIsEarlyIff(leaseMs, maxRenewals, ticks[..n], bound);
      RenewsIff(leaseMs, maxRenewals, ticks);
      OneMoreTick(leaseMs, maxRenewals, ticks, bound);
      if ticks[n] as real < bound {
        assert NoneTooLate(leaseMs, maxRenewals, ticks[..n], bound) by {
          assert forall k | 0 <= k < n :: ticks[..n][k] <= ticks[n];
        }
      }
    }
  }

  /** The same, read off the schedule: the bound fails exactly when a tick within the cap, with no gap before it, is too late. */
  lemma ScheduleKeepsBoundIff(leaseMs: int, deadlineMs: real, ticks: seq<int>)
    requires leaseMs >= 1 && deadlineMs > 0.0 && InOrder(ticks)
    ensures var i, m := Interval(leaseMs) as real, MaxRenewals(leaseMs, deadlineMs);
            After(leaseMs, m, ticks).expiresAt as real < deadlineMs + i + leaseMs as real
            <==> NoneTooLate(leaseMs, m, ticks, deadlineMs + i)
  {
    BoundHoldsIff(leaseMs, deadlineMs, ticks);
    LastRenewedIsEarlyIff(leaseMs, MaxRenewals(leaseMs, deadlineMs), ticks, deadlineMs + Interval(leaseMs) as real);
  }

  /** Ticks that come late, but before the lease runs out, stretch it far past the bound for punctual ones. */
  lemma LateTicksStretchTheLease()
    ensures Interval(30_000) == 10_000 && MaxRenewals(30_000, 30_000.0) == 3
    ensures After(30_000, 3, [29_000, 58_000, 87_000]).expiresAt == 117_000
    ensures 117_000.0 > 30_000.0 + 10_000.0 + 30_000.0
  {
    var q := 30_000.0 / 10_000.0;
    assert q == 3.0;
    assert Ceil(q) == 3;
    assert [29_000, 58_000, 87_000][..2] == [29_000, 58_000];
    assert [29_000, 58_000][..1] == [29_000];
    assert [29_000][..0] == [];
    assert After(30_000, 3, [29_000]) == Timer(1, false, false, 59_000);
    assert After(30_000, 3, [29_000, 58_000]) == Timer(2, false, false, 88_000);
  }
}
