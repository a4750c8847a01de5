/**
 Bounded retry (crates/listener/src/retry.rs). Times are nanoseconds. How long each attempt takes and
 how it ends, the random draws, how late a sleep wakes and whether it is cancelled are all arbitrary.
 */
module Retry {

  const MS: nat := 1_000_000
  const U64_MAX: nat := 0xffff_ffff_ffff_ffff
  const BACKOFF_START: nat := 1000 * MS
  const BACKOFF_MAX: nat := 60_000 * MS
  const HALF_SECOND: nat := 500 * MS

  function Min(a: nat, b: nat): nat {
    if a < b then a else b
  }

  // -------------------------------------------------------------------------- backoff

  /** `half_ms`: half the backoff in whole milliseconds. */
  function HalfMs(d: nat): nat {
    Min((d / MS) / 2, U64_MAX)
  }

  /** `jittered_backoff` with the random draw `draw`. */
  function Jittered(d: nat, draw: nat): nat
    requires HalfMs(d) > 0 ==> draw < HalfMs(d)
  {
    if HalfMs(d) == 0 then d else Min(HalfMs(d) + draw, U64_MAX) * MS
  }

  /** A draw below `bound`: every such draw is its own `raw`. */
  function Drawn(raw: nat, bound: nat): (draw: nat)
    requires bound > 0
    ensures draw < bound
  {
    if raw < bound then raw else bound - 1
  }

  ghost predicate InRange(d: nat, draw: nat)
    requires HalfMs(d) > 0 ==> draw < HalfMs(d)
  {
    d <= 2 * Jittered(d, draw) && Jittered(d, draw) < d
  }

  lemma EvenMs(d: nat)
    ensures d % (2 * MS) == 0 <==> d == 2 * (d / MS / 2) * MS
  {
    var h := d / MS / 2;
    assert d / (2 * MS) == h;
  }

  /** The documented range [d/2, d) holds for every draw exactly when `d` is a nonzero whole number of
      two-millisecond units, of which there are no more than a u64 counts. */
  lemma JitterRangeIff(d: nat)
    ensures (forall draw: nat :: (HalfMs(d) > 0 ==> draw < HalfMs(d)) ==> InRange(d, draw))
       <==> d > 0 && d % (2 * MS) == 0 && d / MS <= 2 * U64_MAX
  {
    var h := HalfMs(d);
    EvenMs(d);
    if h == 0 {
      assert !InRange(d, 0);
    } else {
      assert Jittered(d, 0) == h * MS;
      assert !InRange(d, 0) || d == 2 * h * MS;
      if d == 2 * h * MS {
        forall draw: nat | draw < h ensures InRange(d, draw) {
        }
      }
    }
  }

  /** Every whole number of milliseconds in that range is drawn by some draw. */
  lemma JitterReachesAll(d: nat, m: nat) returns (draw: nat)
    requires d > 0 && d % (2 * MS) == 0 && d / MS <= U64_MAX && d <= 2 * (m * MS) && m * MS < d
    ensures HalfMs(d) > 0 && draw < HalfMs(d) && Jittered(d, draw) == m * MS
  {
    EvenMs(d);
    draw := m - HalfMs(d);
  }

  // ---------------------------------------------------------------------------- the world

  datatype Outcome<T> = Value(value: T) | Network(message: string) | Other(message: string)

  datatype Verdict<T> = Returned(value: T) | Failed(message: string, network: bool)

  /** What the n-th attempt and the n-th sleep meet with. */
  datatype World<!T> = World(
    duration: nat -> nat,
    outcome: nat -> Outcome<T>,
    draw: nat -> nat,
    late: nat -> nat,
    cancelled: nat -> bool,
    cancelledAfter: nat -> nat)

  // ------------------------------------------------------------------------- the timeline

  /** The backoff before the n-th retry: doubled each time up to a minute. */
  function BackoffAt(n: nat): (b: nat)
    ensures BACKOFF_START <= b <= BACKOFF_MAX
  {
    if n == 0 then BACKOFF_START else Min(2 * BackoffAt(n - 1), BACKOFF_MAX)
  }

  function Pow2(n: nat): nat {
    if n == 0 then 1 else 2 * Pow2(n - 1)
  }

  /** One second, doubled each time, up to sixty. */
  lemma {:induction false} BackoffIs(n: nat)
    ensures BackoffAt(n) == Min(Pow2(n) * 1_000_000_000, 60_000_000_000)
  {
    if n > 0 {
      BackoffIs(n - 1);
    }
  }

  /** How long a sleep is chosen, from the backoff and a random draw. */
  type Jitter = (nat, nat) -> nat

  /** No backoff in use gives less than half a second. */
  ghost predicate HalfAtLeast(jitter: Jitter) {
    forall b, raw :: BACKOFF_START <= b <= BACKOFF_MAX ==> jitter(b, raw) >= HALF_SECOND
  }

  function Left(budget: nat, elapsed: nat): nat {
    if elapsed < budget then budget - elapsed else 0
  }

  /** The sleep after the n-th attempt, if that ended at `elapsed`: capped to what remains of the budget. */
  function SleepAfter<T>(w: World<T>, jitter: Jitter, budget: nat, n: nat, elapsed: nat): nat {
    Min(jitter(BackoffAt(n), w.draw(n)), Left(budget, elapsed))
  }

  /** When the n-th attempt starts, after all attempts and sleeps before it. */
  function StartOf<T>(w: World<T>, jitter: Jitter, budget: nat, n: nat): nat {
    if n == 0 then 0
    else
      var elapsed := StartOf(w, jitter, budget, n - 1) + w.duration(n - 1);
      elapsed + SleepAfter(w, jitter, budget, n - 1, elapsed) + w.late(n - 1)
  }

  /** When it ends. */
  function EndOf<T>(w: World<T>, jitter: Jitter, budget: nat, n: nat): nat {
    StartOf(w, jitter, budget, n) + w.duration(n)
  }

  function SleepOf<T>(w: World<T>, jitter: Jitter, budget: nat, n: nat): nat {
    SleepAfter(w, jitter, budget, n, EndOf(w, jitter, budget, n))
  }

  /** What the first `n` sleeps ask for in all. */
  function SleepTotal<T>(w: World<T>, jitter: Jitter, budget: nat, n: nat): nat {
    if n == 0 then 0 else SleepTotal(w, jitter, budget, n - 1) + SleepOf(w, jitter, budget, n - 1)
  }

  /** The n-th attempt is followed by another: it failed on the network within the budget, and the sleep
      was not cancelled. */
  predicate Retries<T>(w: World<T>, jitter: Jitter, budget: nat, n: nat) {
    w.outcome(n).Network? && EndOf(w, jitter, budget, n) < budget && !w.cancelled(n)
  }

  /** So is each of the first `n`. */
  ghost predicate AllRetry<T>(w: World<T>, jitter: Jitter, budget: nat, n: nat) {
    n == 0 || (AllRetry(w, jitter, budget, n - 1) && Retries(w, jitter, budget, n - 1))
  }

  lemma {:induction false} OnlyNetworkFailuresRetry<T>(w: World<T>, jitter: Jitter, budget: nat, n: nat)
    requires AllRetry(w, jitter, budget, n)
    ensures forall i :: 0 <= i < n ==> w.outcome(i).Network? && !w.cancelled(i)
  {
    if n > 0 {
      OnlyNetworkFailuresRetry(w, jitter, budget, n - 1);
    }
  }

  lemma StartStep<T>(w: World<T>, jitter: Jitter, budget: nat, n: nat)
    ensures StartOf(w, jitter, budget, n + 1) == EndOf(w, jitter, budget, n) + SleepOf(w, jitter, budget, n) + w.late(n)
  {
  }

  /** Every sleep but a capped one lasts half a second, and a capped one uses the budget up. */
  lemma {:induction false} Spacing<T>(w: World<T>, jitter: Jitter, budget: nat, n: nat)
    requires AllRetry(w, jitter, budget, n) && HalfAtLeast(jitter)
    ensures StartOf(w, jitter, budget, n) >= budget || StartOf(w, jitter, budget, n) >= n * HALF_SECOND
  {
    if n > 0 {
      Spacing(w, jitter, budget, n - 1);
      StartStep(w, jitter, budget, n - 1);
    }
  }

  /** At most budget / 500 ms + 2 attempts. */
  lemma AttemptsAreBounded<T>(w: World<T>, jitter: Jitter, budget: nat, n: nat)
    requires AllRetry(w, jitter, budget, n) && HalfAtLeast(jitter)
    ensures n + 1 <= budget / HALF_SECOND + 2
  {
    if n > 0 {
      Spacing(w, jitter, budget, n - 1);
      WholeHalves(n - 1, budget);
    }
  }

  lemma WholeHalves(n: nat, budget: nat)
    requires n * HALF_SECOND < budget
    ensures n <= budget / HALF_SECOND
  {
  }

  /** Every attempt starts within the budget, but for how late the sleep before it woke. */
  lemma StartsWithinBudget<T>(w: World<T>, jitter: Jitter, budget: nat, n: nat)
    requires AllRetry(w, jitter, budget, n)
    ensures StartOf(w, jitter, budget, n) <= budget + if n == 0 then 0 else w.late(n - 1)
  {
    if n > 0 {
      StartStep(w, jitter, budget, n - 1);
    }
  }

  /** Sleeps never ask for more than the budget in all. */
  lemma {:induction false} SleepsStayWithinBudget<T>(w: World<T>, jitter: Jitter, budget: nat, n: nat)
    requires AllRetry(w, jitter, budget, n)
    ensures SleepTotal(w, jitter, budget, n) <= StartOf(w, jitter, budget, n)
    ensures SleepTotal(w, jitter, budget, n) <= budget
  {
    if n > 0 {
      SleepsStayWithinBudget(w, jitter, budget, n - 1);
      StartStep(w, jitter, budget, n - 1);
    }
  }

  // ----------------------------------------------------------------------------- the loop

  function VerdictOf<T>(outcome: Outcome<T>): Verdict<T> {
    match outcome
    case Value(v) => Returned(v)
    case Network(m) => Failed(m, true)
    case Other(m) => Failed(m, false)
  }

  /** Whether the n-th attempt, ended within the budget by a network failure, is followed by a cancelled sleep. */
  predicate Interrupted<T>(w: World<T>, jitter: Jitter, budget: nat, n: nat) {
    w.outcome(n).Network? && EndOf(w, jitter, budget, n) < budget && w.cancelled(n)
  }

  /** How a call goes: exactly the attempts that call for it are followed by another; the last one's outcome
      is returned, when it ends or when the sleep after it is cancelled. */
  ghost predicate Goes<T>(w: World<T>, jitter: Jitter, budget: nat, r: Verdict<T>, n: nat, end: nat) {
    && AllRetry(w, jitter, budget, n) && !Retries(w, jitter, budget, n)
    && r == VerdictOf(w.outcome(n))
    && end == EndOf(w, jitter, budget, n)
              + if Interrupted(w, jitter, budget, n) then Min(w.cancelledAfter(n), SleepOf(w, jitter, budget, n)) else 0
  }

  datatype Stage<T> = Ended(r: Verdict<T>, end: nat) | Slept(now: nat)

  lemma SleepIsPositive<T>(w: World<T>, jitter: Jitter, budget: nat, n: nat)
    requires HalfAtLeast(jitter) && EndOf(w, jitter, budget, n) < budget
    ensures SleepOf(w, jitter, budget, n) > 0
  {
  }

  /** One turn of the loop: an attempt, and the sleep after it unless it was the last. */
  method Attempt<T>(w: World<T>, jitter: Jitter, budget: nat, n: nat, now: nat, backoff: nat) returns (s: Stage<T>)
    requires HalfAtLeast(jitter) && AllRetry(w, jitter, budget, n)
    requires now == StartOf(w, jitter, budget, n) && backoff == BackoffAt(n)
    ensures s.Ended? ==> Goes(w, jitter, budget, s.r, n, s.end)
    ensures s.Slept? ==> s.now == StartOf(w, jitter, budget, n + 1) && AllRetry(w, jitter, budget, n + 1)
    ensures s.Slept? ==> Left(budget, s.now) < Left(budget, now)
  {
    var elapsed := now + w.duration(n);
    if !w.outcome(n).Network? || elapsed >= budget {
      return Ended(VerdictOf(w.outcome(n)), elapsed);
    }
    var sleep := Min(jitter(backoff, w.draw(n)), budget - elapsed);
    assert sleep == SleepOf(w, jitter, budget, n);
    if w.cancelled(n) {
      return Ended(VerdictOf(w.outcome(n)), elapsed + Min(w.cancelledAfter(n), sleep));
    }
    StartStep(w, jitter, budget, n);
    SleepIsPositive(w, jitter, budget, n);
    s := Slept(elapsed + sleep + w.late(n));
  }

  /**
   `retry_transient` with its way of choosing a sleep. The n-th sleep wakes `late(n)` after it was due, or
   is cancelled after `cancelledAfter(n)`.
   */
  method RetryWith<T>(w: World<T>, jitter: Jitter, budget: nat) returns (r: Verdict<T>, n: nat, end: nat)
    requires HalfAtLeast(jitter)
    ensures Goes(w, jitter, budget, r, n, end)
  {
    var now, backoff := 0, BACKOFF_START;
    n := 0;
    while true
      invariant now == StartOf(w, jitter, budget, n) && backoff == BackoffAt(n) && AllRetry(w, jitter, budget, n)
      decreases Left(budget, now)
    {
      var stage := Attempt(w, jitter, budget, n, now, backoff);
      if stage.Ended? {
        return stage.r, n, stage.end;
      }
      now, n, backoff := stage.now, n + 1, Min(2 * backoff, BACKOFF_MAX);
    }
  }

  /** The code's own choice: `jittered_backoff` with any draw. */
  function Jitters(backoff: nat, raw: nat): nat {
    if HalfMs(backoff) == 0 then backoff else Jittered(backoff, Drawn(raw, HalfMs(backoff)))
  }

  lemma JittersAtLeastHalf()
    ensures HalfAtLeast(Jitters)
  {
    forall b, raw | BACKOFF_START <= b <= BACKOFF_MAX ensures Jitters(b, raw) >= HALF_SECOND {
      assert HalfMs(b) >= 500;
    }
  }

  /** `retry_transient`: at most budget / 500 ms + 2 attempts, and sleeps within the budget in all. */
  method RetryTransient<T>(w: World<T>, budget: nat) returns (r: Verdict<T>, n: nat, end: nat)
    ensures Goes(w, Jitters, budget, r, n, end)
    ensures forall i :: 0 <= i < n ==> w.outcome(i).Network? && !w.cancelled(i)
    ensures w.outcome(n).Value? ==> r == Returned(w.outcome(n).value)
    ensures !w.outcome(n).Value? ==> r == Failed(w.outcome(n).message, w.outcome(n).Network?)
    ensures n + 1 <= budget / HALF_SECOND + 2 && SleepTotal(w, Jitters, budget, n) <= budget
  {
    JittersAtLeastHalf();
    r, n, end := RetryWith(w, Jitters, budget);
    OnlyNetworkFailuresRetry(w, Jitters, budget, n);
    AttemptsAreBounded(w, Jitters, budget, n);
    SleepsStayWithinBudget(w, Jitters, budget, n);
  }

  /** Wall time exceeds the budget by at most the last attempt, and the lateness of the sleep before it. */
  lemma OvershootIsOneAttempt<T>(w: World<T>, jitter: Jitter, budget: nat, r: Verdict<T>, n: nat, end: nat)
    requires Goes(w, jitter, budget, r, n, end)
    ensures end <= budget + (if n == 0 then 0 else w.late(n - 1)) + w.duration(n)
  {
    StartsWithinBudget(w, jitter, budget, n);
  }
}
