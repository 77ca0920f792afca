/**
 Activities with retry: the backoff strategies and the two retry loops. Durations are counted in
 nanoseconds; the floating-point multiplier is modelled as a real.
 */
module Retry {
  import opened Common

  const U64_MAX: nat := 0xFFFF_FFFF_FFFF_FFFF
  const U128_MAX: nat := 0xFFFF_FFFF_FFFF_FFFF_FFFF_FFFF_FFFF_FFFF
  const DURATION_MAX: nat := U64_MAX * 1_000_000_000 + 999_999_999
  const TWO_31: nat := 0x8000_0000
  const TWO_32: nat := 0x1_0000_0000

  datatype Backoff =
    | NoBackoff
    | Fixed(delay: nat)
    | Linear(base: nat, max: nat)
    | Exponential(base: nat, multiplier: real, max: nat)

  datatype Policy = Policy(maxAttempts: nat, backoff: Backoff, timeout: Option<nat>)

  function Min(a: nat, b: nat): nat {
    if a <= b then a else b
  }

  function Pow(x: real, n: nat): real {
    if n == 0 then 1.0 else x * Pow(x, n - 1)
  }

  /** The cast of an unsigned 32-bit number to a signed one wraps around. */
  function AsI32(n: nat): int
    requires n < TWO_32
  {
    if n < TWO_31 then n else n - TWO_32
  }

  /** The cast of a float to u128 truncates, and saturates at both ends. */
  function AsU128(x: real): nat {
    if x < 0.0 then 0 else Min(x.Floor, U128_MAX)
  }

  /** base times multiplier to a signed power, cast to nanoseconds; an infinite factor saturates. */
  function ScaledNanos(base: nat, multiplier: real, exponent: int): nat {
    if exponent >= 0 then AsU128(base as real * Pow(multiplier, exponent))
    else if Pow(multiplier, -exponent) == 0.0 then (if base == 0 then 0 else U128_MAX)
    else AsU128(base as real * (1.0 / Pow(multiplier, -exponent)))
  }

  function DelayForAttempt(b: Backoff, attempt: nat): nat
    requires attempt < TWO_32
  {
    match b
    case NoBackoff => 0
    case Fixed(delay) => delay
    case Linear(base, max) => Min(Min(base * attempt, DURATION_MAX), max)
    case Exponential(base, multiplier, max) =>
      Min(Min(ScaledNanos(base, multiplier, AsI32(if attempt > 0 then attempt - 1 else 0)), U64_MAX), max)
  }

  // ---------------------------------------------------------------- how delays grow

  lemma {:induction false} PowGrows(x: real, m: nat, n: nat)
    requires x >= 1.0 && m <= n
    ensures 1.0 <= Pow(x, m) <= Pow(x, n)
  {
    if n == 0 {
    } else if m == n {
      PowGrows(x, n - 1, n - 1);
    } else {
      PowGrows(x, m, n - 1);
    }
  }

  lemma CastIsMonotone(x: real, y: real)
    requires x <= y
    ensures AsU128(x) <= AsU128(y)
  {
  }

  lemma ScaleIsMonotone(base: nat, x: real, y: real)
    requires x <= y
    ensures base as real * x <= base as real * y
  {
  }

  /** Delays never shrink from one attempt to a later one, up to attempt 2^31. */
  lemma DelaysDoNotDecrease(b: Backoff, a: nat, c: nat)
    requires 1 <= a <= c <= TWO_31
    requires b.Exponential? ==> b.multiplier >= 1.0
    ensures DelayForAttempt(b, a) <= DelayForAttempt(b, c)
  {
    match b
    case NoBackoff =>
    case Fixed(_) =>
    case Linear(base, max) => ProductIsMonotone(base, a, c);
    case Exponential(base, multiplier, max) => ScaledNanosGrow(base, multiplier, a - 1, c - 1);
  }

  lemma ProductIsMonotone(base: nat, a: nat, c: nat)
    requires a <= c
    ensures base * a <= base * c
  {
  }

  lemma ScaledNanosGrow(base: nat, multiplier: real, m: nat, n: nat)
    requires multiplier >= 1.0 && m <= n
    ensures ScaledNanos(base, multiplier, m) <= ScaledNanos(base, multiplier, n)
  {
    PowGrows(multiplier, m, n);
    ScaleIsMonotone(base, Pow(multiplier, m), Pow(multiplier, n));
    CastIsMonotone(base as real * Pow(multiplier, m), base as real * Pow(multiplier, n));
  }

  /**
   The bound 2^31 is sharp: one attempt later the exponent wraps to a negative number, and every
   growing exponential backoff falls back to at most its first delay, here even to zero.
   */
  lemma DelayWrapsAfterTwo31(base: nat, multiplier: real, max: nat)
    requires multiplier > 1.0
    ensures DelayForAttempt(Exponential(base, multiplier, max), TWO_31 + 1)
         <= DelayForAttempt(Exponential(base, multiplier, max), 1)
    ensures DelayForAttempt(Exponential(1, multiplier, 10), TWO_31 + 1) == 0
    ensures DelayForAttempt(Exponential(1, multiplier, 10), 1) == 1
  {
    PowGrows(multiplier, 1, TWO_31);
    assert Pow(multiplier, 0) == 1.0 && Pow(multiplier, 1) == multiplier;
    var factor := 1.0 / Pow(multiplier, TWO_31);
    assert 0.0 < factor < 1.0;
    ScaleIsMonotone(base, factor, 1.0);
    CastIsMonotone(base as real * factor, base as real * 1.0);
    assert base as real * 1.0 == base as real;
    assert AsI32(TWO_31) == TWO_31 - TWO_32;
    assert ScaledNanos(base, multiplier, TWO_31 - TWO_32) == AsU128(base as real * factor);
    assert ScaledNanos(base, multiplier, 0) == AsU128(base as real * 1.0);
  }

  // ---------------------------------------------------------------- how long delays are

  /** Without a cap in the way, a linear delay is the base times the attempt; the cap cuts off the rest. */
  lemma LinearDelay(base: nat, max: nat, attempt: nat)
    requires attempt < TWO_32
    ensures var d := DelayForAttempt(Linear(base, max), attempt);
            && d <= max && (base * attempt <= max && base * attempt <= DURATION_MAX ==> d == base * attempt)
            && (max <= base * attempt && max <= DURATION_MAX ==> d == max)
  {
  }

  /**
   Exponential delays start with the base and, as long as no cap is reached, each is the multiplier
   times the one before, up to the rounding of both to whole nanoseconds; the cap cuts off the rest.
   */
  lemma ExponentialDelays(b: Backoff, attempt: nat)
    requires b.Exponential? && b.multiplier >= 1.0 && 1 <= attempt < TWO_31
    ensures DelayForAttempt(b, 1) == Min(Min(b.base, U64_MAX), b.max) && DelayForAttempt(b, attempt) <= b.max
    ensures var d, next := DelayForAttempt(b, attempt), DelayForAttempt(b, attempt + 1);
            next < b.max && next < U64_MAX ==>
              b.multiplier * d as real - 1.0 < next as real < b.multiplier * d as real + b.multiplier
  {
    hide Pow, DelayForAttempt, Capped;
    FirstDelay(b);
    var x, y := GrowthOfOne(b, attempt);
    DelayIsCapped(b, attempt, x);
    DelayIsCapped(b, attempt + 1, y);
    GrownDelay(b.multiplier, x, y, b.max);
  }

  lemma GrownDelay(m: real, x: real, y: real, max: nat)
    requires 0.0 <= x <= y && m >= 1.0 && y == m * x
    ensures Capped(x, max) <= max
    ensures var d, next := Capped(x, max), Capped(y, max);
            next < max && next < U64_MAX ==> m * d as real - 1.0 < next as real < m * d as real + m
  {
    var d, next := Capped(x, max), Capped(y, max);
    if next < max && next < U64_MAX {
      Uncapped(x, y, max);
      var md := m * d as real;
      hide Capped;
      RoundedGrowth(d as real, next as real, x, y, m, md);
    }
  }

  /** Before rounding, each delay is exactly the multiplier times the one before. */
  lemma GrowthOfOne(b: Backoff, attempt: nat) returns (x: real, y: real)
    requires b.Exponential? && b.multiplier >= 1.0 && 1 <= attempt
    ensures x == b.base as real * Pow(b.multiplier, attempt - 1) && y == b.base as real * Pow(b.multiplier, attempt)
    ensures 0.0 <= x <= y && y == b.multiplier * x
  {
    x, y := b.base as real * Pow(b.multiplier, attempt - 1), b.base as real * Pow(b.multiplier, attempt);
    PowGrows(b.multiplier, attempt - 1, attempt);
    ScaleIsMonotone(b.base, 0.0, Pow(b.multiplier, attempt - 1));
    ScaleIsMonotone(b.base, Pow(b.multiplier, attempt - 1), Pow(b.multiplier, attempt));
    assert Pow(b.multiplier, attempt) == b.multiplier * Pow(b.multiplier, attempt - 1);
    Reorder(b.base as real, b.multiplier, Pow(b.multiplier, attempt - 1), Pow(b.multiplier, attempt), x);
  }

  /** The first backoff is the base itself. */
  lemma FirstDelay(b: Backoff)
    requires b.Exponential?
    ensures DelayForAttempt(b, 1) == Min(Min(b.base, U64_MAX), b.max)
  {
    assert Pow(b.multiplier, 0) == 1.0 && b.base as real * 1.0 == b.base as real;
    assert ScaledNanos(b.base, b.multiplier, 0) == AsU128(b.base as real);
    assert (b.base as real).Floor == b.base;
  }

  function Capped(x: real, max: nat): nat {
    Min(Min(AsU128(x), U64_MAX), max)
  }

  lemma DelayIsCapped(b: Backoff, attempt: nat, x: real)
    requires b.Exponential? && 1 <= attempt <= TWO_31 && x == b.base as real * Pow(b.multiplier, attempt - 1)
    ensures DelayForAttempt(b, attempt) == Capped(x, b.max)
  {
  }

  lemma Reorder(b: real, m: real, x: real, mx: real, bx: real)
    requires mx == m * x && bx == b * x
    ensures b * mx == m * bx
  {
  }

  lemma Uncapped(x: real, y: real, max: nat)
    requires 0.0 <= x <= y && Capped(y, max) < max && Capped(y, max) < U64_MAX
    ensures Capped(y, max) as real <= y < Capped(y, max) as real + 1.0
    ensures Capped(x, max) as real <= x < Capped(x, max) as real + 1.0
  {
  }

  /** Rounding x and its m-fold y down to whole numbers d and e keeps their ratio up to the rounding. */
  lemma RoundedGrowth(d: real, e: real, x: real, y: real, m: real, md: real)
    requires m >= 1.0 && y == m * x && md == m * d && d <= x < d + 1.0 && e <= y < e + 1.0
    ensures md - 1.0 < e < md + m
  {
    Scaled(d, x, m, md, y);
    ScaledBelow(d, x, m, md, y);
  }

  lemma Scaled(x: real, y: real, m: real, mx: real, my: real)
    requires m >= 1.0 && x <= y && mx == m * x && my == m * y
    ensures mx <= my
  {
  }

  lemma ScaledBelow(d: real, x: real, m: real, md: real, mx: real)
    requires m >= 1.0 && x < d + 1.0 && md == m * d && mx == m * x
    ensures mx < md + m
  {
    var gap := d + 1.0 - x;
    assert m * gap > 0.0;
    assert m * gap == m * d + m - m * x;
  }

  // ---------------------------------------------------------------- the retry loops

  /** How an attempt ends: the activity's result, its error, or the timeout winning the race. */
  datatype Outcome = Succeeded(value: string) | Failed(error: string) | TimedOut

  datatype Scheduled =
    | ActivityCall(name: string, input: string, session: Option<string>)
    | TimeoutTimer(duration: nat)
    | BackoffTimer(duration: nat)

  const TIMEOUT_ERROR := "timeout: activity timed out"

  /**
   The loop stops after n attempts: all earlier ones failed, and the last succeeded, timed out or was
   the last allowed.
   */
  predicate StopsAfter(maxAttempts: nat, outcomes: seq<Outcome>, n: nat)
    requires maxAttempts <= |outcomes|
  {
    n <= maxAttempts
    && (forall k :: 0 <= k < n - 1 ==> outcomes[k].Failed?)
    && (n < maxAttempts ==> n > 0 && !outcomes[n - 1].Failed?)
  }

  function Answer(outcomes: seq<Outcome>, n: nat): Result<string, string>
    requires n <= |outcomes|
  {
    if n == 0 then Err("")
    else match outcomes[n - 1]
      case Succeeded(v) => Ok(v)
      case Failed(e) => Err(e)
      case TimedOut => Err(TIMEOUT_ERROR)
  }

  function Attempt(p: Policy, call: Scheduled): seq<Scheduled> {
    [call] + (if p.timeout.Some? then [TimeoutTimer(p.timeout.value)] else [])
  }

  function Pause(p: Policy, attempt: nat): seq<Scheduled>
    requires attempt < TWO_32
  {
    var delay := DelayForAttempt(p.backoff, attempt);
    if delay == 0 then [] else [BackoffTimer(delay)]
  }

  /** What n attempts schedule: a pause between neighbours, none at either end. */
  function TraceOf(p: Policy, call: Scheduled, n: nat): seq<Scheduled>
    requires n < TWO_32
  {
    if n == 0 then []
    else if n == 1 then Attempt(p, call)
    else TraceOf(p, call, n - 1) + Pause(p, n - 1) + Attempt(p, call)
  }

  /** The trace with the pause that follows it, unless every attempt was made. */
  function TraceAndPause(p: Policy, call: Scheduled, n: nat): seq<Scheduled>
    requires n < TWO_32
  {
    TraceOf(p, call, n) + (if 0 < n < p.maxAttempts then Pause(p, n) else [])
  }

  lemma OneMoreAttempt(p: Policy, call: Scheduled, n: nat)
    requires n < p.maxAttempts < TWO_32
    ensures TraceOf(p, call, n + 1) == TraceAndPause(p, call, n) + Attempt(p, call)
    ensures n + 1 < p.maxAttempts ==>
              var delay := DelayForAttempt(p.backoff, n + 1);
              TraceAndPause(p, call, n + 1)
                  == TraceOf(p, call, n + 1) + (if delay == 0 then [] else [BackoffTimer(delay)])
  {
  }

  lemma NoPauseAtEitherEnd(p: Policy, call: Scheduled)
    requires p.maxAttempts < TWO_32
    ensures TraceAndPause(p, call, 0) == []
    ensures TraceAndPause(p, call, p.maxAttempts) == TraceOf(p, call, p.maxAttempts)
  {
  }

  method ScheduleActivityWithRetry(name: string, input: string, p: Policy, outcomes: seq<Outcome>)
    returns (result: Result<string, string>, trace: seq<Scheduled>, attempts: nat)
    requires p.maxAttempts < TWO_32 && p.maxAttempts <= |outcomes|
    requires p.timeout.None? ==> forall k :: 0 <= k < |outcomes| ==> !outcomes[k].TimedOut?
    ensures StopsAfter(p.maxAttempts, outcomes, attempts)
    ensures result == Answer(outcomes, attempts)
    ensures trace == TraceOf(p, ActivityCall(name, input, None), attempts)
    ensures attempts == 0 ==> result == Err("")
    ensures attempts > 0 ==>
              match outcomes[attempts - 1]
              case Succeeded(value) => result == Ok(value)
              case Failed(error) => result == Err(error)
              case TimedOut => result == Err("timeout: activity timed out")
  {
    hide DelayForAttempt, Pause, TraceOf, TraceAndPause;
    var lastError := "";
    trace, attempts := [], 0;
    NoPauseAtEitherEnd(p, ActivityCall(name, input, None));
    for attempt := 1 to p.maxAttempts + 1
      invariant attempts == attempt - 1
      invariant forall k :: 0 <= k < attempts ==> outcomes[k].Failed?
      invariant attempts > 0 ==> lastError == outcomes[attempts - 1].error
      invariant attempts == 0 ==> lastError == ""
      invariant trace == TraceAndPause(p, ActivityCall(name, input, None), attempts)
    {
      ghost var before := trace;
      trace := trace + [ActivityCall(name, input, None)];
      if p.timeout.Some? {
        trace := trace + [TimeoutTimer(p.timeout.value)];
      }
      attempts := attempt;
      assert trace == before + Attempt(p, ActivityCall(name, input, None));
      OneMoreAttempt(p, ActivityCall(name, input, None), attempt - 1);
      match outcomes[attempt - 1]
      case TimedOut => return Err(TIMEOUT_ERROR), trace, attempts;
      case Succeeded(value) => return Ok(value), trace, attempts;
      case Failed(error) =>
        lastError := error;
        if attempt < p.maxAttempts {
          var delay := DelayForAttempt(p.backoff, attempt);
          if delay != 0 {
            trace := trace + [BackoffTimer(delay)];
          }
        }
    }
    result := Err(lastError);
  }

  method ScheduleActivityWithRetryOnSession(name: string, input: string, p: Policy, session: string,
      outcomes: seq<Outcome>)
    returns (result: Result<string, string>, trace: seq<Scheduled>, attempts: nat)
    requires p.maxAttempts < TWO_32 && p.maxAttempts <= |outcomes|
    requires p.timeout.None? ==> forall k :: 0 <= k < |outcomes| ==> !outcomes[k].TimedOut?
    ensures StopsAfter(p.maxAttempts, outcomes, attempts)
    ensures result == Answer(outcomes, attempts)
    ensures trace == TraceOf(p, ActivityCall(name, input, Some(session)), attempts)
    ensures attempts == 0 ==> result == Err("")
    ensures attempts > 0 ==>
              match outcomes[attempts - 1]
              case Succeeded(value) => result == Ok(value)
              case Failed(error) => result == Err(error)
              case TimedOut => result == Err("timeout: activity timed out")
  {
    hide DelayForAttempt, Pause, TraceOf, TraceAndPause;
    var lastError := "";
    trace, attempts := [], 0;
    NoPauseAtEitherEnd(p, ActivityCall(name, input, Some(session)));
    for attempt := 1 to p.maxAttempts + 1
      invariant attempts == attempt - 1
      invariant forall k :: 0 <= k < attempts ==> outcomes[k].Failed?
      invariant attempts > 0 ==> lastError == outcomes[attempts - 1].error
      invariant attempts == 0 ==> lastError == ""
      invariant trace == TraceAndPause(p, ActivityCall(name, input, Some(session)), attempts)
    {
      ghost var before := trace;
      trace := trace + [ActivityCall(name, input, Some(session))];
      if p.timeout.Some? {
        trace := trace + [TimeoutTimer(p.timeout.value)];
      }
      attempts := attempt;
      assert trace == before + Attempt(p, ActivityCall(name, input, Some(session)));
      OneMoreAttempt(p, ActivityCall(name, input, Some(session)), attempt - 1);
      match outcomes[attempt - 1]
      case TimedOut => return Err(TIMEOUT_ERROR), trace, attempts;
      case Succeeded(value) => return Ok(value), trace, attempts;
      case Failed(error) =>
        lastError := error;
        if attempt < p.maxAttempts {
          var delay := DelayForAttempt(p.backoff, attempt);
          if delay != 0 {
            trace := trace + [BackoffTimer(delay)];
          }
        }
    }
    result := Err(lastError);
  }

  // ---------------------------------------------------------------- what the trace means

  /** The stopping point is unique, so result and trace are determined by the outcomes. */
  lemma StopIsUnique(maxAttempts: nat, outcomes: seq<Outcome>, m: nat, n: nat)
    requires maxAttempts <= |outcomes|
    requires StopsAfter(maxAttempts, outcomes, m) && StopsAfter(maxAttempts, outcomes, n)
    ensures m == n
  {
  }

  function CallsIn(trace: seq<Scheduled>): nat {
    if trace == [] then 0 else CallsIn(trace[..|trace| - 1]) + (if trace[|trace| - 1].ActivityCall? then 1 else 0)
  }

  function SleptIn(trace: seq<Scheduled>): nat {
    if trace == [] then 0
    else SleptIn(trace[..|trace| - 1]) + (if trace[|trace| - 1].BackoffTimer? then trace[|trace| - 1].duration else 0)
  }

  lemma {:induction false} TraceConcat(a: seq<Scheduled>, b: seq<Scheduled>)
    ensures CallsIn(a + b) == CallsIn(a) + CallsIn(b) && SleptIn(a + b) == SleptIn(a) + SleptIn(b)
  {
    if b == [] {
      assert a + b == a;
    } else {
      assert (a + b)[..|a + b| - 1] == a + b[..|b| - 1];
      TraceConcat(a, b[..|b| - 1]);
    }
  }

  lemma Single(x: Scheduled)
    ensures CallsIn([x]) == (if x.ActivityCall? then 1 else 0)
    ensures SleptIn([x]) == (if x.BackoffTimer? then x.duration else 0)
    ensures WithoutSession([x]) == [if x.ActivityCall? then x.(session := None) else x]
  {
    assert [x][..0] == [];
  }

  lemma PieceFacts(p: Policy, call: Scheduled, k: nat)
    requires call.ActivityCall? && k < TWO_32
    ensures CallsIn(Attempt(p, call)) == 1 && SleptIn(Attempt(p, call)) == 0
    ensures CallsIn(Pause(p, k)) == 0 && SleptIn(Pause(p, k)) == DelayForAttempt(p.backoff, k)
    ensures WithoutSession(Attempt(p, call)) == Attempt(p, call.(session := None))
    ensures WithoutSession(Pause(p, k)) == Pause(p, k)
  {
    Single(call);
    if p.timeout.Some? {
      Single(TimeoutTimer(p.timeout.value));
      TraceConcat([call], [TimeoutTimer(p.timeout.value)]);
      WithoutSessionConcat([call], [TimeoutTimer(p.timeout.value)]);
    } else {
      assert Attempt(p, call) == [call];
    }
    Single(BackoffTimer(DelayForAttempt(p.backoff, k)));
  }

  /**
   n attempts schedule exactly n activities and never sleep after the last one; the linear and
   exponential backoffs sleep at most (n-1) times their cap in total.
   */
  lemma {:induction false} TraceCounts(p: Policy, call: Scheduled, n: nat)
    requires call.ActivityCall? && 0 < n < TWO_32
    ensures CallsIn(TraceOf(p, call, n)) == n
    ensures TraceOf(p, call, n) != [] && !TraceOf(p, call, n)[|TraceOf(p, call, n)| - 1].BackoffTimer?
    ensures p.backoff.Linear? || p.backoff.Exponential? ==> SleptIn(TraceOf(p, call, n)) <= (n - 1) * p.backoff.max
  {
    PieceFacts(p, call, n - 1);
    if n > 1 {
      TraceCounts(p, call, n - 1);
      TraceConcat(TraceOf(p, call, n - 1), Pause(p, n - 1));
      TraceConcat(TraceOf(p, call, n - 1) + Pause(p, n - 1), Attempt(p, call));
      if p.backoff.Linear? || p.backoff.Exponential? {
        assert (n - 1) * p.backoff.max == (n - 2) * p.backoff.max + p.backoff.max;
      }
    }
  }

  /**
   How long n attempts sleep in total: not at all, the delay n-1 times, or, as long as the cap is not
   reached, the base times 1 + 2 + ... + (n-1).
   */
  lemma {:induction false} TotalSleep(p: Policy, call: Scheduled, n: nat)
    requires call.ActivityCall? && 0 < n < TWO_32
    ensures p.backoff.NoBackoff? ==> SleptIn(TraceOf(p, call, n)) == 0
    ensures p.backoff.Fixed? ==> SleptIn(TraceOf(p, call, n)) == (n - 1) * p.backoff.delay
    ensures p.backoff.Linear? && p.backoff.base * (n - 1) <= p.backoff.max && p.backoff.base * (n - 1) <= DURATION_MAX
            ==> 2 * SleptIn(TraceOf(p, call, n)) == p.backoff.base * (n * (n - 1))
  {
    if n > 1 {
      TotalSleep(p, call, n - 1);
      SleepOfOneMore(p, call, n);
      hide SleptIn, TraceOf, CallsIn, WithoutSession, Pause;
      if p.backoff.Fixed? {
        assert (n - 1) * p.backoff.delay == (n - 2) * p.backoff.delay + p.backoff.delay;
      } else if p.backoff.Linear? {
        ProductIsMonotone(p.backoff.base, n - 2, n - 1);
        LinearSum(p.backoff.base, n);
      }
    } else {
      FirstSleep(p, call);
    }
  }

  lemma SleepOfOneMore(p: Policy, call: Scheduled, n: nat)
    requires call.ActivityCall? && 1 < n < TWO_32
    ensures SleptIn(TraceOf(p, call, n)) == SleptIn(TraceOf(p, call, n - 1)) + DelayForAttempt(p.backoff, n - 1)
  {
    PieceFacts(p, call, n - 1);
    TraceConcat(TraceOf(p, call, n - 1), Pause(p, n - 1));
    TraceConcat(TraceOf(p, call, n - 1) + Pause(p, n - 1), Attempt(p, call));
    hide DelayForAttempt;
  }

  lemma LinearSum(base: nat, n: nat)
    requires n > 1
    ensures base * (n * (n - 1)) == base * ((n - 1) * (n - 2)) + 2 * (base * (n - 1))
  {
    assert n * (n - 1) == (n - 1) * (n - 2) + 2 * (n - 1);
  }

  /**
   With a whole multiplier m, and as long as the last delay is below the cap, exponential backoff sleeps a
   geometric sum: (m-1) times the total, and the base, make up m times the last delay.
   */
  lemma {:induction false} GeometricSleep(p: Policy, call: Scheduled, n: nat, m: nat)
    requires call.ActivityCall? && 1 < n <= TWO_31 && m >= 1
    requires p.backoff.Exponential? && p.backoff.multiplier == m as real
    requires var last := DelayForAttempt(p.backoff, n - 1); last < p.backoff.max && last < U64_MAX
    ensures (m - 1) * SleptIn(TraceOf(p, call, n)) + p.backoff.base == m * DelayForAttempt(p.backoff, n - 1)
  {
    SleepOfOneMore(p, call, n);
    WholeDelay(p.backoff.base, m, p.backoff.max, n - 1);
    if n == 2 {
      FirstSleep(p, call);
      assert IntPow(m, 0) == 1 && p.backoff.base * 1 == p.backoff.base;
      Distribute(m, 0, p.backoff.base);
    } else {
      DelaysDoNotDecrease(p.backoff, n - 2, n - 1);
      GeometricSleep(p, call, n - 1, m);
      WholeDelay(p.backoff.base, m, p.backoff.max, n - 2);
      var before, last := DelayForAttempt(p.backoff, n - 2), DelayForAttempt(p.backoff, n - 1);
      IntPowStep(p.backoff.base, m, n - 2);
      assert last == m * before;
      Distribute(m, SleptIn(TraceOf(p, call, n - 1)), last);
    }
  }

  lemma FirstSleep(p: Policy, call: Scheduled)
    requires call.ActivityCall?
    ensures SleptIn(TraceOf(p, call, 1)) == 0
  {
    PieceFacts(p, call, 1);
  }

  lemma Distribute(m: nat, total: nat, last: nat)
    requires m >= 1
    ensures (m - 1) * (total + last) == (m - 1) * total + (m * last - last)
  {
  }

  function IntPow(m: nat, k: nat): nat {
    if k == 0 then 1 else m * IntPow(m, k - 1)
  }

  lemma IntPowStep(base: nat, m: nat, k: nat)
    requires k > 0
    ensures base * IntPow(m, k) == m * (base * IntPow(m, k - 1))
  {
    assert IntPow(m, k) == m * IntPow(m, k - 1);
  }

  lemma {:induction false} PowIsWhole(m: nat, k: nat)
    ensures Pow(m as real, k) == IntPow(m, k) as real
  {
    if k > 0 {
      PowIsWhole(m, k - 1);
      assert (m * IntPow(m, k - 1)) as real == m as real * IntPow(m, k - 1) as real;
    }
  }

  lemma WholeDelay(base: nat, m: nat, max: nat, attempt: nat)
    requires 1 <= attempt <= TWO_31 && m >= 1
    ensures var d := DelayForAttempt(Exponential(base, m as real, max), attempt);
            d < max && d < U64_MAX ==> d == base * IntPow(m, attempt - 1)
  {
    PowIsWhole(m, attempt - 1);
    var whole := base * IntPow(m, attempt - 1);
    assert whole as real == base as real * IntPow(m, attempt - 1) as real;
    assert (whole as real).Floor == whole;
  }

  /** What stands next to the j-th entry of a trace. */
  predicate Placed(p: Policy, call: Scheduled, t: seq<Scheduled>, j: nat)
    requires j < |t|
  {
    match t[j]
    case ActivityCall(_, _, _) =>
      t[j] == call && (p.timeout.Some? ==> j + 1 < |t| && t[j + 1] == TimeoutTimer(p.timeout.value))
    case TimeoutTimer(duration) => p.timeout == Some(duration) && j > 0 && t[j - 1] == call
    case BackoffTimer(duration) => duration > 0 && 0 < j < |t| - 1 && t[j + 1] == call && !t[j - 1].BackoffTimer?
  }

  /**
   The order of a trace: it starts with the call, every call is followed at once by its timeout timer if
   there is a timeout, and a backoff timer is never zero and stands right before the next call.
   */
  lemma {:induction false} TraceShape(p: Policy, call: Scheduled, n: nat, j: nat)
    requires call.ActivityCall? && 0 < n < TWO_32 && j < |TraceOf(p, call, n)|
    ensures TraceOf(p, call, n)[0] == call && Placed(p, call, TraceOf(p, call, n), j)
  {
    hide DelayForAttempt;
    if n > 1 {
      var before := TraceOf(p, call, n - 1);
      TraceCounts(p, call, n - 1);
      hide TraceOf, Placed;
      TraceShape(p, call, n - 1, if j < |before| then j else 0);
      AppendedShape(p, call, before, Pause(p, n - 1), j);
      OneMoreTrace(p, call, n);
    }
  }

  lemma OneMoreTrace(p: Policy, call: Scheduled, n: nat)
    requires 1 < n < TWO_32
    ensures TraceOf(p, call, n) == TraceOf(p, call, n - 1) + Pause(p, n - 1) + Attempt(p, call)
  {
  }

  lemma AppendedShape(p: Policy, call: Scheduled, before: seq<Scheduled>, pause: seq<Scheduled>, j: nat)
    requires call.ActivityCall? && before != [] && !before[|before| - 1].BackoffTimer?
    requires pause == [] || (|pause| == 1 && pause[0].BackoffTimer? && pause[0].duration > 0)
    requires j < |before + pause + Attempt(p, call)| && (j < |before| ==> Placed(p, call, before, j))
    ensures Placed(p, call, before + pause + Attempt(p, call), j)
    ensures (before + pause + Attempt(p, call))[0] == before[0]
  {
  }

  function WithoutSession(trace: seq<Scheduled>): (r: seq<Scheduled>)
    ensures |r| == |trace|
  {
    if trace == [] then []
    else
      var last := trace[|trace| - 1];
      WithoutSession(trace[..|trace| - 1]) + [if last.ActivityCall? then last.(session := None) else last]
  }

  lemma {:induction false} WithoutSessionConcat(a: seq<Scheduled>, b: seq<Scheduled>)
    ensures WithoutSession(a + b) == WithoutSession(a) + WithoutSession(b)
  {
    if b == [] {
      assert a + b == a;
    } else {
      assert (a + b)[..|a + b| - 1] == a + b[..|b| - 1];
      WithoutSessionConcat(a, b[..|b| - 1]);
    }
  }

  /** Up to the session id, the session variant schedules the same things. */
  lemma {:induction false} SessionVariantHasSameTrace(p: Policy, name: string, input: string, session: string, n: nat)
    requires n < TWO_32
    ensures WithoutSession(TraceOf(p, ActivityCall(name, input, Some(session)), n))
         == TraceOf(p, ActivityCall(name, input, None), n)
  {
    var call := ActivityCall(name, input, Some(session));
    if n > 0 {
      PieceFacts(p, call, n - 1);
    }
    if n > 1 {
      SessionVariantHasSameTrace(p, name, input, session, n - 1);
      WithoutSessionConcat(TraceOf(p, call, n - 1), Pause(p, n - 1));
      WithoutSessionConcat(TraceOf(p, call, n - 1) + Pause(p, n - 1), Attempt(p, call));
    }
  }
}
