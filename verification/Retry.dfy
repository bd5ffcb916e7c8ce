/** Exponential backoff and the stand-alone retry policy. */
module Retry {
  import opened Prelude
  import opened Exceptions

  // ---------------------------------------------------------------- backoff

  /** `overflowAt` is the size from which a floating-point power overflows; there is none when
      the configured numbers are integers, whose powers are exact. */
  datatype Backoff = Backoff(base: real, max: real, multiplier: real, jitter: bool, overflowAt: Option<real>) {
    /** What construction checks. */
    predicate Valid() {
      0.0 <= base <= max && multiplier >= 1.0
    }
  }

  /** A product, named so that a proof can treat it as one number. */
  function Times(x: real, y: real): real {
    x * y
  }

  function Power(m: real, k: nat): real {
    if k == 0 then 1.0 else Times(m, Power(m, k - 1))
  }

  function Min(a: real, b: real): real {
    if a <= b then a else b
  }

  predicate Overflows(b: Backoff, k: nat) {
    b.overflowAt.Some? && Power(b.multiplier, k) >= b.overflowAt.value
  }

  /** The delay before retry `n` (counting from 1) without jitter, overflow handler included. */
  function Cap(b: Backoff, n: nat): real
    requires n >= 1
  {
    Min(if Overflows(b, n - 1) then b.max else Times(b.base, Power(b.multiplier, n - 1)), b.max)
  }

  /** The delay the code selects; `sample` is the random number in [0, 1) that jitter draws. */
  function DelayForRetry(b: Backoff, n: nat, sample: real): real
    requires n >= 1
  {
    if b.jitter && Cap(b, n) > 0.0 then Times(Cap(b, n), sample) else Cap(b, n)
  }

  lemma TimesMonotone(c: real, x: real, y: real)
    requires c >= 0.0 && x <= y
    ensures Times(c, x) <= Times(c, y)
  {
    assert c * y - c * x == c * (y - x);
  }

  lemma TimesUnits(c: real)
    ensures Times(c, 0.0) == 0.0 && Times(c, 1.0) == c
  {
  }

  lemma TimesGrows(m: real, x: real)
    requires x >= 0.0 && m >= 1.0
    ensures Times(m, x) >= x
  {
    assert m * x - x == (m - 1.0) * x;
  }

  lemma {:induction false} PowerMonotone(m: real, j: nat, k: nat)
    requires m >= 1.0 && j <= k
    ensures 1.0 <= Power(m, j) <= Power(m, k)
    decreases k
  {
    hide Times;
    if j < k {
      PowerMonotone(m, j, k - 1);
      TimesGrows(m, Power(m, k - 1));
    } else if k > 0 {
      PowerMonotone(m, k - 1, k - 1);
      TimesGrows(m, Power(m, k - 1));
    }
  }

  /** Without jitter delays never shrink from one retry to the next and stay within [0, max]. */
  lemma CapMonotone(b: Backoff, j: nat, k: nat)
    requires b.Valid() && 1 <= j <= k
    ensures 0.0 <= Cap(b, j) <= Cap(b, k) <= b.max
  {
    hide Times;
    hide Power;
    PowerMonotone(b.multiplier, j - 1, k - 1);
    TimesUnits(b.base);
    TimesMonotone(b.base, 0.0, Power(b.multiplier, j - 1));
    TimesMonotone(b.base, Power(b.multiplier, j - 1), Power(b.multiplier, k - 1));
  }

  /** Jitter only lowers a delay. */
  lemma JitterOnlyLowers(b: Backoff, n: nat, sample: real)
    requires b.Valid() && n >= 1 && 0.0 <= sample < 1.0
    ensures 0.0 <= DelayForRetry(b, n, sample) <= Cap(b, n) <= b.max
    ensures !b.jitter ==> DelayForRetry(b, n, sample) == Cap(b, n)
  {
    hide Times;
    hide Cap;
    CapMonotone(b, n, n);
    TimesUnits(Cap(b, n));
    TimesMonotone(Cap(b, n), 0.0, sample);
    TimesMonotone(Cap(b, n), sample, 1.0);
  }

  /** With jitter the delay is the sample's share of what it would be without: all shares of it can be drawn. */
  lemma JitterIsShare(b: Backoff, n: nat, sample: real)
    requires b.Valid() && n >= 1
    ensures DelayForRetry(b, n, sample) == if b.jitter then Cap(b, n) * sample else Cap(b, n)
  {
    hide Cap;
    assert Cap(b, n) >= 0.0 by { CapMonotone(b, n, n); }
    if Cap(b, n) == 0.0 { TimesUnits(sample); }
  }

  /** While nothing overflows, the first delay is the base and every later one is the one before it times the
      multiplier, cut off at the maximum. */
  lemma DelaysMultiply(b: Backoff, n: nat)
    requires b.Valid() && n >= 1 && !Overflows(b, n)
    ensures Cap(b, 1) == b.base
    ensures Cap(b, n + 1) == Min(b.multiplier * Cap(b, n), b.max)
  {
    NoEarlierOverflow(b, 0, n);
    NoEarlierOverflow(b, n - 1, n);
    var x := Times(b.base, Power(b.multiplier, n - 1));
    assert Power(b.multiplier, 0) == 1.0;
    assert Power(b.multiplier, n) == Times(b.multiplier, Power(b.multiplier, n - 1));
    hide Power;
    TimesUnits(b.base);
    TimesSwap(b.base, b.multiplier, Power(b.multiplier, n - 1));
    assert Times(b.base, Power(b.multiplier, n)) == Times(b.multiplier, x);
    TimesGrows(b.multiplier, b.max);
    if x > b.max { TimesMonotone(b.multiplier, b.max, x); }
  }

  /** The formula the documentation gives for the delay. */
  function Documented(b: Backoff, n: nat): real
    requires n >= 1
  {
    Min(Times(b.base, Power(b.multiplier, n - 1)), b.max)
  }

  ghost predicate FollowsDocumentation(b: Backoff) {
    forall n: nat :: n >= 1 ==> Cap(b, n) == Documented(b, n)
  }

  lemma OverflowReachesMaximum(b: Backoff, k: nat, n: nat)
    requires b.Valid() && (k > 0 ==> !Overflows(b, k - 1)) && Times(b.base, Power(b.multiplier, k)) >= b.max
    requires n >= 1 && Overflows(b, n - 1)
    ensures Times(b.base, Power(b.multiplier, n - 1)) >= b.max
  {
    hide Times;
    hide Power;
    if n - 1 < k {
      PowerMonotone(b.multiplier, n - 1, k - 1);
      assert false;
    }
    PowerMonotone(b.multiplier, k, n - 1);
    TimesMonotone(b.base, Power(b.multiplier, k), Power(b.multiplier, n - 1));
  }

  /** `k` is the first exponent at which the power overflows. */
  predicate FirstOverflow(b: Backoff, k: nat) {
    Overflows(b, k) && (k > 0 ==> !Overflows(b, k - 1))
  }

  lemma {:induction false} FirstOverflowExists(b: Backoff, n: nat) returns (k: nat)
    requires Overflows(b, n)
    ensures k <= n && FirstOverflow(b, k)
  {
    k := n;
    if n > 0 && Overflows(b, n - 1) {
      k := FirstOverflowExists(b, n - 1);
    }
  }

  /** The overflow handler keeps to the documented formula for every retry exactly when the base delay times
      the first power that overflows already reaches the maximum; so always if no power ever overflows. */
  lemma OverflowHandlerIff(b: Backoff)
    requires b.Valid()
    ensures FollowsDocumentation(b) <==>
      forall k :: FirstOverflow(b, k) ==> Times(b.base, Power(b.multiplier, k)) >= b.max
  {
    hide Times;
    hide Power;
    forall k: nat | FollowsDocumentation(b) && FirstOverflow(b, k)
      ensures Times(b.base, Power(b.multiplier, k)) >= b.max
    {
      assert Cap(b, k + 1) == Documented(b, k + 1);
    }
    if forall k :: FirstOverflow(b, k) ==> Times(b.base, Power(b.multiplier, k)) >= b.max {
      forall n: nat | n >= 1 ensures Cap(b, n) == Documented(b, n) {
        if Overflows(b, n - 1) {
          var k := FirstOverflowExists(b, n - 1);
          OverflowReachesMaximum(b, k, n);
        }
      }
    }
  }

  /** The documented formula is what is computed when nothing overflows, whatever the configured numbers;
      a base delay large enough for the overflow size to reach the maximum is enough when something does. */
  lemma LargeBaseFollowsDocumentation(b: Backoff)
    requires b.Valid()
    requires (forall k :: !Overflows(b, k)) || Times(b.base, b.overflowAt.value) >= b.max
    ensures FollowsDocumentation(b)
  {
    hide Times;
    hide Power;
    forall n: nat | n >= 1 ensures Cap(b, n) == Documented(b, n) {
      if Overflows(b, n - 1) {
        TimesMonotone(b.base, b.overflowAt.value, Power(b.multiplier, n - 1));
      }
    }
  }

  /** A zero base delay is documented to stay zero, but jumps to the maximum from the first power that overflows. */
  lemma ZeroBaseJumpsToMaximum(b: Backoff, n: nat)
    requires b.Valid() && b.base == 0.0 && n >= 1 && Overflows(b, n - 1)
    ensures Documented(b, n) == 0.0 && Cap(b, n) == b.max
  {
    hide Power;
    assert Times(0.0, Power(b.multiplier, n - 1)) == 0.0;
  }

  /** A policy that does so: doubling from zero with the size at which floating-point numbers overflow,
      two to the power 1024. From retry 1025 on the delay is ten seconds. */
  lemma DoublingFromZero(k: nat) returns (b: Backoff)
    requires k == 1024
    ensures b == Backoff(0.0, 10.0, 2.0, false, Some(Power(2.0, k))) && b.Valid()
    ensures Documented(b, k + 1) == 0.0 && Cap(b, k + 1) == 10.0
    ensures !FollowsDocumentation(b)
  {
    hide Power;
    b := Backoff(0.0, 10.0, 2.0, false, Some(Power(2.0, k)));
    ZeroBaseJumpsToMaximum(b, k + 1);
  }

  /** Total delay before the first `k` retries, without jitter. */
  function Total(b: Backoff, k: nat): real {
    if k == 0 then 0.0 else Total(b, k - 1) + Cap(b, k)
  }

  lemma TimesCount(k: nat, x: real)
    ensures Times((k + 1) as real, x) == Times(k as real, x) + x
  {
    assert (k + 1) as real * x == (k as real + 1.0) * x;
  }

  lemma {:induction false} TotalWithinMaximum(b: Backoff, k: nat)
    requires b.Valid()
    ensures 0.0 <= Total(b, k) <= Times(k as real, b.max)
  {
    if k > 0 {
      hide Times;
      hide Cap;
      TotalWithinMaximum(b, k - 1);
      CapMonotone(b, k, k);
      TimesCount(k - 1, b.max);
    }
  }

  /** (m - 1) t stays below base (p - 1), where p stands for the power reached. */
  predicate WithinGeometricSum(base: real, m: real, p: real, t: real) {
    Times(m - 1.0, t) <= Times(base, p - 1.0)
  }

  lemma TimesAdd(c: real, x: real, y: real)
    ensures Times(c, x + y) == Times(c, x) + Times(c, y)
  {
  }

  lemma TimesLess(c: real, x: real)
    ensures Times(c, x - 1.0) == Times(c, x) - c
  {
  }

  lemma LessTimes(m: real, x: real)
    ensures Times(m - 1.0, x) == Times(m, x) - x
  {
  }

  lemma TimesSwap(a: real, b: real, c: real)
    ensures Times(a, Times(b, c)) == Times(b, Times(a, c))
  {
  }

  lemma GeometricStep(base: real, m: real, p: real, t: real, c: real)
    requires m >= 1.0 && c <= Times(base, p) && WithinGeometricSum(base, m, p, t)
    ensures WithinGeometricSum(base, m, Times(m, p), t + c)
  {
    hide Times;
    var bp := Times(base, p);
    TimesMonotone(m - 1.0, c, bp);
    TimesAdd(m - 1.0, t, c);
    TimesLess(base, p);
    LessTimes(m, bp);
    TimesSwap(m, base, p);
    TimesLess(base, Times(m, p));
  }

  lemma NoEarlierOverflow(b: Backoff, j: nat, k: nat)
    requires b.Valid() && j <= k && !Overflows(b, k)
    ensures !Overflows(b, j)
  {
    hide Power;
    PowerMonotone(b.multiplier, j, k);
  }

  /** The delays without the maximum: base + base * m + ... with `k` terms. */
  function Geometric(base: real, m: real, k: nat): real {
    if k == 0 then 0.0 else Geometric(base, m, k - 1) + Times(base, Power(m, k - 1))
  }

  /** While nothing overflows the total is also bounded by the geometric sum, for every multiplier. */
  lemma {:induction false} TotalWithinGeometricSum(b: Backoff, k: nat)
    requires b.Valid() && (k > 0 ==> !Overflows(b, k - 1))
    ensures Total(b, k) <= Geometric(b.base, b.multiplier, k)
  {
    if k > 0 {
      hide Times;
      hide Power;
      if k > 1 { NoEarlierOverflow(b, k - 2, k - 1); }
      TotalWithinGeometricSum(b, k - 1);
    }
  }

  lemma {:induction false} DocumentedWithinGeometricSum(b: Backoff, k: nat)
    requires b.Valid() && FollowsDocumentation(b)
    ensures Total(b, k) <= Geometric(b.base, b.multiplier, k)
  {
    if k > 0 {
      DocumentedWithinGeometricSum(b, k - 1);
      assert Cap(b, k) == Documented(b, k);
      hide Times;
      hide Power;
      hide Cap;
    }
  }

  /** Up to the first overflow nothing is capped if the power that overflows is still too small to be. */
  lemma {:induction false} ExactBeforeOverflow(b: Backoff, first: nat, k: nat)
    requires b.Valid() && FirstOverflow(b, first) && k <= first && Times(b.base, Power(b.multiplier, first)) < b.max
    ensures Total(b, k) == Geometric(b.base, b.multiplier, k)
  {
    if k > 0 {
      hide Times;
      hide Power;
      ExactBeforeOverflow(b, first, k - 1);
      NoEarlierOverflow(b, k - 1, first - 1);
      PowerMonotone(b.multiplier, k - 1, first);
      TimesMonotone(b.base, Power(b.multiplier, k - 1), Power(b.multiplier, first));
    }
  }

  /** Overflow included, the geometric sum bounds every total exactly when the overflow handler
      keeps to the documented formula. */
  lemma GeometricBoundIff(b: Backoff)
    requires b.Valid()
    ensures (forall k :: Total(b, k) <= Geometric(b.base, b.multiplier, k)) <==> FollowsDocumentation(b)
  {
    hide Times;
    hide Power;
    if FollowsDocumentation(b) {
      forall k ensures Total(b, k) <= Geometric(b.base, b.multiplier, k) {
        DocumentedWithinGeometricSum(b, k);
      }
    } else {
      OverflowHandlerIff(b);
      var first: nat :| FirstOverflow(b, first) && Times(b.base, Power(b.multiplier, first)) < b.max;
      ExactBeforeOverflow(b, first, first);
      assert Total(b, first + 1) > Geometric(b.base, b.multiplier, first + 1);
    }
  }

  /** A multiplier of one makes the geometric sum `k` times the base delay. */
  lemma {:induction false} ConstantGeometricSum(base: real, k: nat)
    ensures Power(1.0, k) == 1.0 && Geometric(base, 1.0, k) == Times(k as real, base)
  {
    if k > 0 {
      ConstantGeometricSum(base, k - 1);
      hide Geometric;
      assert Power(1.0, k) == Times(1.0, Power(1.0, k - 1)) == 1.0;
      GeometricUnfolds(base, 1.0, k);
      TimesUnits(base);
      TimesCount(k - 1, base);
    } else {
      assert Times(0.0, base) == 0.0;
    }
  }

  lemma GeometricUnfolds(base: real, m: real, k: nat)
    requires k >= 1
    ensures Geometric(base, m, k) == Geometric(base, m, k - 1) + Times(base, Power(m, k - 1))
  {
  }

  /** In closed form, for a multiplier above one: while nothing overflows the total is at most
      base * (m^k - 1) / (m - 1). */
  lemma {:induction false} TotalWithinClosedForm(b: Backoff, k: nat)
    requires b.Valid() && (k > 0 ==> !Overflows(b, k - 1))
    ensures WithinGeometricSum(b.base, b.multiplier, Power(b.multiplier, k), Total(b, k))
  {
    if k == 0 {
      TimesUnits(b.multiplier - 1.0);
      TimesUnits(b.base);
    } else {
      hide Times;
      hide WithinGeometricSum;
      if k > 1 { NoEarlierOverflow(b, k - 2, k - 1); }
      TotalWithinClosedForm(b, k - 1);
      GeometricStep(b.base, b.multiplier, Power(b.multiplier, k - 1), Total(b, k - 1), Cap(b, k));
    }
  }

  // ---------------------------------------------------------------- the retry loop

  datatype Policy = Policy(maxAttempts: nat, backoff: Backoff, retryOn: Exn -> bool) {
    predicate Valid() {
      maxAttempts >= 1 && backoff.Valid()
    }
  }

  /** What a script of outside answers gives: how call `n` ends, and the jitter sample drawn after it. */
  datatype Script = Script(calls: nat -> Call, samples: nat -> real)

  datatype Outcome =
    | Success(value: Value)
    | Propagated(error: Exn)
    | Exhausted(attempts: nat, cause: Exn)

  /** After call `n` there is no other: it returned, its exception is not retried, or it was the last allowed. */
  predicate Stops(p: Policy, s: Script, n: nat) {
    s.calls(n).Returned? || !p.retryOn(s.calls(n).error) || n >= p.maxAttempts
  }

  function StopFrom(p: Policy, s: Script, from: nat): (n: nat)
    requires from <= p.maxAttempts
    ensures from <= n <= p.maxAttempts && Stops(p, s, n)
    ensures forall j :: from <= j < n ==> !Stops(p, s, j)
    decreases p.maxAttempts - from
  {
    if Stops(p, s, from) then from else StopFrom(p, s, from + 1)
  }

  /** The number of the last call made. */
  function LastCall(p: Policy, s: Script): nat
    requires p.Valid()
  {
    StopFrom(p, s, 1)
  }

  function OutcomeOf(p: Policy, s: Script): Outcome
    requires p.Valid()
  {
    match s.calls(LastCall(p, s))
    case Returned(v) => Success(v)
    case Raised(e) => if p.retryOn(e) then Exhausted(p.maxAttempts, e) else Propagated(e)
  }

  /** The delays slept after calls `1..calls`. */
  function Delays(p: Policy, s: Script, calls: nat): seq<real> {
    seq(calls, i requires 0 <= i => DelayForRetry(p.backoff, i + 1, s.samples(i + 1)))
  }

  /** `run` and `run_async`: the loop, with the delays slept and the number of calls made. */
  method Run(p: Policy, s: Script) returns (r: Outcome, calls: nat, slept: seq<real>)
    requires p.Valid()
    ensures r == OutcomeOf(p, s)
    ensures calls == LastCall(p, s)
    ensures slept == Delays(p, s, calls - 1)
  {
    slept, calls := [], 0;
    var last: Option<Exn> := None;
    while calls < p.maxAttempts
      invariant calls <= p.maxAttempts && (calls > 0 ==> last.Some?) && slept == Delays(p, s, calls)
      invariant forall j :: 1 <= j <= calls ==> !Stops(p, s, j)
    {
      calls := calls + 1;
      match s.calls(calls) {
        case Returned(v) =>
          assert Stops(p, s, calls);
          return Success(v), calls, slept;
        case Raised(e) =>
          if !p.retryOn(e) {
            assert Stops(p, s, calls);
            return Propagated(e), calls, slept;
          }
          last := Some(e);
          if calls >= p.maxAttempts {
            break;
          }
          slept := slept + [DelayForRetry(p.backoff, calls, s.samples(calls))];
      }
    }
    r := Exhausted(p.maxAttempts, last.value);
  }

  /** Between two calls the run sleeps the backoff's delay for that retry, drawn from that retry's sample. */
  lemma SleepsTheBackoff(p: Policy, s: Script, calls: nat, n: nat)
    requires 1 <= n <= calls
    ensures |Delays(p, s, calls)| == calls && Delays(p, s, calls)[n - 1] == DelayForRetry(p.backoff, n, s.samples(n))
  {
  }

  /** What a run comes to, on the calls themselves: the value of the first call that returns, all before it having
      failed retryably; the first exception not worth retrying; else the exhaustion of all allowed calls. */
  lemma OutcomeIff(p: Policy, s: Script, v: Value, e: Exn)
    requires p.Valid()
    ensures OutcomeOf(p, s) == Success(v) <==>
      exists n :: 1 <= n <= p.maxAttempts && s.calls(n) == Returned(v) && FailsUpTo(p, s, n - 1)
    ensures OutcomeOf(p, s) == Propagated(e) <==>
      exists n :: 1 <= n <= p.maxAttempts && s.calls(n) == Raised(e) && !p.retryOn(e) && FailsUpTo(p, s, n - 1)
  {
    var k := LastCall(p, s);
    assert FailsUpTo(p, s, k - 1) by {
      forall j | 1 <= j <= k - 1 ensures s.calls(j).Raised? && p.retryOn(s.calls(j).error) { assert !Stops(p, s, j); }
    }
    forall n |
      1 <= n <= p.maxAttempts && FailsUpTo(p, s, n - 1) && (s.calls(n).Returned? || !p.retryOn(s.calls(n).error))
      ensures n == k
    {
      assert Stops(p, s, n) && Stops(p, s, k);
    }
  }

  /** The first `n` calls all failed with exceptions worth retrying. */
  ghost predicate FailsUpTo(p: Policy, s: Script, n: int) {
    forall j :: 1 <= j <= n ==> s.calls(j).Raised? && p.retryOn(s.calls(j).error)
  }

  /** A run is exhausted exactly when every allowed call failed with an exception worth retrying;
      then the reported count and cause are those of the last call. */
  lemma ExhaustedMeansAllRetryable(p: Policy, s: Script)
    requires p.Valid()
    ensures OutcomeOf(p, s).Exhausted? <==>
      forall n :: 1 <= n <= p.maxAttempts ==> s.calls(n).Raised? && p.retryOn(s.calls(n).error)
    ensures OutcomeOf(p, s).Exhausted? ==>
      && LastCall(p, s) == p.maxAttempts == OutcomeOf(p, s).attempts
      && s.calls(p.maxAttempts) == Raised(OutcomeOf(p, s).cause)
  {
    var k := LastCall(p, s);
    assert Stops(p, s, k);
    if OutcomeOf(p, s).Exhausted? {
      forall n | 1 <= n <= p.maxAttempts ensures s.calls(n).Raised? && p.retryOn(s.calls(n).error) {
        assert n < k ==> !Stops(p, s, n);
      }
    }
  }
}
