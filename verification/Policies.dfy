/** The policies the operation engine composes: rate-limit recognition, validation, and the fallback chain. */
module Policies {
  import opened Prelude
  import opened Exceptions

  // ---------------------------------------------------------------- rate limits

  /** What a retry-after extractor may hand back: something that is no number (a boolean counts as
      none), one of the special floating-point values, or a number. */
  datatype Number = NotNumeric | NaN | Infinite | Finite(value: real)

  datatype Hint = NoHint | Given(number: Number) | ExtractorRaised(error: Exn)

  datatype RateLimit = RateLimit(limitOn: Exn -> bool, extracts: bool, maxWait: real) {
    predicate Valid() {
      maxWait >= 0.0
    }
  }

  datatype Decision = NotLimited | Limited(retryAfter: Option<real>) | ExtractionFailed(error: Exn)

  /** A usable wait comes out exactly when the extractor returned a finite number that is not
      negative; anything else it does except returning nothing is an extraction error about `e`. */
  function Evaluate(p: RateLimit, e: Exn, hint: Hint): (d: Decision)
    ensures d.NotLimited? <==> !p.limitOn(e)
    ensures forall r :: d == Limited(Some(r)) <==> p.limitOn(e) && p.extracts && hint == Given(Finite(r)) && r >= 0.0
    ensures d == Limited(None) <==> p.limitOn(e) && (!p.extracts || hint.NoHint?)
    ensures d.ExtractionFailed? ==>
      d.error == RetryAfterExtraction(e, if hint.ExtractorRaised? then Some(hint.error) else None)
  {
    if !p.limitOn(e) then NotLimited
    else if !p.extracts then Limited(None)
    else match hint
      case NoHint => Limited(None)
      case ExtractorRaised(cause) => ExtractionFailed(RetryAfterExtraction(e, Some(cause)))
      case Given(Finite(r)) => if r < 0.0 then ExtractionFailed(RetryAfterExtraction(e, None)) else Limited(Some(r))
      case Given(_) => ExtractionFailed(RetryAfterExtraction(e, None))
  }

  // ---------------------------------------------------------------- validation

  datatype Verdict = Passed(validator: string) | Refused(validator: string, reason: string) | Broke(error: Exn)

  type Validator = Value -> Verdict

  predicate Accepts(vs: seq<Validator>, v: Value) {
    forall i :: 0 <= i < |vs| ==> vs[i](v).Passed?
  }

  /** The validator whose verdict decides: the first from `from` on that does not pass, or the last. */
  function Decisive(vs: seq<Validator>, v: Value, from: nat): (k: nat)
    requires from < |vs|
    ensures from <= k < |vs|
    ensures forall i :: from <= i < k ==> vs[i](v).Passed?
    ensures vs[k](v).Passed? ==> k == |vs| - 1
    decreases |vs| - from
  {
    if !vs[from](v).Passed? || from == |vs| - 1 then from else Decisive(vs, v, from + 1)
  }

  /** The verdict of a policy; it passes exactly the values every validator accepts. */
  function Validation(vs: seq<Validator>, v: Value): (r: Verdict)
    requires vs != []
    ensures r.Passed? <==> Accepts(vs, v)
  {
    vs[Decisive(vs, v, 0)](v)
  }

  /** The fail-fast loop over the validators. */
  method Validate(vs: seq<Validator>, v: Value) returns (r: Verdict)
    requires vs != []
    ensures r == Validation(vs, v)
  {
    r := vs[0](v);
    var i := 0;
    while r.Passed? && i + 1 < |vs|
      invariant 0 <= i < |vs| && r == vs[i](v)
      invariant forall j :: 0 <= j < i ==> vs[j](v).Passed?
      decreases |vs| - i
    {
      i := i + 1;
      r := vs[i](v);
    }
  }

  // ---------------------------------------------------------------- validated results

  datatype ValidationMeta =
    | NotPerformed
    | ValidationPassed(validator: string)
    | ValidationRefused(validator: string, reason: string)

  /** A call that ran and was checked: its value with the validation record, or an exception. */
  datatype Tried = Ok(value: Value, validation: ValidationMeta) | Err(error: Exn)

  function CheckValue(validators: Option<seq<Validator>>, v: Value): (t: Tried)
    requires validators.Some? ==> validators.value != []
    ensures t.Ok? ==> t.value == v && (validators.Some? ==> Accepts(validators.value, v))
    ensures t.Ok? ==> !t.validation.ValidationRefused? && (t.validation.NotPerformed? <==> validators.None?)
  {
    if validators.None? then Ok(v, NotPerformed)
    else match Validation(validators.value, v)
      case Passed(name) => Ok(v, ValidationPassed(name))
      case Refused(name, reason) => Err(ValidationFailed(name, reason))
      case Broke(e) => Err(e)
  }

  /** What a checked value comes to, on the verdicts: kept if there are no validators or all pass it, with the name
      the last one reports; otherwise the first that does not pass it decides, by its name and reason if it refused
      the value and by its exception if it broke. */
  lemma CheckedByTheFirst(validators: Option<seq<Validator>>, v: Value, k: nat)
    requires validators.Some? ==> validators.value != []
    ensures validators.None? ==> CheckValue(validators, v) == Ok(v, NotPerformed)
    ensures validators.Some? && (forall i :: 0 <= i < |validators.value| ==> validators.value[i](v).Passed?) ==>
      var last := validators.value[|validators.value| - 1](v);
      CheckValue(validators, v) == Ok(v, ValidationPassed(last.validator))
    ensures
      var first := validators.Some? && k < |validators.value| && !validators.value[k](v).Passed?
        && forall i :: 0 <= i < k ==> validators.value[i](v).Passed?;
      first ==>
        CheckValue(validators, v) == match validators.value[k](v)
                                     case Refused(name, reason) => Err(ValidationFailed(name, reason))
                                     case Broke(e) => Err(e)
  {
    if validators.Some? {
      var d := Decisive(validators.value, v, 0);
      assert Accepts(validators.value, v) <==> validators.value[d](v).Passed?;
    }
  }

  // ---------------------------------------------------------------- the fallback chain

  datatype Fallback = Fallback(names: seq<string>, fallbackOn: Exn -> bool) {
    predicate Valid() {
      names != []
    }
  }

  datatype ChainResult =
    | Won(value: Value, validation: ValidationMeta, index: nat, failures: seq<Exn>)
    | PassedOn(error: Exn)
    | AllFailed(failures: seq<Exn>)

  /** Candidate `i` hands over to the next one: it failed with an exception the policy falls back on. */
  predicate HandsOver(f: Fallback, tries: nat -> Tried, i: nat) {
    tries(i).Err? && f.fallbackOn(tries(i).error)
  }

  /** The candidate the chain stops at, or the number of candidates if all hand over. */
  function ChainStop(f: Fallback, tries: nat -> Tried, from: nat): (k: nat)
    requires from <= |f.names|
    ensures from <= k <= |f.names|
    ensures forall i: nat :: from <= i < k ==> tries(i).Err? && f.fallbackOn(tries(i).error)
    ensures k < |f.names| ==> !HandsOver(f, tries, k)
    decreases |f.names| - from
  {
    if from == |f.names| || !HandsOver(f, tries, from) then from else ChainStop(f, tries, from + 1)
  }

  function Failures(tries: nat -> Tried, k: nat): seq<Exn>
    requires forall i: nat :: i < k ==> tries(i).Err?
  {
    seq(k, i requires 0 <= i < k => tries(i).error)
  }

  function ChainOutcome(f: Fallback, tries: nat -> Tried): (r: ChainResult)
    ensures r.Won? ==> r.index < |f.names|
  {
    var k := ChainStop(f, tries, 0);
    if k == |f.names| then AllFailed(Failures(tries, k))
    else match tries(k)
      case Ok(v, m) => Won(v, m, k, Failures(tries, k))
      case Err(e) => PassedOn(e)
  }

  /** How many candidates the chain calls: those before the stop and the stop itself. */
  function ChainCalls(f: Fallback, tries: nat -> Tried): nat {
    var k := ChainStop(f, tries, 0);
    if k == |f.names| then k else k + 1
  }

  /** Candidates before `i` all failed with exceptions the policy falls back on: those in `failures`. */
  predicate FailBefore(f: Fallback, tries: nat -> Tried, i: nat, failures: seq<Exn>) {
    |failures| == i && forall j: nat :: j < i ==> tries(j) == Err(failures[j]) && f.fallbackOn(failures[j])
  }

  /** What a chain comes to, and how many candidates it calls: the first candidate that ran and validated wins; the
      first failure the policy does not fall back on is passed on as it is; else the chain failed with all failures.
      */
  lemma ChainOutcomeIs(f: Fallback, tries: nat -> Tried, i: nat, failures: seq<Exn>)
    requires i <= |f.names| && FailBefore(f, tries, i, failures)
    ensures i < |f.names| && tries(i).Ok? ==>
      && ChainOutcome(f, tries) == Won(tries(i).value, tries(i).validation, i, failures)
      && ChainCalls(f, tries) == i + 1
    ensures i < |f.names| && tries(i).Err? && !f.fallbackOn(tries(i).error) ==>
      ChainOutcome(f, tries) == PassedOn(tries(i).error) && ChainCalls(f, tries) == i + 1
    ensures i == |f.names| ==> ChainOutcome(f, tries) == AllFailed(failures) && ChainCalls(f, tries) == i
  {
    var k := ChainStop(f, tries, 0);
    assert k < |f.names| ==> !HandsOver(f, tries, k);
    if i == |f.names| || tries(i).Ok? || !f.fallbackOn(tries(i).error) {
      assert i < |f.names| ==> !HandsOver(f, tries, i);
      assert k == i;
      assert Failures(tries, k) == failures;
    }
  }

  /** The winner is the first candidate that ran and validated; its index is the number of
      failures, and failure `i` is candidate `i`'s. */
  lemma WinnerIsFirst(f: Fallback, tries: nat -> Tried)
    requires ChainOutcome(f, tries).Won?
    ensures var r := ChainOutcome(f, tries);
      && r.index < |f.names| && tries(r.index) == Ok(r.value, r.validation)
      && |r.failures| == r.index && ChainCalls(f, tries) == r.index + 1
      && forall i: nat :: i < r.index ==> tries(i) == Err(r.failures[i]) && f.fallbackOn(r.failures[i])
  {
  }

  /** The chain fails as a whole exactly when every candidate failed with something it falls back on. */
  lemma ChainFailsIff(f: Fallback, tries: nat -> Tried)
    requires f.Valid()
    ensures ChainOutcome(f, tries).AllFailed? <==> forall i: nat :: i < |f.names| ==> HandsOver(f, tries, i)
    ensures ChainOutcome(f, tries).AllFailed? ==>
      |ChainOutcome(f, tries).failures| == |f.names| &&
      forall i: nat :: i < |f.names| ==> tries(i) == Err(ChainOutcome(f, tries).failures[i])
  {
  }
}
