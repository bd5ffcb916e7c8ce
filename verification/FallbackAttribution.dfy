/** Which candidate a validation event of the fallback is about. */
module FallbackAttribution {
  import opened Prelude
  import opened Exceptions
  import opened Policies
  import opened OperationSpec

  /** The validation events emitted for failed candidates once the chain has run. */
  function CandidateEvents(chain: Fallback, tries: nat -> Tried, number: nat): seq<Step> {
    var r := ChainOutcome(chain, tries);
    if r.Won? then ValidationSteps(chain.names, r.failures, number)
    else FallbackProblemSteps(chain, ChainError(r), number)
  }

  /** Candidate `j` was called, has that name, and was refused by that validator for that reason. */
  predicate Refused(chain: Fallback, tries: nat -> Tried, name: string, validator: string, reason: string, j: nat) {
    && j < |chain.names| && j < ChainCalls(chain, tries) && chain.names[j] == name
    && tries(j) == Err(ValidationFailed(validator, reason))
  }

  predicate NamesCandidate(s: Step) {
    s.Emit? && s.event.ValidationRejected? && s.event.candidate.Some?
  }

  /** Every event that names a candidate is about a refusal of that candidate. */
  ghost predicate Truthful(chain: Fallback, tries: nat -> Tried, number: nat) {
    var events := CandidateEvents(chain, tries, number);
    forall i :: 0 <= i < |events| && NamesCandidate(events[i]) ==>
      var e := events[i].event;
      exists j :: Refused(chain, tries, e.candidate.value, e.validator, e.reason, j)
  }

  /** A failed chain of somebody else that would be read as this chain's failures: one of its first failures,
      as many as there are candidates here, is a validation failure. */
  predicate LooksOwn(chain: Fallback, failures: seq<Exn>) {
    exists i :: 0 <= i < |failures| && i < |chain.names| && failures[i].ValidationFailed?
  }

  /** Each validation event stems from a failure at some place and carries the name at that place. */
  lemma {:induction false} EventsByPlace(names: seq<string>, failures: seq<Exn>, number: nat, i: nat) returns (p: nat)
    requires i < |ValidationSteps(names, failures, number)|
    ensures p < |names| && p < |failures| && failures[p].ValidationFailed?
    ensures ValidationSteps(names, failures, number)[i] ==
      Emit(ValidationRejected(number, failures[p].validator, failures[p].reason, true, Some(names[p])))
    decreases |names|
  {
    if failures[0].ValidationFailed? && i == 0 {
      p := 0;
    } else {
      var i' := if failures[0].ValidationFailed? then i - 1 else i;
      var p' := EventsByPlace(names[1..], failures[1..], number, i');
      p := p' + 1;
    }
  }

  /** A validation failure with a candidate at its place is announced. */
  lemma {:induction false} PlaceHasEvent(names: seq<string>, failures: seq<Exn>, number: nat, p: nat) returns (i: nat)
    requires p < |names| && p < |failures| && failures[p].ValidationFailed?
    ensures i < |ValidationSteps(names, failures, number)|
    ensures ValidationSteps(names, failures, number)[i] ==
      Emit(ValidationRejected(number, failures[p].validator, failures[p].reason, true, Some(names[p])))
    decreases |names|
  {
    if p == 0 {
      i := 0;
    } else {
      var i' := PlaceHasEvent(names[1..], failures[1..], number, p - 1);
      i := if failures[0].ValidationFailed? then i' + 1 else i';
    }
  }

  lemma OwnEventsAreTruthful(chain: Fallback, tries: nat -> Tried, number: nat)
    requires var r := ChainOutcome(chain, tries);
      r.PassedOn? && r.error.FallbackChainFailed? ==> !LooksOwn(chain, r.error.failures)
    ensures Truthful(chain, tries, number)
  {
    var r := ChainOutcome(chain, tries);
    var events := CandidateEvents(chain, tries, number);
    forall i | 0 <= i < |events| && NamesCandidate(events[i])
      ensures var e := events[i].event;
        exists j :: Refused(chain, tries, e.candidate.value, e.validator, e.reason, j)
    {
      var failures := if r.Won? then r.failures else ChainError(r).failures;
      var p := EventsByPlace(chain.names, failures, number, i);
      assert Refused(chain, tries, chain.names[p], failures[p].validator, failures[p].reason, p);
    }
  }

  /** A candidate whose own fallback chain failed, with an exception that is not handed over, has its
      failures announced under this chain's candidates. */
  lemma ForeignFailuresAreMisread(chain: Fallback, failures: seq<Exn>, number: nat) returns (tries: nat -> Tried)
    requires chain.Valid() && LooksOwn(chain, failures) && !chain.fallbackOn(FallbackChainFailed(failures))
    ensures !Truthful(chain, tries, number)
  {
    var e := FallbackChainFailed(failures);
    tries := (i: nat) => Err(e);
    var p :| 0 <= p < |failures| && p < |chain.names| && failures[p].ValidationFailed?;
    assert ChainOutcome(chain, tries) == PassedOn(e);
    var i := PlaceHasEvent(chain.names, failures, number, p);
    assert NamesCandidate(CandidateEvents(chain, tries, number)[i]);
  }

  /** The code assumes that failure `i` belongs to candidate `i`. For whatever the candidates do, that is so
      exactly when the policy hands over on every chain failure that contains a validation failure among
      its first ones. */
  lemma AttributionIsTruthfulIff(chain: Fallback, number: nat)
    requires chain.Valid()
    ensures (forall tries :: Truthful(chain, tries, number)) <==>
      (forall failures :: LooksOwn(chain, failures) ==> chain.fallbackOn(FallbackChainFailed(failures)))
  {
    if failures :| LooksOwn(chain, failures) && !chain.fallbackOn(FallbackChainFailed(failures)) {
      var tries := ForeignFailuresAreMisread(chain, failures, number);
    } else {
      forall tries ensures Truthful(chain, tries, number) {
        OwnEventsAreTruthful(chain, tries, number);
      }
    }
  }
}
