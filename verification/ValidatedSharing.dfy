/** An operation with both an idempotency store and validators: what callers receive. */
module ValidatedSharing {
  import opened Policies
  import opened IdempotencyRuns
  import opened IdempotencyHistory
  import OperationSpec
  import OperationReports

  /** A step logs a success only for an owner that finished, with the value it finished with. */
  lemma SuccessIsFinish<V>(s: System<V>, a: Action<V>)
    requires WellFormed(s) && Enabled(s, a)
    ensures s.log <= Next(s, a).log
    ensures forall j :: |s.log| <= j < |Next(s, a).log| && Next(s, a).log[j].Succeeded? ==>
      a.Finish? && Next(s, a).log[j].value == a.value
  {
  }

  lemma {:induction false} SuccessesAreFinished<V>(ss: seq<System<V>>, acts: seq<Action<V>>, n: nat, good: V -> bool)
    requires IsRun(ss, acts) && n <= |acts|
    requires forall i :: 0 <= i < |acts| && acts[i].Finish? ==> good(acts[i].value)
    ensures forall j :: 0 <= j < |ss[n].log| && ss[n].log[j].Succeeded? ==> good(ss[n].log[j].value)
  {
    if n > 0 {
      ReachableInv(ss, acts, n - 1);
      SuccessesAreFinished(ss, acts, n - 1, good);
      SuccessIsFinish(ss[n - 1], acts[n - 1]);
      hide Next;
      var before, after := ss[n - 1].log, ss[n].log;
      forall j | 0 <= j < |after| && after[j].Succeeded? ensures good(after[j].value) {
        assert j < |before| ==> after[j] == before[j];
      }
    }
  }

  /** The executions of one operation: an owner that finishes has completed a run of it. */
  ghost predicate ExecutesOperation(op: OperationSpec.Operation, acts: seq<Action<OperationSpec.Outcome>>)
    requires op.Valid()
  {
    forall i :: 0 <= i < |acts| && acts[i].Finish? ==>
      acts[i].value.Completed? && exists sc :: acts[i].value == OperationSpec.OutcomeOf(op, sc)
  }

  predicate Acceptable(validators: seq<Validator>, o: OperationSpec.Outcome) {
    o.Completed? && Accepts(validators, o.value)
  }

  /** With a validation policy, every result any caller of the shared operation receives, whether it
      ran the operation, joined a run or was given a cached result, holds a value that every validator passed. */
  lemma NoUnvalidatedValueEscapes(op: OperationSpec.Operation, ss: seq<System<OperationSpec.Outcome>>,
                                  acts: seq<Action<OperationSpec.Outcome>>, n: nat, i: nat)
    requires op.Valid() && op.validators.Some?
    requires IsRun(ss, acts) && n <= |acts| && ExecutesOperation(op, acts)
    requires i < |ss[n].log| && ss[n].log[i].Delivered?
    ensures ss[n].log[i].value.Completed? && Accepts(op.validators.value, ss[n].log[i].value.value)
  {
    hide Accepts;
    var good := (o: OperationSpec.Outcome) => Acceptable(op.validators.value, o);
    FinishedAreGood(op, acts);
    SuccessesAreFinished(ss, acts, n, good);
    DeliveredValuesAreProduced(ss, acts, n, good);
    assert good(ss[n].log[i].value);
  }

  lemma FinishedAreGood(op: OperationSpec.Operation, acts: seq<Action<OperationSpec.Outcome>>)
    requires op.Valid() && op.validators.Some? && ExecutesOperation(op, acts)
    ensures forall i :: 0 <= i < |acts| && acts[i].Finish? ==> Acceptable(op.validators.value, acts[i].value)
  {
    hide OperationSpec.OutcomeOf;
    hide Accepts;
    forall i | 0 <= i < |acts| && acts[i].Finish? ensures Acceptable(op.validators.value, acts[i].value) {
      var sc :| acts[i].value == OperationSpec.OutcomeOf(op, sc);
      var _ := OperationReports.ReturnedValueIsValidated(op, sc);
    }
  }
}
