/** The exceptions that travel through the library. Policies see them only through predicates
    (`isinstance` against a configured tuple), so those predicates are kept abstract elsewhere. */
module Exceptions {
  import opened Prelude
  import CircuitBreakers

  datatype Exn =
    | Application(class_: nat, id: nat)
    | BuiltinTimeout(id: nat)
    | OperationTimeout(cause: Exn)
    | ValidationFailed(validator: string, reason: string)
    | BreakerOpen(state: CircuitBreakers.Phase, retryAfter: Option<real>)
    | RetryAfterExtraction(limited: Exn, extractorError: Option<Exn>)
    | FallbackChainFailed(failures: seq<Exn>)
    | RetryExhausted(attempts: nat, lastCause: Exn)
    | Reentry(key: string)

  /** The class of an exception: all that events and reports record of its type. */
  datatype Class =
    | ApplicationClass(class_: nat)
    | BuiltinTimeoutClass
    | OperationTimeoutClass
    | ValidationFailedClass
    | BreakerOpenClass
    | RetryAfterExtractionClass
    | FallbackChainClass
    | RetryClass
    | ReentryClass

  function ClassOf(e: Exn): (c: Class)
    ensures c.OperationTimeoutClass? <==> e.OperationTimeout?
  {
    match e
    case Application(k, _) => ApplicationClass(k)
    case BuiltinTimeout(_) => BuiltinTimeoutClass
    case OperationTimeout(_) => OperationTimeoutClass
    case ValidationFailed(_, _) => ValidationFailedClass
    case BreakerOpen(_, _) => BreakerOpenClass
    case RetryAfterExtraction(_, _) => RetryAfterExtractionClass
    case FallbackChainFailed(_) => FallbackChainClass
    case RetryExhausted(_, _) => RetryClass
    case Reentry(_) => ReentryClass
  }

  /** The class on record tells the kinds of exception apart, and the application's own classes. */
  lemma ClassTellsKinds(e: Exn)
    ensures ClassOf(e).BuiltinTimeoutClass? <==> e.BuiltinTimeout?
    ensures ClassOf(e).OperationTimeoutClass? <==> e.OperationTimeout?
    ensures ClassOf(e).ValidationFailedClass? <==> e.ValidationFailed?
    ensures ClassOf(e).BreakerOpenClass? <==> e.BreakerOpen?
    ensures ClassOf(e).RetryAfterExtractionClass? <==> e.RetryAfterExtraction?
    ensures ClassOf(e).FallbackChainClass? <==> e.FallbackChainFailed?
    ensures ClassOf(e).RetryClass? <==> e.RetryExhausted?
    ensures ClassOf(e).ReentryClass? <==> e.Reentry?
    ensures forall c :: ClassOf(e) == ApplicationClass(c) <==> e.Application? && e.class_ == c
  {
  }

  /** The application's values; the library only passes them on. */
  type Value = nat

  /** How one call of an application callable ends. */
  datatype Call = Returned(value: Value) | Raised(error: Exn)
}
