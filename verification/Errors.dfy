/** Reason codes and the result of an operation that may raise a governed error. */
module Errors {

  datatype ReasonCode =
    | UnsupportedCapability | NotAuthorized | PolicyEpochChanged | ObjectNotFound
    | RuleConflict | RuleClosureNotConverged | MandatoryRuleUnresolved
    | NoApprovedPath | AmbiguousPath | FanOutUnproven
    | UnresolvedReference | UnsupportedOperator | MaterialAmbiguity | CompilerDefect
    | ValidationFailed | UnsafeQuery | ResultContractBreach | CoverageIncomplete
    | BudgetExhausted | ExecutionFailed | DiscoveryDenied
    // An exception outside the governed errors.
    | Uncaught

  datatype Outcome<+T> = Ok(value: T) | Raise(code: ReasonCode) {

    predicate IsFailure() {
      Raise?
    }

    function PropagateFailure<U>(): Outcome<U>
      requires Raise?
    {
      Raise(code)
    }

    function Extract(): T
      requires Ok?
    {
      value
    }
  }

  datatype Option<+T> = None | Some(value: T)
}
