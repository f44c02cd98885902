/** The use case that applies an anti-fraud decision: three guards, then the
    transaction service. */
module ProcessTransactionValidationUseCase {
  import opened Wrappers
  import opened Primitives
  import opened Text
  import opened TransactionStatusValue
  import opened ResultValue
  import opened Dtos
  import opened TransactionService

  /** The ordinal case-insensitive membership test against the three names. */
  predicate IsKnownStatus(value: string) {
    EqualsIgnoreCase(value, "pending") || EqualsIgnoreCase(value, "approved") || EqualsIgnoreCase(value, "rejected")
  }

  /** The membership test accepts exactly what `TransactionStatus.From` parses. */
  lemma {:induction false} KnownIffParses(value: string)
    ensures IsKnownStatus(value) <==> TransactionStatusValue.From(Some(value)).Ok?
  {
    NamesAreLower(Pending);
    NamesAreLower(Approved);
    NamesAreLower(Rejected);
    IgnoreCaseMatchesLower(value, "pending");
    IgnoreCaseMatchesLower(value, "approved");
    IgnoreCaseMatchesLower(value, "rejected");
  }

  /** The guards of `ExecuteAsync`, in order: the failure the first failing one
      returns, or `None` when the event may go to the service. */
  function Guard(ev: TransactionValidationEvent): (r: Option<Result<bool>>)
    ensures r.None? <==> ev.transactionExternalId != EmptyGuid && !IsNullOrWhiteSpace(ev.status) && IsKnownStatus(ev.status.value)
    ensures ev.transactionExternalId == EmptyGuid ==> r == Some(Failure("Transaction external ID cannot be empty"))
    ensures ev.transactionExternalId != EmptyGuid && IsNullOrWhiteSpace(ev.status) ==>
              r == Some(Failure("Transaction status cannot be empty"))
    ensures ev.transactionExternalId != EmptyGuid && !IsNullOrWhiteSpace(ev.status) && !IsKnownStatus(ev.status.value) ==>
              r == Some(Failure("Invalid transaction status: " + ev.status.value))
  {
    if ev.transactionExternalId == EmptyGuid then Some(Failure("Transaction external ID cannot be empty"))
    else if IsNullOrWhiteSpace(ev.status) then Some(Failure("Transaction status cannot be empty"))
    else if !IsKnownStatus(ev.status.value) then Some(Failure("Invalid transaction status: " + ev.status.value))
    else None
  }

  /** An event that passes the guards has a status the service can parse, so
      the service's own invalid-status failure cannot happen behind this use case. */
  lemma {:induction false} GuardedStatusParses(ev: TransactionValidationEvent)
    requires Guard(ev).None?
    ensures TransactionStatusValue.From(ev.status).Ok?
  {
    KnownIffParses(ev.status.value);
  }

  class ProcessTransactionValidationUseCase {
    const service: TransactionService

    constructor(service: TransactionService)
      ensures this.service == service
    {
      this.service := service;
    }

    /** `ExecuteAsync`: a guard failure is returned without calling the service;
        otherwise the service's result is returned unchanged. */
    method Execute(ev: TransactionValidationEvent, now: Timestamp, saveError: Option<string>) returns (r: Result<bool>)
      modifies service
      ensures Guard(ev).Some? ==> r == Guard(ev).value && unchanged(service)
      ensures Guard(ev).None? ==> Applied(r, service.rows) == ApplyDecisionOf(service.defaulting, old(service.rows), ev, now, saveError)
      ensures service.evaluationRequests == old(service.evaluationRequests)
    {
      var guard := Guard(ev);
      if guard.Some? {
        return guard.value;
      }
      r := service.ProcessTransactionValidation(ev, now, saveError);
    }
  }
}
