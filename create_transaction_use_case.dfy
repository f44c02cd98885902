/** The use case that creates a transaction: two guards, then the transaction
    service. */
module CreateTransactionUseCase {
  import opened Wrappers
  import opened Primitives
  import opened ResultValue
  import opened Dtos
  import opened TransactionService

  /** The guards of `ExecuteAsync`, in order: the accounts must differ, then the
      value must be positive. */
  function Guard(request: CreateTransactionRequest): (r: Option<Result<TransactionResponse>>)
    ensures r.None? <==> request.sourceAccountId != request.targetAccountId && request.value > 0.0
    ensures request.sourceAccountId == request.targetAccountId ==>
              r == Some(Failure("Source and target accounts cannot be the same"))
    ensures request.sourceAccountId != request.targetAccountId && request.value <= 0.0 ==>
              r == Some(Failure("Transaction value must be greater than zero"))
  {
    if request.sourceAccountId == request.targetAccountId then Some(Failure("Source and target accounts cannot be the same"))
    else if request.value <= 0.0 then Some(Failure("Transaction value must be greater than zero"))
    else None
  }

  /** The guards already rule out what the aggregate's own creation check
      refuses: behind this use case the service fails only for an empty or
      inactive account, a non-positive transfer type or a failed save. */
  lemma GuardSubsumesAggregateCheck(activeAccounts: set<AccountIdValue.AccountId>, request: CreateTransactionRequest,
                                    generated: Guid, now: Timestamp, saveError: Option<string>)
    requires generated != EmptyGuid
    requires Guard(request).None?
    ensures CreateOf(activeAccounts, request, generated, now, saveError).result.IsSuccess() <==>
              && request.sourceAccountId != EmptyGuid && request.targetAccountId != EmptyGuid
              && AccountIdValue.AccountId(request.sourceAccountId) in activeAccounts
              && AccountIdValue.AccountId(request.targetAccountId) in activeAccounts
              && request.transferTypeId > 0 && saveError.None?
  {
    CreateSucceedsIff(activeAccounts, request, generated, now, saveError);
  }

  class CreateTransactionUseCase {
    const service: TransactionService

    constructor(service: TransactionService)
      ensures this.service == service
    {
      this.service := service;
    }

    /** `ExecuteAsync`: a guard failure is returned without calling the service;
        otherwise the service's result is returned unchanged. */
    method Execute(request: CreateTransactionRequest, generated: Guid, now: Timestamp, saveError: Option<string>)
      returns (r: Result<TransactionResponse>)
      requires generated != EmptyGuid
      modifies service
      ensures Guard(request).Some? ==> r == Guard(request).value && unchanged(service)
      ensures Guard(request).None? ==> r == CreateOf(service.activeAccounts, request, generated, now, saveError).result
      ensures Guard(request).None? ==>
                var added := CreateOf(service.activeAccounts, request, generated, now, saveError).added;
                service.rows == old(service.rows) + (if added.Some? then [added.value] else [])
      ensures Guard(request).None? ==>
                service.evaluationRequests == old(service.evaluationRequests) + (if r.IsSuccess() then [r.Value().value] else [])
    {
      var guard := Guard(request);
      if guard.Some? {
        return guard.value;
      }
      r := service.CreateTransaction(request, generated, now, saveError);
    }
  }
}
