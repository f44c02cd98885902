/** The use case that reads a transaction: one guard, then the transaction service. */
module GetTransactionUseCase {
  import opened Wrappers
  import opened Primitives
  import opened ResultValue
  import opened Dtos
  import opened TransactionService

  /** The guard of `ExecuteAsync`: the id must not be empty; `createdAt` is
      not looked at. */
  function Guard(request: GetTransactionRequest): (r: Option<Result<TransactionResponse>>)
    ensures r.None? <==> request.transactionExternalId != EmptyGuid
    ensures r.Some? ==> r.value == Failure("Transaction external ID cannot be empty")
  {
    if request.transactionExternalId == EmptyGuid then Some(Failure("Transaction external ID cannot be empty"))
    else None
  }

  /** Whatever the creation date in the request, the guard decides the same. */
  lemma CreatedAtIgnored(request: GetTransactionRequest, createdAt: Option<Timestamp>)
    ensures Guard(request.(createdAt := createdAt)) == Guard(request)
  {
  }

  class GetTransactionUseCase {
    const service: TransactionService

    constructor(service: TransactionService)
      ensures this.service == service
    {
      this.service := service;
    }

    /** `ExecuteAsync`: the guard failure, or the service's answer unchanged. */
    method Execute(request: GetTransactionRequest) returns (r: Result<TransactionResponse>)
      ensures Guard(request).Some? ==> r == Guard(request).value
      ensures Guard(request).None? ==> r == service.GetTransaction(request)
    {
      var guard := Guard(request);
      if guard.Some? {
        return guard.value;
      }
      r := service.GetTransaction(request);
    }
  }
}
