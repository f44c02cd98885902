/** The request, response and message shapes of the application layer. */
module Dtos {
  import opened Wrappers
  import opened Primitives

  /** `CreateTransactionRequest`. */
  datatype CreateTransactionRequest = CreateTransactionRequest(
    sourceAccountId: Guid, targetAccountId: Guid, transferTypeId: Int32, value: real)

  /** `GetTransactionRequest`; `createdAt` is carried but never read. */
  datatype GetTransactionRequest = GetTransactionRequest(transactionExternalId: Guid, createdAt: Option<Timestamp>)

  /** `TransactionResponse`. */
  datatype TransactionResponse = TransactionResponse(
    transactionExternalId: Guid, sourceAccountId: Guid, targetAccountId: Guid, transferTypeId: Int32,
    value: real, currency: string, status: string, createdAt: Timestamp, updatedAt: Option<Timestamp>)

  /** `TransactionValidationEvent`: the anti-fraud decision for one transaction;
      a null status or reason is `None`. */
  datatype TransactionValidationEvent = TransactionValidationEvent(
    transactionExternalId: Guid, status: Option<string>, reason: Option<string>, processedAt: Timestamp)
}
