/** `GetTransactionRequestValidator`: one rule, on the id. */
module GetTransactionRequestValidator {
  import opened Wrappers
  import opened Primitives
  import opened Dtos
  import opened ValidationResults
  import GetTransactionUseCase

  const EmptyId := ValidationResult(Some("Transaction external ID cannot be empty"), ["TransactionExternalId"])

  /** Every problem `Validate` reports: `[Required]` never fires on a `Guid`,
      so only the empty-id rule can. */
  function Violations(request: GetTransactionRequest): seq<ValidationResult> {
    if request.transactionExternalId == EmptyGuid then [EmptyId] else []
  }

  /** `Validate`. */
  method Validate(request: GetTransactionRequest) returns (results: seq<ValidationResult>)
    ensures results == Violations(request)
  {
    results := [];
    if request.transactionExternalId == EmptyGuid {
      results := results + [EmptyId];
    }
  }

  /** `IsValid`: valid exactly when the id is not empty; otherwise the one
      error is the empty-id message. */
  method IsValid(request: GetTransactionRequest) returns (valid: bool, errors: seq<string>)
    ensures valid <==> request.transactionExternalId != EmptyGuid
    ensures valid ==> errors == []
    ensures !valid ==> errors == ["Transaction external ID cannot be empty"]
  {
    var results := Validate(request);
    errors := Messages(results);
    valid := |results| == 0;
  }

  /** The validator and the use case guard accept the same requests, and
      neither looks at `createdAt`. */
  lemma AgreesWithUseCaseGuard(request: GetTransactionRequest, createdAt: Option<Timestamp>)
    ensures Violations(request) == [] <==> GetTransactionUseCase.Guard(request).None?
    ensures Violations(request.(createdAt := createdAt)) == Violations(request)
  {
  }
}
