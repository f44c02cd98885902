/** `CreateTransactionRequestValidator`: the data-annotation checks of the
    request record, then three checks of its own, all reported together. */
module CreateTransactionRequestValidator {
  import opened Wrappers
  import opened Primitives
  import opened Dtos
  import opened ValidationResults
  import CreateTransactionUseCase

  /** The five messages, each rule's own. */
  const TransferTypeMessage := "Transfer type ID must be greater than 0"
  const ValueMessage := "Value must be greater than 0"
  const SameAccountsMessage := "Source and target accounts cannot be the same"
  const EmptySourceMessage := "Source account ID cannot be empty"
  const EmptyTargetMessage := "Target account ID cannot be empty"

  const TransferTypeNotPositive := ValidationResult(Some(TransferTypeMessage), ["TransferTypeId"])
  const ValueTooSmall := ValidationResult(Some(ValueMessage), ["Value"])
  const SameAccounts := ValidationResult(Some(SameAccountsMessage), ["SourceAccountId", "TargetAccountId"])
  const EmptySource := ValidationResult(Some(EmptySourceMessage), ["SourceAccountId"])
  const EmptyTarget := ValidationResult(Some(EmptyTargetMessage), ["TargetAccountId"])

  /** The smallest value the `Range(0.01, double.MaxValue)` annotation admits. */
  const MinimumValue: real := 0.01

  /** The `Range(1, int.MaxValue)` annotation on the transfer type. */
  function TransferTypeRule(request: CreateTransactionRequest): seq<ValidationResult> {
    if request.transferTypeId < 1 then [TransferTypeNotPositive] else []
  }

  /** The `Range(0.01, double.MaxValue)` annotation on the value. */
  function ValueRule(request: CreateTransactionRequest): seq<ValidationResult> {
    if request.value < MinimumValue then [ValueTooSmall] else []
  }

  /** What `TryValidateObject` reports, property by property in declaration
      order. `[Required]` never fires on a `Guid`, `int` or `decimal`, and the
      upper bounds of both ranges cannot be exceeded by an `int` or a `decimal`. */
  function AnnotationResults(request: CreateTransactionRequest): seq<ValidationResult> {
    TransferTypeRule(request) + ValueRule(request)
  }

  function SameAccountsRule(request: CreateTransactionRequest): seq<ValidationResult> {
    if request.sourceAccountId == request.targetAccountId then [SameAccounts] else []
  }

  function EmptySourceRule(request: CreateTransactionRequest): seq<ValidationResult> {
    if request.sourceAccountId == EmptyGuid then [EmptySource] else []
  }

  function EmptyTargetRule(request: CreateTransactionRequest): seq<ValidationResult> {
    if request.targetAccountId == EmptyGuid then [EmptyTarget] else []
  }

  /** Every problem `Validate` reports, in the order it reports them. */
  function Violations(request: CreateTransactionRequest): seq<ValidationResult> {
    AnnotationResults(request) + SameAccountsRule(request) + EmptySourceRule(request) + EmptyTargetRule(request)
  }

  /** `Validate`: the results list is filled step by step; no check stops the
      later ones. */
  method Validate(request: CreateTransactionRequest) returns (results: seq<ValidationResult>)
    ensures results == Violations(request)
  {
    results := AnnotationResults(request);
    if request.sourceAccountId == request.targetAccountId {
      results := results + [SameAccounts];
    }
    if request.sourceAccountId == EmptyGuid {
      results := results + [EmptySource];
    }
    if request.targetAccountId == EmptyGuid {
      results := results + [EmptyTarget];
    }
  }

  /** `IsValid`: valid exactly when `Validate` reports nothing; the errors are
      the messages of what it reports. */
  method IsValid(request: CreateTransactionRequest) returns (valid: bool, errors: seq<string>)
    ensures valid <==> Violations(request) == []
    ensures errors == Messages(Violations(request))
    ensures valid <==> errors == []
  {
    var results := Validate(request);
    errors := Messages(results);
    valid := |results| == 0;
  }

  /** A request is valid exactly when all five rules hold. */
  lemma ValidIffAllRulesHold(request: CreateTransactionRequest)
    ensures Violations(request) == [] <==>
              && request.transferTypeId >= 1 && request.value >= MinimumValue
              && request.sourceAccountId != request.targetAccountId
              && request.sourceAccountId != EmptyGuid && request.targetAccountId != EmptyGuid
  {
  }

  /** The messages `IsValid` reports are the rules' messages, concatenated. */
  lemma {:induction false} MessagesByRule(request: CreateTransactionRequest)
    ensures Messages(Violations(request)) ==
              Messages(TransferTypeRule(request)) + Messages(ValueRule(request)) + Messages(SameAccountsRule(request))
              + Messages(EmptySourceRule(request)) + Messages(EmptyTargetRule(request))
  {
    var a, b, c := TransferTypeRule(request), ValueRule(request), SameAccountsRule(request);
    var d, e := EmptySourceRule(request), EmptyTargetRule(request);
    MessagesAppend(a, b);
    MessagesAppend(a + b, c);
    MessagesAppend(a + b + c, d);
    MessagesAppend(a + b + c + d, e);
  }

  /** Each rule contributes its own message exactly when it is broken. */
  lemma RuleMessages(request: CreateTransactionRequest)
    ensures Messages(TransferTypeRule(request)) == if request.transferTypeId < 1 then [TransferTypeMessage] else []
    ensures Messages(ValueRule(request)) == if request.value < MinimumValue then [ValueMessage] else []
    ensures Messages(SameAccountsRule(request)) ==
              if request.sourceAccountId == request.targetAccountId then [SameAccountsMessage] else []
    ensures Messages(EmptySourceRule(request)) == if request.sourceAccountId == EmptyGuid then [EmptySourceMessage] else []
    ensures Messages(EmptyTargetRule(request)) == if request.targetAccountId == EmptyGuid then [EmptyTargetMessage] else []
  {
  }

  /** The five messages are pairwise different: by length, and by first
      letter for the two of equal length. */
  lemma MessagesDistinct()
    ensures |TransferTypeMessage| == 39 && |ValueMessage| == 28 && |SameAccountsMessage| == 45
    ensures |EmptySourceMessage| == 33 && |EmptyTargetMessage| == 33 && EmptySourceMessage[0] != EmptyTargetMessage[0]
  {
  }

  /** A message is reported exactly when some broken rule carries it. */
  lemma {:induction false} ReportedMessages(request: CreateTransactionRequest, m: string)
    ensures m in Messages(Violations(request)) <==>
              || (request.transferTypeId < 1 && m == TransferTypeMessage)
              || (request.value < MinimumValue && m == ValueMessage)
              || (request.sourceAccountId == request.targetAccountId && m == SameAccountsMessage)
              || (request.sourceAccountId == EmptyGuid && m == EmptySourceMessage)
              || (request.targetAccountId == EmptyGuid && m == EmptyTargetMessage)
  {
    MessagesByRule(request);
    RuleMessages(request);
  }

  /** Each message is reported exactly when its rule is broken. */
  lemma {:induction false} EachMessageIffItsRule(request: CreateTransactionRequest)
    ensures TransferTypeMessage in Messages(Violations(request)) <==> request.transferTypeId < 1
    ensures ValueMessage in Messages(Violations(request)) <==> request.value < MinimumValue
    ensures SameAccountsMessage in Messages(Violations(request)) <==> request.sourceAccountId == request.targetAccountId
    ensures EmptySourceMessage in Messages(Violations(request)) <==> request.sourceAccountId == EmptyGuid
    ensures EmptyTargetMessage in Messages(Violations(request)) <==> request.targetAccountId == EmptyGuid
  {
    MessagesDistinct();
    ReportedMessages(request, TransferTypeMessage);
    ReportedMessages(request, ValueMessage);
    ReportedMessages(request, SameAccountsMessage);
    ReportedMessages(request, EmptySourceMessage);
    ReportedMessages(request, EmptyTargetMessage);
  }

  /** Every result names at least one property, and only properties of the request. */
  lemma MembersAreRequestProperties(request: CreateTransactionRequest)
    ensures forall r :: r in Violations(request) ==>
              r.errorMessage.Some? && r.memberNames != [] &&
              forall m :: m in r.memberNames ==> m in {"SourceAccountId", "TargetAccountId", "TransferTypeId", "Value"}
  {
  }

  /** A request with both accounts empty, a zero transfer type and a negative
      value is reported five times, in rule order. */
  lemma EverythingWrongReportsAll(request: CreateTransactionRequest)
    requires request.sourceAccountId == EmptyGuid && request.targetAccountId == EmptyGuid
    requires request.transferTypeId == 0 && request.value < 0.0
    ensures Messages(Violations(request)) == [
              "Transfer type ID must be greater than 0", "Value must be greater than 0",
              "Source and target accounts cannot be the same",
              "Source account ID cannot be empty", "Target account ID cannot be empty"]
  {
    assert Violations(request) == [TransferTypeNotPositive, ValueTooSmall, SameAccounts, EmptySource, EmptyTarget];
  }

  /** A request this validator accepts also passes the guards of the creation
      use case; the converse fails for a value strictly between 0 and 0.01. */
  lemma {:induction false} ValidPassesUseCaseGuard(request: CreateTransactionRequest)
    ensures Violations(request) == [] ==> CreateTransactionUseCase.Guard(request).None?
    ensures request.sourceAccountId != request.targetAccountId && request.sourceAccountId != EmptyGuid &&
            request.targetAccountId != EmptyGuid && request.transferTypeId >= 1 && request.value == 0.005 ==>
              CreateTransactionUseCase.Guard(request).None? && Violations(request) != []
  {
    ValidIffAllRulesHold(request);
  }
}
