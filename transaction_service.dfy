/** The transaction service: creates transactions, reads them back and applies
    the anti-fraud decisions to the stored transactions. */
module TransactionService {
  import opened Wrappers
  import opened Primitives
  import opened Text
  import opened TransactionStatusValue
  import opened MoneyValue
  import opened TransactionIdValue
  import opened AccountIdValue
  import opened TransferTypeIdValue
  import opened TransactionEntity
  import opened TransactionRepository
  import opened ResultValue
  import opened Dtos
  import opened TransactionMapper
  import TransactionDomainService
  import AntifraudService

  const DefaultRejectionReason: string := "Rejected by anti-fraud system"

  /** What a creation call returns, and the row it persisted, if any. */
  datatype Creation = Creation(result: Result<TransactionResponse>, added: Option<TransactionRecord>)

  /** What applying a decision returns, and the table afterwards. */
  datatype Applied = Applied(result: Result<bool>, rows: seq<TransactionRecord>)

  function CreationFailure(message: string): Creation {
    Creation(Failure(message), None)
  }

  /** `CreateTransactionAsync`. `activeAccounts` holds the accounts the account
      repository reports as existing (and active); `generated` is the new id's
      Guid, `now` the clock, and `saveError` the message of a failed save. */
  function CreateOf(activeAccounts: set<AccountId>, request: CreateTransactionRequest, generated: Guid,
                    now: Timestamp, saveError: Option<string>): (c: Creation)
    requires generated != EmptyGuid
    ensures c.added.Some? <==> c.result.IsSuccess()
  {
    var source := AccountIdValue.From(request.sourceAccountId);
    if source.Throws? then CreationFailure(source.exception.Message())
    else
      var target := AccountIdValue.From(request.targetAccountId);
      if target.Throws? then CreationFailure(target.exception.Message())
      else if source.value !in activeAccounts then
        CreationFailure("Source account " + GuidText(request.sourceAccountId) + " does not exist")
      else if target.value !in activeAccounts then
        CreationFailure("Target account " + GuidText(request.targetAccountId) + " does not exist")
      else
        var transferType := TransferTypeIdValue.From(request.transferTypeId);
        if transferType.Throws? then CreationFailure(transferType.exception.Message())
        else
          var value := FromDecimal(request.value);
          if value.Throws? then CreationFailure(value.exception.Message())
          else
            var invalid := ValidateCreationParameters(source.value, target.value, transferType.value, value.value);
            if invalid.Some? then CreationFailure(invalid.value.Message())
            else if saveError.Some? then
              CreationFailure("An error occurred while creating the transaction: " + saveError.value)
            else
              var row := TransactionRecord(TransactionId(generated), source.value, target.value, transferType.value,
                                           value.value, Pending, now, None);
              Creation(Success(ToResponse(row)), Some(row))
  }

  /** The reason defaulting as written: `Rejected by anti-fraud system` stands
      in for a null reason, and only for null. */
  function ReasonOrDefault(reason: Option<string>): (r: string)
    ensures reason.Some? ==> r == reason.value
    ensures reason.None? ==> !IsBlank(r)
  {
    assert !IsWhiteSpace(DefaultRejectionReason[0]);
    if reason.Some? then reason.value else DefaultRejectionReason
  }

  /** The intended defaulting: any null or blank reason becomes the default text. */
  function IntendedReasonOrDefault(reason: Option<string>): (r: string)
    ensures !IsBlank(r)
    ensures !IsNullOrWhiteSpace(reason) ==> r == reason.value
  {
    assert !IsWhiteSpace(DefaultRejectionReason[0]);
    if IsNullOrWhiteSpace(reason) then DefaultRejectionReason else reason.value
  }

  /** Which reason defaulting a decision applier uses: `??` as written, or
      the intended one that also replaces a blank reason. */
  datatype Defaulting = AsWritten | Intended

  function DefaultReason(d: Defaulting, reason: Option<string>): (r: string)
    ensures d == AsWritten ==> r == ReasonOrDefault(reason)
    ensures d == Intended ==> r == IntendedReasonOrDefault(reason)
  {
    match d
    case AsWritten => ReasonOrDefault(reason)
    case Intended => IntendedReasonOrDefault(reason)
  }

  /** What a decision status does to a lifecycle: approve, reject (with the
      defaulted reason), or nothing for "pending". */
  function Decide(d: Defaulting, id: TransactionId, s: Lifecycle, decision: TransactionStatus, reason: Option<string>,
                  now: Timestamp): (r: Outcome<Lifecycle>)
    ensures decision == Pending ==> r == Ok(s)
    ensures decision == Approved ==> r == ApproveOf(id, s, now)
    ensures decision == Rejected ==> r == RejectOf(id, s, Some(DefaultReason(d, reason)), now)
  {
    match decision
    case Approved => ApproveOf(id, s, now)
    case Rejected => RejectOf(id, s, Some(DefaultReason(d, reason)), now)
    case Pending => Ok(s)
  }

  function ProcessingFailure(message: string): Result<bool> {
    Failure("An error occurred while processing validation: " + message)
  }

  /** `ProcessTransactionValidationAsync` on the table `rows`, with the reason
      defaulting `d`; `saveError` is the message of a failed save. A failure
      leaves the table as it was. */
  function ApplyDecisionOf(d: Defaulting, rows: seq<TransactionRecord>, ev: TransactionValidationEvent, now: Timestamp,
                           saveError: Option<string>): (a: Applied)
    ensures a.result.IsFailure() ==> a.rows == rows
    ensures |a.rows| == |rows|
  {
    var found := GetByExternalId(rows, ev.transactionExternalId);
    if found.Throws? then Applied(ProcessingFailure(found.exception.Message()), rows)
    else if found.value.None? then
      Applied(Failure("Transaction " + GuidText(ev.transactionExternalId) + " not found"), rows)
    else ApplyToRow(d, rows, IndexOf(rows, TransactionId(ev.transactionExternalId)).value, ev, now, saveError)
  }

  /** The part of `ApplyDecisionOf` after the transaction was found at index `i`. */
  function ApplyToRow(d: Defaulting, rows: seq<TransactionRecord>, i: nat, ev: TransactionValidationEvent, now: Timestamp,
                      saveError: Option<string>): (a: Applied)
    requires i < |rows|
    ensures a.result.IsFailure() ==> a.rows == rows
    ensures |a.rows| == |rows|
  {
    var row := rows[i];
    var decision := TransactionStatusValue.From(ev.status);
    if decision.Throws? then Applied(ProcessingFailure(decision.exception.Message()), rows)
    else
      var next := Decide(d, row.id, Lifecycle(row.status, row.updatedAt, []), decision.value, ev.reason, now);
      if next.Throws? then Applied(ProcessingFailure(next.exception.Message()), rows)
      else if saveError.Some? then Applied(ProcessingFailure(saveError.value), rows)
      else Applied(Success(true), UpdateRow(rows, i, row.(status := next.value.status, updatedAt := next.value.updatedAt)))
  }

  /** A decision naming the row at index `i`, the first with its id, reaches that row. */
  lemma FoundAt(d: Defaulting, rows: seq<TransactionRecord>, i: nat, ev: TransactionValidationEvent, now: Timestamp, saveError: Option<string>)
    requires i < |rows| && rows[i].id.value == ev.transactionExternalId && IndexOf(rows, rows[i].id) == Some(i)
    requires ev.transactionExternalId != EmptyGuid
    ensures ApplyDecisionOf(d, rows, ev, now, saveError) == ApplyToRow(d, rows, i, ev, now, saveError)
  {
    assert rows[i].id == TransactionId(ev.transactionExternalId);
  }

  class TransactionService {
    /** The Transactions table. */
    var rows: seq<TransactionRecord>
    /** The accounts `ExistsAsync` reports: existing and active. */
    const activeAccounts: set<AccountId>
    /** The reason defaulting its decision applier uses. */
    const defaulting: Defaulting
    /** The responses handed to the anti-fraud evaluation, which runs detached. */
    ghost var evaluationRequests: seq<TransactionResponse>

    constructor(rows: seq<TransactionRecord>, activeAccounts: set<AccountId>, defaulting: Defaulting)
      ensures this.rows == rows && this.activeAccounts == activeAccounts && this.defaulting == defaulting
      ensures evaluationRequests == []
    {
      this.rows := rows;
      this.activeAccounts := activeAccounts;
      this.defaulting := defaulting;
      evaluationRequests := [];
    }

    /** `CreateTransactionAsync`: on success the new row is appended and its
        response is sent for evaluation; on failure nothing changes. */
    method CreateTransaction(request: CreateTransactionRequest, generated: Guid, now: Timestamp, saveError: Option<string>)
      returns (r: Result<TransactionResponse>)
      requires generated != EmptyGuid
      modifies this
      ensures r == CreateOf(activeAccounts, request, generated, now, saveError).result
      ensures var added := CreateOf(activeAccounts, request, generated, now, saveError).added;
                rows == old(rows) + (if added.Some? then [added.value] else [])
      ensures evaluationRequests == old(evaluationRequests) + (if r.IsSuccess() then [r.Value().value] else [])
    {
      var source := AccountIdValue.From(request.sourceAccountId);
      if source.Throws? {
        return Failure(source.exception.Message());
      }
      var sourceExists := source.value in activeAccounts;
      var target := AccountIdValue.From(request.targetAccountId);
      if target.Throws? {
        return Failure(target.exception.Message());
      }
      var targetExists := target.value in activeAccounts;
      if !sourceExists {
        return Failure("Source account " + GuidText(request.sourceAccountId) + " does not exist");
      }
      if !targetExists {
        return Failure("Target account " + GuidText(request.targetAccountId) + " does not exist");
      }
      var transferType := TransferTypeIdValue.From(request.transferTypeId);
      if transferType.Throws? {
        return Failure(transferType.exception.Message());
      }
      var value := FromDecimal(request.value);
      if value.Throws? {
        return Failure(value.exception.Message());
      }
      var created := Transaction.Create(source.value, target.value, transferType.value, value.value, generated, now);
      if created.Throws? {
        return Failure(created.exception.Message());
      }
      var transaction := created.value;
      if saveError.Some? {
        return Failure("An error occurred while creating the transaction: " + saveError.value);
      }
      rows := rows + [transaction.Record()];
      var response := ToResponse(transaction.Record());
      evaluationRequests := evaluationRequests + [response];
      r := Success(response);
    }

    /** `GetTransactionAsync`: the response for the first row with the id, a
        not-found failure, or the failure the empty id causes in the lookup. */
    function GetTransaction(request: GetTransactionRequest): (r: Result<TransactionResponse>)
      reads this
      ensures r.IsSuccess() <==> request.transactionExternalId != EmptyGuid && exists x :: x in rows && x.id.value == request.transactionExternalId
      ensures r.IsSuccess() ==> exists x :: x in rows && x.id.value == request.transactionExternalId && r.Value() == Some(ToResponse(x))
      ensures request.transactionExternalId == EmptyGuid ==>
                r.Error() == "An error occurred while retrieving the transaction: " + TransactionIdValue.EmptyId.Message()
      ensures request.transactionExternalId != EmptyGuid && r.IsFailure() ==>
                r.Error() == "Transaction " + GuidText(request.transactionExternalId) + " not found"
    {
      var found := GetByExternalId(rows, request.transactionExternalId);
      if found.Throws? then Failure("An error occurred while retrieving the transaction: " + found.exception.Message())
      else if found.value.None? then Failure("Transaction " + GuidText(request.transactionExternalId) + " not found")
      else Success(ToResponse(found.value.value))
    }

    /** `ProcessTransactionValidationAsync`: loads the transaction, lets it
        approve or reject itself, and writes it back. */
    method ProcessTransactionValidation(ev: TransactionValidationEvent, now: Timestamp, saveError: Option<string>)
      returns (r: Result<bool>)
      modifies this
      ensures Applied(r, rows) == ApplyDecisionOf(defaulting, old(rows), ev, now, saveError)
      ensures evaluationRequests == old(evaluationRequests)
    {
      var found := GetByExternalId(rows, ev.transactionExternalId);
      if found.Throws? {
        return ProcessingFailure(found.exception.Message());
      }
      if found.value.None? {
        return Failure("Transaction " + GuidText(ev.transactionExternalId) + " not found");
      }
      var transaction := new Transaction.Load(found.value.value);
      var decision := TransactionStatusValue.From(ev.status);
      if decision.Throws? {
        return ProcessingFailure(decision.exception.Message());
      }
      var error: Option<Exception> := None;
      if decision.value.IsApproved() {
        error := transaction.Approve(now);
      } else if decision.value.IsRejected() {
        error := transaction.Reject(Some(DefaultReason(defaulting, ev.reason)), now);
      }
      if error.Some? {
        return ProcessingFailure(error.value.Message());
      }
      if saveError.Some? {
        return ProcessingFailure(saveError.value);
      }
      var i := IndexOf(rows, transaction.id).value;
      rows := UpdateRow(rows, i, transaction.Record());
      r := Success(true);
    }
  }

  /** A creation succeeds exactly when both ids are non-empty and active, the
      transfer type is positive, the amount is positive, the accounts differ and
      the save goes through. */
  lemma CreateSucceedsIff(activeAccounts: set<AccountId>, request: CreateTransactionRequest, generated: Guid,
                          now: Timestamp, saveError: Option<string>)
    requires generated != EmptyGuid
    ensures CreateOf(activeAccounts, request, generated, now, saveError).result.IsSuccess() <==>
              && request.sourceAccountId != EmptyGuid && request.targetAccountId != EmptyGuid
              && AccountId(request.sourceAccountId) in activeAccounts && AccountId(request.targetAccountId) in activeAccounts
              && request.transferTypeId > 0 && request.value > 0.0
              && request.sourceAccountId != request.targetAccountId && saveError.None?
  {
  }

  /** A missing source account is reported even when the target is missing too. */
  lemma MissingSourceReportedFirst(activeAccounts: set<AccountId>, request: CreateTransactionRequest, generated: Guid,
                                   now: Timestamp, saveError: Option<string>)
    requires generated != EmptyGuid
    requires request.sourceAccountId != EmptyGuid && request.targetAccountId != EmptyGuid
    requires AccountId(request.sourceAccountId) !in activeAccounts
    ensures CreateOf(activeAccounts, request, generated, now, saveError).result.Error()
         == "Source account " + GuidText(request.sourceAccountId) + " does not exist"
  {
  }

  /** A created transaction mirrors the request: the new id, the two accounts,
      the transfer type and the amount in US dollars, pending and never updated,
      stored as exactly the row the response describes. */
  lemma {:induction false} CreatedMirrorsRequest(activeAccounts: set<AccountId>, request: CreateTransactionRequest, generated: Guid,
                                                 now: Timestamp, saveError: Option<string>)
    requires generated != EmptyGuid
    requires CreateOf(activeAccounts, request, generated, now, saveError).result.IsSuccess()
    ensures var c := CreateOf(activeAccounts, request, generated, now, saveError);
              var response := c.result.Value().value;
              && response == TransactionResponse(generated, request.sourceAccountId, request.targetAccountId,
                                                 request.transferTypeId, request.value, "USD", "pending", now, None)
              && response == ToResponse(c.added.value)
              && c.added.value.status == Pending
  {
    var c := CreateOf(activeAccounts, request, generated, now, saveError);
    assert TransactionStatusValue.From(Some(c.result.Value().value.status)) == Ok(Pending);
    FromValueRoundTrip(Pending);
  }

  /** An empty transfer type or a non-positive amount is refused with the
      message of the value object's ArgumentException. */
  lemma BadTransferTypeReported(activeAccounts: set<AccountId>, request: CreateTransactionRequest, generated: Guid,
                                now: Timestamp, saveError: Option<string>)
    requires generated != EmptyGuid
    requires request.sourceAccountId != EmptyGuid && request.targetAccountId != EmptyGuid
    requires AccountId(request.sourceAccountId) in activeAccounts && AccountId(request.targetAccountId) in activeAccounts
    requires request.transferTypeId <= 0
    ensures CreateOf(activeAccounts, request, generated, now, saveError).result.Error()
         == "Transfer type ID must be greater than zero (Parameter 'value')"
  {
  }

  /** A decision for an id that is not stored fails and changes nothing. */
  lemma UnknownTransactionRefused(d: Defaulting, rows: seq<TransactionRecord>, ev: TransactionValidationEvent, now: Timestamp, saveError: Option<string>)
    requires ev.transactionExternalId != EmptyGuid
    requires forall x :: x in rows ==> x.id.value != ev.transactionExternalId
    ensures ApplyDecisionOf(d, rows, ev, now, saveError)
         == Applied(Failure("Transaction " + GuidText(ev.transactionExternalId) + " not found"), rows)
  {
  }

  /** A second decision is refused: once a transaction is approved
      or rejected, applying "approved" or "rejected" to it fails with the
      aggregate's error and leaves the table unchanged. */
  lemma DuplicateDecisionRefused(d: Defaulting, rows: seq<TransactionRecord>, i: nat, ev: TransactionValidationEvent, now: Timestamp,
                                 saveError: Option<string>)
    requires i < |rows| && rows[i].id.value == ev.transactionExternalId && IndexOf(rows, rows[i].id) == Some(i)
    requires ev.transactionExternalId != EmptyGuid
    requires rows[i].status != Pending
    requires TransactionStatusValue.From(ev.status) == Ok(Approved) || TransactionStatusValue.From(ev.status) == Ok(Rejected)
    ensures ApplyDecisionOf(d, rows, ev, now, saveError).rows == rows
    ensures TransactionStatusValue.From(ev.status) == Ok(Approved) ==>
              ApplyDecisionOf(d, rows, ev, now, saveError).result == ProcessingFailure("Only pending transactions can be approved")
    ensures TransactionStatusValue.From(ev.status) == Ok(Rejected) ==>
              ApplyDecisionOf(d, rows, ev, now, saveError).result == ProcessingFailure("Only pending transactions can be rejected")
  {
    FoundAt(d, rows, i, ev, now, saveError);
    var s := Lifecycle(rows[i].status, rows[i].updatedAt, []);
    var decision := TransactionStatusValue.From(ev.status).value;
    if decision == Approved {
      assert Decide(d, rows[i].id, s, decision, ev.reason, now) == Throws(NotPendingForApproval);
    } else {
      assert Decide(d, rows[i].id, s, decision, ev.reason, now) == Throws(NotPendingForRejection);
    }
  }

  /** A "pending" decision approves and rejects nothing: the call succeeds once
      saved, and the table is as it was. */
  lemma PendingDecisionChangesNothing(d: Defaulting, rows: seq<TransactionRecord>, i: nat, ev: TransactionValidationEvent, now: Timestamp)
    requires i < |rows| && rows[i].id.value == ev.transactionExternalId && IndexOf(rows, rows[i].id) == Some(i)
    requires ev.transactionExternalId != EmptyGuid
    requires TransactionStatusValue.From(ev.status) == Ok(Pending)
    ensures ApplyDecisionOf(d, rows, ev, now, None) == Applied(Success(true), rows)
  {
    FoundAt(d, rows, i, ev, now, None);
    assert rows[i].(status := rows[i].status, updatedAt := rows[i].updatedAt) == rows[i];
  }

  /** An "approved" or "rejected" decision on a pending transaction is applied
      to that row only. As written, a rejection needs a missing or non-blank
      reason; with the intended defaulting any reason will do. */
  lemma {:induction false} DecisionApplied(d: Defaulting, rows: seq<TransactionRecord>, i: nat, ev: TransactionValidationEvent, now: Timestamp)
    requires i < |rows| && rows[i].id.value == ev.transactionExternalId && IndexOf(rows, rows[i].id) == Some(i)
    requires ev.transactionExternalId != EmptyGuid
    requires rows[i].status == Pending
    requires TransactionStatusValue.From(ev.status) == Ok(Approved) || TransactionStatusValue.From(ev.status) == Ok(Rejected)
    requires d == Intended || TransactionStatusValue.From(ev.status) == Ok(Approved) || ev.reason.None? || !IsBlank(ev.reason.value)
    ensures var a := ApplyDecisionOf(d, rows, ev, now, None);
              && a.result == Success(true)
              && a.rows == rows[i := rows[i].(status := TransactionStatusValue.From(ev.status).value, updatedAt := Some(now))]
  {
    FoundAt(d, rows, i, ev, now, None);
  }

  /** As written, a "rejected" decision with a blank but non-null reason on a
      pending transaction fails with the aggregate's message, and the row
      stays pending. */
  lemma {:induction false} BlankRejectionFails(rows: seq<TransactionRecord>, i: nat, ev: TransactionValidationEvent, now: Timestamp,
                                               saveError: Option<string>)
    requires i < |rows| && rows[i].id.value == ev.transactionExternalId && IndexOf(rows, rows[i].id) == Some(i)
    requires ev.transactionExternalId != EmptyGuid
    requires rows[i].status == Pending
    requires TransactionStatusValue.From(ev.status) == Ok(Rejected)
    requires ev.reason.Some? && IsBlank(ev.reason.value)
    ensures ApplyDecisionOf(AsWritten, rows, ev, now, saveError)
         == Applied(ProcessingFailure("Rejection reason is required (Parameter 'reason')"), rows)
  {
    FoundAt(AsWritten, rows, i, ev, now, saveError);
    var s := Lifecycle(rows[i].status, rows[i].updatedAt, []);
    BlankReasonRefused(rows[i].id, s, ev.reason, now);
    assert Decide(AsWritten, rows[i].id, s, Rejected, ev.reason, now) == Throws(ReasonRequired);
    assert ApplyToRow(AsWritten, rows, i, ev, now, saveError) == Applied(ProcessingFailure(ReasonRequired.Message()), rows);
    ReasonRequiredMessage();
  }

  lemma ReasonRequiredMessage()
    ensures ReasonRequired.Message() == "Rejection reason is required (Parameter 'reason')"
  {
  }

  /** The defaulting as written lets a blank but non-null reason through to
      `Reject`, which refuses it: rejecting a pending transaction with "" fails. */
  lemma BlankReasonRefused(id: TransactionId, s: Lifecycle, reason: Option<string>, now: Timestamp)
    requires s.status == Pending
    requires reason.Some? && IsBlank(reason.value)
    ensures ReasonOrDefault(reason) == reason.value
    ensures RejectOf(id, s, Some(ReasonOrDefault(reason)), now) == Throws(ReasonRequired)
  {
  }

  /** With the intended defaulting a "rejected" decision on a pending
      transaction is always applied, whatever reason (if any) it carries. */
  lemma IntendedRejectionAlwaysApplies(id: TransactionId, s: Lifecycle, reason: Option<string>, now: Timestamp)
    requires s.status == Pending
    ensures RejectOf(id, s, Some(IntendedReasonOrDefault(reason)), now).Ok?
    ensures RejectOf(id, s, Some(IntendedReasonOrDefault(reason)), now).value.status == Rejected
  {
  }

  /** The producer's decision, applied to the pending transaction it is about,
      takes effect: approved becomes Approved, rejected becomes Rejected. */
  lemma {:induction false} PublishedDecisionApplies(d: Defaulting, rows: seq<TransactionRecord>, i: nat, response: TransactionResponse,
                                                    found: Outcome<Option<TransactionRecord>>, lookup: TransactionDomainService.DailyLookup,
                                                    format: Money -> string, now: Timestamp, later: Timestamp)
    requires i < |rows| && rows[i].id.value == response.transactionExternalId && IndexOf(rows, rows[i].id) == Some(i)
    requires response.transactionExternalId != EmptyGuid
    requires rows[i].status == Pending
    ensures var ev := AntifraudService.ProcessTransactionForValidation(response, found, lookup, format, now).event;
            var a := ApplyDecisionOf(d, rows, ev, later, None);
              && a.result == Success(true)
              && a.rows[i].status == (if ev.status == Some("approved") then Approved else Rejected)
  {
    var ev := AntifraudService.ProcessTransactionForValidation(response, found, lookup, format, now).event;
    FromValueRoundTrip(Approved);
    FromValueRoundTrip(Rejected);
    if ev.status == Some("approved") {
      assert TransactionStatusValue.From(ev.status) == Ok(Approved);
    } else {
      assert ev.status == Some("rejected");
      assert TransactionStatusValue.From(ev.status) == Ok(Rejected);
    }
    DecisionApplied(d, rows, i, ev, later);
  }
}
