/** The anti-fraud decision producer: looks the transaction up, applies the
    rules and publishes exactly one decision, failing safe to "rejected". */
module AntifraudService {
  import opened Wrappers
  import opened Primitives
  import opened Text
  import opened TransactionStatusValue
  import opened MoneyValue
  import opened TransactionIdValue
  import opened AccountIdValue
  import opened TransferTypeIdValue
  import opened TransactionEntity
  import opened TransactionDomainService
  import opened TransactionRepository
  import opened Dtos

  const ValidationResponseTopic: string := "transaction-validation-response"
  const NotFoundReason: string := "Transaction not found"

  /** One message handed to the publisher. */
  datatype Publication = Publication(topic: string, event: TransactionValidationEvent)

  /** `SendValidationResponseAsync`: the decision payload on the response topic. */
  function SendValidationResponse(transactionId: Guid, status: string, reason: Option<string>, now: Timestamp): (p: Publication)
    ensures p.topic == ValidationResponseTopic
    ensures p.event.transactionExternalId == transactionId && p.event.processedAt == now
    ensures p.event.status == Some(status) && p.event.reason == reason
  {
    Publication(ValidationResponseTopic, TransactionValidationEvent(transactionId, Some(status), reason, now))
  }

  /** `ProcessTransactionForValidationAsync`. The repository lookup's result (or
      the exception it threw) is `found`, the accumulation query is `lookup`, and
      the culture formatting of amounts is `format`. */
  function ProcessTransactionForValidation(response: TransactionResponse, found: Outcome<Option<TransactionRecord>>,
                                           lookup: DailyLookup, format: Money -> string, now: Timestamp): (p: Publication)
    ensures p.topic == ValidationResponseTopic
    ensures p.event.transactionExternalId == response.transactionExternalId && p.event.processedAt == now
    ensures p.event.status == Some("approved") || p.event.status == Some("rejected")
    ensures p.event.status == Some("approved") <==> found.Ok? && found.value.Some? && ShouldReject(found.value.value, lookup) == Ok(false)
    ensures p.event.status == Some("approved") ==> p.event.reason.None?
    ensures p.event.status == Some("rejected") ==> p.event.reason.Some? && !IsBlank(p.event.reason.value)
    ensures found.Ok? && found.value.None? ==> p.event.reason == Some(NotFoundReason)
    ensures found.Throws? ==> p.event.reason == Some("Validation error: " + found.exception.Message())
    ensures found.Ok? && found.value.Some? && ShouldReject(found.value.value, lookup).Throws? ==>
              p.event.reason == Some("Validation error: " + ShouldReject(found.value.value, lookup).exception.Message())
    ensures found.Ok? && found.value.Some? && ShouldReject(found.value.value, lookup) == Ok(true) ==>
              && GetRejectionReason(found.value.value, lookup).Ok?
              && p.event.reason == Some(GetRejectionReason(found.value.value, lookup).value.Text(format))
  {
    var id := response.transactionExternalId;
    if found.Throws? then
      ValidationErrorIsNotBlank(found.exception);
      SendValidationResponse(id, "rejected", Some("Validation error: " + found.exception.Message()), now)
    else if found.value.None? then
      assert !IsWhiteSpace(NotFoundReason[0]);
      SendValidationResponse(id, "rejected", Some(NotFoundReason), now)
    else
      var t := found.value.value;
      var shouldReject := ShouldReject(t, lookup);
      if shouldReject.Throws? then
        ValidationErrorIsNotBlank(shouldReject.exception);
        SendValidationResponse(id, "rejected", Some("Validation error: " + shouldReject.exception.Message()), now)
      else if shouldReject.value then
        // the reason query fails exactly when the verdict does, so it succeeds here
        ReasonAgreesWithVerdict(t, lookup, format);
        var reason := GetRejectionReason(t, lookup).value;
        RuleTextIsNotBlank(reason, format);
        SendValidationResponse(id, "rejected", Some(reason.Text(format)), now)
      else
        SendValidationResponse(id, "approved", None, now)
  }

  lemma ValidationErrorIsNotBlank(e: Exception)
    ensures !IsBlank("Validation error: " + e.Message())
  {
    assert ("Validation error: " + e.Message())[0] == 'V';
  }

  lemma RuleTextIsNotBlank(r: RejectionReason, format: Money -> string)
    requires !r.NoRule?
    ensures !IsBlank(r.Text(format))
  {
    assert r.Text(format)[0] in {'T', 'D'};
  }

  /** Every decision the producer publishes names a status the applier can
      parse: approved or rejected. */
  lemma {:induction false} PublishedStatusParses(response: TransactionResponse, found: Outcome<Option<TransactionRecord>>,
                                                 lookup: DailyLookup, format: Money -> string, now: Timestamp)
    ensures var p := ProcessTransactionForValidation(response, found, lookup, format, now);
              TransactionStatusValue.From(p.event.status) == Ok(Approved) || TransactionStatusValue.From(p.event.status) == Ok(Rejected)
  {
    FromValueRoundTrip(Approved);
    FromValueRoundTrip(Rejected);
  }

  /** The accumulation query run against a store: `GetDailyAccumulatedAmountAsync`. */
  function StoreLookup(rows: seq<TransactionRecord>): (lookup: DailyLookup)
    ensures forall accountId, date :: lookup(accountId, date).Ok? ==> lookup(accountId, date).value.amount == DailySum(rows, accountId, date)
  {
    (accountId: AccountId, date: Timestamp) => GetDailyAccumulatedAmount(rows, accountId, date)
  }

  /** The transaction being evaluated is already stored as pending, so the daily
      query counts it, and the rule then adds its value a second time: a
      transaction within both caps is decided on the prior total plus twice its
      amount. */
  lemma {:induction false} OwnValueCountedTwice(prior: seq<TransactionRecord>, t: TransactionRecord)
    requires t.status == Pending && t.value.currency == DefaultCurrency && t.value.amount <= 2000.0
    requires AllIn(Values(DailyRows(prior, t.sourceAccountId, t.createdAt)), DefaultCurrency)
    ensures ShouldReject(t, StoreLookup(prior + [t]))
         == Ok(DailySum(prior, t.sourceAccountId, t.createdAt) + 2.0 * t.value.amount > 20000.0)
  {
    var rows := prior + [t];
    var src, day := t.sourceAccountId, StartOfDay(t.createdAt);
    DailyRowsOfDate(rows, src, t.createdAt);
    AppendedRowContribution(prior, t, src, t.createdAt);
    DailyRowsAppendCurrency(prior, t, src, t.createdAt);
    DailyAccumulatedIsSum(rows, src, t.createdAt);
  }

  /** Appending a US-dollar row keeps the counted rows all in US dollars. */
  lemma {:induction false} DailyRowsAppendCurrency(prior: seq<TransactionRecord>, t: TransactionRecord, accountId: AccountId, date: Timestamp)
    requires t.value.currency == DefaultCurrency
    requires AllIn(Values(DailyRows(prior, accountId, date)), DefaultCurrency)
    ensures AllIn(Values(DailyRows(prior + [t], accountId, date)), DefaultCurrency)
  {
    var keep := x => SentOnDay(accountId, date, x) && Counts(x);
    WhereAppend(prior, [t], keep);
    assert Where([t], keep) == (if keep(t) then [t] else []) by {
      assert [t][1..] == [];
    }
    var all := DailyRows(prior + [t], accountId, date);
    var before := DailyRows(prior, accountId, date);
    forall i | 0 <= i < |all| ensures all[i].value.currency == DefaultCurrency {
      if i < |before| {
        assert all[i] == before[i];
        assert Values(before)[i] == before[i].value;
      }
    }
  }

  /** Nine approved 2000-dollar transfers on one day. */
  function NineApprovedTransfers(src: AccountId, tgt: AccountId, createdAt: Timestamp): seq<TransactionRecord> {
    seq(9, i requires 0 <= i < 9 =>
      TransactionRecord(TransactionId(i + 1), src, tgt, TransferTypeId(1),
                        Money(2000.0, DefaultCurrency), Approved, createdAt, Some(createdAt)))
  }

  /** When every row is kept, filtering keeps the sequence as it is. */
  lemma {:induction false} WhereKeepsAll(rows: seq<TransactionRecord>, keep: TransactionRecord -> bool)
    requires forall x :: x in rows ==> keep(x)
    ensures Where(rows, keep) == rows
  {
    if rows != [] {
      assert forall x :: x in rows[1..] ==> x in rows;
      WhereKeepsAll(rows[1..], keep);
      assert rows == [rows[0]] + rows[1..];
    }
  }

  /** Values that all have the same amount sum to that amount times their number. */
  lemma {:induction false} SumOfEqualAmounts(values: seq<Money>, amount: real)
    requires forall i :: 0 <= i < |values| ==> values[i].amount == amount
    ensures SumAmounts(values) == |values| as real * amount
  {
    if values != [] {
      SumOfEqualAmounts(values[1..], amount);
    }
  }

  /** A transfer of 1500 after nine approved transfers of 2000 the same day
      brings the day to 19500, within the 20000 cap, yet it is rejected. */
  lemma {:induction false} DoubleCountingRejectsWithinCap(src: AccountId, tgt: AccountId, createdAt: Timestamp)
    requires src != tgt
    ensures var prior := NineApprovedTransfers(src, tgt, createdAt);
            var t := TransactionRecord(TransactionId(10), src, tgt, TransferTypeId(1),
                                       Money(1500.0, DefaultCurrency), Pending, createdAt, None);
            && DailySum(prior + [t], src, createdAt) == 19500.0
            && ShouldReject(t, StoreLookup(prior + [t])) == Ok(true)
  {
    var prior := NineApprovedTransfers(src, tgt, createdAt);
    var t := TransactionRecord(TransactionId(10), src, tgt, TransferTypeId(1),
                               Money(1500.0, DefaultCurrency), Pending, createdAt, None);
    NineTransfersSum(src, tgt, createdAt);
    AppendedRowContribution(prior, t, src, createdAt);
    OwnValueCountedTwice(prior, t);
  }

  /** The nine transfers all count towards their sender's day, 18000 in all. */
  lemma {:induction false} NineTransfersSum(src: AccountId, tgt: AccountId, createdAt: Timestamp)
    ensures DailyRows(NineApprovedTransfers(src, tgt, createdAt), src, createdAt) == NineApprovedTransfers(src, tgt, createdAt)
    ensures AllIn(Values(NineApprovedTransfers(src, tgt, createdAt)), DefaultCurrency)
    ensures DailySum(NineApprovedTransfers(src, tgt, createdAt), src, createdAt) == 18000.0
  {
    var prior := NineApprovedTransfers(src, tgt, createdAt);
    var keep := x => SentOnDay(src, createdAt, x) && Counts(x);
    WhereKeepsAll(prior, keep);
    SumOfEqualAmounts(Values(prior), 2000.0);
  }

  /** The intended evaluation: the daily query leaves out the transaction under
      evaluation, whose own value the rule adds once. */
  function StoreLookupExcluding(rows: seq<TransactionRecord>, id: TransactionId): (lookup: DailyLookup)
    ensures forall accountId, date :: lookup(accountId, date).Ok? ==>
              lookup(accountId, date).value.amount == DailySum(Where(rows, (x: TransactionRecord) => x.id != id), accountId, date)
  {
    StoreLookup(Where(rows, (x: TransactionRecord) => x.id != id))
  }

  /** The evaluation run right after a transaction was created, against the
      store that already holds it, with the daily query leaving that
      transaction out. */
  function EvaluateInStore(response: TransactionResponse, rows: seq<TransactionRecord>, format: Money -> string, now: Timestamp): (p: Publication)
    ensures p.topic == ValidationResponseTopic && p.event.transactionExternalId == response.transactionExternalId
    ensures p.event.status == Some("approved") ==>
              exists t :: t in rows && t.id.value == response.transactionExternalId && ShouldReject(t, StoreLookupExcluding(rows, t.id)) == Ok(false)
    ensures response.transactionExternalId == EmptyGuid ==>
              p.event.status == Some("rejected") && p.event.reason == Some("Validation error: " + EmptyId.Message())
    ensures response.transactionExternalId != EmptyGuid && (forall x :: x in rows ==> x.id.value != response.transactionExternalId) ==>
              p.event.status == Some("rejected") && p.event.reason == Some(NotFoundReason)
  {
    var found := GetByExternalId(rows, response.transactionExternalId);
    var lookup := if found.Ok? && found.value.Some? then StoreLookupExcluding(rows, found.value.value.id) else StoreLookup(rows);
    ProcessTransactionForValidation(response, found, lookup, format, now)
  }

  /** With its own row left out of the query, a transaction within the amount
      cap is rejected exactly when the day's total, itself counted once,
      exceeds 20000. */
  lemma {:induction false} CorrectedCountsOnce(prior: seq<TransactionRecord>, t: TransactionRecord)
    requires forall x :: x in prior ==> x.id != t.id
    requires t.status == Pending && t.value.currency == DefaultCurrency && t.value.amount <= 2000.0
    requires AllIn(Values(DailyRows(prior, t.sourceAccountId, t.createdAt)), DefaultCurrency)
    ensures ShouldReject(t, StoreLookupExcluding(prior + [t], t.id))
         == Ok(DailySum(prior + [t], t.sourceAccountId, t.createdAt) > 20000.0)
  {
    var src := t.sourceAccountId;
    PriorDailyAnswer(prior, t);
    assert SentOnDay(src, t.createdAt, t);
    AppendedRowContribution(prior, t, src, t.createdAt);
  }

  /** Leaving out a fresh row, the daily query answers with the day's total
      over the rows before it. */
  lemma {:induction false} PriorDailyAnswer(prior: seq<TransactionRecord>, t: TransactionRecord)
    requires forall x :: x in prior ==> x.id != t.id
    requires AllIn(Values(DailyRows(prior, t.sourceAccountId, t.createdAt)), DefaultCurrency)
    ensures StoreLookupExcluding(prior + [t], t.id)(LookupKey(t).0, LookupKey(t).1)
         == Ok(Money(DailySum(prior, t.sourceAccountId, t.createdAt), DefaultCurrency))
  {
    var src := t.sourceAccountId;
    LeavingOutSelf(prior, t);
    assert StoreLookupExcluding(prior + [t], t.id) == StoreLookup(prior);
    DailyRowsOfDate(prior, src, t.createdAt);
    DailyAccumulatedIsSum(prior, src, t.createdAt);
  }

  /** Leaving out a freshly appended row gives back the rows before it. */
  lemma {:induction false} LeavingOutSelf(prior: seq<TransactionRecord>, t: TransactionRecord)
    requires forall x :: x in prior ==> x.id != t.id
    ensures Where(prior + [t], (x: TransactionRecord) => x.id != t.id) == prior
  {
    var notSelf := (x: TransactionRecord) => x.id != t.id;
    WhereAppend(prior, [t], notSelf);
    WhereKeepsAll(prior, notSelf);
    assert Where([t], notSelf) == [] by {
      assert [t][1..] == [];
    }
  }

  /** Evaluated right after it was stored, a transaction within the amount cap
      is approved exactly when its day's total, itself counted once, stays
      within 20000. */
  lemma {:induction false} EvaluationApprovesWithinDailyCap(prior: seq<TransactionRecord>, t: TransactionRecord,
                                                           response: TransactionResponse, format: Money -> string, now: Timestamp)
    requires forall x :: x in prior ==> x.id != t.id
    requires t.id.Valid() && response.transactionExternalId == t.id.value
    requires t.status == Pending && t.value.currency == DefaultCurrency && t.value.amount <= 2000.0
    requires AllIn(Values(DailyRows(prior, t.sourceAccountId, t.createdAt)), DefaultCurrency)
    ensures EvaluateInStore(response, prior + [t], format, now).event.status == Some("approved")
        <==> DailySum(prior + [t], t.sourceAccountId, t.createdAt) <= 20000.0
  {
    var rows := prior + [t];
    assert rows[|prior|] == t;
    var found := GetByExternalId(rows, t.id.value);
    assert found == Ok(Some(t));
    CorrectedCountsOnce(prior, t);
  }
}
