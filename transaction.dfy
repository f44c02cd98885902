/** The Transaction aggregate: a transfer between two accounts with a three-state
    lifecycle and an append-only list of domain events. */
module TransactionEntity {
  import opened Wrappers
  import opened Primitives
  import opened Text
  import opened TransactionStatusValue
  import opened MoneyValue
  import opened TransactionIdValue
  import opened AccountIdValue
  import opened TransferTypeIdValue

  /** The two domain events the aggregate raises (their own event id and
      occurrence time come from the clock and the Guid generator and are left out). */
  datatype DomainEvent =
    | TransactionCreated(transactionId: TransactionId, sourceAccountId: AccountId, targetAccountId: AccountId,
                         transferTypeId: TransferTypeId, value: Money, createdAt: Timestamp)
    | TransactionStatusUpdated(transactionId: TransactionId, previousStatus: TransactionStatus,
                               newStatus: TransactionStatus, reason: Option<string>, updatedAt: Timestamp)

  /** The mutable part of a transaction: what `UpdateStatus`, `Approve`, `Reject`
      and `ClearDomainEvents` may change. */
  datatype Lifecycle = Lifecycle(status: TransactionStatus, updatedAt: Option<Timestamp>, events: seq<DomainEvent>)

  /** A transaction as a stored row: every persisted property, no events. */
  datatype TransactionRecord = TransactionRecord(
    id: TransactionId,
    sourceAccountId: AccountId,
    targetAccountId: AccountId,
    transferTypeId: TransferTypeId,
    value: Money,
    status: TransactionStatus,
    createdAt: Timestamp,
    updatedAt: Option<Timestamp>)

  const SameAccounts: Exception := ArgumentException("Source and target accounts cannot be the same", None)
  const NonPositiveValue: Exception := ArgumentException("Transaction value must be greater than zero", None)
  const NotPendingForApproval: Exception := InvalidOperationException("Only pending transactions can be approved")
  const NotPendingForRejection: Exception := InvalidOperationException("Only pending transactions can be rejected")
  const ReasonRequired: Exception := ArgumentException("Rejection reason is required", Some("reason"))

  /** `ValidateCreationParameters`: the accounts must differ, then the amount
      must be positive; the transfer type is not looked at. */
  function ValidateCreationParameters(sourceAccountId: AccountId, targetAccountId: AccountId,
                                      transferTypeId: TransferTypeId, value: Money): (e: Option<Exception>)
    ensures e.None? <==> sourceAccountId != targetAccountId && value.amount > 0.0
    ensures sourceAccountId == targetAccountId ==> e == Some(SameAccounts)
    ensures sourceAccountId != targetAccountId && value.amount <= 0.0 ==> e == Some(NonPositiveValue)
  {
    if sourceAccountId == targetAccountId then Some(SameAccounts)
    else if value.amount <= 0.0 then Some(NonPositiveValue)
    else None
  }

  /** `UpdateStatus` on the lifecycle of transaction `id`. */
  function UpdateStatusOf(id: TransactionId, s: Lifecycle, newStatus: TransactionStatus,
                          reason: Option<string>, now: Timestamp): (t: Lifecycle)
    ensures t.status == newStatus
    ensures s.status == newStatus <==> t == s
    ensures s.status != newStatus ==>
              t.updatedAt == Some(now) && t.events == s.events + [TransactionStatusUpdated(id, s.status, newStatus, reason, now)]
  {
    if s.status == newStatus then s
    else Lifecycle(newStatus, Some(now), s.events + [TransactionStatusUpdated(id, s.status, newStatus, reason, now)])
  }

  /** `Approve`: only a pending transaction can be approved, and approval adds
      one status-updated event without a reason. */
  function ApproveOf(id: TransactionId, s: Lifecycle, now: Timestamp): (r: Outcome<Lifecycle>)
    ensures r.Ok? <==> s.status == Pending
    ensures r.Throws? ==> r.exception == NotPendingForApproval
    ensures r.Ok? ==> r.value == Lifecycle(Approved, Some(now), s.events + [TransactionStatusUpdated(id, Pending, Approved, None, now)])
  {
    if !s.status.IsPending() then Throws(NotPendingForApproval)
    else Ok(UpdateStatusOf(id, s, Approved, None, now))
  }

  /** `Reject`: pending-ness is checked before the reason, the reason must not be
      blank, and rejection adds one status-updated event carrying the reason. */
  function RejectOf(id: TransactionId, s: Lifecycle, reason: Option<string>, now: Timestamp): (r: Outcome<Lifecycle>)
    ensures r.Ok? <==> s.status == Pending && !IsNullOrWhiteSpace(reason)
    ensures s.status != Pending ==> r == Throws(NotPendingForRejection)
    ensures s.status == Pending && IsNullOrWhiteSpace(reason) ==> r == Throws(ReasonRequired)
    ensures r.Ok? ==> r.value == Lifecycle(Rejected, Some(now), s.events + [TransactionStatusUpdated(id, Pending, Rejected, reason, now)])
  {
    if !s.status.IsPending() then Throws(NotPendingForRejection)
    else if IsNullOrWhiteSpace(reason) then Throws(ReasonRequired)
    else Ok(UpdateStatusOf(id, s, Rejected, reason, now))
  }

  class Transaction {
    const id: TransactionId
    const sourceAccountId: AccountId
    const targetAccountId: AccountId
    const transferTypeId: TransferTypeId
    const value: Money
    const createdAt: Timestamp
    var status: TransactionStatus
    var updatedAt: Option<Timestamp>
    var domainEvents: seq<DomainEvent>

    /** The lifecycle part of the current state. */
    function State(): Lifecycle
      reads this
    {
      Lifecycle(status, updatedAt, domainEvents)
    }

    /** The persisted part of the current state. */
    function Record(): TransactionRecord
      reads this
    {
      TransactionRecord(id, sourceAccountId, targetAccountId, transferTypeId, value, status, createdAt, updatedAt)
    }

    /** What `Create` guarantees of the fixed fields. */
    predicate Valid()
    {
      && id.Valid() && sourceAccountId.Valid() && targetAccountId.Valid() && transferTypeId.Valid()
      && value.Valid() && sourceAccountId != targetAccountId && value.amount > 0.0
    }

    /** The constructor `Create` uses: a new transaction is pending, has never
        been updated and holds exactly one created event. */
    constructor Open(id: TransactionId, sourceAccountId: AccountId, targetAccountId: AccountId,
                     transferTypeId: TransferTypeId, value: Money, now: Timestamp)
      ensures Record() == TransactionRecord(id, sourceAccountId, targetAccountId, transferTypeId, value, Pending, now, None)
      ensures domainEvents == [TransactionCreated(id, sourceAccountId, targetAccountId, transferTypeId, value, now)]
    {
      this.id := id;
      this.sourceAccountId := sourceAccountId;
      this.targetAccountId := targetAccountId;
      this.transferTypeId := transferTypeId;
      this.value := value;
      this.status := Pending;
      this.createdAt := now;
      this.updatedAt := None;
      this.domainEvents := [TransactionCreated(id, sourceAccountId, targetAccountId, transferTypeId, value, now)];
    }

    /** A transaction read back from the store: the persisted properties, and no
        events (the event list is not persisted). */
    constructor Load(row: TransactionRecord)
      ensures Record() == row && domainEvents == []
    {
      id := row.id;
      sourceAccountId := row.sourceAccountId;
      targetAccountId := row.targetAccountId;
      transferTypeId := row.transferTypeId;
      value := row.value;
      status := row.status;
      createdAt := row.createdAt;
      updatedAt := row.updatedAt;
      domainEvents := [];
    }

    /** `Transaction.Create`, with the new id's Guid and the clock as parameters. */
    static method Create(sourceAccountId: AccountId, targetAccountId: AccountId, transferTypeId: TransferTypeId,
                         value: Money, generated: Guid, now: Timestamp) returns (r: Outcome<Transaction>)
      requires generated != EmptyGuid
      ensures r.Ok? <==> ValidateCreationParameters(sourceAccountId, targetAccountId, transferTypeId, value).None?
      ensures r.Throws? ==> r.exception == ValidateCreationParameters(sourceAccountId, targetAccountId, transferTypeId, value).value
      ensures r.Ok? ==> fresh(r.value)
      ensures r.Ok? ==>
                r.value.Record() == TransactionRecord(TransactionId(generated), sourceAccountId, targetAccountId, transferTypeId, value, Pending, now, None)
      ensures r.Ok? ==>
                r.value.domainEvents == [TransactionCreated(TransactionId(generated), sourceAccountId, targetAccountId, transferTypeId, value, now)]
      ensures r.Ok? && sourceAccountId.Valid() && targetAccountId.Valid() && transferTypeId.Valid() && value.Valid() ==>
                r.value.Valid()
    {
      var error := ValidateCreationParameters(sourceAccountId, targetAccountId, transferTypeId, value);
      if error.Some? {
        return Throws(error.value);
      }
      var t := new Transaction.Open(New(generated), sourceAccountId, targetAccountId, transferTypeId, value, now);
      r := Ok(t);
    }

    /** `UpdateStatus`: a no-op for the current status, otherwise any transition. */
    method UpdateStatus(newStatus: TransactionStatus, reason: Option<string>, now: Timestamp)
      modifies this
      ensures State() == UpdateStatusOf(id, old(State()), newStatus, reason, now)
    {
      if status == newStatus {
        return;
      }
      var previousStatus := status;
      status := newStatus;
      updatedAt := Some(now);
      domainEvents := domainEvents + [TransactionStatusUpdated(id, previousStatus, newStatus, reason, now)];
    }

    /** `Approve`; the exception it would throw is returned, and then nothing changed. */
    method Approve(now: Timestamp) returns (error: Option<Exception>)
      modifies this
      ensures error.None? <==> ApproveOf(id, old(State()), now).Ok?
      ensures error.None? ==> State() == ApproveOf(id, old(State()), now).value
      ensures error.Some? ==> error.value == ApproveOf(id, old(State()), now).exception && State() == old(State())
    {
      if !status.IsPending() {
        return Some(NotPendingForApproval);
      }
      UpdateStatus(Approved, None, now);
      error := None;
    }

    /** `Reject`; the exception it would throw is returned, and then nothing changed. */
    method Reject(reason: Option<string>, now: Timestamp) returns (error: Option<Exception>)
      modifies this
      ensures error.None? <==> RejectOf(id, old(State()), reason, now).Ok?
      ensures error.None? ==> State() == RejectOf(id, old(State()), reason, now).value
      ensures error.Some? ==> error.value == RejectOf(id, old(State()), reason, now).exception && State() == old(State())
    {
      if !status.IsPending() {
        return Some(NotPendingForRejection);
      }
      if IsNullOrWhiteSpace(reason) {
        return Some(ReasonRequired);
      }
      UpdateStatus(Rejected, reason, now);
      error := None;
    }

    /** `ClearDomainEvents`: empties the event list and nothing else. */
    method ClearDomainEvents()
      modifies this
      ensures domainEvents == [] && status == old(status) && updatedAt == old(updatedAt)
    {
      domainEvents := [];
    }

    /** `IsFromAccount`. */
    predicate IsFromAccount(accountId: AccountId) {
      sourceAccountId == accountId
    }

    /** `IsToAccount`. */
    predicate IsToAccount(accountId: AccountId) {
      targetAccountId == accountId
    }

    /** `InvolvesAccount`: the account is one of the two parties. */
    predicate InvolvesAccount(accountId: AccountId) {
      IsFromAccount(accountId) || IsToAccount(accountId)
    }

    /** `IsCreatedOnDate`: the creation time has the same calendar date, which
        is the same as lying in that date's `[midnight, next midnight)` window. */
    function IsCreatedOnDate(date: Timestamp): (r: bool)
      ensures r <==> StartOfDay(date) <= createdAt < NextDay(StartOfDay(date))
    {
      DayWindow(createdAt, date);
      SameDate(createdAt, date)
    }

    /** A valid transaction involves exactly its two parties, and no account is
        both its source and its target. */
    lemma PartyQueries(accountId: AccountId)
      requires Valid()
      ensures InvolvesAccount(accountId) <==> accountId == sourceAccountId || accountId == targetAccountId
      ensures !(IsFromAccount(accountId) && IsToAccount(accountId))
    {
    }
  }

  /** Changing to the current status adds nothing, so a repeated `UpdateStatus`
      changes nothing. */
  lemma UpdateStatusIdempotent(id: TransactionId, s: Lifecycle, newStatus: TransactionStatus,
                               reason: Option<string>, reason2: Option<string>, now: Timestamp, later: Timestamp)
    ensures UpdateStatusOf(id, UpdateStatusOf(id, s, newStatus, reason, now), newStatus, reason2, later)
         == UpdateStatusOf(id, s, newStatus, reason, now)
  {
  }

  /** `UpdateStatus` does not protect terminal states: an approved or rejected
      transaction can be moved to any other status, and that is recorded. */
  lemma TerminalStateNotProtected(id: TransactionId, s: Lifecycle, newStatus: TransactionStatus,
                                  reason: Option<string>, now: Timestamp)
    requires s.status != Pending && newStatus != s.status
    ensures UpdateStatusOf(id, s, newStatus, reason, now).status == newStatus
    ensures |UpdateStatusOf(id, s, newStatus, reason, now).events| == |s.events| + 1
  {
  }

  /** Once a decision is applied, every further decision is refused and the
      state is left as it was: approving or rejecting twice always throws. */
  lemma SecondDecisionRefused(id: TransactionId, s: Lifecycle, reason: Option<string>, reason2: Option<string>,
                              now: Timestamp, later: Timestamp)
    ensures ApproveOf(id, s, now).Ok? ==>
              ApproveOf(id, ApproveOf(id, s, now).value, later) == Throws(NotPendingForApproval)
              && RejectOf(id, ApproveOf(id, s, now).value, reason2, later) == Throws(NotPendingForRejection)
    ensures RejectOf(id, s, reason, now).Ok? ==>
              ApproveOf(id, RejectOf(id, s, reason, now).value, later) == Throws(NotPendingForApproval)
              && RejectOf(id, RejectOf(id, s, reason, now).value, reason2, later) == Throws(NotPendingForRejection)
  {
  }

  /** Every lifecycle operation only appends to the event list, one event at most. */
  lemma EventsAppendOnly(id: TransactionId, s: Lifecycle, newStatus: TransactionStatus, reason: Option<string>, now: Timestamp)
    ensures var t := UpdateStatusOf(id, s, newStatus, reason, now);
              s.events <= t.events && |t.events| <= |s.events| + 1
    ensures var r := ApproveOf(id, s, now);
              r.Ok? ==> s.events <= r.value.events && |r.value.events| == |s.events| + 1
    ensures var r := RejectOf(id, s, reason, now);
              r.Ok? ==> s.events <= r.value.events && |r.value.events| == |s.events| + 1
  {
  }
}
