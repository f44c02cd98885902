# AntiFraud transfer pipeline — a Dafny model

AntiFraud takes transfer requests between two accounts. Each request is stored as a
pending transaction. Right after it is stored, the transaction is evaluated against two
anti-fraud rules:

- one transfer may not exceed 2000 USD;
- the sender's daily total may not exceed 20000 USD.

The evaluation publishes an "approved" or "rejected" decision. The decision is then
applied back to the stored transaction.

This project models that core and proves its properties:

- the Transaction aggregate and its lifecycle;
- the value objects: Money, TransactionStatus, TransactionId, AccountId and TransferTypeId;
- the Account entity;
- the rule evaluator (`TransactionDomainService`);
- the query side of the transaction repository;
- the decision producer (`AntifraudService`);
- the transaction service: creation, lookup and applying decisions;
- the three use cases, the two request validators, `Result<T>` and the response mapper.

## How the model is built

Value types:

- Amounts are exact `real`s (C# `decimal`).
- Guids are 128-bit naturals, and `Guid.Empty` is 0.
- `DateTime` is a tick count. `DateTime.Date` is the tick count rounded down to a multiple of a day's ticks.
- A call that can throw returns `Outcome<T>`: either `Ok(value)` or `Throws(exception)`. The exception carries the .NET message and parameter name.

The imperative parts keep their state:

- `TransactionEntity.Transaction` is a class. Its fixed properties are `const`s. Its status, update time and domain-event list are fields, which its methods update in place. Each method is proved against a function on a value snapshot of that state (`UpdateStatusOf`, `ApproveOf`, `RejectOf`).
- `AccountEntity.Account` is a class with a mutable `isActive` flag.
- `TransactionService.TransactionService` holds the Transactions table as a sequence of rows. Creating a transaction appends a row. Applying a decision loads the row into a `Transaction` object, lets it approve or reject itself, and writes it back.
- The request validators fill their result lists step by step, in methods proved equal to a specification function.

Everything else is a function:

- The rule evaluator and the decision producer are functions of the transaction and of the daily-total lookup's answer. Lookups, the clock, the Guid generator and a failing save are parameters.
- The repository queries are functions over the table.

A second decision for the same transaction is refused: `Approve`/`Reject` throw, the service catches the exception and returns a failure, and the transaction is left unchanged (`TransactionService.DuplicateDecisionRefused`).

## Model

| member | source | states |
|---|---|---|
| Wrappers.Exception.Message | src/Antifraud.Application/Services/TransactionService.cs:64-66 | an exception's message starts with its text; an ArgumentException with a parameter name has " (Parameter 'name')" appended, and only then does the message differ from the text |
| Primitives.StartOfDay | src/Antifraud.Infrastructure/Persistence/Repositories/TransactionRepository.cs:54 | `Date` is midnight on the same day: a multiple of a day's ticks, at most the instant and less than a day before it |
| Primitives.StartOfDayIdempotent | src/Antifraud.Domain/Services/TransactionDomainService.cs:28 | the date of a date is that date, so passing `CreatedAt.Date` into a query that takes `.Date` again changes nothing |
| Primitives.GuidTextInjective | src/Antifraud.Application/Services/TransactionService.cs:99 | distinct Guids have distinct texts, so a "Transaction … not found" message names exactly one id |
| Primitives.HexDigitsDetermineLowDigits | src/Antifraud.Application/Services/TransactionService.cs:99 | equal digit strings of length n come from numbers with equal low n hexadecimal digits |
| Primitives.DayWindow | src/Antifraud.Infrastructure/Persistence/Repositories/TransactionRepository.cs:54-60 | the window `[date.Date, date.Date + 1 day)` holds exactly the instants with the same calendar date |
| Text.LowerOfLowerIsSame | src/Antifraud.Domain/ValueObjects/TransactionStatus.cs:20 | `ToLowerInvariant` leaves a lower-case string unchanged |
| Text.IgnoreCaseMatchesLower | src/Antifraud.Application/UseCases/ProcessTransactionValidationUseCase.cs:30-35 | an ordinal case-insensitive comparison with a lower-case word holds exactly when lower-casing gives that word |
| TransactionStatusValue.From | src/Antifraud.Domain/ValueObjects/TransactionStatus.cs:18-27 | parses exactly the strings whose lower-case form is "pending", "approved" or "rejected"; null and everything else throw "Invalid transaction status: …" with parameter `value` |
| TransactionStatusValue.NamesAreLower | src/Antifraud.Domain/ValueObjects/TransactionStatus.cs:14-16 | the three status texts are lower-case words |
| TransactionStatusValue.FromValueRoundTrip | src/Antifraud.Domain/ValueObjects/TransactionStatus.cs:14-27 | `From(s.Value) == s` for every status, and the three texts are distinct |
| TransactionStatusValue.FromIgnoresCase | src/Antifraud.Domain/ValueObjects/TransactionStatus.cs:20 | a string and its lower-case form are accepted or refused together, and parse to the same status |
| TransactionStatusValue.ExactlyOneHolds | src/Antifraud.Domain/ValueObjects/TransactionStatus.cs:29-31 | exactly one of IsPending, IsApproved and IsRejected holds |
| MoneyValue.Money.Add | src/Antifraud.Domain/ValueObjects/Money.cs:29-35 | the exact sum in the shared currency, non-negative for non-negative operands; differing currencies throw "Cannot add different currencies" |
| MoneyValue.Money.IsGreaterThan | src/Antifraud.Domain/ValueObjects/Money.cs:37-43 | strict `>` on amounts within one currency; a currency mismatch throws |
| MoneyValue.Money.IsGreaterThanOrEqual | src/Antifraud.Domain/ValueObjects/Money.cs:45-51 | `>=` on amounts within one currency; a currency mismatch throws |
| MoneyValue.From | src/Antifraud.Domain/ValueObjects/Money.cs:16-25 | refuses a negative amount, then a blank currency; otherwise a non-negative Money with that amount and the upper-cased currency |
| MoneyValue.Zero | src/Antifraud.Domain/ValueObjects/Money.cs:27 | zero US dollars |
| MoneyValue.FromDecimal | src/Antifraud.Domain/ValueObjects/Money.cs:53 | the implicit conversion from decimal succeeds exactly for non-negative amounts and yields that amount in USD |
| MoneyValue.DecimalRoundTrip | src/Antifraud.Domain/ValueObjects/Money.cs:16-54 | converting a Money built by `From` back to decimal gives the amount |
| MoneyValue.AddLaws | src/Antifraud.Domain/ValueObjects/Money.cs:29-35 | within one currency, `Add` is commutative and associative, and Zero is its identity on dollars |
| MoneyValue.ComparisonDuality | src/Antifraud.Domain/ValueObjects/Money.cs:37-51 | `a > b` is the negation of `b >= a`, and both refuse the same currency mismatches |
| MoneyValue.EqualityIsByAmountAndCurrency | src/Antifraud.Domain/ValueObjects/Money.cs:5 | record equality: the same amount in two currencies gives two different values |
| TransactionIdValue.From | src/Antifraud.Domain/ValueObjects/TransactionId.cs:16-22 | fails exactly for the empty Guid, with "Transaction ID cannot be empty"; otherwise wraps the Guid |
| TransactionIdValue.New | src/Antifraud.Domain/ValueObjects/TransactionId.cs:14 | wraps the generated Guid, which is never empty |
| TransactionIdValue.ConversionRoundTrip | src/Antifraud.Domain/ValueObjects/TransactionId.cs:24-25 | Guid to id to Guid is the identity on non-empty Guids, and id to Guid to id is the identity on valid ids |
| AccountIdValue.From | src/Antifraud.Domain/ValueObjects/AccountId.cs:14-20 | fails exactly for the empty Guid, with "Account ID cannot be empty"; otherwise wraps the Guid |
| AccountIdValue.ConversionRoundTrip | src/Antifraud.Domain/ValueObjects/AccountId.cs:22-23 | the two implicit conversions are mutually inverse on valid ids |
| AccountIdValue.FromIsInjective | src/Antifraud.Domain/ValueObjects/AccountId.cs:5-20 | two ids are equal exactly when their Guids are |
| TransferTypeIdValue.From | src/Antifraud.Domain/ValueObjects/TransferTypeId.cs:14-20 | fails exactly for values ≤ 0, with "Transfer type ID must be greater than zero"; otherwise wraps the value |
| TransferTypeIdValue.ConversionRoundTrip | src/Antifraud.Domain/ValueObjects/TransferTypeId.cs:22-23 | int to id to int is the identity for positive values, and id to int to id for valid ids |
| AccountEntity.CreationError | src/Antifraud.Domain/Entities/Account.cs:34-38 | a blank account number is refused first, then a blank holder name, each with its own message and parameter |
| AccountEntity.Account.Create | src/Antifraud.Domain/Entities/Account.cs:32-41 | succeeds exactly when `CreationError` finds nothing; the new account keeps the id, number and name, and is active |
| AccountEntity.Account.Deactivate | src/Antifraud.Domain/Entities/Account.cs:43-46 | the account is inactive afterwards, from either state; no other field can change |
| AccountEntity.Account.Activate | src/Antifraud.Domain/Entities/Account.cs:48-51 | the account is active afterwards, from either state; no other field can change |
| TransactionEntity.ValidateCreationParameters | src/Antifraud.Domain/Entities/Transaction.cs:110-121 | passes exactly when the accounts differ and the amount is positive; same accounts are reported before a non-positive amount |
| TransactionEntity.UpdateStatusOf | src/Antifraud.Domain/Entities/Transaction.cs:67-82 | the status becomes the new one; nothing changes exactly when it already was; otherwise the update time is set and exactly one status-updated event (old, new, reason, time) is appended |
| TransactionEntity.ApproveOf | src/Antifraud.Domain/Entities/Transaction.cs:84-90 | succeeds exactly from pending, giving Approved, the update time and one event with no reason; otherwise throws "Only pending transactions can be approved" |
| TransactionEntity.RejectOf | src/Antifraud.Domain/Entities/Transaction.cs:92-101 | a non-pending status throws before the reason is looked at; a blank reason throws "Rejection reason is required"; otherwise Rejected, with one event carrying the reason |
| TransactionEntity.Transaction.Open | src/Antifraud.Domain/Entities/Transaction.cs:26-49 | a new transaction is pending and never updated, and holds exactly one created event carrying its id, parties, transfer type, value and creation time |
| TransactionEntity.Transaction.Load | src/Antifraud.Domain/Entities/Transaction.cs:23 | a transaction read from the store has the stored properties and no events |
| TransactionEntity.Transaction.Create | src/Antifraud.Domain/Entities/Transaction.cs:51-65 | throws exactly the exception `ValidateCreationParameters` reports; otherwise a fresh pending transaction with the generated id and one created event |
| TransactionEntity.Transaction.UpdateStatus | src/Antifraud.Domain/Entities/Transaction.cs:67-82 | the new state is `UpdateStatusOf` of the old one |
| TransactionEntity.Transaction.Approve | src/Antifraud.Domain/Entities/Transaction.cs:84-90 | the new state is `ApproveOf` of the old one; when it throws, the state is unchanged |
| TransactionEntity.Transaction.Reject | src/Antifraud.Domain/Entities/Transaction.cs:92-101 | the new state is `RejectOf` of the old one; when it throws, the state is unchanged |
| TransactionEntity.Transaction.ClearDomainEvents | src/Antifraud.Domain/Entities/Transaction.cs:128-131 | empties the events; status and update time are kept |
| TransactionEntity.Transaction.IsCreatedOnDate | src/Antifraud.Domain/Entities/Transaction.cs:107-108 | true exactly when the creation time lies in the date's `[midnight, next midnight)` window |
| TransactionEntity.Transaction.PartyQueries | src/Antifraud.Domain/Entities/Transaction.cs:103-105 | a valid transaction involves exactly its two parties, and no account is both its source and its target |
| TransactionEntity.UpdateStatusIdempotent | src/Antifraud.Domain/Entities/Transaction.cs:69-70 | repeating an `UpdateStatus` to the same status changes nothing more |
| TransactionEntity.TerminalStateNotProtected | src/Antifraud.Domain/Entities/Transaction.cs:67-82 | from Approved or Rejected, `UpdateStatus` still switches to any other status and appends one event |
| TransactionEntity.SecondDecisionRefused | src/Antifraud.Domain/Entities/Transaction.cs:84-101 | after an approval or a rejection, every further Approve or Reject throws |
| TransactionEntity.EventsAppendOnly | src/Antifraud.Domain/Entities/Transaction.cs:67-101 | every lifecycle operation keeps the old events as a prefix and adds at most one |
| TransactionDomainService.RejectionReason.Text | src/Antifraud.Domain/Services/TransactionDomainService.cs:38-54 | the reason text is empty exactly when no rule fired |
| TransactionDomainService.CapsAreFromDecimal | src/Antifraud.Domain/Services/TransactionDomainService.cs:12-13 | the caps are 2000 and 20000 USD, as `Money.From` builds them |
| TransactionDomainService.ShouldReject | src/Antifraud.Domain/Services/TransactionDomainService.cs:20-33 | a non-USD value throws; more than 2000 is rejected without a lookup; otherwise rejected exactly when the accumulated total plus the value exceeds 20000, and lookup or currency failures propagate |
| TransactionDomainService.GetRejectionReason | src/Antifraud.Domain/Services/TransactionDomainService.cs:35-55 | the amount rule takes precedence; the daily rule reports the projected total, the cap and the prior total |
| TransactionDomainService.AmountRuleShortCircuits | src/Antifraud.Domain/Services/TransactionDomainService.cs:20-41 | above 2000, neither method depends on the lookup |
| TransactionDomainService.OnlyTheDailyKeyIsConsulted | src/Antifraud.Domain/Services/TransactionDomainService.cs:27-45 | both methods depend on the lookup only through the source account and the creation date |
| TransactionDomainService.ReasonAgreesWithVerdict | src/Antifraud.Domain/Services/TransactionDomainService.cs:20-55 | for the same lookup, the reason is non-empty exactly when ShouldReject says reject, and the two methods throw together |
| TransactionDomainService.DailyCapBoundary | src/Antifraud.Domain/Services/TransactionDomainService.cs:32 | the daily cap is strict: a total of exactly 20000 passes and 20000.01 is rejected |
| TransactionRepository.Where | src/Antifraud.Infrastructure/Persistence/Repositories/TransactionRepository.cs:34 | keeps exactly the rows satisfying the filter, never more often than they occur |
| TransactionRepository.WhereCounts | src/Antifraud.Infrastructure/Persistence/Repositories/TransactionRepository.cs:34 | each row satisfying the filter occurs in the result exactly as often as in the table, and no other row occurs |
| TransactionRepository.WhereAppend | src/Antifraud.Infrastructure/Persistence/Repositories/TransactionRepository.cs:57-62 | filtering a concatenation is the concatenation of the filtered parts |
| TransactionRepository.Insert | src/Antifraud.Infrastructure/Persistence/Repositories/TransactionRepository.cs:35 | inserting into a newest-first sequence keeps it newest first and adds exactly that row |
| TransactionRepository.InsertCounts | src/Antifraud.Infrastructure/Persistence/Repositories/TransactionRepository.cs:35 | inserting adds exactly one occurrence of the row |
| TransactionRepository.SortNewestFirst | src/Antifraud.Infrastructure/Persistence/Repositories/TransactionRepository.cs:35-48 | `OrderByDescending(CreatedAt)` yields the same rows, newest first |
| TransactionRepository.SortIsPermutation | src/Antifraud.Infrastructure/Persistence/Repositories/TransactionRepository.cs:35-48 | sorting is a permutation |
| TransactionRepository.SentOnDayIsSameDate | src/Antifraud.Infrastructure/Persistence/Repositories/TransactionRepository.cs:45-47 | the day window selects exactly the rows sent by the account on the same calendar date |
| TransactionRepository.GetByAccountId | src/Antifraud.Infrastructure/Persistence/Repositories/TransactionRepository.cs:31-37 | newest first, the rows where the account is source or target, each as often as it occurs in the table, and no others |
| TransactionRepository.GetByAccountIdAndDate | src/Antifraud.Infrastructure/Persistence/Repositories/TransactionRepository.cs:39-50 | newest first, the rows the account sent on that date, whatever their status, each as often as it occurs in the table, and no others |
| TransactionRepository.DailyRowsOfDate | src/Antifraud.Infrastructure/Persistence/Repositories/TransactionRepository.cs:54-61 | asking the daily query with an instant or with its date selects the same rows |
| TransactionRepository.AddAllIsSum | src/Antifraud.Infrastructure/Persistence/Repositories/TransactionRepository.cs:68-70 | the `Aggregate(Add)` fold succeeds exactly when every value is in the starting currency, and then gives the exact sum; otherwise it throws the currency error |
| TransactionRepository.GetDailyAccumulatedAmount | src/Antifraud.Infrastructure/Persistence/Repositories/TransactionRepository.cs:52-73 | zero dollars when no pending or approved row of that sender and day exists; any answer it gives is the exact sum of those rows' amounts, and it throws only the currency error |
| TransactionRepository.DailyAccumulatedIsSum | src/Antifraud.Infrastructure/Persistence/Repositories/TransactionRepository.cs:52-73 | with all counted rows in USD, the accumulated amount is their exact sum in USD (zero when none); it throws only when two counted rows disagree on currency |
| TransactionRepository.AppendedRowContribution | src/Antifraud.Infrastructure/Persistence/Repositories/TransactionRepository.cs:58-61 | a rejected row, or one from another sender or day, changes no daily total; a pending or approved row adds its value to its own sender's day |
| TransactionRepository.SumAppend | src/Antifraud.Infrastructure/Persistence/Repositories/TransactionRepository.cs:68-70 | appending one value adds its amount to the sum |
| TransactionRepository.IndexOf | src/Antifraud.Infrastructure/Persistence/Repositories/TransactionRepository.cs:27-28 | the position of the first row with the id, or none when no row has it |
| TransactionRepository.GetByExternalId | src/Antifraud.Infrastructure/Persistence/Repositories/TransactionRepository.cs:24-29 | the empty Guid throws through `TransactionId.From`; otherwise the first row with that id, or none exactly when no row has it |
| TransactionRepository.UpdateRow | src/Antifraud.Infrastructure/Persistence/Repositories/TransactionRepository.cs:80-84 | the row read at that index is written back, and every other row is kept |
| AntifraudService.SendValidationResponse | src/Antifraud.Application/Services/AntifraudService.cs:63-74 | one event on "transaction-validation-response", carrying the id, status, reason and processing time |
| AntifraudService.ProcessTransactionForValidation | src/Antifraud.Application/Services/AntifraudService.cs:30-61 | publishes exactly one "approved" or "rejected" for the incoming id; "approved", with no reason, exactly when the transaction was found and ShouldReject returned false without error; a rule rejection publishes `GetRejectionReason`'s text; a missing transaction publishes "Transaction not found"; a lookup or rule evaluation that throws publishes "Validation error: " and the exception's message; every rejection carries a non-blank reason, given one answer from the daily query |
| AntifraudService.PublishedStatusParses | src/Antifraud.Application/Services/AntifraudService.cs:39-59 | every published status parses to Approved or Rejected |
| AntifraudService.StoreLookup | src/Antifraud.Domain/Services/TransactionDomainService.cs:27-28 | as written: the daily query the evaluation sees answers with the sum over the whole table, the row under evaluation included |
| AntifraudService.StoreLookupExcluding | src/Antifraud.Domain/Services/TransactionDomainService.cs:27-28 | corrected: the daily query answers with the sum over the table without the row under evaluation |
| AntifraudService.EvaluateInStore | src/Antifraud.Application/Services/AntifraudService.cs:30-61 | corrected: the evaluation run after a save, with the daily query leaving out the evaluated row: it answers for the requested id; it approves only a stored transaction that passes the rules against the other rows; an empty id or an id not in the table is rejected with the producer's message |
| AntifraudService.OwnValueCountedTwice | src/Antifraud.Application/Services/AntifraudService.cs:35-44 | as written: a stored pending transaction within the amount cap is decided on the prior daily total plus twice its own value |
| AntifraudService.DoubleCountingRejectsWithinCap | src/Antifraud.Domain/Services/TransactionDomainService.cs:27-32 | as written: after nine approved 2000 USD transfers, a 1500 USD transfer brings the day to 19500 yet is rejected |
| AntifraudService.CorrectedCountsOnce | src/Antifraud.Domain/Services/TransactionDomainService.cs:27-32 | with its own row left out of the daily query, a transaction within the amount cap is rejected exactly when the day's total, itself counted once, exceeds 20000 |
| AntifraudService.EvaluationApprovesWithinDailyCap | src/Antifraud.Application/Services/AntifraudService.cs:30-61 | corrected: evaluated against the store that already holds it, a transaction within the amount cap is approved exactly when its day's total, itself counted once, stays within 20000 |
| TransactionMapper.ToResponse | src/Antifraud.Application/Mappers/TransactionMapper.cs:8-22 | every field is copied from the wrapped values, and the status is the status's lower-case name |
| TransactionMapper.ToResponses | src/Antifraud.Application/Mappers/TransactionMapper.cs:24-27 | one response per transaction, same length and order |
| TransactionMapper.ResponseDeterminesRecord | src/Antifraud.Application/Services/TransactionService.cs:124-138 | the response loses no persisted field: equal responses come from equal rows |
| ResultValue.Result.Value | src/Antifraud.Application/DTOs/Result.cs:11 | a value is present exactly on success |
| ResultValue.Result.Match | src/Antifraud.Application/DTOs/Result.cs:30-33 | on success, onSuccess of the value; otherwise onFailure of the error text |
| ResultValue.Success | src/Antifraud.Application/DTOs/Result.cs:23 | a success holding the value, with empty Error and Errors |
| ResultValue.Failure | src/Antifraud.Application/DTOs/Result.cs:25 | a failure with no value, Error the message and Errors empty |
| ResultValue.FailureOf | src/Antifraud.Application/DTOs/Result.cs:27-28 | a failure whose Error is the list joined with "; " and whose Errors is the list |
| ResultValue.JoinAppend | src/Antifraud.Application/DTOs/Result.cs:28 | joining nothing gives "", one part gives that part, and each further part adds one separator |
| ResultValue.JoinLength | src/Antifraud.Application/DTOs/Result.cs:28 | a join is as long as its parts plus one separator between each pair of neighbours |
| ResultValue.FailureIsNotSuccess | src/Antifraud.Application/DTOs/Result.cs:10-33 | IsFailure is always the negation of IsSuccess, and Match takes exactly one branch |
| TransactionService.CreateOf | src/Antifraud.Application/Services/TransactionService.cs:31-72 | a row is persisted exactly when the creation succeeds |
| TransactionService.ReasonOrDefault | src/Antifraud.Application/Services/TransactionService.cs:110 | as written: a present reason is passed on unchanged, and only a missing one becomes "Rejected by anti-fraud system" |
| TransactionService.IntendedReasonOrDefault | src/Antifraud.Application/Services/TransactionService.cs:110 | the corrected defaulting: the result is never blank, and a non-blank reason is kept |
| TransactionService.Decide | src/Antifraud.Application/Services/TransactionService.cs:102-111 | "approved" approves, "rejected" rejects with the reason the chosen defaulting gives, "pending" changes nothing |
| TransactionService.ApplyDecisionOf | src/Antifraud.Application/Services/TransactionService.cs:92-122 | under either defaulting, a failure leaves the table as it was, and the table never changes size |
| TransactionService.FoundAt | src/Antifraud.Application/Services/TransactionService.cs:96 | a decision reaches the first row with its id |
| TransactionService.TransactionService.CreateTransaction | src/Antifraud.Application/Services/TransactionService.cs:31-72 | returns `CreateOf`'s result; the table grows by exactly the created row, and a response is queued for evaluation only on success |
| TransactionService.TransactionService.GetTransaction | src/Antifraud.Application/Services/TransactionService.cs:74-90 | succeeds exactly when the id is non-empty and stored, with the mapped row; otherwise "Transaction … not found", or the wrapped empty-id error |
| TransactionService.TransactionService.ProcessTransactionValidation | src/Antifraud.Application/Services/TransactionService.cs:92-122 | the result and the new table are `ApplyDecisionOf` of the old table under the service's defaulting, and nothing is queued for evaluation |
| TransactionService.CreateSucceedsIff | src/Antifraud.Application/Services/TransactionService.cs:31-72 | creation succeeds exactly when both ids are non-empty and active, the transfer type and the amount are positive, the accounts differ and the save succeeds |
| TransactionService.MissingSourceReportedFirst | src/Antifraud.Application/Services/TransactionService.cs:36-43 | a missing source account is reported even when the target is missing too |
| TransactionService.CreatedMirrorsRequest | src/Antifraud.Application/Services/TransactionService.cs:46-62 | the response mirrors the request (new id, parties, type, amount, "USD", "pending", no update time) and describes exactly the persisted row |
| TransactionService.BadTransferTypeReported | src/Antifraud.Application/Services/TransactionService.cs:46-66 | a non-positive transfer type becomes a failure carrying the ArgumentException's message |
| TransactionService.UnknownTransactionRefused | src/Antifraud.Application/Services/TransactionService.cs:96-99 | a decision for an unknown id fails with "Transaction … not found" and changes nothing |
| TransactionService.DuplicateDecisionRefused | src/Antifraud.Application/Services/TransactionService.cs:104-121 | a decision on a transaction that is no longer pending fails with the aggregate's message and leaves the table unchanged |
| TransactionService.PendingDecisionChangesNothing | src/Antifraud.Application/Services/TransactionService.cs:102-116 | a "pending" decision succeeds and leaves the table as it was |
| TransactionService.DecisionApplied | src/Antifraud.Application/Services/TransactionService.cs:102-116 | "approved" or "rejected" on a pending transaction succeeds and updates that row's status and update time only; as written a rejection needs a missing or non-blank reason, with the intended defaulting any reason will do |
| TransactionService.BlankRejectionFails | src/Antifraud.Application/Services/TransactionService.cs:102-121 | as written: "rejected" with a blank non-null reason on a pending transaction fails with "An error occurred while processing validation: Rejection reason is required (Parameter 'reason')" and leaves the table unchanged |
| TransactionService.BlankReasonRefused | src/Antifraud.Application/Services/TransactionService.cs:110 | as written: a blank non-null reason reaches Reject, which throws "Rejection reason is required" |
| TransactionService.IntendedRejectionAlwaysApplies | src/Antifraud.Domain/Entities/Transaction.cs:92-101 | with the corrected defaulting, rejecting a pending transaction always succeeds |
| TransactionService.PublishedDecisionApplies | src/Antifraud.Application/Services/TransactionService.cs:92-122 | under either defaulting, whatever the producer publishes, applying it to the pending transaction succeeds and sets Approved or Rejected accordingly, given one answer from the daily query |
| ProcessTransactionValidationUseCase.KnownIffParses | src/Antifraud.Application/UseCases/ProcessTransactionValidationUseCase.cs:30-35 | the use case's case-insensitive membership test accepts exactly what `TransactionStatus.From` parses |
| ProcessTransactionValidationUseCase.Guard | src/Antifraud.Application/UseCases/ProcessTransactionValidationUseCase.cs:20-35 | the checks run in order (empty id, blank status, unknown status), the first failing one wins with its message, and the service is reached exactly when all pass |
| ProcessTransactionValidationUseCase.GuardedStatusParses | src/Antifraud.Application/UseCases/ProcessTransactionValidationUseCase.cs:30-38 | behind the guards the service's status parse cannot fail |
| ProcessTransactionValidationUseCase.ProcessTransactionValidationUseCase.Execute | src/Antifraud.Application/UseCases/ProcessTransactionValidationUseCase.cs:17-39 | a guard failure is returned with the service untouched; otherwise the service's result and table change, unaltered; nothing is ever queued for evaluation |
| CreateTransactionUseCase.Guard | src/Antifraud.Application/UseCases/CreateTransactionUseCase.cs:20-28 | same accounts are reported before a non-positive value, and the service is reached exactly when neither holds |
| CreateTransactionUseCase.GuardSubsumesAggregateCheck | src/Antifraud.Application/UseCases/CreateTransactionUseCase.cs:17-32 | behind the guards, creation fails only for an empty or inactive account, a non-positive transfer type or a failed save |
| CreateTransactionUseCase.CreateTransactionUseCase.Execute | src/Antifraud.Application/UseCases/CreateTransactionUseCase.cs:17-32 | a guard failure is returned with the service untouched; otherwise the service's result and table change, unaltered, and the created transaction's response is queued for evaluation exactly on success |
| GetTransactionUseCase.Guard | src/Antifraud.Application/UseCases/GetTransactionUseCase.cs:20-23 | an empty id fails with "Transaction external ID cannot be empty"; any other id reaches the service |
| GetTransactionUseCase.CreatedAtIgnored | src/Antifraud.Application/UseCases/GetTransactionUseCase.cs:17-27 | the creation date in the request never changes the guard's answer |
| GetTransactionUseCase.GetTransactionUseCase.Execute | src/Antifraud.Application/UseCases/GetTransactionUseCase.cs:17-27 | the guard failure, or the service's answer unchanged |
| ValidationResults.Messages | src/Antifraud.Application/Validators/CreateTransactionRequestValidator.cs:44 | one message per result in order, "Unknown validation error" for a null message |
| ValidationResults.MessagesAppend | src/Antifraud.Application/Validators/CreateTransactionRequestValidator.cs:44 | the messages of a concatenation are the concatenated messages |
| CreateTransactionRequestValidator.Validate | src/Antifraud.Application/Validators/CreateTransactionRequestValidator.cs:8-39 | the results are the annotation results, then same accounts, empty source and empty target, all reported with no short-circuit |
| CreateTransactionRequestValidator.IsValid | src/Antifraud.Application/Validators/CreateTransactionRequestValidator.cs:41-46 | valid exactly when Validate reports nothing; the errors are the results' messages in order |
| CreateTransactionRequestValidator.ValidIffAllRulesHold | src/Antifraud.Application/DTOs/CreateTransactionRequest.cs:15-19 | a request is valid exactly when the transfer type is ≥ 1, the value ≥ 0.01, the accounts differ and neither is empty |
| CreateTransactionRequestValidator.MessagesByRule | src/Antifraud.Application/Validators/CreateTransactionRequestValidator.cs:14-36 | the messages are each rule's messages, in rule order |
| CreateTransactionRequestValidator.RuleMessages | src/Antifraud.Application/Validators/CreateTransactionRequestValidator.cs:17-36 | each rule contributes its own message exactly when it is broken |
| CreateTransactionRequestValidator.ReportedMessages | src/Antifraud.Application/Validators/CreateTransactionRequestValidator.cs:8-39 | a message is reported exactly when some broken rule carries it |
| CreateTransactionRequestValidator.EachMessageIffItsRule | src/Antifraud.Application/Validators/CreateTransactionRequestValidator.cs:14-36 | each of the five messages is reported exactly when its rule is broken |
| CreateTransactionRequestValidator.MembersAreRequestProperties | src/Antifraud.Application/Validators/CreateTransactionRequestValidator.cs:19-35 | every result has a message and names one or two request properties |
| CreateTransactionRequestValidator.EverythingWrongReportsAll | src/Antifraud.Application/Validators/CreateTransactionRequestValidator.cs:8-38 | two empty ids, a zero transfer type and a negative value give all five messages, in rule order |
| CreateTransactionRequestValidator.ValidPassesUseCaseGuard | src/Antifraud.Application/UseCases/CreateTransactionUseCase.cs:20-28 | a valid request passes the use case guards; a value of 0.005 passes the guards but not the validator |
| GetTransactionRequestValidator.Validate | src/Antifraud.Application/Validators/GetTransactionRequestValidator.cs:8-25 | the results are exactly the empty-id result when the id is empty, and nothing otherwise |
| GetTransactionRequestValidator.IsValid | src/Antifraud.Application/Validators/GetTransactionRequestValidator.cs:27-32 | valid exactly when the id is non-empty; otherwise exactly one error, "Transaction external ID cannot be empty" |
| GetTransactionRequestValidator.AgreesWithUseCaseGuard | src/Antifraud.Application/Validators/GetTransactionRequestValidator.cs:17-22 | the validator accepts exactly what the use case guard accepts, and ignores the creation date |

## Left out

- Kafka, the consumer loop and the validation handler are not part of this model. The handler catches every exception, so the consumer commits the offset even when applying a decision failed. That is an I/O concern.
- The fire-and-forget `Task.Run` that starts the evaluation is concurrency. It is kept only as the ghost list `evaluationRequests` of responses handed to the evaluation. The evaluation as written is `AntifraudService.ProcessTransactionForValidation` fed the lookup `StoreLookup(rows)` over the table right after the row is saved, which counts that row twice (`OwnValueCountedTwice`). `AntifraudService.EvaluateInStore` is the corrected evaluation, whose daily query leaves the evaluated row out.
- The HTTP controllers, middleware, dependency injection, configuration and health checks are not part of this model.
- EF Core, the database schema and migrations are not part of this model, and neither is `AccountRepository`. The accounts the repository reports as existing and active are the `activeAccounts` set. A failed `SaveChangesAsync` is the `saveError` parameter. Other database exceptions are not modelled.
- Publishing can fail; that failure is not modelled.
- ProcessTransactionForValidation: the evaluation reads the store three times. It reads the transaction (AntifraudService.cs:35), the daily total in `ShouldRejectTransactionAsync` (TransactionDomainService.cs:28), and the daily total again in `GetRejectionReasonAsync` (TransactionDomainService.cs:45). The model answers both daily reads from one `lookup`, so a write between the two reads is not modelled. If the two reads disagreed, the source could publish "rejected" with an empty reason (TransactionDomainService.cs:54), which the as-written applier then refuses. The promise that every rejection carries a non-blank reason, and `TransactionService.PublishedDecisionApplies`, hold only when the two daily reads agree.
- `DateTime.UtcNow`, `Guid.NewGuid()`, and the id and occurrence time of domain events are not modelled. The clock and the generated Guid are parameters, and events leave out their own id and time.
- Culture-dependent money formatting (the "C" format of `Money.ToString`) is not modelled. Reason texts take the formatter as a parameter, and rejection reasons are also kept as their parts (which rule, projected total, cap, prior total).
- Case mapping covers ASCII letters only. `ToLowerInvariant`, `ToUpperInvariant` and the ordinal case-insensitive comparison also map non-ASCII letters.
- `decimal` has a range of about ±7.9·10^28 and 28 significant digits. Amounts are unbounded exact reals, so overflow of a sum is not modelled. The `Range(0.01, double.MaxValue)` check converts the value to `double`; the model compares exactly.
- The `numeric(18,2)` column scale is not modelled.
- `OrderByDescending` is stable, so rows created at the same instant keep table order. `TransactionRepository.SortNewestFirst` promises only newest first and the same rows.
- The static `Result` helpers (`Result.Success`, `Result.Failure`) forward to the `Result<T>` factories. They are the same functions here.
- The implicit conversions are the `From` functions and the field accesses. They are not separate members.
- `TransactionService.MapToResponse` has the same body as `TransactionMapper.ToResponse` and is modelled by it.
- Null strings in `Result.Failure(null)`, and JSON serialisation, are not modelled.
- `[Required]` on the request records never fires for `Guid`, `int` or `decimal` properties, so it contributes nothing.
- The parameterless EF constructors of `Account` and `Transaction` are not modelled. `TransactionEntity.Transaction.Load` stands for loading a stored row.
- `Account` stores its id, number and name as constants. Nothing can change them, so `Activate` and `Deactivate` do not list them.

## Findings

| source | as written | input that shows it | evidently intended | confidence | as-written member | corrected member |
|---|---|---|---|---|---|---|
| src/Antifraud.Application/Services/TransactionService.cs:110 | only a null reason is replaced by the default; "" or white space reaches `Reject`, which throws, so the decision fails | a "rejected" decision with reason "" for a pending transaction | any blank reason is replaced by "Rejected by anti-fraud system", as the service's own tests expect success for "" and "   " | not executed | TransactionService.BlankRejectionFails | TransactionService.IntendedRejectionAlwaysApplies |
| src/Antifraud.Domain/Services/TransactionDomainService.cs:27-30 | the transaction is already stored as pending when it is evaluated, so the daily total includes it, and its value is then added again | nine approved 2000 USD transfers, then a 1500 USD transfer on the same day: the day totals 19500 but the rule sees 21000 and rejects | the prior total leaves out the transaction under evaluation, so its value is counted once | not executed | AntifraudService.DoubleCountingRejectsWithinCap | AntifraudService.CorrectedCountsOnce |

How the model uses each corrected behaviour:

- The decision applier (`TransactionService.Decide`, `ApplyDecisionOf` and the service's `ProcessTransactionValidation`) takes the reason defaulting as a parameter, `TransactionService.Defaulting`. `AsWritten` is the code at TransactionService.cs:110, and `BlankRejectionFails` shows its failure. `Intended` also replaces a blank reason, and `DecisionApplied` and `IntendedRejectionAlwaysApplies` show that any rejection of a pending transaction then applies. The lemmas that hold under both defaultings take the defaulting as a parameter.
- `AntifraudService.EvaluateInStore` leaves the evaluated row out of the daily query.
