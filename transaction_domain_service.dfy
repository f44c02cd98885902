/** The anti-fraud rules: a per-transaction cap of 2000 USD, checked first, and
    a strict daily cap of 20000 USD over the source account's day. */
module TransactionDomainService {
  import opened Wrappers
  import opened Primitives
  import opened MoneyValue
  import opened AccountIdValue
  import opened TransactionEntity

  /** `MaxTransactionAmount`, `Money.From(2000)`. */
  const MaxTransactionAmount: Money := Money(2000.0, DefaultCurrency)
  /** `MaxDailyAmount`, `Money.From(20000)`. */
  const MaxDailyAmount: Money := Money(20000.0, DefaultCurrency)

  /** `GetDailyAccumulatedAmountAsync` as the rules see it: the amount already
      accumulated by an account on a date, or the exception the lookup threw. */
  type DailyLookup = (AccountId, Timestamp) -> Outcome<Money>

  /** Which rule a rejection reason reports: none (the empty string), the amount
      cap, or the daily cap with the projected total and the prior total. */
  datatype RejectionReason =
    | NoRule
    | AmountCap(amount: Money, cap: Money)
    | DailyCap(projected: Money, cap: Money, prior: Money)
  {
    /** The reason text, with the culture-dependent money formatting as a parameter. */
    function Text(format: Money -> string): (s: string)
      ensures s == "" <==> NoRule?
    {
      match this
      case NoRule => ""
      case AmountCap(amount, cap) =>
        "Transaction amount " + format(amount) + " exceeds the maximum allowed amount of " + format(cap)
      case DailyCap(projected, cap, prior) =>
        "Daily accumulated amount " + format(projected) + " would exceed the maximum daily limit of "
        + format(cap) + ". Current daily total: " + format(prior)
    }
  }

  /** The caps are what `Money.From` builds from the two decimals. */
  lemma CapsAreFromDecimal()
    ensures FromDecimal(2000.0) == Ok(MaxTransactionAmount)
    ensures FromDecimal(20000.0) == Ok(MaxDailyAmount)
  {
  }

  /** The only key the rules look up: the source account and the creation date. */
  function LookupKey(t: TransactionRecord): (AccountId, Timestamp) {
    (t.sourceAccountId, StartOfDay(t.createdAt))
  }

  /** `ShouldRejectTransactionAsync`. */
  function ShouldReject(t: TransactionRecord, lookup: DailyLookup): (r: Outcome<bool>)
    ensures t.value.currency != DefaultCurrency ==> r == Throws(CurrencyMismatch("compare", t.value, MaxTransactionAmount))
    ensures t.value.currency == DefaultCurrency && t.value.amount > 2000.0 ==> r == Ok(true)
    ensures t.value.currency == DefaultCurrency && t.value.amount <= 2000.0 ==>
              var daily := lookup(LookupKey(t).0, LookupKey(t).1);
              && (daily.Throws? ==> r == Throws(daily.exception))
              && (daily.Ok? && daily.value.currency != DefaultCurrency ==> r.Throws?)
              && (daily.Ok? && daily.value.currency == DefaultCurrency ==> r == Ok(daily.value.amount + t.value.amount > 20000.0))
  {
    var overCap := t.value.IsGreaterThan(MaxTransactionAmount);
    if overCap.Throws? then Throws(overCap.exception)
    else if overCap.value then Ok(true)
    else
      var daily := lookup(t.sourceAccountId, StartOfDay(t.createdAt));
      if daily.Throws? then Throws(daily.exception)
      else
        var total := daily.value.Add(t.value);
        if total.Throws? then Throws(total.exception)
        else total.value.IsGreaterThan(MaxDailyAmount)
  }

  /** `GetRejectionReasonAsync`, with the reason kept as its parts. */
  function GetRejectionReason(t: TransactionRecord, lookup: DailyLookup): (r: Outcome<RejectionReason>)
    ensures t.value.currency == DefaultCurrency && t.value.amount > 2000.0 ==>
              r == Ok(AmountCap(t.value, MaxTransactionAmount))
    ensures t.value.currency == DefaultCurrency && t.value.amount <= 2000.0 ==>
              var daily := lookup(LookupKey(t).0, LookupKey(t).1);
              daily.Ok? && daily.value.currency == DefaultCurrency && daily.value.amount + t.value.amount > 20000.0 ==>
                r == Ok(DailyCap(Money(daily.value.amount + t.value.amount, DefaultCurrency), MaxDailyAmount, daily.value))
  {
    var overCap := t.value.IsGreaterThan(MaxTransactionAmount);
    if overCap.Throws? then Throws(overCap.exception)
    else if overCap.value then Ok(AmountCap(t.value, MaxTransactionAmount))
    else
      var daily := lookup(t.sourceAccountId, StartOfDay(t.createdAt));
      if daily.Throws? then Throws(daily.exception)
      else
        var total := daily.value.Add(t.value);
        if total.Throws? then Throws(total.exception)
        else
          // the sum is in US dollars by now, so this comparison cannot throw
          var overDaily := total.value.IsGreaterThan(MaxDailyAmount);
          if overDaily.Ok? && overDaily.value then Ok(DailyCap(total.value, MaxDailyAmount, daily.value))
          else Ok(NoRule)
  }

  /** Above the amount cap neither method consults the lookup at all. */
  lemma AmountRuleShortCircuits(t: TransactionRecord, lookup: DailyLookup, other: DailyLookup)
    requires t.value.currency == DefaultCurrency && t.value.amount > 2000.0
    ensures ShouldReject(t, lookup) == ShouldReject(t, other) == Ok(true)
    ensures GetRejectionReason(t, lookup) == GetRejectionReason(t, other)
  {
  }

  /** Both methods depend on the lookup only through its answer for the source
      account on the creation date. */
  lemma OnlyTheDailyKeyIsConsulted(t: TransactionRecord, lookup: DailyLookup, other: DailyLookup)
    requires lookup(LookupKey(t).0, LookupKey(t).1) == other(LookupKey(t).0, LookupKey(t).1)
    ensures ShouldReject(t, lookup) == ShouldReject(t, other)
    ensures GetRejectionReason(t, lookup) == GetRejectionReason(t, other)
  {
  }

  /** For the same lookup, the reason is empty exactly when the transaction is
      not to be rejected, and one method throws exactly when the other does. */
  lemma {:induction false} ReasonAgreesWithVerdict(t: TransactionRecord, lookup: DailyLookup, format: Money -> string)
    ensures ShouldReject(t, lookup).Ok? <==> GetRejectionReason(t, lookup).Ok?
    ensures ShouldReject(t, lookup).Ok? ==>
              (ShouldReject(t, lookup).value <==> GetRejectionReason(t, lookup).value.Text(format) != "")
  {
  }

  /** The daily cap is strict: a projected total of exactly 20000 passes, and
      any cent more is rejected; an amount of exactly 2000 is under the amount cap. */
  lemma DailyCapBoundary(t: TransactionRecord, lookup: DailyLookup)
    requires t.value == Money(2000.0, DefaultCurrency)
    ensures lookup(LookupKey(t).0, LookupKey(t).1) == Ok(Money(18000.0, DefaultCurrency)) ==> ShouldReject(t, lookup) == Ok(false)
    ensures lookup(LookupKey(t).0, LookupKey(t).1) == Ok(Money(18000.01, DefaultCurrency)) ==> ShouldReject(t, lookup) == Ok(true)
  {
  }
}
