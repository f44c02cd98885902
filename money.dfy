/** Money: a non-negative decimal amount in one currency; sums and comparisons
    are defined only within one currency. */
module MoneyValue {
  import opened Wrappers
  import opened Text

  const DefaultCurrency: string := "USD"

  /** The record `Money`; equality compares amount and currency. */
  datatype Money = Money(amount: real, currency: string)
  {
    /** The invariant every Money built by `From`, `Zero` or `Add` keeps. */
    predicate Valid() {
      amount >= 0.0
    }

    /** `Add`: the exact sum, only between equal currencies. */
    function Add(other: Money): (r: Outcome<Money>)
      ensures r.Ok? <==> currency == other.currency
      ensures r.Ok? ==> r.value.amount == amount + other.amount && r.value.currency == currency
      ensures r.Ok? && Valid() && other.Valid() ==> r.value.Valid()
      ensures r.Throws? ==> r.exception == CurrencyMismatch("add", this, other)
    {
      if currency != other.currency then Throws(CurrencyMismatch("add", this, other))
      else Ok(Money(amount + other.amount, currency))
    }

    /** `IsGreaterThan`: strict comparison, only between equal currencies. */
    function IsGreaterThan(other: Money): (r: Outcome<bool>)
      ensures r.Ok? <==> currency == other.currency
      ensures r.Ok? ==> (r.value <==> amount > other.amount)
      ensures r.Throws? ==> r.exception == CurrencyMismatch("compare", this, other)
    {
      if currency != other.currency then Throws(CurrencyMismatch("compare", this, other))
      else Ok(amount > other.amount)
    }

    /** `IsGreaterThanOrEqual`: non-strict comparison, only between equal currencies. */
    function IsGreaterThanOrEqual(other: Money): (r: Outcome<bool>)
      ensures r.Ok? <==> currency == other.currency
      ensures r.Ok? ==> (r.value <==> amount >= other.amount)
      ensures r.Throws? ==> r.exception == CurrencyMismatch("compare", this, other)
    {
      if currency != other.currency then Throws(CurrencyMismatch("compare", this, other))
      else Ok(amount >= other.amount)
    }
  }

  function CurrencyMismatch(verb: string, a: Money, b: Money): Exception {
    InvalidOperationException("Cannot " + verb + " different currencies: " + a.currency + " and " + b.currency)
  }

  /** `Money.From`: a negative amount is refused first, then a blank currency;
      the currency is stored upper-cased. */
  function From(amount: real, currency: Option<string>): (r: Outcome<Money>)
    ensures r.Ok? <==> amount >= 0.0 && !IsNullOrWhiteSpace(currency)
    ensures r.Ok? ==> r.value.Valid() && r.value.amount == amount && r.value.currency == ToUpperInvariant(currency.value)
    ensures amount < 0.0 ==> r == Throws(ArgumentException("Amount cannot be negative", Some("amount")))
    ensures amount >= 0.0 && IsNullOrWhiteSpace(currency) ==>
              r == Throws(ArgumentException("Currency cannot be null or empty", Some("currency")))
  {
    if amount < 0.0 then Throws(ArgumentException("Amount cannot be negative", Some("amount")))
    else if IsNullOrWhiteSpace(currency) then Throws(ArgumentException("Currency cannot be null or empty", Some("currency")))
    else Ok(Money(amount, ToUpperInvariant(currency.value)))
  }

  /** `Money.Zero`. */
  function Zero(): (z: Money)
    ensures z.Valid() && z.amount == 0.0 && z.currency == DefaultCurrency
  {
    Money(0.0, DefaultCurrency)
  }

  /** The implicit conversion from decimal: `From(amount)` in US dollars. */
  function FromDecimal(amount: real): (r: Outcome<Money>)
    ensures r.Ok? <==> amount >= 0.0
    ensures r.Ok? ==> r.value == Money(amount, DefaultCurrency)
  {
    UpperOfUpperIsSame(DefaultCurrency);
    assert !IsWhiteSpace(DefaultCurrency[0]);
    From(amount, Some(DefaultCurrency))
  }

  /** The implicit conversion to decimal. */
  function ToDecimal(m: Money): real {
    m.amount
  }

  /** `From` followed by the conversion to decimal gives the amount back. */
  lemma DecimalRoundTrip(amount: real, currency: Option<string>)
    requires From(amount, currency).Ok?
    ensures ToDecimal(From(amount, currency).value) == amount
  {
  }

  /** Adding is commutative and associative within one currency, and Zero is
      its identity on US-dollar amounts. */
  lemma AddLaws(a: Money, b: Money, c: Money)
    requires a.currency == b.currency == c.currency
    ensures a.Add(b) == b.Add(a)
    ensures a.Add(b).value.Add(c) == a.Add(b.Add(c).value)
    ensures a.currency == DefaultCurrency ==> Zero().Add(a) == Ok(a)
  {
  }

  /** The strict comparison is the negation of the reversed non-strict one, and
      both agree on currency mismatches. */
  lemma ComparisonDuality(a: Money, b: Money)
    ensures a.IsGreaterThan(b).Ok? <==> b.IsGreaterThanOrEqual(a).Ok?
    ensures a.IsGreaterThan(b).Ok? ==> a.IsGreaterThan(b).value == !b.IsGreaterThanOrEqual(a).value
  {
  }

  /** Equal amounts in different currencies are different values. */
  lemma EqualityIsByAmountAndCurrency(a: Money, b: Money)
    ensures a == b <==> a.amount == b.amount && a.currency == b.currency
  {
  }
}
