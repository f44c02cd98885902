/** AccountId: the identifier of an account, a non-empty Guid. */
module AccountIdValue {
  import opened Wrappers
  import opened Primitives

  datatype AccountId = AccountId(value: Guid)
  {
    /** The form every AccountId built by `From` has. */
    predicate Valid() {
      value != EmptyGuid
    }
  }

  /** `AccountId.From`: the empty Guid is refused. */
  function From(value: Guid): (r: Outcome<AccountId>)
    ensures r.Ok? <==> value != EmptyGuid
    ensures r.Ok? ==> r.value.Valid() && r.value.value == value
    ensures r.Throws? ==> r.exception == ArgumentException("Account ID cannot be empty", Some("value"))
  {
    if value == EmptyGuid then Throws(ArgumentException("Account ID cannot be empty", Some("value")))
    else Ok(AccountId(value))
  }

  /** The implicit conversions are mutually inverse on valid ids. */
  lemma ConversionRoundTrip(g: Guid, id: AccountId)
    ensures g != EmptyGuid ==> From(g).value.value == g
    ensures id.Valid() ==> From(id.value) == Ok(id)
  {
  }

  /** Two ids built by `From` are equal exactly when their Guids are. */
  lemma FromIsInjective(a: Guid, b: Guid)
    requires From(a).Ok? && From(b).Ok?
    ensures From(a).value == From(b).value <==> a == b
  {
  }
}
