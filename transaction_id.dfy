/** TransactionId: the external identifier of a transaction, a non-empty Guid. */
module TransactionIdValue {
  import opened Wrappers
  import opened Primitives

  datatype TransactionId = TransactionId(value: Guid)
  {
    /** The form every TransactionId built by `From` or `New` has. */
    predicate Valid() {
      value != EmptyGuid
    }
  }

  const EmptyId: Exception := ArgumentException("Transaction ID cannot be empty", Some("value"))

  /** `TransactionId.From`: the empty Guid is refused. */
  function From(value: Guid): (r: Outcome<TransactionId>)
    ensures r.Ok? <==> value != EmptyGuid
    ensures r.Ok? ==> r.value.Valid() && r.value.value == value
    ensures r.Throws? ==> r.exception == EmptyId
  {
    if value == EmptyGuid then Throws(EmptyId)
    else Ok(TransactionId(value))
  }

  /** `TransactionId.New`: wraps a freshly generated Guid without any check; the
      generator is a parameter, and a random version-4 Guid is never empty. */
  function New(generated: Guid): (r: TransactionId)
    requires generated != EmptyGuid
    ensures r.Valid() && r.value == generated
  {
    TransactionId(generated)
  }

  /** The implicit conversions: Guid to id and back is the identity on non-empty
      Guids, and id to Guid and back is the identity on valid ids. */
  lemma ConversionRoundTrip(g: Guid, id: TransactionId)
    ensures g != EmptyGuid ==> From(g).value.value == g
    ensures id.Valid() ==> From(id.value) == Ok(id)
  {
  }
}
