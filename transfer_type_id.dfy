/** TransferTypeId: the kind of transfer, a positive 32-bit integer. */
module TransferTypeIdValue {
  import opened Wrappers
  import opened Primitives

  datatype TransferTypeId = TransferTypeId(value: Int32)
  {
    /** The form every TransferTypeId built by `From` has. */
    predicate Valid() {
      value > 0
    }
  }

  /** `TransferTypeId.From`: zero and negative values are refused. */
  function From(value: Int32): (r: Outcome<TransferTypeId>)
    ensures r.Ok? <==> value > 0
    ensures r.Ok? ==> r.value.Valid() && r.value.value == value
    ensures r.Throws? ==> r.exception == ArgumentException("Transfer type ID must be greater than zero", Some("value"))
  {
    if value <= 0 then Throws(ArgumentException("Transfer type ID must be greater than zero", Some("value")))
    else Ok(TransferTypeId(value))
  }

  /** The implicit conversions are mutually inverse on valid ids. */
  lemma ConversionRoundTrip(n: Int32, id: TransferTypeId)
    ensures n > 0 ==> From(n).value.value == n
    ensures id.Valid() ==> From(id.value) == Ok(id)
  {
  }
}
