/** TransactionMapper: the response a client sees for a stored transaction. */
module TransactionMapper {
  import opened Wrappers
  import opened TransactionStatusValue
  import opened TransactionEntity
  import opened Dtos

  /** `ToResponse` (and the identical `MapToResponse` of the transaction service):
      every field copied from the wrapped values, the status as its name. */
  function ToResponse(t: TransactionRecord): (r: TransactionResponse)
    ensures r.transactionExternalId == t.id.value
    ensures r.sourceAccountId == t.sourceAccountId.value && r.targetAccountId == t.targetAccountId.value
    ensures r.transferTypeId == t.transferTypeId.value
    ensures r.value == t.value.amount && r.currency == t.value.currency
    ensures r.status == t.status.Value()
    ensures r.createdAt == t.createdAt && r.updatedAt == t.updatedAt
  {
    TransactionResponse(t.id.value, t.sourceAccountId.value, t.targetAccountId.value, t.transferTypeId.value,
                        t.value.amount, t.value.currency, t.status.Value(), t.createdAt, t.updatedAt)
  }

  /** The sequence overload: one response per transaction, in the same order. */
  function ToResponses(ts: seq<TransactionRecord>): (r: seq<TransactionResponse>)
    ensures |r| == |ts|
    ensures forall i :: 0 <= i < |ts| ==> r[i] == ToResponse(ts[i])
  {
    seq(|ts|, i requires 0 <= i < |ts| => ToResponse(ts[i]))
  }

  /** Two transactions with the same response differ at most in their event
      lists: the response loses no persisted field. */
  lemma {:induction false} ResponseDeterminesRecord(a: TransactionRecord, b: TransactionRecord)
    requires ToResponse(a) == ToResponse(b)
    ensures a == b
  {
    FromValueRoundTrip(a.status);
  }
}
