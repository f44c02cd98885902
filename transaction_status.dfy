/** TransactionStatus: the closed set of lifecycle states, parsed from text
    case-insensitively. */
module TransactionStatusValue {
  import opened Wrappers
  import opened Text

  /** The three singletons `Pending`, `Approved` and `Rejected`; record equality
      in the source is equality of these values. */
  datatype TransactionStatus = Pending | Approved | Rejected
  {
    /** `Value`, which is also what `ToString()` and the implicit conversion to
        string return. */
    function Value(): string {
      match this
      case Pending => "pending"
      case Approved => "approved"
      case Rejected => "rejected"
    }

    predicate IsPending() { this == Pending }
    predicate IsApproved() { this == Approved }
    predicate IsRejected() { this == Rejected }
  }

  /** The text `From` reports for a status it does not know; a null value
      interpolates as the empty string. */
  function InvalidStatus(value: Option<string>): Exception {
    ArgumentException("Invalid transaction status: " + (if value.Some? then value.value else ""), Some("value"))
  }

  /** `TransactionStatus.From` (and the implicit conversion from string, which
      calls it): the lower-cased text must be one of the three names. */
  function From(value: Option<string>): (r: Outcome<TransactionStatus>)
    ensures r.Ok? <==> value.Some? && ToLowerInvariant(value.value) in {"pending", "approved", "rejected"}
    ensures r.Ok? ==> r.value.Value() == ToLowerInvariant(value.value)
    ensures r.Throws? ==> r.exception == InvalidStatus(value)
  {
    if value.None? then Throws(InvalidStatus(value))
    else
      var lower := ToLowerInvariant(value.value);
      if lower == "pending" then Ok(Pending)
      else if lower == "approved" then Ok(Approved)
      else if lower == "rejected" then Ok(Rejected)
      else Throws(InvalidStatus(value))
  }

  /** Every name is a lower-case word. */
  lemma NamesAreLower(s: TransactionStatus)
    ensures AllAsciiLower(s.Value())
  {
  }

  /** Parsing a status's own text gives that status back, and the three texts
      are distinct. */
  lemma {:induction false} FromValueRoundTrip(s: TransactionStatus)
    ensures From(Some(s.Value())) == Ok(s)
    ensures forall t: TransactionStatus :: t.Value() == s.Value() ==> t == s
  {
    NamesAreLower(s);
    LowerOfLowerIsSame(s.Value());
  }

  /** Parsing ignores case: a string and its lower-cased form parse to the same
      status, or both fail (each error quoting its own input). */
  lemma {:induction false} FromIgnoresCase(value: string)
    ensures From(Some(value)).Ok? <==> From(Some(ToLowerInvariant(value))).Ok?
    ensures From(Some(value)).Ok? ==> From(Some(value)) == From(Some(ToLowerInvariant(value)))
  {
    var lower := ToLowerInvariant(value);
    forall i | 0 <= i < |lower| ensures LowerChar(lower[i]) == lower[i] {
      assert lower[i] == LowerChar(value[i]);
    }
    assert ToLowerInvariant(lower) == lower;
  }

  /** Exactly one of IsPending, IsApproved and IsRejected holds. */
  lemma ExactlyOneHolds(s: TransactionStatus)
    ensures s.IsPending() <==> !s.IsApproved() && !s.IsRejected()
    ensures !(s.IsApproved() && s.IsRejected())
  {
  }
}
