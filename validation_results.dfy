/** `System.ComponentModel.DataAnnotations.ValidationResult` as the request
    validators use it, and the projection both `IsValid` methods apply. */
module ValidationResults {
  import opened Wrappers

  /** One reported problem: its message (`None` for a null message) and the
      names of the request properties it concerns. */
  datatype ValidationResult = ValidationResult(errorMessage: Option<string>, memberNames: seq<string>)

  /** What `IsValid` reports for a result whose message is null. */
  const UnknownError := "Unknown validation error"

  /** The message `IsValid` reports for one result. */
  function MessageOf(r: ValidationResult): string {
    if r.errorMessage.Some? then r.errorMessage.value else UnknownError
  }

  /** The `Select` of `IsValid`: one message per result, in order. */
  function Messages(results: seq<ValidationResult>): (errors: seq<string>)
    ensures |errors| == |results|
    ensures forall i :: 0 <= i < |results| ==> errors[i] == MessageOf(results[i])
  {
    if results == [] then [] else [MessageOf(results[0])] + Messages(results[1..])
  }

  /** Messages of a concatenation are the concatenated messages. */
  lemma MessagesAppend(a: seq<ValidationResult>, b: seq<ValidationResult>)
    ensures Messages(a + b) == Messages(a) + Messages(b)
  {
  }
}
