/** Result<T>: the outcome the application services hand back, a value on
    success or error text on failure. */
module ResultValue {
  import opened Wrappers

  /** The two shapes the private constructor is ever called with. */
  datatype Result<T> = Succeeded(value: T) | Failed(message: string, messages: seq<string>)
  {
    predicate IsSuccess() { Succeeded? }

    /** `IsFailure`, derived from `IsSuccess`. */
    predicate IsFailure() { !IsSuccess() }

    /** `Value`: the value on success; `None` stands for `default`. */
    function Value(): (v: Option<T>)
      ensures v.Some? <==> IsSuccess()
    {
      if Succeeded? then Some(value) else None
    }

    /** `Error`: the empty string on success. */
    function Error(): string {
      if Succeeded? then "" else message
    }

    /** `Errors`: empty unless built from a list. */
    function Errors(): seq<string> {
      if Succeeded? then [] else messages
    }

    /** `Match`: `onSuccess` of the value on success, `onFailure` of the error text otherwise. */
    function Match<R>(onSuccess: T -> R, onFailure: string -> R): (r: R)
      ensures IsSuccess() ==> r == onSuccess(Value().value)
      ensures IsFailure() ==> r == onFailure(Error())
    {
      if IsSuccess() then onSuccess(value) else onFailure(message)
    }
  }

  /** `Success(value)`. */
  function Success<T>(value: T): (r: Result<T>)
    ensures r.IsSuccess() && !r.IsFailure() && r.Value() == Some(value) && r.Error() == "" && r.Errors() == []
  {
    Succeeded(value)
  }

  /** `Failure(error)`. */
  function Failure<T>(error: string): (r: Result<T>)
    ensures r.IsFailure() && r.Value().None? && r.Error() == error && r.Errors() == []
  {
    Failed(error, [])
  }

  /** `string.Join(separator, parts)`. */
  function Join(parts: seq<string>, separator: string): string {
    if parts == [] then ""
    else if |parts| == 1 then parts[0]
    else parts[0] + separator + Join(parts[1..], separator)
  }

  /** `Failure(errors)`: the messages joined with "; ", and kept as a list. */
  function FailureOf<T>(errors: seq<string>): (r: Result<T>)
    ensures r.IsFailure() && r.Value().None? && r.Error() == Join(errors, "; ") && r.Errors() == errors
  {
    Failed(Join(errors, "; "), errors)
  }

  /** Joining nothing is empty, one part is that part, and each further part is
      attached after one separator. */
  lemma {:induction false} JoinAppend(parts: seq<string>, last: string, separator: string)
    ensures Join([], separator) == "" && Join([last], separator) == last
    ensures parts != [] ==> Join(parts + [last], separator) == Join(parts, separator) + separator + last
  {
    if |parts| > 1 {
      assert (parts + [last])[1..] == parts[1..] + [last];
      JoinAppend(parts[1..], last, separator);
    } else if |parts| == 1 {
      assert parts + [last] == [parts[0], last];
      assert [parts[0], last][1..] == [last];
    }
  }

  /** The length of a join: every part plus one separator between neighbours. */
  lemma {:induction false} JoinLength(parts: seq<string>, separator: string)
    requires parts != []
    ensures |Join(parts, separator)| == TotalLength(parts) + (|parts| - 1) * |separator|
  {
    if |parts| > 1 {
      JoinLength(parts[1..], separator);
    }
  }

  function TotalLength(parts: seq<string>): nat {
    if parts == [] then 0 else |parts[0]| + TotalLength(parts[1..])
  }

  /** `IsFailure` is always the negation of `IsSuccess`, and `Match` takes
      exactly one of its two branches. */
  lemma FailureIsNotSuccess<T, R>(r: Result<T>, onSuccess: T -> R, onFailure: string -> R)
    ensures r.IsFailure() == !r.IsSuccess()
    ensures r.Match(onSuccess, onFailure) == (if r.IsSuccess() then onSuccess(r.Value().value) else onFailure(r.Error()))
  {
  }
}
