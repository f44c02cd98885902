/** Option, the .NET exceptions the core throws, and Outcome: a value or the
    exception the C# code would have thrown instead of returning it. */
module Wrappers {

  datatype Option<+T> = None | Some(value: T)

  /** The exception types the modelled code throws. */
  datatype Exception =
    | ArgumentException(text: string, paramName: Option<string>)
    | InvalidOperationException(text: string)
  {
    /** `Exception.Message`: .NET appends the parameter name to the text of an
        ArgumentException that was given one. */
    function Message(): (m: string)
      ensures |text| <= |m|
      ensures m[..|text|] == text
      ensures InvalidOperationException? || paramName.None? ==> m == text
    {
      match this
      case ArgumentException(t, Some(p)) => t + " (Parameter '" + p + "')"
      case ArgumentException(t, None) => t
      case InvalidOperationException(t) => t
    }
  }

  /** The result of a call that may throw. */
  datatype Outcome<+T> = Ok(value: T) | Throws(exception: Exception)
}
