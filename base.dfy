/** JavaScript values the application relies on: nullable values, the outcome of
    a call that either returns or throws an `Error`, and the `message || fallback`
    idiom used by every catch block. */
module Base {

  /** A value that may be `null` or `undefined`. */
  datatype Option<+T> = None | Some(value: T)

  /** The result of an awaited call: it returns a value, or it throws an error
      whose `message` may be absent (a thrown non-Error) or present. */
  datatype Outcome<+T> = Success(value: T) | Failure(message: Option<string>)

  /** JavaScript truthiness of a `string | null`: null and "" are falsy. */
  predicate Truthy(s: Option<string>)
  {
    s.Some? && s.value != ""
  }

  /** `message || fallback`: the message when it is present and non-empty,
      otherwise the fallback. */
  function OrElse(message: Option<string>, fallback: string): (r: string)
    ensures Truthy(message) ==> r == message.value
    ensures !Truthy(message) ==> r == fallback
    ensures fallback != "" ==> r != ""
  {
    if Truthy(message) then message.value else fallback
  }

  /** Rethrowing `new Error(message || fallback)` keeps a message that was
      already non-empty: applying the idiom twice is applying it once. */
  lemma OrElseIdempotent(message: Option<string>, fallback: string, other: string)
    requires fallback != ""
    ensures OrElse(Some(OrElse(message, fallback)), other) == OrElse(message, fallback)
  {
  }
}
