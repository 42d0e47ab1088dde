/**
 * How the server actions fail. Every action wraps its work in a try/catch
 * whose catch hands the error to `handleError`, which always throws a new
 * Error; so an action either returns a value or rejects, and never returns an
 * error as a value. The model keeps the value that was thrown inside the
 * action (`Failed(cause)`); `HandleError` gives the message of the Error that
 * reaches the caller.
 */
module Errors {

  /** The store driver's own failures. */
  datatype StoreFault =
    | ValidationFailed   // a `required` field missing or empty
    | DuplicateKey       // a `unique` index already holds the value
    | NegativeSkip       // a page before the first asks the store to skip a negative count

  /** A value thrown inside an action. */
  datatype Thrown =
    | Text(text: string)              // `throw "..."`
    | PlainError(message: string)     // `new Error(message)` and the runtime's TypeErrors
    | StoreError(fault: StoreFault)   // an error object raised by the store driver

  /** The message of the Error that `handleError` throws. */
  datatype Message =
    | Verbatim(text: string)            // a fixed text
    | SerializedStoreError(fault: StoreFault)  // the JSON of a driver error, whose enumerable fields the driver defines

  /**
   * `handleError`: a thrown string becomes the message as it is; anything else
   * is JSON-serialized. An Error built with `new Error(m)` has no enumerable own
   * properties, so it serializes to "{}" and its message `m` is lost.
   */
  function HandleError(t: Thrown): (m: Message)
    ensures t.Text? ==> m == Verbatim(t.text)
    ensures t.PlainError? ==> m == Verbatim("{}")
    ensures t.PlainError? && t.message != "{}" ==> m != Verbatim(t.message)
    ensures m.SerializedStoreError? <==> t.StoreError?
  {
    match t
    case Text(s) => Verbatim(s)
    case PlainError(_) => Verbatim("{}")
    case StoreError(f) => SerializedStoreError(f)
  }

  /** Every message an action throws with `new Error(...)` reaches its caller as the same "{}". */
  lemma ActionMessagesAreLost(m1: string, m2: string)
    ensures HandleError(PlainError(m1)) == HandleError(PlainError(m2)) == Verbatim("{}")
    ensures HandleError(PlainError("Event not found")) != Verbatim("Event not found")
  {
  }

  /**
   * What `handleError` evidently means to throw: the message of a thrown Error
   * rather than its serialization, so that the caller can tell the failures apart.
   */
  function HandleErrorIntended(t: Thrown): (m: Message)
    ensures t.Text? ==> m == Verbatim(t.text)
    ensures t.PlainError? ==> m == Verbatim(t.message)
    ensures m.SerializedStoreError? <==> t.StoreError?
    ensures t.StoreError? ==> m == HandleError(t)
  {
    match t
    case Text(s) => Verbatim(s)
    case PlainError(msg) => Verbatim(msg)
    case StoreError(f) => SerializedStoreError(f)
  }

  /** With the intended handler, two failures with different messages reach the caller differently. */
  lemma IntendedMessagesAreDistinct(t1: Thrown, t2: Thrown)
    requires !t1.StoreError? && !t2.StoreError?
    requires (if t1.Text? then t1.text else t1.message) != (if t2.Text? then t2.text else t2.message)
    ensures HandleErrorIntended(t1) != HandleErrorIntended(t2)
  {
  }

  /** The result of a server action: a value, or the rejection that `handleError` raises. */
  datatype Outcome<T> = Ok(value: T) | Failed(cause: Thrown)
}
