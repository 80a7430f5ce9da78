/**
 Shared wrappers for the model: optional values and the outcomes of calls into code the
 model does not see (the cloud SDKs, the HTTP client, the browser). A Python exception
 escaping such a call becomes a `Threw`/`Raised` value carrying the exception's text.
 */
module Base {

  /** Python's `None` versus a present value. */
  datatype Option<+T> = None | Some(value: T) {

    /** Returns the value, or `default` when absent. */
    function GetOr(default: T): T {
      match this
      case Some(v) => v
      case None => default
    }
  }

  /** Python truthiness of an optional string: present and non-empty. */
  predicate TruthyText(s: Option<string>) {
    s.Some? && s.value != ""
  }

  /** A foreign call that either returns a value or raises with a message. */
  datatype Outcome<+T> = Got(value: T) | Threw(message: string)

  /** A foreign call whose return value is not used: it completes or raises. */
  datatype CallOutcome = Completed | Raised(message: string)

  /** The result of an operation that can fail with a typed error. */
  datatype Result<+T, +E> = Success(value: T) | Failure(error: E)
}
