/** Shared vocabulary of the model: optional values, results and document ids. */
module Common {

  /** A JavaScript value that may be `undefined`. */
  datatype Option<+T> = None | Some(value: T) {
    function GetOr(default: T): T {
      match this
      case Some(v) => v
      case None => default
    }
  }

  /** A field of a request after validation ran on it: not sent, sent with
      a value of the expected kind, or sent with one the rules refuse (the
      wrong type, or `null` where only `undefined` counts as absent). */
  datatype Input<+T> = Absent | Given(value: T) | Malformed {
    /** The value sent, or the handler's default for a field not sent. */
    function GetOr(default: T): T {
      if Given? then value else default
    }
  }

  /** The outcome of a request handler: a response body or an error response. */
  datatype Result<+T, +E> = Ok(value: T) | Err(error: E)

  /** A MongoDB ObjectId, abstracted to a natural number. */
  type Id = nat
}
