/** Types shared by the two services: the key, clock readings, and the
    error envelope every endpoint answers with when it refuses a request. */
module Common {

  /** A student's roll-number, the key of both stores. */
  type RollNo = string

  /** A reading of the service's clock (`datetime.now()`), supplied by the caller. */
  type Timestamp = nat

  datatype Option<+T> = None | Some(value: T)

  /** The local failures an endpoint raises as an HTTP exception. */
  datatype HttpError = NotFound | Conflict | Invalid {
    /** The status code the failure is sent with. */
    function StatusCode(): int {
      match this
      case NotFound => 404
      case Conflict => 409
      case Invalid => 400
    }
  }

  /** The outcome of an endpoint: its data, or an error with its `detail.error` text. */
  datatype Result<+T> = Ok(value: T) | Err(error: HttpError, message: string)
}
