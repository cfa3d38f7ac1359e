/** Shared vocabulary: identifiers, optional values, results and the outcome
    of one call into the database. */
module Common {

  /** Document identifiers. The source compares ids through their string form
      (`toString()` and `===`), so an id is modelled as an opaque string. */
  type Id = string

  /** A value that may be missing (`undefined` or `null` in the source). */
  datatype Option<+T> = None | Some(value: T)

  /** The success or the failure of an operation. */
  datatype Result<+T, +E> = Ok(value: T) | Err(error: E)

  /** What one database round trip reported: success, or an error carrying
      the driver's message. The database itself is outside the model, so its
      verdict is an input of every operation that talks to it. */
  datatype DbOutcome = DbOk | DbError(msg: string)
}
