/**
 * Values shared by the job model and the SQL helpers.
 */
module Values {

  /** A value that may be absent (JavaScript `undefined`). */
  datatype Option<+T> = None | Some(value: T)

  /**
   * A scalar passed to the database as a bind parameter. Only the shapes the
   * model inspects are told apart: a string, a boolean, and every other scalar
   * (numbers, null, ...) as an opaque token compared by identity.
   */
  datatype Value = Text(s: string) | Bool(b: bool) | Other(token: nat)
}
