/**
 * The `contacts` table: an autoincrement `id`, three required text columns,
 * an optional `ip_address`, and a `created_at` that the database fills in
 * with `datetime('now')`.
 */
module Schema {
  import opened Wrappers
  import opened JsText

  /**
   * `created_at` as seconds on the database clock; `datetime('now')` has
   * one-second resolution, so rows written in the same second tie.
   */
  type Timestamp = int

  /** The three fields of a submission, as the validator leaves them in the body. */
  datatype Submission = Submission(name: JsString, email: JsString, message: JsString)

  /** One row of `contacts`, as `SELECT *` returns it. */
  datatype Contact = Contact(
    id: int,
    name: JsString,
    email: JsString,
    message: JsString,
    ipAddress: Option<JsString>,
    createdAt: Timestamp)
}
