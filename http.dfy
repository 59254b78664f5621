/** What a handler sends: `res.status(status).json(body)`. */
module Http {
  import opened JsText
  import opened Schema
  import opened ContactRepository

  /** The JSON bodies the service sends. */
  datatype Body =
    | ErrorBody(error: JsString)                              // { success: false, error }
    | MessageBody(message: JsString)                          // { success: true, message }
    | CreatedBody(message: JsString, created: Contact)        // { success: true, message, data }
    | ItemBody(item: Contact)                                 // { success: true, data }
    | ListBody(items: seq<Contact>, pagination: Pagination)   // { success: true, data, pagination }
  {
    /** The body's `success` field. */
    predicate Success() {
      !ErrorBody?
    }
  }

  datatype Response = Response(status: int, body: Body)
}
