/** What a route handler hands back to the web framework. */
module Http {

  /**
    `Plain` is a `NextResponse` with a status and a text body (a `null` body is ""),
    `Json` is `NextResponse.json(value)` (status 200), `NoResponse` is a handler that
    returns nothing, and `Unhandled` is an exception that escapes the handler, which
    the framework answers with status 500.
  */
  datatype Response<+T> = Plain(status: int, body: string) | Json(value: T) | NoResponse | Unhandled
}
