/** The exceptions a command can raise, as far as the bot distinguishes them. */
module Errors {

  /** `discord.Forbidden` (HTTP 403), `discord.NotFound` (HTTP 404), or any other exception. */
  datatype ErrorKind = Forbidden | NotFound | Other

  /** An exception: its class and the text `str(error)` renders. */
  datatype Error = Error(kind: ErrorKind, message: string)

  /** True for the 403/404 responses that count against the invalid-request budget. */
  predicate IsInvalidResponse(e: Error) {
    e.kind == Forbidden || e.kind == NotFound
  }
}
