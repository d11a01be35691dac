/** The responses the route handlers produce. */
module Http {
  import opened Wrappers

  /** The JSON bodies the handlers send: an error with optional details, or a link. */
  datatype Body = Error(error: string, details: Option<string>) | Link(url: string)

  datatype Response =
    /** `NextResponse.json(body, { status })` */
    | Json(status: int, body: Body)
    /** `new NextResponse(text, { headers: { 'content-type': contentType } })` */
    | Text(status: int, text: string, contentType: string)
    /** An exception that escapes the handler; the framework answers it on its own. */
    | Thrown(message: string)
}
