/** The `StatusResponse` envelope every command handler answers with: a status,
    an optional numeric status code and an optional human-readable message. */
module StatusEnvelope {
  import opened KotlinTypes

  datatype Status = OK | ERROR

  /** The error codes the handlers use. Their numeric values belong to the
      generated server models and are kept abstract here. */
  datatype StatusCode = ARGUMENT_MISSING | INTERACTION_KEY | TIMEOUT_WINDOW_UPDATE

  datatype StatusResponse = StatusResponse(
    status: Status,
    statusCode: Option<StatusCode>,
    errorMessage: Option<string>)

  /** The envelope's invariant: a success carries neither a code nor a message,
      and every error carries a message (a code is optional). */
  predicate WellFormed(r: StatusResponse) {
    && (r.status == OK <==> r.errorMessage.None?)
    && (r.statusCode.Some? ==> r.status == ERROR)
  }

  /** `StatusResponse(StatusResponse.Status.oK)`. */
  function Success(): (r: StatusResponse)
    ensures r.status == OK && WellFormed(r)
  {
    StatusResponse(OK, None, None)
  }

  /** `StatusResponse(StatusResponse.Status.eRROR, code, errorMessage = message)`. */
  function Failure(code: Option<StatusCode>, message: string): (r: StatusResponse)
    ensures r.status == ERROR && WellFormed(r)
    ensures r.statusCode == code && r.errorMessage == Some(message)
  {
    StatusResponse(ERROR, code, Some(message))
  }
}
