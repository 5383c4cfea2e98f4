// ErrorResponseBuilder: each operation builds a fresh ErrorResponse from its
// arguments. `now` is the text of LocalDateTime.now() for the builder's timestamp.

module ErrorResponseBuilder {
  import opened Wrappers
  import opened JavaText
  import opened Exceptions
  import opened ErrorResponses

  /** The message of every authentication error response. The leading
      one-character literal lets the proofs see its first, non-blank character,
      which the verifier does not read out of a longer literal. */
  const AuthenticationMessage: string := "S" + "u sesión ha expirado o no tiene autorización"

  /** `createErrorDetails(request, ex)` of the authentication response. */
  function AuthenticationDetails(requestUri: Option<string>, ex: Exception, now: string): Details
  {
    map["path" := requestUri, "error_type" := Some(SimpleName(ex)), "timestamp" := Some(now)]
  }

  /** `buildAuthenticationErrorResponse`, before it is written out as JSON. */
  function BuildAuthenticationErrorResponse(requestUri: Option<string>, ex: Exception, now: string): (r: ErrorResponse)
    ensures r.status == Unauthorized && r.code == "AUTHENTICATION_ERROR"
    ensures r.message == AuthenticationMessage
    ensures r.details.Keys == {"path", "error_type", "timestamp"}
    ensures r.details["path"] == requestUri && r.details["error_type"] == Some(SimpleName(ex))
  {
    var b := WithDetails(WithMessage(WithCode(WithStatus(NewBuilder(now), Some(Unauthorized)),
                Some("AUTHENTICATION_ERROR")), Some(AuthenticationMessage)),
                Some(AuthenticationDetails(requestUri, ex, now)));
    VisibleHeadNotBlank("AUTHENTICATION_ERROR");
    VisibleHeadNotBlank(AuthenticationMessage);
    BuildResponse(b).value
  }

  /** `buildSecurityError(ex)`: the exception's own status, code and message. */
  function BuildSecurityError(ex: Exception, now: string): (r: Result<ErrorResponse, Exception>)
    requires ex.Base? && IsSecurity(ex.kind)
    ensures r.Ok? <==> Trim(ex.message) != []
    ensures r.Ok? ==> r.value.status == Status(ex) == Unauthorized && r.value.code == Code(ex.errorCode)
                      && r.value.message == ex.message && r.value.details == map[]
  {
    BuildResponse(WithTimestamp(WithMessage(WithCode(WithStatus(NewBuilder(now), Some(Status(ex))),
      Some(Code(ex.errorCode))), Some(ex.message)), now))
  }

  /** `buildTokenError(ex)`: the same construction, for a TokenException. */
  function BuildTokenError(ex: Exception, now: string): (r: Result<ErrorResponse, Exception>)
    requires ex.Base? && IsTokenKind(ex.kind)
    ensures r.Ok? <==> Trim(ex.message) != []
    ensures r.Ok? ==> r.value.status == Status(ex) && r.value.code == Code(ex.errorCode) && r.value.message == ex.message
  {
    BuildResponse(WithTimestamp(WithMessage(WithCode(WithStatus(NewBuilder(now), Some(Status(ex))),
      Some(Code(ex.errorCode))), Some(ex.message)), now))
  }

  /** `buildUnexpectedError(ex)`: the second `message` call replaces the generic text
      with the exception's own message, so a null or blank message makes it fail. */
  function BuildUnexpectedError(ex: Exception, now: string): (r: Result<ErrorResponse, Exception>)
    ensures r.Ok? <==> !Blank(Message(ex))
    ensures r.Ok? ==> r.value.status == InternalServerError && r.value.code == "INT-001"
                      && Some(r.value.message) == Message(ex)
    ensures r.Err? ==> r.error == IllegalState("El mensaje es obligatorio")
  {
    var b := WithMessage(WithCode(WithStatus(NewBuilder(now), Some(InternalServerError)), Some("INT-001")),
                         Some("Error interno del servidor"));
    VisibleHeadNotBlank("INT-001");
    BuildResponse(WithTimestamp(WithMessage(b, Message(ex)), now))
  }

  /** `buildAuthorizationError(message, path)`: 403, code AUTH-002, the path as the
      only detail. */
  function BuildAuthorizationError(message: Option<string>, path: Option<string>, now: string): (r: Result<ErrorResponse, Exception>)
    ensures r.Ok? <==> !Blank(message)
    ensures r.Ok? ==> r.value.status == Forbidden && r.value.code == "AUTH-002"
                      && Some(r.value.message) == message && r.value.details == map["path" := path]
  {
    VisibleHeadNotBlank("AUTH-002");
    BuildResponse(WithTimestamp(WithPath(WithMessage(WithCode(WithStatus(NewBuilder(now), Some(Forbidden)),
      Some("AUTH-002")), message), path), now))
  }

  /** The exception's details as a response details map. */
  function AsDetails(m: map<string, string>): Details
  {
    map k | k in m :: Some(m[k])
  }

  /** `buildSecurityError(ex, request)`: always 401, whatever the exception's status;
      the path is put first and the exception's details merged over it. */
  function BuildSecurityErrorFor(ex: Exception, requestUri: Option<string>, now: string): (r: Result<ErrorResponse, Exception>)
    requires ex.Base? && IsSecurity(ex.kind)
    ensures r.Ok? <==> Trim(ex.message) != []
    ensures r.Ok? ==> r.value.status == Unauthorized && r.value.code == Code(ex.errorCode) && r.value.message == ex.message
    ensures r.Ok? ==> r.value.details.Keys == ex.details.Keys + {"path"}
    ensures r.Ok? ==> r.value.details["path"] == if "path" in ex.details then Some(ex.details["path"]) else requestUri
  {
    BuildResponse(WithDetails(WithPath(WithTimestamp(WithMessage(WithCode(WithStatus(NewBuilder(now), Some(Unauthorized)),
      Some(Code(ex.errorCode))), Some(ex.message)), now), requestUri), Some(AsDetails(ex.details))))
  }

  /** The error codes of ErrorCode are never blank, so only the message can make a
      security response fail. */
  lemma CodesNeverBlank(e: ErrorCode)
    ensures Trim(Code(e)) != []
  {
    VisibleHeadNotBlank(Code(e));
  }
}
