// FilterErrorHandler: the response a security filter writes for an exception it
// caught. The classification is an if-chain over the exception's class; the
// response body is built with the ErrorResponse builder.

module FilterErrorHandler {
  import opened Wrappers
  import opened JavaText
  import opened Exceptions
  import opened ErrorResponses
  import opened ErrorResponseBuilder

  /** Status, message and code chosen for an exception. */
  datatype Classification = Classification(status: int, message: string, code: string)

  // The messages and codes of the if-chain. Each is written as a one-character
  // literal plus the rest: the verifier does not look inside a longer literal,
  // and the proofs that the builder accepts these texts need their first,
  // non-blank character.
  const ExpiredMessage: string := "S" + "u sesión ha expirado"
  const InvalidatedMessage: string := "S" + "u sesión ha sido invalidada"
  const FilterAuthenticationMessage: string := "E" + "rror de autenticación"
  const AuthorizationMessage: string := "N" + "o tiene los permisos necesarios para esta operación"
  const InternalMessage: string := "E" + "rror interno del servidor"
  const SessionExpiredMessage: string := "S" + "u sesión ha expirado, por favor inicie sesión nuevamente"
  const ExpiredCode: string := "T" + "OKEN_EXPIRED"
  const InvalidatedCode: string := "T" + "OKEN_INVALIDATED"
  const AuthenticationCode: string := "A" + "UTHENTICATION_ERROR"
  const AuthorizationCode: string := "A" + "UTHORIZATION_ERROR"
  const InternalCode: string := "I" + "NTERNAL_ERROR"

  /** `exception instanceof TokenInvalidatedException`. */
  predicate IsTokenInvalidated(e: Exception)
  {
    e.Base? && e.kind.TokenInvalidatedK?
  }

  /** The reference classification: the first class test that succeeds decides. */
  function Classify(e: Exception): Classification
  {
    if IsTokenExpired(e) then Classification(Unauthorized, ExpiredMessage, ExpiredCode)
    else if IsTokenInvalidated(e) then Classification(Unauthorized, InvalidatedMessage, InvalidatedCode)
    else if e.FilterAuthentication? then Classification(Unauthorized, FilterAuthenticationMessage, AuthenticationCode)
    else if e.FilterAuthorization? then Classification(Forbidden, AuthorizationMessage, AuthorizationCode)
    else Classification(InternalServerError, InternalMessage, InternalCode)
  }

  /** `isExpectedClientError`: the errors logged at debug level. */
  predicate IsExpectedClientError(e: Exception)
  {
    IsTokenExpired(e) || IsTokenInvalidated(e) || e.FilterAuthentication?
  }

  /** `createErrorDetails`: the class and message of the exception, and the extra
      information only when it is neither null nor empty. */
  function ErrorDetails(e: Exception, additionalInfo: Option<string>): Details
  {
    var base := map["error_type" := Some(SimpleName(e)), "error_message" := Message(e)];
    if additionalInfo.Some? && additionalInfo.value != [] then base["additional_info" := additionalInfo] else base
  }

  /** The details hold exactly the class name and the message, and the extra
      information when it is given and not empty. */
  lemma ErrorDetailsShape(e: Exception, additionalInfo: Option<string>)
    ensures var d := ErrorDetails(e, additionalInfo);
      d.Keys == {"error_type", "error_message"} + (if additionalInfo.Some? && additionalInfo.value != [] then {"additional_info"} else {})
      && d["error_type"] == Some(SimpleName(e)) && d["error_message"] == Message(e)
      && ("additional_info" in d ==> d["additional_info"] == additionalInfo)
  {
  }

  /** What the handler writes: the HTTP status set on the servlet response and the
      JSON body. */
  datatype Written = Written(httpStatus: int, body: ErrorResponse)

  /** `handleException(exception, response, additionalInfo)`. The builder never fails
      here, because status, code and message are all set to non-blank constants. */
  method HandleException(e: Exception, additionalInfo: Option<string>, now: string) returns (w: Written)
    ensures w.httpStatus == w.body.status == Classify(e).status
    ensures w.body.code == Classify(e).code && w.body.message == Classify(e).message
    ensures w.body.details == ErrorDetails(e, additionalInfo) && w.body.timestamp == now
  {
    var status: int;
    var message: string;
    var code: string;
    if IsTokenExpired(e) {
      status, message, code := Unauthorized, ExpiredMessage, ExpiredCode;
    } else if IsTokenInvalidated(e) {
      status, message, code := Unauthorized, InvalidatedMessage, InvalidatedCode;
    } else if e.FilterAuthentication? {
      status, message, code := Unauthorized, FilterAuthenticationMessage, AuthenticationCode;
    } else if e.FilterAuthorization? {
      status, message, code := Forbidden, AuthorizationMessage, AuthorizationCode;
    } else {
      status, message, code := InternalServerError, InternalMessage, InternalCode;
    }
    assert Classification(status, message, code) == Classify(e);
    ClassificationNotBlank(e);
    var details := ErrorDetails(e, additionalInfo);
    var b := WithDetails(WithMessage(WithCode(WithStatus(NewBuilder(now), Some(status)),
               Some(code)), Some(message)), Some(details));
    assert b == BuilderState(Some(status), Some(code), Some(message), now, details) by {
      assert map[] + details == details;
    }
    BuildSucceedsIff(b);
    var built := BuildResponse(b);
    w := Written(status, built.value);
  }

  /** Every class has a non-blank code and message, so the builder accepts them. */
  lemma ClassificationNotBlank(e: Exception)
    ensures Trim(Classify(e).code) != [] && Trim(Classify(e).message) != []
  {
    var c := Classify(e);
    VisibleHeadNotBlank(c.code);
    VisibleHeadNotBlank(c.message);
  }

  /** `handleTokenExpired`: the response status is 401 while the body is the
      authorization error, whose own status is 403. */
  function HandleTokenExpired(requestUri: Option<string>, now: string): (w: Written)
    ensures w.httpStatus == Unauthorized && w.body.status == Forbidden
    ensures w.body.code == "AUTH-002" && w.body.message == SessionExpiredMessage
    ensures w.body.details == map["path" := requestUri]
  {
    VisibleHeadNotBlank(SessionExpiredMessage);
    Written(Unauthorized, BuildAuthorizationError(Some(SessionExpiredMessage), requestUri, now).value)
  }

  // Properties

  /** The expected client errors are exactly the exceptions answered with 401. */
  lemma ExpectedIffUnauthorized(e: Exception)
    ensures IsExpectedClientError(e) <==> Classify(e).status == Unauthorized
  {
  }

  /** The three 401 classes and the 403 class each get their own code. */
  lemma SecurityClassesMapped(msg: string)
    ensures Classify(TokenExpiredException(msg)) == Classification(Unauthorized, ExpiredMessage, ExpiredCode)
    ensures Classify(TokenInvalidatedException(msg)) == Classification(Unauthorized, InvalidatedMessage, InvalidatedCode)
    ensures Classify(FilterAuthentication(msg)) == Classification(Unauthorized, FilterAuthenticationMessage, AuthenticationCode)
    ensures Classify(FilterAuthorization(msg)) == Classification(Forbidden, AuthorizationMessage, AuthorizationCode)
  {
  }

  /** Every other exception, the JwtAuthenticationException and the remaining
      TokenException subclasses included, is an internal error. */
  lemma OthersAreInternal(e: Exception)
    requires !IsTokenExpired(e) && !IsTokenInvalidated(e) && !e.FilterAuthentication? && !e.FilterAuthorization?
    ensures Classify(e) == Classification(InternalServerError, InternalMessage, InternalCode)
  {
  }

  /** A JwtAuthenticationException, whatever its message, is a 500. */
  lemma JwtAuthenticationIsInternal(msg: string)
    ensures Classify(JwtAuthenticationException(msg)).status == InternalServerError
    ensures !IsExpectedClientError(JwtAuthenticationException(msg))
  {
  }
}
