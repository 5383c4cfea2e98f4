// The exception hierarchy of the application and the ErrorCode catalogue.
// BaseException carries an ErrorCode, an HTTP status and a details map;
// SecurityException (status 401) and BusinessException (status 400) extend it,
// and the token exceptions extend SecurityException through TokenException.

module Exceptions {
  import opened Wrappers

  /** HTTP status codes used by the modelled code. */
  const BadRequest: int := 400
  const Unauthorized: int := 401
  const Forbidden: int := 403
  const Conflict: int := 409
  const InternalServerError: int := 500

  datatype ErrorCode =
    | AUTHENTICATION_FAILED | INVALID_CREDENTIALS
    | TOKEN_EXPIRED | TOKEN_INVALID | TOKEN_BLACKLISTED | TOKEN_MALFORMED | AUTHORIZATION_FAILED
    | VALIDATION_ERROR | TOKEN_OPERATION_FAILED | DATABASE_ERROR
    | RESOURCE_NOT_FOUND | CONSTRAINT_VIOLATION
    | INTERNAL_ERROR | UNIQUE_CONSTRAINT_VIOLATION | DUPLICATE_DNI | JWT_AUTHENTICATION_FAILED
    | ENTITY_NOT_FOUND | DUPLICATE_EMAIL

  /** `ErrorCode.getCode()`. Several constants share a code string. */
  function Code(e: ErrorCode): string
  {
    match e
    case AUTHENTICATION_FAILED => "AUTH-001"
    case INVALID_CREDENTIALS => "AUTH-002"
    case TOKEN_EXPIRED => "SEC-001"
    case TOKEN_INVALID => "SEC-002"
    case TOKEN_BLACKLISTED => "SEC-003"
    case TOKEN_MALFORMED => "TOKEN-003"
    case AUTHORIZATION_FAILED => "SEC-005"
    case VALIDATION_ERROR => "VAL-001"
    case TOKEN_OPERATION_FAILED => "VAL-002"
    case DATABASE_ERROR => "VAL-003"
    case RESOURCE_NOT_FOUND => "RES-001"
    case CONSTRAINT_VIOLATION => "RES-002"
    case INTERNAL_ERROR => "SYS-001"
    case UNIQUE_CONSTRAINT_VIOLATION => "VAL-001"
    case DUPLICATE_DNI => "VAL-002"
    case JWT_AUTHENTICATION_FAILED => "VAL-003"
    case ENTITY_NOT_FOUND => "VAL-004"
    case DUPLICATE_EMAIL => "VAL-003"
  }

  /** `ErrorCode.getDefaultMessage()`. */
  function DefaultMessage(e: ErrorCode): string
  {
    match e
    case AUTHENTICATION_FAILED => "Error de autenticación"
    case INVALID_CREDENTIALS => "Credenciales inválidas"
    case TOKEN_EXPIRED => "Token expirado"
    case TOKEN_INVALID => "Token inválido"
    case TOKEN_BLACKLISTED => "Token en lista negra"
    case TOKEN_MALFORMED => "Token malformado"
    case AUTHORIZATION_FAILED => "Fallo en la autorización"
    case VALIDATION_ERROR => "Error de validación"
    case TOKEN_OPERATION_FAILED => "Error al operar con el token"
    case DATABASE_ERROR => "Error de base de datos"
    case RESOURCE_NOT_FOUND => "Recurso no encontrado"
    case CONSTRAINT_VIOLATION => "Violación de restricción"
    case INTERNAL_ERROR => "Error interno del servidor"
    case UNIQUE_CONSTRAINT_VIOLATION => "Violación de restricción única"
    case DUPLICATE_DNI => "DNI duplicado"
    case JWT_AUTHENTICATION_FAILED => "Error de autenticación JWT"
    case ENTITY_NOT_FOUND => "Entidad no encontrada"
    case DUPLICATE_EMAIL => "Email duplicado"
  }

  /** The concrete subclass of BaseException. */
  datatype BaseKind =
    | SecurityK          // SecurityException itself
    | TokenK             // TokenException itself
    | TokenExpiredK | TokenInvalidatedK | TokenMalformedK | TokenInvalidK
    | TokenOperationK | JwtAuthenticationK | AuthenticationFailedK
    | BusinessK | DniDuplicadoK

  /** Every exception the modelled code throws or catches, by class. A Java message
      that may be null is an Option. */
  datatype Exception =
    | Base(kind: BaseKind, message: string, errorCode: ErrorCode, details: map<string, string>)
    | FilterAuthentication(msg: string)
    | FilterAuthorization(msg: string)
    | IllegalArgument(optMsg: Option<string>)
    | IllegalState(msg: string)
    | Servlet(optMsg: Option<string>)
    | EntityNotFound(msg: string)
    | ForbiddenEx(msg: string)
    | Application(campo: string, msg: string, httpStatus: int)
    | UsernameNotFound(msg: string)
    | Runtime(msg: string)
    | Other(simpleName: string, optMsg: Option<string>)

  predicate IsTokenKind(k: BaseKind)
  {
    !(k.SecurityK? || k.BusinessK? || k.DniDuplicadoK?)
  }

  /** `instanceof SecurityException`. */
  predicate IsSecurity(k: BaseKind)
  {
    k.SecurityK? || IsTokenKind(k)
  }

  /** The status a BaseException subclass is constructed with. */
  function KindStatus(k: BaseKind): (s: int)
    ensures IsSecurity(k) <==> s == Unauthorized
    ensures !IsSecurity(k) <==> s == BadRequest
  {
    if IsSecurity(k) then Unauthorized else BadRequest
  }

  /** `BaseException.getStatus()`. */
  function Status(e: Exception): int
    requires e.Base?
  {
    KindStatus(e.kind)
  }

  /** `getClass().getSimpleName()`. */
  function SimpleName(e: Exception): string
  {
    match e
    case Base(k, _, _, _) =>
      (match k
       case SecurityK => "SecurityException"
       case TokenK => "TokenException"
       case TokenExpiredK => "TokenExpiredException"
       case TokenInvalidatedK => "TokenInvalidatedException"
       case TokenMalformedK => "TokenMalformedException"
       case TokenInvalidK => "TokenInvalidException"
       case TokenOperationK => "TokenOperationException"
       case JwtAuthenticationK => "JwtAuthenticationException"
       case AuthenticationFailedK => "AuthenticationFailedException"
       case BusinessK => "BusinessException"
       case DniDuplicadoK => "DniDuplicadoException")
    case FilterAuthentication(_) => "FilterAuthenticationException"
    case FilterAuthorization(_) => "FilterAuthorizationException"
    case IllegalArgument(_) => "IllegalArgumentException"
    case IllegalState(_) => "IllegalStateException"
    case Servlet(_) => "ServletException"
    case EntityNotFound(_) => "EntityNotFoundException"
    case ForbiddenEx(_) => "ForbiddenException"
    case Application(_, _, _) => "ApplicationException"
    case UsernameNotFound(_) => "UsernameNotFoundException"
    case Runtime(_) => "RuntimeException"
    case Other(name, _) => name
  }

  /** `getMessage()`; only the exceptions from outside the application may carry null. */
  function Message(e: Exception): Option<string>
  {
    match e
    case Base(_, m, _, _) => Some(m)
    case IllegalArgument(m) => m
    case Servlet(m) => m
    case Other(_, m) => m
    case FilterAuthentication(m) => Some(m)
    case FilterAuthorization(m) => Some(m)
    case IllegalState(m) => Some(m)
    case EntityNotFound(m) => Some(m)
    case ForbiddenEx(m) => Some(m)
    case Application(_, m, _) => Some(m)
    case UsernameNotFound(m) => Some(m)
    case Runtime(m) => Some(m)
  }

  // Constructors of the token exceptions: each fixes its ErrorCode, and no
  // constructor adds details.

  function TokenException(message: string, code: ErrorCode): Exception
  {
    Base(TokenK, message, code, map[])
  }

  function TokenExpiredException(message: string): Exception
  {
    Base(TokenExpiredK, message, TOKEN_EXPIRED, map[])
  }

  function TokenInvalidatedException(message: string): Exception
  {
    Base(TokenInvalidatedK, message, TOKEN_BLACKLISTED, map[])
  }

  function TokenOperationException(message: string): Exception
  {
    Base(TokenOperationK, message, TOKEN_OPERATION_FAILED, map[])
  }

  function JwtAuthenticationException(message: string): Exception
  {
    Base(JwtAuthenticationK, message, JWT_AUTHENTICATION_FAILED, map[])
  }

  /** `new DniDuplicadoException(dni)`. */
  function DniDuplicadoException(dni: string): Exception
  {
    Base(DniDuplicadoK, "El DNI " + dni + " ya se encuentra registrado en el sistema", DUPLICATE_DNI, map[])
  }

  /** `instanceof TokenExpiredException` (the application's own class). */
  predicate IsTokenExpired(e: Exception)
  {
    e.Base? && e.kind.TokenExpiredK?
  }
}
