// GlobalExceptionHandler: the HTTP response for an exception that escaped a
// controller. Spring picks the handler of the most specific class: the
// SecurityException handler before the BaseException one, and the catch-all last.

module GlobalExceptionHandler {
  import opened Wrappers
  import opened JavaText
  import opened Exceptions
  import opened ErrorResponses
  import opened ErrorResponseBuilder

  /** One binding-result field error; its default message may be null. */
  datatype FieldError = FieldError(field: string, defaultMessage: Option<string>)

  /** The cause of a DataIntegrityViolationException. A constraint violation carries
      the message of its own cause, None when that cause or its message is null. */
  datatype IntegrityCause = ConstraintViolation(rootMessage: Option<string>) | OtherCause

  /** What reaches the advice. */
  datatype Incoming =
    | Thrown(e: Exception)
    | DataIntegrityViolation(cause: IntegrityCause)
    | MethodArgumentNotValid(fieldErrors: seq<FieldError>)

  /** `ResponseEntity.status(s).body(b)`. */
  datatype Entity = Entity(status: int, body: ErrorResponse)

  const NullPointer: Exception := Other("NullPointerException", None)
  const ValidationMessage: string := "Errores de validación en los datos"

  // ---------------------------------------------------------------------------
  // Validation errors

  /** `getErrorMessage`: a null default message becomes a fixed text. */
  function ErrorMessage(fe: FieldError): string
  {
    OrElse(fe.defaultMessage, "Error de validación")
  }

  /** `getValidationErrors`: `toMap` over the field errors in order, the merge
      function keeping the value already present. */
  function ValidationErrors(errs: seq<FieldError>): map<string, string>
  {
    if errs == [] then map[]
    else
      var m := ValidationErrors(errs[..|errs| - 1]);
      var last := errs[|errs| - 1];
      if last.field in m then m else m[last.field := ErrorMessage(last)]
  }

  /** The fields named by some error. */
  function Fields(errs: seq<FieldError>): set<string>
  {
    set i | 0 <= i < |errs| :: errs[i].field
  }

  /** Index `j` is the first error about its field. */
  predicate FirstFor(errs: seq<FieldError>, j: int)
  {
    0 <= j < |errs| && forall k :: 0 <= k < j ==> errs[k].field != errs[j].field
  }

  /** One entry per field named, holding the message of the first error about it. */
  lemma {:induction false} FirstMessageWins(errs: seq<FieldError>)
    ensures ValidationErrors(errs).Keys == Fields(errs)
    ensures forall j :: FirstFor(errs, j) ==> ValidationErrors(errs)[errs[j].field] == ErrorMessage(errs[j])
  {
    if errs != [] {
      var init := errs[..|errs| - 1];
      var last := errs[|errs| - 1];
      FirstMessageWins(init);
      assert Fields(errs) == Fields(init) + {last.field} by {
        forall f | f in Fields(errs) ensures f in Fields(init) + {last.field} {
          var i :| 0 <= i < |errs| && errs[i].field == f;
          if i < |errs| - 1 { assert init[i] == errs[i]; }
        }
        forall f | f in Fields(init) ensures f in Fields(errs) {
          var i :| 0 <= i < |init| && init[i].field == f;
          assert errs[i] == init[i];
        }
      }
      forall j | FirstFor(errs, j) ensures ValidationErrors(errs)[errs[j].field] == ErrorMessage(errs[j]) {
        if j < |errs| - 1 {
          assert init[j] == errs[j];
          assert FirstFor(init, j);
        } else {
          forall i | 0 <= i < |init| ensures init[i].field != last.field {
            assert init[i] == errs[i];
          }
        }
      }
    }
  }

  // ---------------------------------------------------------------------------
  // Constraint violations

  /** `CONSTRAINT_VIOLATIONS`, in the iteration order of the immutable map, which
      the platform leaves unspecified: `dniFirst` chooses it. */
  function ConstraintEntries(dniFirst: bool): seq<(string, ErrorCode)>
  {
    if dniFirst then [("estudiantes.dni", DUPLICATE_DNI), ("users.email", DUPLICATE_EMAIL)]
    else [("users.email", DUPLICATE_EMAIL), ("estudiantes.dni", DUPLICATE_DNI)]
  }

  /** `filter(message.contains(key)).findFirst()` over the entries. */
  function FirstMatching(entries: seq<(string, ErrorCode)>, message: string): (r: Option<ErrorCode>)
    ensures r.None? <==> forall i :: 0 <= i < |entries| ==> !Contains(message, entries[i].0)
    ensures r.Some? ==> exists i :: 0 <= i < |entries| && Contains(message, entries[i].0) && entries[i].1 == r.value
  {
    if entries == [] then None
    else if Contains(message, entries[0].0) then Some(entries[0].1)
    else FirstMatching(entries[1..], message)
  }

  /** `buildConstraintResponse(code)`: 409 with the code's own text; the builder
      never fails because no ErrorCode has a blank code or default message. */
  function ConstraintResponse(code: ErrorCode, now: string): (r: Entity)
    ensures r.status == r.body.status == Conflict
    ensures r.body.code == Code(code) && r.body.message == DefaultMessage(code) && r.body.details == map[]
  {
    CodesNeverBlank(code);
    MessagesNeverBlank(code);
    Entity(Conflict, BuildResponse(WithTimestamp(WithMessage(WithCode(WithStatus(NewBuilder(now), Some(Conflict)),
      Some(Code(code))), Some(DefaultMessage(code))), now)).value)
  }

  /** `processConstraintViolation`. The chained `getCause().getCause().getMessage()`
      and `message.contains` throw when a cause or the message is null. */
  function ProcessConstraintViolation(cause: IntegrityCause, dniFirst: bool, now: string): Result<Entity, Exception>
  {
    match cause
    case OtherCause => Ok(ConstraintResponse(DATABASE_ERROR, now))
    case ConstraintViolation(None) => Err(NullPointer)
    case ConstraintViolation(Some(m)) =>
      var hit := FirstMatching(ConstraintEntries(dniFirst), m);
      Ok(ConstraintResponse(if hit.Some? then hit.value else DATABASE_ERROR, now))
  }

  // ---------------------------------------------------------------------------
  // The handlers

  /** `buildSecurityResponse`: always 401 on the entity. */
  function SecurityResponse(e: Exception, requestUri: Option<string>, now: string): (r: Result<Entity, Exception>)
    requires e.Base? && IsSecurity(e.kind)
    ensures r.Ok? <==> Trim(e.message) != []
    ensures r.Ok? ==> r.value.status == r.value.body.status == Unauthorized && r.value.body.code == Code(e.errorCode)
  {
    var b := BuildSecurityErrorFor(e, requestUri, now);
    if b.Ok? then Ok(Entity(Unauthorized, b.value)) else Err(b.error)
  }

  /** `buildResponse(ex)` of the BaseException handler: the exception's own status,
      code, message and details, with no path. */
  function BaseResponse(e: Exception, now: string): (r: Result<Entity, Exception>)
    requires e.Base?
    ensures r.Ok? <==> Trim(e.message) != []
    ensures r.Ok? ==> r.value.status == r.value.body.status == Status(e) && r.value.body.code == Code(e.errorCode)
                      && r.value.body.message == e.message && r.value.body.details == AsDetails(e.details)
  {
    CodesNeverBlank(e.errorCode);
    var b := BuildResponse(WithDetails(WithTimestamp(WithMessage(WithCode(WithStatus(NewBuilder(now), Some(Status(e))),
               Some(Code(e.errorCode))), Some(e.message)), now), Some(AsDetails(e.details))));
    if b.Ok? then Ok(Entity(Status(e), b.value)) else Err(b.error)
  }

  /** `buildValidationResponse(errors)`. */
  function ValidationResponse(errs: seq<FieldError>, now: string): (r: Entity)
    ensures r.status == r.body.status == BadRequest && r.body.code == "VALIDATION_ERROR"
    ensures r.body.message == ValidationMessage && r.body.details == AsDetails(ValidationErrors(errs))
  {
    VisibleHeadNotBlank("VALIDATION_ERROR");
    VisibleHeadNotBlank(ValidationMessage);
    Entity(BadRequest, BuildResponse(WithDetails(WithMessage(WithCode(WithStatus(NewBuilder(now), Some(BadRequest)),
      Some("VALIDATION_ERROR")), Some(ValidationMessage)), Some(AsDetails(ValidationErrors(errs))))).value)
  }

  /** `buildUnexpectedErrorResponse()`. */
  function UnexpectedResponse(now: string): (r: Entity)
    ensures r.status == r.body.status == InternalServerError && r.body.code == "INTERNAL_ERROR"
    ensures r.body.message == "Error interno del servidor" && r.body.details == map[]
  {
    VisibleHeadNotBlank("INTERNAL_ERROR");
    VisibleHeadNotBlank("Error interno del servidor");
    Entity(InternalServerError, BuildResponse(WithMessage(WithCode(WithStatus(NewBuilder(now), Some(InternalServerError)),
      Some("INTERNAL_ERROR")), Some("Error interno del servidor"))).value)
  }

  /** The advice as a whole: the handler of the most specific class answers. */
  function Handle(x: Incoming, requestUri: Option<string>, dniFirst: bool, now: string): Result<Entity, Exception>
  {
    match x
    case Thrown(e) =>
      if e.Base? && IsSecurity(e.kind) then SecurityResponse(e, requestUri, now)
      else if e.Base? then BaseResponse(e, now)
      else Ok(UnexpectedResponse(now))
    case DataIntegrityViolation(cause) => ProcessConstraintViolation(cause, dniFirst, now)
    case MethodArgumentNotValid(errs) => Ok(ValidationResponse(errs, now))
  }

  /** No ErrorCode has a blank default message. */
  lemma MessagesNeverBlank(e: ErrorCode)
    ensures Trim(DefaultMessage(e)) != []
  {
    VisibleHeadNotBlank(DefaultMessage(e));
  }

  // ---------------------------------------------------------------------------
  // Properties

  /** A data-integrity violation not caused by a constraint violation is a 409
      database error. */
  lemma NonConstraintCauseIsDatabaseError(requestUri: Option<string>, dniFirst: bool, now: string)
    ensures var r := Handle(DataIntegrityViolation(OtherCause), requestUri, dniFirst, now);
            r.Ok? && r.value.status == Conflict && r.value.body.code == Code(DATABASE_ERROR)
            && r.value.body.message == "Error de base de datos"
  {
  }

  /** Constraint messages: the DNI key gives DUPLICATE_DNI, the e-mail key
      DUPLICATE_EMAIL, neither DATABASE_ERROR, and a message holding both keys gives
      one of the two, depending on the map's iteration order. Always 409. */
  lemma ConstraintMapping(m: string, dniFirst: bool, now: string)
    ensures var r := ProcessConstraintViolation(ConstraintViolation(Some(m)), dniFirst, now);
      var dni, email := Contains(m, "estudiantes.dni"), Contains(m, "users.email");
      r.Ok? && r.value.status == Conflict
      && (dni && !email ==> r.value.body == ConstraintResponse(DUPLICATE_DNI, now).body)
      && (email && !dni ==> r.value.body == ConstraintResponse(DUPLICATE_EMAIL, now).body)
      && (!dni && !email ==> r.value.body == ConstraintResponse(DATABASE_ERROR, now).body)
      && (dni && email ==> r.value.body == ConstraintResponse(if dniFirst then DUPLICATE_DNI else DUPLICATE_EMAIL, now).body)
  {
    var d, e := ("estudiantes.dni", DUPLICATE_DNI), ("users.email", DUPLICATE_EMAIL);
    if dniFirst { FirstOfTwo(d, e, m); } else { FirstOfTwo(e, d, m); }
  }

  /** `findFirst` over two entries. */
  lemma FirstOfTwo(a: (string, ErrorCode), b: (string, ErrorCode), m: string)
    ensures FirstMatching([a, b], m) == if Contains(m, a.0) then Some(a.1) else if Contains(m, b.0) then Some(b.1) else None
  {
    assert [a, b][1..] == [b];
    assert [b][1..] == [];
  }

  /** A security exception is answered with 401 and its own code; any other
      BaseException with its own status, code and details. */
  lemma ThrownBaseExceptions(e: Exception, requestUri: Option<string>, dniFirst: bool, now: string)
    requires e.Base? && Trim(e.message) != []
    ensures var r := Handle(Thrown(e), requestUri, dniFirst, now);
      r.Ok? && r.value.body.code == Code(e.errorCode) && r.value.body.message == e.message
      && (IsSecurity(e.kind) ==> r.value.status == Unauthorized)
      && (!IsSecurity(e.kind) ==> r.value.status == BadRequest && r.value.body.details == AsDetails(e.details))
  {
  }

  /** Every exception outside the BaseException hierarchy is a 500 with no details. */
  lemma OthersAreInternal(e: Exception, requestUri: Option<string>, dniFirst: bool, now: string)
    requires !e.Base?
    ensures var r := Handle(Thrown(e), requestUri, dniFirst, now);
      r.Ok? && r.value.status == InternalServerError && r.value.body.code == "INTERNAL_ERROR" && r.value.body.details == map[]
  {
  }

  /** A validation failure is a 400 whose details hold, for each field named, the
      message of its first error. */
  lemma ValidationFirstWins(errs: seq<FieldError>, j: int, requestUri: Option<string>, dniFirst: bool, now: string)
    requires FirstFor(errs, j)
    ensures var r := Handle(MethodArgumentNotValid(errs), requestUri, dniFirst, now);
      r.Ok? && r.value.status == BadRequest && r.value.body.details.Keys == Fields(errs)
      && r.value.body.details[errs[j].field] == Some(ErrorMessage(errs[j]))
  {
    FirstMessageWins(errs);
  }
}
