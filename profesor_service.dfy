// ProfesorServiceImpl: creating a teacher, updating it and deleting it. Each of
// the three runs in one transaction: a call that throws leaves the repository as
// it was.

module ProfesorService {
  import opened Wrappers
  import opened JavaText
  import opened Exceptions
  import opened SchoolEntities

  datatype ProfesorState = ProfesorState(profesores: map<int, PersonRow>, nextId: int)

  predicate Valid(st: ProfesorState)
  {
    forall k :: k in st.profesores ==> k < st.nextId
  }

  /** `ProfesorRequestDTO`: the fields the service reads. */
  datatype ProfesorRequest = ProfesorRequest(
    id: Option<int>,
    email: Option<string>,
    dni: Option<string>,
    contrasena: Option<string>,
    institucionId: Option<int>)

  const EmailTakenPrefix: string := "Profesor con email ya existente: "
  const UpdateNotFoundPrefix: string := "La entidad con ese ID no fue encontrado"
  const NotFound: Exception := EntityNotFound("Profesor no encontrado")
  const NullId: Exception := IllegalArgument(Some("The given id must not be null"))
  /** BCrypt refuses to encode a null password. */
  const NullRawPassword: Exception := IllegalArgument(Some("rawPassword cannot be null"))

  /** `findByEmail(email).isPresent()`. */
  predicate EmailInUse(profesores: map<int, PersonRow>, email: Option<string>)
  {
    exists k :: k in profesores && profesores[k].email == email
  }

  /** The duplicate e-mail is reported through `DniDuplicadoException`, whose
      constructor wraps its argument in the DNI sentence. */
  function EmailTaken(email: Option<string>): Exception
  {
    DniDuplicadoException(EmailTakenPrefix + OrElse(email, "null"))
  }

  predicate EmailUnique(profesores: map<int, PersonRow>)
  {
    forall a, b :: a in profesores && b in profesores && a != b ==> profesores[a].email != profesores[b].email
  }

  // ---------------------------------------------------------------------------
  // save

  /** The teacher `save` stores: the request's e-mail, DNI and institution, the
      hashed password, as teacher and active. */
  function NewProfesor(dto: ProfesorRequest, password: string): PersonRow
  {
    PersonRow(dto.email, dto.dni, Some(Hashed(password)), Some(RoleProfesor), true, dto.institucionId)
  }

  /** `save(dto)`. The mapper looks the institution up with `findById`, which
      refuses a null id before the password is encoded. */
  function Saved(st: ProfesorState, dto: ProfesorRequest): (Result<int, Exception>, ProfesorState)
  {
    if EmailInUse(st.profesores, dto.email) then (Err(EmailTaken(dto.email)), st)
    else if dto.institucionId.None? then (Err(NullId), st)
    else if dto.contrasena.None? then (Err(NullRawPassword), st)
    else
      (Ok(st.nextId), st.(profesores := st.profesores[st.nextId := NewProfesor(dto, dto.contrasena.value)],
                          nextId := st.nextId + 1))
  }

  /** A registered e-mail is refused, then a missing institution id; otherwise
      (given a password) one active teacher is added with the request's e-mail,
      institution and hashed password. */
  lemma SaveCases(st: ProfesorState, dto: ProfesorRequest)
    requires Valid(st)
    ensures var (r, st') := Saved(st, dto);
      (EmailInUse(st.profesores, dto.email) ==> r == Err(EmailTaken(dto.email)))
      && (!EmailInUse(st.profesores, dto.email) && dto.institucionId.None? ==> r == Err(NullId))
      && (r.Ok? <==> !EmailInUse(st.profesores, dto.email) && dto.institucionId.Some? && dto.contrasena.Some?)
      && (r.Err? ==> st' == st)
      && (r.Ok? ==> (r.value == st.nextId && r.value !in st.profesores
          && st'.profesores.Keys == st.profesores.Keys + {r.value}
          && st'.profesores[r.value].rol == Some(RoleProfesor) && st'.profesores[r.value].activo
          && st'.profesores[r.value].email == dto.email
          && st'.profesores[r.value].institucion == dto.institucionId
          && st'.profesores[r.value].contrasena == Some(Hashed(dto.contrasena.value))
          && forall k :: k in st.profesores ==> st'.profesores[k] == st.profesores[k]))
      && Valid(st')
  {
  }

  /** Saving keeps e-mails unique. */
  lemma {:induction false} SaveKeepsEmailUnique(st: ProfesorState, dto: ProfesorRequest)
    requires Valid(st) && EmailUnique(st.profesores)
    ensures EmailUnique(Saved(st, dto).1.profesores)
  {
    var (r, st') := Saved(st, dto);
    if r.Ok? {
      var m := st'.profesores;
      forall a, b | a in m && b in m && a != b
        ensures m[a].email != m[b].email
      {
        if a == st.nextId {
          assert m[b] == st.profesores[b];
          assert !EmailInUse(st.profesores, dto.email);
        } else if b == st.nextId {
          assert m[a] == st.profesores[a];
          assert !EmailInUse(st.profesores, dto.email);
        }
      }
    }
  }

  // ---------------------------------------------------------------------------
  // update and deleteById

  /** `"La entidad con ese ID no fue encontrado" + id`. */
  function UpdateNotFound(id: int): Exception
  {
    EntityNotFound(UpdateNotFoundPrefix + IntToString(id))
  }

  /** `update(dto)`. `copied` is the teacher after `UpdatedEntities.update` has
      copied the request onto it, a reflective copy outside this model. */
  function Updated(st: ProfesorState, dto: ProfesorRequest, copied: PersonRow): (Result<int, Exception>, ProfesorState)
  {
    if dto.id.None? then (Err(NullId), st)
    else if dto.id.value !in st.profesores then (Err(UpdateNotFound(dto.id.value)), st)
    else if ValidarPassword(dto.contrasena).Some? then (Err(ValidarPassword(dto.contrasena).value), st)
    else
      var row := if dto.contrasena.Some? then copied.(contrasena := Some(Hashed(dto.contrasena.value))) else copied;
      (Ok(dto.id.value), st.(profesores := st.profesores[dto.id.value := row]))
  }

  /** The password is checked only when given; an unknown id fails with a message
      naming it. */
  lemma UpdateCases(st: ProfesorState, dto: ProfesorRequest, copied: PersonRow)
    ensures var (r, st') := Updated(st, dto, copied);
      (r.Err? ==> st' == st)
      && (dto.id.Some? && dto.id.value !in st.profesores ==> r == Err(UpdateNotFound(dto.id.value)))
      && (dto.id.Some? && dto.id.value in st.profesores ==>
           (r.Err? <==> dto.contrasena.Some? && |dto.contrasena.value| < MinPasswordLength))
      && (r.Ok? ==> (st'.profesores.Keys == st.profesores.Keys
          && (dto.contrasena.Some? ==> st'.profesores[r.value].contrasena == Some(Hashed(dto.contrasena.value)))
          && (dto.contrasena.None? ==> st'.profesores[r.value] == copied)
          && forall k :: k in st.profesores && k != r.value ==> st'.profesores[k] == st.profesores[k]))
  {
  }

  /** Different unknown ids give different messages. */
  lemma {:induction false} UpdateNotFoundNamesId(a: int, b: int)
    requires a != b
    ensures UpdateNotFound(a) != UpdateNotFound(b)
  {
    var p := UpdateNotFoundPrefix;
    assert UpdateNotFound(a).msg[|p|..] == IntToString(a);
    assert UpdateNotFound(b).msg[|p|..] == IntToString(b);
    IntToStringInjective(a, b);
  }

  /** `deleteById(id)`: a hard delete. */
  function Deleted(st: ProfesorState, id: int): (Result<(), Exception>, ProfesorState)
  {
    if id !in st.profesores then (Err(NotFound), st)
    else (Ok(()), st.(profesores := st.profesores - {id}))
  }

  lemma DeleteCases(st: ProfesorState, id: int)
    ensures var (r, st') := Deleted(st, id);
      (r.Err? <==> id !in st.profesores) && (r.Err? ==> r.error == NotFound && st' == st)
      && (r.Ok? ==> (st'.profesores.Keys == st.profesores.Keys - {id}
          && forall k :: k in st'.profesores ==> st'.profesores[k] == st.profesores[k]))
  {
  }

  // ---------------------------------------------------------------------------

  class ProfesorServiceImpl {
    var profesores: map<int, PersonRow>
    var nextId: int

    function State(): ProfesorState
      reads this
    {
      ProfesorState(profesores, nextId)
    }

    constructor (st: ProfesorState)
      ensures State() == st
    {
      profesores := st.profesores;
      nextId := st.nextId;
    }

    method Save(dto: ProfesorRequest) returns (r: Result<int, Exception>)
      modifies this
      ensures (r, State()) == Saved(old(State()), dto)
    {
      if EmailInUse(profesores, dto.email) {
        return Err(EmailTaken(dto.email));
      }
      if dto.institucionId.None? {
        return Err(NullId);
      }
      if dto.contrasena.None? {
        return Err(NullRawPassword);
      }
      profesores := profesores[nextId := NewProfesor(dto, dto.contrasena.value)];
      r := Ok(nextId);
      nextId := nextId + 1;
    }

    method Update(dto: ProfesorRequest, copied: PersonRow) returns (r: Result<int, Exception>)
      modifies this
      ensures (r, State()) == Updated(old(State()), dto, copied)
    {
      if dto.id.None? {
        return Err(NullId);
      }
      var id := dto.id.value;
      if id !in profesores {
        return Err(UpdateNotFound(id));
      }
      var row := copied;
      if dto.contrasena.Some? {
        var invalid := ValidarPassword(dto.contrasena);
        if invalid.Some? {
          return Err(invalid.value);
        }
        row := row.(contrasena := Some(Hashed(dto.contrasena.value)));
      }
      profesores := profesores[id := row];
      r := Ok(id);
    }

    method DeleteById(id: int) returns (r: Result<(), Exception>)
      modifies this
      ensures (r, State()) == Deleted(old(State()), id)
    {
      if id !in profesores {
        return Err(NotFound);
      }
      profesores := profesores - {id};
      r := Ok(());
    }
  }
}
