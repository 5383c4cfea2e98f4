// UserServiceImpl: creating an administrator, its lookup, its soft delete and
// its update.

module UserService {
  import opened Wrappers
  import opened Exceptions
  import opened SchoolEntities

  /** The user repository, the number of stored institutions, and the identity the
      next saved user receives. */
  datatype UserState = UserState(users: map<int, PersonRow>, instituciones: nat, nextId: int)

  predicate Valid(st: UserState)
  {
    forall k :: k in st.users ==> k < st.nextId
  }

  /** `UserRequestDTO`: the fields the service reads. */
  datatype UserRequest = UserRequest(
    id: Option<int>,
    email: Option<string>,
    dni: Option<string>,
    contrasena: Option<string>,
    institucionId: Option<int>)

  const SelectInstitution: Exception := ForbiddenEx("Debe seleccionar una institución")
  const EmailTakenPrefix: string := "Usuario con email ya existente: "
  const NotFound: Exception := EntityNotFound("Usuario no encontrado")
  const UpdateNotFound: Exception := EntityNotFound("La entidad con ese ID no fue encontrado")
  const NullId: Exception := IllegalArgument(Some("The given id must not be null"))
  /** BCrypt refuses to encode a null password. */
  const NullRawPassword: Exception := IllegalArgument(Some("rawPassword cannot be null"))

  /** `existsByEmail(email)`; a null e-mail matches a user stored without one. */
  predicate EmailInUse(users: map<int, PersonRow>, email: Option<string>)
  {
    exists k :: k in users && users[k].email == email
  }

  function EmailTaken(email: Option<string>): Exception
  {
    ForbiddenEx(EmailTakenPrefix + OrElse(email, "null"))
  }

  /** No two users share an e-mail. */
  predicate EmailUnique(users: map<int, PersonRow>)
  {
    forall a, b :: a in users && b in users && a != b ==> users[a].email != users[b].email
  }

  // ---------------------------------------------------------------------------
  // save

  /** The user `save` stores: the request's e-mail and DNI and the hashed password,
      as administrator and active. The mapper does not map the institution id. */
  function NewAdministrator(dto: UserRequest, password: string): PersonRow
  {
    PersonRow(dto.email, dto.dni, Some(Hashed(password)), Some(RoleAdministrador), true, None)
  }

  /** `save(user)`. */
  function Saved(st: UserState, dto: UserRequest): (Result<int, Exception>, UserState)
  {
    if st.instituciones > 0 && dto.institucionId.None? then (Err(SelectInstitution), st)
    else if EmailInUse(st.users, dto.email) then (Err(EmailTaken(dto.email)), st)
    else if dto.contrasena.None? then (Err(NullRawPassword), st)
    else
      (Ok(st.nextId), st.(users := st.users[st.nextId := NewAdministrator(dto, dto.contrasena.value)],
                          nextId := st.nextId + 1))
  }

  /** The guards in order, and the one case in which a user is stored. */
  lemma SaveGuards(st: UserState, dto: UserRequest)
    ensures st.instituciones > 0 && dto.institucionId.None? ==> Saved(st, dto) == (Err(SelectInstitution), st)
    ensures !(st.instituciones > 0 && dto.institucionId.None?) && EmailInUse(st.users, dto.email) ==>
      Saved(st, dto) == (Err(EmailTaken(dto.email)), st)
    ensures Saved(st, dto).0.Ok? <==>
      (st.instituciones == 0 || dto.institucionId.Some?) && !EmailInUse(st.users, dto.email) && dto.contrasena.Some?
    ensures Saved(st, dto).0.Err? ==> Saved(st, dto).1 == st
  {
  }

  /** Whatever the request, a stored user is an active administrator with the
      request's e-mail and its password hashed, under a fresh id. */
  lemma SaveEffect(st: UserState, dto: UserRequest)
    requires Valid(st)
    requires Saved(st, dto).0.Ok?
    ensures var (r, st') := Saved(st, dto);
      r.value == st.nextId && r.value !in st.users
      && st'.users.Keys == st.users.Keys + {r.value}
      && st'.users[r.value].rol == Some(RoleAdministrador) && st'.users[r.value].activo
      && st'.users[r.value].email == dto.email
      && st'.users[r.value].contrasena == Some(Hashed(dto.contrasena.value))
      && st'.users[r.value].institucion.None?
      && (forall k :: k in st.users ==> st'.users[k] == st.users[k])
      && Valid(st')
  {
  }

  /** Saving keeps e-mails unique. */
  lemma {:induction false} SaveKeepsEmailUnique(st: UserState, dto: UserRequest)
    requires Valid(st) && EmailUnique(st.users)
    ensures EmailUnique(Saved(st, dto).1.users)
  {
    var (r, st') := Saved(st, dto);
    if r.Ok? {
      var m := st'.users;
      forall a, b | a in m && b in m && a != b
        ensures m[a].email != m[b].email
      {
        if a == st.nextId {
          assert m[b] == st.users[b];
          assert !EmailInUse(st.users, dto.email);
        } else if b == st.nextId {
          assert m[a] == st.users[a];
          assert !EmailInUse(st.users, dto.email);
        }
      }
    }
  }

  // ---------------------------------------------------------------------------
  // findById, deleteById, update

  /** `findById(id)`: an unknown user throws rather than giving an empty result. */
  function Lookup(st: UserState, id: Option<int>): (r: Result<Option<PersonRow>, Exception>)
  {
    if id.None? then Err(NullId)
    else if id.value in st.users then Ok(Some(st.users[id.value]))
    else Err(NotFound)
  }

  lemma FindByIdNeverEmpty(st: UserState, id: Option<int>)
    ensures Lookup(st, id).Ok? <==> id.Some? && id.value in st.users
    ensures Lookup(st, id).Ok? ==> Lookup(st, id).value == Some(st.users[id.value])
    ensures id.Some? && id.value !in st.users ==> Lookup(st, id) == Err(NotFound)
  {
  }

  /** `deleteById(id)` as written: the flag is cleared on the entity `findById`
      returned, which is never saved and is not part of a transaction, so the
      repository keeps the user as it was. */
  function DeletedAsWritten(st: UserState, id: int): (Result<(), Exception>, UserState)
  {
    if id !in st.users then (Err(NotFound), st) else (Ok(()), st)
  }

  /** The delete succeeds and the user is still active. */
  lemma DeleteKeepsUserActiveAsWritten()
    ensures var st := UserState(map[1 := PersonRow(Some("a@b.c"), None, None, Some(RoleAdministrador), true, None)], 0, 2);
      DeletedAsWritten(st, 1).0.Ok? && DeletedAsWritten(st, 1).1.users[1].activo
  {
  }

  /** `deleteById(id)` as intended: a soft delete that clears the flag and keeps
      the user. */
  function Deleted(st: UserState, id: int): (Result<(), Exception>, UserState)
  {
    if id !in st.users then (Err(NotFound), st)
    else (Ok(()), st.(users := st.users[id := st.users[id].(activo := false)]))
  }

  /** The soft delete removes nobody and changes only the flag; an unknown id fails
      and changes nothing. */
  lemma DeleteCases(st: UserState, id: int)
    ensures var (r, st') := Deleted(st, id);
      (r.Err? <==> id !in st.users) && (r.Err? ==> r.error == NotFound && st' == st)
      && st'.users.Keys == st.users.Keys
      && (r.Ok? ==> (!st'.users[id].activo
          && st'.users[id].(activo := st.users[id].activo) == st.users[id]
          && forall k :: k in st.users && k != id ==> st'.users[k] == st.users[k]))
  {
  }

  /** The written delete and the intended one differ exactly on an active user. */
  lemma {:induction false} DeleteDiffersOnActive(st: UserState, id: int)
    requires id in st.users
    ensures DeletedAsWritten(st, id).0 == Deleted(st, id).0
    ensures DeletedAsWritten(st, id).1 == Deleted(st, id).1 <==> !st.users[id].activo
  {
    if !st.users[id].activo {
      assert st.users[id := st.users[id].(activo := false)] == st.users;
    } else {
      assert Deleted(st, id).1.users[id].activo != st.users[id].activo;
    }
  }

  /** `update(user)`. `copied` is the user after `UpdatedEntities.update` has
      copied the request onto it, a reflective copy outside this model. */
  function Updated(st: UserState, dto: UserRequest, copied: PersonRow): (Result<int, Exception>, UserState)
  {
    if dto.id.None? then (Err(NullId), st)
    else if dto.id.value !in st.users then (Err(UpdateNotFound), st)
    else if ValidarPassword(dto.contrasena).Some? then (Err(ValidarPassword(dto.contrasena).value), st)
    else
      var row := if dto.contrasena.Some? then copied.(contrasena := Some(Hashed(dto.contrasena.value))) else copied;
      (Ok(dto.id.value), st.(users := st.users[dto.id.value := row]))
  }

  /** The password is checked only when one is given; a given one is stored hashed,
      an absent one leaves the copied password; an unknown id fails. */
  lemma UpdateCases(st: UserState, dto: UserRequest, copied: PersonRow)
    ensures var (r, st') := Updated(st, dto, copied);
      (r.Err? ==> st' == st)
      && (dto.id.Some? && dto.id.value !in st.users ==> r == Err(UpdateNotFound))
      && (dto.id.Some? && dto.id.value in st.users ==>
           (r.Err? <==> dto.contrasena.Some? && |dto.contrasena.value| < MinPasswordLength))
      && (r.Err? && dto.id.Some? && dto.id.value in st.users ==> r.error == ForbiddenEx(ShortPasswordMessage))
      && (r.Ok? ==> (st'.users.Keys == st.users.Keys
          && (dto.contrasena.Some? ==> st'.users[r.value] == copied.(contrasena := Some(Hashed(dto.contrasena.value))))
          && (dto.contrasena.None? ==> st'.users[r.value] == copied)
          && forall k :: k in st.users && k != r.value ==> st'.users[k] == st.users[k]))
  {
  }

  // ---------------------------------------------------------------------------

  class UserServiceImpl {
    var users: map<int, PersonRow>
    var instituciones: nat
    var nextId: int

    function State(): UserState
      reads this
    {
      UserState(users, instituciones, nextId)
    }

    constructor (st: UserState)
      ensures State() == st
    {
      users := st.users;
      instituciones := st.instituciones;
      nextId := st.nextId;
    }

    method FindById(id: Option<int>) returns (r: Result<Option<PersonRow>, Exception>)
      ensures r == Lookup(State(), id)
      ensures r.Ok? ==> r.value.Some?
    {
      if id.None? {
        return Err(NullId);
      }
      if id.value in users {
        return Ok(Some(users[id.value]));
      }
      r := Err(NotFound);
    }

    method Save(dto: UserRequest) returns (r: Result<int, Exception>)
      modifies this
      ensures (r, State()) == Saved(old(State()), dto)
    {
      if instituciones > 0 && dto.institucionId.None? {
        return Err(SelectInstitution);
      }
      if EmailInUse(users, dto.email) {
        return Err(EmailTaken(dto.email));
      }
      if dto.contrasena.None? {
        return Err(NullRawPassword);
      }
      users := users[nextId := NewAdministrator(dto, dto.contrasena.value)];
      r := Ok(nextId);
      nextId := nextId + 1;
    }

    /** The intended soft delete. */
    method DeleteById(id: int) returns (r: Result<(), Exception>)
      modifies this
      ensures (r, State()) == Deleted(old(State()), id)
    {
      if id !in users {
        return Err(NotFound);
      }
      users := users[id := users[id].(activo := false)];
      r := Ok(());
    }

    method Update(dto: UserRequest, copied: PersonRow) returns (r: Result<int, Exception>)
      modifies this
      ensures (r, State()) == Updated(old(State()), dto, copied)
    {
      if dto.id.None? {
        return Err(NullId);
      }
      var id := dto.id.value;
      if id !in users {
        return Err(UpdateNotFound);
      }
      var row := copied;
      if dto.contrasena.Some? {
        var invalid := ValidarPassword(dto.contrasena);
        if invalid.Some? {
          return Err(invalid.value);
        }
        row := row.(contrasena := Some(Hashed(dto.contrasena.value)));
      }
      users := users[id := row];
      r := Ok(id);
    }
  }
}
