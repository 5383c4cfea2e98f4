// EstudianteServiceImpl: creating, updating, deleting and (de)activating
// students, and looking students up by a list of ids. Each write runs in one
// transaction: a call that throws leaves the repository as it was.

module EstudianteService {
  import opened Wrappers
  import opened Exceptions
  import opened SchoolEntities
  import opened EstudianteMapper

  /** The student repository, the ids of the stored grades and legal tutors the
      mapper resolves against, and the identity the next saved student receives. */
  datatype EstudianteState = EstudianteState(
    estudiantes: map<int, EstudianteRow>,
    grados: set<int>,
    tutores: set<int>,
    nextId: int)

  predicate Valid(st: EstudianteState)
  {
    forall k :: k in st.estudiantes ==> k < st.nextId
  }

  const NotFound: Exception := EntityNotFound("Estudiante no encontrado")
  const NullId: Exception := IllegalArgument(Some("The given id must not be null"))

  /** `existsByDni(dni)`; a null DNI matches a student stored without one. */
  predicate DniInUse(estudiantes: map<int, EstudianteRow>, dni: Option<string>)
  {
    exists k :: k in estudiantes && estudiantes[k].dni == dni
  }

  /** `new DniDuplicadoException(dni)`; a null DNI is formatted as "null". */
  function DuplicateDni(dni: Option<string>): Exception
  {
    DniDuplicadoException(OrElse(dni, "null"))
  }

  /** No two students share a non-null DNI. */
  predicate DniUnique(estudiantes: map<int, EstudianteRow>)
  {
    forall a, b :: a in estudiantes && b in estudiantes && a != b && estudiantes[a].dni.Some? ==>
      estudiantes[a].dni != estudiantes[b].dni
  }

  // ---------------------------------------------------------------------------
  // crear

  /** `crear(dto)`: the DNI check, the mapped entity with role ROLE_ESTUDIANTE and
      active, saved under a fresh id, which is returned. */
  function Created(st: EstudianteState, dto: CreacionDto): (Result<int, Exception>, EstudianteState)
  {
    if DniInUse(st.estudiantes, dto.numeroDocumento) then
      (Err(DuplicateDni(dto.numeroDocumento)), st)
    else
      var row := CrearDesdeDTO(dto, st.grados, st.tutores).(rol := Some(RoleEstudiante), activo := true);
      (Ok(st.nextId), st.(estudiantes := st.estudiantes[st.nextId := row], nextId := st.nextId + 1))
  }

  /** A DNI already stored is refused with nothing saved; otherwise exactly one
      student is added, under the fresh id, with the request's fields, the
      student role and active. */
  lemma CrearCases(st: EstudianteState, dto: CreacionDto)
    requires Valid(st)
    ensures var (r, st') := Created(st, dto);
      (r.Err? <==> DniInUse(st.estudiantes, dto.numeroDocumento))
      && (r.Err? ==> r.error == DuplicateDni(dto.numeroDocumento) && st' == st)
      && (r.Ok? ==> (r.value == st.nextId && r.value !in st.estudiantes
          && st'.estudiantes.Keys == st.estudiantes.Keys + {r.value}
          && (forall k :: k in st.estudiantes ==> st'.estudiantes[k] == st.estudiantes[k])
          && st'.estudiantes[r.value].rol == Some(RoleEstudiante)
          && st'.estudiantes[r.value].activo
          && st'.estudiantes[r.value].dni == dto.numeroDocumento
          && st'.estudiantes[r.value].nombre == dto.nombre
          && st'.estudiantes[r.value].apellido == dto.apellido))
      && Valid(st')
  {
  }

  /** Creating a student never produces two students with the same DNI. */
  lemma {:induction false} CrearKeepsDniUnique(st: EstudianteState, dto: CreacionDto)
    requires Valid(st) && DniUnique(st.estudiantes)
    ensures DniUnique(Created(st, dto).1.estudiantes)
  {
    var (r, st') := Created(st, dto);
    if r.Ok? {
      var m := st'.estudiantes;
      forall a, b | a in m && b in m && a != b && m[a].dni.Some?
        ensures m[a].dni != m[b].dni
      {
        if a == st.nextId {
          assert !DniInUse(st.estudiantes, dto.numeroDocumento);
          assert b in st.estudiantes && m[b] == st.estudiantes[b];
        } else if b == st.nextId {
          assert a in st.estudiantes && m[a] == st.estudiantes[a];
          assert !DniInUse(st.estudiantes, dto.numeroDocumento);
        }
      }
    }
  }

  /** Submitting the same request twice: the second is refused. */
  lemma SecondCrearRejected(st: EstudianteState, dto: CreacionDto)
    requires Valid(st)
    requires Created(st, dto).0.Ok?
    ensures Created(Created(st, dto).1, dto).0 == Err(DuplicateDni(dto.numeroDocumento))
  {
    var st' := Created(st, dto).1;
    assert st'.estudiantes[st.nextId].dni == dto.numeroDocumento;
  }

  // ---------------------------------------------------------------------------
  // actualizar

  /** The DNI is refused only when given, different from the current one, and
      already stored. */
  predicate DniRejected(current: EstudianteRow, estudiantes: map<int, EstudianteRow>, dni: Option<string>)
  {
    dni.Some? && dni != current.dni && DniInUse(estudiantes, dni)
  }

  /** `actualizar(dto)`. */
  function Updated(st: EstudianteState, dto: ActualizacionDto): (Result<int, Exception>, EstudianteState)
  {
    if dto.id.None? then (Err(NullId), st)
    else if dto.id.value !in st.estudiantes then (Err(NotFound), st)
    else
      var id := dto.id.value;
      var current := st.estudiantes[id];
      if DniRejected(current, st.estudiantes, dto.numeroDocumento) then
        (Err(DuplicateDni(dto.numeroDocumento)), st)
      else
        (Ok(id), st.(estudiantes := st.estudiantes[id := ActualizadoDesdeDTO(current, dto, st.grados, st.tutores)]))
  }

  /** An unknown id fails; a DNI is refused exactly when given, different and
      stored; otherwise only the named student changes, to the mapper's update. */
  lemma ActualizarCases(st: EstudianteState, dto: ActualizacionDto)
    ensures var (r, st') := Updated(st, dto);
      (r.Err? ==> st' == st)
      && (dto.id.None? ==> r == Err(NullId))
      && (dto.id.Some? && dto.id.value !in st.estudiantes ==> r == Err(NotFound))
      && (dto.id.Some? && dto.id.value in st.estudiantes ==>
           (r.Err? <==> DniRejected(st.estudiantes[dto.id.value], st.estudiantes, dto.numeroDocumento)))
      && (r.Ok? ==> (dto.id == Some(r.value) && r.value in st.estudiantes
          && st'.estudiantes.Keys == st.estudiantes.Keys
          && st'.estudiantes[r.value] == ActualizadoDesdeDTO(st.estudiantes[r.value], dto, st.grados, st.tutores)
          && (forall k :: k in st.estudiantes && k != r.value ==> st'.estudiantes[k] == st.estudiantes[k])))
      && st'.nextId == st.nextId
  {
  }

  /** Resubmitting the student's own DNI is never refused. */
  lemma SameDniAccepted(st: EstudianteState, dto: ActualizacionDto)
    requires dto.id.Some? && dto.id.value in st.estudiantes
    requires dto.numeroDocumento == st.estudiantes[dto.id.value].dni
    ensures Updated(st, dto).0 == Ok(dto.id.value)
  {
  }

  /** Updating a student never produces two students with the same DNI. */
  lemma {:induction false} ActualizarKeepsDniUnique(st: EstudianteState, dto: ActualizacionDto)
    requires DniUnique(st.estudiantes)
    ensures DniUnique(Updated(st, dto).1.estudiantes)
  {
    var (r, st') := Updated(st, dto);
    if r.Ok? {
      var id := dto.id.value;
      var m := st'.estudiantes;
      OverlayFields(st.estudiantes[id], dto);
      forall a, b | a in m && b in m && a != b && m[a].dni.Some?
        ensures m[a].dni != m[b].dni
      {
        if a == id && dto.numeroDocumento.Some? && dto.numeroDocumento != st.estudiantes[id].dni {
          assert m[a].dni == dto.numeroDocumento;
          assert !DniInUse(st.estudiantes, dto.numeroDocumento);
          assert m[b] == st.estudiantes[b];
        } else if b == id && dto.numeroDocumento.Some? && dto.numeroDocumento != st.estudiantes[id].dni {
          assert m[b].dni == dto.numeroDocumento;
          assert !DniInUse(st.estudiantes, dto.numeroDocumento);
          assert m[a] == st.estudiantes[a];
        } else {
          assert m[a].dni == st.estudiantes[a].dni;
          assert m[b].dni == st.estudiantes[b].dni;
        }
      }
    }
  }

  // ---------------------------------------------------------------------------
  // eliminar and cambiarEstadoActivo

  /** `eliminar(id)`. */
  function Deleted(st: EstudianteState, id: int): (Result<(), Exception>, EstudianteState)
  {
    if id !in st.estudiantes then (Err(NotFound), st)
    else (Ok(()), st.(estudiantes := st.estudiantes - {id}))
  }

  /** An unknown id fails and deletes nothing; a known one removes exactly that
      student. */
  lemma EliminarCases(st: EstudianteState, id: int)
    ensures var (r, st') := Deleted(st, id);
      (r.Err? <==> id !in st.estudiantes)
      && (r.Err? ==> r.error == NotFound && st' == st)
      && (r.Ok? ==> (st'.estudiantes.Keys == st.estudiantes.Keys - {id}
          && forall k :: k in st'.estudiantes ==> st'.estudiantes[k] == st.estudiantes[k]))
  {
  }

  /** `cambiarEstadoActivo(id)`: negates the flag and returns its new value. */
  function Toggled(st: EstudianteState, id: int): (Result<bool, Exception>, EstudianteState)
  {
    if id !in st.estudiantes then (Err(NotFound), st)
    else
      var nuevo := !st.estudiantes[id].activo;
      (Ok(nuevo), st.(estudiantes := st.estudiantes[id := st.estudiantes[id].(activo := nuevo)]))
  }

  /** The returned value is the stored one, the opposite of the old one, and the
      rest of the student is kept. */
  lemma ToggleEffect(st: EstudianteState, id: int)
    ensures var (r, st') := Toggled(st, id);
      (r.Err? <==> id !in st.estudiantes) && (r.Err? ==> st' == st)
      && (r.Ok? ==> (r.value == !st.estudiantes[id].activo && r.value == st'.estudiantes[id].activo
          && st'.estudiantes[id].(activo := st.estudiantes[id].activo) == st.estudiantes[id]
          && st'.estudiantes.Keys == st.estudiantes.Keys
          && forall k :: k in st.estudiantes && k != id ==> st'.estudiantes[k] == st.estudiantes[k]))
  {
  }

  /** Toggling twice restores the repository, and the two calls return opposite
      values. */
  lemma {:induction false} ToggleTwiceRestores(st: EstudianteState, id: int)
    requires id in st.estudiantes
    ensures var (r1, st1) := Toggled(st, id); var (r2, st2) := Toggled(st1, id);
      st2 == st && r1.Ok? && r2.Ok? && r2.value == !r1.value && r2.value == st.estudiantes[id].activo
  {
    var (r1, st1) := Toggled(st, id);
    var st2 := Toggled(st1, id).1;
    assert st1.estudiantes[id].(activo := !st1.estudiantes[id].activo) == st.estudiantes[id];
    assert st2.estudiantes == st.estudiantes;
  }

  // ---------------------------------------------------------------------------
  // obtenerEntidadesPorIds

  /** `obtenerEntidadesPorIds(ids)`: the stored students among the ids; null or
      empty gives none. */
  function EntitiesByIds(estudiantes: map<int, EstudianteRow>, ids: Option<seq<int>>): (r: set<int>)
  {
    if ids.None? || |ids.value| == 0 then {}
    else set i | i in ids.value && i in estudiantes
  }

  lemma EntitiesByIdsCases(estudiantes: map<int, EstudianteRow>, ids: Option<seq<int>>)
    ensures ids.None? ==> EntitiesByIds(estudiantes, ids) == {}
    ensures ids.Some? && ids.value == [] ==> EntitiesByIds(estudiantes, ids) == {}
    ensures forall i :: i in EntitiesByIds(estudiantes, ids) <==> ids.Some? && i in ids.value && i in estudiantes
    ensures EntitiesByIds(estudiantes, ids) <= estudiantes.Keys
  {
  }

  // ---------------------------------------------------------------------------

  class EstudianteServiceImpl {
    var estudiantes: map<int, EstudianteRow>
    var grados: set<int>
    var tutores: set<int>
    var nextId: int

    function State(): EstudianteState
      reads this
    {
      EstudianteState(estudiantes, grados, tutores, nextId)
    }

    constructor (st: EstudianteState)
      ensures State() == st
    {
      estudiantes := st.estudiantes;
      grados := st.grados;
      tutores := st.tutores;
      nextId := st.nextId;
    }

    method Crear(dto: CreacionDto) returns (r: Result<int, Exception>)
      modifies this
      ensures (r, State()) == Created(old(State()), dto)
    {
      if DniInUse(estudiantes, dto.numeroDocumento) {
        return Err(DuplicateDni(dto.numeroDocumento));
      }
      var row := CrearDesdeDTO(dto, grados, tutores);
      var e := new Estudiante.Load(nextId, row);
      e.rol := Some(RoleEstudiante);
      e.activo := true;
      estudiantes := estudiantes[e.id := e.Row()];
      r := Ok(e.id);
      nextId := nextId + 1;
    }

    method Actualizar(dto: ActualizacionDto) returns (r: Result<int, Exception>)
      modifies this
      ensures (r, State()) == Updated(old(State()), dto)
    {
      if dto.id.None? {
        return Err(NullId);
      }
      var id := dto.id.value;
      if id !in estudiantes {
        return Err(NotFound);
      }
      var e := new Estudiante.Load(id, estudiantes[id]);
      if dto.numeroDocumento.Some? && dto.numeroDocumento != e.dni && DniInUse(estudiantes, dto.numeroDocumento) {
        return Err(DuplicateDni(dto.numeroDocumento));
      }
      ActualizarDesdeDTO(e, Some(dto), grados, tutores);
      estudiantes := estudiantes[id := e.Row()];
      r := Ok(id);
    }

    method Eliminar(id: int) returns (r: Result<(), Exception>)
      modifies this
      ensures (r, State()) == Deleted(old(State()), id)
    {
      if id !in estudiantes {
        return Err(NotFound);
      }
      estudiantes := estudiantes - {id};
      r := Ok(());
    }

    method CambiarEstadoActivo(id: int) returns (r: Result<bool, Exception>)
      modifies this
      ensures (r, State()) == Toggled(old(State()), id)
    {
      if id !in estudiantes {
        return Err(NotFound);
      }
      var e := new Estudiante.Load(id, estudiantes[id]);
      var nuevoEstado := !e.activo;
      e.activo := nuevoEstado;
      estudiantes := estudiantes[id := e.Row()];
      r := Ok(nuevoEstado);
    }

    method ObtenerEntidadesPorIds(ids: Option<seq<int>>) returns (r: set<int>)
      ensures r == EntitiesByIds(estudiantes, ids)
      ensures ids.None? || ids.value == [] ==> r == {}
    {
      if ids.None? || |ids.value| == 0 {
        return {};
      }
      r := set i | i in ids.value && i in estudiantes;
    }
  }
}
