// GradoServiceImp: creating a grade after its uniqueness and field checks,
// updating one under the teacher-load limit, the association check, lookup and
// deletion. The grade repository is a map, the teacher repository the set of
// stored teacher ids.

module GradoService {
  import opened Wrappers
  import opened JavaText
  import opened Exceptions
  import opened GradoEntity

  datatype GradoState = GradoState(
    grados: map<int, GradoRow>,
    profesores: set<int>,
    nextId: int)

  /** Every stored grade has an identity below `nextId`. */
  predicate Valid(st: GradoState)
  {
    forall k :: k in st.grados ==> k < st.nextId
  }

  /** `GradoDto`: the four enum columns by constant name, None for null. */
  datatype GradoRequest = GradoRequest(
    id: Option<int>,
    aula: Option<string>,
    curso: Option<string>,
    turno: Option<string>,
    materia: Option<string>,
    profesor: Option<int>)

  const AulaRequerida: string := "El aula es requerida"
  const CursoRequerido: string := "El curso es requerido"
  const TurnoRequerido: string := "El turno es requerido"
  const MateriaRequerida: string := "La materia es requerida"
  const AulaTurnoTaken: string := "Ya existe un grado asignado para esta aula y turno"
  const ValidationPrefix: string := "Errores de validación: "
  const GradoNotFound: string := "No se encontró el grado"
  const UpdateNotFoundPrefix: string := "Grado no encontrado con ID: "
  const MaxLoadMessage: string := "El profesor ya tiene el máximo de grados permitidos asignados"

  /** The most grades `update` lets a teacher hold. */
  const MaxGradosPorProfesor: nat := 5

  /** A Spring Data repository refuses a null id. */
  const NullId: Exception := IllegalArgument(Some("The given id must not be null"))

  /** Dereferencing the missing teacher of a grade. */
  const NullTeacher: Exception := Other("NullPointerException", None)

  // ---------------------------------------------------------------------------
  // Repository queries

  /** `findByCursoAndAulaAndTurno`: a derived query, so a null argument matches a
      null column. */
  predicate CursoAulaTurnoTaken(st: GradoState, dto: GradoRequest)
  {
    exists g :: g in st.grados && st.grados[g].curso == dto.curso
                && st.grados[g].aula == dto.aula && st.grados[g].turno == dto.turno
  }

  /** `existsByAulaAndTurnoAndIdNot` as its JPQL reads under SQL's rules: a
      comparison with a null parameter is never true, so without an id (or an aula,
      or a turno) no grade matches. */
  predicate AulaTurnoClashAsWritten(st: GradoState, dto: GradoRequest)
  {
    dto.id.Some? && dto.aula.Some? && dto.turno.Some?
    && exists g :: g in st.grados && st.grados[g].aula == dto.aula && st.grados[g].turno == dto.turno
                   && g != dto.id.value
  }

  /** What the check is meant to find when a grade is created: a stored grade in
      the same aula and turno. A new grade has no stored row of its own, so every
      stored grade is another one. */
  predicate AulaTurnoClash(st: GradoState, dto: GradoRequest)
  {
    exists g :: g in st.grados && st.grados[g].aula == dto.aula && st.grados[g].turno == dto.turno
  }

  /** `countByProfesorId`. */
  function TeacherLoad(grados: map<int, GradoRow>, p: int): nat
  {
    |set g | g in grados && grados[g].profesor == Some(p)|
  }

  // ---------------------------------------------------------------------------
  // validateGradoData

  /** The messages `validateGradoData` collects, given the answer of the aula and
      turno query. */
  function ValidationErrors(dto: GradoRequest, clash: bool): (errors: seq<string>)
    ensures (dto.aula.None? || dto.curso.None? || dto.turno.None? || dto.materia.None? || clash) <==> errors != []
    ensures clash <==> AulaTurnoTaken in errors
  {
    (if dto.aula.None? then [AulaRequerida] else [])
    + (if dto.curso.None? then [CursoRequerido] else [])
    + (if dto.turno.None? then [TurnoRequerido] else [])
    + (if dto.materia.None? then [MateriaRequerida] else [])
    + (if clash then [AulaTurnoTaken] else [])
  }

  /** The exception `validateGradoData` throws, if any. */
  function ValidationFailure(dto: GradoRequest, clash: bool): Option<Exception>
  {
    var errors := ValidationErrors(dto, clash);
    if errors == [] then None else Some(ForbiddenEx(ValidationPrefix + Join(errors, ", ")))
  }

  /** The messages come one per missing field, in the order aula, curso, turno,
      materia, with the clash last. */
  lemma ValidationOrder(dto: GradoRequest, clash: bool)
    ensures dto.aula.None? ==> ValidationErrors(dto, clash)[0] == AulaRequerida
    ensures dto.aula.Some? && dto.curso.None? ==> ValidationErrors(dto, clash)[0] == CursoRequerido
    ensures clash ==> ValidationErrors(dto, clash)[|ValidationErrors(dto, clash)| - 1] == AulaTurnoTaken
    ensures |ValidationErrors(dto, clash)|
      == (if dto.aula.None? then 1 else 0) + (if dto.curso.None? then 1 else 0)
       + (if dto.turno.None? then 1 else 0) + (if dto.materia.None? then 1 else 0) + (if clash then 1 else 0)
    ensures dto.aula.None? && dto.curso.None? && dto.turno.None? && dto.materia.None? && !clash ==>
      ValidationErrors(dto, clash) == [AulaRequerida, CursoRequerido, TurnoRequerido, MateriaRequerida]
  {
  }

  // ---------------------------------------------------------------------------
  // createGrado

  /** `createGrado(dto)` given the answer of the aula and turno query: the outcome
      (the new grade's id) and the repository after it. */
  function Create(st: GradoState, dto: GradoRequest, clash: bool): (Result<int, Exception>, GradoState)
  {
    if CursoAulaTurnoTaken(st, dto) then (Err(EntityNotFound(AulaTurnoTaken)), st)
    else if ValidationFailure(dto, clash).Some? then (Err(ValidationFailure(dto, clash).value), st)
    else if dto.profesor.None? then (Err(NullId), st)
    else
      var profesor := if dto.profesor.value in st.profesores then dto.profesor else None;
      var row := GradoRow(dto.aula, dto.curso, dto.turno, dto.materia, 0, profesor, []);
      (Ok(st.nextId), st.(grados := st.grados[st.nextId := row], nextId := st.nextId + 1))
  }

  /** As written: with the JPQL query's null behaviour. */
  function CreationAsWritten(st: GradoState, dto: GradoRequest): (Result<int, Exception>, GradoState)
  {
    Create(st, dto, AulaTurnoClashAsWritten(st, dto))
  }

  /** As intended: any stored grade in the same aula and turno is a clash. */
  function Creation(st: GradoState, dto: GradoRequest): (Result<int, Exception>, GradoState)
  {
    Create(st, dto, AulaTurnoClash(st, dto))
  }

  /** No two grades share an aula and a turno. */
  predicate UniqueAulaTurno(grados: map<int, GradoRow>)
  {
    forall g, h :: g in grados && h in grados && g != h ==>
      grados[g].aula != grados[h].aula || grados[g].turno != grados[h].turno
  }

  /** A new grade from a request without an id in the aula and turno of a stored
      grade of another course is accepted as written: the two then share both. */
  lemma CreateAllowsClashAsWritten()
    ensures var st := GradoState(map[1 := GradoRow(Some("A1"), Some("PRIMERO"), Some("MANANA"), Some("MATEMATICA"), 0, None, [])], {7}, 2);
      var dto := GradoRequest(None, Some("A1"), Some("SEGUNDO"), Some("MANANA"), Some("LENGUA"), Some(7));
      UniqueAulaTurno(st.grados)
      && CreationAsWritten(st, dto).0 == Ok(2)
      && !UniqueAulaTurno(CreationAsWritten(st, dto).1.grados)
  {
    var st := GradoState(map[1 := GradoRow(Some("A1"), Some("PRIMERO"), Some("MANANA"), Some("MATEMATICA"), 0, None, [])], {7}, 2);
    var dto := GradoRequest(None, Some("A1"), Some("SEGUNDO"), Some("MANANA"), Some("LENGUA"), Some(7));
    assert !CursoAulaTurnoTaken(st, dto);
    var st1 := CreationAsWritten(st, dto).1;
    assert st1.grados[1].aula == st1.grados[2].aula && st1.grados[1].turno == st1.grados[2].turno;
  }

  /** Creation as intended never puts two grades in one aula and turno. */
  lemma CreateKeepsAulaTurnoUnique(st: GradoState, dto: GradoRequest)
    requires Valid(st) && UniqueAulaTurno(st.grados)
    ensures Valid(Creation(st, dto).1)
    ensures UniqueAulaTurno(Creation(st, dto).1.grados)
  {
    var (r, st1) := Creation(st, dto);
    if r.Ok? {
      assert !AulaTurnoClash(st, dto);
      forall g, h | g in st1.grados && h in st1.grados && g != h
        ensures st1.grados[g].aula != st1.grados[h].aula || st1.grados[g].turno != st1.grados[h].turno
      {
        if g == st.nextId {
          assert h in st.grados;
        } else if h == st.nextId {
          assert g in st.grados;
        }
      }
    }
  }

  /** The order of the checks: an existing curso, aula and turno combination first,
      then the field validation, then the null teacher id; a created grade starts
      with a zero counter, no students, and the teacher only if it is stored. */
  lemma CreateCases(st: GradoState, dto: GradoRequest, clash: bool)
    ensures CursoAulaTurnoTaken(st, dto) ==> Create(st, dto, clash) == (Err(EntityNotFound(AulaTurnoTaken)), st)
    ensures !CursoAulaTurnoTaken(st, dto) && dto.aula.None? ==>
      Create(st, dto, clash).0.Err? && Create(st, dto, clash).0.error.ForbiddenEx?
    ensures Create(st, dto, clash).0.Err? ==> Create(st, dto, clash).1 == st
    ensures var (r, st1) := Create(st, dto, clash);
      r.Ok? ==>
        r.value == st.nextId && st1.grados == st.grados[st.nextId := st1.grados[st.nextId]]
        && st1.grados[st.nextId].contador == 0 && st1.grados[st.nextId].estudiantes == []
        && (st1.grados[st.nextId].profesor.Some? <==> dto.profesor.Some? && dto.profesor.value in st.profesores)
        && st1.grados[st.nextId].aula == dto.aula && st1.grados[st.nextId].curso == dto.curso
        && st1.grados[st.nextId].turno == dto.turno && st1.grados[st.nextId].materia == dto.materia
  {
  }

  // ---------------------------------------------------------------------------
  // update

  /** The grade after `update`: the four columns copied from the request, the
      teacher replaced only by a non-null one, counter and students kept. */
  function Updated(existing: GradoRow, dto: GradoRequest): GradoRow
  {
    existing.(aula := dto.aula, curso := dto.curso, turno := dto.turno, materia := dto.materia,
              profesor := if dto.profesor.Some? then dto.profesor else existing.profesor)
  }

  /** `update(dto)` as written: a grade without a teacher cannot be given one,
      because the existing teacher's id is read to compare. */
  function UpdateGradoAsWritten(st: GradoState, dto: GradoRequest): (Result<int, Exception>, GradoState)
  {
    if dto.id.None? then (Err(NullId), st)
    else if dto.id.value !in st.grados then (Err(EntityNotFound(UpdateNotFoundPrefix + IntToString(dto.id.value))), st)
    else
      var existing := st.grados[dto.id.value];
      if dto.profesor.Some? && existing.profesor.None? then (Err(NullTeacher), st)
      else if dto.profesor.Some? && dto.profesor != existing.profesor
              && TeacherLoad(st.grados, dto.profesor.value) >= MaxGradosPorProfesor then
        (Err(EntityNotFound(MaxLoadMessage)), st)
      else (Ok(dto.id.value), st.(grados := st.grados[dto.id.value := Updated(existing, dto)]))
  }

  /** `update(dto)` as intended: giving a teacher to a grade without one is a change
      of teacher, checked against the load limit like any other. */
  function UpdateGrado(st: GradoState, dto: GradoRequest): (Result<int, Exception>, GradoState)
  {
    if dto.id.None? then (Err(NullId), st)
    else if dto.id.value !in st.grados then (Err(EntityNotFound(UpdateNotFoundPrefix + IntToString(dto.id.value))), st)
    else
      var existing := st.grados[dto.id.value];
      if dto.profesor.Some? && dto.profesor != existing.profesor
         && TeacherLoad(st.grados, dto.profesor.value) >= MaxGradosPorProfesor then
        (Err(EntityNotFound(MaxLoadMessage)), st)
      else (Ok(dto.id.value), st.(grados := st.grados[dto.id.value := Updated(existing, dto)]))
  }

  /** As written, assigning a teacher to a grade that has none fails. */
  lemma AssignToTeacherlessFailsAsWritten()
    ensures var st := GradoState(map[1 := GradoRow(Some("A1"), Some("PRIMERO"), Some("MANANA"), Some("MATEMATICA"), 0, None, [])], {7}, 2);
      var dto := GradoRequest(Some(1), Some("A1"), Some("PRIMERO"), Some("MANANA"), Some("MATEMATICA"), Some(7));
      UpdateGradoAsWritten(st, dto) == (Err(NullTeacher), st)
      && UpdateGrado(st, dto).0 == Ok(1) && UpdateGrado(st, dto).1.grados[1].profesor == Some(7)
  {
    var st := GradoState(map[1 := GradoRow(Some("A1"), Some("PRIMERO"), Some("MANANA"), Some("MATEMATICA"), 0, None, [])], {7}, 2);
    assert (set g | g in st.grados && st.grados[g].profesor == Some(7)) == {};
  }

  /** The two agree wherever the grade already has a teacher or none is given. */
  lemma UpdateAgreesOutsideTheFinding(st: GradoState, dto: GradoRequest)
    requires !(dto.id.Some? && dto.id.value in st.grados && dto.profesor.Some? && st.grados[dto.id.value].profesor.None?)
    ensures UpdateGradoAsWritten(st, dto) == UpdateGrado(st, dto)
  {
  }

  /** An accepted update changes that grade only, as `Updated` says; a failed one
      changes nothing. */
  lemma UpdateEffect(st: GradoState, dto: GradoRequest)
    ensures var (r, st1) := UpdateGrado(st, dto);
      r.Err? ==> st1 == st
    ensures var (r, st1) := UpdateGrado(st, dto);
      r.Ok? ==>
        dto.id == Some(r.value) && r.value in st.grados
        && st1 == st.(grados := st.grados[r.value := Updated(st.grados[r.value], dto)])
  {
  }

  /** `Updated` copies exactly the four columns and a non-null teacher. */
  lemma UpdatedFields(existing: GradoRow, dto: GradoRequest)
    ensures var u := Updated(existing, dto);
      u.aula == dto.aula && u.curso == dto.curso && u.turno == dto.turno && u.materia == dto.materia
      && u.contador == existing.contador && u.estudiantes == existing.estudiantes
      && (dto.profesor.None? ==> u.profesor == existing.profesor)
      && (dto.profesor.Some? ==> u.profesor == dto.profesor)
  {
  }

  /** Every teacher holds at most the limit. */
  ghost predicate LoadBounded(grados: map<int, GradoRow>)
  {
    forall p :: TeacherLoad(grados, p) <= MaxGradosPorProfesor
  }

  /** Rewriting one grade adds that grade to its new teacher's set and takes it out
      of every other teacher's. */
  lemma {:induction false} LoadAfterRewrite(grados: map<int, GradoRow>, g: int, row: GradoRow, p: int)
    requires g in grados
    ensures row.profesor == Some(p) && grados[g].profesor != Some(p) ==>
      TeacherLoad(grados[g := row], p) == TeacherLoad(grados, p) + 1
    ensures !(row.profesor == Some(p) && grados[g].profesor != Some(p)) ==>
      TeacherLoad(grados[g := row], p) <= TeacherLoad(grados, p)
  {
    var before := set h | h in grados && grados[h].profesor == Some(p);
    var m := grados[g := row];
    var after := set h | h in m && m[h].profesor == Some(p);
    if row.profesor == Some(p) && grados[g].profesor != Some(p) {
      assert after == before + {g};
      assert g !in before;
    } else if row.profesor == Some(p) {
      assert after == before;
    } else {
      assert after == before - {g};
      assert after <= before;
    }
  }

  /** The load limit, once it holds, is kept by every accepted update: a teacher
      given a new grade held fewer than the limit before. */
  lemma UpdateKeepsLoadBounded(st: GradoState, dto: GradoRequest)
    requires LoadBounded(st.grados)
    ensures LoadBounded(UpdateGrado(st, dto).1.grados)
  {
    var (r, st1) := UpdateGrado(st, dto);
    if r.Ok? {
      var g := r.value;
      var row := Updated(st.grados[g], dto);
      forall p
        ensures TeacherLoad(st1.grados, p) <= MaxGradosPorProfesor
      {
        LoadAfterRewrite(st.grados, g, row, p);
      }
    }
  }

  // ---------------------------------------------------------------------------
  // hasActiveAssociations, findById, deleteById

  /** `hasActiveAssociations(id)`. */
  function HasActiveAssociations(st: GradoState, id: int): (b: bool)
    ensures b <==> id in st.grados && (st.grados[id].estudiantes != [] || st.grados[id].profesor.Some?)
  {
    match Lookup(st, id)
    case None => false
    case Some(g) => g.estudiantes != [] || g.profesor.Some?
  }

  function Lookup(st: GradoState, id: int): Option<GradoRow>
  {
    if id in st.grados then Some(st.grados[id]) else None
  }

  /** `findById(id)`: the stored grade, or the error for an unknown id. */
  function FindById(st: GradoState, id: int): (r: Result<GradoRow, Exception>)
    ensures r.Ok? <==> id in st.grados
    ensures r.Ok? ==> r.value == st.grados[id]
    ensures r.Err? ==> r.error == EntityNotFound(GradoNotFound)
  {
    if id in st.grados then Ok(st.grados[id]) else Err(EntityNotFound(GradoNotFound))
  }

  /** `deleteById(id)`. */
  function Deletion(st: GradoState, id: int): (Result<(), Exception>, GradoState)
  {
    if id !in st.grados then (Err(EntityNotFound(GradoNotFound)), st)
    else (Ok(()), st.(grados := st.grados - {id}))
  }

  /** An unknown id is an error and deletes nothing; a known one removes exactly
      that grade. */
  lemma DeleteCases(st: GradoState, id: int)
    ensures id !in st.grados ==> Deletion(st, id) == (Err(EntityNotFound(GradoNotFound)), st)
    ensures id in st.grados ==>
      Deletion(st, id).0.Ok?
      && Deletion(st, id).1.grados.Keys == st.grados.Keys - {id}
      && forall g :: g in Deletion(st, id).1.grados ==> Deletion(st, id).1.grados[g] == st.grados[g]
    ensures FindById(Deletion(st, id).1, id).Err?
  {
  }

  // ---------------------------------------------------------------------------
  // The service object

  class GradoServiceImp {
    var grados: map<int, GradoRow>
    var profesores: set<int>
    var nextId: int

    function State(): GradoState
      reads this
    {
      GradoState(grados, profesores, nextId)
    }

    constructor (st: GradoState)
      ensures State() == st
    {
      grados := st.grados;
      profesores := st.profesores;
      nextId := st.nextId;
    }

    /** `validateGradoData`: the messages are added to a list one check at a time. */
    static method ValidateGradoData(dto: GradoRequest, clash: bool) returns (failure: Option<Exception>)
      ensures failure == ValidationFailure(dto, clash)
    {
      var errors: seq<string> := [];
      if dto.aula.None? {
        errors := errors + [AulaRequerida];
      }
      if dto.curso.None? {
        errors := errors + [CursoRequerido];
      }
      if dto.turno.None? {
        errors := errors + [TurnoRequerido];
      }
      if dto.materia.None? {
        errors := errors + [MateriaRequerida];
      }
      if clash {
        errors := errors + [AulaTurnoTaken];
      }
      assert errors == ValidationErrors(dto, clash);
      if errors != [] {
        return Some(ForbiddenEx(ValidationPrefix + Join(errors, ", ")));
      }
      return None;
    }

    /** `createGrado(dto)`, with the aula and turno check as intended. */
    method CreateGrado(dto: GradoRequest) returns (r: Result<int, Exception>)
      modifies this
      ensures (r, State()) == Creation(old(State()), dto)
    {
      if exists g :: g in grados && grados[g].curso == dto.curso && grados[g].aula == dto.aula && grados[g].turno == dto.turno {
        return Err(EntityNotFound(AulaTurnoTaken));
      }
      var clash := exists g :: g in grados && grados[g].aula == dto.aula && grados[g].turno == dto.turno;
      var failure := ValidateGradoData(dto, clash);
      if failure.Some? {
        return Err(failure.value);
      }
      if dto.profesor.None? {
        return Err(NullId);
      }
      var profesor := if dto.profesor.value in profesores then dto.profesor else None;
      var grado := new Grado(nextId, dto.aula, dto.curso, dto.turno, dto.materia, profesor);
      grados := grados[nextId := grado.Row()];
      r := Ok(nextId);
      nextId := nextId + 1;
    }

    /** `update(dto)`, with a first teacher checked like a change of teacher. */
    method Update(dto: GradoRequest) returns (r: Result<int, Exception>)
      modifies this
      ensures (r, State()) == UpdateGrado(old(State()), dto)
    {
      if dto.id.None? {
        return Err(NullId);
      }
      var id := dto.id.value;
      if id !in grados {
        return Err(EntityNotFound(UpdateNotFoundPrefix + IntToString(id)));
      }
      var existing := new Grado.Load(id, grados[id]);
      if dto.profesor.Some? && dto.profesor != existing.profesor {
        var load := TeacherLoad(grados, dto.profesor.value);
        if load >= MaxGradosPorProfesor {
          return Err(EntityNotFound(MaxLoadMessage));
        }
      }
      existing.aula := dto.aula;
      existing.curso := dto.curso;
      existing.turno := dto.turno;
      existing.materia := dto.materia;
      if dto.profesor.Some? {
        existing.profesor := dto.profesor;
      }
      grados := grados[id := existing.Row()];
      r := Ok(id);
    }

    /** `deleteById(id)`. */
    method DeleteById(id: int) returns (r: Result<(), Exception>)
      modifies this
      ensures (r, State()) == Deletion(old(State()), id)
    {
      if id !in grados {
        return Err(EntityNotFound(GradoNotFound));
      }
      grados := grados - {id};
      r := Ok(());
    }
  }
}
