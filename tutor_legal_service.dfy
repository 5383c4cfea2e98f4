// TutorLegalServiceImpl: creating a legal tutor and linking students to it,
// updating a tutor and re-linking its students, deleting a tutor, and the
// attendance lookup for a tutor. Both saves run in one transaction: a call that
// throws leaves the repositories as they were.

module TutorLegalService {
  import opened Wrappers
  import opened JavaText
  import opened Exceptions
  import opened SchoolEntities
  import AsistenciaService

  /** The tutor repository, the student repository, and the identity the next
      saved user receives. */
  datatype TutorState = TutorState(
    tutors: map<int, PersonRow>,
    estudiantes: map<int, EstudianteRow>,
    nextId: int)

  /** Every stored tutor has an identity below `nextId`. */
  predicate Valid(st: TutorState)
  {
    forall k :: k in st.tutors ==> k < st.nextId
  }

  /** `TutorLegalRequestDTO`: the fields the service reads. `estudiante` is the
      list of student ids, None for null. */
  datatype TutorRequest = TutorRequest(
    id: Option<int>,
    email: Option<string>,
    dni: Option<string>,
    contrasena: Option<string>,
    estudiante: Option<seq<int>>)

  const TutorNotFound: string := "Tutor legal no encontrado"
  const DniTaken: string := "Ya existe un tutor con el DNI proporcionado"
  const EmailTaken: string := "Ya existe un tutor con el email proporcionado"
  const StudentsNotFound: string := "Uno o más estudiantes no fueron encontrados"
  const UpdateWrapPrefix: string := "Error al actualizar los estudiantes: "

  /** BCrypt refuses to encode a null password. */
  const NullRawPassword: Exception := IllegalArgument(Some("rawPassword cannot be null"))

  /** `String.format("El estudiante con ID %d ya tiene asignado el tutor con ID %d", ...)`. */
  function AlreadyTutored(estudianteId: int, tutorId: int): string
  {
    "El estudiante con ID " + IntToString(estudianteId) + " ya tiene asignado el tutor con ID " + IntToString(tutorId)
  }

  // ---------------------------------------------------------------------------
  // findAllById and the size check

  predicate Distinct(ids: seq<int>)
  {
    forall i, j :: 0 <= i < j < |ids| ==> ids[i] != ids[j]
  }

  /** The students `findAllById(ids)` returns: each stored one at most once. */
  function Found(estudiantes: map<int, EstudianteRow>, ids: seq<int>): set<int>
  {
    set i | i in ids && i in estudiantes
  }

  /** `estudiantes.size() == ids.size()`. */
  predicate AllFound(estudiantes: map<int, EstudianteRow>, ids: seq<int>)
  {
    |Found(estudiantes, ids)| == |ids|
  }

  lemma FoundCons(estudiantes: map<int, EstudianteRow>, ids: seq<int>)
    requires ids != []
    ensures Found(estudiantes, ids)
      == Found(estudiantes, ids[1..]) + (if ids[0] in estudiantes then {ids[0]} else {})
  {
    assert forall x :: x in ids <==> x == ids[0] || x in ids[1..];
  }

  /** Distinct after the head, and the head not repeated, is distinct. */
  lemma DistinctCons(ids: seq<int>)
    requires ids != []
    ensures Distinct(ids) <==> Distinct(ids[1..]) && ids[0] !in ids[1..]
  {
    var rest := ids[1..];
    assert forall j :: 1 <= j < |ids| ==> ids[j] == rest[j - 1];
    if Distinct(rest) && ids[0] !in rest {
      forall i, j | 0 <= i < j < |ids|
        ensures ids[i] != ids[j]
      {
        if i > 0 {
          assert rest[i - 1] != rest[j - 1];
        } else {
          assert rest[j - 1] in rest;
        }
      }
    }
    if ids[0] in rest {
      var j :| 0 <= j < |rest| && rest[j] == ids[0];
      assert ids[0] == ids[j + 1];
    }
  }

  /** The size check passes exactly when every id is stored and none repeats. */
  lemma {:induction false} AllFoundIff(estudiantes: map<int, EstudianteRow>, ids: seq<int>)
    ensures |Found(estudiantes, ids)| <= |ids|
    ensures AllFound(estudiantes, ids) <==> Distinct(ids) && forall i :: 0 <= i < |ids| ==> ids[i] in estudiantes
    decreases |ids|
  {
    if ids == [] {
      assert Found(estudiantes, ids) == {};
    } else {
      var rest := ids[1..];
      AllFoundIff(estudiantes, rest);
      FoundCons(estudiantes, ids);
      DistinctCons(ids);
      assert forall j :: 1 <= j < |ids| ==> ids[j] == rest[j - 1];
      var fr := Found(estudiantes, rest);
      if ids[0] in estudiantes && ids[0] !in rest {
        assert ids[0] !in fr;
        assert |Found(estudiantes, ids)| == |fr| + 1;
      } else {
        if ids[0] in estudiantes {
          assert ids[0] in fr;
        }
        assert Found(estudiantes, ids) == fr;
      }
    }
  }

  // ---------------------------------------------------------------------------
  // Linking

  /** A student the loop refuses: it has a tutor other than the one `allowed`
      (`save` allows none, `update` allows the tutor being updated). */
  predicate Blocked(e: EstudianteRow, allowed: Option<int>)
  {
    e.tutor.Some? && e.tutor != allowed
  }

  /** The linking loop over `ids`: each student is checked and then given tutor
      `tutorId`; the first refused student ends it with its id and tutor. */
  function LinkAll(m: map<int, EstudianteRow>, ids: seq<int>, tutorId: int, allowed: Option<int>)
    : (r: Result<map<int, EstudianteRow>, (int, int)>)
    requires forall i :: 0 <= i < |ids| ==> ids[i] in m
    ensures r.Ok? ==> r.value.Keys == m.Keys
    decreases |ids|
  {
    if ids == [] then Ok(m)
    else
      var r := LinkAll(m, ids[..|ids| - 1], tutorId, allowed);
      var s := ids[|ids| - 1];
      if r.Err? then r
      else if Blocked(r.value[s], allowed) then Err((s, r.value[s].tutor.value))
      else Ok(r.value[s := r.value[s].(tutor := Some(tutorId))])
  }

  /** Reference definition: every listed student has tutor `tutorId`, the others
      are as they were. */
  function Linked(m: map<int, EstudianteRow>, ids: seq<int>, tutorId: int): map<int, EstudianteRow>
  {
    map s | s in m :: if s in ids then m[s].(tutor := Some(tutorId)) else m[s]
  }

  /** `desvincularEstudiantesAnteriores`: the tutor's students missing from the
      new list lose their tutor. */
  function Unlinked(m: map<int, EstudianteRow>, ids: seq<int>, tutorId: int): map<int, EstudianteRow>
  {
    map s | s in m :: if m[s].tutor == Some(tutorId) && s !in ids then m[s].(tutor := None) else m[s]
  }

  /** One more student the loop accepts, after a prefix that yielded `Linked`,
      yields `Linked` of the whole list. */
  lemma {:induction false} LinkStepAccepts(m: map<int, EstudianteRow>, ids: seq<int>, tutorId: int, allowed: Option<int>)
    requires ids != [] && Distinct(ids)
    requires forall i :: 0 <= i < |ids| ==> ids[i] in m
    requires !Blocked(m[ids[|ids| - 1]], allowed)
    requires LinkAll(m, ids[..|ids| - 1], tutorId, allowed) == Ok(Linked(m, ids[..|ids| - 1], tutorId))
    ensures LinkAll(m, ids, tutorId, allowed) == Ok(Linked(m, ids, tutorId))
  {
    var init := ids[..|ids| - 1];
    var s := ids[|ids| - 1];
    assert s !in init by {
      forall i | 0 <= i < |init| ensures init[i] != s {
        assert init[i] == ids[i];
      }
    }
    assert forall x :: x in ids <==> x in init || x == s by {
      assert ids == init + [s];
    }
    var l := Linked(m, init, tutorId);
    assert l[s] == m[s];
    var lhs := l[s := m[s].(tutor := Some(tutorId))];
    var rhs := Linked(m, ids, tutorId);
    assert lhs.Keys == rhs.Keys;
    forall k | k in rhs
      ensures lhs[k] == rhs[k]
    {
      if k != s {
        assert k in ids <==> k in init;
      }
    }
    assert lhs == rhs;
    assert LinkAll(m, ids, tutorId, allowed) == Ok(lhs);
  }

  /** For distinct stored ids, the loop gets through exactly when no student is
      refused; it then yields `Linked`, and otherwise reports the first refused
      student with its tutor. */
  lemma {:induction false} LinkAllOutcome(m: map<int, EstudianteRow>, ids: seq<int>, tutorId: int, allowed: Option<int>)
    requires Distinct(ids)
    requires forall i :: 0 <= i < |ids| ==> ids[i] in m
    ensures LinkAll(m, ids, tutorId, allowed).Ok? <==> forall i :: 0 <= i < |ids| ==> !Blocked(m[ids[i]], allowed)
    ensures LinkAll(m, ids, tutorId, allowed).Ok? ==> LinkAll(m, ids, tutorId, allowed).value == Linked(m, ids, tutorId)
    ensures LinkAll(m, ids, tutorId, allowed).Err? ==>
      exists i :: 0 <= i < |ids| && Blocked(m[ids[i]], allowed)
        && (forall j :: 0 <= j < i ==> !Blocked(m[ids[j]], allowed))
        && LinkAll(m, ids, tutorId, allowed).error == (ids[i], m[ids[i]].tutor.value)
    decreases |ids|
  {
    if ids != [] {
      var init := ids[..|ids| - 1];
      var n := |ids| - 1;
      assert forall i :: 0 <= i < |init| ==> init[i] == ids[i];
      assert Distinct(init) by {
        forall i, j | 0 <= i < j < |init| ensures init[i] != init[j] {
          assert ids[i] != ids[j];
        }
      }
      LinkAllOutcome(m, init, tutorId, allowed);
      var r := LinkAll(m, init, tutorId, allowed);
      if r.Err? {
        var i :| 0 <= i < |init| && Blocked(m[init[i]], allowed)
          && (forall j :: 0 <= j < i ==> !Blocked(m[init[j]], allowed))
          && r.error == (init[i], m[init[i]].tutor.value);
        assert ids[i] == init[i];
      } else if !Blocked(m[ids[n]], allowed) {
        LinkStepAccepts(m, ids, tutorId, allowed);
      } else {
        assert r.value[ids[n]] == m[ids[n]] by {
          assert ids[n] !in init by {
            forall i | 0 <= i < |init| ensures init[i] != ids[n] {
              assert ids[i] != ids[n];
            }
          }
        }
      }
    }
  }

  /** Unlinking leaves the listed students as they were. */
  lemma UnlinkedKeepsListed(m: map<int, EstudianteRow>, ids: seq<int>, tutorId: int)
    ensures Unlinked(m, ids, tutorId).Keys == m.Keys
    ensures forall i :: 0 <= i < |ids| && ids[i] in m ==> Unlinked(m, ids, tutorId)[ids[i]] == m[ids[i]]
  {
  }

  // ---------------------------------------------------------------------------
  // save

  /** `validateUniqueFields`, DNI half: `existsByDni` is a derived query, and a
      derived query on a null argument matches a null column, so the comparison
      is on the optional values. */
  predicate DniRegistered(st: TutorState, dni: Option<string>)
  {
    exists t :: t in st.tutors && st.tutors[t].dni == dni
  }

  /** `validateUniqueFields`, e-mail half: `findByEmail` is a JPQL query with
      `t.email = :email`, and `=` against a null parameter is never true, so a
      null e-mail is never registered. */
  predicate EmailRegistered(st: TutorState, email: Option<string>)
  {
    email.Some? && exists t :: t in st.tutors && st.tutors[t].email == email
  }

  /** The tutor `save` stores: the request's e-mail and DNI, the hashed password,
      the tutor role, active. */
  function NewTutor(dto: TutorRequest, password: string): PersonRow
  {
    PersonRow(dto.email, dto.dni, Some(Hashed(password)), Some(RoleTutor), true, None)
  }

  /** A non-null, non-empty student list. */
  predicate HasStudents(ids: Option<seq<int>>)
  {
    ids.Some? && ids.value != []
  }

  /** `save(dto)`: the outcome (the new tutor's id) and the repositories after the
      transaction. */
  function SaveTutor(st: TutorState, dto: TutorRequest): (Result<int, Exception>, TutorState)
  {
    if DniRegistered(st, dto.dni) then (Err(DniDuplicadoException(DniTaken)), st)
    else if EmailRegistered(st, dto.email) then (Err(DniDuplicadoException(EmailTaken)), st)
    else if ValidarPassword(dto.contrasena).Some? then (Err(ValidarPassword(dto.contrasena).value), st)
    else if dto.contrasena.None? then (Err(NullRawPassword), st)
    else
      var id := st.nextId;
      var st1 := st.(tutors := st.tutors[id := NewTutor(dto, dto.contrasena.value)], nextId := id + 1);
      if !HasStudents(dto.estudiante) then (Ok(id), st1)
      else
        var ids := dto.estudiante.value;
        AllFoundIff(st.estudiantes, ids);
        if !AllFound(st.estudiantes, ids) then (Err(DniDuplicadoException(StudentsNotFound)), st)
        else
          var linked := LinkAll(st.estudiantes, ids, id, None);
          if linked.Err? then (Err(DniDuplicadoException(AlreadyTutored(linked.error.0, linked.error.1))), st)
          else (Ok(id), st1.(estudiantes := linked.value))
  }

  // ---------------------------------------------------------------------------
  // update

  /** `update(dto)`. `copied` is the tutor after `UpdatedEntities.update` has copied
      the request onto it, a reflective copy outside this model. */
  function UpdateTutor(st: TutorState, dto: TutorRequest, copied: PersonRow): (Result<int, Exception>, TutorState)
  {
    if dto.id.None? || dto.id.value !in st.tutors then (Err(EntityNotFound(TutorNotFound)), st)
    else if ValidarPassword(dto.contrasena).Some? then (Err(ValidarPassword(dto.contrasena).value), st)
    else
      var tid := dto.id.value;
      var row := if dto.contrasena.Some? then copied.(contrasena := Some(Hashed(dto.contrasena.value))) else copied;
      var st1 := st.(tutors := st.tutors[tid := row]);
      if !HasStudents(dto.estudiante) then (Ok(tid), st1)
      else
        var ids := dto.estudiante.value;
        AllFoundIff(st.estudiantes, ids);
        if !AllFound(st.estudiantes, ids) then (Err(EntityNotFound(UpdateWrapPrefix + StudentsNotFound)), st)
        else
          var unlinked := Unlinked(st.estudiantes, ids, tid);
          var linked := LinkAll(unlinked, ids, tid, Some(tid));
          if linked.Err? then
            (Err(EntityNotFound(UpdateWrapPrefix + AlreadyTutored(linked.error.0, linked.error.1))), st)
          else (Ok(tid), st1.(estudiantes := linked.value))
  }

  // ---------------------------------------------------------------------------
  // deleteById and findAsistenciasByEstudianteId

  /** `deleteById(id)`: the tutor is removed, and the removal cascades to the
      students linked to it. */
  function DeleteTutor(st: TutorState, id: int): (Result<(), Exception>, TutorState)
  {
    if id !in st.tutors then (Err(EntityNotFound(TutorNotFound)), st)
    else
      (Ok(()), st.(tutors := st.tutors - {id},
                   estudiantes := map s | s in st.estudiantes && st.estudiantes[s].tutor != Some(id) :: st.estudiantes[s]))
  }

  /** `findAsistenciasByEstudianteId(idTutor, gradoId)`. */
  function FindAsistencias(st: TutorState, asistencias: AsistenciaService.AsistenciaState, idTutor: int, gradoId: int)
    : (r: Result<set<int>, Exception>)
    ensures idTutor !in st.tutors ==> r == Err(EntityNotFound(TutorNotFound))
    ensures idTutor in st.tutors ==> r == AsistenciaService.ByGradeAndTutor(asistencias, idTutor, gradoId)
    ensures r.Ok? ==> forall k :: k in asistencias.asistencias ==>
      (k in r.value <==>
         (asistencias.asistencias[k].grado == gradoId
          && asistencias.asistencias[k].estudiante in asistencias.estudiantes
          && asistencias.estudiantes[asistencias.asistencias[k].estudiante].tutor == Some(idTutor)))
  {
    if idTutor !in st.tutors then Err(EntityNotFound(TutorNotFound))
    else AsistenciaService.ByGradeAndTutor(asistencias, idTutor, gradoId)
  }

  // ---------------------------------------------------------------------------
  // Properties of save

  /** The guards in order: DNI, then e-mail, then the password rule; each failure
      changes nothing. */
  lemma SaveGuards(st: TutorState, dto: TutorRequest)
    ensures DniRegistered(st, dto.dni) ==> SaveTutor(st, dto) == (Err(DniDuplicadoException(DniTaken)), st)
    ensures !DniRegistered(st, dto.dni) && EmailRegistered(st, dto.email) ==>
      SaveTutor(st, dto) == (Err(DniDuplicadoException(EmailTaken)), st)
    ensures !DniRegistered(st, dto.dni) && !EmailRegistered(st, dto.email)
            && dto.contrasena.Some? && |dto.contrasena.value| < MinPasswordLength ==>
      SaveTutor(st, dto) == (Err(ForbiddenEx(ShortPasswordMessage)), st)
    ensures SaveTutor(st, dto).0.Err? ==> SaveTutor(st, dto).1 == st
  {
  }

  /** `save` succeeds exactly when the DNI and e-mail are new, the password is
      given and long enough, and every listed student exists once and has no
      tutor. */
  lemma SaveAcceptedIff(st: TutorState, dto: TutorRequest)
    ensures SaveTutor(st, dto).0.Ok? <==>
      !DniRegistered(st, dto.dni) && !EmailRegistered(st, dto.email)
      && dto.contrasena.Some? && |dto.contrasena.value| >= MinPasswordLength
      && (HasStudents(dto.estudiante) ==>
            Distinct(dto.estudiante.value)
            && forall i :: 0 <= i < |dto.estudiante.value| ==>
                 dto.estudiante.value[i] in st.estudiantes && st.estudiantes[dto.estudiante.value[i]].tutor.None?)
  {
    if HasStudents(dto.estudiante) {
      var ids := dto.estudiante.value;
      AllFoundIff(st.estudiantes, ids);
      if AllFound(st.estudiantes, ids) {
        LinkAllOutcome(st.estudiantes, ids, st.nextId, None);
      }
    }
  }

  /** A saved tutor gets the next identity, is active with the tutor role and the
      hashed password; exactly the listed students now have it as their tutor,
      and every other student is as it was. */
  lemma SaveEffect(st: TutorState, dto: TutorRequest)
    requires Valid(st)
    requires SaveTutor(st, dto).0.Ok?
    ensures var (r, st1) := SaveTutor(st, dto);
      r.value == st.nextId && st.nextId !in st.tutors
      && st1.tutors == st.tutors[st.nextId := st1.tutors[st.nextId]]
      && st1.tutors[st.nextId].rol == Some(RoleTutor) && st1.tutors[st.nextId].activo
      && st1.tutors[st.nextId].contrasena == Some(Hashed(dto.contrasena.value))
      && Valid(st1)
      && st1.estudiantes.Keys == st.estudiantes.Keys
      && (forall s :: s in st.estudiantes ==>
            st1.estudiantes[s] == if HasStudents(dto.estudiante) && s in dto.estudiante.value
                                  then st.estudiantes[s].(tutor := Some(st.nextId))
                                  else st.estudiantes[s])
  {
    if HasStudents(dto.estudiante) {
      var ids := dto.estudiante.value;
      AllFoundIff(st.estudiantes, ids);
      LinkAllOutcome(st.estudiantes, ids, st.nextId, None);
    }
  }

  /** Saving the same DNI twice is refused the second time. */
  lemma SecondSaveRejected(st: TutorState, dto: TutorRequest, again: TutorRequest)
    requires SaveTutor(st, dto).0.Ok? && again.dni == dto.dni
    ensures var st1 := SaveTutor(st, dto).1;
      SaveTutor(st1, again) == (Err(DniDuplicadoException(DniTaken)), st1)
  {
    var st1 := SaveTutor(st, dto).1;
    assert st1.tutors[st.nextId].dni == dto.dni;
  }

  // ---------------------------------------------------------------------------
  // Properties of update

  /** An unknown tutor fails every lookup: update, delete and the attendance query. */
  lemma UnknownTutor(st: TutorState, dto: TutorRequest, copied: PersonRow, id: int,
                     asistencias: AsistenciaService.AsistenciaState, gradoId: int)
    requires id !in st.tutors
    ensures dto.id == Some(id) ==> UpdateTutor(st, dto, copied) == (Err(EntityNotFound(TutorNotFound)), st)
    ensures DeleteTutor(st, id) == (Err(EntityNotFound(TutorNotFound)), st)
    ensures FindAsistencias(st, asistencias, id, gradoId) == Err(EntityNotFound(TutorNotFound))
  {
  }

  /** A null or empty student list leaves every link as it was. */
  lemma UpdateWithoutStudentsKeepsLinks(st: TutorState, dto: TutorRequest, copied: PersonRow)
    requires !HasStudents(dto.estudiante)
    ensures UpdateTutor(st, dto, copied).1.estudiantes == st.estudiantes
  {
  }

  /** With a non-empty list of distinct stored students, `update` succeeds exactly
      when none of them has another tutor; then the tutor's students are exactly
      the listed ones, and students of other tutors or of none are untouched. */
  lemma UpdateRelinks(st: TutorState, dto: TutorRequest, copied: PersonRow)
    requires dto.id.Some? && dto.id.value in st.tutors
    requires ValidarPassword(dto.contrasena).None?
    requires HasStudents(dto.estudiante)
    requires Distinct(dto.estudiante.value)
    requires forall i :: 0 <= i < |dto.estudiante.value| ==> dto.estudiante.value[i] in st.estudiantes
    ensures var tid := dto.id.value;
      var ids := dto.estudiante.value;
      UpdateTutor(st, dto, copied).0.Ok? <==>
        forall i :: 0 <= i < |ids| ==> st.estudiantes[ids[i]].tutor in {None, Some(tid)}
    ensures var tid := dto.id.value;
      var ids := dto.estudiante.value;
      var (r, st1) := UpdateTutor(st, dto, copied);
      r.Ok? ==>
        st1.estudiantes.Keys == st.estudiantes.Keys
        && (forall s :: s in st1.estudiantes ==> (st1.estudiantes[s].tutor == Some(tid) <==> s in ids))
        && (forall s :: s in st.estudiantes && s !in ids && st.estudiantes[s].tutor != Some(tid) ==>
              st1.estudiantes[s] == st.estudiantes[s])
        && (forall s :: s in st.estudiantes ==>
              st1.estudiantes[s] == st.estudiantes[s].(tutor := st1.estudiantes[s].tutor))
  {
    var tid := dto.id.value;
    var ids := dto.estudiante.value;
    AllFoundIff(st.estudiantes, ids);
    var unlinked := Unlinked(st.estudiantes, ids, tid);
    UnlinkedKeepsListed(st.estudiantes, ids, tid);
    LinkAllOutcome(unlinked, ids, tid, Some(tid));
    assert forall i :: 0 <= i < |ids| ==> unlinked[ids[i]] == st.estudiantes[ids[i]];
  }

  /** A student linked to another tutor is refused by name. */
  lemma UpdateRefusesOtherTutor(st: TutorState, dto: TutorRequest, copied: PersonRow, k: nat)
    requires dto.id.Some? && dto.id.value in st.tutors
    requires ValidarPassword(dto.contrasena).None?
    requires HasStudents(dto.estudiante) && AllFound(st.estudiantes, dto.estudiante.value)
    requires k < |dto.estudiante.value|
    requires dto.estudiante.value[k] in st.estudiantes
    requires Blocked(st.estudiantes[dto.estudiante.value[k]], dto.id)
    ensures var (r, st1) := UpdateTutor(st, dto, copied);
      st1 == st && r.Err? && r.error.EntityNotFound? && StartsWith(r.error.msg, UpdateWrapPrefix)
  {
    var tid := dto.id.value;
    var ids := dto.estudiante.value;
    AllFoundIff(st.estudiantes, ids);
    var unlinked := Unlinked(st.estudiantes, ids, tid);
    UnlinkedKeepsListed(st.estudiantes, ids, tid);
    LinkAllOutcome(unlinked, ids, tid, Some(tid));
    assert Blocked(unlinked[ids[k]], Some(tid));
    var r := UpdateTutor(st, dto, copied).0;
    var tail := AlreadyTutored(LinkAll(unlinked, ids, tid, Some(tid)).error.0, LinkAll(unlinked, ids, tid, Some(tid)).error.1);
    assert r.error.msg == UpdateWrapPrefix + tail;
    assert (UpdateWrapPrefix + tail)[..|UpdateWrapPrefix|] == UpdateWrapPrefix;
  }

  /** Deleting a tutor removes it and its students, and nothing else. */
  lemma DeleteEffect(st: TutorState, id: int)
    requires id in st.tutors
    ensures var (r, st1) := DeleteTutor(st, id);
      r.Ok? && st1.tutors.Keys == st.tutors.Keys - {id}
      && (forall t :: t in st1.tutors ==> st1.tutors[t] == st.tutors[t])
      && (forall s :: s in st1.estudiantes <==> s in st.estudiantes && st.estudiantes[s].tutor != Some(id))
      && (forall s :: s in st1.estudiantes ==> st1.estudiantes[s] == st.estudiantes[s])
  {
  }

  // ---------------------------------------------------------------------------
  // The service object

  class TutorLegalServiceImpl {
    var tutors: map<int, PersonRow>
    var estudiantes: map<int, EstudianteRow>
    var nextId: int

    function State(): TutorState
      reads this
    {
      TutorState(tutors, estudiantes, nextId)
    }

    constructor (st: TutorState)
      ensures State() == st
    {
      tutors := st.tutors;
      estudiantes := st.estudiantes;
      nextId := st.nextId;
    }

    /** The loop of `save` and of `vincularNuevosEstudiantes`: check each listed
        student, then give it the tutor. */
    static method Vincular(m: map<int, EstudianteRow>, ids: seq<int>, tutorId: int, allowed: Option<int>)
      returns (r: Result<map<int, EstudianteRow>, (int, int)>)
      requires forall i :: 0 <= i < |ids| ==> ids[i] in m
      ensures r == LinkAll(m, ids, tutorId, allowed)
    {
      var acc := m;
      var i := 0;
      while i < |ids|
        invariant 0 <= i <= |ids|
        invariant LinkAll(m, ids[..i], tutorId, allowed) == Ok(acc)
      {
        assert ids[..i + 1][..i] == ids[..i];
        var s := ids[i];
        if Blocked(acc[s], allowed) {
          LinkErrStays(m, ids, tutorId, allowed, i + 1);
          return Err((s, acc[s].tutor.value));
        }
        acc := acc[s := acc[s].(tutor := Some(tutorId))];
        i := i + 1;
      }
      assert ids[..i] == ids;
      r := Ok(acc);
    }

    /** `save(dto)`. */
    method Save(dto: TutorRequest) returns (r: Result<int, Exception>)
      modifies this
      ensures (r, State()) == SaveTutor(old(State()), dto)
    {
      if exists t :: t in tutors && tutors[t].dni == dto.dni {
        return Err(DniDuplicadoException(DniTaken));
      }
      if dto.email.Some? && exists t :: t in tutors && tutors[t].email == dto.email {
        return Err(DniDuplicadoException(EmailTaken));
      }
      var invalid := ValidarPassword(dto.contrasena);
      if invalid.Some? {
        return Err(invalid.value);
      }
      if dto.contrasena.None? {
        return Err(NullRawPassword);
      }
      var id := nextId;
      var tutor := NewTutor(dto, dto.contrasena.value);
      if HasStudents(dto.estudiante) {
        var ids := dto.estudiante.value;
        AllFoundIff(estudiantes, ids);
        if |Found(estudiantes, ids)| != |ids| {
          return Err(DniDuplicadoException(StudentsNotFound));
        }
        var linked := Vincular(estudiantes, ids, id, None);
        if linked.Err? {
          return Err(DniDuplicadoException(AlreadyTutored(linked.error.0, linked.error.1)));
        }
        estudiantes := linked.value;
      }
      tutors := tutors[id := tutor];
      nextId := id + 1;
      r := Ok(id);
    }

    /** `update(dto)`, with `copied` the tutor after the reflective copy. */
    method Update(dto: TutorRequest, copied: PersonRow) returns (r: Result<int, Exception>)
      modifies this
      ensures (r, State()) == UpdateTutor(old(State()), dto, copied)
    {
      if dto.id.None? || dto.id.value !in tutors {
        return Err(EntityNotFound(TutorNotFound));
      }
      var invalid := ValidarPassword(dto.contrasena);
      if invalid.Some? {
        return Err(invalid.value);
      }
      var tid := dto.id.value;
      var row := copied;
      if dto.contrasena.Some? {
        row := row.(contrasena := Some(Hashed(dto.contrasena.value)));
      }
      if HasStudents(dto.estudiante) {
        var ids := dto.estudiante.value;
        AllFoundIff(estudiantes, ids);
        if |Found(estudiantes, ids)| != |ids| {
          return Err(EntityNotFound(UpdateWrapPrefix + StudentsNotFound));
        }
        var unlinked := map s | s in estudiantes :: if estudiantes[s].tutor == Some(tid) && s !in ids
                                                    then estudiantes[s].(tutor := None) else estudiantes[s];
        var linked := Vincular(unlinked, ids, tid, Some(tid));
        if linked.Err? {
          return Err(EntityNotFound(UpdateWrapPrefix + AlreadyTutored(linked.error.0, linked.error.1)));
        }
        estudiantes := linked.value;
      }
      tutors := tutors[tid := row];
      r := Ok(tid);
    }

    /** `deleteById(id)`. */
    method DeleteById(id: int) returns (r: Result<(), Exception>)
      modifies this
      ensures (r, State()) == DeleteTutor(old(State()), id)
    {
      if id !in tutors {
        return Err(EntityNotFound(TutorNotFound));
      }
      estudiantes := map s | s in estudiantes && estudiantes[s].tutor != Some(id) :: estudiantes[s];
      tutors := tutors - {id};
      r := Ok(());
    }
  }

  /** Once a prefix of the list is refused, the whole loop is refused the same way. */
  lemma {:induction false} LinkErrStays(m: map<int, EstudianteRow>, ids: seq<int>, tutorId: int, allowed: Option<int>, i: nat)
    requires i <= |ids|
    requires forall j :: 0 <= j < |ids| ==> ids[j] in m
    requires LinkAll(m, ids[..i], tutorId, allowed).Err?
    ensures LinkAll(m, ids, tutorId, allowed) == LinkAll(m, ids[..i], tutorId, allowed)
    decreases |ids|
  {
    if i < |ids| {
      var init := ids[..|ids| - 1];
      assert init[..i] == ids[..i];
      LinkErrStays(m, init, tutorId, allowed, i);
    } else {
      assert ids[..i] == ids;
    }
  }
}
