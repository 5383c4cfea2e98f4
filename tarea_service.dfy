// TareaServiceImpl: creating a task, evaluating it, its soft delete, its lookup
// and its replacement by a request.

module TareaService {
  import opened Wrappers
  import opened Exceptions
  import opened Fecha

  /** A stored task. The delivery state is the name of an `EstadoEntregaEnum`
      constant, None for null; student and teacher are ids. */
  datatype TareaRow = TareaRow(
    descripcion: Option<string>,
    titulo: Option<string>,
    fechaEntrega: Option<LocalDate>,
    activo: bool,
    estadoDeEntrega: Option<string>,
    estudiante: Option<int>,
    profesor: Option<int>)

  /** `TareaResponseDto`, used both as request and as response. */
  datatype TareaDto = TareaDto(
    id: Option<int>,
    descripcion: Option<string>,
    titulo: Option<string>,
    fechaEntrega: Option<LocalDate>,
    activo: bool,
    estadoDeEntrega: Option<string>,
    profesor: Option<int>,
    estudiante: Option<int>)

  datatype TareaState = TareaState(tareas: map<int, TareaRow>, nextId: int)

  predicate Valid(st: TareaState)
  {
    forall k :: k in st.tareas ==> k < st.nextId
  }

  const Pendiente: string := "PENDIENTE"
  const EmptyTask: Exception := EntityNotFound("La tarea no puede estar vacía")
  const IncompleteTask: Exception := EntityNotFound("La tarea debe contener todos los campos")
  const MissingTask: Exception := EntityNotFound("Tarea no existente")
  const NotFound: Exception := EntityNotFound("Tarea no encontrada")
  const NotFoundOnEvaluation: Exception := EntityNotFound("tarea no encontrada")
  const NullId: Exception := IllegalArgument(Some("The given id must not be null"))
  /** The student and the teacher are attached as stubs carrying only the
      request's id; a stub with a null id is a transient entity, which the
      flush of `save` refuses for a relation without cascade. */
  const TransientReference: Exception := Other("TransientPropertyValueException", None)
  const EvaluatedPrefix: string := "Tarea evaluada con exito. Resultado: "

  /** The response for a stored task. */
  function ToResponse(id: int, t: TareaRow): TareaDto
  {
    TareaDto(Some(id), t.descripcion, t.titulo, t.fechaEntrega, t.activo, t.estadoDeEntrega, t.profesor, t.estudiante)
  }

  /** The entity a request maps to (its fields copied). */
  function ToEntity(dto: TareaDto): TareaRow
  {
    TareaRow(dto.descripcion, dto.titulo, dto.fechaEntrega, dto.activo, dto.estadoDeEntrega, dto.estudiante, dto.profesor)
  }

  // ---------------------------------------------------------------------------
  // save

  /** `save(dto)`: a null request fails, and so does one without a student or a
      teacher id; otherwise a new active, pending task with the request's
      description, title, date, student and teacher. */
  function Saved(st: TareaState, dto: Option<TareaDto>): (Result<TareaDto, Exception>, TareaState)
  {
    if dto.None? then (Err(EmptyTask), st)
    else if dto.value.estudiante.None? || dto.value.profesor.None? then (Err(TransientReference), st)
    else
      var d := dto.value;
      var row := TareaRow(d.descripcion, d.titulo, d.fechaEntrega, true, Some(Pendiente), d.estudiante, d.profesor);
      (Ok(ToResponse(st.nextId, row)), st.(tareas := st.tareas[st.nextId := row], nextId := st.nextId + 1))
  }

  /** A request without a student or a teacher is refused with nothing saved.
      Otherwise, whatever state and activity the request carries, the new task
      is active and pending, and the response describes the stored row. */
  lemma SaveCases(st: TareaState, dto: Option<TareaDto>)
    requires Valid(st)
    ensures var (r, st') := Saved(st, dto);
      (r.Err? <==> dto.None? || dto.value.estudiante.None? || dto.value.profesor.None?)
      && (dto.None? ==> r == Err(EmptyTask))
      && (dto.Some? && (dto.value.estudiante.None? || dto.value.profesor.None?) ==> r == Err(TransientReference))
      && (r.Err? ==> st' == st)
      && (r.Ok? ==> (r.value.id == Some(st.nextId) && st.nextId !in st.tareas
          && st'.tareas.Keys == st.tareas.Keys + {st.nextId}
          && st'.tareas[st.nextId].activo && st'.tareas[st.nextId].estadoDeEntrega == Some(Pendiente)
          && st'.tareas[st.nextId].titulo == dto.value.titulo
          && st'.tareas[st.nextId].estudiante == dto.value.estudiante
          && st'.tareas[st.nextId].profesor == dto.value.profesor
          && r.value == ToResponse(st.nextId, st'.tareas[st.nextId])
          && forall k :: k in st.tareas ==> st'.tareas[k] == st.tareas[k]))
      && Valid(st')
  {
  }

  // ---------------------------------------------------------------------------
  // findById and updateTarea

  /** `findById(id)`: an unknown task throws rather than giving an empty result. */
  function Lookup(st: TareaState, id: Option<int>): (r: Result<Option<TareaDto>, Exception>)
  {
    if id.None? then Err(NullId)
    else if id.value in st.tareas then Ok(Some(ToResponse(id.value, st.tareas[id.value])))
    else Err(NotFound)
  }

  /** The lookup never succeeds with an empty result. */
  lemma FindByIdNeverEmpty(st: TareaState, id: Option<int>)
    ensures Lookup(st, id).Ok? <==> id.Some? && id.value in st.tareas
    ensures Lookup(st, id).Ok? ==> Lookup(st, id).value.Some? && Lookup(st, id).value.value.id == id
    ensures id.Some? && id.value !in st.tareas ==> Lookup(st, id) == Err(NotFound)
  {
  }

  /** `updateTarea(dto)`: the request replaces the stored task. */
  function UpdatedTarea(st: TareaState, dto: Option<TareaDto>): (Result<(), Exception>, TareaState)
  {
    if dto.None? then (Err(IncompleteTask), st)
    else
      var response := Lookup(st, dto.value.id);
      if response.Err? then (Err(response.error), st)
      else if response.value.None? then (Err(MissingTask), st)
      else (Ok(()), st.(tareas := st.tareas[dto.value.id.value := ToEntity(dto.value)]))
  }

  /** An unknown task is reported by the lookup's own error, so the "Tarea no
      existente" error is never raised; a known one is replaced by the request. */
  lemma UpdateCases(st: TareaState, dto: Option<TareaDto>)
    ensures var (r, st') := UpdatedTarea(st, dto);
      r != Err(MissingTask)
      && (r.Err? ==> st' == st)
      && (dto.None? ==> r == Err(IncompleteTask))
      && (dto.Some? && dto.value.id.Some? && dto.value.id.value !in st.tareas ==> r == Err(NotFound))
      && (r.Ok? <==> dto.Some? && dto.value.id.Some? && dto.value.id.value in st.tareas)
      && (r.Ok? ==> st' == st.(tareas := st.tareas[dto.value.id.value := ToEntity(dto.value)]))
  {
    assert MissingTask != NotFound && MissingTask != NullId && MissingTask != IncompleteTask;
  }

  /** Replacing a task by its own response changes nothing. */
  lemma UpdateWithOwnResponse(st: TareaState, id: int)
    requires id in st.tareas
    ensures UpdatedTarea(st, Some(ToResponse(id, st.tareas[id]))) == (Ok(()), st)
  {
    assert st.tareas[id := ToEntity(ToResponse(id, st.tareas[id]))] == st.tareas;
  }

  // ---------------------------------------------------------------------------
  // deleteById and validarTarea

  /** `deleteById(id)`: the soft delete. */
  function Deleted(st: TareaState, id: int): (Result<(), Exception>, TareaState)
  {
    if id !in st.tareas then (Err(NotFound), st)
    else (Ok(()), st.(tareas := st.tareas[id := st.tareas[id].(activo := false)]))
  }

  /** Nothing is removed: the task stays, inactive, with its state unchanged. */
  lemma DeleteIsSoft(st: TareaState, id: int)
    ensures var (r, st') := Deleted(st, id);
      (r.Err? <==> id !in st.tareas) && (r.Err? ==> r.error == NotFound && st' == st)
      && st'.tareas.Keys == st.tareas.Keys
      && (r.Ok? ==> (!st'.tareas[id].activo
          && st'.tareas[id].estadoDeEntrega == st.tareas[id].estadoDeEntrega
          && st'.tareas[id].(activo := st.tareas[id].activo) == st.tareas[id]
          && forall k :: k in st.tareas && k != id ==> st'.tareas[k] == st.tareas[k]))
  {
  }

  /** Deleting twice is deleting once. */
  lemma {:induction false} DeleteTwice(st: TareaState, id: int)
    requires id in st.tareas
    ensures Deleted(Deleted(st, id).1, id) == Deleted(st, id)
  {
    var st1 := Deleted(st, id).1;
    assert st1.tareas[id := st1.tareas[id].(activo := false)] == st1.tareas;
  }

  /** The evaluation message; a null state prints as "null". */
  function EvaluationMessage(estado: Option<string>): string
  {
    EvaluatedPrefix + OrElse(estado, "null")
  }

  /** `validarTarea(id, estado)`. */
  function Validated(st: TareaState, id: int, estado: Option<string>): (Result<string, Exception>, TareaState)
  {
    if id !in st.tareas then (Err(NotFoundOnEvaluation), st)
    else
      (Ok(EvaluationMessage(estado)),
       st.(tareas := st.tareas[id := st.tareas[id].(estadoDeEntrega := estado, activo := false)]))
  }

  /** Evaluation records the state, closes the task, and reports the state; an
      unknown task fails with nothing changed. */
  lemma ValidarCases(st: TareaState, id: int, estado: Option<string>)
    ensures var (r, st') := Validated(st, id, estado);
      (r.Err? <==> id !in st.tareas) && (r.Err? ==> r.error == NotFoundOnEvaluation && st' == st)
      && (r.Ok? ==> (st'.tareas.Keys == st.tareas.Keys
          && st'.tareas[id].estadoDeEntrega == estado && !st'.tareas[id].activo
          && st'.tareas[id].titulo == st.tareas[id].titulo
          && st'.tareas[id].estudiante == st.tareas[id].estudiante
          && (estado.Some? ==> r.value == EvaluatedPrefix + estado.value)
          && forall k :: k in st.tareas && k != id ==> st'.tareas[k] == st.tareas[k]))
  {
  }

  /** The message names the state: different states give different messages. */
  lemma {:induction false} MessageNamesState(a: Option<string>, b: Option<string>)
    requires a.Some? && b.Some? && a != b
    ensures EvaluationMessage(a) != EvaluationMessage(b)
  {
    var p := EvaluatedPrefix;
    assert EvaluationMessage(a)[|p|..] == a.value;
    assert EvaluationMessage(b)[|p|..] == b.value;
  }

  /** A created task evaluated and then deleted keeps the evaluated state. */
  lemma {:induction false} LifeCycle(st: TareaState, dto: TareaDto, estado: string)
    requires Valid(st) && dto.estudiante.Some? && dto.profesor.Some?
    ensures var (r1, st1) := Saved(st, Some(dto));
      var (r2, st2) := Validated(st1, st.nextId, Some(estado));
      var (r3, st3) := Deleted(st2, st.nextId);
      st1.tareas[st.nextId].estadoDeEntrega == Some(Pendiente) && st1.tareas[st.nextId].activo
      && r2.Ok? && r3.Ok?
      && st3.tareas[st.nextId].estadoDeEntrega == Some(estado) && !st3.tareas[st.nextId].activo
      && st3.tareas.Keys == st.tareas.Keys + {st.nextId}
  {
    var st1 := Saved(st, Some(dto)).1;
    assert st.nextId in st1.tareas;
    var st2 := Validated(st1, st.nextId, Some(estado)).1;
    assert st2.tareas[st.nextId].estadoDeEntrega == Some(estado);
  }

  // ---------------------------------------------------------------------------

  /** The task entity, as loaded from its row. */
  class Tarea {
    const id: int
    var descripcion: Option<string>
    var titulo: Option<string>
    var fechaEntrega: Option<LocalDate>
    var activo: bool
    var estadoDeEntrega: Option<string>
    var estudiante: Option<int>
    var profesor: Option<int>

    function Row(): TareaRow
      reads this
    {
      TareaRow(descripcion, titulo, fechaEntrega, activo, estadoDeEntrega, estudiante, profesor)
    }

    constructor Load(id: int, r: TareaRow)
      ensures this.id == id && Row() == r
    {
      this.id := id;
      descripcion := r.descripcion;
      titulo := r.titulo;
      fechaEntrega := r.fechaEntrega;
      activo := r.activo;
      estadoDeEntrega := r.estadoDeEntrega;
      estudiante := r.estudiante;
      profesor := r.profesor;
    }
  }

  class TareaServiceImpl {
    var tareas: map<int, TareaRow>
    var nextId: int

    function State(): TareaState
      reads this
    {
      TareaState(tareas, nextId)
    }

    constructor (st: TareaState)
      ensures State() == st
    {
      tareas := st.tareas;
      nextId := st.nextId;
    }

    method Save(dto: Option<TareaDto>) returns (r: Result<TareaDto, Exception>)
      modifies this
      ensures (r, State()) == Saved(old(State()), dto)
    {
      if dto.None? {
        return Err(EmptyTask);
      }
      var d := dto.value;
      if d.estudiante.None? || d.profesor.None? {
        return Err(TransientReference);
      }
      var tarea := new Tarea.Load(nextId, TareaRow(d.descripcion, d.titulo, d.fechaEntrega, true, Some(Pendiente),
                                                    d.estudiante, d.profesor));
      tareas := tareas[tarea.id := tarea.Row()];
      nextId := nextId + 1;
      r := Ok(ToResponse(tarea.id, tarea.Row()));
    }

    method FindById(id: Option<int>) returns (r: Result<Option<TareaDto>, Exception>)
      ensures r == Lookup(State(), id)
      ensures r.Ok? ==> r.value.Some?
    {
      if id.None? {
        return Err(NullId);
      }
      if id.value in tareas {
        return Ok(Some(ToResponse(id.value, tareas[id.value])));
      }
      r := Err(NotFound);
    }

    method UpdateTarea(dto: Option<TareaDto>) returns (r: Result<(), Exception>)
      modifies this
      ensures (r, State()) == UpdatedTarea(old(State()), dto)
    {
      if dto.None? {
        return Err(IncompleteTask);
      }
      var response := FindById(dto.value.id);
      if response.Err? {
        return Err(response.error);
      }
      if response.value.None? {
        return Err(MissingTask);
      }
      tareas := tareas[dto.value.id.value := ToEntity(dto.value)];
      r := Ok(());
    }

    method DeleteById(id: int) returns (r: Result<(), Exception>)
      modifies this
      ensures (r, State()) == Deleted(old(State()), id)
    {
      if id !in tareas {
        return Err(NotFound);
      }
      var tarea := new Tarea.Load(id, tareas[id]);
      tarea.activo := false;
      tareas := tareas[id := tarea.Row()];
      r := Ok(());
    }

    method ValidarTarea(id: int, estado: Option<string>) returns (r: Result<string, Exception>)
      modifies this
      ensures (r, State()) == Validated(old(State()), id, estado)
    {
      if id !in tareas {
        return Err(NotFoundOnEvaluation);
      }
      var tarea := new Tarea.Load(id, tareas[id]);
      tarea.estadoDeEntrega := estado;
      tarea.activo := false;
      tareas := tareas[id := tarea.Row()];
      r := Ok(EvaluationMessage(estado));
    }
  }
}
