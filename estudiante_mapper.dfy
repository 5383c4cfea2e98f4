// EstudianteMapperBase (and the two hooks its concrete subclass implements): the
// partial update of a student from an update request, the list view and the
// detail view of a student.

module EstudianteMapper {
  import opened Wrappers
  import opened Fecha
  import opened GradoEntity
  import opened SchoolEntities

  /** The student entity, as loaded from its row. */
  class Estudiante {
    const id: int
    var nombre: Option<string>
    var apellido: Option<string>
    var dni: Option<string>
    var genero: Option<string>
    var fechaNacimiento: Option<LocalDate>
    var tipoDocumento: Option<string>
    var activo: bool
    var rol: Option<Role>
    var grado: Option<int>
    var tutor: Option<int>
    var boletines: Option<seq<int>>
    var asistencias: Option<seq<int>>
    var tareas: Option<seq<int>>
    var calificaciones: Option<seq<int>>

    function Row(): EstudianteRow
      reads this
    {
      EstudianteRow(nombre, apellido, dni, genero, fechaNacimiento, tipoDocumento, activo, rol,
                    grado, tutor, boletines, asistencias, tareas, calificaciones)
    }

    constructor Load(id: int, r: EstudianteRow)
      ensures this.id == id && Row() == r
    {
      this.id := id;
      nombre := r.nombre;
      apellido := r.apellido;
      dni := r.dni;
      genero := r.genero;
      fechaNacimiento := r.fechaNacimiento;
      tipoDocumento := r.tipoDocumento;
      activo := r.activo;
      rol := r.rol;
      grado := r.grado;
      tutor := r.tutor;
      boletines := r.boletines;
      asistencias := r.asistencias;
      tareas := r.tareas;
      calificaciones := r.calificaciones;
    }
  }

  /** `EstudianteActualizacionDTO`; every field may be null (None). */
  datatype ActualizacionDto = ActualizacionDto(
    id: Option<int>,
    nombre: Option<string>,
    apellido: Option<string>,
    numeroDocumento: Option<string>,
    genero: Option<string>,
    fechaNacimiento: Option<LocalDate>,
    tipoDocumento: Option<string>,
    activo: Option<bool>,
    gradoId: Option<int>,
    tutorLegalId: Option<int>)

  /** `x != null ? x : current`. */
  function Keep<T>(given: Option<T>, current: T): T
  {
    if given.Some? then given.value else current
  }

  // ---------------------------------------------------------------------------
  // actualizarCamposBasicos

  /** A nullable request field: `x != null ? x : current` on a nullable field. */
  function Given<T>(given: Option<T>, current: Option<T>): Option<T>
  {
    if given.Some? then given else current
  }

  /** The row after `actualizarCamposBasicos`: each non-null basic field of the
      request replaces the stored one. */
  function Overlay(r: EstudianteRow, dto: ActualizacionDto): EstudianteRow
  {
    r.(nombre := Given(dto.nombre, r.nombre),
       apellido := Given(dto.apellido, r.apellido),
       dni := Given(dto.numeroDocumento, r.dni),
       genero := Given(dto.genero, r.genero),
       fechaNacimiento := Given(dto.fechaNacimiento, r.fechaNacimiento),
       tipoDocumento := Given(dto.tipoDocumento, r.tipoDocumento),
       activo := Keep(dto.activo, r.activo))
  }

  /** Field by field: a given value is taken, a null one leaves the field as it was;
      the role, grade, tutor and collections are never touched. */
  lemma OverlayFields(r: EstudianteRow, dto: ActualizacionDto)
    ensures var u := Overlay(r, dto);
      (dto.nombre.Some? ==> u.nombre == dto.nombre) && (dto.nombre.None? ==> u.nombre == r.nombre)
      && (dto.apellido.Some? ==> u.apellido == dto.apellido) && (dto.apellido.None? ==> u.apellido == r.apellido)
      && (dto.numeroDocumento.Some? ==> u.dni == dto.numeroDocumento) && (dto.numeroDocumento.None? ==> u.dni == r.dni)
      && (dto.genero.Some? ==> u.genero == dto.genero) && (dto.genero.None? ==> u.genero == r.genero)
      && (dto.fechaNacimiento.Some? ==> u.fechaNacimiento == dto.fechaNacimiento)
      && (dto.fechaNacimiento.None? ==> u.fechaNacimiento == r.fechaNacimiento)
      && (dto.tipoDocumento.Some? ==> u.tipoDocumento == dto.tipoDocumento)
      && (dto.tipoDocumento.None? ==> u.tipoDocumento == r.tipoDocumento)
      && (dto.activo.Some? ==> u.activo == dto.activo.value) && (dto.activo.None? ==> u.activo == r.activo)
      && u.rol == r.rol && u.grado == r.grado && u.tutor == r.tutor
      && u.boletines == r.boletines && u.asistencias == r.asistencias
      && u.tareas == r.tareas && u.calificaciones == r.calificaciones
  {
  }

  /** A request with no basic field changes nothing. */
  lemma OverlayEmpty(r: EstudianteRow, dto: ActualizacionDto)
    requires dto.nombre.None? && dto.apellido.None? && dto.numeroDocumento.None? && dto.genero.None?
    requires dto.fechaNacimiento.None? && dto.tipoDocumento.None? && dto.activo.None?
    ensures Overlay(r, dto) == r
  {
  }

  /** Applying the same request twice is applying it once. */
  lemma OverlayIdempotent(r: EstudianteRow, dto: ActualizacionDto)
    ensures Overlay(Overlay(r, dto), dto) == Overlay(r, dto)
  {
  }

  /** The update depends on the stored row only through the fields the request
      leaves null: two rows that agree there end up equal. */
  lemma OverlayOverwrites(r1: EstudianteRow, r2: EstudianteRow, dto: ActualizacionDto)
    requires dto.nombre.Some? && dto.apellido.Some? && dto.numeroDocumento.Some? && dto.genero.Some?
    requires dto.fechaNacimiento.Some? && dto.tipoDocumento.Some? && dto.activo.Some?
    requires r1.rol == r2.rol && r1.grado == r2.grado && r1.tutor == r2.tutor
    requires r1.boletines == r2.boletines && r1.asistencias == r2.asistencias
    requires r1.tareas == r2.tareas && r1.calificaciones == r2.calificaciones
    ensures Overlay(r1, dto) == Overlay(r2, dto)
  {
  }

  /** `actualizarCamposBasicos(estudiante, dto)`: a null entity or request is a
      no-op. */
  method ActualizarCamposBasicos(e: Estudiante?, dto: Option<ActualizacionDto>)
    modifies e
    ensures e != null && dto.Some? ==> e.Row() == Overlay(old(e.Row()), dto.value)
    ensures e != null && dto.None? ==> e.Row() == old(e.Row())
  {
    if e == null || dto.None? {
      return;
    }
    var d := dto.value;
    // Each `if (dto.x() != null) estudiante.setX(dto.x())` of the source.
    e.nombre := Given(d.nombre, e.nombre);
    e.apellido := Given(d.apellido, e.apellido);
    e.dni := Given(d.numeroDocumento, e.dni);
    e.genero := Given(d.genero, e.genero);
    e.fechaNacimiento := Given(d.fechaNacimiento, e.fechaNacimiento);
    e.tipoDocumento := Given(d.tipoDocumento, e.tipoDocumento);
    e.activo := Keep(d.activo, e.activo);
  }

  // ---------------------------------------------------------------------------
  // actualizarDesdeDTO (the concrete subclass)

  /** A relation looked up by id: `findById(id).orElse(null)`. */
  function Resolve(stored: set<int>, id: int): Option<int>
  {
    if id in stored then Some(id) else None
  }

  /** The row after `actualizarDesdeDTO`: the basic fields, then grade and tutor,
      each replaced only when the request names one, and then by the stored row or
      null. */
  function ActualizadoDesdeDTO(r: EstudianteRow, dto: ActualizacionDto, grados: set<int>, tutores: set<int>)
    : EstudianteRow
  {
    var basic := Overlay(r, dto);
    basic.(grado := if dto.gradoId.Some? then Resolve(grados, dto.gradoId.value) else basic.grado,
           tutor := if dto.tutorLegalId.Some? then Resolve(tutores, dto.tutorLegalId.value) else basic.tutor)
  }

  /** A named grade that is not stored leaves the student without one; a stored
      one is taken; no named grade keeps the current one. The same holds for the
      tutor. */
  lemma RelationsUpdate(r: EstudianteRow, dto: ActualizacionDto, grados: set<int>, tutores: set<int>)
    ensures var u := ActualizadoDesdeDTO(r, dto, grados, tutores);
      (dto.gradoId.None? ==> u.grado == r.grado)
      && (dto.gradoId.Some? && dto.gradoId.value in grados ==> u.grado == dto.gradoId)
      && (dto.gradoId.Some? && dto.gradoId.value !in grados ==> u.grado.None?)
      && (dto.tutorLegalId.None? ==> u.tutor == r.tutor)
      && (dto.tutorLegalId.Some? && dto.tutorLegalId.value in tutores ==> u.tutor == dto.tutorLegalId)
      && (dto.tutorLegalId.Some? && dto.tutorLegalId.value !in tutores ==> u.tutor.None?)
      && u.(grado := r.grado, tutor := r.tutor) == Overlay(r, dto)
  {
  }

  /** `actualizarDesdeDTO(estudiante, dto)`. */
  method ActualizarDesdeDTO(e: Estudiante?, dto: Option<ActualizacionDto>, grados: set<int>, tutores: set<int>)
    modifies e
    ensures e != null && dto.Some? ==> e.Row() == ActualizadoDesdeDTO(old(e.Row()), dto.value, grados, tutores)
    ensures e != null && dto.None? ==> e.Row() == old(e.Row())
  {
    if e == null || dto.None? {
      return;
    }
    ActualizarCamposBasicos(e, dto);
    var d := dto.value;
    if d.gradoId.Some? {
      e.grado := Resolve(grados, d.gradoId.value);
    }
    if d.tutorLegalId.Some? {
      e.tutor := Resolve(tutores, d.tutorLegalId.value);
    }
  }

  /** `EstudianteCreacionDTO`. */
  datatype CreacionDto = CreacionDto(
    nombre: Option<string>,
    apellido: Option<string>,
    numeroDocumento: Option<string>,
    genero: Option<string>,
    fechaNacimiento: Option<LocalDate>,
    tipoDocumento: Option<string>,
    gradoId: Option<int>,
    tutorLegalId: Option<int>)

  /** `crearDesdeDTO(dto)` on a request: a new student entity with the request's
      fields, active, without role or collections, and with the named grade and
      tutor when they are stored. */
  function CrearDesdeDTO(dto: CreacionDto, grados: set<int>, tutores: set<int>): EstudianteRow
  {
    EstudianteRow(dto.nombre, dto.apellido, dto.numeroDocumento, dto.genero, dto.fechaNacimiento,
                  dto.tipoDocumento, true, None,
                  if dto.gradoId.Some? then Resolve(grados, dto.gradoId.value) else None,
                  if dto.tutorLegalId.Some? then Resolve(tutores, dto.tutorLegalId.value) else None,
                  None, None, None, None)
  }

  /** A created student has a grade exactly when the request names a stored one,
      and the same for the tutor. */
  lemma CreatedRelations(dto: CreacionDto, grados: set<int>, tutores: set<int>)
    ensures var r := CrearDesdeDTO(dto, grados, tutores);
      (r.grado.Some? <==> dto.gradoId.Some? && dto.gradoId.value in grados)
      && (r.grado.Some? ==> r.grado == dto.gradoId)
      && (r.tutor.Some? <==> dto.tutorLegalId.Some? && dto.tutorLegalId.value in tutores)
      && (r.tutor.Some? ==> r.tutor == dto.tutorLegalId)
      && r.activo && r.dni == dto.numeroDocumento
  {
  }

  // ---------------------------------------------------------------------------
  // mapearAListaDTO and mapearADetalleDTO

  /** A loaded student: its id and row, its grade's id and row (None for null),
      and its tutor's id and the columns of it the detail view shows. */
  datatype TutorColumns = TutorColumns(
    nombre: Option<string>, apellido: Option<string>, dni: Option<string>,
    email: Option<string>, telefono: Option<string>)

  datatype Loaded = Loaded(
    id: int,
    row: EstudianteRow,
    grado: Option<(int, GradoRow)>,
    tutor: Option<(int, TutorColumns)>)

  datatype ListaDto = ListaDto(
    id: int, nombre: Option<string>, apellido: Option<string>, dni: Option<string>,
    genero: Option<string>, activo: bool, gradoId: Option<int>, gradoNombre: Option<string>)

  /** `mapearAListaDTO(estudiante)`; the grade's name is `String.valueOf` of its
      subject, so "null" when the subject is null. */
  function MapearAListaDTO(e: Option<Loaded>): Option<ListaDto>
  {
    match e
    case None => None
    case Some(s) =>
      var gradoId := if s.grado.Some? then Some(s.grado.value.0) else None;
      var gradoNombre := if s.grado.Some? then Some(OrElse(s.grado.value.1.materia, "null")) else None;
      Some(ListaDto(s.id, s.row.nombre, s.row.apellido, s.row.dni, s.row.genero, s.row.activo, gradoId, gradoNombre))
  }

  /** The list view of null is null; without a grade its grade id and name are
      null; with one, the name is never null. */
  lemma ListaCases(e: Option<Loaded>)
    ensures MapearAListaDTO(None).None?
    ensures e.Some? ==> MapearAListaDTO(e).Some?
    ensures e.Some? ==> MapearAListaDTO(e).value.id == e.value.id
    ensures e.Some? ==> MapearAListaDTO(e).value.activo == e.value.row.activo
    ensures e.Some? && e.value.grado.None? ==>
      MapearAListaDTO(e).value.gradoId.None? && MapearAListaDTO(e).value.gradoNombre.None?
    ensures e.Some? && e.value.grado.Some? ==>
      MapearAListaDTO(e).value.gradoId == Some(e.value.grado.value.0)
      && MapearAListaDTO(e).value.gradoNombre.Some?
      && (e.value.grado.value.1.materia.Some? ==> MapearAListaDTO(e).value.gradoNombre == e.value.grado.value.1.materia)
  {
  }

  datatype GradoResumen = GradoResumen(id: int, materia: Option<string>, aula: Option<string>, turno: Option<string>)

  datatype TutorResumen = TutorResumen(
    id: int, nombre: Option<string>, apellido: Option<string>, dni: Option<string>,
    email: Option<string>, telefono: Option<string>)

  datatype ResumenColecciones = ResumenColecciones(boletines: nat, asistencias: nat, tareas: nat, calificaciones: nat)

  datatype DetalleDto = DetalleDto(
    id: int, nombre: Option<string>, apellido: Option<string>, dni: Option<string>,
    genero: Option<string>, fechaNacimiento: Option<LocalDate>, tipoDocumento: Option<string>,
    activo: bool, grado: Option<GradoResumen>, tutor: Option<TutorResumen>, resumen: ResumenColecciones)

  /** `list != null ? list.size() : 0`. */
  function SizeOrZero(l: Option<seq<int>>): nat
  {
    if l.Some? then |l.value| else 0
  }

  /** `mapearADetalleDTO(estudiante)`. */
  function MapearADetalleDTO(e: Option<Loaded>): Option<DetalleDto>
  {
    match e
    case None => None
    case Some(s) =>
      var grado := if s.grado.Some? then
        var (gid, g) := s.grado.value; Some(GradoResumen(gid, g.materia, g.aula, g.turno))
        else None;
      var tutor := if s.tutor.Some? then
        var (tid, t) := s.tutor.value; Some(TutorResumen(tid, t.nombre, t.apellido, t.dni, t.email, t.telefono))
        else None;
      var r := s.row;
      Some(DetalleDto(s.id, r.nombre, r.apellido, r.dni, r.genero, r.fechaNacimiento, r.tipoDocumento, r.activo,
                      grado, tutor,
                      ResumenColecciones(SizeOrZero(r.boletines), SizeOrZero(r.asistencias),
                                         SizeOrZero(r.tareas), SizeOrZero(r.calificaciones))))
  }

  /** In the detail view each count is its list's size, zero for null; the grade
      and tutor summaries are present exactly when the student has them, and carry
      their ids. */
  lemma DetalleCases(e: Option<Loaded>)
    ensures MapearADetalleDTO(None).None?
    ensures e.Some? ==> MapearADetalleDTO(e).Some?
    ensures e.Some? ==> var d := MapearADetalleDTO(e).value; var r := e.value.row;
      d.id == e.value.id && d.activo == r.activo && d.dni == r.dni
      && (r.boletines.Some? ==> d.resumen.boletines == |r.boletines.value|)
      && (r.boletines.None? ==> d.resumen.boletines == 0)
      && (r.asistencias.Some? ==> d.resumen.asistencias == |r.asistencias.value|)
      && (r.asistencias.None? ==> d.resumen.asistencias == 0)
      && (r.tareas.Some? ==> d.resumen.tareas == |r.tareas.value|)
      && (r.tareas.None? ==> d.resumen.tareas == 0)
      && (r.calificaciones.Some? ==> d.resumen.calificaciones == |r.calificaciones.value|)
      && (r.calificaciones.None? ==> d.resumen.calificaciones == 0)
      && (d.grado.Some? <==> e.value.grado.Some?)
      && (d.grado.Some? ==> (d.grado.value.id == e.value.grado.value.0
                             && d.grado.value.materia == e.value.grado.value.1.materia))
      && (d.tutor.Some? <==> e.value.tutor.Some?)
      && (d.tutor.Some? ==> (d.tutor.value.id == e.value.tutor.value.0
                             && d.tutor.value.email == e.value.tutor.value.1.email))
  {
  }

  /** The two views agree on what they both show. */
  lemma ViewsAgree(e: Loaded)
    ensures var l := MapearAListaDTO(Some(e)).value; var d := MapearADetalleDTO(Some(e)).value;
      l.id == d.id && l.nombre == d.nombre && l.apellido == d.apellido && l.dni == d.dni
      && l.genero == d.genero && l.activo == d.activo
      && (l.gradoId.Some? <==> d.grado.Some?)
      && (d.grado.Some? ==> l.gradoId == Some(d.grado.value.id))
  {
  }
}
