// The persisted entities the domain services share, as rows of their
// repositories, and the password rule three services repeat.

module SchoolEntities {
  import opened Wrappers
  import opened Exceptions
  import opened Fecha

  /** `RoleEnum`. */
  datatype Role = RoleEstudiante | RoleProfesor | RoleTutor | RoleAdministrador

  /** A password as stored: BCrypt is foreign code, so the hash of a raw password is
      this constructor and nothing more is assumed of it. */
  datatype Secret = Hashed(raw: string)

  /** The columns of `User` that the services read or write, shared by the
      administrators, the teachers (`Profesor`) and the tutors (`TutorLegal`). */
  datatype PersonRow = PersonRow(
    email: Option<string>,
    dni: Option<string>,
    contrasena: Option<Secret>,
    rol: Option<Role>,
    activo: bool,
    institucion: Option<int>)

  /** A student: its own columns, its grade and tutor as ids, and its four
      collections (None for a null list). */
  datatype EstudianteRow = EstudianteRow(
    nombre: Option<string>,
    apellido: Option<string>,
    dni: Option<string>,
    genero: Option<string>,
    fechaNacimiento: Option<LocalDate>,
    tipoDocumento: Option<string>,
    activo: bool,
    rol: Option<Role>,
    grado: Option<int>,
    tutor: Option<int>,
    boletines: Option<seq<int>>,
    asistencias: Option<seq<int>>,
    tareas: Option<seq<int>>,
    calificaciones: Option<seq<int>>)

  // ---------------------------------------------------------------------------
  // validarPassword

  const MinPasswordLength: nat := 8
  const ShortPasswordMessage: string := "La contraseña debe tener al menos 8 caracteres"

  /** `validarPassword`: None when the password passes, else the exception. A null
      password passes. */
  function ValidarPassword(contrasena: Option<string>): (r: Option<Exception>)
    ensures r.Some? <==> contrasena.Some? && |contrasena.value| < MinPasswordLength
    ensures r.Some? ==> r.value == ForbiddenEx(ShortPasswordMessage)
  {
    if contrasena.Some? && |contrasena.value| < MinPasswordLength then Some(ForbiddenEx(ShortPasswordMessage))
    else None
  }

  /** The three cases of the rule, each on its own. */
  lemma PasswordCases(p: string)
    ensures ValidarPassword(None).None?
    ensures |p| >= MinPasswordLength ==> ValidarPassword(Some(p)).None?
    ensures |p| < MinPasswordLength ==> ValidarPassword(Some(p)) == Some(ForbiddenEx(ShortPasswordMessage))
  {
  }
}
