// SecurityService: the role and ownership checks the controllers consult. The
// repositories are given as a directory of users and as relations between ids;
// every check fails with UsernameNotFoundException for an unknown user.

module SecurityService {
  import opened Wrappers
  import opened Exceptions
  import opened SchoolEntities

  /** A user row: its id and role. */
  datatype UserRow = UserRow(id: int, rol: Role)

  /** The users, by id and by e-mail, and the relations the repository queries
      look at: `teaches` holds (grade, teacher), `tutorOf` (student, tutor),
      `inGrade` (student, grade), `taughtBy` (student, teacher), and `attendance`
      maps an attendance id to its (grade, student). */
  datatype Repos = Repos(
    byId: map<int, UserRow>,
    byEmail: map<string, UserRow>,
    teaches: set<(int, int)>,
    tutorOf: set<(int, int)>,
    inGrade: set<(int, int)>,
    taughtBy: set<(int, int)>,
    attendance: map<int, (int, int)>)

  const UserNotFoundMessage: string := "Usuario no encontrado"

  function NoUser<T>(): Result<T, Exception>
  {
    Err(UsernameNotFound(UserNotFoundMessage))
  }

  // Repository queries

  /** `gradoRepository.existsByIdAndEstudiantesTutorId`. */
  predicate GradeHasTutoredStudent(r: Repos, grade: int, tutor: int)
  {
    exists p :: p in r.inGrade && p.1 == grade && (p.0, tutor) in r.tutorOf
  }

  /** `asistenciaRepository.existsByIdAndEstudianteTutorId`. */
  predicate AttendanceOfTutored(r: Repos, asistencia: int, tutor: int)
  {
    asistencia in r.attendance && (r.attendance[asistencia].1, tutor) in r.tutorOf
  }

  /** `tutorLegalRepository.existsByIdAndEstudiantesProfesorId`. */
  predicate TutorOfTaughtStudent(r: Repos, tutor: int, prof: int)
  {
    exists p :: p in r.tutorOf && p.1 == tutor && (p.0, prof) in r.taughtBy
  }

  // The checks

  /** `hasAccessToInformation(requestedUserId)` for the signed-in e-mail: false for
      oneself, and otherwise the negation of the role's answer. */
  function HasAccessToInformation(r: Repos, email: string, requested: int): Result<bool, Exception>
  {
    if email !in r.byEmail then NoUser()
    else
      var u := r.byEmail[email];
      if u.id == requested then Ok(false)
      else
        Ok(!match u.rol
             case RoleTutor => (requested, u.id) in r.tutorOf
             case RoleProfesor => (requested, u.id) in r.tutorOf
             case RoleEstudiante => false
             case RoleAdministrador => true)
  }

  /** `canManageGradeAttendance(userId, gradoId)`. */
  function CanManageGradeAttendance(r: Repos, userId: int, grade: int): Result<bool, Exception>
  {
    if userId !in r.byId then NoUser()
    else
      match r.byId[userId].rol
      case RoleAdministrador => Ok(true)
      case RoleProfesor => Ok((grade, userId) in r.teaches)
      case _ => Ok(false)
  }

  /** `canUpdateAttendance(userId, gradoId)`. */
  function CanUpdateAttendance(r: Repos, userId: int, grade: int): Result<bool, Exception>
  {
    if userId !in r.byId then NoUser()
    else
      var rol := r.byId[userId].rol;
      if rol == RoleAdministrador then Ok(true)
      else if rol == RoleProfesor then Ok((grade, userId) in r.teaches)
      else Ok(false)
  }

  const AttendanceNotFound: string := "Asistencia no encontrada"

  /** `canViewAttendance(userId, asistenciaId)`. */
  function CanViewAttendance(r: Repos, userId: int, asistencia: int): Result<bool, Exception>
  {
    if userId !in r.byId then NoUser()
    else
      match r.byId[userId].rol
      case RoleAdministrador => Ok(true)
      case RoleProfesor =>
        if asistencia !in r.attendance then Err(Runtime(AttendanceNotFound))
        else Ok((r.attendance[asistencia].0, userId) in r.teaches)
      case RoleTutor => Ok(AttendanceOfTutored(r, asistencia, userId))
      case RoleEstudiante => Ok(false)
  }

  /** `canViewGradeAttendance(userId, gradoId)`. */
  function CanViewGradeAttendance(r: Repos, userId: int, grade: int): Result<bool, Exception>
  {
    if userId !in r.byId then NoUser()
    else
      match r.byId[userId].rol
      case RoleAdministrador => Ok(true)
      case RoleProfesor => Ok((grade, userId) in r.teaches)
      case RoleTutor => Ok(GradeHasTutoredStudent(r, grade, userId))
      case RoleEstudiante => Ok(false)
  }

  /** `canViewGrade(userId, gradoId)`. */
  function CanViewGrade(r: Repos, userId: int, grade: int): Result<bool, Exception>
  {
    if userId !in r.byId then NoUser()
    else
      match r.byId[userId].rol
      case RoleAdministrador => Ok(true)
      case RoleProfesor => Ok((grade, userId) in r.teaches)
      case RoleTutor => Ok(GradeHasTutoredStudent(r, grade, userId))
      case RoleEstudiante => Ok((userId, grade) in r.inGrade)
  }

  /** `isAdmin(userId)`, whose answer is true exactly for the users that are NOT
      administrators. */
  function IsAdmin(r: Repos, userId: int): Result<bool, Exception>
  {
    if userId !in r.byId then NoUser() else Ok(r.byId[userId].rol != RoleAdministrador)
  }

  /** `isCurrentUserAdmin()` for the signed-in e-mail, inverted like `isAdmin`. */
  function IsCurrentUserAdmin(r: Repos, email: string): Result<bool, Exception>
  {
    if email !in r.byEmail then NoUser() else Ok(r.byEmail[email].rol != RoleAdministrador)
  }

  /** `canAccessTutorInfo(userId, tutorId)`: oneself first, whatever the role. */
  function CanAccessTutorInfo(r: Repos, userId: int, tutor: int): Result<bool, Exception>
  {
    if userId !in r.byId then NoUser()
    else if r.byId[userId].id == tutor then Ok(true)
    else
      match r.byId[userId].rol
      case RoleAdministrador => Ok(true)
      case RoleProfesor => Ok(TutorOfTaughtStudent(r, tutor, userId))
      case _ => Ok(false)
  }

  /** `canUpdateTutor(userId, tutorId)`. */
  function CanUpdateTutor(r: Repos, userId: int, tutor: int): Result<bool, Exception>
  {
    if userId !in r.byId then NoUser()
    else
      match r.byId[userId].rol
      case RoleAdministrador => Ok(true)
      case RoleTutor => Ok(userId == tutor)
      case _ => Ok(false)
  }

  /** `getCurrentUserId()`. */
  function CurrentUserId(r: Repos, email: string): Result<int, Exception>
  {
    if email !in r.byEmail then NoUser() else Ok(r.byEmail[email].id)
  }

  // ---------------------------------------------------------------------------
  // Properties

  /** Both administrator checks answer true iff the user is not an administrator. */
  lemma AdminChecksInverted(r: Repos, userId: int, email: string)
    ensures userId in r.byId ==> IsAdmin(r, userId) == Ok(r.byId[userId].rol != RoleAdministrador)
    ensures IsAdmin(r, userId).Ok? && IsAdmin(r, userId).value <==> userId in r.byId && r.byId[userId].rol != RoleAdministrador
    ensures IsCurrentUserAdmin(r, email).Ok? && IsCurrentUserAdmin(r, email).value
            <==> email in r.byEmail && r.byEmail[email].rol != RoleAdministrador
  {
  }

  /** `hasAccessToInformation` by case: oneself and administrators get false,
      students true, and tutors and teachers true exactly for the students they do
      NOT tutor. */
  lemma AccessToInformationCases(r: Repos, email: string, requested: int)
    requires email in r.byEmail
    ensures var u := r.byEmail[email];
      var a := HasAccessToInformation(r, email, requested);
      a.Ok?
      && (u.id == requested ==> !a.value)
      && (u.id != requested && u.rol == RoleEstudiante ==> a.value)
      && (u.rol == RoleAdministrador ==> !a.value)
      && (u.id != requested && (u.rol == RoleTutor || u.rol == RoleProfesor) ==>
            (a.value <==> (requested, u.id) !in r.tutorOf))
  {
  }

  /** The two attendance-management checks agree everywhere: administrators
      always, teachers for the grades they teach, nobody else. */
  lemma ManageAndUpdateAgree(r: Repos, userId: int, grade: int)
    ensures CanManageGradeAttendance(r, userId, grade) == CanUpdateAttendance(r, userId, grade)
    ensures CanManageGradeAttendance(r, userId, grade).Ok? <==> userId in r.byId
    ensures CanManageGradeAttendance(r, userId, grade).Ok? && CanManageGradeAttendance(r, userId, grade).value
      <==> userId in r.byId
           && (r.byId[userId].rol == RoleAdministrador || (r.byId[userId].rol == RoleProfesor && (grade, userId) in r.teaches))
  {
  }

  /** `canViewAttendance`: administrators, the teacher of the attendance's grade,
      the tutor of its student; a teacher asking about a missing attendance gets
      an error. */
  lemma ViewAttendanceCases(r: Repos, userId: int, asistencia: int)
    requires userId in r.byId
    ensures var v := CanViewAttendance(r, userId, asistencia);
      var rol := r.byId[userId].rol;
      (v.Err? <==> rol == RoleProfesor && asistencia !in r.attendance)
      && (v.Ok? ==> (v.value <==>
            rol == RoleAdministrador
            || (rol == RoleProfesor && (r.attendance[asistencia].0, userId) in r.teaches)
            || (rol == RoleTutor && asistencia in r.attendance && (r.attendance[asistencia].1, userId) in r.tutorOf)))
  {
  }

  /** `canViewGrade` grants whatever `canViewGradeAttendance` grants, and in
      addition the students of the grade. */
  lemma ViewGradeExtendsGradeAttendance(r: Repos, userId: int, grade: int)
    ensures CanViewGradeAttendance(r, userId, grade).Ok? <==> CanViewGrade(r, userId, grade).Ok?
    ensures CanViewGradeAttendance(r, userId, grade).Ok? ==>
      (CanViewGrade(r, userId, grade).value
       <==> CanViewGradeAttendance(r, userId, grade).value
            || (r.byId[userId].rol == RoleEstudiante && (userId, grade) in r.inGrade))
  {
  }

  /** A tutor of a student in the grade may see the grade's attendance. */
  lemma TutorSeesGradeAttendance(r: Repos, tutor: int, student: int, grade: int)
    requires tutor in r.byId && r.byId[tutor].rol == RoleTutor
    requires (student, grade) in r.inGrade && (student, tutor) in r.tutorOf
    ensures CanViewGradeAttendance(r, tutor, grade) == Ok(true)
  {
    assert (student, grade) in r.inGrade && (student, grade).1 == grade;
  }

  /** `canAccessTutorInfo`: oneself for any role, then administrators, then a
      teacher of one of the tutor's students. */
  lemma TutorInfoCases(r: Repos, userId: int, tutor: int)
    requires userId in r.byId && r.byId[userId].id == userId
    ensures var a := CanAccessTutorInfo(r, userId, tutor);
      a.Ok? && (a.value <==>
        userId == tutor || r.byId[userId].rol == RoleAdministrador
        || (r.byId[userId].rol == RoleProfesor && exists s :: (s, tutor) in r.tutorOf && (s, userId) in r.taughtBy))
  {
    if r.byId[userId].rol == RoleProfesor {
      if exists s :: (s, tutor) in r.tutorOf && (s, userId) in r.taughtBy {
        var s :| (s, tutor) in r.tutorOf && (s, userId) in r.taughtBy;
        assert (s, tutor).1 == tutor && ((s, tutor).0, userId) in r.taughtBy;
      }
      if TutorOfTaughtStudent(r, tutor, userId) {
        var p :| p in r.tutorOf && p.1 == tutor && (p.0, userId) in r.taughtBy;
        assert (p.0, tutor) == p;
      }
    }
  }

  /** `canUpdateTutor`: administrators, and a tutor only for itself. */
  lemma UpdateTutorCases(r: Repos, userId: int, tutor: int)
    requires userId in r.byId
    ensures CanUpdateTutor(r, userId, tutor).Ok?
    ensures CanUpdateTutor(r, userId, tutor).value <==>
      r.byId[userId].rol == RoleAdministrador || (r.byId[userId].rol == RoleTutor && userId == tutor)
  {
  }

  /** An unknown user makes every check fail with UsernameNotFoundException. */
  lemma UnknownUserRejected(r: Repos, userId: int, email: string, other: int)
    requires userId !in r.byId && email !in r.byEmail
    ensures HasAccessToInformation(r, email, other) == NoUser<bool>()
    ensures CanManageGradeAttendance(r, userId, other) == NoUser<bool>()
    ensures CanUpdateAttendance(r, userId, other) == NoUser<bool>()
    ensures CanViewAttendance(r, userId, other) == NoUser<bool>()
    ensures CanViewGradeAttendance(r, userId, other) == NoUser<bool>()
    ensures CanViewGrade(r, userId, other) == NoUser<bool>()
    ensures IsAdmin(r, userId) == NoUser<bool>()
    ensures IsCurrentUserAdmin(r, email) == NoUser<bool>()
    ensures CanAccessTutorInfo(r, userId, other) == NoUser<bool>()
    ensures CanUpdateTutor(r, userId, other) == NoUser<bool>()
    ensures CurrentUserId(r, email) == NoUser<int>()
  {
  }
}
