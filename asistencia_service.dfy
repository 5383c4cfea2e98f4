// AsistenciaServiceImpl: the daily roll call of a grade, the correction of one
// record, and two queries. The repositories are maps held by the service object;
// a call that throws inside the transaction leaves them as they were.

module AsistenciaService {
  import opened Wrappers
  import opened JavaText
  import opened Exceptions
  import opened Fecha
  import opened GradoEntity
  import opened SchoolEntities

  /** `EstadoAsistencia`, with the four constants the service names. */
  datatype EstadoAsistencia = PRESENTE | AUSENTE | TARDE | JUSTIFICADO

  function EstadoName(e: EstadoAsistencia): string
  {
    match e
    case PRESENTE => "PRESENTE"
    case AUSENTE => "AUSENTE"
    case TARDE => "TARDE"
    case JUSTIFICADO => "JUSTIFICADO"
  }

  const EnumClassName: string := "com.foroescolar.enums.EstadoAsistencia"

  /** `EstadoAsistencia.valueOf(name)`: the constant with exactly that name. */
  function ValueOf(name: string): (r: Result<EstadoAsistencia, Exception>)
    ensures r.Ok? <==> name in {"PRESENTE", "AUSENTE", "TARDE", "JUSTIFICADO"}
    ensures r.Ok? ==> EstadoName(r.value) == name
    ensures r.Err? ==> r.error == IllegalArgument(Some("No enum constant " + EnumClassName + "." + name))
  {
    if name == "PRESENTE" then Ok(PRESENTE)
    else if name == "AUSENTE" then Ok(AUSENTE)
    else if name == "TARDE" then Ok(TARDE)
    else if name == "JUSTIFICADO" then Ok(JUSTIFICADO)
    else
      Err(IllegalArgument(Some("No enum constant " + EnumClassName + "." + name)))
  }

  /** Every constant is found again by its own name. */
  lemma ValueOfName(e: EstadoAsistencia)
    ensures ValueOf(EstadoName(e)) == Ok(e)
  {
  }

  const DefaultObservaciones: string := "Sin observacion"

  /** One attendance record: its observations (None for null), its state, the
      date of its `Fecha`, the student and the grade. */
  datatype AsistenciaRow = AsistenciaRow(
    observaciones: Option<string>,
    estado: EstadoAsistencia,
    fecha: LocalDate,
    estudiante: int,
    grado: int)

  /** The repositories the service reads and writes. `nextId` is the identity the
      next inserted record receives. */
  datatype AsistenciaState = AsistenciaState(
    grados: map<int, GradoRow>,
    estudiantes: map<int, EstudianteRow>,
    fechas: map<LocalDate, FechaRow>,
    asistencias: map<int, AsistenciaRow>,
    nextId: int)

  /** Every stored record has an identity below `nextId`. */
  predicate Valid(st: AsistenciaState)
  {
    forall k :: k in st.asistencias ==> k < st.nextId
  }

  const GradoNoEncontrado: string := "Grado no encontrado"
  const AlreadyTakenMessage: string := "Ya se ha pasado la asistencia anteriormente"
  const EstudianteNoEncontrado: string := "Estudiante no encontrado"
  const UpdateNotFoundMessage: string := "No se puede cambiar el estado de la asistencia"
  const EmptyRangeMessage: string := "No se encontraron asistencias en el rango de fechas"

  /** The exception Java raises when a student without a grade is asked for it. */
  const MissingGradeError: Exception := Other("NullPointerException", None)

  /** `existsByFechaFechaAndGradoId`. */
  predicate AlreadyTaken(st: AsistenciaState, today: LocalDate, gradoId: int)
  {
    exists k :: k in st.asistencias && st.asistencias[k].fecha == today && st.asistencias[k].grado == gradoId
  }

  // ---------------------------------------------------------------------------
  // The loop over the roll-call entries

  /** What the loop has gathered: the students recorded with their state, and the
      ids of those found in another grade. */
  datatype Scan = Scan(accepted: seq<(int, EstadoAsistencia)>, outside: seq<int>)

  /** One entry: parse the state, load the student, compare its grade's id. The id
      comparison is on boxed `Long`s in the source; it is taken as equality of the
      id values. */
  function ScanStep(students: map<int, EstudianteRow>, gradoId: int, acc: Scan, e: (int, string))
    : Result<Scan, Exception>
  {
    var estado := ValueOf(e.1);
    if estado.Err? then Err(estado.error)
    else if e.0 !in students then Err(EntityNotFound(EstudianteNoEncontrado))
    else if students[e.0].grado.None? then Err(MissingGradeError)
    else if students[e.0].grado.value == gradoId then Ok(Scan(acc.accepted + [(e.0, estado.value)], acc.outside))
    else Ok(Scan(acc.accepted, acc.outside + [e.0]))
  }

  /** The loop over the entries in iteration order; the first failing entry ends it. */
  function ScanEntries(students: map<int, EstudianteRow>, gradoId: int, entries: seq<(int, string)>)
    : Result<Scan, Exception>
    decreases |entries|
  {
    if entries == [] then Ok(Scan([], []))
    else
      var r := ScanEntries(students, gradoId, entries[..|entries| - 1]);
      if r.Err? then r else ScanStep(students, gradoId, r.value, entries[|entries| - 1])
  }

  /** An entry the loop gets past: a known state name and a student with a grade. */
  predicate EntryOk(students: map<int, EstudianteRow>, e: (int, string))
  {
    ValueOf(e.1).Ok? && e.0 in students && students[e.0].grado.Some?
  }

  /** The exception a failing entry raises. */
  function EntryError(students: map<int, EstudianteRow>, e: (int, string)): Exception
  {
    if ValueOf(e.1).Err? then ValueOf(e.1).error
    else if e.0 !in students then EntityNotFound(EstudianteNoEncontrado)
    else MissingGradeError
  }

  /** Once a prefix of the entries fails, the whole loop fails the same way. */
  lemma {:induction false} ScanErrStays(students: map<int, EstudianteRow>, gradoId: int, entries: seq<(int, string)>, i: nat)
    requires i <= |entries|
    requires ScanEntries(students, gradoId, entries[..i]).Err?
    ensures ScanEntries(students, gradoId, entries) == ScanEntries(students, gradoId, entries[..i])
    decreases |entries|
  {
    if i < |entries| {
      var init := entries[..|entries| - 1];
      assert init[..i] == entries[..i];
      ScanErrStays(students, gradoId, init, i);
    } else {
      assert entries[..i] == entries;
    }
  }

  /** Reference definitions, entry by entry from the front: the recorded students
      and the misplaced ones. */
  function Accepted(students: map<int, EstudianteRow>, gradoId: int, entries: seq<(int, string)>)
    : seq<(int, EstadoAsistencia)>
    requires forall i :: 0 <= i < |entries| ==> EntryOk(students, entries[i])
  {
    if entries == [] then []
    else
      assert EntryOk(students, entries[0]);
      assert forall i :: 0 <= i < |entries[1..]| ==> entries[1..][i] == entries[i + 1];
      (if students[entries[0].0].grado.value == gradoId then [(entries[0].0, ValueOf(entries[0].1).value)] else [])
      + Accepted(students, gradoId, entries[1..])
  }

  function Outside(students: map<int, EstudianteRow>, gradoId: int, entries: seq<(int, string)>): seq<int>
    requires forall i :: 0 <= i < |entries| ==> EntryOk(students, entries[i])
  {
    if entries == [] then []
    else
      assert EntryOk(students, entries[0]);
      assert forall i :: 0 <= i < |entries[1..]| ==> entries[1..][i] == entries[i + 1];
      (if students[entries[0].0].grado.value == gradoId then [] else [entries[0].0])
      + Outside(students, gradoId, entries[1..])
  }

  lemma {:induction false} AcceptedAppend(students: map<int, EstudianteRow>, gradoId: int, a: seq<(int, string)>, x: (int, string))
    requires forall i :: 0 <= i < |a| ==> EntryOk(students, a[i])
    requires EntryOk(students, x)
    ensures forall i :: 0 <= i < |a + [x]| ==> EntryOk(students, (a + [x])[i])
    ensures Accepted(students, gradoId, a + [x])
            == Accepted(students, gradoId, a) + Accepted(students, gradoId, [x])
    ensures Outside(students, gradoId, a + [x])
            == Outside(students, gradoId, a) + Outside(students, gradoId, [x])
    decreases |a|
  {
    assert forall i :: 0 <= i < |a + [x]| ==> (a + [x])[i] == if i < |a| then a[i] else x;
    if a != [] {
      assert (a + [x])[1..] == a[1..] + [x];
      assert forall i :: 0 <= i < |a[1..]| ==> a[1..][i] == a[i + 1];
      AcceptedAppend(students, gradoId, a[1..], x);
    }
  }

  /** One more acceptable entry after a prefix that ran to its end extends both
      reference lists. */
  lemma {:induction false} ScanStepAccepts(students: map<int, EstudianteRow>, gradoId: int, entries: seq<(int, string)>)
    requires entries != []
    requires forall i :: 0 <= i < |entries| ==> EntryOk(students, entries[i])
    requires var init := entries[..|entries| - 1];
      (forall i :: 0 <= i < |init| ==> EntryOk(students, init[i]))
      && ScanEntries(students, gradoId, init)
         == Ok(Scan(Accepted(students, gradoId, init), Outside(students, gradoId, init)))
    ensures ScanEntries(students, gradoId, entries)
      == Ok(Scan(Accepted(students, gradoId, entries), Outside(students, gradoId, entries)))
  {
    var init := entries[..|entries| - 1];
    var last := entries[|entries| - 1];
    assert entries == init + [last];
    AcceptedAppend(students, gradoId, init, last);
    assert [last][1..] == [];
    var acc := Scan(Accepted(students, gradoId, init), Outside(students, gradoId, init));
    assert ScanEntries(students, gradoId, entries) == ScanStep(students, gradoId, acc, last);
    if students[last.0].grado.value == gradoId {
      assert Accepted(students, gradoId, [last]) == [(last.0, ValueOf(last.1).value)];
      assert Outside(students, gradoId, [last]) == [];
      assert acc.outside + [] == acc.outside;
    } else {
      assert Accepted(students, gradoId, [last]) == [];
      assert Outside(students, gradoId, [last]) == [last.0];
      assert acc.accepted + [] == acc.accepted;
    }
  }

  /** The loop runs to its end exactly when every entry is acceptable; it then
      holds the reference lists, and otherwise fails with the first bad entry's
      exception. */
  lemma {:induction false} ScanOutcome(students: map<int, EstudianteRow>, gradoId: int, entries: seq<(int, string)>)
    ensures ScanEntries(students, gradoId, entries).Ok? <==>
      forall i :: 0 <= i < |entries| ==> EntryOk(students, entries[i])
    ensures ScanEntries(students, gradoId, entries).Ok? ==>
      ScanEntries(students, gradoId, entries).value
        == Scan(Accepted(students, gradoId, entries), Outside(students, gradoId, entries))
    ensures ScanEntries(students, gradoId, entries).Err? ==>
      exists i :: 0 <= i < |entries| && !EntryOk(students, entries[i])
        && (forall j :: 0 <= j < i ==> EntryOk(students, entries[j]))
        && ScanEntries(students, gradoId, entries).error == EntryError(students, entries[i])
    decreases |entries|
  {
    if entries != [] {
      var init := entries[..|entries| - 1];
      var n := |entries| - 1;
      assert forall i :: 0 <= i < |init| ==> init[i] == entries[i];
      ScanOutcome(students, gradoId, init);
      var r := ScanEntries(students, gradoId, init);
      if r.Err? {
        var i :| 0 <= i < |init| && !EntryOk(students, init[i])
          && (forall j :: 0 <= j < i ==> EntryOk(students, init[j]))
          && r.error == EntryError(students, init[i]);
        assert !EntryOk(students, entries[i]);
      } else if EntryOk(students, entries[n]) {
        ScanStepAccepts(students, gradoId, entries);
      } else {
        assert ScanEntries(students, gradoId, entries) == Err(EntryError(students, entries[n]));
        assert !EntryOk(students, entries[n]);
      }
    }
  }

  // ---------------------------------------------------------------------------
  // asistenciaDelDia

  /** The text the StringBuilder holds before its last two characters are
      dropped: each id followed by ", ". */
  function Listed(ids: seq<int>): string
  {
    if ids == [] then "" else Listed(ids[..|ids| - 1]) + IntToString(ids[|ids| - 1]) + ", "
  }

  function IdTexts(ids: seq<int>): (r: seq<string>)
    ensures |r| == |ids|
  {
    if ids == [] then [] else [IntToString(ids[0])] + IdTexts(ids[1..])
  }

  lemma {:induction false} IdTextsAppend(ids: seq<int>, x: int)
    ensures IdTexts(ids + [x]) == IdTexts(ids) + [IntToString(x)]
    decreases |ids|
  {
    if ids != [] {
      assert (ids + [x])[1..] == ids[1..] + [x];
      IdTextsAppend(ids[1..], x);
    }
  }

  lemma {:induction false} JoinAppend(parts: seq<string>, p: string, sep: string)
    requires parts != []
    ensures Join(parts + [p], sep) == Join(parts, sep) + sep + p
    decreases |parts|
  {
    if |parts| > 1 {
      assert (parts + [p])[1..] == parts[1..] + [p];
      JoinAppend(parts[1..], p, sep);
    } else {
      assert (parts + [p])[1..] == [p];
    }
  }

  /** Dropping the trailing ", " leaves the ids joined with ", ". */
  lemma {:induction false} ListedIsJoin(ids: seq<int>)
    requires ids != []
    ensures |Listed(ids)| >= 2
    ensures Listed(ids)[..|Listed(ids)| - 2] == Join(IdTexts(ids), ", ")
    decreases |ids|
  {
    var init := ids[..|ids| - 1];
    var x := ids[|ids| - 1];
    assert ids == init + [x];
    IdTextsAppend(init, x);
    if init == [] {
      assert Listed(ids) == "" + IntToString(x) + ", ";
      assert IdTexts(ids) == [IntToString(x)];
    } else {
      ListedIsJoin(init);
      JoinAppend(IdTexts(init), IntToString(x), ", ");
      var l := Listed(init);
      assert l == Listed(init)[..|l| - 2] + ", ";
      assert Listed(ids) == l + IntToString(x) + ", ";
    }
  }

  const OutsidePrefix: string := "Los estudiantes con ID: "
  const OutsideSuffix: string := " no pertenecen al grado"

  /** The message for the misplaced students, ids in iteration order. */
  function OutsideMessage(ids: seq<int>): string
  {
    OutsidePrefix + Join(IdTexts(ids), ", ") + OutsideSuffix
  }

  /** The records the loop saves, at consecutive identities from `base`. */
  function Records(base: int, accepted: seq<(int, EstadoAsistencia)>, today: LocalDate, gradoId: int)
    : map<int, AsistenciaRow>
    decreases |accepted|
  {
    if accepted == [] then map[]
    else
      var a := accepted[|accepted| - 1];
      Records(base, accepted[..|accepted| - 1], today, gradoId)[base + |accepted| - 1 :=
        AsistenciaRow(Some(DefaultObservaciones), a.1, today, a.0, gradoId)]
  }

  /** One record per accepted student, carrying today's date, the grade and the
      student's state, and nothing else. */
  lemma {:induction false} RecordsShape(base: int, accepted: seq<(int, EstadoAsistencia)>, today: LocalDate, gradoId: int)
    ensures forall k :: k in Records(base, accepted, today, gradoId) <==> base <= k < base + |accepted|
    ensures forall k :: base <= k < base + |accepted| ==>
      Records(base, accepted, today, gradoId)[k]
        == AsistenciaRow(Some(DefaultObservaciones), accepted[k - base].1, today, accepted[k - base].0, gradoId)
    decreases |accepted|
  {
    if accepted != [] {
      var init := accepted[..|accepted| - 1];
      RecordsShape(base, init, today, gradoId);
      assert forall j :: 0 <= j < |init| ==> accepted[j] == init[j];
    }
  }

  /** The state after an accepted roll call: today's `Fecha` reused or created, the
      counter raised, the records added. */
  function Committed(st: AsistenciaState, gradoId: int, today: LocalDate, accepted: seq<(int, EstadoAsistencia)>)
    : AsistenciaState
    requires gradoId in st.grados
  {
    var g := st.grados[gradoId];
    AsistenciaState(
      st.grados[gradoId := g.(contador := Incremented(g.contador))],
      st.estudiantes,
      if today in st.fechas then st.fechas else st.fechas[today := NewFecha(today)],
      st.asistencias + Records(st.nextId, accepted, today, gradoId),
      st.nextId + |accepted|)
  }

  /** `asistenciaDelDia(request)` on `today`: the outcome and the state after the
      transaction. `entries` is the request's map in its iteration order. */
  function RollCall(st: AsistenciaState, gradoId: int, entries: seq<(int, string)>, today: LocalDate)
    : (Result<(), Exception>, AsistenciaState)
  {
    if gradoId !in st.grados then (Err(EntityNotFound(GradoNoEncontrado)), st)
    else if AlreadyTaken(st, today, gradoId) then (Err(EntityNotFound(AlreadyTakenMessage)), st)
    else
      var scan := ScanEntries(st.estudiantes, gradoId, entries);
      if scan.Err? then (Err(scan.error), st)
      else if scan.value.outside != [] then (Err(EntityNotFound(OutsideMessage(scan.value.outside))), st)
      else (Ok(()), Committed(st, gradoId, today, scan.value.accepted))
  }

  // ---------------------------------------------------------------------------
  // update and the queries

  /** `update(requestDto)`: only "JUSTIFICADO" and "TARDE" change the record, and
      then its state and observations; other values save it unchanged. */
  function UpdateRecord(st: AsistenciaState, id: int, estado: Option<string>, justificativos: Option<string>)
    : (Result<(), Exception>, AsistenciaState)
  {
    if id !in st.asistencias then (Err(EntityNotFound(UpdateNotFoundMessage)), st)
    else if estado == Some("JUSTIFICADO") || estado == Some("TARDE") then
      var parsed := ValueOf(estado.value);
      if parsed.Ok? then
        (Ok(()), st.(asistencias := st.asistencias[id := st.asistencias[id].(estado := parsed.value, observaciones := justificativos)]))
      else (Ok(()), st)
    else (Ok(()), st)
  }

  /** `getByFechaBeetweenAndGrado`: the ids of the grade's records dated within the
      inclusive range. */
  function InRange(st: AsistenciaState, gradoId: int, desde: LocalDate, hasta: LocalDate): set<int>
  {
    set k | k in st.asistencias && st.asistencias[k].grado == gradoId
              && DateLe(desde, st.asistencias[k].fecha) && DateLe(st.asistencias[k].fecha, hasta)
  }

  function ByDateRange(st: AsistenciaState, gradoId: int, desde: LocalDate, hasta: LocalDate)
    : (r: Result<set<int>, Exception>)
    ensures r.Ok? <==> gradoId in st.grados && InRange(st, gradoId, desde, hasta) != {}
    ensures gradoId !in st.grados ==> r == Err(EntityNotFound(GradoNoEncontrado))
    ensures gradoId in st.grados && r.Err? ==> r == Err(EntityNotFound(EmptyRangeMessage))
  {
    if gradoId !in st.grados then Err(EntityNotFound(GradoNoEncontrado))
    else
      var found := InRange(st, gradoId, desde, hasta);
      if found == {} then Err(EntityNotFound(EmptyRangeMessage)) else Ok(found)
  }

  /** `getAsistenciasByGradoAndEstudiante(tutorId, gradoId)`: the grade's records
      of the students the tutor looks after. */
  function ByGradeAndTutor(st: AsistenciaState, tutorId: int, gradoId: int): (r: Result<set<int>, Exception>)
    ensures r.Err? <==> gradoId !in st.grados
    ensures r.Err? ==> r.error == EntityNotFound(GradoNoEncontrado)
    ensures r.Ok? ==> forall k :: k in r.value ==>
      k in st.asistencias && st.asistencias[k].grado == gradoId
      && st.asistencias[k].estudiante in st.estudiantes
      && st.estudiantes[st.asistencias[k].estudiante].tutor == Some(tutorId)
    ensures r.Ok? ==> forall k ::
      (k in st.asistencias && st.asistencias[k].grado == gradoId
       && st.asistencias[k].estudiante in st.estudiantes
       && st.estudiantes[st.asistencias[k].estudiante].tutor == Some(tutorId)) ==> k in r.value
  {
    if gradoId !in st.grados then Err(EntityNotFound(GradoNoEncontrado))
    else
      Ok(set k | k in st.asistencias && st.asistencias[k].grado == gradoId
                 && st.asistencias[k].estudiante in st.estudiantes
                 && st.estudiantes[st.asistencias[k].estudiante].tutor == Some(tutorId))
  }

  // ---------------------------------------------------------------------------
  // Properties

  /** An unknown grade and a second roll call on the same day are rejected, and
      nothing changes. */
  lemma RejectedUpFront(st: AsistenciaState, gradoId: int, entries: seq<(int, string)>, today: LocalDate)
    ensures gradoId !in st.grados ==> RollCall(st, gradoId, entries, today) == (Err(EntityNotFound(GradoNoEncontrado)), st)
    ensures gradoId in st.grados && AlreadyTaken(st, today, gradoId) ==>
      RollCall(st, gradoId, entries, today) == (Err(EntityNotFound(AlreadyTakenMessage)), st)
  {
  }

  /** A failed roll call leaves every repository as it was. */
  lemma FailureChangesNothing(st: AsistenciaState, gradoId: int, entries: seq<(int, string)>, today: LocalDate)
    ensures RollCall(st, gradoId, entries, today).0.Err? ==> RollCall(st, gradoId, entries, today).1 == st
  {
  }

  /** The roll call is accepted exactly when the grade exists, has no record today,
      and every entry names a known state and a student of this grade. */
  lemma AcceptedIff(st: AsistenciaState, gradoId: int, entries: seq<(int, string)>, today: LocalDate)
    ensures RollCall(st, gradoId, entries, today).0.Ok? <==>
      gradoId in st.grados && !AlreadyTaken(st, today, gradoId)
      && forall i :: 0 <= i < |entries| ==>
           EntryOk(st.estudiantes, entries[i]) && st.estudiantes[entries[i].0].grado == Some(gradoId)
  {
    ScanOutcome(st.estudiantes, gradoId, entries);
    if gradoId in st.grados && forall i :: 0 <= i < |entries| ==> EntryOk(st.estudiantes, entries[i]) {
      OutsideEmptyIff(st.estudiantes, gradoId, entries);
    }
  }

  /** No entry is misplaced exactly when every student is in the grade. */
  lemma {:induction false} OutsideEmptyIff(students: map<int, EstudianteRow>, gradoId: int, entries: seq<(int, string)>)
    requires forall i :: 0 <= i < |entries| ==> EntryOk(students, entries[i])
    ensures Outside(students, gradoId, entries) == [] <==>
      forall i :: 0 <= i < |entries| ==> students[entries[i].0].grado == Some(gradoId)
    decreases |entries|
  {
    if entries != [] {
      assert forall i :: 1 <= i < |entries| ==> entries[1..][i - 1] == entries[i];
      OutsideEmptyIff(students, gradoId, entries[1..]);
    }
  }

  /** With every entry acceptable but some students in other grades, the call fails
      with those students' ids, in iteration order. */
  lemma MisplacedListed(st: AsistenciaState, gradoId: int, entries: seq<(int, string)>, today: LocalDate)
    requires gradoId in st.grados && !AlreadyTaken(st, today, gradoId)
    requires forall i :: 0 <= i < |entries| ==> EntryOk(st.estudiantes, entries[i])
    requires Outside(st.estudiantes, gradoId, entries) != []
    ensures RollCall(st, gradoId, entries, today)
      == (Err(EntityNotFound(OutsideMessage(Outside(st.estudiantes, gradoId, entries)))), st)
  {
    ScanOutcome(st.estudiantes, gradoId, entries);
  }

  /** An accepted roll call commits the scan of its entries: every student is
      recorded. */
  lemma AcceptedCommits(st: AsistenciaState, gradoId: int, entries: seq<(int, string)>, today: LocalDate)
    requires RollCall(st, gradoId, entries, today).0.Ok?
    ensures gradoId in st.grados
    ensures forall i :: 0 <= i < |entries| ==>
      EntryOk(st.estudiantes, entries[i]) && st.estudiantes[entries[i].0].grado == Some(gradoId)
    ensures RollCall(st, gradoId, entries, today).1
      == Committed(st, gradoId, today, Accepted(st.estudiantes, gradoId, entries))
  {
    AcceptedIff(st, gradoId, entries, today);
    ScanOutcome(st.estudiantes, gradoId, entries);
  }

  /** An accepted roll call raises the grade's counter by one (as an `int`), leaves
      the other grades and the students alone, and reuses today's `Fecha` or
      creates exactly that one. */
  lemma AcceptedBookkeeping(st: AsistenciaState, gradoId: int, entries: seq<(int, string)>, today: LocalDate)
    requires RollCall(st, gradoId, entries, today).0.Ok?
    ensures var st1 := RollCall(st, gradoId, entries, today).1;
      gradoId in st.grados && gradoId in st1.grados
      && st1.grados[gradoId] == st.grados[gradoId].(contador := Incremented(st.grados[gradoId].contador))
      && (forall g :: g in st.grados && g != gradoId ==> g in st1.grados && st1.grados[g] == st.grados[g])
      && st1.grados.Keys == st.grados.Keys
      && st1.estudiantes == st.estudiantes
      && (today in st.fechas ==> st1.fechas == st.fechas)
      && (today !in st.fechas ==> st1.fechas == st.fechas[today := NewFecha(today)])
  {
    AcceptedCommits(st, gradoId, entries, today);
  }

  /** An accepted roll call adds exactly one record per entry, at the next
      identities, and keeps the stored ones. */
  lemma AcceptedRecords(st: AsistenciaState, gradoId: int, entries: seq<(int, string)>, today: LocalDate)
    requires Valid(st)
    requires RollCall(st, gradoId, entries, today).0.Ok?
    ensures var st1 := RollCall(st, gradoId, entries, today).1;
      Valid(st1)
      && st1.nextId == st.nextId + |entries|
      && (forall k :: k in st.asistencias ==> k in st1.asistencias && st1.asistencias[k] == st.asistencias[k])
      && (forall k :: k in st1.asistencias ==> k in st.asistencias || st.nextId <= k < st.nextId + |entries|)
      && (forall k :: st.nextId <= k < st.nextId + |entries| ==>
            k in st1.asistencias
            && ValueOf(entries[k - st.nextId].1) == Ok(st1.asistencias[k].estado)
            && st1.asistencias[k]
                 == AsistenciaRow(Some(DefaultObservaciones), st1.asistencias[k].estado,
                                  today, entries[k - st.nextId].0, gradoId))
  {
    AcceptedCommits(st, gradoId, entries, today);
    var acc := Accepted(st.estudiantes, gradoId, entries);
    AcceptedAll(st.estudiantes, gradoId, entries);
    CommittedRecords(st, gradoId, today, acc);
  }

  /** The records part of the commit, in terms of the accepted list. */
  lemma CommittedRecords(st: AsistenciaState, gradoId: int, today: LocalDate, acc: seq<(int, EstadoAsistencia)>)
    requires Valid(st) && gradoId in st.grados
    ensures var st1 := Committed(st, gradoId, today, acc);
      Valid(st1)
      && st1.nextId == st.nextId + |acc|
      && (forall k :: k in st.asistencias ==> k in st1.asistencias && st1.asistencias[k] == st.asistencias[k])
      && (forall k :: k in st1.asistencias ==> k in st.asistencias || st.nextId <= k < st.nextId + |acc|)
      && (forall k :: st.nextId <= k < st.nextId + |acc| ==>
            k in st1.asistencias
            && st1.asistencias[k]
                 == AsistenciaRow(Some(DefaultObservaciones), acc[k - st.nextId].1, today, acc[k - st.nextId].0, gradoId))
  {
    RecordsShape(st.nextId, acc, today, gradoId);
  }

  /** When every student is in the grade, the accepted list is the entries with
      their parsed states. */
  lemma {:induction false} AcceptedAll(students: map<int, EstudianteRow>, gradoId: int, entries: seq<(int, string)>)
    requires forall i :: 0 <= i < |entries| ==>
      EntryOk(students, entries[i]) && students[entries[i].0].grado == Some(gradoId)
    ensures |Accepted(students, gradoId, entries)| == |entries|
    ensures forall i :: 0 <= i < |entries| ==>
      Accepted(students, gradoId, entries)[i].0 == entries[i].0
      && ValueOf(entries[i].1) == Ok(Accepted(students, gradoId, entries)[i].1)
    decreases |entries|
  {
    if entries != [] {
      assert forall i :: 1 <= i < |entries| ==> entries[1..][i - 1] == entries[i];
      AcceptedAll(students, gradoId, entries[1..]);
    }
  }

  /** After an accepted roll call with at least one entry, a second one for the same
      grade on the same day is rejected. */
  lemma SecondRollCallRejected(st: AsistenciaState, gradoId: int, entries: seq<(int, string)>,
                               again: seq<(int, string)>, today: LocalDate)
    requires Valid(st)
    requires RollCall(st, gradoId, entries, today).0.Ok? && entries != []
    ensures var st1 := RollCall(st, gradoId, entries, today).1;
      RollCall(st1, gradoId, again, today) == (Err(EntityNotFound(AlreadyTakenMessage)), st1)
  {
    AcceptedRecords(st, gradoId, entries, today);
    var st1 := RollCall(st, gradoId, entries, today).1;
    assert st.nextId in st1.asistencias;
    assert st1.asistencias[st.nextId].fecha == today && st1.asistencias[st.nextId].grado == gradoId;
  }

  /** An empty roll call writes no record, so it may be repeated on the same day;
      each repetition raises the counter again. */
  lemma EmptyRollCallRepeats(st: AsistenciaState, gradoId: int, today: LocalDate)
    requires gradoId in st.grados && !AlreadyTaken(st, today, gradoId)
    ensures var (r1, st1) := RollCall(st, gradoId, [], today);
      var (r2, st2) := RollCall(st1, gradoId, [], today);
      r1.Ok? && r2.Ok? && st2.asistencias == st.asistencias
      && st2.grados[gradoId].contador == Incremented(Incremented(st.grados[gradoId].contador))
  {
    var st1 := RollCall(st, gradoId, [], today).1;
    assert Records(st.nextId, [], today, gradoId) == map[];
    assert st1.asistencias == st.asistencias;
    assert !AlreadyTaken(st1, today, gradoId);
  }

  /** The records of an accepted roll call are found by a query over today. */
  lemma RollCallVisibleInRange(st: AsistenciaState, gradoId: int, entries: seq<(int, string)>, today: LocalDate)
    requires Valid(st)
    requires RollCall(st, gradoId, entries, today).0.Ok? && entries != []
    ensures var st1 := RollCall(st, gradoId, entries, today).1;
      var r := ByDateRange(st1, gradoId, today, today);
      r.Ok? && forall k :: st.nextId <= k < st.nextId + |entries| ==> k in r.value
  {
    AcceptedBookkeeping(st, gradoId, entries, today);
    AcceptedRecords(st, gradoId, entries, today);
    var st1 := RollCall(st, gradoId, entries, today).1;
    DateLeTotal(today, today);
    assert st.nextId in InRange(st1, gradoId, today, today);
  }

  /** `update` on an unknown id fails, values other than the two corrections change
      nothing, and a correction rewrites that one record's state and observations. */
  lemma UpdateCases(st: AsistenciaState, id: int, estado: Option<string>, just: Option<string>)
    ensures id !in st.asistencias ==> UpdateRecord(st, id, estado, just) == (Err(EntityNotFound(UpdateNotFoundMessage)), st)
    ensures id in st.asistencias && estado != Some("JUSTIFICADO") && estado != Some("TARDE") ==>
      UpdateRecord(st, id, estado, just) == (Ok(()), st)
    ensures id in st.asistencias && estado == Some("JUSTIFICADO") ==>
      UpdateRecord(st, id, estado, just).1.asistencias
        == st.asistencias[id := st.asistencias[id].(estado := JUSTIFICADO, observaciones := just)]
    ensures id in st.asistencias && estado == Some("TARDE") ==>
      UpdateRecord(st, id, estado, just).1.asistencias
        == st.asistencias[id := st.asistencias[id].(estado := TARDE, observaciones := just)]
    ensures UpdateRecord(st, id, estado, just).1.(asistencias := st.asistencias) == st
  {
  }

  /** Repeating a correction changes nothing more. */
  lemma UpdateIdempotent(st: AsistenciaState, id: int, estado: Option<string>, just: Option<string>)
    ensures var st1 := UpdateRecord(st, id, estado, just).1;
      UpdateRecord(st1, id, estado, just) == (UpdateRecord(st, id, estado, just).0, st1)
  {
    var st1 := UpdateRecord(st, id, estado, just).1;
    if id in st.asistencias {
      assert st1.asistencias[id := st1.asistencias[id]] == st1.asistencias;
    }
  }

  // ---------------------------------------------------------------------------
  // The service object

  class AsistenciaServiceImpl {
    var grados: map<int, GradoRow>
    var estudiantes: map<int, EstudianteRow>
    var fechas: map<LocalDate, FechaRow>
    var asistencias: map<int, AsistenciaRow>
    var nextId: int

    function State(): AsistenciaState
      reads this
    {
      AsistenciaState(grados, estudiantes, fechas, asistencias, nextId)
    }

    constructor (st: AsistenciaState)
      ensures State() == st
    {
      grados := st.grados;
      estudiantes := st.estudiantes;
      fechas := st.fechas;
      asistencias := st.asistencias;
      nextId := st.nextId;
    }

    /** `asistenciaDelDia(request)`: the loop saves into a pending set, which is
        written only when the transaction commits. */
    method AsistenciaDelDia(gradoId: int, entries: seq<(int, string)>, today: LocalDate)
      returns (r: Result<(), Exception>)
      modifies this
      ensures (r, State()) == RollCall(old(State()), gradoId, entries, today)
    {
      if gradoId !in grados {
        return Err(EntityNotFound(GradoNoEncontrado));
      }
      if AlreadyTaken(State(), today, gradoId) {
        return Err(EntityNotFound(AlreadyTakenMessage));
      }
      var fechas1 := fechas;
      if today !in fechas1 {
        fechas1 := fechas1[today := NewFecha(today)];
      }
      var grado := new Grado.Load(gradoId, grados[gradoId]);
      grado.IncrementarContador();

      var scan, saved := Collect(estudiantes, gradoId, entries, nextId, today);
      assert State() == old(State());
      if scan.Err? {
        return Err(scan.error);
      }
      if scan.value.outside != [] {
        var text := OutsideText(scan.value.outside);
        return Err(EntityNotFound(text));
      }

      ghost var st := State();
      assert grado.Row() == st.grados[gradoId].(contador := Incremented(st.grados[gradoId].contador));
      assert Committed(st, gradoId, today, scan.value.accepted)
        == AsistenciaState(grados[gradoId := grado.Row()], estudiantes, fechas1, asistencias + saved,
                           nextId + |scan.value.accepted|);
      fechas := fechas1;
      grados := grados[gradoId := grado.Row()];
      asistencias := asistencias + saved;
      nextId := nextId + |scan.value.accepted|;
      r := Ok(());
    }

    /** The loop of `asistenciaDelDia`: parse each entry's state, load its student,
        and either save a record at the next identity from `base` or note the
        student as misplaced. */
    static method Collect(estudiantes: map<int, EstudianteRow>, gradoId: int, entries: seq<(int, string)>,
                          base: int, today: LocalDate)
      returns (scan: Result<Scan, Exception>, saved: map<int, AsistenciaRow>)
      ensures scan == ScanEntries(estudiantes, gradoId, entries)
      ensures scan.Ok? ==> saved == Records(base, scan.value.accepted, today, gradoId)
    {
      saved := map[];
      var next := base;
      var outside: seq<int> := [];
      var accepted: seq<(int, EstadoAsistencia)> := [];
      var i := 0;
      while i < |entries|
        invariant 0 <= i <= |entries|
        invariant ScanEntries(estudiantes, gradoId, entries[..i]) == Ok(Scan(accepted, outside))
        invariant saved == Records(base, accepted, today, gradoId)
        invariant next == base + |accepted|
      {
        var e := entries[i];
        assert entries[..i + 1][..i] == entries[..i];
        assert entries[..i + 1][i] == e;
        var estado := ValueOf(e.1);
        if estado.Err? {
          ScanErrStays(estudiantes, gradoId, entries, i + 1);
          return Err(estado.error), saved;
        }
        if e.0 !in estudiantes {
          ScanErrStays(estudiantes, gradoId, entries, i + 1);
          return Err(EntityNotFound(EstudianteNoEncontrado)), saved;
        }
        var estudiante := estudiantes[e.0];
        if estudiante.grado.None? {
          ScanErrStays(estudiantes, gradoId, entries, i + 1);
          return Err(MissingGradeError), saved;
        }
        if estudiante.grado.value == gradoId {
          saved := saved[next := AsistenciaRow(Some(DefaultObservaciones), estado.value, today, e.0, gradoId)];
          next := next + 1;
          accepted := accepted + [(e.0, estado.value)];
        } else {
          outside := outside + [e.0];
        }
        i := i + 1;
      }
      assert entries[..i] == entries;
      scan := Ok(Scan(accepted, outside));
    }

    /** The StringBuilder of the final check: the prefix, each id followed by
        ", ", the last two characters dropped, the suffix. */
    static method OutsideText(outside: seq<int>) returns (text: string)
      requires outside != []
      ensures text == OutsideMessage(outside)
    {
      var listed := "";
      var j := 0;
      while j < |outside|
        invariant 0 <= j <= |outside|
        invariant listed == Listed(outside[..j])
      {
        assert outside[..j + 1][..j] == outside[..j];
        listed := listed + IntToString(outside[j]) + ", ";
        j := j + 1;
      }
      assert outside[..j] == outside;
      ListedIsJoin(outside);
      text := OutsidePrefix + listed[..|listed| - 2] + OutsideSuffix;
    }

    /** `update(requestDto)`. */
    method Update(id: int, estado: Option<string>, justificativos: Option<string>) returns (r: Result<(), Exception>)
      modifies this
      ensures (r, State()) == UpdateRecord(old(State()), id, estado, justificativos)
    {
      if id !in asistencias {
        return Err(EntityNotFound(UpdateNotFoundMessage));
      }
      var asistencia := asistencias[id];
      if estado == Some("JUSTIFICADO") || estado == Some("TARDE") {
        var parsed := ValueOf(estado.value);
        if parsed.Ok? {
          asistencia := asistencia.(estado := parsed.value, observaciones := justificativos);
        }
      }
      assert asistencias[id := asistencias[id]] == asistencias;
      asistencias := asistencias[id := asistencia];
      r := Ok(());
    }
  }
}
