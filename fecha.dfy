// Fecha: the calendar row an attendance record points to. Its constructor copies
// the date and derives the year, month, day, quarter and week of the month.

module Fecha {
  /** A month number, as `LocalDate.getMonthValue()` returns it. */
  type Month = m: int | 1 <= m <= 12 witness 1

  /** A day of the month, as `LocalDate.getDayOfMonth()` returns it. */
  type DayOfMonth = d: int | 1 <= d <= 31 witness 1

  /** `java.time.LocalDate`. */
  datatype LocalDate = LocalDate(year: int, month: Month, day: DayOfMonth)

  /** Calendar order: by year, then month, then day. */
  predicate DateLe(a: LocalDate, b: LocalDate)
  {
    a.year < b.year
    || (a.year == b.year && (a.month < b.month || (a.month == b.month && a.day <= b.day)))
  }

  /** The persisted row. */
  datatype FechaRow = FechaRow(fecha: LocalDate, anio: int, mes: int, dia: int, trimestre: int, semana: int)

  /** `(mes - 1) / 3 + 1`; the operand is never negative, so Java's division and
      Dafny's agree. The result is the quarter whose three months hold `mes`. */
  function Trimestre(mes: Month): (t: int)
    ensures 1 <= t <= 4
    ensures 3 * (t - 1) < mes <= 3 * t
  {
    (mes - 1) / 3 + 1
  }

  /** `(dia - 1) / 7 + 1`: the seven-day block of the month that holds `dia`. */
  function Semana(dia: DayOfMonth): (w: int)
    ensures 1 <= w <= 5
    ensures 7 * (w - 1) < dia <= 7 * w
  {
    (dia - 1) / 7 + 1
  }

  /** `new Fecha(LocalDate)`. */
  function NewFecha(d: LocalDate): (f: FechaRow)
    ensures f.fecha == d && f.anio == d.year && f.mes == d.month && f.dia == d.day
    ensures 1 <= f.trimestre <= 4 && 3 * (f.trimestre - 1) < f.mes <= 3 * f.trimestre
    ensures 1 <= f.semana <= 5 && 7 * (f.semana - 1) < f.dia <= 7 * f.semana
  {
    FechaRow(d, d.year, d.month, d.day, Trimestre(d.month), Semana(d.day))
  }

  /** A later month never lies in an earlier quarter. */
  lemma TrimestreMonotone(m1: Month, m2: Month)
    requires m1 <= m2
    ensures Trimestre(m1) <= Trimestre(m2)
  {
    var t1, t2 := Trimestre(m1), Trimestre(m2);
    assert 3 * (t1 - 1) < m1 <= m2 <= 3 * t2;
  }

  /** The quarter is determined by the bounds alone: any `t` with
      `3(t-1) < mes <= 3t` is the derived one. */
  lemma TrimestreUnique(mes: Month, t: int)
    requires 3 * (t - 1) < mes <= 3 * t
    ensures t == Trimestre(mes)
  {
    var q := Trimestre(mes);
    assert 3 * (q - 1) < 3 * t && 3 * (t - 1) < 3 * q;
  }

  /** The week is a later one only in a later day. */
  lemma SemanaMonotone(d1: DayOfMonth, d2: DayOfMonth)
    requires d1 <= d2
    ensures Semana(d1) <= Semana(d2)
  {
    var w1, w2 := Semana(d1), Semana(d2);
    assert 7 * (w1 - 1) < d1 <= d2 <= 7 * w2;
  }

  /** `DateLe` is a total order: reflexive, antisymmetric and total. */
  lemma DateLeTotal(a: LocalDate, b: LocalDate)
    ensures DateLe(a, a)
    ensures DateLe(a, b) && DateLe(b, a) ==> a == b
    ensures DateLe(a, b) || DateLe(b, a)
  {
  }
}
