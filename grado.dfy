// Grado: a school grade. Its one behaviour of its own is the class counter that
// every accepted roll call raises; the counter is a Java `int`, so it wraps at
// 2^31 - 1.

module GradoEntity {
  import opened Wrappers

  const MinInt: int := -0x8000_0000
  const MaxInt: int := 0x7fff_ffff

  /** A Java `int`. */
  type Int32 = x: int | MinInt <= x <= MaxInt

  /** The persisted columns and relations of a grade. The four enum columns hold
      the constant's name, or None for null; `estudiantes` lists the ids of its
      students. */
  datatype GradoRow = GradoRow(
    aula: Option<string>,
    curso: Option<string>,
    turno: Option<string>,
    materia: Option<string>,
    contador: Int32,
    profesor: Option<int>,
    estudiantes: seq<int>)

  /** `contador++` on an `int`. */
  function Incremented(c: Int32): (d: Int32)
    ensures c < MaxInt ==> d == c + 1
    ensures c == MaxInt ==> d == MinInt
  {
    if c == MaxInt then MinInt else c + 1
  }

  /** The counter after `n` increments. */
  function IncrementedTimes(c: Int32, n: nat): Int32
  {
    if n == 0 then c else Incremented(IncrementedTimes(c, n - 1))
  }

  /** Starting from zero, `n` increments count to `n` as long as `n` fits an `int`. */
  lemma {:induction false} CountsCalls(n: nat)
    requires n <= MaxInt
    ensures IncrementedTimes(0, n) == n
  {
    if n > 0 {
      CountsCalls(n - 1);
    }
  }

  /** One more increment than `MaxInt` from zero wraps to the most negative value. */
  lemma {:induction false} WrapsAfterMaxInt()
    ensures IncrementedTimes(0, MaxInt + 1) == MinInt
  {
    CountsCalls(MaxInt);
  }

  /** The entity, as loaded from its row. */
  class Grado {
    const id: int
    var aula: Option<string>
    var curso: Option<string>
    var turno: Option<string>
    var materia: Option<string>
    var contador: Int32
    var profesor: Option<int>
    var estudiantes: seq<int>

    function Row(): GradoRow
      reads this
    {
      GradoRow(aula, curso, turno, materia, contador, profesor, estudiantes)
    }

    /** A grade built through the builder or the no-argument constructor: the
        counter starts at zero and there are no students. The entity leaves its
        student list null; the model's empty list stands for it, since nothing
        modelled reads the list of a grade before it is stored. */
    constructor (id: int, aula: Option<string>, curso: Option<string>, turno: Option<string>,
                 materia: Option<string>, profesor: Option<int>)
      ensures this.id == id
      ensures Row() == GradoRow(aula, curso, turno, materia, 0, profesor, [])
    {
      this.id := id;
      this.aula := aula;
      this.curso := curso;
      this.turno := turno;
      this.materia := materia;
      this.contador := 0;
      this.profesor := profesor;
      this.estudiantes := [];
    }

    /** The entity the persistence layer materialises from a stored row. */
    constructor Load(id: int, r: GradoRow)
      ensures this.id == id && Row() == r
    {
      this.id := id;
      aula := r.aula;
      curso := r.curso;
      turno := r.turno;
      materia := r.materia;
      contador := r.contador;
      profesor := r.profesor;
      estudiantes := r.estudiantes;
    }

    /** `incrementarContador`: only the counter changes. */
    method IncrementarContador()
      modifies this`contador
      ensures contador == Incremented(old(contador))
      ensures Row() == old(Row()).(contador := Incremented(old(contador)))
    {
      contador := if contador == MaxInt then MinInt else contador + 1;
    }
  }
}
