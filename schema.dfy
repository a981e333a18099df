/** The three Mongoose schemas (models/usuario.model.js, models/curso.model.js,
    models/inscripcion.model.js): the documents, the field constraints that
    `save`/`create` validate, and the unique indexes as predicates over a
    whole collection. Dates and timestamps are ticks of a counter. */
module Schema {
  import opened Text
  import opened ObjectIds

  const ALUMNO: string := "alumno"
  const DOCENTE: string := "docente"
  const ADMIN: string := "admin"

  /** The `tipo` enum of a user. */
  predicate IsTipo(t: string) {
    t == ALUMNO || t == DOCENTE || t == ADMIN
  }

  const MIN_NOMBRE_USUARIO: nat := 3
  const MIN_PASSWORD: nat := 6
  const MIN_CLASS_CODE: int := 1
  const MAX_CLASS_CODE: int := 15

  /** A stored user; `password` holds the digest, never the secret. */
  datatype Usuario = Usuario(id: Id, nombre: string, tipo: string, email: string, password: string)

  /** A user as the API returns it: every field but the password. */
  datatype UsuarioPublico = UsuarioPublico(id: Id, nombre: string, email: string, tipo: string)

  function Publico(u: Usuario): (p: UsuarioPublico)
    ensures p.id == u.id && p.nombre == u.nombre && p.email == u.email && p.tipo == u.tipo
  {
    UsuarioPublico(u.id, u.nombre, u.email, u.tipo)
  }

  /** A stored course; `docente` references a user. */
  datatype Curso = Curso(id: Id, nombre: string, descripcion: string, docente: Id, fecha: nat, classCode: int)

  /** A stored enrollment; `fecha` defaults to the creation time and
      `createdAt` is the timestamp Mongoose adds. */
  datatype Inscripcion = Inscripcion(id: Id, alumno: Id, curso: Id, fecha: nat, createdAt: nat)

  /** A character the RegExp `.` matches (anything but a line terminator). */
  predicate RegexDot(c: char) {
    c != '\n' && c != '\r' && c as int != 0x2028 && c as int != 0x2029
  }

  /** `/.+@.+\..+/.test(s)`: an `@` with a character before it, then at least
      one character, a dot and one more character, none of them a line break. */
  predicate MatchesEmailPattern(s: string) {
    exists i, j | 0 < i && i + 1 < j && j + 1 < |s| :: IsEmailMatch(s, i, j)
  }

  predicate IsEmailMatch(s: string, i: int, j: int) {
    0 < i && i + 1 < j && j + 1 < |s| && s[i] == '@' && s[j] == '.'
    && RegexDot(s[i - 1]) && RegexDot(s[j + 1])
    && forall k :: i < k < j ==> RegexDot(s[k])
  }

  /** What `Usuario.create` validates: `nombre` required, trimmed, at least
      3 characters; `tipo` required and in the enum; `email` required and
      matching the pattern; `password` required, at least 6 characters. */
  predicate UsuarioSchemaOk(u: Usuario) {
    && IsTrimmed(u.nombre) && |u.nombre| >= MIN_NOMBRE_USUARIO
    && IsTipo(u.tipo)
    && u.email != [] && MatchesEmailPattern(u.email)
    && |u.password| >= MIN_PASSWORD
  }

  /** What `Curso.save` validates: `nombre` required and trimmed,
      `descripcion` required, `classCode` within 1..15. The `docente`
      reference and `fecha` are always present in a `Curso` value. */
  predicate CursoSchemaOk(c: Curso) {
    && IsTrimmed(c.nombre) && c.nombre != []
    && c.descripcion != []
    && MIN_CLASS_CODE <= c.classCode <= MAX_CLASS_CODE
  }

  predicate AllCursosOk(cs: seq<Curso>) {
    forall i :: 0 <= i < |cs| ==> CursoSchemaOk(cs[i])
  }

  predicate UniqueUsuarioIds(us: seq<Usuario>) {
    forall i, j :: 0 <= i < j < |us| ==> us[i].id != us[j].id
  }

  /** The unique index on `email`. */
  predicate UniqueEmails(us: seq<Usuario>) {
    forall i, j :: 0 <= i < j < |us| ==> us[i].email != us[j].email
  }

  predicate UniqueCursoIds(cs: seq<Curso>) {
    forall i, j :: 0 <= i < j < |cs| ==> cs[i].id != cs[j].id
  }

  /** The unique index on `classCode`. */
  predicate UniqueClassCodes(cs: seq<Curso>) {
    forall i, j :: 0 <= i < j < |cs| ==> cs[i].classCode != cs[j].classCode
  }

  predicate UniqueInscripcionIds(es: seq<Inscripcion>) {
    forall i, j :: 0 <= i < j < |es| ==> es[i].id != es[j].id
  }

  /** The compound unique index `{ alumno: 1, curso: 1 }`. */
  predicate UniquePairs(es: seq<Inscripcion>) {
    forall i, j :: 0 <= i < j < |es| ==> es[i].alumno != es[j].alumno || es[i].curso != es[j].curso
  }

  /** Enrollments in natural order carry strictly increasing timestamps, all
      earlier than the clock. */
  predicate Chronological(es: seq<Inscripcion>, clock: nat) {
    && (forall i, j :: 0 <= i < j < |es| ==> es[i].createdAt < es[j].createdAt)
    && (forall i :: 0 <= i < |es| ==> es[i].createdAt < clock)
  }

  function ClassCodes(cs: seq<Curso>): set<int> {
    set i | 0 <= i < |cs| :: cs[i].classCode
  }

  /** The capacity ceiling of 15 courses is implied by the schema: distinct
      class codes drawn from 1..15 leave room for at most 15 courses. */
  lemma {:induction false} CapacityFromClassCodes(cs: seq<Curso>)
    requires AllCursosOk(cs) && UniqueClassCodes(cs)
    ensures |cs| <= MAX_CLASS_CODE
  {
    DistinctCodesCount(cs);
    var range := Range(MIN_CLASS_CODE, MAX_CLASS_CODE + 1);
    forall k | k in ClassCodes(cs) ensures k in range {
      RangeMembers(MIN_CLASS_CODE, MAX_CLASS_CODE + 1, k);
    }
    RangeSize(MIN_CLASS_CODE, MAX_CLASS_CODE + 1);
    SubsetSize(ClassCodes(cs), range);
  }

  lemma {:induction false} DistinctCodesCount(cs: seq<Curso>)
    requires UniqueClassCodes(cs)
    ensures |ClassCodes(cs)| == |cs|
  {
    if cs != [] {
      var last := |cs| - 1;
      var init := cs[..last];
      DistinctCodesCount(init);
      assert ClassCodes(cs) == ClassCodes(init) + {cs[last].classCode};
      assert cs[last].classCode !in ClassCodes(init);
    }
  }

  /** The integers `lo <= k < hi`. */
  function Range(lo: int, hi: int): set<int>
    decreases hi - lo
  {
    if lo >= hi then {} else {lo} + Range(lo + 1, hi)
  }

  lemma {:induction false} RangeMembers(lo: int, hi: int, k: int)
    ensures k in Range(lo, hi) <==> lo <= k < hi
    decreases hi - lo
  {
    if lo < hi {
      RangeMembers(lo + 1, hi, k);
    }
  }

  lemma {:induction false} RangeSize(lo: int, hi: int)
    requires lo <= hi
    ensures |Range(lo, hi)| == hi - lo
    decreases hi - lo
  {
    if lo < hi {
      RangeSize(lo + 1, hi);
      RangeMembers(lo + 1, hi, lo);
    }
  }

  lemma SubsetSize(a: set<int>, b: set<int>)
    requires a <= b
    ensures |a| <= |b|
  {
    assert b == a + (b - a);
  }
}
