/** The in-memory stand-in for the Mongo database: three collections in
    natural (insertion) order, the queries the controllers issue against
    them, and the writes, which enforce the unique indexes the way the
    storage engine does (a violating write is refused with a duplicate-key
    error, code 11000, and changes nothing). */
module Store {
  import opened Wrappers
  import opened Text
  import opened ObjectIds
  import opened Schema
  import opened Seqs

  // ---- queries on usuarios ----

  /** Position of the user with `_id == id`. */
  function UsuarioIndex(us: seq<Usuario>, id: Id): (r: Option<nat>)
    ensures r.Some? ==> r.value < |us| && us[r.value].id == id
    ensures r.None? ==> forall i :: 0 <= i < |us| ==> us[i].id != id
  {
    IndexWhere(us, (u: Usuario) => u.id == id)
  }

  /** `Usuario.findById(id)`. */
  function UsuarioById(us: seq<Usuario>, id: Id): (r: Option<Usuario>)
    ensures r.Some? ==> r.value in us && r.value.id == id
    ensures r.None? <==> forall i :: 0 <= i < |us| ==> us[i].id != id
  {
    match UsuarioIndex(us, id)
    case None => None
    case Some(i) => Some(us[i])
  }

  /** `Usuario.findOne({ email })`. */
  function UsuarioByEmail(us: seq<Usuario>, email: string): (r: Option<Usuario>)
    ensures r.Some? ==> r.value in us && r.value.email == email
    ensures r.None? <==> forall i :: 0 <= i < |us| ==> us[i].email != email
  {
    match IndexWhere(us, (u: Usuario) => u.email == email)
    case None => None
    case Some(i) => Some(us[i])
  }

  /** `Usuario.findOne({ _id: id, tipo })`: the role filter applies to the id lookup too. */
  function UsuarioByIdTipo(us: seq<Usuario>, id: Id, tipo: string): (r: Option<Usuario>)
    ensures r.Some? ==> r.value in us && r.value.id == id && r.value.tipo == tipo
    ensures r.None? <==> forall i :: 0 <= i < |us| ==> !(us[i].id == id && us[i].tipo == tipo)
  {
    match IndexWhere(us, (u: Usuario) => u.id == id && u.tipo == tipo)
    case None => None
    case Some(i) => Some(us[i])
  }

  /** `Usuario.findOne({ email, tipo })`. */
  function UsuarioByEmailTipo(us: seq<Usuario>, email: string, tipo: string): (r: Option<Usuario>)
    ensures r.Some? ==> r.value in us && r.value.email == email && r.value.tipo == tipo
    ensures r.None? <==> forall i :: 0 <= i < |us| ==> !(us[i].email == email && us[i].tipo == tipo)
  {
    match IndexWhere(us, (u: Usuario) => u.email == email && u.tipo == tipo)
    case None => None
    case Some(i) => Some(us[i])
  }

  predicate NombreTipoMatch(u: Usuario, pattern: string, tipo: string) {
    u.tipo == tipo && ContainsIgnoreCase(u.nombre, pattern)
  }

  /** `Usuario.findOne({ nombre: new RegExp(pattern, 'i'), tipo })`: the FIRST
      user of that role whose name contains the pattern; there is no error
      when several match. */
  function UsuarioByNombreTipo(us: seq<Usuario>, pattern: string, tipo: string): (r: Option<Usuario>)
    ensures r.Some? ==> exists i :: 0 <= i < |us| && us[i] == r.value
                          && NombreTipoMatch(us[i], pattern, tipo)
                          && forall j :: 0 <= j < i ==> !NombreTipoMatch(us[j], pattern, tipo)
    ensures r.None? <==> forall i :: 0 <= i < |us| ==> !NombreTipoMatch(us[i], pattern, tipo)
  {
    match IndexWhere(us, (u: Usuario) => NombreTipoMatch(u, pattern, tipo))
    case None => None
    case Some(i) => Some(us[i])
  }

  /** `Usuario.find({ nombre: new RegExp(pattern, 'i'), tipo })`: all of them. */
  function UsuariosByNombreTipo(us: seq<Usuario>, pattern: string, tipo: string): (r: seq<Usuario>)
    ensures forall u :: u in r <==> u in us && NombreTipoMatch(u, pattern, tipo)
  {
    Where(us, (u: Usuario) => NombreTipoMatch(u, pattern, tipo))
  }

  function IdsOfUsuarios(us: seq<Usuario>): (ids: seq<Id>)
    ensures |ids| == |us| && forall i :: 0 <= i < |us| ==> ids[i] == us[i].id
  {
    seq(|us|, i requires 0 <= i < |us| => us[i].id)
  }

  /** An id is among the ids of some users exactly when one of them has it. */
  lemma IdsOfUsuariosMembers(us: seq<Usuario>, id: Id)
    ensures id in IdsOfUsuarios(us) <==> exists u :: u in us && u.id == id
  {
    var ids := IdsOfUsuarios(us);
    if id in ids {
      var k :| 0 <= k < |ids| && ids[k] == id;
      assert us[k] in us;
    }
    if exists u :: u in us && u.id == id {
      var u :| u in us && u.id == id;
      var k :| 0 <= k < |us| && us[k] == u;
      assert ids[k] == id;
    }
  }

  /** Another user than the one at `i` already has this email. */
  predicate EmailTakenExcept(us: seq<Usuario>, email: string, i: int) {
    exists j | 0 <= j < |us| :: j != i && us[j].email == email
  }

  // ---- queries on cursos ----

  function CursoIndex(cs: seq<Curso>, id: Id): (r: Option<nat>)
    ensures r.Some? ==> r.value < |cs| && cs[r.value].id == id
    ensures r.None? ==> forall i :: 0 <= i < |cs| ==> cs[i].id != id
  {
    IndexWhere(cs, (c: Curso) => c.id == id)
  }

  /** `Curso.findById(id)`. */
  function CursoById(cs: seq<Curso>, id: Id): (r: Option<Curso>)
    ensures r.Some? ==> r.value in cs && r.value.id == id
    ensures r.None? <==> forall i :: 0 <= i < |cs| ==> cs[i].id != id
  {
    match CursoIndex(cs, id)
    case None => None
    case Some(i) => Some(cs[i])
  }

  /** `Curso.findOne({ classCode: code })`. */
  function CursoByCode(cs: seq<Curso>, code: int): (r: Option<Curso>)
    ensures r.Some? ==> r.value in cs && r.value.classCode == code
    ensures r.None? <==> forall i :: 0 <= i < |cs| ==> cs[i].classCode != code
  {
    match IndexWhere(cs, (c: Curso) => c.classCode == code)
    case None => None
    case Some(i) => Some(cs[i])
  }

  /** `Curso.findOne({ classCode: code, _id: { $ne: id } })`. */
  function CursoByCodeExcept(cs: seq<Curso>, code: int, id: Id): (r: Option<Curso>)
    ensures r.Some? ==> r.value in cs && r.value.classCode == code && r.value.id != id
    ensures r.None? <==> forall i :: 0 <= i < |cs| ==> cs[i].classCode != code || cs[i].id == id
  {
    match IndexWhere(cs, (c: Curso) => c.classCode == code && c.id != id)
    case None => None
    case Some(i) => Some(cs[i])
  }

  /** `Curso.findOne({ nombre: new RegExp('^' + name + '$', 'i') })`: the first
      course whose whole name equals `name` up to case. */
  function CursoByNombreExacto(cs: seq<Curso>, name: string): (r: Option<Curso>)
    ensures r.Some? ==> r.value in cs && EqualsIgnoreCase(r.value.nombre, name)
    ensures r.None? <==> forall i :: 0 <= i < |cs| ==> !EqualsIgnoreCase(cs[i].nombre, name)
  {
    match IndexWhere(cs, (c: Curso) => EqualsIgnoreCase(c.nombre, name))
    case None => None
    case Some(i) => Some(cs[i])
  }

  /** `Curso.findOne({ nombre: new RegExp(pattern, 'i') })`: the first course
      whose name contains `pattern` up to case. */
  function CursoByNombre(cs: seq<Curso>, pattern: string): (r: Option<Curso>)
    ensures r.Some? ==> r.value in cs && ContainsIgnoreCase(r.value.nombre, pattern)
    ensures r.None? <==> forall i :: 0 <= i < |cs| ==> !ContainsIgnoreCase(cs[i].nombre, pattern)
  {
    match IndexWhere(cs, (c: Curso) => ContainsIgnoreCase(c.nombre, pattern))
    case None => None
    case Some(i) => Some(cs[i])
  }

  /** `Curso.find({ docente: { $in: ids } })`. */
  function CursosOfDocentes(cs: seq<Curso>, ids: seq<Id>): (r: seq<Curso>)
    ensures forall c :: c in r <==> c in cs && c.docente in ids
  {
    Where(cs, (c: Curso) => c.docente in ids)
  }

  function IdsOfCursos(cs: seq<Curso>): (ids: seq<Id>)
    ensures |ids| == |cs| && forall i :: 0 <= i < |cs| ==> ids[i] == cs[i].id
  {
    seq(|cs|, i requires 0 <= i < |cs| => cs[i].id)
  }

  /** An id is among the ids of some courses exactly when one of them has it. */
  lemma IdsOfCursosMembers(cs: seq<Curso>, id: Id)
    ensures id in IdsOfCursos(cs) <==> exists c :: c in cs && c.id == id
  {
    var ids := IdsOfCursos(cs);
    if id in ids {
      var k :| 0 <= k < |ids| && ids[k] == id;
      assert cs[k] in cs;
    }
    if exists c :: c in cs && c.id == id {
      var c :| c in cs && c.id == id;
      var k :| 0 <= k < |cs| && cs[k] == c;
      assert ids[k] == id;
    }
  }

  /** Another course than the one at `i` already has this class code. */
  predicate ClassCodeTakenExcept(cs: seq<Curso>, code: int, i: int) {
    exists j | 0 <= j < |cs| :: j != i && cs[j].classCode == code
  }

  // ---- queries on inscripciones ----

  function InscripcionIndex(es: seq<Inscripcion>, id: Id): (r: Option<nat>)
    ensures r.Some? ==> r.value < |es| && es[r.value].id == id
    ensures r.None? ==> forall i :: 0 <= i < |es| ==> es[i].id != id
  {
    IndexWhere(es, (e: Inscripcion) => e.id == id)
  }

  /** `Inscripcion.findOne({ alumno, curso })` finds something. */
  predicate PairTaken(es: seq<Inscripcion>, alumno: Id, curso: Id) {
    exists i | 0 <= i < |es| :: es[i].alumno == alumno && es[i].curso == curso
  }

  /** `Inscripcion.find({ curso })`, in natural order. */
  function InscripcionesOfCurso(es: seq<Inscripcion>, curso: Id): (r: seq<Inscripcion>)
    ensures forall e :: e in r <==> e in es && e.curso == curso
  {
    Where(es, (e: Inscripcion) => e.curso == curso)
  }

  /** Every enrollment references a stored course. */
  predicate CursosReferenced(es: seq<Inscripcion>, cs: seq<Curso>) {
    forall i :: 0 <= i < |es| ==> CursoIndex(cs, es[i].curso).Some?
  }

  /** Filtering keeps enrollments in strictly increasing creation order. */
  lemma {:induction false} OfCursoChronological(es: seq<Inscripcion>, curso: Id, clock: nat)
    requires Chronological(es, clock)
    ensures Chronological(InscripcionesOfCurso(es, curso), clock)
  {
    if es != [] {
      var tail := es[1..];
      assert Chronological(tail, clock);
      OfCursoChronological(tail, curso, clock);
      var rest := InscripcionesOfCurso(tail, curso);
      assert InscripcionesOfCurso(es, curso) == (if es[0].curso == curso then [es[0]] else []) + rest;
      if es[0].curso == curso {
        forall k | 0 <= k < |rest| ensures es[0].createdAt < rest[k].createdAt {
          assert rest[k] in tail;
        }
        ConsChronological(es[0], rest, clock);
      } else {
        assert InscripcionesOfCurso(es, curso) == rest;
      }
    }
  }

  /** An enrollment older than every later one and than the clock can go in front. */
  lemma ConsChronological(e: Inscripcion, rest: seq<Inscripcion>, clock: nat)
    requires Chronological(rest, clock) && e.createdAt < clock
    requires forall k :: 0 <= k < |rest| ==> e.createdAt < rest[k].createdAt
    ensures Chronological([e] + rest, clock)
  {
    var es := [e] + rest;
    forall i, j | 0 <= i < j < |es| ensures es[i].createdAt < es[j].createdAt {
      assert es[j] == rest[j - 1];
      if i > 0 {
        assert es[i] == rest[i - 1];
      }
    }
  }

  /** Overwriting one course with a valid one of the same id and a class
      code no other course has keeps the course indexes and schema. */
  lemma ReplaceKeepsCursoIndexes(cs: seq<Curso>, i: nat, c: Curso)
    requires UniqueCursoIds(cs) && UniqueClassCodes(cs) && AllCursosOk(cs)
    requires i < |cs| && cs[i].id == c.id && CursoSchemaOk(c)
    requires !ClassCodeTakenExcept(cs, c.classCode, i)
    ensures UniqueCursoIds(cs[i := c]) && UniqueClassCodes(cs[i := c]) && AllCursosOk(cs[i := c])
  {
    var updated := cs[i := c];
    forall a, b | 0 <= a < b < |updated|
      ensures updated[a].classCode != updated[b].classCode && updated[a].id != updated[b].id
    {
      if a == i {
        assert updated[b] == cs[b];
      } else if b == i {
        assert updated[a] == cs[a];
      } else {
        assert updated[a] == cs[a] && updated[b] == cs[b];
      }
    }
  }

  /** The outcome of a write: stored, or refused by a unique index (Mongo error 11000). */
  datatype Write = Written | DuplicateKey

  class Db {
    var usuarios: seq<Usuario>
    var cursos: seq<Curso>
    var inscripciones: seq<Inscripcion>
    /** Source of `createdAt` and of the enrollment `fecha` default. */
    var clock: nat

    /** The unique indexes, the course schema (every course was validated
        by `save` or by an update with `runValidators`) and the timestamp
        order. The user schema is not part of it: user updates run no
        validators. */
    ghost predicate Valid()
      reads this
    {
      && UniqueUsuarioIds(usuarios) && UniqueEmails(usuarios)
      && UniqueCursoIds(cursos) && UniqueClassCodes(cursos) && AllCursosOk(cursos)
      && UniqueInscripcionIds(inscripciones) && UniquePairs(inscripciones)
      && Chronological(inscripciones, clock)
    }

    constructor ()
      ensures Valid()
      ensures usuarios == [] && cursos == [] && inscripciones == [] && clock == 0
    {
      usuarios, cursos, inscripciones, clock := [], [], [], 0;
    }

    /** `Usuario.create(u)` at the storage level: unique `_id` and `email`. */
    method InsertUsuario(u: Usuario) returns (w: Write)
      requires Valid()
      modifies this
      ensures Valid()
      ensures w.DuplicateKey? <==> UsuarioById(old(usuarios), u.id).Some? || UsuarioByEmail(old(usuarios), u.email).Some?
      ensures usuarios == if w.Written? then old(usuarios) + [u] else old(usuarios)
      ensures cursos == old(cursos) && inscripciones == old(inscripciones) && clock == old(clock)
    {
      if UsuarioById(usuarios, u.id).Some? || UsuarioByEmail(usuarios, u.email).Some? {
        return DuplicateKey;
      }
      usuarios := usuarios + [u];
      w := Written;
    }

    /** The write of `Usuario.findByIdAndUpdate` on the user at `i`: only the
        unique `email` index can refuse it. */
    method ReplaceUsuario(i: nat, u: Usuario) returns (w: Write)
      requires Valid() && i < |usuarios| && usuarios[i].id == u.id
      modifies this
      ensures Valid()
      ensures w.DuplicateKey? <==> EmailTakenExcept(old(usuarios), u.email, i)
      ensures usuarios == if w.Written? then old(usuarios)[i := u] else old(usuarios)
      ensures cursos == old(cursos) && inscripciones == old(inscripciones) && clock == old(clock)
    {
      if EmailTakenExcept(usuarios, u.email, i) {
        return DuplicateKey;
      }
      usuarios := usuarios[i := u];
      w := Written;
    }

    /** `findByIdAndDelete` on the user at `i`. */
    method DeleteUsuario(i: nat)
      requires Valid() && i < |usuarios|
      modifies this
      ensures Valid()
      ensures usuarios == RemoveAt(old(usuarios), i)
      ensures cursos == old(cursos) && inscripciones == old(inscripciones) && clock == old(clock)
    {
      usuarios := RemoveAt(usuarios, i);
    }

    /** `curso.save()` at the storage level, after schema validation: unique
        `_id` and `classCode`. */
    method InsertCurso(c: Curso) returns (w: Write)
      requires Valid() && CursoSchemaOk(c)
      modifies this
      ensures Valid()
      ensures w.DuplicateKey? <==> CursoById(old(cursos), c.id).Some? || CursoByCode(old(cursos), c.classCode).Some?
      ensures cursos == if w.Written? then old(cursos) + [c] else old(cursos)
      ensures usuarios == old(usuarios) && inscripciones == old(inscripciones) && clock == old(clock)
    {
      if CursoById(cursos, c.id).Some? || CursoByCode(cursos, c.classCode).Some? {
        return DuplicateKey;
      }
      cursos := cursos + [c];
      w := Written;
    }

    /** The write of `Curso.findByIdAndUpdate` on the course at `i`, after the
        update validators: only the unique `classCode` index can refuse it. */
    method ReplaceCurso(i: nat, c: Curso) returns (w: Write)
      requires Valid() && i < |cursos| && cursos[i].id == c.id && CursoSchemaOk(c)
      modifies this
      ensures Valid()
      ensures w.DuplicateKey? <==> ClassCodeTakenExcept(old(cursos), c.classCode, i)
      ensures cursos == if w.Written? then old(cursos)[i := c] else old(cursos)
      ensures usuarios == old(usuarios) && inscripciones == old(inscripciones) && clock == old(clock)
    {
      if ClassCodeTakenExcept(cursos, c.classCode, i) {
        w := DuplicateKey;
      } else {
        ReplaceKeepsCursoIndexes(cursos, i, c);
        cursos := cursos[i := c];
        w := Written;
      }
    }

    /** `findByIdAndDelete` on the course at `i`. */
    method DeleteCurso(i: nat)
      requires Valid() && i < |cursos|
      modifies this
      ensures Valid()
      ensures cursos == RemoveAt(old(cursos), i)
      ensures usuarios == old(usuarios) && inscripciones == old(inscripciones) && clock == old(clock)
    {
      cursos := RemoveAt(cursos, i);
    }

    /** `Inscripcion.create({ alumno, curso })`: `fecha` and `createdAt` are
        the current tick; unique `_id` and `(alumno, curso)`. */
    method InsertInscripcion(id: Id, alumno: Id, curso: Id) returns (w: Write, e: Inscripcion)
      requires Valid()
      modifies this
      ensures Valid()
      ensures e == Inscripcion(id, alumno, curso, old(clock), old(clock))
      ensures w.DuplicateKey? <==> InscripcionIndex(old(inscripciones), id).Some? || PairTaken(old(inscripciones), alumno, curso)
      ensures inscripciones == if w.Written? then old(inscripciones) + [e] else old(inscripciones)
      ensures clock == if w.Written? then old(clock) + 1 else old(clock)
      ensures usuarios == old(usuarios) && cursos == old(cursos)
    {
      e := Inscripcion(id, alumno, curso, clock, clock);
      if InscripcionIndex(inscripciones, id).Some? || PairTaken(inscripciones, alumno, curso) {
        return DuplicateKey, e;
      }
      inscripciones := inscripciones + [e];
      clock := clock + 1;
      w := Written;
    }

    /** `findByIdAndDelete` on the enrollment at `i`. */
    method DeleteInscripcion(i: nat)
      requires Valid() && i < |inscripciones|
      modifies this
      ensures Valid()
      ensures inscripciones == RemoveAt(old(inscripciones), i)
      ensures usuarios == old(usuarios) && cursos == old(cursos) && clock == old(clock)
    {
      inscripciones := RemoveAt(inscripciones, i);
    }
  }
}
