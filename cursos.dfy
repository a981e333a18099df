/** The course controller (controllers/cursos.controller.js): creating,
    listing, reading, updating and deleting courses, and the students
    enrolled in one. */
module Cursos {
  import opened Wrappers
  import opened Text
  import opened ObjectIds
  import opened Schema
  import opened Seqs
  import opened Store
  import opened Http

  /** The ceiling on stored courses that creation enforces. */
  const MAX_CURSOS: nat := 15

  /** A course body as sent: a field is `None` when absent; `fecha` is the
      instant an ISO-8601 string denotes. */
  datatype CursoBody = CursoBody(nombre: Option<string>, descripcion: Option<string>,
                                 docente: Option<string>, fecha: Option<nat>, classCode: Option<int>)

  /** The teacher a token names on creation and update: a valid id must
      belong to a docente; any other token is an exact email among
      docentes. There is no name strategy. */
  function LookupDocente(us: seq<Usuario>, token: string): (r: Option<Usuario>)
    ensures r.Some? ==> r.value in us && r.value.tipo == DOCENTE
    ensures IsObjectId(token) ==>
              && (r.Some? ==> r.value.id == Cast(token))
              && (r.None? <==> forall i :: 0 <= i < |us| ==> !(us[i].id == Cast(token) && us[i].tipo == DOCENTE))
    ensures !IsObjectId(token) ==>
              && (r.Some? ==> r.value.email == token)
              && (r.None? <==> forall i :: 0 <= i < |us| ==> !(us[i].email == token && us[i].tipo == DOCENTE))
  {
    if IsObjectId(token) then UsuarioByIdTipo(us, Cast(token), DOCENTE)
    else UsuarioByEmailTipo(us, token, DOCENTE)
  }

  /** A docente's own id and own address both name that docente. */
  lemma {:induction false} DocenteByOwnKeys(us: seq<Usuario>, u: Usuario)
    requires UniqueUsuarioIds(us) && UniqueEmails(us) && u in us && u.tipo == DOCENTE && '@' in u.email
    ensures LookupDocente(us, u.id) == Some(u)
    ensures LookupDocente(us, u.email) == Some(u)
  {
    CastCanonical(u.id);
    var j :| 0 <= j < |us| && us[j] == u;
    var byId := LookupDocente(us, u.id).value;
    var i :| 0 <= i < |us| && us[i] == byId;
    assert i == j;
    var k :| 0 <= k < |u.email| && u.email[k] == '@';
    assert !IsHexDigit(u.email[k]);
    var byEmail := LookupDocente(us, u.email).value;
    var m :| 0 <= m < |us| && us[m] == byEmail;
    assert m == j;
  }

  /** Every id in `ids` is a stored docente's. */
  predicate DocenteIds(us: seq<Usuario>, ids: seq<Id>) {
    forall k :: 0 <= k < |ids| ==> UsuarioByIdTipo(us, ids[k], DOCENTE).Some?
  }

  lemma DocenteFound(us: seq<Usuario>, u: Usuario)
    requires u in us && u.tipo == DOCENTE
    ensures UsuarioByIdTipo(us, u.id, DOCENTE).Some?
  {
    var i :| 0 <= i < |us| && us[i] == u;
    assert us[i].id == u.id && us[i].tipo == DOCENTE;
  }

  lemma SomeNameMatch(us: seq<Usuario>, pattern: string, u: Usuario)
    requires u in us && NombreTipoMatch(u, pattern, DOCENTE)
    ensures !forall i :: 0 <= i < |us| ==> !NombreTipoMatch(us[i], pattern, DOCENTE)
  {
    var i :| 0 <= i < |us| && us[i] == u;
    assert NombreTipoMatch(us[i], pattern, DOCENTE);
  }

  /** The docente filter of `getCursos`: the ids of the courses' teachers to
      keep, or `None` when the token names no docente. A valid id must be a
      docente's; a token with `@` is an exact email; any other token keeps
      every docente whose name contains it. */
  function DocentesFiltro(us: seq<Usuario>, token: string): (r: Option<seq<Id>>)
    ensures IsObjectId(token) ==>
              && (r.Some? ==> r.value == [Cast(token)])
              && (r.None? <==> forall i :: 0 <= i < |us| ==> !(us[i].id == Cast(token) && us[i].tipo == DOCENTE))
    ensures !IsObjectId(token) && '@' in token ==>
              && (r.None? <==> forall i :: 0 <= i < |us| ==> !(us[i].email == token && us[i].tipo == DOCENTE))
              && (r.Some? ==> exists d :: d in us && d.email == token && d.tipo == DOCENTE && r.value == [d.id])
    ensures !IsObjectId(token) && '@' !in token ==>
              && (r.None? <==> forall i :: 0 <= i < |us| ==> !NombreTipoMatch(us[i], Trim(token), DOCENTE))
              && (r.Some? ==> forall id :: id in r.value <==> exists d :: d in us && NombreTipoMatch(d, Trim(token), DOCENTE) && d.id == id)
    ensures r.Some? ==> DocenteIds(us, r.value)
  {
    if IsObjectId(token) then
      match UsuarioByIdTipo(us, Cast(token), DOCENTE)
      case None => None
      case Some(d) => Some([Cast(token)])
    else if '@' in token then
      match UsuarioByEmailTipo(us, token, DOCENTE)
      case None => None
      case Some(d) => DocenteFound(us, d); Some([d.id])
    else
      var docentes := UsuariosByNombreTipo(us, Trim(token), DOCENTE);
      if docentes == [] then
        assert forall i :: 0 <= i < |us| ==> !NombreTipoMatch(us[i], Trim(token), DOCENTE) by {
          forall i | 0 <= i < |us| ensures !NombreTipoMatch(us[i], Trim(token), DOCENTE) {
            assert us[i] in us;
          }
        }
        None
      else
        assert docentes[0] in docentes;
        SomeNameMatch(us, Trim(token), docentes[0]);
        var ids := IdsOfUsuarios(docentes);
        forall id ensures id in ids <==> exists d :: d in docentes && d.id == id {
          IdsOfUsuariosMembers(docentes, id);
        }
        assert DocenteIds(us, ids) by {
          forall k | 0 <= k < |ids| ensures UsuarioByIdTipo(us, ids[k], DOCENTE).Some? {
            assert docentes[k] in docentes;
            DocenteFound(us, docentes[k]);
          }
        }
        Some(ids)
  }

  /** A name token keeps every docente whose name contains it, not just the first. */
  lemma {:induction false} NameFilterKeepsAllDocentes(us: seq<Usuario>, token: string, d: Usuario)
    requires !IsObjectId(token) && '@' !in token
    requires d in us && NombreTipoMatch(d, Trim(token), DOCENTE)
    ensures DocentesFiltro(us, token).Some? && d.id in DocentesFiltro(us, token).value
  {
    var docentes := UsuariosByNombreTipo(us, Trim(token), DOCENTE);
    assert d in docentes;
    var k :| 0 <= k < |docentes| && docentes[k] == d;
    assert IdsOfUsuarios(docentes)[k] == d.id;
  }

  /** `getCursos`: the filter is built from the `docente` and `nombre`
      parameters (absent or empty ones do not filter), and the stored
      courses that pass it are returned in natural order. */
  method GetCursos(db: Db, docente: Option<string>, nombre: Option<string>) returns (r: Reply<seq<Curso>>)
    ensures r.Rejected? <==> docente.Some? && docente.value != [] && DocentesFiltro(db.usuarios, docente.value).None?
    ensures r.Rejected? ==> r == Rejected(404, DocenteNotFound)
    ensures r.Done? ==>
              && r.status == 200
              && |r.value| <= |db.cursos| && Subsequence(r.value, db.cursos)
              && forall c :: c in r.value <==>
                   && c in db.cursos
                   && (docente.Some? && docente.value != [] ==> c.docente in DocentesFiltro(db.usuarios, docente.value).value)
                   && (nombre.Some? && nombre.value != [] ==> ContainsIgnoreCase(c.nombre, Trim(nombre.value)))
  {
    var filtroDocentes: Option<seq<Id>> := None;
    var filtroNombre: Option<string> := None;
    if docente.Some? && docente.value != [] {
      filtroDocentes := DocentesFiltro(db.usuarios, docente.value);
      if filtroDocentes.None? {
        return Rejected(404, DocenteNotFound);
      }
    }
    if nombre.Some? && nombre.value != [] {
      filtroNombre := Some(Trim(nombre.value));
    }
    var found := Where(db.cursos, (c: Curso) =>
      && (filtroDocentes.Some? ==> c.docente in filtroDocentes.value)
      && (filtroNombre.Some? ==> ContainsIgnoreCase(c.nombre, filtroNombre.value)));
    r := Done(200, found);
  }

  /** `getCursoById`: an id that cannot be cast is a server error, a missing
      course is not found. */
  method GetCursoById(db: Db, id: string) returns (r: Reply<Curso>)
    ensures !IsObjectId(id) ==> r == Rejected(500, CastError)
    ensures IsObjectId(id) ==>
              && (r.Done? <==> CursoById(db.cursos, Cast(id)).Some?)
              && (r.Done? ==> r.status == 200 && r.value in db.cursos && r.value.id == Cast(id))
              && (r.Rejected? ==> r == Rejected(404, CursoNotFound))
  {
    if !IsObjectId(id) {
      return Rejected(500, CastError);
    }
    var curso := CursoById(db.cursos, Cast(id));
    if curso.None? {
      return Rejected(404, CursoNotFound);
    }
    r := Done(200, curso.value);
  }

  /** Distinct class codes within 1..15 leave room for at most 15 courses. */
  lemma StoreCapacity(db: Db)
    requires db.Valid()
    ensures |db.cursos| <= MAX_CURSOS
  {
    CapacityFromClassCodes(db.cursos);
  }

  /** `crearCurso`: resolve the teacher, refuse when 15 courses exist, then
      refuse a class code in use, then let the schema and the unique indexes
      decide. Every refusal is a 400 and leaves the store as it was. */
  method CrearCurso(db: Db, docente: string, nombre: Option<string>, descripcion: Option<string>,
                    fecha: Option<nat>, classCode: int, newId: Id) returns (r: Reply<Curso>)
    requires db.Valid()
    modifies db
    ensures db.Valid() && |db.cursos| <= MAX_CURSOS
    ensures db.usuarios == old(db.usuarios) && db.inscripciones == old(db.inscripciones) && db.clock == old(db.clock)
    ensures r.Rejected? ==> r.status == 400 && db.cursos == old(db.cursos)
    ensures LookupDocente(old(db.usuarios), docente).None? ==> r == Rejected(400, DocenteInvalid)
    ensures LookupDocente(old(db.usuarios), docente).Some? && |old(db.cursos)| >= MAX_CURSOS ==>
              r == Rejected(400, CapacityReached)
    ensures (LookupDocente(old(db.usuarios), docente).Some? && |old(db.cursos)| < MAX_CURSOS
             && CursoByCode(old(db.cursos), classCode).Some?) ==> r == Rejected(400, ClassCodeInUse)
    ensures var d := LookupDocente(old(db.usuarios), docente);
            (d.Some? && |old(db.cursos)| < MAX_CURSOS && CursoByCode(old(db.cursos), classCode).None?) ==>
              && ((nombre.None? || descripcion.None? || fecha.None?) ==> r == Rejected(400, CursoValidation))
              && (nombre.Some? && descripcion.Some? && fecha.Some? ==>
                    var c := Curso(newId, Trim(nombre.value), descripcion.value, d.value.id, fecha.value, classCode);
                    && (!CursoSchemaOk(c) ==> r == Rejected(400, CursoValidation))
                    && (CursoSchemaOk(c) && CursoById(old(db.cursos), newId).Some? ==> r == Rejected(400, DuplicateKeyError))
                    && (CursoSchemaOk(c) && CursoById(old(db.cursos), newId).None? ==> r.Done?))
    ensures r.Done? ==>
              && r.status == 201
              && nombre.Some? && descripcion.Some? && fecha.Some?
              && LookupDocente(old(db.usuarios), docente).Some?
              && r.value == Curso(newId, Trim(nombre.value), descripcion.value,
                                  LookupDocente(old(db.usuarios), docente).value.id, fecha.value, classCode)
              && CursoSchemaOk(r.value)
              && db.cursos == old(db.cursos) + [r.value]
    ensures CursosReferenced(old(db.inscripciones), old(db.cursos)) ==> CursosReferenced(db.inscripciones, db.cursos)
  {
    StoreCapacity(db);
    var docenteDoc := LookupDocente(db.usuarios, docente);
    if docenteDoc.None? {
      return Rejected(400, DocenteInvalid);
    }
    var docenteId := docenteDoc.value.id;
    if |db.cursos| >= MAX_CURSOS {
      return Rejected(400, CapacityReached);
    }
    if CursoByCode(db.cursos, classCode).Some? {
      return Rejected(400, ClassCodeInUse);
    }
    if nombre.None? || descripcion.None? || fecha.None? {
      return Rejected(400, CursoValidation);
    }
    var nuevo := Curso(newId, Trim(nombre.value), descripcion.value, docenteId, fecha.value, classCode);
    if !CursoSchemaOk(nuevo) {
      return Rejected(400, CursoValidation);
    }
    ghost var before := db.cursos;
    var w := db.InsertCurso(nuevo);
    if w.DuplicateKey? {
      StoreCapacity(db);
      return Rejected(400, DuplicateKeyError);
    }
    StoreCapacity(db);
    ExtendKeepsReferences(db.inscripciones, before, nuevo);
    r := Done(201, nuevo);
  }

  lemma ExtendKeepsReferences(es: seq<Inscripcion>, cs: seq<Curso>, c: Curso)
    ensures CursosReferenced(es, cs) ==> CursosReferenced(es, cs + [c])
  {
    if CursosReferenced(es, cs) {
      forall i | 0 <= i < |es| ensures CursoIndex(cs + [c], es[i].curso).Some? {
        var k := CursoIndex(cs, es[i].curso).value;
        assert (cs + [c])[k] == cs[k];
      }
    }
  }

  /** A given `classCode` that JavaScript treats as true triggers the conflict check. */
  predicate CodeTruthy(k: Option<int>) {
    k.Some? && k.value != 0
  }

  /** The update validators (`runValidators`) on the fields present: a name
      non-empty after trimming, a non-empty description, a class code in 1..15. */
  predicate UpdateValid(b: CursoBody) {
    && (b.nombre.Some? ==> Trim(b.nombre.value) != [])
    && (b.descripcion.Some? ==> b.descripcion.value != [])
    && (b.classCode.Some? ==> MIN_CLASS_CODE <= b.classCode.value <= MAX_CLASS_CODE)
  }

  /** The stored course after `findByIdAndUpdate`: each present field
      overwrites the stored one (the name trimmed), the teacher becomes the
      resolved one when a new one was sent. Validators on the sent fields
      are enough to keep a valid course valid. */
  function Applied(c: Curso, b: CursoBody, docente: Option<Id>): (n: Curso)
    ensures n.id == c.id
    ensures n.nombre == (if b.nombre.Some? then Trim(b.nombre.value) else c.nombre)
    ensures n.descripcion == (if b.descripcion.Some? then b.descripcion.value else c.descripcion)
    ensures n.docente == (if docente.Some? then docente.value else c.docente)
    ensures n.fecha == (if b.fecha.Some? then b.fecha.value else c.fecha)
    ensures n.classCode == (if b.classCode.Some? then b.classCode.value else c.classCode)
    ensures b == CursoBody(None, None, None, None, None) && docente.None? ==> n == c
    ensures CursoSchemaOk(c) && UpdateValid(b) ==> CursoSchemaOk(n)
  {
    Curso(c.id,
          if b.nombre.Some? then Trim(b.nombre.value) else c.nombre,
          if b.descripcion.Some? then b.descripcion.value else c.descripcion,
          if docente.Some? then docente.value else c.docente,
          if b.fecha.Some? then b.fecha.value else c.fecha,
          if b.classCode.Some? then b.classCode.value else c.classCode)
  }

  /** The conflict check ignores the course being updated, so re-sending
      its own class code is never a conflict. */
  lemma {:induction false} OwnCodeNoConflict(cs: seq<Curso>, c: Curso)
    requires UniqueClassCodes(cs) && c in cs
    ensures CursoByCodeExcept(cs, c.classCode, c.id).None?
  {
    var j :| 0 <= j < |cs| && cs[j] == c;
    forall i | 0 <= i < |cs| ensures cs[i].classCode != c.classCode || cs[i].id == c.id {
      if i != j {
        assert cs[i].classCode != cs[j].classCode by {
          if i < j { } else { }
        }
      }
    }
  }

  /** No class code a course other than `id` holds is sent: the conflict
      check lets the update through. */
  predicate CodeFree(cs: seq<Curso>, id: string, b: CursoBody) {
    CodeTruthy(b.classCode) ==> IsObjectId(id) && CursoByCodeExcept(cs, b.classCode.value, Cast(id)).None?
  }

  /** Once the conflict check and the validators pass, the updated course
      cannot collide with another one on the unique `classCode` index, so
      the write itself never fails with a duplicate key. */
  lemma ValidatedUpdateFitsIndex(cs: seq<Curso>, i: nat, b: CursoBody, docente: Option<Id>, id: Id)
    requires UniqueCursoIds(cs) && UniqueClassCodes(cs)
    requires i < |cs| && cs[i].id == id && UpdateValid(b)
    requires CodeTruthy(b.classCode) ==> CursoByCodeExcept(cs, b.classCode.value, id).None?
    ensures !ClassCodeTakenExcept(cs, Applied(cs[i], b, docente).classCode, i)
  {
    var code := Applied(cs[i], b, docente).classCode;
    forall j | 0 <= j < |cs| && j != i ensures cs[j].classCode != code {
      if b.classCode.Some? {
        assert cs[j].id != cs[i].id by {
          if j < i { } else { }
        }
      } else {
        assert cs[j].classCode != cs[i].classCode by {
          if j < i { } else { }
        }
      }
    }
  }

  /** The teacher an update sets: the one a non-empty `docente` resolves to. */
  function NuevoDocente(us: seq<Usuario>, docente: Option<string>): (r: Option<Id>)
    ensures r.Some? ==> docente.Some? && UsuarioByIdTipo(us, r.value, DOCENTE).Some?
    ensures r.None? ==> docente.None? || docente.value == [] || LookupDocente(us, docente.value).None?
  {
    if docente.Some? && docente.value != [] && LookupDocente(us, docente.value).Some? then
      DocenteFound(us, LookupDocente(us, docente.value).value);
      Some(LookupDocente(us, docente.value).value.id)
    else None
  }

  /** `actualizarCurso`: resolve a new teacher if one is sent, refuse a class
      code held by another course, then `findByIdAndUpdate` with validators:
      a malformed id or an empty teacher fails the cast, invalid fields fail
      validation (all 400), a missing course is 404. */
  method ActualizarCurso(db: Db, id: string, body: CursoBody) returns (r: Reply<Curso>)
    requires db.Valid()
    modifies db
    ensures db.Valid()
    ensures db.usuarios == old(db.usuarios) && db.inscripciones == old(db.inscripciones) && db.clock == old(db.clock)
    ensures r.Rejected? ==> db.cursos == old(db.cursos) && (r.status == 400 || r.status == 404)
    ensures body.docente.Some? && body.docente.value != [] && LookupDocente(old(db.usuarios), body.docente.value).None? ==>
              r == Rejected(400, DocenteInvalid)
    ensures r.Done? ==>
              && r.status == 200 && IsObjectId(id)
              && CursoIndex(old(db.cursos), Cast(id)).Some?
              && (body.docente.Some? ==> body.docente.value != [] && LookupDocente(old(db.usuarios), body.docente.value).Some?)
              && r.value == Applied(old(db.cursos)[CursoIndex(old(db.cursos), Cast(id)).value], body, NuevoDocente(old(db.usuarios), body.docente))
              && db.cursos == old(db.cursos)[CursoIndex(old(db.cursos), Cast(id)).value := r.value]
    ensures r == Rejected(404, CursoNotFound) ==> IsObjectId(id) && CursoIndex(old(db.cursos), Cast(id)).None?
    ensures r == Rejected(400, ClassCodeInUse) ==>
              IsObjectId(id) && CodeTruthy(body.classCode) && CursoByCodeExcept(old(db.cursos), body.classCode.value, Cast(id)).Some?
    ensures !(body.docente.Some? && body.docente.value != [] && LookupDocente(old(db.usuarios), body.docente.value).None?) ==>
              && (CodeTruthy(body.classCode) && !IsObjectId(id) ==> r == Rejected(400, CastError))
              && ((CodeTruthy(body.classCode) && IsObjectId(id)
                   && CursoByCodeExcept(old(db.cursos), body.classCode.value, Cast(id)).Some?) ==> r == Rejected(400, ClassCodeInUse))
              && (CodeFree(old(db.cursos), id, body) ==>
                    && ((!IsObjectId(id) || body.docente == Some([])) ==> r == Rejected(400, CastError))
                    && (IsObjectId(id) && body.docente != Some([]) ==>
                          && (!UpdateValid(body) ==> r == Rejected(400, CursoValidation))
                          && (UpdateValid(body) && CursoIndex(old(db.cursos), Cast(id)).None? ==> r == Rejected(404, CursoNotFound))
                          && (UpdateValid(body) && CursoIndex(old(db.cursos), Cast(id)).Some? ==> r.Done?)))
    ensures CursosReferenced(old(db.inscripciones), old(db.cursos)) ==> CursosReferenced(db.inscripciones, db.cursos)
  {
    if body.docente.Some? && body.docente.value != [] && LookupDocente(db.usuarios, body.docente.value).None? {
      return Rejected(400, DocenteInvalid);
    }
    var docenteId := NuevoDocente(db.usuarios, body.docente);
    if CodeTruthy(body.classCode) {
      if !IsObjectId(id) {
        return Rejected(400, CastError);
      }
      if CursoByCodeExcept(db.cursos, body.classCode.value, Cast(id)).Some? {
        return Rejected(400, ClassCodeInUse);
      }
    }
    if !IsObjectId(id) || body.docente == Some([]) {
      return Rejected(400, CastError);
    }
    if !UpdateValid(body) {
      return Rejected(400, CursoValidation);
    }
    var index := CursoIndex(db.cursos, Cast(id));
    if index.None? {
      return Rejected(404, CursoNotFound);
    }
    var i := index.value;
    var actualizado := Applied(db.cursos[i], body, docenteId);
    ghost var before := db.cursos;
    ValidatedUpdateFitsIndex(db.cursos, i, body, docenteId, Cast(id));
    var w := db.ReplaceCurso(i, actualizado);
    ReplaceKeepsReferences(db.inscripciones, before, i, actualizado);
    r := Done(200, actualizado);
  }

  lemma ReplaceKeepsReferences(es: seq<Inscripcion>, cs: seq<Curso>, i: nat, c: Curso)
    requires i < |cs| && cs[i].id == c.id
    ensures CursosReferenced(es, cs) ==> CursosReferenced(es, cs[i := c])
  {
    if CursosReferenced(es, cs) {
      forall k | 0 <= k < |es| ensures CursoIndex(cs[i := c], es[k].curso).Some? {
        var j := CursoIndex(cs, es[k].curso).value;
        assert cs[i := c][j].id == es[k].curso;
      }
    }
  }

  /** `eliminarCurso`: an id that cannot be cast is a server error, a
      missing course is not found, a course with `n > 0` enrollments is kept
      and the answer carries `n`; otherwise exactly that course is removed. */
  method EliminarCurso(db: Db, id: string) returns (r: Reply<()>)
    requires db.Valid()
    modifies db
    ensures db.Valid()
    ensures db.usuarios == old(db.usuarios) && db.inscripciones == old(db.inscripciones) && db.clock == old(db.clock)
    ensures r.Rejected? ==> db.cursos == old(db.cursos)
    ensures !IsObjectId(id) ==> r == Rejected(500, CastError)
    ensures IsObjectId(id) && CursoIndex(old(db.cursos), Cast(id)).None? ==> r == Rejected(404, CursoNotFound)
    ensures (IsObjectId(id) && CursoIndex(old(db.cursos), Cast(id)).Some?
             && InscripcionesOfCurso(old(db.inscripciones), Cast(id)) != []) ==>
              r == Rejected(400, HasInscripciones(|InscripcionesOfCurso(old(db.inscripciones), Cast(id))|))
    ensures (IsObjectId(id) && CursoIndex(old(db.cursos), Cast(id)).Some?
             && InscripcionesOfCurso(old(db.inscripciones), Cast(id)) == []) ==> r.Done?
    ensures r.Done? ==>
              && IsObjectId(id) && CursoIndex(old(db.cursos), Cast(id)).Some?
              && InscripcionesOfCurso(old(db.inscripciones), Cast(id)) == []
              && db.cursos == RemoveAt(old(db.cursos), CursoIndex(old(db.cursos), Cast(id)).value)
              && forall c :: c in db.cursos <==> c in old(db.cursos) && c.id != Cast(id)
    ensures CursosReferenced(old(db.inscripciones), old(db.cursos)) ==> CursosReferenced(db.inscripciones, db.cursos)
  {
    if !IsObjectId(id) {
      return Rejected(500, CastError);
    }
    var cursoId := Cast(id);
    var index := CursoIndex(db.cursos, cursoId);
    if index.None? {
      return Rejected(404, CursoNotFound);
    }
    var n := |InscripcionesOfCurso(db.inscripciones, cursoId)|;
    if n > 0 {
      return Rejected(400, HasInscripciones(n));
    }
    RemoveAtKey(db.cursos, index.value, (c: Curso) => c.id);
    ghost var before := db.cursos;
    RemoveKeepsReferences(db.inscripciones, before, index.value);
    db.DeleteCurso(index.value);
    r := Done(200, ());
  }

  lemma RemoveKeepsReferences(es: seq<Inscripcion>, cs: seq<Curso>, i: nat)
    requires UniqueCursoIds(cs) && i < |cs| && InscripcionesOfCurso(es, cs[i].id) == []
    ensures CursosReferenced(es, cs) ==> CursosReferenced(es, RemoveAt(cs, i))
  {
    if CursosReferenced(es, cs) {
      forall k | 0 <= k < |es| ensures CursoIndex(RemoveAt(cs, i), es[k].curso).Some? {
        assert es[k] !in InscripcionesOfCurso(es, cs[i].id);
        var j := CursoIndex(cs, es[k].curso).value;
        assert j != i;
        if j < i {
          assert RemoveAt(cs, i)[j] == cs[j];
        } else {
          assert RemoveAt(cs, i)[j - 1] == cs[j];
        }
      }
    }
  }

  /** One row of `getAlumnosInscritos`: the enrollment, the student joined
      from the users (absent when that user is gone, as `populate` leaves
      it), and the enrollment time. */
  datatype AlumnoInscrito = AlumnoInscrito(inscripcionId: Id, alumno: Option<UsuarioPublico>, fechaInscripcion: nat)

  function Fila(us: seq<Usuario>, e: Inscripcion): (f: AlumnoInscrito)
    ensures f.inscripcionId == e.id && f.fechaInscripcion == e.createdAt
    ensures f.alumno.Some? <==> UsuarioById(us, e.alumno).Some?
    ensures f.alumno.Some? ==> f.alumno.value.id == e.alumno
  {
    AlumnoInscrito(e.id, match UsuarioById(us, e.alumno) case None => None case Some(u) => Some(Publico(u)), e.createdAt)
  }

  /** `getAlumnosInscritos`: a malformed id is 400, a missing course 404;
      otherwise one row per enrollment of the course, newest first. Since
      `createdAt` grows with natural order, sorting by it descending is
      the natural order reversed. */
  method GetAlumnosInscritos(db: Db, id: string) returns (r: Reply<seq<AlumnoInscrito>>)
    requires db.Valid()
    ensures !IsObjectId(id) ==> r == Rejected(400, CursoIdInvalid)
    ensures IsObjectId(id) && CursoById(db.cursos, Cast(id)).None? ==> r == Rejected(404, CursoNotFound)
    ensures IsObjectId(id) && CursoById(db.cursos, Cast(id)).Some? ==> r.Done?
    ensures r.Done? ==>
              && r.status == 200 && IsObjectId(id) && CursoById(db.cursos, Cast(id)).Some?
              && var es := InscripcionesOfCurso(db.inscripciones, Cast(id));
                 && |r.value| == |es|
                 && (forall k :: 0 <= k < |es| ==> r.value[k] == Fila(db.usuarios, es[|es| - 1 - k]))
                 && (forall j, k :: 0 <= j < k < |r.value| ==> r.value[j].fechaInscripcion > r.value[k].fechaInscripcion)
  {
    if !IsObjectId(id) {
      return Rejected(400, CursoIdInvalid);
    }
    var cursoId := Cast(id);
    if CursoById(db.cursos, cursoId).None? {
      return Rejected(404, CursoNotFound);
    }
    var es := InscripcionesOfCurso(db.inscripciones, cursoId);
    OfCursoChronological(db.inscripciones, cursoId, db.clock);
    var newestFirst := Reverse(es);
    var us := db.usuarios;
    var filas := seq(|newestFirst|, k requires 0 <= k < |newestFirst| => Fila(us, newestFirst[k]));
    r := Done(200, filas);
  }
}
