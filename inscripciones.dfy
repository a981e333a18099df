/** The enrollment controller (controllers/inscripciones.controller.js):
    resolving loosely typed student and course tokens, creating, listing and
    deleting enrollments. */
module Inscripciones {
  import opened Wrappers
  import opened Text
  import opened ObjectIds
  import opened Schema
  import opened Seqs
  import opened Store
  import opened Http
  import opened Auth

  /** The student a token names. The strategies are tried in a fixed order
      and the first applicable one decides: a valid id is looked up among
      alumnos by id; otherwise a token containing `@` by exact email;
      otherwise by case-insensitive substring of the trimmed token in the
      name, taking the first match. A strategy that finds nothing is the
      answer; no later strategy is tried. */
  function LookupAlumno(us: seq<Usuario>, token: string): (r: Option<Usuario>)
    ensures r.Some? ==> r.value in us && r.value.tipo == ALUMNO
    ensures IsObjectId(token) ==>
              && (r.Some? ==> r.value.id == Cast(token))
              && (r.None? <==> forall i :: 0 <= i < |us| ==> !(us[i].id == Cast(token) && us[i].tipo == ALUMNO))
    ensures !IsObjectId(token) && '@' in token ==>
              && (r.Some? ==> r.value.email == token)
              && (r.None? <==> forall i :: 0 <= i < |us| ==> !(us[i].email == token && us[i].tipo == ALUMNO))
    ensures !IsObjectId(token) && '@' !in token ==>
              && (r.Some? ==> ContainsIgnoreCase(r.value.nombre, Trim(token)))
              && (r.None? <==> forall i :: 0 <= i < |us| ==> !NombreTipoMatch(us[i], Trim(token), ALUMNO))
  {
    if IsObjectId(token) then UsuarioByIdTipo(us, Cast(token), ALUMNO)
    else if '@' in token then UsuarioByEmailTipo(us, token, ALUMNO)
    else UsuarioByNombreTipo(us, Trim(token), ALUMNO)
  }

  lemma SameIdSameUsuario(us: seq<Usuario>, a: Usuario, b: Usuario)
    requires UniqueUsuarioIds(us) && a in us && b in us && a.id == b.id
    ensures a == b
  {
    var i :| 0 <= i < |us| && us[i] == a;
    var j :| 0 <= j < |us| && us[j] == b;
    assert i == j;
  }

  /** An alumno's own id resolves to that alumno. */
  lemma {:induction false} AlumnoByOwnId(us: seq<Usuario>, u: Usuario)
    requires UniqueUsuarioIds(us) && u in us && u.tipo == ALUMNO
    ensures LookupAlumno(us, u.id) == Some(u)
  {
    CastCanonical(u.id);
    var r := LookupAlumno(us, u.id);
    SameIdSameUsuario(us, r.value, u);
  }

  /** The id of a docente or an admin never resolves as a student, even
      though the id is valid and the user exists. */
  lemma {:induction false} NonAlumnoIdRefused(us: seq<Usuario>, u: Usuario)
    requires UniqueUsuarioIds(us) && u in us && u.tipo != ALUMNO
    ensures LookupAlumno(us, u.id) == None
  {
    CastCanonical(u.id);
    var r := LookupAlumno(us, u.id);
    if r.Some? {
      SameIdSameUsuario(us, r.value, u);
    }
  }

  /** An alumno's own address resolves to that alumno. */
  lemma {:induction false} AlumnoByOwnEmail(us: seq<Usuario>, u: Usuario)
    requires UniqueEmails(us) && u in us && u.tipo == ALUMNO && '@' in u.email
    ensures LookupAlumno(us, u.email) == Some(u)
  {
    var k :| 0 <= k < |u.email| && u.email[k] == '@';
    assert !IsHexDigit(u.email[k]);
    var r := LookupAlumno(us, u.email);
    var i :| 0 <= i < |us| && us[i] == r.value;
    var j :| 0 <= j < |us| && us[j] == u;
    assert i == j;
  }

  /** The course a token names: a valid id by id; otherwise a token that
      `Number` reads as a number by that `classCode`; otherwise by the trimmed
      token as a case-insensitive name, matched whole (`exact`, on creation)
      or as a substring (on listing), taking the first match. */
  function LookupCurso(cs: seq<Curso>, token: string, exact: bool): (r: Option<Curso>)
    ensures r.Some? ==> r.value in cs
    ensures IsObjectId(token) ==>
              && (r.Some? ==> r.value.id == Cast(token))
              && (r.None? <==> forall i :: 0 <= i < |cs| ==> cs[i].id != Cast(token))
    ensures !IsObjectId(token) && NumberOf(token).Some? ==>
              && (r.Some? ==> r.value.classCode == NumberOf(token).value)
              && (r.None? <==> forall i :: 0 <= i < |cs| ==> cs[i].classCode != NumberOf(token).value)
    ensures !IsObjectId(token) && NumberOf(token).None? && exact ==>
              && (r.Some? ==> EqualsIgnoreCase(r.value.nombre, Trim(token)))
              && (r.None? <==> forall i :: 0 <= i < |cs| ==> !EqualsIgnoreCase(cs[i].nombre, Trim(token)))
    ensures !IsObjectId(token) && NumberOf(token).None? && !exact ==>
              && (r.Some? ==> ContainsIgnoreCase(r.value.nombre, Trim(token)))
              && (r.None? <==> forall i :: 0 <= i < |cs| ==> !ContainsIgnoreCase(cs[i].nombre, Trim(token)))
  {
    if IsObjectId(token) then CursoById(cs, Cast(token))
    else match NumberOf(token)
      case Some(n) => CursoByCode(cs, n)
      case None => if exact then CursoByNombreExacto(cs, Trim(token)) else CursoByNombre(cs, Trim(token))
  }

  /** A course's own id resolves to it. */
  lemma {:induction false} CursoByOwnId(cs: seq<Curso>, c: Curso, exact: bool)
    requires UniqueCursoIds(cs) && c in cs
    ensures LookupCurso(cs, c.id, exact) == Some(c)
  {
    CastCanonical(c.id);
    var r := LookupCurso(cs, c.id, exact);
    var i :| 0 <= i < |cs| && cs[i] == r.value;
    var j :| 0 <= j < |cs| && cs[j] == c;
    assert i == j;
  }

  /** A course's class code written in decimal resolves to it. */
  lemma {:induction false} CursoByOwnCode(cs: seq<Curso>, c: Curso, exact: bool)
    requires UniqueClassCodes(cs) && c in cs && CursoSchemaOk(c)
    ensures LookupCurso(cs, DecimalString(c.classCode), exact) == Some(c)
  {
    var token := DecimalString(c.classCode);
    DecimalStringShort(c.classCode);
    NumberOfDecimalString(c.classCode);
    var r := LookupCurso(cs, token, exact);
    var i :| 0 <= i < |cs| && cs[i] == r.value;
    var j :| 0 <= j < |cs| && cs[j] == c;
    assert i == j;
  }

  /** Whatever creation resolves, listing resolves too: a whole-name match is
      a substring match. */
  lemma {:induction false} ExactResolvesForListing(cs: seq<Curso>, token: string)
    requires LookupCurso(cs, token, true).Some?
    ensures LookupCurso(cs, token, false).Some?
  {
    if !IsObjectId(token) && NumberOf(token).None? {
      var c := LookupCurso(cs, token, true).value;
      EqualsImpliesContains(c.nombre, Trim(token));
      var i :| 0 <= i < |cs| && cs[i] == c;
      assert ContainsIgnoreCase(cs[i].nombre, Trim(token));
    }
  }

  /** The ownership rule: an alumno principal may act only on its own
      enrollments; admins, docentes and requests without a principal are
      not restricted. */
  predicate SelfOnly(user: Option<Claims>, alumno: Id) {
    user.None? || user.value.role != ALUMNO || user.value.id == alumno
  }

  /** An enrollment of a stored course keeps every enrollment referencing a stored course. */
  lemma AppendKeepsReferences(es: seq<Inscripcion>, cs: seq<Curso>, e: Inscripcion, c: Curso)
    requires c in cs && e.curso == c.id
    ensures CursosReferenced(es, cs) ==> CursosReferenced(es + [e], cs)
  {
    var j :| 0 <= j < |cs| && cs[j] == c;
    assert cs[j].id == e.curso;
    if CursosReferenced(es, cs) {
      forall k | 0 <= k < |es + [e]| ensures CursoIndex(cs, (es + [e])[k].curso).Some? {
        if k < |es| {
          assert (es + [e])[k] == es[k];
        }
      }
    }
  }

  /** Removing an enrollment never leaves one referencing a missing course. */
  lemma RemoveKeepsReferences(es: seq<Inscripcion>, cs: seq<Curso>, i: nat)
    requires i < |es|
    ensures CursosReferenced(es, cs) ==> CursosReferenced(RemoveAt(es, i), cs)
  {
    if CursosReferenced(es, cs) {
      forall k | 0 <= k < |RemoveAt(es, i)| ensures CursoIndex(cs, RemoveAt(es, i)[k].curso).Some? {
        if k < i {
          assert RemoveAt(es, i)[k] == es[k];
        } else {
          assert RemoveAt(es, i)[k] == es[k + 1];
        }
      }
    }
  }

  /** `crearInscripcion`: resolve the student, apply the ownership rule,
      resolve the course, refuse an existing pair, insert. Every refusal
      leaves the store as it was. */
  method CrearInscripcion(db: Db, user: Option<Claims>, alumno: Option<string>, curso: Option<string>, newId: Id)
    returns (r: Reply<Inscripcion>)
    requires db.Valid()
    modifies db
    ensures db.Valid()
    ensures db.usuarios == old(db.usuarios) && db.cursos == old(db.cursos)
    ensures r.Rejected? ==> db.inscripciones == old(db.inscripciones) && db.clock == old(db.clock)
    ensures alumno.None? ==> r == Rejected(400, AlumnoFormat)
    ensures alumno.Some? && LookupAlumno(old(db.usuarios), alumno.value).None? ==> r == Rejected(400, AlumnoInvalid)
    ensures alumno.Some? && LookupAlumno(old(db.usuarios), alumno.value).Some?
            && !SelfOnly(user, LookupAlumno(old(db.usuarios), alumno.value).value.id) ==>
              r == Rejected(403, SelfEnrollOnly)
    ensures alumno.Some? && LookupAlumno(old(db.usuarios), alumno.value).Some?
            && SelfOnly(user, LookupAlumno(old(db.usuarios), alumno.value).value.id)
            && (curso.None? || LookupCurso(old(db.cursos), curso.value, true).None?) ==>
              r == Rejected(400, CursoUnknown)
    ensures r.Done? ==>
              && alumno.Some? && curso.Some?
              && var a := LookupAlumno(old(db.usuarios), alumno.value);
                 var c := LookupCurso(old(db.cursos), curso.value, true);
                 && a.Some? && c.Some? && SelfOnly(user, a.value.id)
                 && r == Done(201, Inscripcion(newId, a.value.id, c.value.id, old(db.clock), old(db.clock)))
                 && !PairTaken(old(db.inscripciones), a.value.id, c.value.id)
                 && db.inscripciones == old(db.inscripciones) + [r.value]
                 && db.clock == old(db.clock) + 1
    ensures r.Rejected? && r.reason == AlreadyEnrolled ==>
              && alumno.Some? && curso.Some?
              && var a := LookupAlumno(old(db.usuarios), alumno.value);
                 var c := LookupCurso(old(db.cursos), curso.value, true);
                 a.Some? && c.Some? && PairTaken(old(db.inscripciones), a.value.id, c.value.id)
    ensures var a := if alumno.Some? then LookupAlumno(old(db.usuarios), alumno.value) else None;
            var c := if curso.Some? then LookupCurso(old(db.cursos), curso.value, true) else None;
            a.Some? && c.Some? && SelfOnly(user, a.value.id) ==>
              && (PairTaken(old(db.inscripciones), a.value.id, c.value.id) ==> r == Rejected(400, AlreadyEnrolled))
              && ((!PairTaken(old(db.inscripciones), a.value.id, c.value.id)
                   && InscripcionIndex(old(db.inscripciones), newId).Some?) ==> r == Rejected(400, DuplicateEnrollment))
              && ((!PairTaken(old(db.inscripciones), a.value.id, c.value.id)
                   && InscripcionIndex(old(db.inscripciones), newId).None?) ==> r.Done?)
    ensures r.Rejected? ==> r.status == 400 || r.status == 403
    ensures CursosReferenced(old(db.inscripciones), old(db.cursos)) ==> CursosReferenced(db.inscripciones, db.cursos)
  {
    if alumno.None? {
      return Rejected(400, AlumnoFormat);
    }
    var alumnoDoc := LookupAlumno(db.usuarios, alumno.value);
    if alumnoDoc.None? {
      return Rejected(400, AlumnoInvalid);
    }
    var alumnoId := alumnoDoc.value.id;
    if !SelfOnly(user, alumnoId) {
      return Rejected(403, SelfEnrollOnly);
    }
    var cursoDoc := if curso.None? then None else LookupCurso(db.cursos, curso.value, true);
    if cursoDoc.None? {
      return Rejected(400, CursoUnknown);
    }
    var cursoId := cursoDoc.value.id;
    if PairTaken(db.inscripciones, alumnoId, cursoId) {
      return Rejected(400, AlreadyEnrolled);
    }
    ghost var before := db.inscripciones;
    var w, nueva := db.InsertInscripcion(newId, alumnoId, cursoId);
    if w.DuplicateKey? {
      return Rejected(400, DuplicateEnrollment);
    }
    AppendKeepsReferences(before, db.cursos, nueva, cursoDoc.value);
    r := Done(201, nueva);
  }

  /** The enrollment filter `filtro` as the listing builds it: an optional
      student and an optional set of courses. */
  datatype Filtro = Filtro(alumno: Option<Id>, cursos: Option<seq<Id>>)

  predicate Matches(e: Inscripcion, f: Filtro) {
    && (f.alumno.Some? ==> e.alumno == f.alumno.value)
    && (f.cursos.Some? ==> e.curso in f.cursos.value)
  }

  /** The courses of every docente whose name contains the trimmed token. */
  function CursosDeDocentes(us: seq<Usuario>, cs: seq<Curso>, token: string): (r: seq<Curso>)
    ensures forall c :: c in r <==> c in cs && exists d :: d in us && NombreTipoMatch(d, Trim(token), DOCENTE) && c.docente == d.id
  {
    var docentes := UsuariosByNombreTipo(us, Trim(token), DOCENTE);
    var ids := IdsOfUsuarios(docentes);
    var r := CursosOfDocentes(cs, ids);
    assert forall c: Curso :: c.docente in ids <==> exists d: Usuario :: d in docentes && c.docente == d.id by {
      forall c: Curso | c.docente in ids ensures exists d: Usuario :: d in docentes && c.docente == d.id {
        var k :| 0 <= k < |ids| && ids[k] == c.docente;
        assert docentes[k] in docentes;
      }
      forall c: Curso, d: Usuario | d in docentes && c.docente == d.id ensures c.docente in ids {
        var k :| 0 <= k < |docentes| && docentes[k] == d;
        assert ids[k] == d.id;
      }
    }
    r
  }

  /** Which enrollments the listing selects: by the resolved student when
      `alumno` is given; by the courses of the matching docentes when
      `docente` is given, which replaces any `curso` filter; otherwise by the
      resolved course when `curso` is given. */
  predicate Selected(us: seq<Usuario>, cs: seq<Curso>, alumno: Option<string>, curso: Option<string>,
                     docente: Option<string>, e: Inscripcion) {
    && (Truthy(alumno) ==> LookupAlumno(us, alumno.value).Some? && e.alumno == LookupAlumno(us, alumno.value).value.id)
    && (Truthy(docente) ==> exists c :: c in CursosDeDocentes(us, cs, docente.value) && e.curso == c.id)
    && (!Truthy(docente) && Truthy(curso) ==>
          LookupCurso(cs, curso.value, false).Some? && e.curso == LookupCurso(cs, curso.value, false).value.id)
  }

  /** The filter built from resolved parameters selects what `Selected` describes. */
  lemma FiltroSelects(us: seq<Usuario>, cs: seq<Curso>, alumno: Option<string>, curso: Option<string>,
                      docente: Option<string>, f: Filtro, e: Inscripcion)
    requires Truthy(alumno) ==> LookupAlumno(us, alumno.value).Some?
    requires f.alumno == if Truthy(alumno) then Some(LookupAlumno(us, alumno.value).value.id) else None
    requires !Truthy(docente) && Truthy(curso) ==> LookupCurso(cs, curso.value, false).Some?
    requires f.cursos == if Truthy(docente) then Some(IdsOfCursos(CursosDeDocentes(us, cs, docente.value)))
                         else if Truthy(curso) then Some([LookupCurso(cs, curso.value, false).value.id])
                         else None
    ensures Matches(e, f) <==> Selected(us, cs, alumno, curso, docente, e)
  {
    if Truthy(docente) {
      IdsOfCursosMembers(CursosDeDocentes(us, cs, docente.value), e.curso);
    }
  }

  /** `getInscripciones`: the filter is built field by field and each given
      field that resolves to nothing ends the request; absent or empty
      parameters do not filter. */
  method GetInscripciones(db: Db, alumno: Option<string>, curso: Option<string>, docente: Option<string>)
    returns (r: Reply<seq<Inscripcion>>)
    ensures Truthy(alumno) && LookupAlumno(db.usuarios, alumno.value).None? ==> r == Rejected(404, AlumnoNotFound)
    ensures ((Truthy(alumno) ==> LookupAlumno(db.usuarios, alumno.value).Some?)
             && Truthy(curso) && LookupCurso(db.cursos, curso.value, false).None?) ==> r == Rejected(404, CursoNotFound)
    ensures r.Rejected? && r.status == 400 ==> Truthy(docente) && Trim(docente.value) == []
    ensures r == Rejected(404, DocenteNotFound) ==>
              Truthy(docente) && UsuariosByNombreTipo(db.usuarios, Trim(docente.value), DOCENTE) == []
    ensures r == Rejected(404, DocenteWithoutCursos) ==>
              Truthy(docente) && CursosDeDocentes(db.usuarios, db.cursos, docente.value) == []
    ensures ((Truthy(alumno) ==> LookupAlumno(db.usuarios, alumno.value).Some?)
             && (Truthy(curso) ==> LookupCurso(db.cursos, curso.value, false).Some?)) ==>
              && (Truthy(docente) && Trim(docente.value) == [] ==> r == Rejected(400, DocenteParamInvalid))
              && ((Truthy(docente) && Trim(docente.value) != []
                   && UsuariosByNombreTipo(db.usuarios, Trim(docente.value), DOCENTE) == []) ==> r == Rejected(404, DocenteNotFound))
              && ((Truthy(docente) && Trim(docente.value) != []
                   && UsuariosByNombreTipo(db.usuarios, Trim(docente.value), DOCENTE) != []
                   && CursosDeDocentes(db.usuarios, db.cursos, docente.value) == []) ==> r == Rejected(404, DocenteWithoutCursos))
              && ((Truthy(docente) ==>
                     && Trim(docente.value) != []
                     && UsuariosByNombreTipo(db.usuarios, Trim(docente.value), DOCENTE) != []
                     && CursosDeDocentes(db.usuarios, db.cursos, docente.value) != []) ==> r.Done?)
    ensures r.Done? ==>
              && r.status == 200
              && (Truthy(docente) ==> CursosDeDocentes(db.usuarios, db.cursos, docente.value) != [])
              && Subsequence(r.value, db.inscripciones)
              && forall e :: e in r.value <==> e in db.inscripciones && Selected(db.usuarios, db.cursos, alumno, curso, docente, e)
  {
    var filtroAlumno: Option<Id> := None;
    var filtroCursos: Option<seq<Id>> := None;
    if Truthy(alumno) {
      var alumnoDoc := LookupAlumno(db.usuarios, alumno.value);
      if alumnoDoc.None? {
        return Rejected(404, AlumnoNotFound);
      }
      filtroAlumno := Some(alumnoDoc.value.id);
    }
    if Truthy(curso) {
      var cursoDoc := LookupCurso(db.cursos, curso.value, false);
      if cursoDoc.None? {
        return Rejected(404, CursoNotFound);
      }
      filtroCursos := Some([cursoDoc.value.id]);
    }
    if Truthy(docente) {
      if Trim(docente.value) == [] {
        return Rejected(400, DocenteParamInvalid);
      }
      var docentes := UsuariosByNombreTipo(db.usuarios, Trim(docente.value), DOCENTE);
      if docentes == [] {
        return Rejected(404, DocenteNotFound);
      }
      var cursosDocente := CursosDeDocentes(db.usuarios, db.cursos, docente.value);
      if cursosDocente == [] {
        return Rejected(404, DocenteWithoutCursos);
      }
      filtroCursos := Some(IdsOfCursos(cursosDocente));
    }
    var filtro := Filtro(filtroAlumno, filtroCursos);
    var found := Where(db.inscripciones, (e: Inscripcion) => Matches(e, filtro));
    forall e | e in db.inscripciones
      ensures Matches(e, filtro) <==> Selected(db.usuarios, db.cursos, alumno, curso, docente, e)
    {
      FiltroSelects(db.usuarios, db.cursos, alumno, curso, docente, filtro, e);
    }
    r := Done(200, found);
  }

  /** `eliminarInscripcion`: a malformed id is refused, a missing enrollment
      is not found, an alumno may remove only its own enrollment; any other
      principal, every docente included, removes exactly that one record. */
  method EliminarInscripcion(db: Db, user: Option<Claims>, id: string) returns (r: Reply<()>)
    requires db.Valid()
    modifies db
    ensures db.Valid()
    ensures db.usuarios == old(db.usuarios) && db.cursos == old(db.cursos) && db.clock == old(db.clock)
    ensures !IsObjectId(id) ==> r == Rejected(400, InvalidId)
    ensures IsObjectId(id) && InscripcionIndex(old(db.inscripciones), Cast(id)).None? ==> r == Rejected(404, InscripcionNotFound)
    ensures r.Rejected? ==> db.inscripciones == old(db.inscripciones)
    ensures r == Rejected(403, SelfUnenrollOnly) <==>
              && IsObjectId(id) && InscripcionIndex(old(db.inscripciones), Cast(id)).Some?
              && !SelfOnly(user, old(db.inscripciones)[InscripcionIndex(old(db.inscripciones), Cast(id)).value].alumno)
    ensures r.Done? ==>
              && IsObjectId(id) && InscripcionIndex(old(db.inscripciones), Cast(id)).Some?
              && db.inscripciones == RemoveAt(old(db.inscripciones), InscripcionIndex(old(db.inscripciones), Cast(id)).value)
              && forall e :: e in db.inscripciones <==> e in old(db.inscripciones) && e.id != Cast(id)
    ensures (IsObjectId(id) && InscripcionIndex(old(db.inscripciones), Cast(id)).Some?
             && SelfOnly(user, old(db.inscripciones)[InscripcionIndex(old(db.inscripciones), Cast(id)).value].alumno)) ==> r.Done?
    ensures (IsObjectId(id) && InscripcionIndex(old(db.inscripciones), Cast(id)).Some?
             && user.Some? && user.value.role == DOCENTE) ==> r.Done?
    ensures CursosReferenced(old(db.inscripciones), old(db.cursos)) ==> CursosReferenced(db.inscripciones, db.cursos)
  {
    if !IsObjectId(id) {
      return Rejected(400, InvalidId);
    }
    var index := InscripcionIndex(db.inscripciones, Cast(id));
    if index.None? {
      return Rejected(404, InscripcionNotFound);
    }
    var inscripcion := db.inscripciones[index.value];
    if !SelfOnly(user, inscripcion.alumno) {
      return Rejected(403, SelfUnenrollOnly);
    }
    RemoveAtKey(db.inscripciones, index.value, (e: Inscripcion) => e.id);
    RemoveKeepsReferences(db.inscripciones, db.cursos, index.value);
    db.DeleteInscripcion(index.value);
    r := Done(200, ());
  }
}
