/** The user controller (controllers/usuarios.controller.js): listing,
    reading, registering, updating and deleting users, and logging in.
    Password hashing, hash comparison and token signing are parameters. */
module Usuarios {
  import opened Wrappers
  import opened Text
  import opened ObjectIds
  import opened Schema
  import opened Seqs
  import opened Store
  import opened Http
  import opened Auth

  /** A user body as sent; a field is `None` when absent. */
  datatype UsuarioBody = UsuarioBody(nombre: Option<string>, email: Option<string>,
                                     password: Option<string>, tipo: Option<string>)

  /** The role a token for `u` carries: its type, or `"user"` when that is empty. */
  const DEFAULT_ROLE: string := "user"

  /** The filter of `getUsuarios`: an exact type when `tipo` is truthy, a
      case-insensitive substring of the untrimmed `nombre` when that is truthy. */
  predicate Listado(u: Usuario, tipo: Option<string>, nombre: Option<string>) {
    && (Truthy(tipo) ==> u.tipo == tipo.value)
    && (Truthy(nombre) ==> ContainsIgnoreCase(u.nombre, nombre.value))
  }

  /** `p` is the public view of a stored user that passes the filter. */
  predicate ListadoPublico(us: seq<Usuario>, tipo: Option<string>, nombre: Option<string>, p: UsuarioPublico) {
    exists u :: u in us && Listado(u, tipo, nombre) && p == Publico(u)
  }

  /** `ps` is position by position the public view of `us`. */
  predicate PublicViews(ps: seq<UsuarioPublico>, us: seq<Usuario>) {
    |ps| == |us| && forall k :: 0 <= k < |us| ==> ps[k] == Publico(us[k])
  }

  /** `getUsuarios`: the public view of every stored user that passes the
      filter, in natural order; no password leaves the store. */
  method GetUsuarios(db: Db, tipo: Option<string>, nombre: Option<string>) returns (r: Reply<seq<UsuarioPublico>>)
    ensures r.Done? && r.status == 200
    ensures |r.value| <= |db.usuarios|
    ensures forall k :: 0 <= k < |r.value| ==> ListadoPublico(db.usuarios, tipo, nombre, r.value[k])
    ensures forall u :: u in db.usuarios && Listado(u, tipo, nombre) ==> Publico(u) in r.value
    ensures exists found :: Subsequence(found, db.usuarios) && PublicViews(r.value, found)
  {
    var found := Where(db.usuarios, (u: Usuario) => Listado(u, tipo, nombre));
    var publicos := seq(|found|, k requires 0 <= k < |found| => Publico(found[k]));
    forall k | 0 <= k < |publicos| ensures ListadoPublico(db.usuarios, tipo, nombre, publicos[k]) {
      assert found[k] in found && publicos[k] == Publico(found[k]);
    }
    forall u | u in db.usuarios && Listado(u, tipo, nombre) ensures Publico(u) in publicos {
      assert u in found;
      var k :| 0 <= k < |found| && found[k] == u;
      assert publicos[k] == Publico(u);
    }
    assert PublicViews(publicos, found);
    r := Done(200, publicos);
  }

  /** `getUsuarioById`: an id that cannot be cast is a server error, a
      missing user is not found; the answer is the user's public view. */
  method GetUsuarioById(db: Db, id: string) returns (r: Reply<UsuarioPublico>)
    ensures !IsObjectId(id) ==> r == Rejected(500, CastError)
    ensures IsObjectId(id) ==>
              && (r.Done? <==> UsuarioById(db.usuarios, Cast(id)).Some?)
              && (r.Done? ==> r.status == 200 && r.value == Publico(UsuarioById(db.usuarios, Cast(id)).value))
              && (r.Rejected? ==> r == Rejected(404, UsuarioNotFound))
  {
    if !IsObjectId(id) {
      return Rejected(500, CastError);
    }
    var u := UsuarioById(db.usuarios, Cast(id));
    if u.None? {
      return Rejected(404, UsuarioNotFound);
    }
    r := Done(200, Publico(u.value));
  }

  /** The document `crearUsuario` hands to `Usuario.create`: the trimmed
      name, the hashed password and the type, `alumno` when none is given. */
  function Registro(newId: Id, nombre: string, email: string, password: string, tipo: Option<string>,
                    hash: string -> string): (u: Usuario)
    ensures u.id == newId && u.email == email && u.password == hash(password)
    ensures u.nombre == Trim(nombre) && IsTrimmed(u.nombre) && |u.nombre| <= |nombre|
    ensures u.tipo == (if Truthy(tipo) then tipo.value else ALUMNO)
  {
    Usuario(newId, Trim(nombre), if Truthy(tipo) then tipo.value else ALUMNO, email, hash(password))
  }

  /** Only a principal with the admin role may create an admin. */
  predicate MayCreate(user: Option<Claims>, tipo: Option<string>) {
    tipo == Some(ADMIN) ==> user.Some? && user.value.role == ADMIN
  }

  /** `crearUsuario`: email and password are required (400); an admin
      account needs an admin principal (403); a registered email is a
      conflict (409); the stored document must pass the schema, and a
      schema or index failure is a server error. */
  method CrearUsuario(db: Db, user: Option<Claims>, body: UsuarioBody, hash: string -> string, newId: Id)
    returns (r: Reply<UsuarioPublico>)
    requires db.Valid()
    modifies db
    ensures db.Valid()
    ensures db.cursos == old(db.cursos) && db.inscripciones == old(db.inscripciones) && db.clock == old(db.clock)
    ensures r.Rejected? ==> db.usuarios == old(db.usuarios)
    ensures !Truthy(body.email) || !Truthy(body.password) ==> r == Rejected(400, CredentialsRequired)
    ensures (Truthy(body.email) && Truthy(body.password) && !MayCreate(user, body.tipo)) ==>
              r == Rejected(403, AdminOnly)
    ensures (Truthy(body.email) && Truthy(body.password) && MayCreate(user, body.tipo)
             && UsuarioByEmail(old(db.usuarios), body.email.value).Some?) ==> r == Rejected(409, EmailTaken)
    ensures r.Done? ==>
              && r.status == 201 && body.nombre.Some? && Truthy(body.email) && Truthy(body.password)
              && MayCreate(user, body.tipo)
              && UsuarioByEmail(old(db.usuarios), body.email.value).None?
              && var u := Registro(newId, body.nombre.value, body.email.value, body.password.value, body.tipo, hash);
                 && UsuarioSchemaOk(u)
                 && db.usuarios == old(db.usuarios) + [u]
                 && r.value == Publico(u)
    ensures (Truthy(body.email) && Truthy(body.password) && MayCreate(user, body.tipo)
             && UsuarioByEmail(old(db.usuarios), body.email.value).None?) ==>
              && (body.nombre.None? ==> r == Rejected(500, UsuarioValidation))
              && (body.nombre.Some? ==>
                    var u := Registro(newId, body.nombre.value, body.email.value, body.password.value, body.tipo, hash);
                    && (!UsuarioSchemaOk(u) ==> r == Rejected(500, UsuarioValidation))
                    && (UsuarioSchemaOk(u) && UsuarioById(old(db.usuarios), newId).Some? ==> r == Rejected(500, DuplicateKeyError))
                    && (UsuarioSchemaOk(u) && UsuarioById(old(db.usuarios), newId).None? ==> r.Done?))
    ensures r.Rejected? ==> r.status in {400, 403, 409, 500}
  {
    if !Truthy(body.email) || !Truthy(body.password) {
      return Rejected(400, CredentialsRequired);
    }
    if !MayCreate(user, body.tipo) {
      return Rejected(403, AdminOnly);
    }
    var email := body.email.value;
    if UsuarioByEmail(db.usuarios, email).Some? {
      return Rejected(409, EmailTaken);
    }
    if body.nombre.None? {
      return Rejected(500, UsuarioValidation);
    }
    var nuevo := Registro(newId, body.nombre.value, email, body.password.value, body.tipo, hash);
    if !UsuarioSchemaOk(nuevo) {
      return Rejected(500, UsuarioValidation);
    }
    var w := db.InsertUsuario(nuevo);
    if w.DuplicateKey? {
      return Rejected(500, DuplicateKeyError);
    }
    r := Done(201, Publico(nuevo));
  }

  /** The document after `findByIdAndUpdate` without validators: every sent
      field overwrites the stored one, the name trimmed by the schema's
      setter; a truthy password is hashed first, an empty one is stored as
      it is. */
  function Actualizado(u: Usuario, b: UsuarioBody, hash: string -> string): (n: Usuario)
    ensures n.id == u.id
    ensures n.nombre == (if b.nombre.Some? then Trim(b.nombre.value) else u.nombre)
    ensures n.email == (if b.email.Some? then b.email.value else u.email)
    ensures n.tipo == (if b.tipo.Some? then b.tipo.value else u.tipo)
    ensures Truthy(b.password) ==> n.password == hash(b.password.value)
    ensures b.password == Some([]) ==> n.password == []
    ensures b.password.None? ==> n.password == u.password
    ensures b == UsuarioBody(None, None, None, None) ==> n == u
  {
    Usuario(u.id,
            if b.nombre.Some? then Trim(b.nombre.value) else u.nombre,
            if b.tipo.Some? then b.tipo.value else u.tipo,
            if b.email.Some? then b.email.value else u.email,
            if Truthy(b.password) then hash(b.password.value)
            else if b.password.Some? then [] else u.password)
  }

  /** The routes check the name's length before the schema trims it: a
      name such as `"  ab"` passes the route and fails the schema, so
      registration answers 500. */
  lemma RegistroTrimsBeforeLength(newId: Id, email: string, password: string, tipo: Option<string>,
                                  hash: string -> string)
    ensures |"  ab"| >= MIN_NOMBRE_USUARIO
    ensures !UsuarioSchemaOk(Registro(newId, "  ab", email, password, tipo, hash))
  {
    TrimShort("  ab");
  }

  /** Updates run no validators: the same name is stored as `"ab"`, which
      the schema would refuse; the stored users need not satisfy it. */
  lemma UpdateSkipsSchema(u: Usuario, hash: string -> string)
    ensures !UsuarioSchemaOk(Actualizado(u, UsuarioBody(Some("  ab"), None, None, None), hash))
  {
    TrimShort("  ab");
  }

  lemma TrimShort(s: string)
    requires |s| == 4 && IsWhitespace(s[0]) && IsWhitespace(s[1])
    ensures |Trim(s)| <= 2
  {
    assert LeadingBlanks(s) >= 2 by {
      assert LeadingBlanks(s) == 1 + LeadingBlanks(s[1..]);
      assert LeadingBlanks(s[1..]) == 1 + LeadingBlanks(s[2..]);
    }
  }

  /** `actualizarUsuario`: an id that cannot be cast and an email held by
      another user are server errors, a missing user is not found;
      otherwise exactly that user is rewritten. */
  method ActualizarUsuario(db: Db, id: string, body: UsuarioBody, hash: string -> string)
    returns (r: Reply<UsuarioPublico>)
    requires db.Valid()
    modifies db
    ensures db.Valid()
    ensures db.cursos == old(db.cursos) && db.inscripciones == old(db.inscripciones) && db.clock == old(db.clock)
    ensures r.Rejected? ==> db.usuarios == old(db.usuarios)
    ensures !IsObjectId(id) ==> r == Rejected(500, CastError)
    ensures IsObjectId(id) && UsuarioIndex(old(db.usuarios), Cast(id)).None? ==> r == Rejected(404, UsuarioNotFound)
    ensures (IsObjectId(id) && UsuarioIndex(old(db.usuarios), Cast(id)).Some?) ==>
              var i := UsuarioIndex(old(db.usuarios), Cast(id)).value;
              var n := Actualizado(old(db.usuarios)[i], body, hash);
              && (r.Rejected? <==> EmailTakenExcept(old(db.usuarios), n.email, i))
              && (r.Rejected? ==> r == Rejected(500, DuplicateKeyError))
              && (r.Done? ==> r == Done(200, Publico(n)) && db.usuarios == old(db.usuarios)[i := n])
  {
    if !IsObjectId(id) {
      return Rejected(500, CastError);
    }
    var index := UsuarioIndex(db.usuarios, Cast(id));
    if index.None? {
      return Rejected(404, UsuarioNotFound);
    }
    var i := index.value;
    var actualizado := Actualizado(db.usuarios[i], body, hash);
    var w := db.ReplaceUsuario(i, actualizado);
    if w.DuplicateKey? {
      return Rejected(500, DuplicateKeyError);
    }
    r := Done(200, Publico(actualizado));
  }

  /** `eliminarUsuario`: an id that cannot be cast is a server error, a
      missing user is not found; otherwise exactly that user is removed.
      The user's enrollments and courses stay. */
  method EliminarUsuario(db: Db, id: string) returns (r: Reply<()>)
    requires db.Valid()
    modifies db
    ensures db.Valid()
    ensures db.cursos == old(db.cursos) && db.inscripciones == old(db.inscripciones) && db.clock == old(db.clock)
    ensures r.Rejected? ==> db.usuarios == old(db.usuarios)
    ensures !IsObjectId(id) ==> r == Rejected(500, CastError)
    ensures IsObjectId(id) && UsuarioIndex(old(db.usuarios), Cast(id)).None? ==> r == Rejected(404, UsuarioNotFound)
    ensures IsObjectId(id) && UsuarioIndex(old(db.usuarios), Cast(id)).Some? ==> r.Done?
    ensures r.Done? ==>
              && r.status == 200 && IsObjectId(id) && UsuarioIndex(old(db.usuarios), Cast(id)).Some?
              && db.usuarios == RemoveAt(old(db.usuarios), UsuarioIndex(old(db.usuarios), Cast(id)).value)
              && forall u :: u in db.usuarios <==> u in old(db.usuarios) && u.id != Cast(id)
  {
    if !IsObjectId(id) {
      return Rejected(500, CastError);
    }
    var index := UsuarioIndex(db.usuarios, Cast(id));
    if index.None? {
      return Rejected(404, UsuarioNotFound);
    }
    RemoveAtKey(db.usuarios, index.value, (u: Usuario) => u.id);
    db.DeleteUsuario(index.value);
    r := Done(200, ());
  }

  /** The claims a login token carries. */
  function ClaimsOf(u: Usuario): (c: Claims)
    ensures c.id == u.id && c.email == u.email
    ensures c.role == (if u.tipo != [] then u.tipo else DEFAULT_ROLE)
    ensures IsTipo(u.tipo) ==> c.role == u.tipo
  {
    Claims(u.id, u.email, if u.tipo != [] then u.tipo else DEFAULT_ROLE)
  }

  /** The user whose credentials these are: the first user with that email,
      if `compare` accepts the password against its stored hash. */
  function Credenciales(us: seq<Usuario>, email: string, password: string,
                        compare: (string, string) -> bool): (r: Option<Usuario>)
    ensures r.Some? ==> r.value in us && r.value.email == email && compare(password, r.value.password)
    ensures r.None? <==> UsuarioByEmail(us, email).None? || !compare(password, UsuarioByEmail(us, email).value.password)
  {
    match UsuarioByEmail(us, email)
    case None => None
    case Some(u) => if compare(password, u.password) then Some(u) else None
  }

  /** With unique emails, a stored user whose password the hash accepts is
      the one a login with that user's email finds. */
  lemma {:induction false} OwnCredentials(us: seq<Usuario>, u: Usuario, password: string,
                                          compare: (string, string) -> bool)
    requires UniqueEmails(us) && u in us && compare(password, u.password)
    ensures Credenciales(us, u.email, password, compare) == Some(u)
  {
    var j :| 0 <= j < |us| && us[j] == u;
    var found := UsuarioByEmail(us, u.email).value;
    var i :| 0 <= i < |us| && us[i] == found;
    assert i == j;
  }

  /** A user just registered can log in with the password it registered
      with, when the comparison accepts a password against its own hash. */
  lemma RegisteredCanLogin(us: seq<Usuario>, u: Usuario, password: string,
                           hash: string -> string, compare: (string, string) -> bool)
    requires UniqueEmails(us + [u]) && u.password == hash(password)
    requires forall p :: compare(p, hash(p))
    ensures Credenciales(us + [u], u.email, password, compare) == Some(u)
  {
    OwnCredentials(us + [u], u, password, compare);
  }

  datatype Session = Session(token: string, user: UsuarioPublico)

  /** `auth`: the same 400 answer whether the email is unknown or the
      password wrong; otherwise a token signed over the user's claims and
      the user's public view. */
  method Login(db: Db, email: string, password: string, compare: (string, string) -> bool,
               sign: Claims -> string) returns (r: Reply<Session>)
    ensures Credenciales(db.usuarios, email, password, compare).None? <==> r.Rejected?
    ensures r.Rejected? ==> r == Rejected(400, InvalidCredentials)
    ensures r.Done? ==>
              var u := Credenciales(db.usuarios, email, password, compare).value;
              r == Done(200, Session(sign(ClaimsOf(u)), Publico(u)))
  {
    var usuario := UsuarioByEmail(db.usuarios, email);
    if usuario.None? {
      return Rejected(400, InvalidCredentials);
    }
    var ok := compare(password, usuario.value.password);
    if !ok {
      return Rejected(400, InvalidCredentials);
    }
    r := Done(200, Session(sign(ClaimsOf(usuario.value)), Publico(usuario.value)));
  }
}
