/** The user routes (routes/usuarios.routes.js). Registration (POST `/`) and
    login (POST `/auth`) run without `validarToken`, so their controllers
    never see a principal; update and delete are admin-only. */
module UsuariosRoutes {
  import opened Wrappers
  import opened Text
  import opened ObjectIds
  import opened Schema
  import opened Http
  import opened Auth
  import opened Usuarios

  const ADMIN_ONLY: seq<string> := [ADMIN]

  /** A character allowed in an address by `isEmail`: no whitespace and no `@`. */
  predicate EmailChar(c: char) {
    !IsWhitespace(c) && c != '@'
  }

  /** `isEmail()`, approximated: one `@` with a non-empty local part before
      it, and a domain after it made of a non-empty label, a dot and a final
      label of at least two characters; no whitespace anywhere. */
  predicate IsEmail(s: string) {
    exists at | 0 < at < |s| :: EmailSplitAt(s, at)
  }

  predicate EmailSplitAt(s: string, at: int) {
    && 0 < at < |s| && s[at] == '@'
    && (forall k :: 0 <= k < |s| && k != at ==> EmailChar(s[k]))
    && exists dot | at + 1 < dot < |s| - 2 :: s[dot] == '.'
  }

  /** Every address `isEmail` accepts matches the schema's `/.+@.+\..+/`. */
  lemma {:induction false} IsEmailMatchesPattern(s: string)
    requires IsEmail(s)
    ensures MatchesEmailPattern(s)
  {
    var at :| 0 < at < |s| && EmailSplitAt(s, at);
    var dot :| at + 1 < dot < |s| - 2 && s[dot] == '.';
    assert EmailChar(s[at - 1]) && EmailChar(s[dot + 1]);
    forall k | at < k < dot ensures RegexDot(s[k]) {
      assert EmailChar(s[k]);
    }
    assert IsEmailMatch(s, at, dot);
  }

  /** The POST `/` validators: `nombre` a string of at least 3 characters
      (before trimming), `email` an address, `password` at least 6
      characters, `tipo` one of the three roles. */
  predicate CrearBodyOk(b: UsuarioBody) {
    && b.nombre.Some? && |b.nombre.value| >= MIN_NOMBRE_USUARIO
    && b.email.Some? && IsEmail(b.email.value)
    && b.password.Some? && |b.password.value| >= MIN_PASSWORD
    && b.tipo.Some? && IsTipo(b.tipo.value)
  }

  /** The PUT `/:id` validators: the same constraints, each one `optional()`. */
  predicate ActualizarBodyOk(b: UsuarioBody) {
    && (b.nombre.Some? ==> |b.nombre.value| >= MIN_NOMBRE_USUARIO)
    && (b.email.Some? ==> IsEmail(b.email.value))
    && (b.password.Some? ==> |b.password.value| >= MIN_PASSWORD)
    && (b.tipo.Some? ==> IsTipo(b.tipo.value))
  }

  /** The POST `/auth` validators: an address and a non-empty password. */
  predicate LoginBodyOk(b: UsuarioBody) {
    b.email.Some? && IsEmail(b.email.value) && b.password.Some? && b.password.value != []
  }

  /** GET `/`: a verified token. */
  function Listar(header: Option<string>, verify: string -> Option<Claims>): (a: Admission)
    ensures a.Admitted? <==> ValidarToken(header, verify).Next?
  {
    Protected(header, verify, None, true)
  }

  /** GET `/:id`: a verified token, then a Mongo id; any role. */
  function Obtener(header: Option<string>, verify: string -> Option<Claims>, id: string): (a: Admission)
    ensures a.Admitted? <==> ValidarToken(header, verify).Next? && IsMongoId(id)
  {
    Protected(header, verify, None, IsMongoId(id))
  }

  /** POST `/`: validators only. Whatever the request carries, the
      controller runs without a principal, and only with a `tipo` given. */
  function Crear(body: UsuarioBody): (a: Admission)
    ensures a.Admitted? <==> CrearBodyOk(body)
    ensures a.Admitted? ==> a.user.None? && body.tipo.Some? && body.email.Some? && body.password.Some?
    ensures a.Admitted? ==> MatchesEmailPattern(body.email.value)
  {
    if CrearBodyOk(body) then IsEmailMatchesPattern(body.email.value); Open(true)
    else Open(false)
  }

  /** PUT `/:id`: an admin token, then a Mongo id and a well-formed partial body. */
  function Actualizar(header: Option<string>, verify: string -> Option<Claims>,
                      id: string, body: UsuarioBody): (a: Admission)
    ensures a.Admitted? <==> ValidarToken(header, verify).Next?
                             && ValidarToken(header, verify).user.role == ADMIN
                             && IsMongoId(id) && ActualizarBodyOk(body)
    ensures ValidarToken(header, verify).Next? && ValidarToken(header, verify).user.role != ADMIN ==>
              a == Refused(403, RoleForbidden)
  {
    Protected(header, verify, Some(ADMIN_ONLY), IsMongoId(id) && ActualizarBodyOk(body))
  }

  /** DELETE `/:id`: an admin token, then a Mongo id. */
  function Eliminar(header: Option<string>, verify: string -> Option<Claims>, id: string): (a: Admission)
    ensures a.Admitted? <==> ValidarToken(header, verify).Next?
                             && ValidarToken(header, verify).user.role == ADMIN && IsMongoId(id)
    ensures ValidarToken(header, verify).Next? && ValidarToken(header, verify).user.role != ADMIN ==>
              a == Refused(403, RoleForbidden)
  {
    Protected(header, verify, Some(ADMIN_ONLY), IsMongoId(id))
  }

  /** POST `/auth`: validators only; the controller runs without a principal. */
  function Login(body: UsuarioBody): (a: Admission)
    ensures a.Admitted? <==> LoginBodyOk(body)
    ensures a.Admitted? ==> a.user.None?
  {
    Open(LoginBodyOk(body))
  }
}
