/** The enrollment routes (routes/inscripciones.routes.js): which chain of
    middlewares guards each endpoint and what its validators demand. */
module InscripcionesRoutes {
  import opened Wrappers
  import opened ObjectIds
  import opened Schema
  import opened Http
  import opened Auth

  /** `checkRole(['admin', 'alumno'])` on POST. */
  const CREAR_ROLES: seq<string> := [ADMIN, ALUMNO]
  /** `checkRole(['admin', 'docente', 'alumno'])` on DELETE. */
  const ELIMINAR_ROLES: seq<string> := [ADMIN, DOCENTE, ALUMNO]

  /** `check(field).isString().notEmpty()` on a string field of the body. */
  predicate NonEmptyString(f: Option<string>) {
    f.Some? && f.value != []
  }

  /** GET `/`: a verified token and nothing else. */
  function Listar(header: Option<string>, verify: string -> Option<Claims>): (a: Admission)
    ensures a.Admitted? <==> ValidarToken(header, verify).Next?
    ensures a.Admitted? ==> a.user == Some(ValidarToken(header, verify).user)
  {
    Protected(header, verify, None, true)
  }

  /** POST `/`: a token of an admin or an alumno, then non-empty string
      `alumno` and `curso`. The role gate answers first, so a forbidden role
      gets 403 whatever the body. */
  function Crear(header: Option<string>, verify: string -> Option<Claims>,
                 alumno: Option<string>, curso: Option<string>): (a: Admission)
    ensures a.Admitted? <==> ValidarToken(header, verify).Next?
                             && ValidarToken(header, verify).user.role in CREAR_ROLES
                             && NonEmptyString(alumno) && NonEmptyString(curso)
    ensures a.Admitted? ==> a.user.Some? && (a.user.value.role == ADMIN || a.user.value.role == ALUMNO)
    ensures ValidarToken(header, verify).Next? && ValidarToken(header, verify).user.role == DOCENTE ==>
              a == Refused(403, RoleForbidden)
  {
    Protected(header, verify, Some(CREAR_ROLES), NonEmptyString(alumno) && NonEmptyString(curso))
  }

  /** DELETE `/:id`: a token of any of the three roles, then a Mongo id. */
  function Eliminar(header: Option<string>, verify: string -> Option<Claims>, id: string): (a: Admission)
    ensures a.Admitted? <==> ValidarToken(header, verify).Next?
                             && IsTipo(ValidarToken(header, verify).user.role)
                             && IsMongoId(id)
    ensures ValidarToken(header, verify).Next? && !IsTipo(ValidarToken(header, verify).user.role) ==>
              a == Refused(403, RoleForbidden)
  {
    Protected(header, verify, Some(ELIMINAR_ROLES), IsMongoId(id))
  }
}
