/** The course routes (routes/cursos.routes.js): reading needs a token,
    writing needs an admin token, and the body validators constrain each
    field. */
module CursosRoutes {
  import opened Wrappers
  import opened ObjectIds
  import opened Schema
  import opened Http
  import opened Auth
  import opened Cursos

  const ADMIN_ONLY: seq<string> := [ADMIN]

  predicate NonEmptyString(f: Option<string>) {
    f.Some? && f.value != []
  }

  /** `isInt({ min: 1, max: 15 })`. */
  predicate ClassCodeInRange(k: int) {
    MIN_CLASS_CODE <= k <= MAX_CLASS_CODE
  }

  /** The POST validators: every field present and well-formed. */
  predicate CrearBodyOk(b: CursoBody) {
    && NonEmptyString(b.nombre) && NonEmptyString(b.descripcion) && NonEmptyString(b.docente)
    && b.fecha.Some?
    && b.classCode.Some? && ClassCodeInRange(b.classCode.value)
  }

  /** The PUT validators: the same constraints, each one `optional()`. */
  predicate ActualizarBodyOk(b: CursoBody) {
    && (b.nombre.Some? ==> b.nombre.value != [])
    && (b.descripcion.Some? ==> b.descripcion.value != [])
    && (b.docente.Some? ==> b.docente.value != [])
    && (b.classCode.Some? ==> ClassCodeInRange(b.classCode.value))
  }

  /** A body fit for creation is fit for update. */
  lemma CrearBodyFitsActualizar(b: CursoBody)
    requires CrearBodyOk(b)
    ensures ActualizarBodyOk(b)
  {
  }

  /** GET `/`: a verified token. */
  function Listar(header: Option<string>, verify: string -> Option<Claims>): (a: Admission)
    ensures a.Admitted? <==> ValidarToken(header, verify).Next?
  {
    Protected(header, verify, None, true)
  }

  /** GET `/:id` and GET `/:id/alumnos`: a verified token, then a Mongo id; any role. */
  function Obtener(header: Option<string>, verify: string -> Option<Claims>, id: string): (a: Admission)
    ensures a.Admitted? <==> ValidarToken(header, verify).Next? && IsMongoId(id)
    ensures ValidarToken(header, verify).Next? && !IsMongoId(id) ==> a == Refused(400, ValidationErrors)
  {
    Protected(header, verify, None, IsMongoId(id))
  }

  /** POST `/`: an admin token, then a complete body. */
  function Crear(header: Option<string>, verify: string -> Option<Claims>, body: CursoBody): (a: Admission)
    ensures a.Admitted? <==> ValidarToken(header, verify).Next?
                             && ValidarToken(header, verify).user.role == ADMIN && CrearBodyOk(body)
    ensures ValidarToken(header, verify).Next? && ValidarToken(header, verify).user.role != ADMIN ==>
              a == Refused(403, RoleForbidden)
  {
    Protected(header, verify, Some(ADMIN_ONLY), CrearBodyOk(body))
  }

  /** PUT `/:id`: an admin token, then a Mongo id and a well-formed partial body. */
  function Actualizar(header: Option<string>, verify: string -> Option<Claims>,
                      id: string, body: CursoBody): (a: Admission)
    ensures a.Admitted? <==> ValidarToken(header, verify).Next?
                             && ValidarToken(header, verify).user.role == ADMIN
                             && IsMongoId(id) && ActualizarBodyOk(body)
    ensures ValidarToken(header, verify).Next? && ValidarToken(header, verify).user.role != ADMIN ==>
              a == Refused(403, RoleForbidden)
  {
    Protected(header, verify, Some(ADMIN_ONLY), IsMongoId(id) && ActualizarBodyOk(body))
  }

  /** DELETE `/:id`: an admin token, then a Mongo id. */
  function Eliminar(header: Option<string>, verify: string -> Option<Claims>, id: string): (a: Admission)
    ensures a.Admitted? <==> ValidarToken(header, verify).Next?
                             && ValidarToken(header, verify).user.role == ADMIN && IsMongoId(id)
    ensures ValidarToken(header, verify).Next? && ValidarToken(header, verify).user.role != ADMIN ==>
              a == Refused(403, RoleForbidden)
  {
    Protected(header, verify, Some(ADMIN_ONLY), IsMongoId(id))
  }
}
