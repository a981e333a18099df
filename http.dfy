/** What a handler answers: a status code with either the value it sends
    back or the reason it refused. Each reason stands for one response
    message of the backend. */
module Http {
  datatype Reason =
    // middlewares/auth.js and the route validators
    | TokenRequired | TokenInvalid | NotAuthenticated | RoleForbidden | ValidationErrors
    // controllers/inscripciones.controller.js
    | AlumnoInvalid | AlumnoFormat | SelfEnrollOnly | CursoUnknown | AlreadyEnrolled
    | DuplicateEnrollment | AlumnoNotFound | CursoNotFound | DocenteParamInvalid
    | DocenteNotFound | DocenteWithoutCursos | InvalidId | InscripcionNotFound | SelfUnenrollOnly
    // controllers/cursos.controller.js
    | DocenteInvalid | CapacityReached | ClassCodeInUse | CursoValidation
    | CastError | DuplicateKeyError | HasInscripciones(count: nat) | CursoIdInvalid
    // controllers/usuarios.controller.js
    | CredentialsRequired | AdminOnly | EmailTaken | UsuarioValidation | UsuarioNotFound
    | InvalidCredentials

  datatype Reply<T> = Done(status: nat, value: T) | Rejected(status: nat, reason: Reason)
}
