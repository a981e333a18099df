# backend-cursos, modelled in Dafny

This project is a verified model of an Express and Mongoose REST API for a school. The API has three collections:
- users (`Usuario`), each with one of the roles `alumno`, `docente` and `admin`;
- courses (`Curso`), each with a teacher and a class code from 1 to 15;
- enrollments (`Inscripcion`), each pairing a student with a course.

The model covers these parts of the API:
- the three controllers;
- the authentication middleware (token extraction, token verification, the role gate);
- the validator and role chain of every route;
- the CORS allow-list of `index.js`;
- the three schemas.

An in-memory store stands in for MongoDB. It is `Store.Db`, a class with one `seq` field per collection and a clock. It enforces the unique indexes:
- `_id` on every collection;
- `email` on users;
- `classCode` on courses;
- `(alumno, curso)` on enrollments.

A write that breaks an index answers `DuplicateKey`. That is how the controllers' `11000` and catch-all branches are reached.

Module layout, one module per file:
- `Text`: JavaScript's `trim`, `split`, `join`, `Number`, and case-insensitive matching.
- `Seqs`: `findOne` as the first matching position and `find` as every match, in collection order.
- `ObjectIds`: `ObjectId.isValid`, the route validator `isMongoId`, and the cast to a canonical id.
- `Schema`: the three models and their validators.
- `Store`: queries and the `Db` class.
- `Http`: answers and their reasons.
- `Auth`: `middlewares/auth.js`.
- `Cors`: `index.js`.
- `InscripcionesRoutes`, `CursosRoutes`, `UsuariosRoutes`: the route files.
- `Inscripciones`, `Cursos`, `Usuarios`: the controllers.

The controllers are methods over a `Db`. Each one states:
- the condition that forces each refusal, with its HTTP status and reason, in the source's order;
- that the request succeeds when none of those conditions holds;
- that a refusal leaves the store unchanged;
- the exact new contents of the store on success.

Some facts the proofs establish:
- Student tokens resolve in a fixed order. A valid id is looked up among students by id. A token with `@` is an exact email. Anything else is a case-insensitive substring of the trimmed name, and the first match wins. A student's own id and own email resolve to that student. The id of a teacher or an admin never resolves as a student.
- On creation, a course token is one of the following: an id, a number read by `Number` (which finds the course by its class code), or a whole name. A course's own id and the decimal form of its class code resolve to that course. Whatever a token resolves to on creation, it also resolves to on listing.
- The store admits at most 15 courses. This follows from class codes that are distinct and lie in 1..15 (`Schema.CapacityFromClassCodes`).
- Enrollment timestamps grow with insertion. So sorting a course's enrollments by `createdAt` descending is the reverse of storage order (`Cursos.GetAlumnosInscritos`).
- A student principal may only create or remove its own enrollments. A teacher principal may remove any enrollment.
- Registration (POST `/usuarios`) runs without `validarToken`, so its controller never sees a principal. A request for an `admin` account is therefore always refused with 403 (`UsuariosRoutes.Crear` with `Usuarios.CrearUsuario`).
- Login answers the same 400 whether the email is unknown or the password is wrong.
- For unique emails, a registered user can log in with its password (`Usuarios.RegisteredCanLogin`).
- Parsing the CORS list inverts a comma join (`Cors.AllowedOriginsOfJoin`).
- `Bearer <t>`, with the scheme word in any case, and a bare `<t>` both extract to `t` (`Auth.ExtractBearerAnyCase`, `Auth.ExtractBearer`, `Auth.ExtractBare`).
- A course update that passes the class-code check and the validators never collides on the `classCode` index, so its write never fails with a duplicate key (`Cursos.ValidatedUpdateFitsIndex`).
- The route validators check a user name's length before the schema's `trim` setter runs. A name such as `"  ab"` passes them and then fails the schema, so registration answers 500 (`Usuarios.RegistroTrimsBeforeLength`). User updates run no validators, so the stored users need not satisfy the user schema (`Usuarios.UpdateSkipsSchema`). It is therefore not an invariant of the store. The course schema is an invariant, because both creation and update validate.

Bcrypt hashing and comparison, and JWT signing and verification, are parameters of the operations that use them. So are the ids MongoDB would generate.

## Model

| member | source | states |
|---|---|---|
| Text.Trim | index.js:17 | the result has no white space at either end and is a contiguous slice of the input; only white space is cut around it |
| Text.TrimIdempotent | models/curso.model.js:8 | the schema's trim setter leaves an already trimmed name unchanged: trimming twice is trimming once |
| Text.TrimEmptyIff | controllers/inscripciones.controller.js:114 | a string trims to empty exactly when it is all white space |
| Text.JoinSplit | middlewares/auth.js:13 | joining the pieces of a split with the separator gives back the string |
| Text.SplitJoin | index.js:16 | splitting a join of separator-free pieces gives back the pieces |
| Text.NumberOfDecimalString | controllers/inscripciones.controller.js:41-43 | `Number` of a decimal numeral is that number |
| ObjectIds.Cast | controllers/inscripciones.controller.js:13-16 | the cast id equals the valid id string up to case |
| ObjectIds.CastInjective | controllers/inscripciones.controller.js:13-16 | two valid ids cast to the same id exactly when they are equal up to case |
| ObjectIds.CastCanonical | controllers/inscripciones.controller.js:31 | a stored id is a valid id and casts to itself |
| ObjectIds.MongoIdVersusObjectId | routes/inscripciones.routes.js:20 | every valid object id passes `isMongoId`; the strings that pass it without being valid object ids are exactly the `0x`/`0h`-prefixed ones, which the controllers then refuse as malformed |
| Seqs.Where | controllers/cursos.controller.js:75 | `find` keeps exactly the matching elements, as a subsequence of the collection in its order |
| Seqs.WhereConcat | controllers/cursos.controller.js:75 | `find` keeps collection order: on a concatenation it gives the matches of the first part, then those of the second |
| Seqs.RemoveAtKey | controllers/inscripciones.controller.js:174 | with distinct keys, deleting one entry removes exactly the entries with its key |
| Schema.Publico | controllers/usuarios.controller.js:15 | the public view keeps id, name, email and type, and holds no password |
| Schema.CapacityFromClassCodes | models/curso.model.js:23-29 | valid courses with distinct class codes number at most 15 |
| Schema.DistinctCodesCount | models/curso.model.js:26 | distinct class codes give as many codes as courses |
| Store.UsuarioByIdTipo | controllers/inscripciones.controller.js:14 | the first user with that id and role, or none exactly when no user has both |
| Store.UsuarioByEmailTipo | controllers/inscripciones.controller.js:18 | the user with that exact email and role, or none exactly when no user has both |
| Store.UsuarioByNombreTipo | controllers/inscripciones.controller.js:22 | the first user of that role whose name contains the pattern, ignoring case; none exactly when nobody matches |
| Store.UsuariosByNombreTipo | controllers/cursos.controller.js:64 | every user of that role whose name contains the pattern, and no other |
| Store.CursoByCodeExcept | controllers/cursos.controller.js:116-119 | a course with that class code and another id, or none exactly when no such course exists |
| Store.InscripcionesOfCurso | controllers/cursos.controller.js:149 | exactly the enrollments of that course |
| Store.OfCursoChronological | controllers/cursos.controller.js:179-181 | the enrollments of one course keep the strictly increasing `createdAt` order |
| Store.Db.constructor | models/inscripcion.model.js:26 | an empty store satisfies every unique index |
| Store.Db.InsertUsuario | controllers/usuarios.controller.js:46 | the insert is refused exactly when the id or the email is taken; otherwise the user is appended |
| Store.Db.ReplaceUsuario | controllers/usuarios.controller.js:55 | the update is refused exactly when another user holds the email; otherwise only that entry changes |
| Store.Db.DeleteUsuario | controllers/usuarios.controller.js:63 | the entry is removed and the indexes still hold |
| Store.Db.InsertCurso | controllers/cursos.controller.js:39 | the save is refused exactly when the id or the class code is taken; otherwise the course is appended |
| Store.Db.ReplaceCurso | controllers/cursos.controller.js:125-129 | the update is refused exactly when another course holds the class code; otherwise only that entry changes |
| Store.Db.DeleteCurso | controllers/cursos.controller.js:157 | the entry is removed and the indexes and schema still hold |
| Store.Db.InsertInscripcion | controllers/inscripciones.controller.js:57 | the record gets the current time as `fecha` and `createdAt`; it is refused exactly when its id or its (student, course) pair is taken; the clock advances on success |
| Store.Db.DeleteInscripcion | controllers/inscripciones.controller.js:174 | the entry is removed and the order and indexes still hold |
| Auth.ExtractToken | middlewares/auth.js:9-19 | none exactly for an absent or empty header; a result other than the trimmed header is the word after `Bearer` (any case) and a single space; a non-blank header never gives an empty token |
| Auth.ExtractBearerAnyCase | middlewares/auth.js:13-15 | a header trimming to `b + " " + t`, with `b` equal to `Bearer` ignoring case and `t` a non-empty token without spaces, extracts to `t` |
| Auth.ExtractBearer | middlewares/auth.js:14-15 | `"Bearer " + t` extracts to `t` |
| Auth.ExtractBare | middlewares/auth.js:18 | a bare trimmed token without spaces extracts to itself |
| Auth.ValidarToken | middlewares/auth.js:25-37 | 401 exactly when no token is extracted, 403 exactly when verification fails, otherwise it continues with the verified claims |
| Auth.CheckRole | middlewares/auth.js:44-62 | it passes exactly when there is a principal whose role is listed; otherwise 401 without a principal, 403 with one |
| Auth.Protected | routes/cursos.routes.js:21-27 | the chain admits exactly a verified token, with its role in the list and valid fields; token errors come first, then the role, then 400 for the fields |
| Auth.Open | routes/usuarios.routes.js:34-37 | a route without `validarToken` admits exactly valid fields and never sets a principal |
| Cors.TrimmedNonEmptyMembers | index.js:17-18 | an entry is in the list exactly when it is the non-empty trimmed form of some piece |
| Cors.AllowedOrigins | index.js:15-18 | every entry is non-empty, trimmed and free of commas; an absent or empty variable gives the empty list |
| Cors.AllowedOriginsMembers | index.js:15-18 | the allow-list holds exactly the non-empty trimmed comma-separated pieces |
| Cors.AllowedOriginsOfJoin | index.js:15-18 | the parse gives back a list of clean origins joined with commas |
| Cors.OriginDecision | index.js:22-31 | a request is allowed exactly when it has no origin or its origin is on the list |
| InscripcionesRoutes.Listar | routes/inscripciones.routes.js:8 | only a verified token is needed, with any role |
| InscripcionesRoutes.Crear | routes/inscripciones.routes.js:12-15 | admitted exactly for an admin or alumno token with both fields non-empty strings; a docente is refused with 403 whatever the body |
| InscripcionesRoutes.Eliminar | routes/inscripciones.routes.js:19-21 | admitted exactly for an admin, docente or alumno token and an id `isMongoId` accepts |
| CursosRoutes.CrearBodyFitsActualizar | routes/cursos.routes.js:21-37 | a body valid for creation is valid for update |
| CursosRoutes.Listar | routes/cursos.routes.js:9 | only a verified token is needed |
| CursosRoutes.Obtener | routes/cursos.routes.js:11-18 | a verified token and an id `isMongoId` accepts are needed, with any role |
| CursosRoutes.Crear | routes/cursos.routes.js:21-27 | admitted exactly for an admin token with a full, valid body; any other role gets 403 |
| CursosRoutes.Actualizar | routes/cursos.routes.js:30-37 | admitted exactly for an admin token, an id `isMongoId` accepts and valid present fields |
| CursosRoutes.Eliminar | routes/cursos.routes.js:40-42 | admitted exactly for an admin token and an id `isMongoId` accepts |
| UsuariosRoutes.IsEmailMatchesPattern | models/usuario.model.js:20 | every address the route accepts also matches the schema's `.+@.+\..+` |
| UsuariosRoutes.Listar | routes/usuarios.routes.js:9 | only a verified token is needed |
| UsuariosRoutes.Obtener | routes/usuarios.routes.js:11-13 | a verified token and an id `isMongoId` accepts are needed |
| UsuariosRoutes.Crear | routes/usuarios.routes.js:15-20 | admitted exactly for a valid body; the controller then has no principal and always a `tipo` |
| UsuariosRoutes.Actualizar | routes/usuarios.routes.js:22-28 | admitted exactly for an admin token, an id `isMongoId` accepts and valid present fields |
| UsuariosRoutes.Eliminar | routes/usuarios.routes.js:30-32 | admitted exactly for an admin token and an id `isMongoId` accepts |
| UsuariosRoutes.Login | routes/usuarios.routes.js:34-37 | admitted exactly for an address and a non-empty password, without a principal |
| Inscripciones.LookupAlumno | controllers/inscripciones.controller.js:13-27 | a valid id finds an alumno with that id, a token with `@` finds an alumno with that email, any other finds the first alumno whose name contains the trimmed token; none exactly when the chosen strategy finds nobody |
| Inscripciones.AlumnoByOwnId | controllers/inscripciones.controller.js:13-16 | an alumno's own id resolves to that alumno |
| Inscripciones.NonAlumnoIdRefused | controllers/inscripciones.controller.js:14-15 | a docente's or admin's id resolves to no student |
| Inscripciones.AlumnoByOwnEmail | controllers/inscripciones.controller.js:17-20 | an alumno's own address resolves to that alumno |
| Inscripciones.LookupCurso | controllers/inscripciones.controller.js:38-47 | a valid id finds that course, a numeric token finds that class code, any other finds the first name equal to the trimmed token (on creation) or containing it (on listing); none exactly when that strategy finds nothing |
| Inscripciones.CursoByOwnId | controllers/inscripciones.controller.js:38-39 | a course's own id resolves to it |
| Inscripciones.CursoByOwnCode | controllers/inscripciones.controller.js:41-43 | a course's class code in decimal resolves to it |
| Inscripciones.ExactResolvesForListing | controllers/inscripciones.controller.js:45 | a token resolved on creation also resolves on listing |
| Inscripciones.CrearInscripcion | controllers/inscripciones.controller.js:7-66 | refusals in order, each forced by its condition: 400 missing student, 400 unknown student, 403 another student, 400 unknown course, 400 pair taken, 400 duplicate key, all with the store unchanged; success exactly when all resolve, the pair is free and the new id is unused; it appends exactly the new record and keeps courses referenced |
| Inscripciones.CursosDeDocentes | controllers/inscripciones.controller.js:117-120 | exactly the courses taught by some docente whose name contains the trimmed token |
| Inscripciones.FiltroSelects | controllers/inscripciones.controller.js:72-124 | the filter built from resolved parameters matches exactly the enrollments the parameters select |
| Inscripciones.GetInscripciones | controllers/inscripciones.controller.js:69-139 | 404 for an unresolved student or course; then 400 for a blank docente, 404 when no docente matches, 404 for docentes without courses; each forced by its condition; success exactly when none applies, with exactly the selected enrollments in store order, the docente filter replacing the course filter |
| Inscripciones.EliminarInscripcion | controllers/inscripciones.controller.js:142-180 | 400 for a malformed id, 404 for a missing record, 403 exactly when a student removes another's; success whenever the record exists and the ownership rule allows it, removing only that record; a docente always succeeds |
| Cursos.LookupDocente | controllers/cursos.controller.js:12-19 | a valid id finds a docente with that id, any other token finds a docente with that exact email; none exactly when that lookup finds nobody |
| Cursos.DocenteByOwnKeys | controllers/cursos.controller.js:12-19 | a docente's id and address both resolve to that docente |
| Cursos.DocentesFiltro | controllers/cursos.controller.js:53-68 | an id keeps exactly that docente, an address keeps exactly the docente with that email, a name keeps exactly the ids of the docentes it matches; none exactly when nobody matches; every kept id is a stored docente's |
| Cursos.NameFilterKeepsAllDocentes | controllers/cursos.controller.js:64-66 | every docente whose name matches is kept, not only the first |
| Cursos.GetCursos | controllers/cursos.controller.js:47-80 | 404 exactly when a given docente matches nobody; otherwise exactly the courses of the kept docentes whose name contains the trimmed name filter, in store order |
| Cursos.GetCursoById | controllers/cursos.controller.js:83-91 | 500 for an id that cannot be cast, 404 exactly when no course has it, otherwise that course |
| Cursos.StoreCapacity | controllers/cursos.controller.js:22-25 | a valid store holds at most 15 courses |
| Cursos.CrearCurso | controllers/cursos.controller.js:7-44 | refusals in order, each forced by its condition, all 400 with the store unchanged: unknown docente, 15 courses, class code in use, missing field or schema failure, duplicate id; success exactly when none applies, appending the trimmed course with the resolved docente and keeping at most 15 courses |
| Cursos.Applied | controllers/cursos.controller.js:125-129 | each sent field (name, description, date, class code, resolved docente) replaces the stored one, the name trimmed, and each absent one is kept, as is the id; an empty body changes nothing; valid sent fields keep a valid course valid |
| Cursos.OwnCodeNoConflict | controllers/cursos.controller.js:116-119 | re-sending a course's own class code is never a conflict |
| Cursos.ValidatedUpdateFitsIndex | controllers/cursos.controller.js:114-129 | after the conflict check and the validators, no other course holds the updated course's class code |
| Cursos.ActualizarCurso | controllers/cursos.controller.js:93-137 | in order, each forced by its condition: 400 for an unknown new docente, a bad cast before the conflict check, a class code held by another course, a bad cast or empty docente, invalid fields; 404 for a missing course; success exactly when none applies, rewriting only that course as the update describes |
| Cursos.EliminarCurso | controllers/cursos.controller.js:140-162 | 500 for a bad cast, 404 for a missing course, 400 carrying the count while enrollments exist; success exactly when the course exists without enrollments, removing exactly that course, and every enrollment still references a course |
| Cursos.Fila | controllers/cursos.controller.js:183-187 | a row carries the enrollment id, its `createdAt` and the public student, absent when the user is gone |
| Cursos.GetAlumnosInscritos | controllers/cursos.controller.js:165-193 | 400 for a malformed id, 404 for a missing course; success for every stored course, with one row per enrollment of the course, newest first, with strictly decreasing enrollment times |
| Usuarios.GetUsuarios | controllers/usuarios.controller.js:9-20 | the public views of exactly the users with the given type whose name contains the untrimmed name filter, in store order |
| Usuarios.GetUsuarioById | controllers/usuarios.controller.js:22-28 | 500 for a bad cast, 404 exactly when no user has the id, otherwise the public view of that user |
| Usuarios.Registro | controllers/usuarios.controller.js:46 | the stored document has the trimmed name, the hashed password, and the given type or `alumno` |
| Usuarios.CrearUsuario | controllers/usuarios.controller.js:30-49 | each forced by its condition: 400 without email or password, 403 for an admin account without an admin principal, 409 for a taken email, 500 for a missing name or schema failure, 500 for a used id, all with the store unchanged; success exactly when none applies, appending exactly the new user |
| Usuarios.RegistroTrimsBeforeLength | controllers/usuarios.controller.js:46 | a name of length 3 or more can still fail the schema once trimmed |
| Usuarios.Actualizado | controllers/usuarios.controller.js:53-55 | sent fields replace stored ones, the name trimmed; a truthy password is stored hashed, an empty one as it is; the id is kept |
| Usuarios.UpdateSkipsSchema | controllers/usuarios.controller.js:55 | an update can store a user the schema refuses |
| Usuarios.ActualizarUsuario | controllers/usuarios.controller.js:51-59 | 500 for a bad cast, 404 for a missing user, 500 exactly when another user holds the new email; otherwise only that user is rewritten |
| Usuarios.EliminarUsuario | controllers/usuarios.controller.js:61-67 | 500 for a bad cast, 404 for a missing user; success whenever the user exists, removing exactly that user and changing nothing else |
| Usuarios.ClaimsOf | controllers/usuarios.controller.js:77-81 | the token carries the user's id, email and type, or `user` for an empty type |
| Usuarios.Credenciales | controllers/usuarios.controller.js:72-75 | a user is found exactly when the first user with that email exists and the password matches its hash |
| Usuarios.OwnCredentials | controllers/usuarios.controller.js:72-75 | with unique emails, a user's own email and accepted password find that user |
| Usuarios.RegisteredCanLogin | controllers/usuarios.controller.js:45-46 | a user registered with a password can log in with it |
| Usuarios.Login | controllers/usuarios.controller.js:69-84 | the same 400 for an unknown email and a wrong password; otherwise a token over the user's claims and its public view |

## Left out

- In these places the model follows the code rather than what the route names and messages suggest:
  - An ambiguous name lookup takes the first match and does not fail.
  - Any docente may delete any enrollment, not only the teacher of the course.
  - In `getInscripciones`, the docente filter replaces the course filter instead of narrowing it.
- Regular expressions built from request text are read as literal substrings. Metacharacters in the token are not modelled. Case folding covers ASCII letters only.
- `Number()` is modelled on decimal integer numerals, with white space around them allowed. Hex, exponent and fractional forms are not modelled, and neither is any other numeric syntax.
- `ObjectId.isValid` is modelled as "24 hexadecimal digits". The 12-character strings Mongoose also accepts are not modelled.
- ObjectIds.IsMongoId: follows the `isMongoId` of the validator library as 24 characters accepted by its `isHexadecimal`, an optional `0x`/`0h` prefix included. The library's code is not part of this model.
- Request values that are not strings are not modelled. Neither is `undefined` reaching a query: a missing `docente` or `classCode` in `crearCurso` would become an empty filter. The route validators require both fields, so a request never gets there.
- Dates are natural numbers. ISO-8601 parsing and `Date.now` are not modelled; a counter orders the timestamps instead.
- `isEmail` is approximated by a simpler address shape.
- `populate` is modelled only for the student rows of `getAlumnosInscritos`. Other answers return stored ids.
- Bcrypt and JWT are opaque function parameters. Token expiry is inside `verify`.
- Concurrency is not modelled, nor are the database connection, console logging or the Express plumbing.
- The message formatting in `middlewares/validation.js` is not modelled. Only its 400 verdict is.
- The 500 answers for unexpected exceptions are modelled only where a modelled condition (a failed cast, a schema or index failure) raises them.
- Schema.UsuarioSchemaOk, UsuariosRoutes.CrearBodyOk, UsuariosRoutes.ActualizarBodyOk: the minimum lengths of name and password are counted in characters (code points). Mongoose's `minlength` counts UTF-16 code units and the `isLength` validator counts code points without variation selectors, so a name made of characters outside the Basic Multilingual Plane, such as two emoji, can be judged differently.
- Usuarios.Login: takes email and password as strings. The route validators guarantee both, so the controller's behaviour on absent values is left out.
- Cursos.CrearCurso: takes `docente` as a string and `classCode` as an integer, which the route validators guarantee.
