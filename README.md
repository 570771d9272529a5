# School-management backend: a Dafny model

This project models the request handlers of a school-management service, together with
the document schemas they write and three client-side validators. In the service,
teachers (`docente`) own groups and the tasks set for them, students (`estudiante`)
submit work for those tasks, teachers grade the submissions, and users exchange direct
messages.

Each handler runs a fixed chain of guards. Each guard answers with its own status code.
After the guards the handler makes a few reads and writes on the collections.

## How the model is built

- **Database.** `Store.Db` is a class with one field per collection: a `map` from
  document id to record for users, groups, tasks and deliveries, and a `seq` of messages
  in insertion order. It also holds `nextId`, the source of fresh ObjectIds.
  - `Db.Valid()` is what the schemas and the unique indexes enforce on every write:
    - required fields, the `rol` enumeration, grades of at least 0;
    - emails stored lower-cased and trimmed, with one account per email;
    - unique group names and keys;
    - one delivery per (task, student) pair.
    Every handler requires and preserves it.
  - `Db.Linked()` says the two-sided reference lists agree:
    - a group's `estudiantes` and each user's `grupos`;
    - a group's `tareas` and each task's `grupo`.
    No index enforces this. The model proves which handlers keep it, and shows one that
    breaks it.
- **Handlers.** Each one is a method that changes only the collections it writes. It
  returns an `Outcome`:
  - `Ok(status, body)` is a success.
  - `Fail(status, message)` is an error thrown inside `asyncHandler` and answered by the
    error middleware. The status is the one set before the throw, or 500 when none was
    set.
  - `Unhandled(message)` is an exception that escapes a handler with no such wrapper. It
    is an unhandled promise rejection: no response is sent, and under the default
    settings of Node.js 15 and later the server process ends.
- **Guards.** The guard chain of each handler is a pure function, for example
  `Entregas.CrearEntregaCheck`. It returns `Pass` or the first `Refuse(status, message)`.
  - Its contract gives, for every status, the exact condition under which it is answered.
  - The handler's contract states that a refusal writes nothing, and gives the complete
    new state after `Pass`.
- **Caller.** The caller is the id in the session token. The authentication middleware
  attaches `null` when that id has no stored user. A handler that then reads the caller's
  `rol` or `id` throws, and the error middleware answers 500.
- **Parameters.** The current time `now`, random salts, whether sending the mail
  succeeded, and the `strictQuery` setting of Mongoose are all parameters. The random
  reset token is left out: it is only mailed, never stored. bcrypt, SHA-256 and the JWT signer are
  total functions, passed in as a `Crypto` value.

## Model

| member | source | states |
|---|---|---|
| Entregas.EstadoAt | backend/src/controllers/controladorEntregas.js:43-50 | a submission is `Tarde` exactly when `now` is strictly after the deadline, and `Entregado` otherwise, never graded or pending |
| Entregas.CrearEntregaCheck | backend/src/controllers/controladorEntregas.js:13-34 | guard order of `crearEntrega`, one condition per status: no caller 500, not a student 403, missing task id or falsy file URL 400, unknown task 404; otherwise `Pass` |
| Entregas.CrearEntrega | backend/src/controllers/controladorEntregas.js:37-61 | a refusal writes nothing; otherwise the delivery of (task, caller) is updated (200) exactly when one exists, else one is created (201); file, comment, date and lateness come from the request and `now`; an update keeps the grade and the teacher's comment, a creation has neither; the one-per-pair index stays satisfied |
| Entregas.ObtenerEntregasCheck | backend/src/controllers/controladorEntregas.js:72-86 | not a teacher 403; task missing or created by someone else 404; no caller 500 |
| Entregas.ObtenerEntregasPorTarea | backend/src/controllers/controladorEntregas.js:88-91 | after `Pass`, the answer is exactly the stored deliveries of that task, each with its id |
| Entregas.CalificarCheck | backend/src/controllers/controladorEntregas.js:98-124 | guard order of `calificarEntrega`: 403, missing grade 400 (0 accepted), missing delivery 404, task missing or not the caller's 401, negative grade 500 on save |
| Entregas.CalificarEntrega | backend/src/controllers/controladorEntregas.js:126-132 | after `Pass`, exactly the grade, the teacher's comment and the state (`Calificado`) change; grading again overwrites; no bound by the task's maximum score |
| EntregaModel.Defaults | backend/src/models/Entrega.js:3-39 | a new delivery names the given task and student (no file, no grade, delivered at `now`, state `Entregado`) |
| EntregaModel.AtMostOnePerPair | backend/src/models/Entrega.js:41 | under the compound unique index, at most one delivery per (task, student) |
| EntregaModel.ReplaceKeepsUnique | backend/src/models/Entrega.js:41 | overwriting a delivery with one for the same pair keeps the index satisfied |
| EntregaModel.InsertKeepsUnique | backend/src/models/Entrega.js:41 | inserting a delivery for a pair that has none keeps the index satisfied |
| TareaModel.PatchedPathsDecide | backend/src/models/Tareas.js:4-25 | on a valid task, the update validators, which check only the paths the body names, accept exactly the bodies whose result validates |
| TareaModel.PatchKeepsGrupo | backend/src/controllers/controladorTareas.js:110-114 | a body without `grupo` leaves the task in its group |
| Tareas.ObtenerTareas | backend/src/controllers/controladorTareas.js:8-45 | 200 exactly for a stored caller whose role is in the enumeration; a teacher gets exactly the tasks they created; a student gets exactly the tasks of the groups they list; 403 exactly for a role outside the enumeration; no caller 500 |
| Tareas.CrearTareaCheck | backend/src/controllers/controladorTareas.js:50-72 | guard order of `crearTarea`: 403; falsy title, group, maximum score (0 included) or deadline 400; group not owned by the caller 404; maximum score below 1 fails the schema 500 |
| Tareas.CrearTarea | backend/src/controllers/controladorTareas.js:72-85 | after `Pass`, one task with creator = caller is stored under a fresh id, and its id is appended to its group's list (201); a group that no longer validates leaves the task stored and answers 500; the lists stay linked on success |
| Tareas.InsertTarea | backend/src/controllers/controladorTareas.js:72-79 | `Tarea.create` stores the task under a fresh id that no group lists |
| Tareas.OwnTareaCheck | backend/src/controllers/controladorTareas.js:123-140 | shared guards of update and delete: 403, missing task 404, not the creator 401 |
| Tareas.ActualizarTareaCheck | backend/src/controllers/controladorTareas.js:91-115 | the shared guards, then the update validators 500 |
| Tareas.ActualizarTarea | backend/src/controllers/controladorTareas.js:110-117 | after `Pass`, only that task changes, to the body applied to it (200); the lists stay linked when the body does not move the task |
| Tareas.EliminarTarea | backend/src/controllers/controladorTareas.js:143-150 | after `Pass`, the task is pulled from its group's list and only that task is deleted (200); the lists stay linked |
| GrupoModel.WriteKeepsUnique | backend/src/models/Grupo.js:4-13 | writing a group whose name and key clash with no other group keeps both unique indexes satisfied |
| GrupoModel.SameKeysKeepUnique | backend/src/models/Grupo.js:4-13 | rewriting a group with its name and key unchanged keeps both indexes satisfied |
| GrupoModel.Without | backend/src/controllers/controladorAlumnos.js:96-97 | `$pull` of a value removes every occurrence of it and keeps every other element, with its number of occurrences |
| GrupoModel.WithoutAbsent | backend/src/controllers/controladorTareas.js:143-146 | pulling a value that is not on the list leaves the list unchanged |
| Grupos.ObtenerGrupos | backend/src/controllers/controladorGrupos.js:8-32 | 200 exactly for a stored caller whose role is in the enumeration; a teacher gets exactly the groups they own; a student gets exactly the stored groups they list; 403 exactly for a role outside the enumeration; no caller 500 |
| Grupos.NuevoGrupo | backend/src/controllers/controladorGrupos.js:53-58 | a new group is owned by the caller, with empty lists; it validates exactly when name and key are non-empty |
| Grupos.CrearGrupoCheck | backend/src/controllers/controladorGrupos.js:37-53 | guard order of `crearGrupo`: 403, falsy name or key 400, a name or key already in use 500 (unique index) |
| Grupos.ClashesOnKeysOnly | backend/src/models/Grupo.js:4-13 | only the name and the key decide whether a group clashes with the stored ones |
| Grupos.CrearGrupo | backend/src/controllers/controladorGrupos.js:53-60 | after `Pass`, exactly one group is added under a fresh id (201); the lists stay linked |
| Grupos.OwnGrupoCheck | backend/src/controllers/controladorGrupos.js:95-107 | guards of update and delete: missing group 400 first, then no caller 500, then not the owner 401; no role check |
| Grupos.ActualizarGrupoCheck | backend/src/controllers/controladorGrupos.js:66-88 | the shared guards, then a name or key clash with another group 500 |
| Grupos.ActualizarGrupo | backend/src/controllers/controladorGrupos.js:83-89 | after `Pass`, only that group changes, to the body applied wholesale (200); the lists stay linked when the body carries neither list |
| Grupos.ApplyIntroducesOnlyPatchIds | backend/src/controllers/controladorGrupos.js:83-87 | every id on an updated list was on the old list or comes from the body |
| Grupos.StudentListPatchUnlinks | backend/src/controllers/controladorGrupos.js:83-87 | a body that lists a student who does not list the group breaks the two-sided membership |
| Grupos.EliminarGrupo | backend/src/controllers/controladorGrupos.js:108-111 | after `Pass`, exactly that group is removed (200); the lists stay linked where both documents exist |
| Grupos.AgregarAlumnoExistenteCheck | backend/src/controllers/controladorGrupos.js:119-151 | guard order of `agregarAlumnoExistente`: falsy email or group 400, no account with that email (any role) 404, no group 404, not the owner 401, already enrolled 400, group fails validation 500 |
| Grupos.AgregarAlumnoExistente | backend/src/controllers/controladorGrupos.js:129-168 | after `Pass`, the account is appended once to the group's list, and the group to the account's list only when absent (200); the lists stay linked |
| Grupos.Enrol | backend/src/controllers/controladorGrupos.js:155-163 | the two pushes of an enrolment, the second conditional, keeping the lists linked |
| Alumnos.Populate | backend/src/controllers/controladorAlumnos.js:16-23 | `populate` gives the profile of each listed id that has an account, and only those; when every id has one, the answer is the list of their profiles in list order, repeats included |
| Alumnos.OwnGroupCheck | backend/src/controllers/controladorAlumnos.js:8-22 | shared guards: not a teacher 403 before any lookup, group not owned 404, no caller 500 |
| Alumnos.ObtenerAlumnosPorGrupo | backend/src/controllers/controladorAlumnos.js:8-24 | after `Pass`, the populated student list of the group (200) |
| Alumnos.StudentHolder | backend/src/controllers/controladorAlumnos.js:48 | the email query with `rol: 'estudiante'` finds the account with that email only when its role is student |
| Alumnos.AgregarCheck | backend/src/controllers/controladorAlumnos.js:30-61 | guard order of `agregarAlumnoAGrupo`: 403, group 404, student 404, already enrolled 400, group fails validation 500 |
| Alumnos.AgregarAlumnoAGrupo | backend/src/controllers/controladorAlumnos.js:63-72 | after `Pass`, student appended to the group and group appended to the student (200); a refusal (400 included) changes neither list; the lists stay linked |
| Alumnos.Matricular | backend/src/controllers/controladorAlumnos.js:63-70 | the two unconditional pushes keep the lists linked when the student was not enrolled |
| Alumnos.EliminarAlumnoDeGrupo | backend/src/controllers/controladorAlumnos.js:79-100 | after `Pass`, every occurrence of the student leaves the group, and of the group the student's list when the account exists (200); the lists stay linked |
| Alumnos.Desmatricular | backend/src/controllers/controladorAlumnos.js:96-97 | the two `$pull`s, keeping the lists linked |
| Alumnos.WithdrawTwiceIsOnce | backend/src/controllers/controladorAlumnos.js:96-97 | a second withdrawal of the same student changes neither list |
| UsuarioModel.Create | backend/src/models/Usuario.js:3-35 | creation succeeds exactly when name, normalised email and password are non-empty and the role is in the enumeration; the email is stored normalised, with no groups, and active |
| UsuarioModel.SpellingsMatchAlike | backend/src/models/Usuario.js:12-13 | two spellings that normalise alike find the same accounts |
| UsuarioModel.OneAccountPerEmail | backend/src/models/Usuario.js:11 | under the unique index, an email query matches at most one account |
| Text.TrimStart | backend/src/models/Usuario.js:13 | removes exactly the leading white space |
| Text.TrimEnd | backend/src/models/Usuario.js:13 | removes exactly the trailing white space |
| Text.LowerAscii | backend/src/models/Usuario.js:12 | lower-cases the ASCII capitals character by character, keeping the length |
| Text.LowerAsciiTrimStart | backend/src/models/Usuario.js:12-13 | lower-casing commutes with trimming the start |
| Text.LowerAsciiTrimEnd | backend/src/models/Usuario.js:12-13 | lower-casing commutes with trimming the end |
| Text.LowerKeepsSpace | backend/src/models/Usuario.js:12-13 | lower-casing neither creates nor removes white space |
| Text.TrimIdempotent | backend/src/models/Usuario.js:13 | trimming twice is trimming once |
| Text.NormalizeIdempotent | backend/src/models/Usuario.js:12-13 | a stored email is a fixed point of the setters, so querying with it finds it |
| Text.Utf16Length | frontend/src/pages/auth/RegisterPage.jsx:30 | `length` counts at least one and at most two code units per character |
| Store.Holder | backend/src/controllers/controladorUsuarios.js:70 | the account an email query finds: one that matches, or none when no account matches or the email is absent |
| Store.Db.FindByEmail | backend/src/controllers/controladorUsuarios.js:27 | `findOne({ email })` returns the unique matching account |
| Store.Db.constructor | backend/src/models/Usuario.js:3-35 | an empty database is valid and linked |
| Store.Db.NewId | backend/src/controllers/controladorEntregas.js:52 | a fresh id is above every stored id and reference |
| Store.Db.Reserve | backend/src/controllers/controladorGrupos.js:83-87 | ids that a body writes into reference lists stay below the next fresh id |
| Store.Db.WriteGrupo | backend/src/controllers/controladorGrupos.js:157 | saving a group with its name and key unchanged changes only that group and keeps the database valid |
| Store.Db.InsertUsuario | backend/src/controllers/controladorUsuarios.js:39-45 | `Usuario.create` adds exactly one account under a fresh id and keeps the lists linked |
| Store.Db.WriteUsuario | backend/src/controllers/authController.js:64-67 | saving an account with the same email and groups changes only that account, and linkage is unaffected |
| Store.Db.WriteGruposDeUsuario | backend/src/controllers/controladorAlumnos.js:70 | saving an account's new group list changes only that list |
| Store.TareasOkWrite | backend/src/models/Tareas.js:3-36 | writing a validating task that names a known group keeps the tasks valid |
| Store.GruposOkWrite | backend/src/models/Grupo.js:3-32 | writing a group the indexes admit keeps the groups valid |
| Store.UsuariosOkWrite | backend/src/models/Usuario.js:3-35 | writing a normalised account with an unused email keeps the accounts valid |
| Store.EnrolKeepsLinked | backend/src/controllers/controladorGrupos.js:156-163 | enrolling on both sides keeps the membership lists in agreement |
| Store.UnenrolKeepsLinked | backend/src/controllers/controladorAlumnos.js:96-97 | pulling on both sides keeps the membership lists in agreement |
| Store.SameGroupsKeepLinked | backend/src/controllers/authController.js:64-67 | rewriting an account without touching its groups leaves linkage as it was |
| Store.NewGrupoKeepsLinked | backend/src/controllers/controladorGrupos.js:53-58 | a new group with empty lists keeps linkage |
| Store.NewUsuarioKeepsLinked | backend/src/controllers/controladorUsuarios.js:39-45 | a new account with no groups keeps linkage |
| Store.NewTareaKeepsLinked | backend/src/controllers/controladorTareas.js:72-83 | a new task pushed onto its own group keeps linkage |
| Store.RemoveTareaKeepsLinked | backend/src/controllers/controladorTareas.js:143-148 | deleting a task after pulling it from its group keeps linkage |
| Usuarios.SesionOf | backend/src/controllers/controladorUsuarios.js:49-56 | the answer echoes the account's id, email and role with a token signed for that id |
| Usuarios.RolOrDefault | backend/src/controllers/controladorUsuarios.js:44 | the given role when truthy, else `estudiante` |
| Usuarios.Solicitud | backend/src/controllers/controladorUsuarios.js:35-45 | the stored password is the bcrypt hash, never the plain text; email normalised, no groups |
| Usuarios.RegistroCheck | backend/src/controllers/controladorUsuarios.js:17-45 | falsy name, email or password, or a registered email 400; a creation the schema refuses 500 |
| Usuarios.Registro | backend/src/controllers/controladorUsuarios.js:17-61 | a refusal creates nothing; after `Pass`, exactly one account is added under a fresh id (201, session for it); the lists stay linked |
| Usuarios.Login | backend/src/controllers/controladorUsuarios.js:66-87 | 200 with a session exactly when an account has that email and `compare` accepts; both failures give the same 400; an absent password makes `compare` throw (500) |
| Usuarios.ObtenerUsuarioActual | backend/src/controllers/controladorUsuarios.js:92-96 | 200 with the caller's account without its password, or `null` when there is none |
| Usuarios.NoSecondRegistration | backend/src/controllers/controladorUsuarios.js:27-32 | an email registered under any spelling that normalises alike is refused with 400 |
| Auth.ResetPathsUndeclared | backend/src/models/Usuario.js:3-35 | neither path of the reset filter is one the `Usuario` schema declares |
| Auth.CastFilter | backend/src/controllers/authController.js:56-59 | casting keeps exactly the conditions on declared paths when `strictQuery` is on, and the whole filter when it is off |
| Auth.StrippedFilterEmpty | backend/src/controllers/authController.js:56-59 | with `strictQuery` on, both conditions of the reset filter are removed, since `Usuario.js` declares neither path |
| Auth.NoAccountMatchesResetFilter | backend/src/controllers/authController.js:56-59 | with `strictQuery` off, no stored account matches the reset filter, for any token and time |
| Auth.EveryAccountMatchesStrippedFilter | backend/src/controllers/authController.js:56-59 | with `strictQuery` on, every stored account matches what is left of the reset filter |
| Auth.ResetRefused | backend/src/controllers/authController.js:56-61 | the reset query finds nothing exactly when `strictQuery` is off or there are no accounts |
| Auth.ForgotPassword | backend/src/controllers/authController.js:6-49 | an unregistered email 404; otherwise 200 when the mail is sent and 500 when sending fails; no account changes, because the token and expiry are assigned to undeclared paths |
| Auth.ResetPassword | backend/src/controllers/authController.js:52-75 | 400 with no change exactly when the query finds nothing (every call with `strictQuery` off); otherwise, whatever the token, one stored account gets the new password as given (an empty or absent one fails the schema and changes nothing) and the handler throws, sending no response |
| MensajeModel.Insert | backend/src/controllers/controladorMensajes.js:21 | inserting into a chronological list keeps it chronological and adds exactly that message |
| MensajeModel.SortByCreatedAt | backend/src/controllers/controladorMensajes.js:21 | the sort is chronological and a permutation |
| MensajeModel.Conversation | backend/src/controllers/controladorMensajes.js:13-20 | exactly the messages of the two directions |
| MensajeModel.MarkRead | backend/src/controllers/controladorMensajes.js:26-29 | every message from `from` to `to` becomes read; every other message and every other field is unchanged |
| Mensajes.ObtenerMensajes | backend/src/controllers/controladorMensajes.js:8-32 | the answer is the conversation as it was before the call, in chronological order; afterwards the stored messages are exactly those marked read; no caller 500 |
| Mensajes.EnviarCheck | backend/src/controllers/controladorMensajes.js:37-52 | no caller 500, falsy recipient or content 400, unknown recipient 404 |
| Mensajes.EnviarMensaje | backend/src/controllers/controladorMensajes.js:54-62 | after `Pass`, exactly one unread message from the caller is appended (201); a refusal creates nothing |
| Mensajes.MarkReadIdempotent | backend/src/controllers/controladorMensajes.js:26-29 | fetching the same conversation twice marks nothing more |
| Mensajes.MarkReadKeepsConversations | backend/src/controllers/controladorMensajes.js:13-29 | marking commutes with selecting any conversation |
| RegisterPage.Validate | frontend/src/pages/auth/RegisterPage.jsx:21-43 | accepted exactly when every check passes; otherwise the single error reported is the first failing check in the fixed order |
| RegisterPage.HandleSubmit | frontend/src/pages/auth/RegisterPage.jsx:45-50 | sent exactly when `validate` passes, with the form unchanged and the role `docente` |
| RegisterPage.AcceptedMeansStrong | frontend/src/pages/auth/RegisterPage.jsx:16-43 | an accepted form has matching passwords that meet all four rules |
| RegisterPage.StrongSuffices | frontend/src/pages/auth/RegisterPage.jsx:21-43 | a complete form with matching passwords is accepted exactly when the password is strong |
| PasswordRules.AstralCharsCountTwice | frontend/src/pages/auth/RegisterPage.jsx:30 | four characters outside the Basic Multilingual Plane already pass the length rule |
| ResetPasswordPage.Validate | frontend/src/pages/auth/ResetPasswordPage.jsx:19-28 | a mismatch is reported first; otherwise accepted exactly when the password is strong, with one combined error |
| ResetPasswordPage.HandleSubmit | frontend/src/pages/auth/ResetPasswordPage.jsx:30-42 | a missing or empty token is refused before `validate`; otherwise `validate` decides |
| ResetPasswordPage.SamePolicyAsRegistration | frontend/src/pages/auth/ResetPasswordPage.jsx:14-28 | on a complete form, both pages accept the same passwords |
| ForgotPasswordPage.LooksLikeEmailIsPattern | frontend/src/pages/auth/ForgotPasswordPage.jsx:13 | the scan for the shortest witnesses agrees with the unanchored regular expression |
| ForgotPasswordPage.HandleSubmit | frontend/src/pages/auth/ForgotPasswordPage.jsx:10-23 | accepted exactly when the pattern matches somewhere (so never the empty string); acceptance clears the field |
| ForgotPasswordPage.NoDotAfterAtRejected | frontend/src/pages/auth/ForgotPasswordPage.jsx:13 | with no `.` after an `@` there is no match |
| ForgotPasswordPage.ShortAddressRejected | frontend/src/pages/auth/ForgotPasswordPage.jsx:13 | `a@b` is rejected |
| ForgotPasswordPage.SurroundedAddressAccepted | frontend/src/pages/auth/ForgotPasswordPage.jsx:13 | text around an address does not matter |
| ForgotPasswordPage.SpaceBeforeAtRejected | frontend/src/pages/auth/ForgotPasswordPage.jsx:13 | white space before the `@` breaks the match |

## Behaviour of the code that the model keeps

The model follows the code, including where its comments suggest otherwise.

- **No locks on deliveries.** A student can resubmit a delivery that is already graded,
  or one submitted after the deadline. Resubmitting recomputes its state and keeps its
  grade.
- **No bound on the grade.** Grading does not compare the grade with the task's maximum
  score. Only the schema minimum of 0 applies.
- **The reset token is never stored.** The reset controller writes and queries
  `resetPasswordToken` and `resetPasswordExpires`, but the `Usuario` schema declares
  neither, and the schema is strict. The save in `forgotPassword` therefore stores
  nothing. What the query in `resetPassword` then does depends on `strictQuery`, a
  setting whose default changed between Mongoose versions; the model takes it as a
  parameter.
  - With `strictQuery` off, the query matches no account, so every reset answers 400.
  - With it on, both conditions are removed and the query finds the first account in
    storage order, whatever token was given; that account gets the new password.
- **`resetPassword` never answers.** After the account is saved, an assignment that names
  undeclared identifiers throws. The handler is not wrapped by `asyncHandler`, so no
  success response is sent, although the new password is stored, and under the default
  settings of Node.js 15 and later the unhandled rejection ends the server process.
- **The new password is stored unhashed.** `resetPassword` stores the password exactly as
  given. No hook hashes it.

## Left out

- Express wiring, routes, upload storage, CORS, the connection set-up and the error
  middleware's formatting. The status mapping of the error middleware is modelled inside
  `Outcome`.
- JWT verification in the authentication middleware. The caller is the id it decoded.
  Rejections of tokens that are missing or invalid happen before any handler runs, and
  are not modelled.
- bcrypt, SHA-256, JWT signing and the mail transport are foreign code. They are
  parameters (`Crypto`, `mailSent`), with no properties assumed.
- `populate` of the task's group, the delivery's student and a message's sender and
  recipient. Answers carry ids instead of the populated documents. The one exception is
  the student list in `Alumnos.Populate`.
- Query results that the source answers as arrays in storage order are modelled as sets
  of id and document pairs: `Tareas.ObtenerTareas`, `Grupos.ObtenerGrupos` and
  `Entregas.ObtenerEntregasPorTarea`. Their order is not modelled.
- `MensajeModel.SortByCreatedAt` is a stable insertion sort. The database's order for
  equal timestamps is not specified, so `Mensajes.ObtenerMensajes` states only that the
  result is chronological and a permutation of the conversation.
- Ids are natural numbers. A malformed ObjectId in a request, which the database answers
  with a cast error (500), is not modelled.
- Writes that touch two documents are one atomic step here. Partial failures between
  them are not modelled.
- Timestamps (`createdAt`, `updatedAt`) are not modelled, except the `createdAt` of
  messages, which is given as `now`.
- Floating-point grades and scores are `real`. No rounding is modelled.
- The `Alumno` schema (no handler uses it) and the frontend pages outside the three auth
  pages.
- The API calls of the password-reset and forgot-password pages are commented out in the
  source. Their success paths end with the toast and navigation, which are not modelled.
- Auth.ResetPassword: which account the stripped query returns is left open (`exists`),
  because `findOne` picks the first one in storage order, which is not modelled.
- Text.LowerAscii: only the ASCII capitals A-Z are lowered. JavaScript's `toLowerCase`,
  which the `lowercase` setter uses, lowers every Unicode capital, and can change the
  length (U+0130 becomes two code units). So two addresses that differ only in the case
  of a non-ASCII letter, such as `Ü@x.com` and `ü@x.com`, are one account in the service
  but two in the model. This affects the uniqueness test of registration, login, and
  every other lookup by email (`Store.Holder`, `Usuarios.RegistroCheck`,
  `Usuarios.Login`, `Auth.ForgotPassword`, `Alumnos.AgregarCheck`,
  `Grupos.AgregarAlumnoExistenteCheck`).
- The messages of schema validation errors are approximate. Mongoose's full text names
  the model, the path and the offending value (for a negative grade, "Entrega validation
  failed: calificacion: Path `calificacion` (-1) is less than minimum allowed value
  (0)."). The model keeps a fixed text per rule, or only the "… validation failed"
  prefix; the status codes are exact.
- Request fields are assumed to have the types the schemas declare: strings, numbers,
  and dates given as instants. The outcomes of ill-typed bodies are not modelled:
  - a date that `new Date` cannot parse, or a grade or score that is not a number,
    which the source answers with a cast error (500);
  - a deadline given as the number `0`, which is falsy, so `crearTarea` answers 400,
    while the model, which takes the deadline as an instant, lets it pass
    (`Tareas.CrearTareaCheck`);
  - a JSON object given as an email, such as `{"$ne": null}`, which reaches `findOne`
    as a query operator, because the sanitising middleware is commented out in
    `server.js`.
- Tareas.CrearTarea: `Linked` is stated only when the call succeeds or stores nothing.
  When the group's save fails after the task was stored, the task names a group that
  does not list it.
- Grupos.EliminarGrupo: accounts that list the deleted group, and tasks that name it,
  keep their dangling references. `Linked` only speaks about documents that exist on
  both sides.
