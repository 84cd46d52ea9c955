# taskflow access control and data rules, in Dafny

taskflow is a small task manager: users register and log in, keep a list of tasks, and an
administrator sees everyone's tasks and the user list. This project models the part of it
that decides who may see or change what:

- **the edge middleware**: `Middleware.Decide` is the cascade of path tests run before every
  request. It lets the request through, answers 401 or 403 JSON, or redirects to a home page.
- **the two stores**: `Tasks.TaskService` and `Users.UserService` are classes holding the
  `tasks` and `users` tables as maps, with one method or function per service operation. The
  ownership check guards every task update and delete. Users are handed out by id and in lists without their password hash, and no HTTP response carries it; only the internal `findByEmail` lookup returns the stored hash, for the login check.
- **the zod schemas**: `TaskSchema` and `UserSchema` validate and normalise request bodies
  (`Validation.Json`). They check length bounds, apply `optional`/`default`, and trim and
  lower-case strings.
- **the route handlers** for tasks (`GET`, `POST`), login, register, the user list and `me`.
  Each is a short chain of guarded early returns over the stores, producing an `Http.Reply`.

Helper modules:

- `Wrappers`: `Option`/`Result`.
- `Text`: JavaScript's `startsWith`, `trim` and `toLowerCase`.
- `Tables`: row ids, `ORDER BY created_at DESC`, and taking `rows[0]`. `Tables.Rows` (the rows
  under a list of ids), `Tasks.JoinedRows` (the join applied row by row) and `Users.SafeRows` (the
  password-free rows under a list of ids) are plain projections used to build the listings; the
  properties of the listings are stated by the members in the table below.
- `Identity`: the session claim `{ id, email, user_type }`.

What enters from outside becomes a parameter:

- **the session**: the verified token is an `Option<Claim>` (`None` for a missing, forged or expired cookie).
- **hashing**: `hashPassword` and `comparePassword` are the functions `hash` and `compare`.
- **e-mail syntax**: zod's address test is the predicate `isEmail`.
- **timestamps**: a row's `created_at` is the argument `now`.
- **ids**: each store issues them from a counter, `nextId`.

The model follows the code where it differs from what its names and messages suggest.

- **Bounds before trimming**: zod runs `.min`/`.max` before `.trim()`, so the bounds apply to the raw string. A task named `"   "` passes validation and is stored with the empty name (`TaskSchema.BlankNameBecomesEmpty`).
- **Two 403 wordings**: the middleware's text is `Forbidden:- Admin access required` and the users route's is `Forbidden: Admin access required`. Behind the middleware the route's own 401 and 403 are never reached (`UsersRoute.MiddlewareRefusesFirst`).

## Model

| member | source | states |
|---|---|---|
| Middleware.Decide | src/middleware.ts:36-94 | every redirect goes to `/admin` or `/dashboard`; API paths are never redirected and only ever answer 401 or 403 as JSON; a 401 only without a session; a 403 only to a non-admin on `/api/v1/users…`; an anonymous visitor gets pass or 401; an admin is never refused; a redirect happens only on an auth page or `/` with a session, or on an admin page for a non-admin |
| Middleware.AssetPathsPass | src/middleware.ts:36-42 | a path starting with `/_next` or `/favicon`, or containing a dot, passes whatever the session |
| Middleware.DottedApiPathPasses | src/middleware.ts:36-42 | API paths with a dot (`/api/v1/tasks/a.b`, `/api/v1/users/x.json`) pass, even with no session |
| Middleware.PlainApiPath | src/middleware.ts:36-53 | an `/api/` path without a dot is not an asset path, so the API rules apply to it |
| Middleware.PublicApiPasses | src/middleware.ts:45-50 | the register and login endpoints pass with or without a session |
| Middleware.PublicApiIsExact | src/middleware.ts:45-59 | the public endpoints are matched by equality: `/api/v1/auth/login/` and `/api/v1/auth/registers` answer 401 without a session |
| Middleware.ApiNeedsSession | src/middleware.ts:53-59 | on any other API path the answer is 401 exactly when there is no session |
| Middleware.UsersApiIsAdminOnly | src/middleware.ts:53-69 | on `/api/v1/users…`: no session gives 401 (before the role test), a non-admin gets 403, an admin passes |
| Middleware.PrefixChar | src/middleware.ts:37-38 | a path that starts with a prefix agrees with it character by character |
| Middleware.LoggedInAuthPagesRedirect | src/middleware.ts:73-76 | a logged-in visitor to a login or register page is redirected to their home page |
| Middleware.RootPage | src/middleware.ts:79-85 | `/` redirects a logged-in visitor home and lets an anonymous one through |
| Middleware.AdminPagesDowngrade | src/middleware.ts:88-94 | on `/admin…` pages a logged-in non-admin is sent to `/dashboard`; admins and anonymous visitors pass |
| Middleware.OtherPagesPass | src/middleware.ts:73-94 | a page that is not an API path, not `/`, not an auth page for a logged-in visitor and not an admin page for a non-admin passes, whoever asks |
| Middleware.AdminPrefixIsTextual | src/middleware.ts:88-91 | `/administrator` counts as an admin page for the prefix test |
| Middleware.UsersPrefixIsTextual | src/middleware.ts:62-67 | `/api/v1/usersettings` is refused to a non-admin like the users API |
| Tasks.Patched | src/lib/services/task-service.ts:62-64 | each `??` field given replaces the stored one, an absent one keeps it; id, owner and creation time are kept |
| Tasks.PatchIdempotent | src/lib/services/task-service.ts:62-71 | applying an update twice is applying it once, and the empty update changes nothing |
| Tasks.NewestTasks | src/lib/services/task-service.ts:26-30 | the selected tasks, each exactly once, all stored rows, ordered by `created_at` descending |
| Tasks.TaskListingOrder | src/lib/services/task-service.ts:28 | the rows taken in `NewestFirst` order are the selected tasks, distinct and newest first |
| Tasks.Joined | src/lib/services/task-service.ts:35-37 | the LEFT JOIN of one task: owner name and e-mail present exactly when the owner exists |
| Tasks.AllTaskRows | src/lib/services/task-service.ts:33-41 | every task exactly once, each joined with its owner, newest first |
| Tasks.JoinKeepsOrder | src/lib/services/task-service.ts:33-41 | joining the newest-first listing keeps every task once and keeps the order |
| Tasks.TaskService.CreateTask | src/lib/services/task-service.ts:13-24 | adds exactly one row under a fresh id, owned by `userId`, not complete, with description `""` when none is given |
| Tasks.TaskService.GetTasksByUser | src/lib/services/task-service.ts:26-30 | exactly the tasks owned by `userId`, each once, newest first |
| Tasks.TaskService.GetAllTasks | src/lib/services/task-service.ts:33-41 | every task once, newest first, each with its owner's name and e-mail when the owner exists |
| Tasks.TaskService.GetTaskById | src/lib/services/task-service.ts:43-47 | the stored task exactly when the id exists, otherwise null |
| Tasks.TaskService.UpdateTask | src/lib/services/task-service.ts:50-73 | a missing id gives null and a non-owner non-admin gets `FORBIDDEN`, both with the table unchanged; otherwise only that row is patched; ids, owners and creation times never change; no other row changes |
| Tasks.TaskService.DeleteTask | src/lib/services/task-service.ts:75-91 | false for a missing id and `FORBIDDEN` for a non-owner non-admin, both with the table unchanged; otherwise exactly that row is removed and the answer is true |
| Users.Patched | src/lib/services/user-service.ts:76-97 | name and password are replaced only when truthy; id, e-mail, role and creation time are kept |
| Users.NewestUsers | src/lib/services/user-service.ts:44-49 | every user exactly once, without the password, newest first |
| Users.InsertFreshEmail | src/app/api/v1/auth/register/route.ts:24-39 | storing a row whose address no stored row has keeps addresses unique |
| Users.ListingOrder | src/lib/services/user-service.ts:46 | the projected rows in `NewestFirst` order are every user once, newest first |
| Users.UserService.CreateUser | src/lib/services/user-service.ts:15-28 | inserts exactly one row under a fresh id with role `user` unless one is given, and returns it without the password |
| Users.UserService.FindByEmail | src/lib/services/user-service.ts:30-35 | a stored row with exactly that e-mail, password hash included, when one exists; otherwise null |
| Users.UserService.FindByEmailFinds | src/lib/services/user-service.ts:30-35 | with unique e-mail addresses the lookup returns exactly the user holding the address |
| Users.UserService.FindById | src/lib/services/user-service.ts:37-42 | the password-free row exactly when the id exists, otherwise null |
| Users.UserService.GetAllUsers | src/lib/services/user-service.ts:44-49 | every user once, without passwords, newest first |
| Users.UserService.DeleteUser | src/lib/services/user-service.ts:51-56 | true exactly when the id existed; afterwards no row has it and no other row changed |
| Users.UserService.UpdateUser | src/lib/services/user-service.ts:58-100 | with neither field defined the answer is `findById`'s, with no write; with fields defined but none truthy the answer is null and nothing changes; otherwise only the truthy fields of that one row are written |
| Tables.NewestExists | src/lib/services/task-service.ts:28 | a non-empty set of rows has a newest one |
| Tables.NewestFirst | src/lib/services/task-service.ts:28 | `ORDER BY created_at DESC`: every key exactly once, creation times non-increasing |
| Tables.PrependNewest | src/lib/services/task-service.ts:28 | putting the newest key before a newest-first listing of the rest gives a newest-first listing of all |
| Tables.LeastExists | src/lib/services/user-service.ts:34 | a non-empty set of ids has a least element |
| Tables.First | src/lib/services/user-service.ts:34 | `rows[0]` of a non-empty result is one of the matching rows |
| Validation.AsString | src/lib/validations/task.schema.ts:5 | `z.string()`: success exactly for a present string, with that string; one issue under the field otherwise |
| Validation.Optional | src/lib/validations/task.schema.ts:21 | `.optional()`: an absent field is `undefined`; a present one is checked by the inner schema |
| TaskSchema.Name | src/lib/validations/task.schema.ts:4-8 | a string of 1 to 255 raw characters, then trimmed; otherwise at least one issue under `name` |
| TaskSchema.Description | src/lib/validations/task.schema.ts:22-25 | a string of at most 5000 characters, not trimmed; otherwise at least one issue under `description` |
| TaskSchema.IsComplete | src/lib/validations/task.schema.ts:26 | exactly a boolean is accepted, and its value is kept |
| TaskSchema.ParseCreate | src/lib/validations/task.schema.ts:3-13 | valid exactly for an object whose raw name has 1..255 characters and whose description, if present, has at most 5000; the name is trimmed, the description defaults to `""`; an invalid object body gets at least one issue |
| TaskSchema.ParseUpdate | src/lib/validations/task.schema.ts:15-27 | valid exactly when every present field passes its create check (`is_complete` a boolean); each output field is present exactly when sent |
| TaskSchema.ParseIgnoresOtherKeys | src/lib/validations/task.schema.ts:3-27 | a key outside the schema, such as `user_id` or `id`, changes neither parse result |
| TaskSchema.BlankNameBecomesEmpty | src/lib/validations/task.schema.ts:4-8 | the bound is checked before trimming: the name `"   "` validates and becomes `""` |
| TaskSchema.EmptyUpdateIsEmptyPatch | src/lib/validations/task.schema.ts:15-27 | an update body with no fields validates to the empty patch |
| UserSchema.NormalizeEmail | src/lib/validations/user.schema.ts:13-14 | the lookup key is already trimmed and lower-case |
| UserSchema.RegisterName | src/lib/validations/user.schema.ts:4-8 | a string of 2 to 255 raw characters, then trimmed |
| UserSchema.RegisterEmail | src/lib/validations/user.schema.ts:9-14 | an address of at most 255 raw characters, then trimmed and lower-cased |
| UserSchema.RegisterPassword | src/lib/validations/user.schema.ts:15-18 | 6 to 100 characters, kept as sent |
| UserSchema.LoginEmail | src/lib/validations/user.schema.ts:22-26 | an address of any length, then trimmed and lower-cased |
| UserSchema.LoginPassword | src/lib/validations/user.schema.ts:27-29 | any non-empty string, kept as sent |
| UserSchema.ParseRegister | src/lib/validations/user.schema.ts:3-19 | valid exactly when name, e-mail and password pass their checks; the output is the trimmed name, the normalised address and the raw password; an invalid object body gets at least one issue |
| UserSchema.ParseLogin | src/lib/validations/user.schema.ts:21-30 | valid exactly for an address and a non-empty password; the address is normalised |
| UserSchema.RegisterIgnoresUserType | src/lib/validations/user.schema.ts:3-19 | a `user_type` sent with a registration does not change the validated input |
| UserSchema.LoginKeyMatchesRegisterKey | src/lib/validations/user.schema.ts:9-14 | logging in with an ASCII-case variant of the registered address yields the key registration stored |
| UserSchema.LoginPasswordHasNoMaximum | src/lib/validations/user.schema.ts:27-29 | a valid address and any non-empty password pass login validation, however long the password |
| Text.TrimStart | src/lib/validations/user.schema.ts:13 | removes exactly the leading whitespace |
| Text.TrimEnd | src/lib/validations/user.schema.ts:13 | removes exactly the trailing whitespace |
| Text.Trim | src/lib/validations/task.schema.ts:8 | the result is no longer than the input, has no whitespace at either end, and is empty exactly for an all-whitespace input; that it is a slice of the input is `Text.TrimKeepsMiddle` |
| Text.TrimKeepsMiddle | src/lib/validations/task.schema.ts:8 | the result is the slice of the input that starts where `trimStart` stops; everything of the input before and after it is whitespace |
| Text.TrimIsSlice | src/lib/validations/task.schema.ts:8 | cutting trailing whitespace off what `trimStart` left gives such a slice, empty exactly for an all-whitespace input |
| Text.TrimOfTrimmed | src/lib/validations/task.schema.ts:8 | trimming a string without whitespace at its ends changes nothing |
| Text.TrimIdempotent | src/lib/validations/task.schema.ts:8 | trimming twice is trimming once |
| Text.ToLower | src/lib/validations/user.schema.ts:14 | same length, no upper-case letter left, each upper-case ASCII letter replaced by its lower-case letter (code point + 32), every other character kept |
| Text.ToLowerIdempotent | src/lib/validations/user.schema.ts:14 | lower-casing twice is lower-casing once |
| Text.LowerKeepsSpace | src/lib/validations/user.schema.ts:13-14 | lower-casing a character never changes whether it is whitespace |
| Text.TrimStartLower | src/lib/validations/user.schema.ts:13-14 | dropping leading whitespace commutes with lower-casing |
| Text.TrimEndLower | src/lib/validations/user.schema.ts:13-14 | dropping trailing whitespace commutes with lower-casing |
| Text.TrimLowerCommute | src/lib/validations/user.schema.ts:13-14 | trimming and lower-casing commute |
| Text.CaseVariantsNormaliseAlike | src/lib/validations/user.schema.ts:21-26 | two addresses equal up to ASCII case normalise to the same key |
| TasksRoute.Get | src/app/api/v1/tasks/route.ts:6-23 | 401 without a session, reading nothing; an admin gets every task exactly once, joined with its owner, newest first; anyone else gets exactly their own tasks, each once, newest first |
| TasksRoute.Post | src/app/api/v1/tasks/route.ts:33-59 | 401 without a session before validation; 400 with the field issues for an invalid body; both leave the store unchanged; otherwise one new task owned by the session's user, answered with 201 |
| LoginRoute.Login | src/app/api/v1/auth/login/route.ts:8-65 | invalid input answers 400 whatever the store holds; valid input that does not succeed, whether the address is unknown or the password wrong, always gets the identical 401; success is exactly a found user whose hash `compare` accepts, and it answers 200 without the password; the cookie is set only on success and carries exactly the stored id, address and role |
| LoginRoute.RegisteredUserCanLogIn | src/app/api/v1/auth/login/route.ts:13-49 | a user stored as registration stores them logs in with the same password and any ASCII-case variant of the address, and the cookie names that user |
| RegisterRoute.Register | src/app/api/v1/auth/register/route.ts:6-47 | 400 for invalid input and 409 for an address already on file, both without writing; otherwise one plain-user row with the normalised address and `hash(password)`, answered with 201 without the password; unique addresses stay unique |
| UsersRoute.List | src/app/api/v1/users/route.ts:6-24 | 401 without a session, then 403 for a non-admin; only an admin gets 200 with every user once, without passwords, newest first |
| UsersRoute.MiddlewareRefusesFirst | src/middleware.ts:53-67 | for a request the handler refuses, the middleware has already answered 401 or 403 on `/api/v1/users` |
| MeRoute.Me | src/app/api/v1/auth/me/route.ts:6-23 | 401 without a session, 404 when the session's user no longer exists, otherwise 200 with that user's stored row without its password, looked up by the token's id only |

## Left out

- Token signing and verification, and reading the cookie (`getCurrentUser`): the session is the claim the token carries, `None` when it is missing or fails verification; expiry and signatures are library behaviour.
- Password hashing and comparison: they are the parameters `hash` and `compare`. Only `RegisteredUserCanLogIn` assumes `compare(p, hash(p))`.
- The `isEmail` regular expression of zod: it is a parameter.
- SQL itself: row ids and `created_at` come from the database and are modelled by a counter and the `now` argument. Any cascade delete of a user's tasks lives in migrations that are not part of this model.
- Tasks.TaskService.CreateTask: the INSERT leaves `is_complete` to the column default, which lives in migrations outside the model; the model takes that default to be false.
- Tables.First: which row `rows[0]` is among several e-mail matches is up to the database; the model picks the least id. It matters only when addresses are not unique, and `RegisterRoute.Register` keeps them unique.
- Text.ToLower: lower-cases ASCII letters only; JavaScript's full Unicode case mapping is not modelled.
- String lengths are counted in code points; JavaScript counts UTF-16 code units, which differs for characters outside the Basic Multilingual Plane.
- Validation.Json: numbers carry no value, since no schema here accepts one. zod's wording of type errors is abstracted to `Required` and `WrongType`.
- A body that is not a JSON object fails validation with no field issues; zod reports that case under `formErrors`, which `flatten().fieldErrors` leaves out.
- `request.json()` failing on a malformed body, and every `catch` that answers 500, are exceptions and are not modelled.
- The race between `getTaskById` and the following UPDATE or DELETE is concurrency and is not modelled.
- The logout route, the per-id routes (`tasks/[id]`, `users/[id]`), the UI pages, the seed script, cookie options and the middleware's `config.matcher` are outside the modelled core.
