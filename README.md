# Workout backend: bearer gate and route handlers

A verified model of the two pieces of logic in the workout-tracking backend
(an Express/Mongoose service):

- the `verifyToken` middleware, which splits the `Authorization` header on
  single spaces, insists on the exact word `Bearer`, insists on a non-empty
  token piece, and hands that piece to the JWT check;
- the route handlers for login, registration, password update, user
  deletion, workout create-or-update, adding an exercise to a workout and
  workout deletion, run over an in-memory document store.

Files:

- `models.dfy` (module `Models`): the record types of the `User` and
  `Workout` documents (workout exercises, sets, rest timer, initial
  resistance, dynamic stretches), `Option`, and the default rest timer
  `{enabled: true, duration: 60}`.
- `header_split.dfy` (module `HeaderSplit`): JavaScript's `split(" ")` as
  `Split`, its inverse `Join`, and the lemmas the gate's proofs use.
- `verify_token.dfy` (module `VerifyToken`): the gate's decision `Gate`, the
  middleware's effects `Middleware` (response sent, `userId` set, number of
  `next` calls), and the lemmas that characterise which headers pass.
- `handlers.dfy` (module `Handlers`): class `Store` with the maps `users`
  and `workouts`, one method per route, each returning the response it
  sends and stating the whole new state. `Valid()` (every id and every
  workout reference below the id counter; usernames unique) is kept by
  every handler.
- `session.dfy` (module `Session`): properties across handlers and across
  the two components.

Foreign code is passed in rather than modelled. The JWT check is a
parameter `verify: string -> Option<Id>`. bcrypt and JWT signing are the
store's constants `hash(plain, salt)`, `compare(plain, hashed)` and
`issue(userId)`. The salt bcrypt draws at random is a parameter of the
handlers that hash. ObjectId generation is the counter `nextId`.

Two behaviours of the code are kept as they are:

- `POST /workouts` without an `id` builds a workout document but never
  saves it. Only the owner's `workouts` list gains the new id, and
  `Session.CreatedWorkoutIsNotStored` proves that adding an exercise to that
  id then answers 404.
- The `date` sent to `POST /workouts` is not a field of the workout schema,
  so it is never stored.

## Model

| member | source | states |
|---|---|---|
| HeaderSplit.Split | app/verify-token.ts:11 | the header cut at every single space: at least one piece, and no piece holds a space |
| HeaderSplit.JoinSplit | app/verify-token.ts:11 | gluing the pieces back with single spaces gives the original header (no character is lost by the split) |
| HeaderSplit.SplitJoin | app/verify-token.ts:11 | splitting space-free pieces joined by single spaces gives back exactly those pieces |
| HeaderSplit.SplitAppend | app/verify-token.ts:11 | splitting `a + " " + b` gives the pieces of `a` followed by the pieces of `b` |
| HeaderSplit.SplitNoSpace | app/verify-token.ts:11 | a string without spaces splits to itself alone |
| HeaderSplit.SplitHead | app/verify-token.ts:11 | the first piece is the longest space-free prefix, followed by the end or a space |
| VerifyToken.Gate | app/verify-token.ts:11-36 | a missing header is refused with 401 "no token or Bearer"; every refusal is a 401 with one of the three messages |
| VerifyToken.BearerPrefixSplit | app/verify-token.ts:11-17 | after `Bearer` and a space, the pieces are `Bearer` followed by the pieces of the rest |
| VerifyToken.BearerPrefix | app/verify-token.ts:11-12 | the first piece is exactly `Bearer` iff the header is `Bearer` or starts with `Bearer ` |
| VerifyToken.GateWrongScheme | app/verify-token.ts:11-16 | any header not starting with the exact word `Bearer` then a space or the end is refused with 401 "no token or Bearer" |
| VerifyToken.LowerCaseSchemeRejected | app/verify-token.ts:12-16 | the scheme is case-sensitive: `bearer <token>` gets 401 "no token or Bearer" |
| VerifyToken.GateEmptyToken | app/verify-token.ts:17-22 | `Bearer`, `Bearer ` and `Bearer  x` (empty second piece) get 401 "no token" |
| VerifyToken.GateBearerToken | app/verify-token.ts:17-34 | for `Bearer <token>` followed by nothing or a space and anything, the outcome depends only on the JWT check of the token: 401 "invalid token" when it fails, proceed with the decoded user id when it succeeds |
| VerifyToken.GateProceedsOnlyIf | app/verify-token.ts:11-34 | a request that gets through carries `Bearer <token>[ rest]` whose token decodes to the user id |
| VerifyToken.GateProceedsIff | app/verify-token.ts:11-34 | the gate proceeds with user `u` if and only if the header is a well-formed bearer header whose token decodes to `u` |
| VerifyToken.Middleware | app/verify-token.ts:11-35 | a refusal sends the 401 with the gate's message ("no token or Bearer", "no token" or "invalid token"), leaves `userId` unset and calls `next` zero times; success sends nothing, sets `userId` to the decoded claim and calls `next` exactly once |
| Handlers.Store.Authenticate | app/index.ts:67-90 | unknown username and wrong password give the identical 401 "Authentication failed"; a matching password gives 200 with the token issued for that user's id; the store is unchanged |
| Handlers.Store.Register | app/index.ts:98-115 | a taken username gives 400 "Username already exists" and no change (id counter included); otherwise exactly one user is added under a fresh id with the hash of the password and no workouts, the id counter advances by one, and 201 returns it; usernames stay unique |
| Handlers.Store.UpdatePassword | app/index.ts:123-141 | a missing id gives 404 "User not found" and no change; otherwise only that user's password becomes the new hash (username, workouts, other users and all workouts unchanged) and the answer is "Password updated" |
| Handlers.Store.DeleteUser | app/index.ts:162-171 | a missing id gives 404 and no change; otherwise only that key is removed, 204, and the workouts are untouched |
| Handlers.Store.SaveWorkout | app/index.ts:205-230 | with an unknown id: 404 and no change; with a known id: `userId` and the whole `exercises` list are overwritten, the rest kept, id counter unchanged, 201; without an id: workouts unchanged, the counter advances by one, a fresh id appended to the end of the owner's list if the owner exists, other users unchanged, 201 either way; `date` is never stored |
| Handlers.Store.AddExercise | app/index.ts:238-260 | a missing workout gives 404 and no change; otherwise `exercises` grows by exactly one, the old entries are an unchanged prefix, the new entry carries the supplied fields with rest timer defaulting to enabled/60, other workouts and users unchanged, 200 with the document |
| Handlers.Store.DeleteWorkout | app/index.ts:268-276 | a missing id gives 404 and no change; otherwise only that key is removed, 204, and no user's `workouts` list changes |
| Session.DecodableTokenAccepted | app/verify-token.ts:17-34 | a token the JWT check decodes to `id`, sent as `Bearer <token>`, gets through with `userId` set to exactly `id` and one call to `next` |
| Session.RegisterThenAuthenticate | app/index.ts:67-115 | registering a new username and logging in with the same password gives 201 with the new user (fresh id, hashed password, no workouts) and then a token issued for that id |
| Session.RegisterLoginThenAccess | app/index.ts:67-115 | registering, logging in and sending `Bearer <token>` gets through the bearer gate with `userId` set to the new user's id and one call to `next`, provided the JWT check decodes the issued token back to that id |
| Session.CreatedWorkoutIsNotStored | app/index.ts:220-256 | a workout created without an id is referenced from its owner but adding an exercise to it gives 404 |

## Left out

- Express setup, CORS, body parsing, `app.listen`, the Mongo connection and its connection string (app/index.ts:11-45, 294-297): transport and configuration.
- bcrypt hashing and comparison, JWT signing and verification, and the one-hour expiry clock: foreign crypto code, passed in as functions. Nothing is assumed about them except where a property needs it, and then only as a precondition of that property: `compare(p, hash(p, s))` in `Session.RegisterThenAuthenticate` and `Session.RegisterLoginThenAccess`; in `Session.RegisterLoginThenAccess` also that the JWT check decodes the token issued for the new id back to that id (`verify(issue(nextId)) == Some(nextId)`), and that this token is non-empty and holds no space.
- The `catch` branches (400 and 500 responses on store exceptions) and `console` logging: they depend on database failures the model does not have.
- Failures outside any `try`: `WorkoutModel.findById` in `POST /workouts/:id/exercises` (app/index.ts:242), `UserModel.findOne` in registration (app/index.ts:102) and the bcrypt calls (app/index.ts:108-109, 128-129) run before or outside the `try`, so their exceptions escape the handler and no JSON 400/500 is sent. Ids are typed `Id`, so the malformed ids that raise such errors cannot be expressed.
- Concurrency: each handler is one atomic step, so the race between the username check and the insert in registration, and the non-atomic create-then-push in `POST /workouts`, are not modelled.
- `GET /`, `/safe`, `GET /profile`, `POST /exercises`, `GET /exercises`, `GET /muscles`, and the `Exercise` and `Muscle` models: pass-through reads and inserts.
- VerifyToken.Gate: the JWT check is modelled as returning the decoded `userId` or nothing; a token whose payload has no `userId` claim (which the code accepts with `userId` undefined) is not distinguished, and the `err` object sent with the "invalid token" message is not modelled.
- Request bodies are modelled with every field present. An absent `username`, `exercises`, `sets`, `note` or `initialResistance` would be stored as missing by Mongoose; that is not modelled. Only `restTimer` has an absent case, because the code gives it a default.
- An absent `password` is not modelled either: bcryptjs rejects a non-string argument, so in registration and password update `bcrypt.hash` (app/index.ts:109, 129) throws outside the `try`, nothing is stored and no response is sent, while in `/auth` `bcrypt.compare` (app/index.ts:79) throws inside the `try` and the answer is 500 "Authentication failed".
- Handlers.Store.AddExercise: `restTimer` is either absent or a timer; an explicit `"restTimer": null` escapes the destructuring default (it applies only to `undefined`) and would be stored as null, which the model cannot express.
- Handlers.Store.Authenticate: `username` is a string; a JSON object such as `{"$gt": ""}` would become a query operator in `findOne({ username })` (app/index.ts:72) and match some stored user, which the model does not capture.
- Handlers.Store.Register: `username` is a string; the same query-operator injection in the existence check (app/index.ts:102) is not modelled.
- JavaScript numbers are modelled as integers and dates as integer milliseconds; floating point is not modelled.
- Mongo ObjectIds are naturals handed out by a counter; an `id` in `POST /workouts` is either present or absent (the code's falsy test), so an empty-string id is not distinguished from an absent one.
- Handlers.Store.Register: the 201 body is the stored user; Mongo's `__v` version key and the `_id` formatting of the JSON are not modelled.
