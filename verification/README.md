# Aalison Mobile Recharge: the in-memory registry and plan catalogue

This project models the storage core of the recharge demo's in-memory backend,
`backend/simple-server.js`. That server keeps two module-level arrays: `users`
(the registry, initially empty) and `plans` (the catalogue, seeded with plans
`'1'`, `'2'` and `'3'`). Each route handler reads or changes them in a few
sequential steps:

- admin login
- registration: a duplicate-email check, then an append
- login: a lookup on email and password
- plan listing, creation (append), update (first match, then object-spread merge) and deletion (filter)
- user listing (each user without its password) and user deletion (filter)

The model has four modules:

- `JsValues` (`js_values.dfy`) covers JSON primitive values. Their structural equality agrees with
  JavaScript's `===`. A JSON object is a `map<string, Value>`, and object spread
  `{...a, ...b}` is the right-biased map union `Spread`.
- `JsArrays` (`js_arrays.dfy`) covers the array operations the handlers use: `findIndex` (which `find`
  is built on) and `filter` by id. Both are recursive functions. `FindIndex`'s contract fixes its result. `FilterOut`'s
  contract fixes which elements survive and how many are dropped, and the lemma `FilterOutAppend` fixes their
  order (filtering distributes over concatenation). Another lemma shows that filtering twice equals filtering once.
- `SimpleServer` (`simple_server.dfy`) holds the class `Server`. Its fields `users: seq<User>` and
  `plans: seq<Plan>` are reassigned by one method per mutating route. The read-only routes (login and
  the listings) are functions that read the object. Admin login, registration, login, and plan creation, update
  and deletion and user deletion return a `Response`, whose constructors stand for the HTTP status: `Ok` 200,
  `Created` 201, `BadRequest` 400, `Unauthorized` 401, `NotFound` 404. The two listings always answer 200, so
  `ListPlans` and `ListUsers` return their sequence directly.
  The object invariant `Valid()` records what the handlers keep true:
  - every stored user has role `"user"`, because registration is the only way in and it always sets that role;
  - no two users share an email.
- `Scenarios` (`scenarios.dfy`) contains request sequences against one server:
  - register, then log in with the right password and with a wrong one;
  - register twice with the same email;
  - create, update and delete a plan;
  - send the same plan update twice;
  - delete the same id twice.

Ids that the server takes from the clock (`Date.now().toString()`) are method
parameters. Nothing assumes that they are unique, because the server does not ensure it.

This server differs from the repository's other backends and from what its admin page expects, and the model follows this server:

- Admin login accepts any password and always returns `"admin-token"`. backend/final-server.js checks for `admin123`.
- Plan creation does not default `operator` to `"All"` and validates nothing. `Scenarios.PlanLifecycle` shows a
  created plan without an `operator`.
- Both plan listings return every plan. There is no `isActive` filter like the one in backend/routes/plans.js.
- A plan update may overwrite `_id`.
- User deletion has no guard against removing an admin-role user. The admin page only hides the delete button for
  admin rows. Under `Valid()` no admin-role user can exist in this server anyway.
- The admin routes check no token.

## Model

| member | source | states |
|---|---|---|
| `JsValues.Spread` | backend/simple-server.js:101 | The merged record has the keys of both records. Each body key carries the body's value. Each key only the old record has keeps its old value. |
| `JsValues.SpreadIdempotent` | backend/simple-server.js:101 | Merging the same body a second time leaves the record unchanged. |
| `JsArrays.FindIndex` | backend/simple-server.js:99 | `findIndex` returns -1 exactly when no element satisfies the predicate. Otherwise it returns an index whose element satisfies it, and no earlier element does. |
| `JsArrays.FilterOut` | backend/simple-server.js:108-121 | Deleting by id keeps exactly the elements whose id differs. Every survivor comes from the input, and every element with another id survives. The length drops by exactly the number of elements that carried the id. With no match the sequence is unchanged. |
| `JsArrays.FilterOutAppend` | backend/simple-server.js:109 | Deleting from a concatenation equals deleting from each part and concatenating. With the one-element cases this fixes the survivors' order. |
| `JsArrays.FilterOutIdempotent` | backend/simple-server.js:108-110 | Deleting an id twice leaves what deleting it once left. |
| `JsArrays.CountId` | backend/simple-server.js:109 | The number of elements a deletion drops is zero exactly when no element carries the id. |
| `SimpleServer.WithoutPasswords` | backend/simple-server.js:114-116 | The user listing has the same length and order as `users`. Each entry carries the stored id (sent under the key `_id`, unlike the `id` of the register and login responses), name, email, phoneNumber and role, and there is no password field. |
| `SimpleServer.ListUsersLosesOnlyPasswords` | backend/simple-server.js:114-116 | Entry `i` of the admin user listing is user `i` without its password. |
| `SimpleServer.AdminLogin` | backend/simple-server.js:22-25 | Admin login succeeds for every password and returns the token `"admin-token"`. |
| `SimpleServer.FilterOutKeepsUniqueEmails` | backend/simple-server.js:118-120 | Deleting users keeps emails pairwise distinct. |
| `SimpleServer.Server.constructor` | backend/simple-server.js:10-15 | The server starts with no users and the three seeded plans `'1'`, `'2'` and `'3'`. The invariant holds from the start. |
| `SimpleServer.Server.Register` | backend/simple-server.js:28-55 | If the email is taken, the result is 400 "Email already exists" and `users` is unchanged. Otherwise exactly one user is appended with the given fields and role `"user"`, and the result is 201 with id, name, email and phoneNumber but no password. `plans` is unchanged, and the invariant holds. |
| `SimpleServer.Server.Login` | backend/simple-server.js:63-80 | If no user matches both email and password, the result is 401 "Invalid credentials". Otherwise the first matching user yields token `"user-token-"` + its id, plus its id, name and email. Login reads `users` and changes nothing. |
| `SimpleServer.LoginAfterRegister` | backend/simple-server.js:28-80 | After a registration with an unused email, login with that email and password returns the new user's session. |
| `SimpleServer.Server.ListPlans` | backend/simple-server.js:83-89 | Both plan listings return the whole catalogue, unfiltered and in order. |
| `SimpleServer.Server.CreatePlan` | backend/simple-server.js:91-96 | Exactly one plan is appended and the existing plans are unchanged. The new plan has the body's keys plus `_id`, and every body value is kept. The generated id is used only if the body has no `_id`. |
| `SimpleServer.Server.UpdatePlan` | backend/simple-server.js:98-106 | If no plan has the id, the result is 404 "Plan not found" and `plans` is unchanged. Otherwise only the first plan with that `_id` changes, to itself merged with the body, the length stays the same, and the result is the merged plan. |
| `SimpleServer.Server.DeletePlan` | backend/simple-server.js:108-111 | `plans` becomes exactly the plans whose `_id` differs, in their original order. The result is always success, including for an absent id. |
| `SimpleServer.Server.DeleteUser` | backend/simple-server.js:118-121 | `users` becomes exactly the users whose `_id` differs, whatever their role. The result is always success. The invariant is kept. |
| `Scenarios.SignUpThenSignIn` | backend/simple-server.js:28-80 | After registering with a fresh email, registration returns 201 and login with the password gives `"user-token-"` + id. Login with any other password gives 401. |
| `Scenarios.RegisterTwice` | backend/simple-server.js:32-36 | A second registration with the same email is always 400 "Email already exists". At most one user is added. |
| `Scenarios.PlanLifecycle` | backend/simple-server.js:91-111 | A new plan gets the generated id and no `operator`. Updating `amount` to 249 keeps `validity`. Deleting it restores the catalogue to what it was before. |
| `Scenarios.UpdateTwice` | backend/simple-server.js:98-106 | The same update sent twice with a body that has no `_id` leaves the state and the reply of a single update. |
| `Scenarios.DeleteTwice` | backend/simple-server.js:108-121 | Two deletions of one id both succeed and leave the same state as one deletion. |

## Left out

- Express plumbing is not modelled: `cors`, `express.json`, `app.listen`, the JSON envelope's `message` strings on success, and `console.log`. A handler's reply is a `Response` value.
- The `GET /api/test` route (backend/simple-server.js:17-20) is not modelled. It returns a constant and touches no state.
- The `catch` branches (backend/simple-server.js:56-59, 77-79) are not modelled. Nothing in those handlers throws on a body that `express.json` has parsed.
- Request bodies may only hold primitive values: no nested objects or arrays, and no non-integer numbers. `===` on objects compares identity, which structural equality cannot express.
- JSON property order is not modelled, because records are maps.
- JSON serialization drops `undefined` fields. `Registered`, `Session` and `PublicUser` keep such fields as `Undefined` instead.
- Id generation from `Date.now()` is not modelled. The id is a parameter, and ids may collide.
- Node runs each handler to completion before the next one starts, so each handler is one method call. Concurrency is not modelled.
- `SimpleServer.Server.ListUsers` has no contract of its own. `SimpleServer.WithoutPasswords` and `SimpleServer.ListUsersLosesOnlyPasswords` state what it returns.
