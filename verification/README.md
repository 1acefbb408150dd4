# TinyApp URL shortener: a verified model of its request logic

TinyApp is a small Express web application. Users register and log in, submit
long URLs, get six-character short codes for them, and anyone who follows
`/u/<code>` is redirected to the destination. All state lives in process
memory, in two JavaScript objects:

- `urlDatabase`: short code → `{longURL, userId}`;
- `users`: user id → `{id, email, password}`, where the password is stored as a bcrypt digest.

A signed cookie session holds the current client's `user_id`.

This project models the two lookup helpers and every request handler that
reads or changes those tables. The handlers are modelled as a state machine
over the tables and the session. The model follows the code as written,
including the order in which each handler makes its checks.

- `wrappers.dfy` (`Wrappers`): `Option`, which stands for JavaScript's `null`/`undefined` results.
- `tables.dfy` (`Tables`): a plain object used as a dictionary. `Table<V>` pairs the entries
  (a `map`) with the order in which `for…in` visits their keys. `Put` is `obj[k] = v`: a key
  already present keeps its place, a new key goes last. `Remove` is `delete obj[k]`.
  `IsInheritedName` lists the names every plain object inherits from `Object.prototype`.
- `helpers.dfy` (`Helpers`): `getUserByEmail` and `urlForUser`. Each is a method with a loop,
  proved against a specification function (`FirstWithEmail`, `UrlsFor`). Lemmas about those
  functions state what the helpers promise.
- `server.dfy` (`Server`): the class `App`. Its fields are the two tables, the session, and the
  `longURL` properties written on objects inherited from `Object.prototype`. Its two constants
  are the password hash function and the password comparison.
  - `Valid()` is the invariant that every handler keeps: both tables are well formed, each user
    is stored under its own id, e-mail addresses are unique, no user is stored under the name
    `undefined`, every URL is owned by a stored user, no stored key and no session id is an
    inherited name, and inherited writes sit only under inherited names.
  - Every handler returns the `Reply` it sends. A `TypeError` the handler does not catch
    becomes `ServerError`; Express answers those with status 500.
- `scenarios.dfy` (`Scenarios`): request sequences, most of them against a freshly started
  server (the seed tables). Their results are checked from the handlers' contracts alone.

"Logged in" means that `users[req.session.user_id]` exists. When the session has no `user_id`,
JavaScript reads the property named `"undefined"`; `App.SessionKey` models that lookup. The
invariant keeps that name out of `users`, because a generated id has at most six characters.
So a user is logged in exactly when the session holds the id of a stored user
(`SessionUserIsSessionId`).

The handlers test whether a code exists with `if (!urlDatabase[id])`. That property read also
finds what every object inherits: `urlDatabase["toString"]` is a function, and
`urlDatabase["__proto__"]` is `Object.prototype` itself. `App.Lookup` models the read: an own
key gives the record, an inherited name gives `Inherited`, and otherwise the value is
`undefined`. Once `Object.prototype.longURL` has been written, the name `longURL` also reads as
that string (`InheritedText`).

The handlers do not all make their checks in the same order:

- The detail, delete and update handlers check existence first, then login, then ownership.
- The update handler writes the new destination before it checks anything. The delete
  handler checks first and deletes only for the owner.
- The redirect handler reads `.longURL` of the slot before it tests anything.

These write-first and read-first orders are listed under "## Findings", each with a corrected
handler beside the one as written.

## Model

| member | source | states |
|---|---|---|
| Tables.Table.Put | express_server.js:184-187 | `obj[k] = v`: the new entries are the old ones with `k` bound to `v`; a key already present keeps its place in the iteration order, a new key is visited last; the table stays well formed |
| Tables.Table.Remove | express_server.js:211 | `delete obj[k]`: the entries lose `k` and nothing else; the iteration order drops `k` and keeps the others in order; the table stays well formed |
| Tables.Without | express_server.js:211 | the iteration order after a delete lists exactly the other keys, each still once |
| Helpers.UniqueEmailsPut | express_server.js:274-283 | storing a user whose address no stored user has keeps addresses unique, whether the id is new or replaces a user |
| Helpers.FirstWithEmail | helpers.js:15-22 | a user is returned only if its email is exactly equal to the argument; it is the first such user in key order (every earlier key has a different email); there is no result exactly when no listed user has that email |
| Helpers.FirstWithEmailInTable | helpers.js:16-21 | over a whole table: the lookup gives null exactly when no user in the table has the address; a user it returns is stored in the table |
| Helpers.FirstWithEmailUnique | helpers.js:16-19 | when addresses are unique, the lookup returns the one user with that address, whatever the key order |
| Helpers.GetUserByEmail | helpers.js:15-22 | the `for…in` loop with its early return gives exactly the first user in key order with that email, or null; it only reads the table |
| Helpers.OwnedKeys | helpers.js:32-36 | the keys the filter keeps are exactly the input keys whose record has `userId === id`; no key appears twice; any two kept keys are in the input's order |
| Helpers.UrlsFor | helpers.js:30-38 | soundness: every kept entry has `userId === id` and is the input's record under the same key; completeness: every input entry owned by `id` is kept; the kept keys are in the input's order; the result is a well-formed table |
| Helpers.UrlForUser | helpers.js:30-38 | the loop, started from `{}` and copying owned records under their keys, builds exactly `UrlsFor(id, db)`; the input is a value and is not changed |
| Server.GeneratedIdIsPlain | helpers.js:5-8 | a code or id from the generator (at most six base-36 digits) is neither an inherited name, nor `longURL`, nor `undefined` |
| Server.SeedUrlsValid | express_server.js:33-42 | the seed URL table is well formed, its codes are not inherited names, and both its records are owned by seed users |
| Server.SeedUsersValid | express_server.js:45-56 | the seed user table is well formed, keyed by id, with two distinct addresses, and has no user named `undefined` |
| Server.UrlsConsistentPut | express_server.js:184-187 | storing a record under a plain code, for a stored owner, keeps every URL owned by a stored user |
| Server.UrlsConsistentRemove | express_server.js:211 | deleting a record keeps every remaining URL owned by a stored user |
| Server.UrlsConsistentGrow | express_server.js:279-283 | storing a user never leaves a URL without its owner |
| Server.UsersConsistentPut | express_server.js:279-283 | storing a user under its own plain id with a free address keeps users keyed by id, addresses unique and `undefined` unused |
| Server.App.Valid | express_server.js:33-56 | the invariant every handler keeps, listed above; the seed tables satisfy it |
| Server.App.SessionKey | express_server.js:76 | `req.session["user_id"]` as a property name: the session id, or `"undefined"` when there is none; the same lookup appears at lines 93, 108, 146, 161, 176, 195 and 219 |
| Server.App.SessionUser | express_server.js:76 | `users[req.session["user_id"]]`: the stored user under that name, or none; the same lookup appears at lines 93, 108, 146, 161, 176, 195 and 219 |
| Server.App.Lookup | express_server.js:109 | `urlDatabase[id]`: an own record first, then an inherited member of `Object.prototype`, then an inherited `longURL` string, else `undefined`; the same read appears at lines 133, 199, 225 and 226 |
| Server.App.SessionUserIsSessionId | express_server.js:76 | under the invariant, `users[req.session.user_id]` exists exactly when the session holds the id of a stored user, and that user's id is the session id |
| Server.App.OwnedIsStored | express_server.js:117 | for a logged-in caller, `urlDatabase[id].userId === req.session["user_id"]` holds only for an own record of that user; an inherited name is owned by nobody |
| Server.App.constructor | express_server.js:33-56 | the server starts with the seed tables, nothing written on `Object.prototype` and no session, and `Valid()` holds |
| Server.App.Index | express_server.js:74-88 | a caller who is not logged in gets "You must login/register first"; a logged-in caller gets exactly `UrlsFor(session id, urlDatabase)` and their user record; no state changes |
| Server.App.NewUrlForm | express_server.js:91-103 | a caller who is not logged in is redirected to `/login`; a logged-in caller gets the form with their user record |
| Server.App.ShowUrl | express_server.js:106-128 | precedence: a code whose slot is falsy gives "URL doesn't exist", then a caller who is not logged in gets the login message, then a non-owner gets "Not Autherized…"; an inherited name passes the first check; the destination is shown exactly when the slot is truthy and the logged-in caller owns it, and it is then an own record; no state changes |
| Server.App.FollowShortUrl | express_server.js:131-141 | as written: the reply is a server error exactly when the slot is `undefined` (neither an own code nor an inherited name); a missing or empty `.longURL`, as for an inherited name on untouched `Object.prototype`, gives "URL not found"; otherwise the reply redirects to that `.longURL`, inherited ones included |
| Server.App.FollowShortUrlChecked | express_server.js:131-141 | corrected: it never gives a server error; a code that is not an own key gives "URL not found"; it redirects exactly when the code is an own key with a non-empty destination, and the target is that destination |
| Server.App.RegisterForm | express_server.js:144-156 | a logged-in caller is redirected to `urls`; anyone else gets the registration form |
| Server.App.LoginForm | express_server.js:159-171 | a logged-in caller is redirected to `/urls`; anyone else gets the login form |
| Server.App.CreateUrl | express_server.js:174-190 | a caller who is not logged in gets "You must login" and nothing changes; otherwise `{longURL, userId: session id}` is stored under the generated code, replacing any record there, with every other entry and the users unchanged, and the reply redirects to `/urls/<code>` |
| Server.App.DeleteUrl | express_server.js:193-214 | the record is removed only when the slot is truthy, the caller is logged in and owns it, and then it is an own key and no other key is touched; each other outcome gives its message (existence first, then login, then ownership) and leaves every table unchanged |
| Server.App.SetDestination | express_server.js:225 | the write on an own record: only that record's destination changes, its key, owner and place are kept, and the invariant holds |
| Server.App.AssignLongUrl | express_server.js:225 | the write as evaluated: an own record gets the new destination; an inherited member of `Object.prototype`, or `Object.prototype` itself under `__proto__`, gets a `longURL` property; an inherited string ignores it; `undefined` throws; the slot's truthiness and owner are unchanged |
| Server.App.DefinedButFalsy | express_server.js:226 | a slot that is not `undefined` is falsy only for `longURL`, once `Object.prototype.longURL` is the empty string |
| Server.App.UpdateUrl | express_server.js:217-240 | as written: an `undefined` slot throws with nothing changed; otherwise the write of `AssignLongUrl` happens before the checks, so a caller who is not logged in, or does not own the code, still changes an own destination or `Object.prototype` while getting an error; "URL doesn't exist" is the reply only for `longURL` with an empty inherited value |
| Server.App.UpdateUrlChecked | express_server.js:217-240 | corrected: the same replies, with an own-key existence check, and all checks made first; the destination changes exactly when the code is an own key and the logged-in caller owns it; nothing is ever written on `Object.prototype` |
| Server.App.Login | express_server.js:243-258 | an unknown address gives 403 "Email not found" and a wrong password gives 403 "Incorrect password", both with the session unchanged; a matching password binds the session to that user's id; the tables never change |
| Server.App.Logout | express_server.js:261-264 | the session is cleared, so no one is logged in, and the reply redirects to `/login`; the tables are unchanged |
| Server.App.SignIn | express_server.js:279-284 | storing the new user under its id and binding the session to it keeps the invariant, and changes nothing else |
| Server.App.Register | express_server.js:267-287 | an empty email or password gives 400 with nothing changed; an address already in use gives 400 with nothing changed; otherwise `{id, email, hash(password)}` is stored under the generated id and the session is bound to it; `Valid()` (unique addresses included) is kept |
| Scenarios.NonOwnerCannotDelete | express_server.js:193-214 | A registers and shortens `http://example.com` as `abc123`; B registers and tries to delete it; B is refused, and `abc123` still redirects to `http://example.com` |
| Scenarios.RegisterThenLogin | express_server.js:243-287 | on any server in a valid state, if a digest matches the password it was made from, then registering a free address under a generated id, logging out and logging in again with the same address and password redirects to `/urls` and binds the session to that id |
| Scenarios.DuplicateRegistration | express_server.js:274-277 | registering a seed address again gives 400 "Email is already exist", and the users are the seed users |
| Scenarios.CreateThenRead | express_server.js:174-190 | after a new user creates a code: the owner's detail view shows exactly that destination, the short link redirects there, and the owner's index lists exactly that one record |
| Scenarios.LoggedOutUpdateOverwrites | express_server.js:225-233 | on the handler as written, a logged-out update of `b2xVn2` is told to log in, yet the stored destination becomes the new one |
| Scenarios.LoggedOutUpdateCheckedKeeps | express_server.js:226-237 | on the corrected handler, the same request is told to log in and the destination stays `http://www.lighthouselabs.ca` |
| Scenarios.MissingShortCode | express_server.js:133-136 | following a code nobody created gives a server error as written, and "URL not found" when corrected |
| Scenarios.InheritedNameAsCode | express_server.js:109-115 | with `toString` as the code and nothing written on `Object.prototype`: the redirect handler answers "URL not found"; a logged-out caller of the detail and delete handlers is asked to log in, and nothing is deleted |
| Scenarios.PrototypeWrite | express_server.js:225-233 | on the handler as written, an update of `__proto__` is refused, yet afterwards `/u/constructor` and `/u/longURL` redirect to the caller's destination |
| Scenarios.PrototypeWriteChecked | express_server.js:225-237 | on the corrected handler, the same update gives "URL doesn't exist", nothing is written, and `/u/constructor` still answers "URL not found" |

## Left out

- `generateRandomString` (helpers.js:5-8) depends on `Math.random`. Each generated code or id is a parameter instead. `Helpers.IsGeneratedId` states the generator's range (at most six base-36 digits). `CreateUrl` and `Register` require it of the code or id they are given.
- Code collisions are not re-rolled, as in the source. A generated code that is already in use replaces the old record (`CreateUrl`). A generated id that is already in use replaces the old user (`Register`); the invariant still holds in that case.
- bcrypt (`hashSync`, `compareSync`) is a foreign library. It is modelled by two uninterpreted constants of `App`. Salting is not modelled: the model gives one password the same digest every time.
- Cookie-session signing, expiry and per-client storage are external. They are reduced to one optional session id: the model serves one client at a time.
- The Express setup, the middleware, `app.listen`, the routes `/`, `/hello` and `/urls.json`, and template rendering are framework plumbing or output formatting. A rendered reply carries its template variables. Status codes are modelled only where the source sets one.
- Key order: the model visits keys in insertion order. JavaScript visits array-index-like keys (a code made only of digits, such as `123456`) first, in numeric order. With unique addresses this does not change which user `getUserByEmail` finds. It can change the order in which `urlForUser` lists codes.
- Aliasing: `urlForUser` returns the same record objects as `urlDatabase`. The model copies them as values. A later in-place write at express_server.js:225 would also show through such a copy, but no copy outlives its request.
- Index computes `urlForUser` (express_server.js:79) before the login check, with an `undefined` id when no one is logged in. The result is then thrown away. The model computes it only for a logged-in caller.
- Form fields are modelled as strings. A field missing from the request body is modelled as the empty string. That is exact for `/register`, which treats both alike. It is not modelled that a missing `longURL` would be stored as `undefined`, or that `compareSync` throws on a missing password.
- Inherited names are modelled for `urlDatabase` reads only. Stored codes, user ids and session ids are generated or seeded, and none of them is an inherited name. After `Object.prototype.longURL` is written, `for…in` in both helpers also visits the inherited `longURL`. That string has no `email` and no `userId`, so neither helper keeps it for a real user; the model does not list it.
- Only `longURL` writes on inherited objects are modelled, because that is the only property a handler writes through an inherited slot. Properties that `Object.prototype` gains from other code are not modelled.

## Findings

| source | as written | input that shows it | evidently intended | confidence | as-written member | corrected member |
|---|---|---|---|---|---|---|
| express_server.js:225-237 | the update handler writes the new `longURL` before its existence, login and ownership checks; an `undefined` slot throws at the write, so the existence check at line 226 almost never answers | a logged-out POST `/urls/b2xVn2` with `longURL=http://evil.example`: the reply is "You must login/register first", but the seed record now points to `http://evil.example` (`Scenarios.LoggedOutUpdateOverwrites`) | make the three checks first and write only for the owner, as the delete handler does | not executed | Server.App.UpdateUrl | Server.App.UpdateUrlChecked |
| express_server.js:133-136 | the redirect handler reads `urlDatabase[id].longURL` before checking that the slot is defined | GET `/u/zzzzzz` on the seed tables throws a `TypeError` (a 500), instead of answering "URL not found" (`Scenarios.MissingShortCode`) | check that the code is an own key first, then redirect to the stored destination | not executed | Server.App.FollowShortUrl | Server.App.FollowShortUrlChecked |
| express_server.js:225 | with the code `__proto__`, `urlDatabase[id]` is `Object.prototype`, and the write at line 225 sets `Object.prototype.longURL` before any check; every object then inherits it | any caller, logged in or not, POSTs `/urls/__proto__` with `longURL=http://evil.example` and is refused; afterwards GET `/u/constructor` and GET `/u/longURL` redirect to `http://evil.example` (`Scenarios.PrototypeWrite`) | test the code as an own key (`Object.hasOwn`) and check login and ownership before writing, so nothing reaches `Object.prototype` | not executed | Server.App.UpdateUrl | Server.App.UpdateUrlChecked |
