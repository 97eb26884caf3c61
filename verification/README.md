# Note service authorization model

A Dafny model of the authorization core of a small GraphQL note-taking API
(Apollo Server over Prisma). Users register and log in, receive a bearer
token, and manage their own notes; administrators manage every user and
note. The model covers two files:

- `backend/src/utils/auth.js` (module `Auth`, file `auth.dfy`): the
  policy guards `requireAuth`, `requireAdmin`, `requireOwnership`, token
  verification with its error mapping, and `getUser`, which turns an
  optional `Authorization` header into the request's user or `null`.
  These are pure, and are modelled as functions returning `Option`/`Result`.
- `backend/src/schema/resolvers.js` (module `Resolvers`, file
  `resolvers.dfy`): the query, mutation and field resolvers. The two
  database tables are a class `Store` holding `map<UserId, User>` and
  `map<NoteId, Note>`, with a clock that stands in for `createdAt`. Queries
  and field resolvers only read, so they are functions of the store. The
  mutations are methods with `modifies this`. Each one states the whole
  new state, or that nothing changed, and keeps the store invariant
  `Valid()`. The invariant covers unique emails, ids matching their keys,
  every note having an existing author, and distinct creation times.

`listing.dfy` (module `Listing`) models `orderBy: { createdAt: 'desc' }`:
it lists a table's entries, each exactly once, newest first.
`wrappers.dfy` holds `Option` and `Result`.

The bcrypt and JSON Web Token libraries are opaque. A `Crypto` value
carries `hashPassword`, `comparePassword`, `generateToken` and `verify`
as function parameters. The predicate `Sound` holds the only facts the
proofs use:
- a freshly generated token verifies back to its user id and is non-empty;
- a password matches its own hash.

The model follows the code, including where it behaves unexpectedly:
- `register` sets no role, so the new user gets whatever default the
  database schema has. Here that is the store constant `defaultRole`, not a
  forced `USER`.
- `updateUser` reads `user.id` before any guard, so an anonymous caller
  gets a generic `INTERNAL_SERVER_ERROR` (a `TypeError`), not
  `UNAUTHENTICATED`.
- Whether `deleteUser` removes the user's notes is decided by the schema,
  through the store constant `cascadeNotes`. Without cascading, deleting a
  user who still has notes fails the foreign-key check and changes nothing.
- `getUser` strips the token with `String.prototype.replace`. That call
  removes the FIRST occurrence of `"Bearer "` anywhere in the header, not
  only a prefix. A header without it is used as the token unchanged.
- `updateUser` hashes the password only when it is truthy. A supplied
  empty password is therefore stored as the empty string, unhashed.
- Database errors are one generic `INTERNAL_SERVER_ERROR` that leaves the
  store unchanged:
  - updating or deleting a missing user id;
  - `updateUser` with an email that another user already has;
  - a note whose author row is gone.

## Model

| member | source | states |
|---|---|---|
| `Auth.VerifyToken` | backend/src/utils/auth.js:19-27 | fails with UNAUTHENTICATED "Invalid or expired token" exactly when the library rejects the token, otherwise yields the token's user id |
| `Auth.IndexOf` | backend/src/utils/auth.js:30 | the index found is an occurrence of the pattern at or after the start, and no earlier index is one; None means there is no occurrence |
| `Auth.ReplaceFirst` | backend/src/utils/auth.js:30 | with no occurrence the string is unchanged; otherwise exactly the first occurrence is replaced |
| `Auth.BearerTokenExtracted` | backend/src/utils/auth.js:30 | for a header `"Bearer " + t` the token passed to verification is `t` |
| `Auth.UnprefixedHeaderIsToken` | backend/src/utils/auth.js:30 | a header with no `"Bearer "` in it is itself the token |
| `Auth.GetUser` | backend/src/utils/auth.js:29-46 | it returns None in each of these cases: no header, an empty token, a token that fails verification, a user id with no record. A user is returned only when the stripped token verifies to an id present in the table, and then it is that id's record; no error escapes |
| `Auth.GetUserOfIssuedToken` | backend/src/utils/auth.js:13-46 | a request carrying `"Bearer " + generateToken(id)` acts as the stored record of `id`, or anonymously when there is none |
| `Auth.RequireAuth` | backend/src/utils/auth.js:48-55 | fails with UNAUTHENTICATED exactly when the user is absent, otherwise returns that same user |
| `Auth.RequireAdmin` | backend/src/utils/auth.js:57-65 | absent user: UNAUTHENTICATED; present non-admin: FORBIDDEN; succeeds iff the user is present with role ADMIN, returning it |
| `Auth.RequireOwnership` | backend/src/utils/auth.js:67-75 | succeeds iff the user is present and owns the resource or is an admin; otherwise UNAUTHENTICATED when absent and FORBIDDEN "You can only access your own resources" when present |
| `Auth.AdminPassesOwnership` | backend/src/utils/auth.js:57-75 | whoever passes the admin guard passes the ownership guard for every owner id, with the same result |
| `Auth.AnonymousIsUnauthenticated` | backend/src/utils/auth.js:48-75 | all three guards reject an anonymous caller with the same UNAUTHENTICATED error |
| `Listing.NewestFirst` | backend/src/schema/resolvers.js:20-23 | lists every id of the given set, only those, with strictly decreasing creation times (so each exactly once) |
| `Listing.ByCreatedAtDesc` | backend/src/schema/resolvers.js:48-50 | lists every entry of the table and only entries of it, with strictly decreasing `createdAt` |
| `Resolvers.Store.FindByEmail` | backend/src/schema/resolvers.js:83-85 | finds a user iff some user has the email, and then returns that user's stored record |
| `Resolvers.Store.NotesOf` | backend/src/schema/resolvers.js:263-270 | `User.notes` lists exactly the notes whose author is the given id, newest first |
| `Resolvers.Store.AuthorOf` | backend/src/schema/resolvers.js:272-278 | `Note.author` is the user with the note's author id if one exists; every stored note has its author |
| `Resolvers.Store.MyNotes` | backend/src/schema/resolvers.js:17-24 | fails with UNAUTHENTICATED iff the caller is anonymous; otherwise returns the caller's own notes, newest first |
| `Resolvers.Store.NoteById` | backend/src/schema/resolvers.js:26-43 | anonymous: UNAUTHENTICATED; missing id: NOT_FOUND, even for a non-owner; a note of someone else for a non-admin: FORBIDDEN; succeeds iff the note exists and the caller owns it or is admin, returning it |
| `Resolvers.Store.AllUsers` | backend/src/schema/resolvers.js:46-51 | succeeds iff the admin guard passes (failing with its error otherwise) and then lists every user, newest first |
| `Resolvers.Store.UserById` | backend/src/schema/resolvers.js:53-66 | admin guard first; then NOT_FOUND for an unknown id, otherwise that user |
| `Resolvers.Store.AllNotes` | backend/src/schema/resolvers.js:68-74 | succeeds iff the admin guard passes and then lists every note, newest first |
| `Resolvers.Store.Login` | backend/src/schema/resolvers.js:111-138 | every failure is the same INVALID_CREDENTIALS error with the same message, whether the email is unknown or the password wrong. It succeeds iff a user with that email matches the password, and then returns that user's stored record and a token for its id |
| `Resolvers.Store.Register` | backend/src/schema/resolvers.js:79-109 | a taken email gives USER_EXISTS and leaves the store unchanged. Otherwise exactly one new user is added (hashed password, default role, newer than all others) and a token for its id is returned. Logging in with the same email and password then succeeds for the same user, with a token that verifies to its id |
| `Resolvers.Store.CreateUserByAdmin` | backend/src/schema/resolvers.js:141-166 | the admin guard comes before the email lookup. A taken email gives USER_EXISTS. Otherwise exactly one user is added with the hashed password and the given role, or USER when none is given. Every failure leaves the store unchanged |
| `Resolvers.Store.UpdateUser` | backend/src/schema/resolvers.js:168-192 | anonymous: generic failure; another user's id without admin: FORBIDDEN. On success only that user changes: supplied fields replace stored ones, a non-empty password is stored hashed, and a role from a non-admin is dropped so the role stays. Every failure leaves the store unchanged |
| `Resolvers.Store.DeleteUser` | backend/src/schema/resolvers.js:194-202 | admin guard first; missing id: generic failure. On success exactly that user is removed, together with the user's notes (if the schema does not cascade and the user has notes, the delete fails instead). Every failure leaves the store unchanged |
| `Resolvers.Store.CreateNote` | backend/src/schema/resolvers.js:205-214 | anonymous: UNAUTHENTICATED. On success exactly one new note is added, with the caller as author whatever the input, the input's title and description, and newer than all others; users are unchanged |
| `Resolvers.Store.UpdateNote` | backend/src/schema/resolvers.js:216-236 | fails exactly when the note query would, with the same error (NOT_FOUND before FORBIDDEN), leaving the store unchanged. On success only the supplied fields of that one note change |
| `Resolvers.Store.DeleteNote` | backend/src/schema/resolvers.js:238-259 | fails exactly when the note query would, with the same error, leaving the store unchanged. On success exactly that note is removed and users are unchanged |
| `Resolvers.LoginRoundTrip` | backend/src/schema/resolvers.js:111-138 | logging in with the password a user's hash was made from returns that user and `generateToken` of its id, and the returned token verifies back to that id |
| `Resolvers.LoginTokenIdentifiesUser` | backend/src/schema/resolvers.js:134-137 | sending the token from a successful login as `Bearer <token>` makes the request act as the user who logged in |
| `Resolvers.AdminReachesEveryNote` | backend/src/schema/resolvers.js:39-42 | an admin passes the ownership check for every existing note |
| `Resolvers.NonOwnerLearnsOnlyExistence` | backend/src/schema/resolvers.js:26-43 | a caller who is neither owner nor admin gets FORBIDDEN for an existing note and NOT_FOUND for a missing one, nothing else |

## Left out

- `Query.me` (backend/src/schema/resolvers.js:14) returns the request's user unchanged; that value is `Auth.GetUser`'s result, so it has no member of its own.
- The internals of bcrypt and of token signing (backend/src/utils/auth.js:1-17) are opaque functions. bcrypt's random salt is not modelled: `hashPassword` is a function of the password.
- `generateToken` is a function of the user id alone. Real tokens also carry their issue time, so two tokens for one user generally differ; no contract states that two tokens are equal.
- Email comparison is exact string equality in `FindByEmail`, `EmailBound` and the unique-email invariant. The database's collation may ignore case and trailing spaces. If it does, `register` or `createUserByAdmin` with "A@x.com" fails when "a@x.com" exists, and `login` with it succeeds. The model instead treats it as a different email.
- Token expiry and time: `Sound` states that a generated token verifies. That holds only while the token is unexpired, and expiry is not modelled.
- The Prisma client and MySQL are an in-memory store. Ids come from counters and `createdAt` from a clock. `updatedAt` is not modelled. The database's error texts are replaced by one placeholder message.
- The database schema is not part of this model. Its default role for `register` and its delete behaviour for a user's notes are the store constants `defaultRole` and `cascadeNotes`.
- An explicit GraphQL `null` in an optional update field is treated as an absent field. The database would reject a `null` for a required column.
- Concurrency: each resolver runs atomically against the store. Races between the email lookup and the insert are not modelled, nor is `async` scheduling.
- GraphQL ids are strings; the model uses natural numbers and compares ids by value.
- The GraphQL layer is not modelled: schema validation, non-null result checks (for example a missing `Note.author`), error formatting and stack traces.
- Server start-up (backend/src/index.js) and database seeding (backend/prisma/seeds/user.js) are I/O and are not part of this model. The type definitions (backend/src/schema/typeDefs.js) are used only for the shapes of the datatypes.
