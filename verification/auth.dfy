/**
 * The authorization policy of the note service and the resolution of the
 * request context (backend/src/utils/auth.js).
 *
 * Password hashing and token signing are library calls whose internals are not
 * modelled; they are gathered in a `Crypto` value that the operations receive as
 * a parameter, and `Sound` states the only facts the rest of the model relies on.
 */
module Auth {
  import opened Wrappers

  type UserId = nat

  /** The two roles of the GraphQL enum `Role`: `USER` and `ADMIN`. */
  datatype Role = Regular | Admin

  /** A user record as stored; `password` holds the hash, never the plaintext. */
  datatype User = User(id: UserId, name: string, email: string, password: string, role: Role, createdAt: nat)

  /** The `extensions.code` values the service raises; the last one is Apollo's code for any other exception. */
  datatype ErrCode =
    | Unauthenticated      // UNAUTHENTICATED
    | Forbidden            // FORBIDDEN
    | NotFound             // NOT_FOUND
    | UserExists           // USER_EXISTS
    | InvalidCredentials   // INVALID_CREDENTIALS
    | InternalServerError  // INTERNAL_SERVER_ERROR

  /** A GraphQL error: its code and its message. */
  datatype Error = Error(code: ErrCode, message: string)

  const InvalidToken := Error(Unauthenticated, "Invalid or expired token")
  const NotLoggedIn := Error(Unauthenticated, "You must be logged in to perform this action")
  const NotAdmin := Error(Forbidden, "You must be an admin to perform this action")
  const NotOwner := Error(Forbidden, "You can only access your own resources")

  /**
   * The password-hashing and token libraries, as opaque functions:
   * `hashPassword` and `comparePassword` stand for bcrypt, `generateToken` for
   * signing a token for a user id, and `verify` for checking a token's signature
   * and expiry and reading its `userId` (None when any of that fails).
   */
  datatype Crypto = Crypto(
    hashPassword: string -> string,
    comparePassword: (string, string) -> bool,
    generateToken: UserId -> string,
    verify: string -> Option<UserId>)

  /** What the libraries guarantee: a fresh token verifies back to its user id, and a password matches its own hash. */
  ghost predicate Sound(crypto: Crypto) {
    && (forall id: UserId :: crypto.verify(crypto.generateToken(id)) == Some(id))
    && (forall id: UserId :: crypto.generateToken(id) != "")
    && (forall p :: crypto.comparePassword(p, crypto.hashPassword(p)))
  }

  /** `verifyToken`: a token the library rejects becomes an UNAUTHENTICATED error. */
  function VerifyToken(crypto: Crypto, token: string): (r: Result<UserId, Error>)
    ensures r.Failure? <==> crypto.verify(token).None?
    ensures r.Failure? ==> r.error == InvalidToken
    ensures r.Success? ==> crypto.verify(token) == Some(r.value)
  {
    match crypto.verify(token)
    case None => Failure(InvalidToken)
    case Some(id) => Success(id)
  }

  // ---------------------------------------------------------------------------
  // Token extraction: `header.replace('Bearer ', '')`

  /** `pat` occurs in `s` starting at index `i`. */
  predicate MatchesAt(s: string, pat: string, i: nat) {
    i + |pat| <= |s| && s[i..i + |pat|] == pat
  }

  /** The first index at or after `from` where `pat` occurs in `s` (JavaScript's `indexOf`). */
  function IndexOf(s: string, pat: string, from: nat): (r: Option<nat>)
    ensures r.Some? ==> from <= r.value && MatchesAt(s, pat, r.value)
    ensures forall j: nat :: from <= j && (r.None? || j < r.value) ==> !MatchesAt(s, pat, j)
    decreases |s| - from
  {
    if from + |pat| > |s| then None
    else if s[from..from + |pat|] == pat then Some(from)
    else IndexOf(s, pat, from + 1)
  }

  /** JavaScript's `String.prototype.replace` with a string pattern: only the FIRST occurrence is replaced, wherever it is. */
  function ReplaceFirst(s: string, pat: string, rep: string): (r: string)
    ensures (forall j: nat :: !MatchesAt(s, pat, j)) ==> r == s
    ensures forall i: nat :: MatchesAt(s, pat, i) && (forall j: nat :: j < i ==> !MatchesAt(s, pat, j)) ==>
      r == s[..i] + rep + s[i + |pat|..]
  {
    match IndexOf(s, pat, 0)
    case None => s
    case Some(i) => s[..i] + rep + s[i + |pat|..]
  }

  const BearerPrefix := "Bearer "

  /** The token carried by an `Authorization` header value. */
  function StripBearer(header: string): string {
    ReplaceFirst(header, BearerPrefix, "")
  }

  /** For a header `"Bearer " + t`, the token handed to verification is `t`. */
  lemma BearerTokenExtracted(t: string)
    ensures StripBearer(BearerPrefix + t) == t
  {
  }

  /** A header with no `"Bearer "` anywhere is passed to verification unchanged. */
  lemma UnprefixedHeaderIsToken(header: string)
    requires forall j: nat :: !MatchesAt(header, BearerPrefix, j)
    ensures StripBearer(header) == header
  {
  }

  // ---------------------------------------------------------------------------
  // Request context

  /**
   * `getUser`: the user a request acts as. A missing header, an empty token, a
   * token the library rejects and a user id with no record all give None; no
   * error ever escapes.
   */
  function GetUser(authorization: Option<string>, crypto: Crypto, users: map<UserId, User>): (r: Option<User>)
    ensures authorization.None? ==> r.None?
    ensures authorization.Some? && StripBearer(authorization.value) == "" ==> r.None?
    ensures authorization.Some? && crypto.verify(StripBearer(authorization.value)).None? ==> r.None?
    ensures r.Some? ==>
      && authorization.Some?
      && var token := StripBearer(authorization.value);
      && token != ""
      && crypto.verify(token).Some?
      && crypto.verify(token).value in users
      && r.value == users[crypto.verify(token).value]
    ensures forall id ::
      (authorization.Some? && StripBearer(authorization.value) != "" &&
       crypto.verify(StripBearer(authorization.value)) == Some(id) && id in users) ==> r == Some(users[id])
  {
    match authorization
    case None => None
    case Some(header) =>
      var token := StripBearer(header);
      if token == "" then None
      else
        match VerifyToken(crypto, token)
        case Failure(_) => None
        case Success(userId) => if userId in users then Some(users[userId]) else None
  }

  /** A request carrying a token issued for `id` acts as the stored record of `id`, or anonymously if there is none. */
  lemma GetUserOfIssuedToken(crypto: Crypto, users: map<UserId, User>, id: UserId)
    requires Sound(crypto)
    ensures GetUser(Some(BearerPrefix + crypto.generateToken(id)), crypto, users)
            == if id in users then Some(users[id]) else None
  {
    BearerTokenExtracted(crypto.generateToken(id));
  }

  // ---------------------------------------------------------------------------
  // Policy guards

  /** `requireAuth`: fails with UNAUTHENTICATED exactly when there is no user, otherwise returns that user. */
  function RequireAuth(user: Option<User>): (r: Result<User, Error>)
    ensures r.Failure? <==> user.None?
    ensures r.Failure? ==> r.error == NotLoggedIn
    ensures r.Success? ==> r.value == user.value
  {
    match user
    case None => Failure(NotLoggedIn)
    case Some(u) => Success(u)
  }

  /** `requireAdmin`: UNAUTHENTICATED without a user, FORBIDDEN for a non-admin, otherwise the user. */
  function RequireAdmin(user: Option<User>): (r: Result<User, Error>)
    ensures user.None? ==> r == Failure(NotLoggedIn)
    ensures user.Some? && user.value.role != Admin ==> r == Failure(NotAdmin)
    ensures r.Success? <==> user.Some? && user.value.role == Admin
    ensures r.Success? ==> r.value == user.value
  {
    match RequireAuth(user)
    case Failure(e) => Failure(e)
    case Success(u) => if u.role != Admin then Failure(NotAdmin) else Success(u)
  }

  /** `requireOwnership`: succeeds iff there is a user who owns the resource or is an admin. */
  function RequireOwnership(user: Option<User>, resourceUserId: UserId): (r: Result<User, Error>)
    ensures user.None? ==> r == Failure(NotLoggedIn)
    ensures r.Success? <==> user.Some? && (user.value.id == resourceUserId || user.value.role == Admin)
    ensures r.Success? ==> r.value == user.value
    ensures user.Some? && !r.Success? ==> r == Failure(NotOwner)
  {
    match RequireAuth(user)
    case Failure(e) => Failure(e)
    case Success(u) => if u.id != resourceUserId && u.role != Admin then Failure(NotOwner) else Success(u)
  }

  /** Admin supersedes ownership: whoever passes `requireAdmin` passes `requireOwnership` for every owner. */
  lemma AdminPassesOwnership(user: Option<User>, resourceUserId: UserId)
    requires RequireAdmin(user).Success?
    ensures RequireOwnership(user, resourceUserId) == RequireAdmin(user)
  {
  }

  /** The three guards agree on an anonymous caller: each rejects it as UNAUTHENTICATED. */
  lemma AnonymousIsUnauthenticated(resourceUserId: UserId)
    ensures RequireAuth(None) == RequireAdmin(None) == RequireOwnership(None, resourceUserId) == Failure(NotLoggedIn)
  {
  }
}
