/**
 * The GraphQL resolvers of the note service (backend/src/schema/resolvers.js)
 * over an in-memory store standing in for the two database tables.
 *
 * Queries only read the store and are functions; mutations change it in place
 * and are methods of `Store`, each of which either performs its one change or
 * leaves the store untouched.
 */
module Resolvers {
  import opened Wrappers
  import opened Auth
  import Listing

  type NoteId = nat

  /** A row of the `Note` table. */
  datatype Note = Note(id: NoteId, title: string, description: string, authorId: UserId, createdAt: nat)

  datatype RegisterInput = RegisterInput(name: string, email: string, password: string)
  datatype LoginInput = LoginInput(email: string, password: string)
  datatype CreateUserInput = CreateUserInput(name: string, email: string, password: string, role: Option<Role>)
  /** Every field is optional; an absent one is left as it is. */
  datatype UpdateUserInput = UpdateUserInput(name: Option<string>, email: Option<string>, password: Option<string>, role: Option<Role>)
  datatype CreateNoteInput = CreateNoteInput(title: string, description: string)
  datatype UpdateNoteInput = UpdateNoteInput(title: Option<string>, description: Option<string>)
  datatype AuthPayload = AuthPayload(token: string, user: User)

  const NoteNotFound := Error(NotFound, "Note not found")
  const UserNotFound := Error(NotFound, "User not found")
  const DuplicateEmail := Error(UserExists, "User already exists with this email")
  const BadCredentials := Error(InvalidCredentials, "Invalid email or password")
  /** Any exception that is not a GraphQLError (a database error, a TypeError); its text is not modelled. */
  const Internal := Error(InternalServerError, "Internal server error")

  function UserCreatedAt(u: User): nat { u.createdAt }
  function NoteCreatedAt(n: Note): nat { n.createdAt }

  /** Some user has this email. */
  predicate EmailBound(users: map<UserId, User>, email: string) {
    exists id :: id in users && users[id].email == email
  }

  /** Some user other than `id` has this email. */
  predicate EmailBoundElsewhere(users: map<UserId, User>, email: string, id: UserId) {
    exists other :: other in users && other != id && users[other].email == email
  }

  /** The unique constraint on `User.email`. */
  predicate UniqueEmails(users: map<UserId, User>) {
    forall i, j :: i in users && j in users && users[i].email == users[j].email ==> i == j
  }

  /** Some note is written by `authorId`. */
  predicate HasNotes(notes: map<NoteId, Note>, authorId: UserId) {
    exists id :: id in notes && notes[id].authorId == authorId
  }

  /** The notes not written by `authorId`. */
  function NotesWithoutAuthor(notes: map<NoteId, Note>, authorId: UserId): map<NoteId, Note> {
    map id | id in notes && notes[id].authorId != authorId :: notes[id]
  }

  /** No two users were created at the same instant. */
  predicate DistinctUserStamps(users: map<UserId, User>) {
    forall i, j :: i in users && j in users && i != j ==> users[i].createdAt != users[j].createdAt
  }

  /** No two notes were created at the same instant. */
  predicate DistinctNoteStamps(notes: map<NoteId, Note>) {
    forall i, j :: i in notes && j in notes && i != j ==> notes[i].createdAt != notes[j].createdAt
  }

  lemma UserStampsOrder(users: map<UserId, User>)
    requires DistinctUserStamps(users)
    ensures Listing.Distinct(Listing.Stamps(users, UserCreatedAt))
  {
  }

  /** The listed notes of one author are notes of that author, and all of them are listed. */
  lemma SubmapValues(notes: map<NoteId, Note>, authorId: UserId, written: map<NoteId, Note>, r: seq<Note>)
    requires written == map id | id in notes && notes[id].authorId == authorId :: notes[id]
    requires forall i :: 0 <= i < |r| ==> r[i] in written.Values
    requires forall k :: k in written ==> written[k] in r
    ensures forall i :: 0 <= i < |r| ==> r[i] in notes.Values && r[i].authorId == authorId
    ensures forall id :: id in notes && notes[id].authorId == authorId ==> notes[id] in r
  {
    forall i | 0 <= i < |r| ensures r[i] in notes.Values && r[i].authorId == authorId {
      assert r[i] in written.Values;
      var k :| k in written && written[k] == r[i];
      assert notes[k] == r[i];
    }
    forall id | id in notes && notes[id].authorId == authorId ensures notes[id] in r {
      assert id in written;
    }
  }

  lemma NoteStampsOrder(notes: map<NoteId, Note>)
    requires DistinctNoteStamps(notes)
    ensures Listing.Distinct(Listing.Stamps(notes, NoteCreatedAt))
  {
  }

  /** The record after an update: each supplied field replaces the stored one. */
  function Apply(u: User, data: UpdateUserInput): User {
    u.(name := data.name.GetOr(u.name), email := data.email.GetOr(u.email),
       password := data.password.GetOr(u.password), role := data.role.GetOr(u.role))
  }

  /**
   * The two tables. `clock` stands for the database's `createdAt` default: it
   * strictly increases with every row created. The role a registration gets
   * and whether deleting a user deletes that user's notes are fixed by the
   * database schema, so they are constants of the store.
   */
  class Store {
    var users: map<UserId, User>
    var notes: map<NoteId, Note>
    var clock: nat
    var nextUserId: UserId
    var nextNoteId: NoteId
    const defaultRole: Role
    const cascadeNotes: bool

    ghost predicate Valid()
      reads this
    {
      && (forall id :: id in users ==> users[id].id == id && id < nextUserId && users[id].createdAt < clock)
      && (forall id :: id in notes ==>
            notes[id].id == id && id < nextNoteId && notes[id].createdAt < clock && notes[id].authorId in users)
      && UniqueEmails(users)
      && DistinctUserStamps(users)
      && DistinctNoteStamps(notes)
    }

    constructor (defaultRole: Role, cascadeNotes: bool)
      ensures Valid()
      ensures users == map[] && notes == map[]
      ensures this.defaultRole == defaultRole && this.cascadeNotes == cascadeNotes
    {
      users, notes := map[], map[];
      clock, nextUserId, nextNoteId := 0, 0, 0;
      this.defaultRole, this.cascadeNotes := defaultRole, cascadeNotes;
    }

    // -------------------------------------------------------------------------
    // Reads

    /** `findUnique({ where: { email } })`. */
    function FindByEmail(email: string): (r: Option<User>)
      reads this
      requires Valid()
      ensures r.Some? <==> EmailBound(users, email)
      ensures r.Some? ==> r.value.id in users && users[r.value.id] == r.value && r.value.email == email
    {
      if exists id :: id in users && users[id].email == email then
        var id :| id in users && users[id].email == email;
        Some(users[id])
      else
        None
    }

    /** `User.notes`: exactly the notes written by `authorId`, newest first. */
    function NotesOf(authorId: UserId): (r: seq<Note>)
      reads this
      requires Valid()
      ensures forall i :: 0 <= i < |r| ==> r[i] in notes.Values && r[i].authorId == authorId
      ensures forall id :: id in notes && notes[id].authorId == authorId ==> notes[id] in r
      ensures forall i, j :: 0 <= i < j < |r| ==> r[i].createdAt > r[j].createdAt
    {
      var written := map id | id in notes && notes[id].authorId == authorId :: notes[id];
      NoteStampsOrder(written);
      var r := Listing.ByCreatedAtDesc(written, NoteCreatedAt);
      SubmapValues(notes, authorId, written, r);
      r
    }

    /** `Note.author`: the note's author; a stored note always has one. */
    function AuthorOf(note: Note): (r: Option<User>)
      reads this
      requires Valid()
      ensures r.Some? <==> note.authorId in users
      ensures r.Some? ==> r.value.id == note.authorId && r.value in users.Values
      ensures note in notes.Values ==> r.Some?
    {
      if note.authorId in users then Some(users[note.authorId]) else None
    }

    /** `Query.myNotes`: the caller's own notes, newest first; anonymous callers are UNAUTHENTICATED. */
    function MyNotes(caller: Option<User>): (r: Result<seq<Note>, Error>)
      reads this
      requires Valid()
      ensures r.Failure? <==> caller.None?
      ensures r.Failure? ==> r.error == NotLoggedIn
      ensures r.Success? ==> r.value == NotesOf(caller.value.id)
    {
      match RequireAuth(caller)
      case Failure(e) => Failure(e)
      case Success(u) => Success(NotesOf(u.id))
    }

    /** `Query.note`: existence is checked before ownership, so a missing note is NOT_FOUND even to a non-owner. */
    function NoteById(caller: Option<User>, id: NoteId): (r: Result<Note, Error>)
      reads this
      ensures caller.None? ==> r == Failure(NotLoggedIn)
      ensures caller.Some? && id !in notes ==> r == Failure(NoteNotFound)
      ensures caller.Some? && id in notes && caller.value.id != notes[id].authorId && caller.value.role != Admin ==>
        r == Failure(NotOwner)
      ensures r.Success? <==>
        caller.Some? && id in notes && (caller.value.id == notes[id].authorId || caller.value.role == Admin)
      ensures r.Success? ==> r.value == notes[id]
    {
      match RequireAuth(caller)
      case Failure(e) => Failure(e)
      case Success(_) =>
        if id !in notes then Failure(NoteNotFound)
        else
          match RequireOwnership(caller, notes[id].authorId)
          case Failure(e) => Failure(e)
          case Success(_) => Success(notes[id])
    }

    /** `Query.users`: admins only; every user, newest first. */
    function AllUsers(caller: Option<User>): (r: Result<seq<User>, Error>)
      reads this
      requires Valid()
      ensures r.Success? <==> RequireAdmin(caller).Success?
      ensures r.Failure? ==> r.error == RequireAdmin(caller).error
      ensures r.Success? ==> forall i :: 0 <= i < |r.value| ==> r.value[i] in users.Values
      ensures r.Success? ==> forall id :: id in users ==> users[id] in r.value
      ensures r.Success? ==> forall i, j :: 0 <= i < j < |r.value| ==> r.value[i].createdAt > r.value[j].createdAt
    {
      match RequireAdmin(caller)
      case Failure(e) => Failure(e)
      case Success(_) =>
        UserStampsOrder(users);
        Success(Listing.ByCreatedAtDesc(users, UserCreatedAt))
    }

    /** `Query.user`: admins only; an unknown id is NOT_FOUND. */
    function UserById(caller: Option<User>, id: UserId): (r: Result<User, Error>)
      reads this
      ensures RequireAdmin(caller).Failure? ==> r == Failure(RequireAdmin(caller).error)
      ensures RequireAdmin(caller).Success? && id !in users ==> r == Failure(UserNotFound)
      ensures r.Success? <==> RequireAdmin(caller).Success? && id in users
      ensures r.Success? ==> r.value == users[id]
    {
      match RequireAdmin(caller)
      case Failure(e) => Failure(e)
      case Success(_) => if id in users then Success(users[id]) else Failure(UserNotFound)
    }

    /** `Query.allNotes`: admins only; every note, newest first. */
    function AllNotes(caller: Option<User>): (r: Result<seq<Note>, Error>)
      reads this
      requires Valid()
      ensures r.Success? <==> RequireAdmin(caller).Success?
      ensures r.Failure? ==> r.error == RequireAdmin(caller).error
      ensures r.Success? ==> forall i :: 0 <= i < |r.value| ==> r.value[i] in notes.Values
      ensures r.Success? ==> forall id :: id in notes ==> notes[id] in r.value
      ensures r.Success? ==> forall i, j :: 0 <= i < j < |r.value| ==> r.value[i].createdAt > r.value[j].createdAt
    {
      match RequireAdmin(caller)
      case Failure(e) => Failure(e)
      case Success(_) =>
        NoteStampsOrder(notes);
        Success(Listing.ByCreatedAtDesc(notes, NoteCreatedAt))
    }

    /**
     * `Mutation.login`: an unknown email and a wrong password fail with the
     * same code and the same message; success returns a token for the user.
     */
    function Login(crypto: Crypto, input: LoginInput): (r: Result<AuthPayload, Error>)
      reads this
      requires Valid()
      ensures r.Failure? ==> r.error == BadCredentials
      ensures r.Success? <==>
        exists id :: id in users && users[id].email == input.email && crypto.comparePassword(input.password, users[id].password)
      ensures r.Success? ==>
        && r.value.user.id in users && users[r.value.user.id] == r.value.user
        && r.value.user.email == input.email
        && r.value.token == crypto.generateToken(r.value.user.id)
    {
      match FindByEmail(input.email)
      case None => Failure(BadCredentials)
      case Some(user) =>
        if !crypto.comparePassword(input.password, user.password) then Failure(BadCredentials)
        else Success(AuthPayload(crypto.generateToken(user.id), user))
    }

    // -------------------------------------------------------------------------
    // Mutations

    /**
     * `Mutation.register`: a taken email is USER_EXISTS and changes nothing;
     * otherwise exactly one user is added, with the hashed password and the
     * schema's default role, and a token for it is returned.
     */
    method Register(crypto: Crypto, input: RegisterInput) returns (r: Result<AuthPayload, Error>)
      requires Valid()
      modifies this
      ensures Valid()
      ensures r.Success? <==> !old(EmailBound(users, input.email))
      ensures r.Failure? ==> r.error == DuplicateEmail && unchanged(this)
      ensures r.Success? ==>
        && var u := r.value.user;
        && u.id !in old(users)
        && u.name == input.name && u.email == input.email && u.role == defaultRole
        && u.password == crypto.hashPassword(input.password)
        && (forall id :: id in old(users) ==> old(users)[id].createdAt < u.createdAt)
        && users == old(users)[u.id := u]
        && notes == old(notes)
        && r.value.token == crypto.generateToken(u.id)
      ensures r.Success? && Sound(crypto) ==>
        && var login := Login(crypto, LoginInput(input.email, input.password));
        && login.Success? && login.value.user == r.value.user
        && crypto.verify(login.value.token) == Some(r.value.user.id)
    {
      var existing := FindByEmail(input.email);
      if existing.Some? {
        return Failure(DuplicateEmail);
      }
      var hashed := crypto.hashPassword(input.password);
      var user := User(nextUserId, input.name, input.email, hashed, defaultRole, clock);
      users := users[user.id := user];
      nextUserId, clock := nextUserId + 1, clock + 1;
      r := Success(AuthPayload(crypto.generateToken(user.id), user));
      if Sound(crypto) {
        LoginRoundTrip(this, crypto, user.id, input.password);
      }
    }

    /**
     * `Mutation.createUserByAdmin`: admins only, checked before any lookup;
     * a taken email is USER_EXISTS; the role defaults to USER.
     */
    method CreateUserByAdmin(crypto: Crypto, caller: Option<User>, input: CreateUserInput) returns (r: Result<User, Error>)
      requires Valid()
      modifies this
      ensures Valid()
      ensures RequireAdmin(caller).Failure? ==> r == Failure(RequireAdmin(caller).error)
      ensures RequireAdmin(caller).Success? && old(EmailBound(users, input.email)) ==> r == Failure(DuplicateEmail)
      ensures r.Success? <==> RequireAdmin(caller).Success? && !old(EmailBound(users, input.email))
      ensures r.Failure? ==> unchanged(this)
      ensures r.Success? ==>
        && var u := r.value;
        && u.id !in old(users)
        && u.name == input.name && u.email == input.email
        && u.password == crypto.hashPassword(input.password)
        && u.role == input.role.GetOr(Regular)
        && (forall id :: id in old(users) ==> old(users)[id].createdAt < u.createdAt)
        && users == old(users)[u.id := u]
        && notes == old(notes)
    {
      var admin := RequireAdmin(caller);
      if admin.Failure? {
        return Failure(admin.error);
      }
      var existing := FindByEmail(input.email);
      if existing.Some? {
        return Failure(DuplicateEmail);
      }
      var hashed := crypto.hashPassword(input.password);
      var user := User(nextUserId, input.name, input.email, hashed, input.role.GetOr(Regular), clock);
      users := users[user.id := user];
      nextUserId, clock := nextUserId + 1, clock + 1;
      r := Success(user);
    }

    /**
     * `Mutation.updateUser`: updating another user needs an admin; a supplied
     * non-empty password is stored hashed; a role from a non-admin is dropped
     * without error. A null caller fails before any check (reading `id` of
     * null), and so do a missing id and an email taken by another user (the
     * database refuses the update).
     */
    method UpdateUser(crypto: Crypto, caller: Option<User>, id: UserId, input: UpdateUserInput) returns (r: Result<User, Error>)
      requires Valid()
      modifies this
      ensures Valid()
      ensures caller.None? ==> r == Failure(Internal)
      ensures caller.Some? && caller.value.id != id && caller.value.role != Admin ==> r == Failure(NotAdmin)
      ensures r.Success? <==>
        && caller.Some? && (caller.value.id == id || caller.value.role == Admin)
        && id in old(users)
        && !(input.email.Some? && old(EmailBoundElsewhere(users, input.email.value, id)))
      ensures r.Failure? ==> unchanged(this)
      ensures r.Success? ==>
        && var before := old(users[id]);
        && r.value.id == id && r.value.createdAt == before.createdAt
        && r.value.name == input.name.GetOr(before.name)
        && r.value.email == input.email.GetOr(before.email)
        && r.value.password == (match input.password
                                case None => before.password
                                case Some(p) => if p != "" then crypto.hashPassword(p) else p)
        && r.value.role == (if caller.value.role == Admin then input.role.GetOr(before.role) else before.role)
        && users == old(users)[id := r.value]
        && notes == old(notes)
    {
      if caller.None? {
        return Failure(Internal);
      }
      var user := caller.value;
      if user.id != id {
        var admin := RequireAdmin(caller);
        if admin.Failure? {
          return Failure(admin.error);
        }
      } else {
        var self := RequireAuth(caller);
        assert self.Success?;
      }

      var data := input;
      if data.password.Some? && data.password.value != "" {
        data := data.(password := Some(crypto.hashPassword(data.password.value)));
      }
      if data.role.Some? && user.role != Admin {
        data := data.(role := None);
      }

      if id !in users {
        return Failure(Internal);
      }
      if data.email.Some? && EmailBoundElsewhere(users, data.email.value, id) {
        return Failure(Internal);
      }
      var updated := Apply(users[id], data);
      users := users[id := updated];
      r := Success(updated);
    }

    /**
     * `Mutation.deleteUser`: admins only. The user's notes go with it when the
     * schema cascades; otherwise a user who still has notes cannot be deleted.
     */
    method DeleteUser(caller: Option<User>, id: UserId) returns (r: Result<bool, Error>)
      requires Valid()
      modifies this
      ensures Valid()
      ensures RequireAdmin(caller).Failure? ==> r == Failure(RequireAdmin(caller).error)
      ensures RequireAdmin(caller).Success? && id !in old(users) ==> r == Failure(Internal)
      ensures r.Success? <==>
        RequireAdmin(caller).Success? && id in old(users) && (cascadeNotes || !old(HasNotes(notes, id)))
      ensures r.Failure? ==> unchanged(this)
      ensures r.Success? ==> r.value && users == old(users) - {id} && notes == NotesWithoutAuthor(old(notes), id)
    {
      var admin := RequireAdmin(caller);
      if admin.Failure? {
        return Failure(admin.error);
      }
      if id !in users {
        return Failure(Internal);
      }
      if !cascadeNotes && HasNotes(notes, id) {
        return Failure(Internal);
      }
      users := users - {id};
      notes := NotesWithoutAuthor(notes, id);
      r := Success(true);
    }

    /** `Mutation.createNote`: the author is always the caller; exactly one note is added. */
    method CreateNote(caller: Option<User>, input: CreateNoteInput) returns (r: Result<Note, Error>)
      requires Valid()
      modifies this
      ensures Valid()
      ensures caller.None? ==> r == Failure(NotLoggedIn)
      ensures r.Success? <==> caller.Some? && caller.value.id in old(users)
      ensures r.Failure? ==> unchanged(this)
      ensures r.Success? ==>
        && var n := r.value;
        && n.id !in old(notes)
        && n.authorId == caller.value.id
        && n.title == input.title && n.description == input.description
        && (forall id :: id in old(notes) ==> old(notes)[id].createdAt < n.createdAt)
        && notes == old(notes)[n.id := n]
        && users == old(users)
    {
      var auth := RequireAuth(caller);
      if auth.Failure? {
        return Failure(auth.error);
      }
      var user := auth.value;
      if user.id !in users {
        return Failure(Internal);
      }
      var note := Note(nextNoteId, input.title, input.description, user.id, clock);
      notes := notes[note.id := note];
      nextNoteId, clock := nextNoteId + 1, clock + 1;
      r := Success(note);
    }

    /**
     * `Mutation.updateNote`: the same checks, in the same order, as the note
     * query; on success only the supplied fields of that one note change.
     */
    method UpdateNote(caller: Option<User>, id: NoteId, input: UpdateNoteInput) returns (r: Result<Note, Error>)
      requires Valid()
      modifies this
      ensures Valid()
      ensures caller.None? ==> r == Failure(NotLoggedIn)
      ensures caller.Some? && id !in old(notes) ==> r == Failure(NoteNotFound)
      ensures r.Failure? <==> old(NoteById(caller, id)).Failure?
      ensures r.Failure? ==> r.error == old(NoteById(caller, id)).error && unchanged(this)
      ensures r.Success? ==>
        && var before := old(notes[id]);
        && r.value == before.(title := input.title.GetOr(before.title),
                              description := input.description.GetOr(before.description))
        && notes == old(notes)[id := r.value]
        && users == old(users)
    {
      var auth := RequireAuth(caller);
      if auth.Failure? {
        return Failure(auth.error);
      }
      if id !in notes {
        return Failure(NoteNotFound);
      }
      var note := notes[id];
      var owner := RequireOwnership(caller, note.authorId);
      if owner.Failure? {
        return Failure(owner.error);
      }
      var updated := note.(title := input.title.GetOr(note.title),
                           description := input.description.GetOr(note.description));
      notes := notes[id := updated];
      r := Success(updated);
    }

    /**
     * `Mutation.deleteNote`: the same checks as the note query; on success
     * exactly that note is removed.
     */
    method DeleteNote(caller: Option<User>, id: NoteId) returns (r: Result<bool, Error>)
      requires Valid()
      modifies this
      ensures Valid()
      ensures caller.None? ==> r == Failure(NotLoggedIn)
      ensures caller.Some? && id !in old(notes) ==> r == Failure(NoteNotFound)
      ensures r.Failure? <==> old(NoteById(caller, id)).Failure?
      ensures r.Failure? ==> r.error == old(NoteById(caller, id)).error && unchanged(this)
      ensures r.Success? ==> r.value && notes == old(notes) - {id} && users == old(users)
    {
      var auth := RequireAuth(caller);
      if auth.Failure? {
        return Failure(auth.error);
      }
      if id !in notes {
        return Failure(NoteNotFound);
      }
      var owner := RequireOwnership(caller, notes[id].authorId);
      if owner.Failure? {
        return Failure(owner.error);
      }
      notes := notes - {id};
      r := Success(true);
    }
  }

  // ---------------------------------------------------------------------------
  // Properties across operations

  /**
   * Logging in with the password a user's hash was made from succeeds, and
   * the token returned verifies back to that user's id.
   */
  lemma LoginRoundTrip(s: Store, crypto: Crypto, id: UserId, password: string)
    requires s.Valid() && Sound(crypto)
    requires id in s.users && s.users[id].password == crypto.hashPassword(password)
    ensures s.Login(crypto, LoginInput(s.users[id].email, password))
            == Success(AuthPayload(crypto.generateToken(id), s.users[id]))
    ensures crypto.verify(s.Login(crypto, LoginInput(s.users[id].email, password)).value.token) == Some(id)
  {
  }

  /** A login token sent back as `Bearer <token>` makes later requests act as that user. */
  lemma LoginTokenIdentifiesUser(s: Store, crypto: Crypto, input: LoginInput)
    requires s.Valid() && Sound(crypto)
    requires s.Login(crypto, input).Success?
    ensures GetUser(Some(BearerPrefix + s.Login(crypto, input).value.token), crypto, s.users)
            == Some(s.Login(crypto, input).value.user)
  {
    var payload := s.Login(crypto, input).value;
    GetUserOfIssuedToken(crypto, s.users, payload.user.id);
  }

  /** Admins bypass ownership: an admin may read, update and delete every existing note. */
  lemma AdminReachesEveryNote(s: Store, caller: Option<User>, id: NoteId)
    requires caller.Some? && caller.value.role == Admin && id in s.notes
    ensures s.NoteById(caller, id) == Success(s.notes[id])
  {
  }

  /** A caller who is neither owner nor admin learns only whether the note exists: NOT_FOUND or FORBIDDEN. */
  lemma NonOwnerLearnsOnlyExistence(s: Store, caller: Option<User>, id: NoteId)
    requires caller.Some? && caller.value.role != Admin
    requires id !in s.notes || s.notes[id].authorId != caller.value.id
    ensures s.NoteById(caller, id) == if id in s.notes then Failure(NotOwner) else Failure(NoteNotFound)
  {
  }

  /**
   * A client of the store: what the contracts alone let a caller conclude
   * about a sequence of requests. Alice registers, a second registration with
   * her email is refused, she writes a note; Bob may not delete it, an admin may.
   */
  method OwnershipClient(crypto: Crypto, admin: User)
    requires admin.role == Admin
  {
    var s := new Store(Regular, true);
    var alice := s.Register(crypto, RegisterInput("Alice", "a@x.com", "pw1"));
    assert alice.Success? && alice.value.user.role == Regular;
    var again := s.Register(crypto, RegisterInput("Alice", "a@x.com", "pw2"));
    assert again == Failure(DuplicateEmail);
    var bob := s.Register(crypto, RegisterInput("Bob", "b@x.com", "pw3"));
    assert bob.Success?;
    var aliceUser, bobUser := alice.value.user, bob.value.user;
    assert aliceUser.id != bobUser.id;

    var note := s.CreateNote(Some(aliceUser), CreateNoteInput("Shopping", "milk"));
    assert note.Success? && note.value.authorId == aliceUser.id;
    var noteId := note.value.id;

    var byBob := s.DeleteNote(Some(bobUser), noteId);
    assert byBob == Failure(NotOwner);
    var byAdmin := s.DeleteNote(Some(admin), noteId);
    assert byAdmin == Success(true) && noteId !in s.notes;
  }
}
