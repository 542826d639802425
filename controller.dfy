/** UserController: the account actions over the Users and CustomerDetails
    tables, the role each action demands, and the responses it gives.
    Clock reads, the random salt and the outcome of database operations
    that can fail for reasons outside the visible code are parameters. */
module Controller {
  import opened Common
  import Text
  import opened Models
  import opened Startup
  import PasswordHasher
  import opened Store
  import Patch

  const InvalidCredentials: string := "Invalid email or password."
  const UnexpectedError: string := "An unexpected error occurred."
  const BadUserIdClaim: string := "User ID is invalid or missing in the token."
  const NullPatch: string := "Patch document is null."
  const EmailInUse: string := "Email is already in use."
  const EmailRegistered: string := "Email is already registered."
  const Registered: string := "User successfully registered!"
  const LoggedOut: string := "Logged out successfully"
  const NotAnInteger: string := "The provided ID must be an integer."
  const UserNotFound: string := "User not found."
  const DefaultPreferences: string := "Default Preferences"

  /** Response bodies. `ValidationErrors` is the serialised ModelState. */
  datatype Body =
    | Empty
    | Message(message: string)
    | StatusMessage(status: int, message: string)
    | ValidationErrors
    | UserBody(user: User)
    | UserList(users: set<User>)
    | LoginBody(id: int, email: string, role: string)
    | ProfileBody(id: int, name: string, email: string, role: string, dateCreated: int)
    | AuthStatus(authenticated: bool, roleClaim: Option<string>)

  /** The status codes the actions answer with: 200, 201 (with the id the
      Location header names), 204, 400, 401, 403, 404, 409 and 500. */
  datatype Response =
    | Ok(body: Body)
    | Created(location: int, body: Body)
    | NoContent
    | BadRequest(body: Body)
    | Unauthorized(body: Body)
    | Forbidden
    | NotFound(body: Body)
    | Conflict(body: Body)
    | ServerError(body: Body)

  /** The answer ExceptionMiddleware gives when the action throws: a
      refused save, a malformed patch path, a throwing validation attribute. */
  const Crashed: Response := ServerError(StatusMessage(500, UnexpectedError))

  /** What a response does to the browser's AuthToken cookie. */
  datatype CookieChange = KeepCookies | SetAuthToken(token: Token, expires: int) | DeleteAuthToken

  /** The claims Login puts in a token for a user. */
  function ClaimsOf(u: User): Claims {
    Claims(Some(Text.Int32ToString(u.id)), Some(u.name), Some(u.email), Some(RoleName(u.role)))
  }

  /** The user id of a session: the NameIdentifier claim, when it is present,
      not empty and an int32. */
  function ClaimedUserId(c: Claims): (r: Option<int>)
    ensures r.Some? ==> c.nameIdentifier.Some? && Text.ParseInt32(c.nameIdentifier.value) == r
    ensures c.nameIdentifier.None? ==> r.None?
  {
    if c.nameIdentifier.None? || c.nameIdentifier.value == "" then None
    else Text.ParseInt32(c.nameIdentifier.value)
  }

  /** A session built from a token Login issued names the user it was
      issued for. */
  lemma ClaimedIdOfIssued(u: User)
    requires Int32Min <= u.id <= Int32Max
    ensures ClaimedUserId(ClaimsOf(u)) == Some(u.id)
  {
    Text.Int32RoundTrip(u.id);
  }

  /** The stored credentials of a user are usable and the password
      verifies against them. */
  predicate CredentialsMatch(kdf: PasswordHasher.Argon2id, u: User, password: string) {
    && u.passwordHash != ""
    && u.salt.Some? && u.salt.value != ""
    && PasswordHasher.VerifyPassword(kdf, password, u.passwordHash, u.salt.value)
  }

  /** Jwt:Key is present and not empty. */
  predicate KeyConfigured(cfg: JwtConfig) {
    cfg.key.Some? && cfg.key.value != ""
  }

  /** The user SignUp stores. */
  function SignedUpUser(dto: UserSignUpDto, id: int, c: PasswordHasher.Credential, now: int): User {
    User(id, dto.name, dto.email, c.hash, Some(c.salt), Customer, now)
  }

  /** The user CreateUser stores: the submitted record, its plain-text
      password replaced by the credential. */
  function CreatedUser(input: UserInput, id: int, c: PasswordHasher.Credential, now: int): User {
    BindUser(input, id, now).(passwordHash := c.hash, salt := Some(c.salt))
  }

  /** The user a patch would store in place of `users[id]`; None when the
      patch is invalid or throws, or the database refuses the result. */
  function PatchedUser(users: map<int, User>, id: int, ops: seq<Patch.Operation>): (r: Option<User>)
    requires id in users
    ensures r.Some? ==> r.value.id == users[id].id
    ensures r.Some? ==> Patch.ApplyTo(Patch.ToDraft(users[id]), ops) == Patch.Patched(Patch.ToDraft(r.value))
  {
    match Patch.ApplyTo(Patch.ToDraft(users[id]), ops)
    case Patched(d) => Patch.Stored(users[id], d)
    case _ => None
  }

  /** Some user other than `id` has an address equal to `email`. */
  predicate EmailTakenByOther(users: map<int, User>, eq: EmailEq, id: int, email: string) {
    exists j :: j in users && j != id && eq(users[j].email, email)
  }

  /** The profile GetProfile returns. */
  function ProfileOf(u: User): Body {
    ProfileBody(u.id, u.name, u.email, RoleName(u.role), u.dateCreated)
  }

  /** The CustomerDetails table without the rows of one user. */
  function DetailsWithout(details: map<int, CustomerDetails>, userId: int): (r: map<int, CustomerDetails>)
    ensures forall k :: k in r <==> k in details && details[k].userId != userId
    ensures forall k :: k in r ==> r[k] == details[k]
  {
    map k | k in details && details[k].userId != userId :: details[k]
  }

  class UserController {
    var users: map<int, User>
    var details: map<int, CustomerDetails>
    var nextUserId: int
    var nextDetailsId: int
    const config: JwtConfig
    const kdf: PasswordHasher.Argon2id
    const emailEq: EmailEq
    const isEmail: EmailCheck

    ghost predicate Valid()
      reads this
    {
      && PasswordHasher.ValidArgon2id(kdf)
      && Equivalence(emailEq)
      && StoreInvariant(users, details, nextUserId, nextDetailsId, emailEq)
    }

    /** A controller over the tables of an injected database context that
        keeps every table rule (the seeded one does: Store.SeedStoreInvariant). */
    constructor (config: JwtConfig, kdf: PasswordHasher.Argon2id, emailEq: EmailEq, isEmail: EmailCheck,
                 users: map<int, User>, details: map<int, CustomerDetails>, nextUserId: int, nextDetailsId: int)
      requires PasswordHasher.ValidArgon2id(kdf) && Equivalence(emailEq)
      requires StoreInvariant(users, details, nextUserId, nextDetailsId, emailEq)
      ensures Valid()
      ensures this.config == config && this.kdf == kdf && this.emailEq == emailEq && this.isEmail == isEmail
      ensures this.users == users && this.details == details
      ensures this.nextUserId == nextUserId && this.nextDetailsId == nextDetailsId
    {
      this.config := config;
      this.kdf := kdf;
      this.emailEq := emailEq;
      this.isEmail := isEmail;
      this.users := users;
      this.details := details;
      this.nextUserId := nextUserId;
      this.nextDetailsId := nextDetailsId;
    }

    /** POST api/user/signup. The user and the details row are saved in two
        steps; `detailsSaveFails` is a failure of the second, which leaves
        the first in place. */
    method SignUp(dto: UserSignUpDto, salt: seq<byte>, now: int, detailsSaveFails: bool) returns (r: Response)
      requires Valid() && |salt| == PasswordHasher.SaltSize
      modifies this
      ensures Valid()
      ensures !ValidSignUp(dto, isEmail) ==> r == BadRequest(ValidationErrors) && unchanged(this)
      ensures ValidSignUp(dto, isEmail) && EmailTaken(old(users), emailEq, dto.email) ==>
                r == Conflict(Message(EmailRegistered)) && unchanged(this)
      ensures r.Created? <==>
                ValidSignUp(dto, isEmail) && !EmailTaken(old(users), emailEq, dto.email)
                && old(nextUserId) <= Int32Max && old(nextDetailsId) <= Int32Max && !detailsSaveFails
      ensures r.Created? ==>
                var id := old(nextUserId);
                && r == Created(id, Message(Registered))
                && users == old(users)[id := SignedUpUser(dto, id, PasswordHasher.HashPassword(kdf, dto.password, salt), now)]
                && details == old(details)[old(nextDetailsId) :=
                                           NewCustomerDetails(old(nextDetailsId), id, Some(DefaultPreferences))]
      ensures r.ServerError? ==>
                var id := old(nextUserId);
                && r == Crashed && details == old(details)
                && users == (if id <= Int32Max
                             then old(users)[id := SignedUpUser(dto, id, PasswordHasher.HashPassword(kdf, dto.password, salt), now)]
                             else old(users))
      ensures r.Created? ==> CredentialsMatch(kdf, users[old(nextUserId)], dto.password)
    {
      if !ValidSignUp(dto, isEmail) {
        return BadRequest(ValidationErrors);
      }
      if EmailTaken(users, emailEq, dto.email) {
        return Conflict(Message(EmailRegistered));
      }
      if nextUserId > Int32Max {
        return Crashed;
      }
      var id := nextUserId;
      var c := PasswordHasher.HashPassword(kdf, dto.password, salt);
      var u := SignedUpUser(dto, id, c, now);
      AddUserKeepsInvariant(users, details, nextUserId, nextDetailsId, emailEq, u);
      users := users[id := u];
      nextUserId := nextUserId + 1;
      PasswordHasher.VerifyHashed(kdf, dto.password, salt);
      if detailsSaveFails || nextDetailsId > Int32Max {
        return Crashed;
      }
      var row := NewCustomerDetails(nextDetailsId, id, Some(DefaultPreferences));
      AddDetailsKeepsInvariant(users, details, nextUserId, nextDetailsId, emailEq, row);
      details := details[nextDetailsId := row];
      nextDetailsId := nextDetailsId + 1;
      r := Created(id, Message(Registered));
    }

    /** POST api/user (admins), as evidently intended: the body is validated
        without the length attribute on Role, which as written throws for
        every body (Models.RoleLengthAlwaysThrows). The submitted
        PasswordHash is the plain-text password; the stored row holds its
        hash and salt, and the response echoes the stored row. */
    method CreateUser(input: UserInput, salt: seq<byte>, now: int) returns (r: Response)
      requires Valid() && |salt| == PasswordHasher.SaltSize
      modifies this
      ensures Valid()
      ensures details == old(details) && nextDetailsId == old(nextDetailsId)
      ensures !ValidUser(BindUser(input, 0, now), isEmail) ==> r == BadRequest(ValidationErrors) && unchanged(this)
      ensures ValidUser(BindUser(input, 0, now), isEmail) && EmailTaken(old(users), emailEq, input.email) ==>
                r == Conflict(Message(EmailInUse)) && unchanged(this)
      ensures r.Created? <==>
                ValidUser(BindUser(input, 0, now), isEmail) && !EmailTaken(old(users), emailEq, input.email)
                && old(nextUserId) <= Int32Max
      ensures r.Created? ==>
                var id := old(nextUserId);
                var u := CreatedUser(input, id, PasswordHasher.HashPassword(kdf, input.passwordHash, salt), now);
                && r == Created(id, UserBody(u))
                && users == old(users)[id := u]
                && u.role == input.role && u.name == input.name && u.email == input.email
                && CredentialsMatch(kdf, u, input.passwordHash)
      ensures !r.Created? && !r.BadRequest? && !r.Conflict? ==> r == Crashed
      ensures !r.Created? ==> unchanged(this)
    {
      if !ValidUser(BindUser(input, 0, now), isEmail) {
        return BadRequest(ValidationErrors);
      }
      if EmailTaken(users, emailEq, input.email) {
        return Conflict(Message(EmailInUse));
      }
      if nextUserId > Int32Max {
        return Crashed;
      }
      var id := nextUserId;
      var c := PasswordHasher.HashPassword(kdf, input.passwordHash, salt);
      var u := CreatedUser(input, id, c, now);
      AddUserKeepsInvariant(users, details, nextUserId, nextDetailsId, emailEq, u);
      PasswordHasher.VerifyHashed(kdf, input.passwordHash, salt);
      users := users[id := u];
      nextUserId := nextUserId + 1;
      r := Created(id, UserBody(u));
    }

    /** POST api/user/login. A blank address or password fails `[Required]`
        and gets the automatic 400 of `[ApiController]`. Every other
        rejection is the same 401 answer; the token travels only in the
        cookie, whose expiry is the token's. The key is configured: without
        it the authentication middleware fails every request before any
        action runs (see Handle), so the action's own 500 branch for a
        missing key cannot be reached. */
    method Login(login: LoginModel, now: int) returns (r: Response, cookie: CookieChange)
      requires Valid() && KeyConfigured(config)
      ensures r.Ok? || r.BadRequest? || r.Unauthorized?
      ensures r.BadRequest? <==> !Required(login.email) || !Required(login.password)
      ensures r.BadRequest? ==> r == BadRequest(ValidationErrors) && cookie == KeepCookies
      ensures r.Unauthorized? <==>
                && Required(login.email) && Required(login.password)
                && !exists i :: i in users && emailEq(users[i].email, login.email)
                                && CredentialsMatch(kdf, users[i], login.password)
      ensures r.Unauthorized? ==> r == Unauthorized(Message(InvalidCredentials)) && cookie == KeepCookies
      ensures r.Ok? ==>
                exists i :: i in users && emailEq(users[i].email, login.email)
                  && CredentialsMatch(kdf, users[i], login.password)
                  && r == Ok(LoginBody(i, users[i].email, RoleName(users[i].role)))
                  && Issue(config, ClaimsOf(users[i]), now).Some?
                  && cookie == SetAuthToken(Issue(config, ClaimsOf(users[i]), now).value, now + TokenLifetime)
      ensures cookie.SetAuthToken? ==> cookie.token.expires == Some(cookie.expires)
    {
      cookie := KeepCookies;
      if !Required(login.email) || !Required(login.password) {
        return BadRequest(ValidationErrors), cookie;
      }
      if !exists i :: i in users && emailEq(users[i].email, login.email) {
        return Unauthorized(Message(InvalidCredentials)), cookie;
      }
      var i :| i in users && emailEq(users[i].email, login.email);
      forall j | j in users && emailEq(users[j].email, login.email)
        ensures j == i
      {
        AtMostOneMatch(users, emailEq, login.email, i, j);
      }
      var u := users[i];
      if u.passwordHash == "" || u.salt.None? || u.salt.value == "" {
        return Unauthorized(Message(InvalidCredentials)), cookie;
      }
      if !PasswordHasher.VerifyPassword(kdf, login.password, u.passwordHash, u.salt.value) {
        return Unauthorized(Message(InvalidCredentials)), cookie;
      }
      var token := Issue(config, ClaimsOf(u), now).value;
      cookie := SetAuthToken(token, now + TokenLifetime);
      r := Ok(LoginBody(u.id, u.email, RoleName(u.role)));
    }

    /** The patch-and-save step PatchUser and UpdateCustomerProfile share:
        an operation that throws gives 500 from ExceptionMiddleware, logged
        patch errors 400, a row the database refuses 500, and an address
        another user has 409; otherwise the row is saved and the answer is
        204. */
    method ApplyAndSave(id: int, ops: seq<Patch.Operation>) returns (r: Response)
      requires Valid() && id in users
      modifies this
      ensures Valid()
      ensures details == old(details) && nextUserId == old(nextUserId) && nextDetailsId == old(nextDetailsId)
      ensures Patch.ApplyTo(Patch.ToDraft(old(users)[id]), ops).Thrown? ==> r == Crashed
      ensures Patch.ApplyTo(Patch.ToDraft(old(users)[id]), ops).Invalid? ==> r == BadRequest(ValidationErrors)
      ensures Patch.ApplyTo(Patch.ToDraft(old(users)[id]), ops).Patched? && PatchedUser(old(users), id, ops).None? ==>
                r == Crashed
      ensures PatchedUser(old(users), id, ops).Some?
              && EmailTakenByOther(old(users), emailEq, id, PatchedUser(old(users), id, ops).value.email) ==>
                r == Conflict(Message(EmailInUse))
      ensures r.NoContent? <==>
                PatchedUser(old(users), id, ops).Some?
                && !EmailTakenByOther(old(users), emailEq, id, PatchedUser(old(users), id, ops).value.email)
      ensures r.NoContent? ==> users == old(users)[id := PatchedUser(old(users), id, ops).value]
      ensures !r.NoContent? ==> unchanged(this)
    {
      var outcome := Patch.ApplyTo(Patch.ToDraft(users[id]), ops);
      if outcome.Thrown? {
        return Crashed;
      }
      if outcome.Invalid? {
        return BadRequest(ValidationErrors);
      }
      var stored := Patch.Stored(users[id], outcome.draft);
      if stored.None? {
        return Crashed;
      }
      var u := stored.value;
      if exists j :: j in users && j != id && emailEq(users[j].email, u.email) {
        return Conflict(Message(EmailInUse));
      }
      ReplaceUserKeepsInvariant(users, details, nextUserId, nextDetailsId, emailEq, u);
      users := users[id := u];
      r := NoContent;
    }

    /** PATCH api/user/{id} (admins), with the address check the evidently
        intended behaviour needs. */
    method PatchUser(id: int, doc: Option<seq<Patch.Operation>>) returns (r: Response)
      requires Valid()
      modifies this
      ensures Valid()
      ensures details == old(details) && nextUserId == old(nextUserId) && nextDetailsId == old(nextDetailsId)
      ensures doc.None? ==> r == BadRequest(Message(NullPatch))
      ensures doc.Some? && id !in old(users) ==>
                r == NotFound(Message("User with ID " + Text.Int32ToString(id) + " not found."))
      ensures doc.Some? && id in old(users) ==>
                (r.NoContent? <==>
                   PatchedUser(old(users), id, doc.value).Some?
                   && !EmailTakenByOther(old(users), emailEq, id, PatchedUser(old(users), id, doc.value).value.email))
      ensures r.NoContent? ==>
                (doc.Some? && id in old(users)
                 && users == old(users)[id := PatchedUser(old(users), id, doc.value).value])
      ensures !r.NoContent? ==> unchanged(this)
    {
      if doc.None? {
        return BadRequest(Message(NullPatch));
      }
      if id !in users {
        return NotFound(Message("User with ID " + Text.Int32ToString(id) + " not found."));
      }
      r := ApplyAndSave(id, doc.value);
    }

    /** PATCH api/user/self (customers), as evidently intended: the
        session's own row, with every operation that writes a sensitive
        field removed first, and the address check of ApplyAndSave. No
        stored user's PasswordHash, Salt, Role or DateCreated changes. */
    method UpdateCustomerProfile(session: Claims, doc: Option<seq<Patch.Operation>>) returns (r: Response)
      requires Valid()
      modifies this
      ensures Valid()
      ensures details == old(details) && nextUserId == old(nextUserId) && nextDetailsId == old(nextDetailsId)
      ensures doc.None? ==> r == BadRequest(Message(NullPatch))
      ensures doc.Some? && ClaimedUserId(session).None? ==> r == Unauthorized(Message(BadUserIdClaim))
      ensures doc.Some? && ClaimedUserId(session).Some? && ClaimedUserId(session).value !in old(users) ==>
                r == NotFound(Message(UserNotFound))
      ensures r.NoContent? <==>
                && doc.Some? && ClaimedUserId(session).Some? && ClaimedUserId(session).value in old(users)
                && var id := ClaimedUserId(session).value;
                   && PatchedUser(old(users), id, Patch.RemoveSensitive(doc.value)).Some?
                   && !EmailTakenByOther(old(users), emailEq, id,
                                         PatchedUser(old(users), id, Patch.RemoveSensitive(doc.value)).value.email)
      ensures r.NoContent? ==>
                && doc.Some? && ClaimedUserId(session).Some? && ClaimedUserId(session).value in old(users)
                && var id := ClaimedUserId(session).value;
                   && PatchedUser(old(users), id, Patch.RemoveSensitive(doc.value)).Some?
                   && users == old(users)[id := PatchedUser(old(users), id, Patch.RemoveSensitive(doc.value)).value]
      ensures !r.NoContent? ==> unchanged(this)
      ensures users.Keys == old(users).Keys
      ensures forall i :: i in users ==>
                && users[i].passwordHash == old(users)[i].passwordHash
                && users[i].salt == old(users)[i].salt
                && users[i].role == old(users)[i].role
                && users[i].dateCreated == old(users)[i].dateCreated
    {
      if doc.None? {
        return BadRequest(Message(NullPatch));
      }
      var claimed := ClaimedUserId(session);
      if claimed.None? {
        return Unauthorized(Message(BadUserIdClaim));
      }
      var id := claimed.value;
      if id !in users {
        return NotFound(Message(UserNotFound));
      }
      var ops := Patch.RemoveSensitive(doc.value);
      if Patch.ApplyTo(Patch.ToDraft(users[id]), ops).Patched? {
        Patch.SelfPatchKeepsProtected(users[id], doc.value);
      }
      r := ApplyAndSave(id, ops);
    }

    /** DELETE api/user/{id} (admins). The id arrives as text. Whether the
        database deletes the user's details row with it or refuses is
        `cascade`. The link is a required one (a non-nullable foreign key),
        so the configured database cascades: `cascade` is true. */
    method DeleteUser(id: string, cascade: bool) returns (r: Response)
      requires Valid()
      modifies this
      ensures Valid()
      ensures nextUserId == old(nextUserId) && nextDetailsId == old(nextDetailsId)
      ensures Text.ParseInt32(id).None? ==> r == BadRequest(Message(NotAnInteger))
      ensures Text.ParseInt32(id).Some? && Text.ParseInt32(id).value !in old(users) ==> r == NotFound(Empty)
      ensures r.NoContent? <==>
                Text.ParseInt32(id).Some? && Text.ParseInt32(id).value in old(users)
                && (cascade || !HasDetails(old(details), Text.ParseInt32(id).value))
      ensures !r.NoContent? && Text.ParseInt32(id).Some? && Text.ParseInt32(id).value in old(users) ==>
                r == Crashed
      ensures r.NoContent? ==>
                var key := Text.ParseInt32(id).value;
                && users == old(users) - {key}
                && |users| == |old(users)| - 1
                && details == DetailsWithout(old(details), key)
                && (!HasDetails(old(details), key) ==> details == old(details))
      ensures !r.NoContent? ==> unchanged(this)
    {
      var parsed := Text.ParseInt32(id);
      if parsed.None? {
        return BadRequest(Message(NotAnInteger));
      }
      var key := parsed.value;
      if key !in users {
        return NotFound(Empty);
      }
      if HasDetails(details, key) && !cascade {
        return Crashed;
      }
      var remaining := DetailsWithout(details, key);
      if !HasDetails(details, key) {
        assert forall k :: k in remaining <==> k in details;
        assert remaining == details;
      }
      RemoveUserKeepsInvariant(users, details, nextUserId, nextDetailsId, emailEq, key, remaining);
      assert users.Keys == (users - {key}).Keys + {key};
      users := users - {key};
      details := remaining;
      r := NoContent;
    }

    /** GET api/user/{id} (admins): the stored row, password hash and salt
        included. */
    method GetUserById(id: int) returns (r: Response)
      requires Valid()
      ensures id in users ==> r == Ok(UserBody(users[id]))
      ensures id !in users ==> r == NotFound(StatusMessage(404, "User with ID " + Text.Int32ToString(id) + " not found."))
      ensures r.Ok? ==> r.body.user.id == id
    {
      if id in users {
        r := Ok(UserBody(users[id]));
      } else {
        r := NotFound(StatusMessage(404, "User with ID " + Text.Int32ToString(id) + " not found."));
      }
    }

    /** GET api/user (admins): every stored row. */
    method GetUsers() returns (r: Response)
      requires Valid()
      ensures r.Ok? && r.body.UserList?
      ensures forall i :: i in users ==> users[i] in r.body.users
      ensures forall u :: u in r.body.users ==> u.id in users && users[u.id] == u
    {
      r := Ok(UserList(set i | i in users :: users[i]));
    }

    /** GET api/user/profile (any session). A session from a token Login
        issued for a stored user gets that user's current profile. */
    method GetProfile(session: Claims) returns (r: Response)
      requires Valid()
      ensures ClaimedUserId(session).None? ==> r == Unauthorized(Message(BadUserIdClaim))
      ensures ClaimedUserId(session).Some? && ClaimedUserId(session).value !in users ==>
                r == NotFound(Message(UserNotFound))
      ensures ClaimedUserId(session).Some? && ClaimedUserId(session).value in users ==>
                r == Ok(ProfileOf(users[ClaimedUserId(session).value]))
      ensures forall i :: i in users && session == ClaimsOf(users[i]) ==> r == Ok(ProfileOf(users[i]))
    {
      forall i | i in users && session == ClaimsOf(users[i])
        ensures ClaimedUserId(session) == Some(i)
      {
        ClaimedIdOfIssued(users[i]);
      }
      var claimed := ClaimedUserId(session);
      if claimed.None? {
        r := Unauthorized(Message(BadUserIdClaim));
      } else if claimed.value !in users {
        r := NotFound(Message(UserNotFound));
      } else {
        r := Ok(ProfileOf(users[claimed.value]));
      }
    }
  }

  // ---------------------------------------------------------------------
  // Sessions: the cookie Login sets, Logout deletes and CheckAuth reports
  // ---------------------------------------------------------------------

  /** The browser's cookies after a response. */
  function ApplyCookie(cookies: map<string, Token>, change: CookieChange): map<string, Token> {
    match change
    case KeepCookies => cookies
    case SetAuthToken(t, _) => cookies[AuthCookie := t]
    case DeleteAuthToken => cookies - {AuthCookie}
  }

  /** POST api/user/logout (any session): the AuthToken cookie is deleted,
      after which no request is authenticated until the next login. */
  function Logout(): (reply: (Response, CookieChange))
    ensures reply.0 == Ok(Message(LoggedOut))
    ensures forall cfg, cookies, now :: Authenticate(cfg, ApplyCookie(cookies, reply.1), now).None?
  {
    (Ok(Message(LoggedOut)), DeleteAuthToken)
  }

  /** GET api/user/check-auth (no attribute): 401 without a session, else
      200 with the role claim. */
  function CheckAuth(session: Option<Claims>): (r: Response)
    ensures r.Ok? <==> session.Some?
    ensures r.Ok? || r.Unauthorized?
    ensures r.body.AuthStatus? && r.body.authenticated == session.Some?
    ensures r.Unauthorized? ==> r.body.roleClaim.None?
    ensures r.Ok? ==> r.body.roleClaim == session.value.role
  {
    if session.None? then Unauthorized(AuthStatus(false, None))
    else Ok(AuthStatus(true, session.value.role))
  }

  /** The cookie of a successful login authenticates the user's claims
      until the token expires; CheckAuth then reports the stored role. */
  lemma LoginSessionLasts(cfg: JwtConfig, u: User, cookies: map<string, Token>, now: int, later: int)
    requires Configured(cfg)
    requires now <= later <= now + TokenLifetime
    ensures Issue(cfg, ClaimsOf(u), now).Some?
    ensures var jar := ApplyCookie(cookies, SetAuthToken(Issue(cfg, ClaimsOf(u), now).value, now + TokenLifetime));
            && Authenticate(cfg, jar, later) == Some(ClaimsOf(u))
            && CheckAuth(Authenticate(cfg, jar, later)) == Ok(AuthStatus(true, Some(RoleName(u.role))))
  {
    LoginCookieAuthenticates(cfg, ClaimsOf(u), now, later, cookies);
  }

  // ---------------------------------------------------------------------
  // The role gate
  // ---------------------------------------------------------------------

  /** One request to the controller, with what it binds. */
  datatype Request =
    | GetUsersRequest
    | GetUserByIdRequest(id: int)
    | CreateUserRequest(input: UserInput)
    | DeleteUserRequest(rawId: string)
    | LoginRequest(login: LoginModel)
    | LogoutRequest
    | PatchUserRequest(userId: int, doc: Option<seq<Patch.Operation>>)
    | UpdateProfileRequest(doc: Option<seq<Patch.Operation>>)
    | SignUpRequest(dto: UserSignUpDto)
    | GetProfileRequest
    | CheckAuthRequest

  /** `[AllowAnonymous]`, no attribute, `[Authorize]` and
      `[Authorize(Roles = ...)]`. */
  datatype Policy = Anonymous | NoAttribute | AnyAuthenticated | InRoles(roles: set<string>)

  /** The attribute on each action: the administrator actions and the
      self-patch name one role each, and only Login and SignUp are open to
      anonymous callers. */
  function PolicyOf(req: Request): (p: Policy)
    ensures p.InRoles? ==> p.roles == {"Admin"} || p.roles == {"Customer"}
    ensures p == InRoles({"Customer"}) <==> req.UpdateProfileRequest?
    ensures p == Anonymous <==> req.LoginRequest? || req.SignUpRequest?
  {
    match req
    case GetUsersRequest => InRoles({"Admin"})
    case GetUserByIdRequest(_) => InRoles({"Admin"})
    case CreateUserRequest(_) => InRoles({"Admin"})
    case DeleteUserRequest(_) => InRoles({"Admin"})
    case PatchUserRequest(_, _) => InRoles({"Admin"})
    case UpdateProfileRequest(_) => InRoles({"Customer"})
    case LogoutRequest => AnyAuthenticated
    case GetProfileRequest => AnyAuthenticated
    case LoginRequest(_) => Anonymous
    case SignUpRequest(_) => Anonymous
    case CheckAuthRequest => NoAttribute
  }

  datatype Decision = Proceed | Challenge | Forbid

  /** The authorization step before the action: a policy that needs a
      session challenges (401) without one, and a role policy forbids (403)
      a session whose role claim is not listed. */
  function Gate(p: Policy, session: Option<Claims>): (d: Decision)
    ensures session.None? ==> d != Forbid
    ensures d == Forbid ==> p.InRoles?
    ensures p == Anonymous || p == NoAttribute ==> d == Proceed
  {
    match p
    case Anonymous => Proceed
    case NoAttribute => Proceed
    case AnyAuthenticated => if session.None? then Challenge else Proceed
    case InRoles(roles) =>
      if session.None? then Challenge
      else if session.value.role.Some? && session.value.role.value in roles then Proceed
      else Forbid
  }

  /** The actions only an administrator reaches. */
  predicate AdminAction(req: Request) {
    req.GetUsersRequest? || req.GetUserByIdRequest? || req.CreateUserRequest?
    || req.DeleteUserRequest? || req.PatchUserRequest?
  }

  /** Admin actions run exactly for sessions whose role claim is "Admin";
      the self-patch exactly for "Customer"; Logout and GetProfile for any
      session; Login, SignUp and CheckAuth for every request. */
  lemma GateTable(req: Request, session: Option<Claims>)
    ensures AdminAction(req) ==>
              (Gate(PolicyOf(req), session) == Proceed <==> session.Some? && session.value.role == Some("Admin"))
    ensures req.UpdateProfileRequest? ==>
              (Gate(PolicyOf(req), session) == Proceed <==> session.Some? && session.value.role == Some("Customer"))
    ensures req.LogoutRequest? || req.GetProfileRequest? ==>
              (Gate(PolicyOf(req), session) == Proceed <==> session.Some?)
    ensures req.LoginRequest? || req.SignUpRequest? || req.CheckAuthRequest? ==>
              Gate(PolicyOf(req), session) == Proceed
    ensures session.None? && !(req.LoginRequest? || req.SignUpRequest? || req.CheckAuthRequest?) ==>
              Gate(PolicyOf(req), session) == Challenge
  {
  }

  /** A session from a login token: an admin reaches the admin actions and
      not the self-patch, a customer the reverse; neither is challenged. */
  lemma GateForUser(req: Request, u: User)
    ensures Gate(PolicyOf(req), Some(ClaimsOf(u))) != Challenge
    ensures AdminAction(req) ==> (Gate(PolicyOf(req), Some(ClaimsOf(u))) == Proceed <==> u.role == Admin)
    ensures req.UpdateProfileRequest? ==> (Gate(PolicyOf(req), Some(ClaimsOf(u))) == Proceed <==> u.role == Customer)
  {
    GateTable(req, Some(ClaimsOf(u)));
  }

  /** Requests whose action only reads the tables. */
  predicate ReadOnly(req: Request) {
    req.GetUsersRequest? || req.GetUserByIdRequest? || req.LoginRequest? || req.LogoutRequest?
    || req.GetProfileRequest? || req.CheckAuthRequest?
  }

  /** The action of a read-only request that passed the gate. */
  method RunReadOnly(c: UserController, req: Request, session: Option<Claims>, now: int)
    returns (r: Response, cookie: CookieChange)
    requires c.Valid() && KeyConfigured(c.config) && ReadOnly(req)
    requires req.GetProfileRequest? ==> session.Some?
    ensures unchanged(c)
    ensures !req.LoginRequest? && !req.LogoutRequest? ==> cookie == KeepCookies
    ensures req.LogoutRequest? ==> r == Ok(Message(LoggedOut)) && cookie == DeleteAuthToken
    ensures req.CheckAuthRequest? ==> r == CheckAuth(session)
    ensures req.GetUserByIdRequest? && req.id in c.users ==> r == Ok(UserBody(c.users[req.id]))
    ensures req.LoginRequest? && r.Ok? ==> cookie.SetAuthToken?
  {
    cookie := KeepCookies;
    match req
    case GetUsersRequest =>
      r := c.GetUsers();
    case GetUserByIdRequest(id) =>
      r := c.GetUserById(id);
    case LoginRequest(login) =>
      r, cookie := c.Login(login, now);
    case LogoutRequest =>
      r, cookie := Logout().0, Logout().1;
    case GetProfileRequest =>
      r := c.GetProfile(session.value);
    case CheckAuthRequest =>
      r := CheckAuth(session);
  }

  /** The action of a request that may change the tables and passed the
      gate. Only SignUp and DeleteUser touch the details table, and the
      self-patch changes no protected field. */
  method RunWriting(c: UserController, req: Request, session: Option<Claims>, now: int,
                    salt: seq<byte>, detailsSaveFails: bool, cascade: bool)
    returns (r: Response)
    requires c.Valid() && !ReadOnly(req) && |salt| == PasswordHasher.SaltSize
    requires req.UpdateProfileRequest? ==> session.Some?
    modifies c
    ensures c.Valid()
    ensures !req.SignUpRequest? && !req.DeleteUserRequest? ==> c.details == old(c.details)
    ensures req.UpdateProfileRequest? ==>
              c.users.Keys == old(c.users).Keys
              && forall i :: i in c.users ==>
                   && c.users[i].passwordHash == old(c.users)[i].passwordHash
                   && c.users[i].salt == old(c.users)[i].salt
                   && c.users[i].role == old(c.users)[i].role
                   && c.users[i].dateCreated == old(c.users)[i].dateCreated
  {
    match req
    case CreateUserRequest(input) =>
      r := c.CreateUser(input, salt, now);
    case DeleteUserRequest(rawId) =>
      r := c.DeleteUser(rawId, cascade);
    case PatchUserRequest(userId, doc) =>
      r := c.PatchUser(userId, doc);
    case UpdateProfileRequest(doc) =>
      r := c.UpdateCustomerProfile(session.value, doc);
    case SignUpRequest(dto) =>
      r := c.SignUp(dto, salt, now, detailsSaveFails);
  }

  /** One request end to end. The authentication middleware builds its
      options from Jwt:Key on every request and throws when the key is
      missing or empty: the request then fails with 500 before any
      action. Otherwise: authenticate from the cookie, apply the gate, then
      run the action. */
  method Handle(c: UserController, req: Request, cookies: map<string, Token>, now: int,
                salt: seq<byte>, detailsSaveFails: bool, cascade: bool)
    returns (r: Response, cookie: CookieChange)
    requires c.Valid() && |salt| == PasswordHasher.SaltSize
    modifies c
    ensures c.Valid()
    ensures !KeyConfigured(c.config) ==> r == ServerError(Empty) && cookie == KeepCookies && unchanged(c)
    ensures KeyConfigured(c.config) ==>
              var d := Gate(PolicyOf(req), Authenticate(c.config, cookies, now));
              && (d == Challenge ==> r == Unauthorized(Empty) && cookie == KeepCookies && unchanged(c))
              && (d == Forbid ==> r == Forbidden && cookie == KeepCookies && unchanged(c))
    ensures ReadOnly(req) ==> unchanged(c)
    ensures !req.LoginRequest? && !req.LogoutRequest? ==> cookie == KeepCookies
  {
    cookie := KeepCookies;
    if !KeyConfigured(c.config) {
      return ServerError(Empty), cookie;
    }
    var session := Authenticate(c.config, cookies, now);
    var d := Gate(PolicyOf(req), session);
    if d == Challenge {
      return Unauthorized(Empty), cookie;
    }
    if d == Forbid {
      return Forbidden, cookie;
    }
    if ReadOnly(req) {
      r, cookie := RunReadOnly(c, req, session, now);
    } else {
      r := RunWriting(c, req, session, now, salt, detailsSaveFails, cascade);
    }
  }

  // ---------------------------------------------------------------------
  // PatchUser as written
  // ---------------------------------------------------------------------

  /** PatchUser as written: the patched row is saved with no check of its
      address against the other users. The Users table after the call. */
  function PatchUserAsWritten(users: map<int, User>, id: int, ops: seq<Patch.Operation>): (r: map<int, User>)
    requires id in users
    ensures r.Keys == users.Keys
    ensures forall i :: i in users && i != id ==> r[i] == users[i]
  {
    match PatchedUser(users, id, ops)
    case None => users
    case Some(u) => users[id := u]
  }

  /** An administrator replacing the customer's address with the admin's
      leaves two users with the same address, under any collation. */
  lemma PatchUserAsWrittenDuplicatesEmail(eq: EmailEq)
    requires Equivalence(eq)
    ensures var users := map[1 := User(1, "Admin User", AdminEmail, "aGFzaA==", None, Admin, 0),
                             2 := User(2, "Customer User", CustomerEmail, "aGFzaA==", None, Customer, 0)];
            var ops := [Patch.Operation(Patch.Replace, "/email", "", Patch.Str(AdminEmail))];
            && PatchUserAsWritten(users, 2, ops)[2].email == AdminEmail
            && !EmailsUnique(PatchUserAsWritten(users, 2, ops), eq)
  {
    var u2 := User(2, "Customer User", CustomerEmail, "aGFzaA==", None, Customer, 0);
    var users := map[1 := User(1, "Admin User", AdminEmail, "aGFzaA==", None, Admin, 0), 2 := u2];
    var o := Patch.Operation(Patch.Replace, "/email", "", Patch.Str(AdminEmail));
    Patch.ReplaceEmailApplies(Patch.ToDraft(u2), "", AdminEmail);
    var r := PatchUserAsWritten(users, 2, [o]);
    assert r[1].email == r[2].email;
    assert eq(r[1].email, r[2].email);
  }

  // ---------------------------------------------------------------------
  // UpdateCustomerProfile as written
  // ---------------------------------------------------------------------

  /** UpdateCustomerProfile as written: the filter compares raw paths, and
      the patched row is saved with no check of its address. The Users
      table after the call. */
  function UpdateCustomerProfileAsWritten(users: map<int, User>, id: int, ops: seq<Patch.Operation>): (r: map<int, User>)
    requires id in users
    ensures r.Keys == users.Keys
    ensures forall i :: i in users && i != id ==> r[i] == users[i]
  {
    PatchUserAsWritten(users, id, Patch.RemoveSensitivePaths(ops))
  }

  /** A customer replacing their own address with the admin's leaves two
      users with the same address, under any collation. */
  lemma SelfPatchAsWrittenDuplicatesEmail(eq: EmailEq)
    requires Equivalence(eq)
    ensures var users := map[1 := User(1, "Admin User", AdminEmail, "aGFzaA==", None, Admin, 0),
                             2 := User(2, "Customer User", CustomerEmail, "aGFzaA==", None, Customer, 0)];
            var ops := [Patch.Operation(Patch.Replace, "/email", "", Patch.Str(AdminEmail))];
            && UpdateCustomerProfileAsWritten(users, 2, ops)[2].email == AdminEmail
            && !EmailsUnique(UpdateCustomerProfileAsWritten(users, 2, ops), eq)
  {
    var o := Patch.Operation(Patch.Replace, "/email", "", Patch.Str(AdminEmail));
    assert !Patch.IsSensitivePath(o.path);
    assert Patch.RemoveSensitivePaths([o]) == [o];
    PatchUserAsWrittenDuplicatesEmail(eq);
  }
}
