/** `/api/auth`: registration and login. Both answer with the account's id,
    name, email, role name and a freshly issued token. The password hasher is
    opaque: `hash` stands for `HashPassword` and `verify` for
    `VerifyHashedPassword`; the clock is the parameter `now` (minutes). */
module AuthController {
  import opened Wrappers
  import opened Text
  import opened Http
  import opened Identity
  import opened Persistence
  import opened Queries

  datatype RegisterDto = RegisterDto(name: Option<string>, email: Option<string>, password: Option<string>)
  datatype LoginDto = LoginDto(email: Option<string>, password: Option<string>)

  /** The response body; `token` is the claim set the signed token carries. */
  datatype AuthResponse = AuthResponse(id: int, name: string, email: string, role: string, token: TokenClaims)

  /** `PasswordVerificationResult`. */
  datatype VerifyResult = Failed | Succeeded | SuccessRehashNeeded

  const DefaultRole: string := "User"
  const TokenLifetimeMinutes: int := 30
  const MinPasswordLength: nat := 6

  const MsgRegisterFields: string := "Unesite ime, email i lozinku."
  const MsgShortPassword: string := "Lozinka mora imati najmanje 6 znakova."
  const MsgEmailTaken: string := "Email je već registrovan."
  const MsgLoginFields: string := "Unesite email i lozinku."
  const MsgBadCredentials: string := "Pogrešan email ili lozinka."
  const MsgNoPassword: string := "Korisnik nema postavljenu lozinku."

  /** `Trim().ToLowerInvariant()`: the form in which emails are stored and looked up. */
  function NormalizeEmail(e: string): (n: string)
    ensures n == [] <==> IsBlank(e)
  {
    ToLower(Trim(e))
  }

  lemma LowerKeepsEnds(t: string)
    requires t == [] || (!IsWhite(t[0]) && !IsWhite(t[|t| - 1]))
    ensures ToLower(t) == [] || (!IsWhite(ToLower(t)[0]) && !IsWhite(ToLower(t)[|t| - 1]))
  {
  }

  lemma ToLowerIdempotent(s: string)
    ensures ToLower(ToLower(s)) == ToLower(s)
  {
  }

  /** Normalizing twice changes nothing. */
  lemma NormalizeEmailIdempotent(e: string)
    ensures NormalizeEmail(NormalizeEmail(e)) == NormalizeEmail(e)
  {
    var t := Trim(e);
    var n := ToLower(t);
    LowerKeepsEnds(t);
    TrimOfTrimmed(n);
    ToLowerIdempotent(t);
  }

  /** A string blank after trimming was blank before. */
  lemma TrimmedBlank(s: string)
    ensures IsBlank(Trim(s)) <==> IsBlank(s)
  {
    var t := Trim(s);
    if t != [] {
      assert !IsWhite(t[0]);
    }
  }

  /** `s?.Trim()`. */
  function TrimOpt(s: Option<string>): (r: Option<string>)
    ensures IsNullOrWhiteSpace(r) <==> IsNullOrWhiteSpace(s)
  {
    match s
    case None => None
    case Some(v) => TrimmedBlank(v); Some(Trim(v))
  }

  // ---------------------------------------------------------------- roles and claims

  /** `RoleName(roleId)`: the name of the first role with that id, or "User"
      when there is none (or its name is unset). */
  function RoleName(roles: seq<Role>, roleId: Option<int>): (name: string)
    ensures (forall i :: 0 <= i < |roles| ==> Some(roles[i].roleId) != roleId) ==> name == DefaultRole
    ensures forall i :: (0 <= i < |roles| && Some(roles[i].roleId) == roleId && roles[i].roleName.Some? &&
      (forall k :: 0 <= k < i ==> Some(roles[k].roleId) != roleId)) ==> name == roles[i].roleName.value
  {
    if roles == [] then DefaultRole
    else if Some(roles[0].roleId) == roleId then roles[0].roleName.GetOr(DefaultRole)
    else RoleName(roles[1..], roleId)
  }

  /** The id of the first role named "User", if any: the role of a new account. */
  function DefaultRoleId(roles: seq<Role>): (id: Option<int>)
    ensures id.None? ==> forall i :: 0 <= i < |roles| ==> roles[i].roleName != Some(DefaultRole)
    ensures id.Some? ==> exists i :: 0 <= i < |roles| && roles[i].roleName == Some(DefaultRole) && roles[i].roleId == id.value
  {
    if roles == [] then None
    else if roles[0].roleName == Some(DefaultRole) then Some(roles[0].roleId)
    else
      var rest := DefaultRoleId(roles[1..]);
      assert rest.Some? ==> exists i :: 1 <= i < |roles| && roles[i].roleName == Some(DefaultRole) && roles[i].roleId == rest.value by {
        if rest.Some? {
          var j :| 0 <= j < |roles[1..]| && roles[1..][j].roleName == Some(DefaultRole) && roles[1..][j].roleId == rest.value;
          assert roles[j + 1] == roles[1..][j];
        }
      }
      rest
  }

  /** The claims `GenerateJwt` puts into a token for `user`, issued at `now`. */
  function IssueClaims(user: User, roles: seq<Role>, now: int): (c: TokenClaims)
    ensures c.sub == c.nameIdentifier == IntToString(user.userId)
    ensures c.role == RoleName(roles, user.roleId)
    ensures user.email.Some? ==> c.email == user.email.value
    ensures user.email.None? ==> c.email == ""
    ensures user.fullName.Some? ==> c.fullName == user.fullName.value
    ensures user.fullName.None? ==> c.fullName == ""
    ensures c.expires == now + TokenLifetimeMinutes
  {
    var id := IntToString(user.userId);
    TokenClaims(id, id, RoleName(roles, user.roleId), user.email.GetOr(""), user.fullName.GetOr(""), now + TokenLifetimeMinutes)
  }

  /** A request carrying a token issued for `user` is recognised as that user
      by every controller that reads the name-identifier claim. */
  lemma IssuedTokenIdentifiesUser(user: User, roles: seq<Role>, now: int)
    requires IsInt32(user.userId)
    ensures UserIdOf(PrincipalOf(IssueClaims(user, roles, now))) == Some(user.userId)
  {
    ParseInt32OfIntToString(user.userId);
  }

  /** The success body for `user`. */
  function ResponseFor(user: User, roles: seq<Role>, now: int): (r: AuthResponse)
    ensures r.id == user.userId && r.role == RoleName(roles, user.roleId)
    ensures r.token == IssueClaims(user, roles, now)
    ensures r.name == r.token.fullName && r.email == r.token.email
  {
    AuthResponse(user.userId, user.fullName.GetOr(""), user.email.GetOr(""), RoleName(roles, user.roleId), IssueClaims(user, roles, now))
  }

  // ---------------------------------------------------------------- register

  predicate RegisterFieldsMissing(dto: RegisterDto) {
    IsNullOrWhiteSpace(dto.name) || IsNullOrWhiteSpace(dto.email) || IsNullOrWhiteSpace(dto.password)
  }

  predicate EmailTaken(users: seq<User>, email: string) {
    exists i :: 0 <= i < |users| && users[i].email == Some(email)
  }

  /** The account `Register` stores (before the table assigns its id). */
  function NewUser(dto: RegisterDto, roles: seq<Role>, hash: string -> string): (u: User)
    requires !RegisterFieldsMissing(dto)
    ensures u.fullName == Some(Trim(dto.name.value))
    ensures u.email == Some(NormalizeEmail(dto.email.value))
    ensures u.passwordHash == Some(hash(dto.password.value))
    ensures u.roleId == DefaultRoleId(roles)
  {
    User(0, TrimOpt(dto.name), Some(ToLower(TrimOpt(dto.email).value)), Some(hash(dto.password.value)), DefaultRoleId(roles))
  }

  /** `POST /api/auth/register`. */
  method Register(db: UserTable, roles: seq<Role>, dto: RegisterDto, hash: string -> string, now: int)
    returns (reply: Reply<AuthResponse>)
    requires db.Valid()
    modifies db
    ensures db.Valid()
    ensures RegisterFieldsMissing(dto) ==>
      reply == Failure(BadRequest, MsgRegisterFields) && db.rows == old(db.rows)
    ensures !RegisterFieldsMissing(dto) && |dto.password.value| < MinPasswordLength ==>
      reply == Failure(BadRequest, MsgShortPassword) && db.rows == old(db.rows)
    ensures (!RegisterFieldsMissing(dto) && |dto.password.value| >= MinPasswordLength &&
      EmailTaken(old(db.rows), NormalizeEmail(dto.email.value))) ==>
      reply == Failure(Conflict, MsgEmailTaken) && db.rows == old(db.rows)
    ensures (!RegisterFieldsMissing(dto) && |dto.password.value| >= MinPasswordLength &&
      !EmailTaken(old(db.rows), NormalizeEmail(dto.email.value))) ==>
      var u := NewUser(dto, roles, hash).(userId := old(db.nextId));
      db.rows == old(db.rows) + [u] && reply == Success(Ok, ResponseFor(u, roles, now))
  {
    var name := TrimOpt(dto.name);
    var emailRaw := TrimOpt(dto.email);
    var password := dto.password;
    if IsNullOrWhiteSpace(name) || IsNullOrWhiteSpace(emailRaw) || IsNullOrWhiteSpace(password) {
      return Failure(BadRequest, MsgRegisterFields);
    }
    if |password.value| < MinPasswordLength {
      return Failure(BadRequest, MsgShortPassword);
    }
    var email := ToLower(emailRaw.value);
    if exists i :: 0 <= i < |db.rows| && db.rows[i].email == Some(email) {
      return Failure(Conflict, MsgEmailTaken);
    }
    var user := User(0, name, Some(email), Some(hash(password.value)), DefaultRoleId(roles));
    var id := db.Insert(user);
    var saved := user.(userId := id);
    reply := Success(Ok, ResponseFor(saved, roles, now));
  }

  // ---------------------------------------------------------------- login

  predicate LoginFieldsMissing(dto: LoginDto) {
    IsNullOrWhiteSpace(dto.email) || IsNullOrWhiteSpace(dto.password)
  }

  function WithEmail(email: string): User -> bool {
    (u: User) => u.email == Some(email)
  }

  /** The outcome of `SingleOrDefaultAsync(u => u.Email == email)`. */
  datatype Lookup = NoAccount | Duplicate | Account(user: User)

  function FindAccount(users: seq<User>, email: string): (r: Lookup)
    ensures r.NoAccount? <==> !EmailTaken(users, email)
    ensures r.Account? ==> r.user in users && r.user.email == Some(email)
  {
    var matches := Filter(users, WithEmail(email));
    if matches == [] then
      assert !EmailTaken(users, email) by {
        forall i | 0 <= i < |users| ensures users[i].email != Some(email) {
          assert users[i] in users;
        }
      }
      NoAccount
    else
      assert EmailTaken(users, email) by {
        assert matches[0] in users;
        var k :| 0 <= k < |users| && users[k] == matches[0];
      }
      if |matches| > 1 then Duplicate
      else Account(matches[0])
  }

  /** With unique emails at most one account matches an address. */
  lemma {:induction false} MatchesUnique(users: seq<User>, email: string)
    requires UniqueEmails(users)
    ensures |Filter(users, WithEmail(email))| <= 1
  {
    if users != [] {
      var rest := users[1..];
      assert UniqueEmails(rest) by {
        forall i, j | 0 <= i < j < |rest| && rest[i].email.Some? ensures rest[i].email != rest[j].email {
          assert rest[i] == users[i + 1] && rest[j] == users[j + 1];
        }
      }
      MatchesUnique(rest, email);
      if users[0].email == Some(email) {
        forall k | 0 <= k < |rest| ensures !WithEmail(email)(rest[k]) {
          assert rest[k] == users[k + 1];
        }
        FilterNone(rest, WithEmail(email));
      }
    }
  }

  /** While emails are unique, the lookup never finds two accounts. */
  lemma FindAccountUnique(users: seq<User>, email: string)
    requires UniqueEmails(users)
    ensures !FindAccount(users, email).Duplicate?
  {
    MatchesUnique(users, email);
  }

  /** `POST /api/auth/login`. `SingleOrDefault` fails on a second account
      with the same email, which the server reports as an internal error. */
  function Login(users: seq<User>, roles: seq<Role>, dto: LoginDto, verify: (string, string) -> VerifyResult, now: int)
    : (r: Reply<AuthResponse>)
    ensures LoginFieldsMissing(dto) ==> r == Failure(BadRequest, MsgLoginFields)
    ensures r.Failure? && r.status == Unauthorized ==> r.message == MsgBadCredentials
    ensures r.Success? ==> (r.status == Ok &&
      exists u :: u in users && u.email == Some(NormalizeEmail(dto.email.value)) &&
                  !IsNullOrEmpty(u.passwordHash) &&
                  verify(u.passwordHash.value, dto.password.value) != Failed &&
                  r.body == ResponseFor(u, roles, now))
    ensures !LoginFieldsMissing(dto) && !EmailTaken(users, NormalizeEmail(dto.email.value)) ==>
      r == Failure(Unauthorized, MsgBadCredentials)
    ensures !LoginFieldsMissing(dto) && FindAccount(users, NormalizeEmail(dto.email.value)).Duplicate? ==>
      r == Failure(ServerError, "")
    ensures !LoginFieldsMissing(dto) && FindAccount(users, NormalizeEmail(dto.email.value)).Account? ==>
      var u := FindAccount(users, NormalizeEmail(dto.email.value)).user;
      (IsNullOrEmpty(u.passwordHash) ==> r == Failure(BadRequest, MsgNoPassword)) &&
      (!IsNullOrEmpty(u.passwordHash) && verify(u.passwordHash.value, dto.password.value) == Failed ==>
         r == Failure(Unauthorized, MsgBadCredentials)) &&
      (!IsNullOrEmpty(u.passwordHash) && verify(u.passwordHash.value, dto.password.value) != Failed ==>
         r == Success(Ok, ResponseFor(u, roles, now)))
  {
    if LoginFieldsMissing(dto) then Failure(BadRequest, MsgLoginFields)
    else
      match FindAccount(users, NormalizeEmail(dto.email.value))
      case NoAccount => Failure(Unauthorized, MsgBadCredentials)
      case Duplicate => Failure(ServerError, "")
      case Account(user) =>
        if IsNullOrEmpty(user.passwordHash) then Failure(BadRequest, MsgNoPassword)
        else if verify(user.passwordHash.value, dto.password.value) == Failed then Failure(Unauthorized, MsgBadCredentials)
        else Success(Ok, ResponseFor(user, roles, now))
  }

  /** While emails are unique, login never hits the duplicate-account failure. */
  lemma LoginNoServerErrorWhenUnique(
    users: seq<User>, roles: seq<Role>, dto: LoginDto, verify: (string, string) -> VerifyResult, now: int)
    requires UniqueEmails(users)
    ensures Login(users, roles, dto, verify, now).status != ServerError
  {
    if !LoginFieldsMissing(dto) {
      FindAccountUnique(users, NormalizeEmail(dto.email.value));
    }
  }

  /** While emails are unique, an account stored under an address is the one
      the lookup finds for it. */
  lemma FindAccountOf(users: seq<User>, u: User, email: string)
    requires UniqueEmails(users) && u in users && u.email == Some(email)
    ensures FindAccount(users, email) == Account(u)
  {
    var matches := Filter(users, WithEmail(email));
    assert u in matches;
    MatchesUnique(users, email);
    assert matches == [u];
  }

  /** While emails are unique, logging in as a stored account has one of three
      outcomes: no hash is refused as a bad request, a password the hasher
      rejects as bad credentials, and any other password succeeds as that account. */
  lemma LoginOfAccount(
    users: seq<User>, roles: seq<Role>, dto: LoginDto, verify: (string, string) -> VerifyResult, now: int, u: User)
    requires UniqueEmails(users) && u in users && !LoginFieldsMissing(dto)
    requires u.email == Some(NormalizeEmail(dto.email.value))
    ensures IsNullOrEmpty(u.passwordHash) ==> Login(users, roles, dto, verify, now) == Failure(BadRequest, MsgNoPassword)
    ensures !IsNullOrEmpty(u.passwordHash) && verify(u.passwordHash.value, dto.password.value) == Failed ==>
      Login(users, roles, dto, verify, now) == Failure(Unauthorized, MsgBadCredentials)
    ensures !IsNullOrEmpty(u.passwordHash) && verify(u.passwordHash.value, dto.password.value) != Failed ==>
      Login(users, roles, dto, verify, now) == Success(Ok, ResponseFor(u, roles, now))
  {
    FindAccountOf(users, u, NormalizeEmail(dto.email.value));
  }

  /** An account without a stored hash is refused as a bad request whatever
      the hasher would say: the hasher is not consulted. */
  lemma LoginWithoutHashIgnoresVerifier(
    users: seq<User>, roles: seq<Role>, dto: LoginDto,
    v1: (string, string) -> VerifyResult, v2: (string, string) -> VerifyResult, now: int, u: User)
    requires UniqueEmails(users) && u in users && !LoginFieldsMissing(dto)
    requires u.email == Some(NormalizeEmail(dto.email.value)) && IsNullOrEmpty(u.passwordHash)
    ensures Login(users, roles, dto, v1, now) == Failure(BadRequest, MsgNoPassword)
    ensures Login(users, roles, dto, v2, now) == Failure(BadRequest, MsgNoPassword)
  {
    FindAccountOf(users, u, NormalizeEmail(dto.email.value));
  }

  /** An unknown address and a wrong password for a known one get the same
      answer: 401 with the same message. */
  lemma LoginDoesNotRevealAccounts(
    users: seq<User>, roles: seq<Role>, known: LoginDto, unknown: LoginDto,
    verify: (string, string) -> VerifyResult, now: int, u: User)
    requires UniqueEmails(users) && u in users && !LoginFieldsMissing(known)
    requires u.email == Some(NormalizeEmail(known.email.value)) && !IsNullOrEmpty(u.passwordHash)
    requires verify(u.passwordHash.value, known.password.value) == Failed
    requires !LoginFieldsMissing(unknown) && !EmailTaken(users, NormalizeEmail(unknown.email.value))
    ensures Login(users, roles, known, verify, now) == Failure(Unauthorized, MsgBadCredentials)
    ensures Login(users, roles, unknown, verify, now) == Login(users, roles, known, verify, now)
  {
    FindAccountOf(users, u, NormalizeEmail(known.email.value));
  }

  /** A fresh address appended to the table is matched by exactly the new account. */
  lemma OnlyNewAccountMatches(users: seq<User>, u: User, e: string)
    requires !EmailTaken(users, e) && u.email == Some(e)
    ensures Filter(users + [u], WithEmail(e)) == [u]
  {
    FilterAppend(users, [u], WithEmail(e));
    FilterNone(users, WithEmail(e));
    assert Filter([u], WithEmail(e)) == [u];
  }

  /** Registering and then logging in with the same address (in any letter
      case or padding) and password yields the new account. */
  lemma LoginAfterRegister(
    users: seq<User>, u: User, roles: seq<Role>, email: string, password: string,
    verify: (string, string) -> VerifyResult, now: int)
    requires !EmailTaken(users, NormalizeEmail(email))
    requires !IsBlank(email) && !IsBlank(password)
    requires u.email == Some(NormalizeEmail(email)) && u.passwordHash.Some? && u.passwordHash.value != ""
    requires verify(u.passwordHash.value, password) != Failed
    ensures Login(users + [u], roles, LoginDto(Some(email), Some(password)), verify, now) == Success(Ok, ResponseFor(u, roles, now))
  {
    var e := NormalizeEmail(email);
    var dto := LoginDto(Some(email), Some(password));
    OnlyNewAccountMatches(users, u, e);
    assert FindAccount(users + [u], e) == Account(u);
    assert !LoginFieldsMissing(dto);
  }
}
