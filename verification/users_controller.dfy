/** `/api/users`: the signed-in user's own profile and password. The
    controller is `[Authorize]`d, so a request without a token gets the
    bodiless 401 challenge; every action then resolves the caller to a stored
    account and answers its own 401 otherwise. */
module UsersController {
  import opened Wrappers
  import opened Text
  import opened Http
  import opened Identity
  import opened Persistence
  import AuthController

  datatype UserProfileDto = UserProfileDto(userId: int, fullName: string, email: string, roleName: string)
  datatype UpdateProfileDto = UpdateProfileDto(fullName: Option<string>, email: Option<string>)
  datatype ChangePasswordDto = ChangePasswordDto(currentPassword: Option<string>, newPassword: Option<string>)

  const MsgEmailInUse: string := "Email je već zauzet."
  const MsgPasswordsRequired: string := "Lozinke su obavezne."
  const MsgNewPasswordShort: string := "Nova lozinka mora imati najmanje 6 znakova."
  const MsgNoPassword: string := "Korisnik nema postavljenu lozinku."
  const MsgWrongPassword: string := "Trenutna lozinka nije tačna."

  /** `GetCurrentUserAsync`: the index of the account whose id the caller's
      name-identifier claim holds. */
  function CurrentUser(users: seq<User>, caller: Principal): (r: Option<nat>)
    ensures r.Some? ==> r.value < |users| && UserIdOf(caller) == Some(users[r.value].userId)
    ensures r.None? ==> (UserIdOf(caller).None? ||
      forall i :: 0 <= i < |users| ==> users[i].userId != UserIdOf(caller).value)
    ensures IsNullOrEmpty(caller.nameIdentifier) ==> r.None?
  {
    if IsNullOrEmpty(caller.nameIdentifier) then None
    else match UserIdOf(caller)
      case None => None
      case Some(id) => IndexOfKey(users, UserKey, id)
  }

  /** The profile as `Me` and `UpdateMe` report it: missing name or email as "",
      and the role's name, "User" when the account has no role. */
  function ProfileOf(u: User, roles: seq<Role>): (d: UserProfileDto)
    ensures d.userId == u.userId
    ensures u.fullName.Some? ==> d.fullName == u.fullName.value
    ensures u.fullName.None? ==> d.fullName == ""
    ensures u.email.Some? ==> d.email == u.email.value
    ensures u.email.None? ==> d.email == ""
    ensures (forall i :: 0 <= i < |roles| ==> Some(roles[i].roleId) != u.roleId) ==> d.roleName == AuthController.DefaultRole
    ensures forall i :: (0 <= i < |roles| && Some(roles[i].roleId) == u.roleId && roles[i].roleName.Some? &&
      (forall k :: 0 <= k < i ==> Some(roles[k].roleId) != u.roleId)) ==> d.roleName == roles[i].roleName.value
  {
    UserProfileDto(u.userId, u.fullName.GetOr(""), u.email.GetOr(""), AuthController.RoleName(roles, u.roleId))
  }

  /** `GET /api/users/me`. */
  function Me(users: seq<User>, roles: seq<Role>, caller: Principal): (r: Reply<UserProfileDto>)
    ensures r.Failure? <==> CurrentUser(users, caller).None?
    ensures !Authenticated(caller) ==> r == Failure(Unauthorized, "")
    ensures Authenticated(caller) && r.Failure? ==> r == Failure(Unauthorized, ProblemText(Unauthorized))
    ensures r.Success? ==> r.status == Ok && r.body == ProfileOf(users[CurrentUser(users, caller).value], roles)
  {
    if !Authenticated(caller) then Failure(Unauthorized, "")
    else match CurrentUser(users, caller)
      case None => Failure(Unauthorized, ProblemText(Unauthorized))
      case Some(i) => Success(Ok, ProfileOf(users[i], roles))
  }

  /** The profile a token issued for an account reads back as that account's profile. */
  lemma MeWithIssuedToken(users: seq<User>, roles: seq<Role>, i: nat, now: int)
    requires i < |users| && UniqueKeys(users, UserKey) && IsInt32(users[i].userId)
    ensures Me(users, roles, PrincipalOf(AuthController.IssueClaims(users[i], roles, now))) == Success(Ok, ProfileOf(users[i], roles))
  {
    var caller := PrincipalOf(AuthController.IssueClaims(users[i], roles, now));
    AuthController.IssuedTokenIdentifiesUser(users[i], roles, now);
    assert CurrentUser(users, caller).Some?;
  }

  // ---------------------------------------------------------------- profile

  /** The name after an update: a non-blank new name, trimmed, replaces the old one. */
  function UpdatedName(u: User, model: UpdateProfileDto): (name: Option<string>)
    ensures IsNullOrWhiteSpace(model.fullName) ==> name == u.fullName
    ensures !IsNullOrWhiteSpace(model.fullName) ==> name == Some(Trim(model.fullName.value))
  {
    if !IsNullOrWhiteSpace(model.fullName) then Some(Trim(model.fullName.value)) else u.fullName
  }

  /** The requested email differs from the stored one, compared in lower case. */
  predicate EmailChanges(u: User, model: UpdateProfileDto) {
    !IsNullOrWhiteSpace(model.email) &&
    AuthController.NormalizeEmail(model.email.value) != ToLower(u.email.GetOr(""))
  }

  /** Another account already holds `email`. */
  predicate HeldByOther(users: seq<User>, self: int, email: string) {
    exists k :: 0 <= k < |users| && users[k].email == Some(email) && users[k].userId != self
  }

  /** `PUT /api/users/me`. A conflicting email refuses the whole update, the new name included. */
  method UpdateMe(db: UserTable, roles: seq<Role>, caller: Principal, model: UpdateProfileDto)
    returns (reply: Reply<UserProfileDto>)
    requires db.Valid()
    modifies db
    ensures db.Valid() && db.nextId == old(db.nextId)
    ensures !Authenticated(caller) ==> reply == Failure(Unauthorized, "") && db.rows == old(db.rows)
    ensures Authenticated(caller) && CurrentUser(old(db.rows), caller).None? ==>
      reply == Failure(Unauthorized, ProblemText(Unauthorized)) && db.rows == old(db.rows)
    ensures CurrentUser(old(db.rows), caller).Some? ==>
      var i := CurrentUser(old(db.rows), caller).value;
      var u := old(db.rows)[i];
      if EmailChanges(u, model) && HeldByOther(old(db.rows), u.userId, AuthController.NormalizeEmail(model.email.value)) then
        reply == Failure(Conflict, MsgEmailInUse) && db.rows == old(db.rows)
      else
        var email := if EmailChanges(u, model) then Some(AuthController.NormalizeEmail(model.email.value)) else u.email;
        var u' := u.(fullName := UpdatedName(u, model), email := email);
        db.rows == old(db.rows)[i := u'] && reply == Success(Ok, ProfileOf(u', roles))
  {
    if !Authenticated(caller) {
      return Failure(Unauthorized, "");
    }
    var found := CurrentUser(db.rows, caller);
    if found.None? {
      return Failure(Unauthorized, ProblemText(Unauthorized));
    }
    var i := found.value;
    var user := db.rows[i];
    user := user.(fullName := UpdatedName(user, model));
    if !IsNullOrWhiteSpace(model.email) {
      var newEmail := AuthController.NormalizeEmail(model.email.value);
      var currentEmail := ToLower(user.email.GetOr(""));
      if newEmail != currentEmail {
        var exists_ := exists k :: 0 <= k < |db.rows| && db.rows[k].email == Some(newEmail) && db.rows[k].userId != user.userId;
        if exists_ {
          return Failure(Conflict, MsgEmailInUse);
        }
        user := user.(email := Some(newEmail));
      }
    }
    forall k | 0 <= k < |db.rows| && k != i
      ensures user.email.Some? ==> db.rows[k].email != user.email
    {
      assert UserKey(db.rows[k]) != UserKey(db.rows[i]) by {
        if k < i { assert UserKey(db.rows[k]) != UserKey(db.rows[i]); }
        else { assert UserKey(db.rows[i]) != UserKey(db.rows[k]); }
      }
    }
    db.Put(i, user);
    reply := Success(Ok, ProfileOf(user, roles));
  }

  // ---------------------------------------------------------------- password

  /** `PUT /api/users/change-password`: the checks run in this order, and only
      a request that passes all of them replaces the stored hash. */
  method ChangePassword(
    db: UserTable, caller: Principal, model: ChangePasswordDto,
    hash: string -> string, verify: (string, string) -> AuthController.VerifyResult)
    returns (reply: Reply<()>)
    requires db.Valid()
    modifies db
    ensures db.Valid() && db.nextId == old(db.nextId)
    ensures !Authenticated(caller) ==> reply == Failure(Unauthorized, "") && db.rows == old(db.rows)
    ensures Authenticated(caller) && CurrentUser(old(db.rows), caller).None? ==>
      reply == Failure(Unauthorized, ProblemText(Unauthorized)) && db.rows == old(db.rows)
    ensures CurrentUser(old(db.rows), caller).Some? ==>
      var i := CurrentUser(old(db.rows), caller).value;
      var u := old(db.rows)[i];
      if IsNullOrWhiteSpace(model.currentPassword) || IsNullOrWhiteSpace(model.newPassword) then
        reply == Failure(BadRequest, MsgPasswordsRequired) && db.rows == old(db.rows)
      else if |model.newPassword.value| < AuthController.MinPasswordLength then
        reply == Failure(BadRequest, MsgNewPasswordShort) && db.rows == old(db.rows)
      else if IsNullOrEmpty(u.passwordHash) then
        reply == Failure(BadRequest, MsgNoPassword) && db.rows == old(db.rows)
      else if verify(u.passwordHash.value, model.currentPassword.value) == AuthController.Failed then
        reply == Failure(BadRequest, MsgWrongPassword) && db.rows == old(db.rows)
      else
        reply == Success(NoContent, ()) &&
        db.rows == old(db.rows)[i := u.(passwordHash := Some(hash(model.newPassword.value)))]
  {
    if !Authenticated(caller) {
      return Failure(Unauthorized, "");
    }
    var found := CurrentUser(db.rows, caller);
    if found.None? {
      return Failure(Unauthorized, ProblemText(Unauthorized));
    }
    var i := found.value;
    var user := db.rows[i];
    if IsNullOrWhiteSpace(model.currentPassword) || IsNullOrWhiteSpace(model.newPassword) {
      return Failure(BadRequest, MsgPasswordsRequired);
    }
    if |model.newPassword.value| < AuthController.MinPasswordLength {
      return Failure(BadRequest, MsgNewPasswordShort);
    }
    var storedHash := user.passwordHash;
    if IsNullOrEmpty(storedHash) {
      return Failure(BadRequest, MsgNoPassword);
    }
    if verify(storedHash.value, model.currentPassword.value) == AuthController.Failed {
      return Failure(BadRequest, MsgWrongPassword);
    }
    db.Put(i, user.(passwordHash := Some(hash(model.newPassword.value))));
    reply := Success(NoContent, ());
  }
}
