/** The profile commands of the browser client: `PUT /users/me` and
    `PUT /users/change-password`, each sent with the stored token and each
    throwing the server's text, or a fixed message, on a failed status. */
module UserCommands {
  import opened Wrappers
  import opened Text
  import opened Js
  import opened Browser
  import opened HttpClient
  import opened ApiConfig
  import Http
  import UsersController

  const MsgUpdateFailed: string := "Greška pri ažuriranju profila."
  const MsgChangeFailed: string := "Greška pri promjeni lozinke."

  /** This module's `API`, as written: whatever the environment names, it
      ends in `/api`; a base that already does is kept as it is, any other
      loses its trailing slashes and gets the suffix. */
  function Api(env: Env): (api: string)
    ensures EndsWithApi(api)
    ensures EndsWithApi(EnvBase(env)) ==> api == EnvBase(env)
    ensures !EndsWithApi(EnvBase(env)) ==> api == StripTrailing(EnvBase(env), '/') + ApiSuffix
    ensures !Truthy(env.apiBaseUrl) && !Truthy(env.apiUrl) ==> api == DefaultBase
  {
    DefaultResolvesToApi(env);
    AppendApiAsWritten(EnvBase(env))
  }

  /** The request of `updateProfile`: it carries a bearer exactly when a
      token is stored. */
  function UpdateProfileCall(env: Env, storage: Option<Storage>): (c: Call)
    ensures c.verb == "PUT" && c.url == Api(env) + "/users/me"
    ensures ContentType in c.headers && c.headers[ContentType] == ApplicationJson
    ensures Authorization in c.headers <==> storage.Some? && Truthy(GetItem(storage.value, "token"))
  {
    Call("PUT", Api(env) + "/users/me", JsonHeaders(storage))
  }

  /** The request of `changePassword`. */
  function ChangePasswordCall(env: Env, storage: Option<Storage>): (c: Call)
    ensures c.verb == "PUT" && c.url == Api(env) + "/users/change-password"
    ensures ContentType in c.headers && c.headers[ContentType] == ApplicationJson
    ensures Authorization in c.headers <==> storage.Some? && Truthy(GetItem(storage.value, "token"))
  {
    Call("PUT", Api(env) + "/users/change-password", JsonHeaders(storage))
  }

  /** The end of `updateProfile`: a failed status throws; otherwise the parsed
      profile (`None` for a body that is not JSON, on which `res.json()`
      rejects). */
  function UpdateProfile<T>(res: Response<T>): (o: Outcome<T>)
    ensures o.Threw? <==> !IsOk(res.status)
    ensures o.Threw? ==> o.message == (if res.text != "" then res.text else MsgUpdateFailed)
    ensures o.Returned? ==> o.value == res.json
  {
    if !IsOk(res.status) then Failed(res, MsgUpdateFailed) else Returned(res.json)
  }

  /** The end of `changePassword`: no body is read; success is `true`. */
  function ChangePassword<T>(res: Response<T>): (o: Outcome<bool>)
    ensures o.Threw? <==> !IsOk(res.status)
    ensures o.Threw? ==> o.message == (if res.text != "" then res.text else MsgChangeFailed)
    ensures o.Returned? ==> o.value == Some(true)
  {
    if !IsOk(res.status) then Threw(Failed(res, MsgChangeFailed).message) else Returned(Some(true))
  }

  /** Against `PUT /api/users/me`: the new profile comes back, a taken email
      shows the server's own message, a request without a token (the bodiless
      401 challenge) the fixed one, and a signed-in caller without an account
      the server's problem-details text. */
  lemma UpdateProfileReportsServer(r: Http.Reply<UsersController.UserProfileDto>)
    requires r.Success? <==> IsOk(r.status.Code())
    ensures r.Success? ==> UpdateProfile(OnWire(r)) == Returned(Some(r.body))
    ensures r == Http.Failure(Http.Conflict, UsersController.MsgEmailInUse) ==>
      UpdateProfile(OnWire(r)) == Threw(UsersController.MsgEmailInUse)
    ensures r == Http.Failure(Http.Unauthorized, "") ==> UpdateProfile(OnWire(r)) == Threw(MsgUpdateFailed)
    ensures r == Http.Failure(Http.Unauthorized, Http.ProblemText(Http.Unauthorized)) ==>
      UpdateProfile(OnWire(r)) == Threw(Http.ProblemText(Http.Unauthorized))
  {
  }

  /** Against `PUT /api/users/change-password`: its 204 is `true`, each refusal
      that carries a text (a validation message, or the problem-details text
      for a signed-in caller without an account) shows that text, and the
      bodiless challenge for a request without a token the fixed message. */
  lemma ChangePasswordReportsServer(r: Http.Reply<()>)
    requires r.Success? <==> IsOk(r.status.Code())
    ensures r.Success? ==> ChangePassword(OnWire(r)) == Returned(Some(true))
    ensures r.Failure? && r.message != "" ==> ChangePassword(OnWire(r)) == Threw(r.message)
    ensures r.Failure? && r.message == "" ==> ChangePassword(OnWire(r)) == Threw(MsgChangeFailed)
  {
  }
}
