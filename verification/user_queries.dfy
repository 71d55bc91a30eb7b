/** The profile query of the browser client: `GET /users/me` with the stored
    token, throwing the server's text, or a fixed message, on a failed status. */
module UserQueries {
  import opened Wrappers
  import opened Js
  import opened Browser
  import opened HttpClient
  import opened ApiConfig
  import Http
  import Identity
  import UsersController
  import opened Persistence

  const MsgLoadFailed: string := "Greška pri učitavanju profila."

  /** The request of `getProfile`. */
  function GetProfileCall(env: Env, storage: Option<Storage>): (c: Call)
    ensures c.verb == "GET" && c.url == RelativeApi(env) + "/users/me"
    ensures ContentType in c.headers && c.headers[ContentType] == ApplicationJson
    ensures Authorization in c.headers <==> storage.Some? && Truthy(GetItem(storage.value, "token"))
  {
    Call("GET", RelativeApi(env) + "/users/me", JsonHeaders(storage))
  }

  /** The end of `getProfile`: a failed status throws; otherwise the parsed
      profile (`None` for a body that is not JSON, on which `res.json()`
      rejects). */
  function GetProfile<T>(res: Response<T>): (o: Outcome<T>)
    ensures o.Threw? <==> !IsOk(res.status)
    ensures o.Threw? ==> o.message == (if res.text != "" then res.text else MsgLoadFailed)
    ensures o.Returned? ==> o.value == res.json
  {
    if !IsOk(res.status) then Failed(res, MsgLoadFailed) else Returned(res.json)
  }

  /** Against `GET /api/users/me`: the caller's profile; without a token the
      bodiless challenge, which shows the fixed message; for a signed-in caller
      without an account the server's problem-details text. */
  lemma GetProfileReportsServer(users: seq<User>, roles: seq<Role>, caller: Identity.Principal)
    ensures var r := UsersController.Me(users, roles, caller);
      r.Success? ==> GetProfile(OnWire(r)) == Returned(Some(r.body))
    ensures !Identity.Authenticated(caller) ==>
      GetProfile(OnWire(UsersController.Me(users, roles, caller))) == Threw(MsgLoadFailed)
    ensures Identity.Authenticated(caller) && UsersController.CurrentUser(users, caller).None? ==>
      GetProfile(OnWire(UsersController.Me(users, roles, caller))) == Threw(Http.ProblemText(Http.Unauthorized))
  {
  }
}
