/** The sign-in form: the email is normalized and both fields are required
    before anything is sent; while the request runs the button is disabled;
    a successful answer stores the token and the user for the shell. */
module LoginPage {
  import opened Wrappers
  import opened Text
  import opened Js
  import opened Browser
  import opened ApiConfig
  import AuthController
  import App
  import Persistence

  const IdleLabel: string := "Prijavi se"
  const BusyLabel: string := "Prijavljivanje..."
  const MsgMissing: string := "Unesite email i lozinku."
  const MsgFailed: string := "Neuspješna prijava."
  const MsgSuccess: string := "Uspješna prijava."
  const ProfileHash: string := "#/profile"

  const LoginPath: string := "/auth/login"

  /** `(inputEmail.value || "").trim().toLowerCase()`. */
  function SubmittedEmail(input: string): (e: string)
    ensures e == "" <==> IsBlank(input)
  {
    AuthController.NormalizeEmail(input)
  }

  /** The login the page sends passes the server's field check exactly when
      the raw input would, and looks up the same account. */
  lemma SubmittedEmailLogsInAlike(users: seq<Persistence.User>, input: string, password: string)
    ensures AuthController.LoginFieldsMissing(AuthController.LoginDto(Some(SubmittedEmail(input)), Some(password))) ==
            AuthController.LoginFieldsMissing(AuthController.LoginDto(Some(input), Some(password)))
    ensures AuthController.FindAccount(users, AuthController.NormalizeEmail(SubmittedEmail(input))) ==
            AuthController.FindAccount(users, AuthController.NormalizeEmail(input))
  {
    SubmittedEmailBlank(input);
    AuthController.NormalizeEmailIdempotent(input);
  }

  /** The normalized email is blank exactly when the input is. */
  lemma SubmittedEmailBlank(input: string)
    ensures IsBlank(SubmittedEmail(input)) <==> IsBlank(input)
  {
    var e := SubmittedEmail(input);
    if !IsBlank(input) {
      AuthController.LowerKeepsEnds(Trim(input));
      assert e != [] && !IsWhite(e[0]);
    }
  }

  datatype LoginRequest = LoginRequest(url: string, email: string, password: string)

  // ---------------------------------------------------------------- stored user

  /** The object the page writes under `user`; a field that is `undefined`
      is left out of the JSON and reads back as missing. */
  datatype SavedUser = SavedUser(id: Option<JsNumber>, fullName: Option<string>, email: Option<string>, role: Option<string>)

  /** The login answer as the server's JSON serializer writes it: the
      `AuthResponse` record's properties in camel case. */
  function LoginJson(r: AuthController.AuthResponse, jwt: string): JsonObject {
    JsonObject(map["id" := Some(Whole(r.id))],
               map["name" := Some(r.name), "email" := Some(r.email), "role" := Some(r.role), "token" := Some(jwt)])
  }

  /** The `user` object as written: it reads `data.userId` and `data.fullName`. */
  function SavedUserAsWritten(data: JsonObject): (u: SavedUser)
    ensures u.id == Lookup(data.numbers, "userId") && u.fullName == Lookup(data.texts, "fullName")
    ensures u.email == Lookup(data.texts, "email") && u.role == Lookup(data.texts, "role")
  {
    SavedUser(Lookup(data.numbers, "userId"), Lookup(data.texts, "fullName"),
              Lookup(data.texts, "email"), Lookup(data.texts, "role"))
  }

  /** The server answers with `id` and `name`, so the user saved as written
      has neither an id nor a name. */
  lemma SavedUserLosesIdAndName(r: AuthController.AuthResponse, jwt: string)
    ensures SavedUserAsWritten(LoginJson(r, jwt)).id.None?
    ensures SavedUserAsWritten(LoginJson(r, jwt)).fullName.None?
  {
  }

  /** The `user` object read from the fields the server sends. */
  function SavedUserOf(data: JsonObject): (u: SavedUser)
    ensures u.id == Lookup(data.numbers, "id") && u.fullName == Lookup(data.texts, "name")
    ensures u.email == Lookup(data.texts, "email") && u.role == Lookup(data.texts, "role")
  {
    SavedUser(Lookup(data.numbers, "id"), Lookup(data.texts, "name"),
              Lookup(data.texts, "email"), Lookup(data.texts, "role"))
  }

  /** Every field of the server's answer but the token is saved. */
  lemma SavedUserKeepsServerFields(r: AuthController.AuthResponse, jwt: string)
    ensures SavedUserOf(LoginJson(r, jwt)) == SavedUser(Some(Whole(r.id)), Some(r.name), Some(r.email), Some(r.role))
  {
  }

  /** `localStorage.setItem` stores `String(value)`: a missing field as
      "undefined", a `null` one as "null". */
  function StoredText(fields: Fields<string>, key: string): (s: string)
    ensures key !in fields ==> s == "undefined"
    ensures key in fields && fields[key].None? ==> s == "null"
    ensures key in fields && fields[key].Some? ==> s == fields[key].value
  {
    if key !in fields then "undefined"
    else if fields[key].None? then "null"
    else fields[key].value
  }

  /** What the shell's `JSON.parse` makes of a saved user: the `id` as it is
      (a non-finite one is `null`), no `userId`, and the role. */
  function ReadBack(u: SavedUser): App.StoredUser {
    App.StoredUser(if u.id.Some? && u.id.value.Whole? then Some(u.id.value.value) else None, None, u.role)
  }

  /** After a sign-in with a positive account id the shell knows the user by
      that id, and treats them as an administrator exactly when the server
      named the role `Admin`; as written it never learns the id. */
  lemma ShellKnowsSignedInUser(
    r: AuthController.AuthResponse, jwt: string, storage: Storage,
    stringify: SavedUser -> string, parse: string -> Option<Option<App.StoredUser>>)
    requires r.id > 0
    requires forall u :: stringify(u) != "" && parse(stringify(u)) == Some(Some(ReadBack(u)))
    ensures var saved := storage["user" := stringify(SavedUserOf(LoginJson(r, jwt)))];
      App.CurrentUser(saved, parse) == Some(App.AppUser(Some(r.id), Some(r.role), if r.role == "Admin" then Some(1) else None)) &&
      (App.IsAdmin(App.CurrentUser(saved, parse)) <==> r.role == "Admin")
    ensures var saved := storage["user" := stringify(SavedUserAsWritten(LoginJson(r, jwt)))];
      App.CurrentUser(saved, parse).Some? && App.CurrentUser(saved, parse).value.userId.None?
  {
    SavedUserKeepsServerFields(r, jwt);
    SavedUserLosesIdAndName(r, jwt);
  }

  // ---------------------------------------------------------------- form

  /** A message paragraph: hidden, showing a text, or showing the runtime's
      own message for an exception the page did not raise itself. */
  datatype Note = Hidden | Showing(text: string) | RuntimeMessage

  /** The form's state: the module's `API` base, its button, its two message
      paragraphs, the browser's storage, the requests sent and the navigation
      scheduled. */
  class LoginForm {
    const api: string
    var disabled: bool
    var caption: string
    var error: Note
    var message: Note
    var storage: Storage
    var sent: seq<LoginRequest>
    var redirect: Option<string>

    constructor(env: Env, storage0: Storage)
      ensures api == RelativeApi(env)
      ensures !disabled && caption == IdleLabel && error == Hidden && message == Hidden
      ensures storage == storage0 && sent == [] && redirect == None
    {
      api := RelativeApi(env);
      disabled := false;
      caption := IdleLabel;
      error := Hidden;
      message := Hidden;
      storage := storage0;
      sent := [];
      redirect := None;
    }

    /** `clearMessages`, also run on every keystroke in either field. */
    method ClearMessages()
      modifies this
      ensures error == Hidden && message == Hidden
      ensures disabled == old(disabled) && caption == old(caption) && storage == old(storage)
      ensures sent == old(sent) && redirect == old(redirect)
    {
      error := Hidden;
      message := Hidden;
    }

    /** The submit handler up to the `fetch`: with an empty email or password
        only the error shows and nothing is sent; otherwise the button is
        disabled while the normalized email and the password are posted. */
    method BeginSubmit(emailInput: string, password: string) returns (req: Option<LoginRequest>)
      modifies this
      ensures message == Hidden && storage == old(storage) && redirect == old(redirect)
      ensures SubmittedEmail(emailInput) == "" || password == "" ==>
        req.None? && error == Showing(MsgMissing) &&
        disabled == old(disabled) && caption == old(caption) && sent == old(sent)
      ensures SubmittedEmail(emailInput) != "" && password != "" ==>
        req == Some(LoginRequest(api + LoginPath, SubmittedEmail(emailInput), password)) &&
        error == Hidden && disabled && caption == BusyLabel && sent == old(sent) + [req.value]
    {
      ClearMessages();
      var email := SubmittedEmail(emailInput);
      if email == "" || password == "" {
        error := Showing(MsgMissing);
        return None;
      }
      disabled := true;
      caption := BusyLabel;
      req := Some(LoginRequest(api + LoginPath, email, password));
      sent := sent + [req.value];
    }

    /** The rest of the handler once the answer `res` is in: a failed status
        shows its text, or a fixed message; a success stores the token and the
        user and schedules the move to the profile. Whatever happened, the
        button is enabled again. */
    method FinishSubmit(res: Response<JsonObject>, stringify: SavedUser -> string)
      modifies this
      ensures !disabled && caption == IdleLabel && sent == old(sent)
      ensures !IsOk(res.status) ==>
        error == Showing(if res.text != "" then res.text else MsgFailed) &&
        message == old(message) && storage == old(storage) && redirect == old(redirect)
      ensures IsOk(res.status) && res.json.None? ==>
        error == RuntimeMessage && message == old(message) && storage == old(storage) && redirect == old(redirect)
      ensures IsOk(res.status) && res.json.Some? ==>
        storage == old(storage)["token" := StoredText(res.json.value.texts, "token")]
                               ["user" := stringify(SavedUserAsWritten(res.json.value))] &&
        message == Showing(MsgSuccess) && error == old(error) && redirect == Some(ProfileHash)
    {
      if !IsOk(res.status) {
        error := Showing(if res.text != "" then res.text else MsgFailed);
      } else if res.json.None? {
        error := RuntimeMessage;
      } else {
        var data := res.json.value;
        storage := storage["token" := StoredText(data.texts, "token")];
        storage := storage["user" := stringify(SavedUserAsWritten(data))];
        message := Showing(MsgSuccess);
        redirect := Some(ProfileHash);
      }
      disabled := false;
      caption := IdleLabel;
    }

    /** One whole submission: at most one request, and the button ends up
        enabled whenever a request was made. */
    method Submit(emailInput: string, password: string, res: Response<JsonObject>, stringify: SavedUser -> string)
      returns (req: Option<LoginRequest>)
      modifies this
      ensures req.None? <==> SubmittedEmail(emailInput) == "" || password == ""
      ensures req.None? ==> error == Showing(MsgMissing) && storage == old(storage) && sent == old(sent)
      ensures req.Some? ==> sent == old(sent) + [req.value] && !disabled && caption == IdleLabel
      ensures req.Some? && IsOk(res.status) && res.json.Some? ==>
        storage == old(storage)["token" := StoredText(res.json.value.texts, "token")]
                               ["user" := stringify(SavedUserAsWritten(res.json.value))] &&
        message == Showing(MsgSuccess) && redirect == Some(ProfileHash)
      ensures req.Some? && !IsOk(res.status) ==>
        storage == old(storage) && error == Showing(if res.text != "" then res.text else MsgFailed)
    {
      req := BeginSubmit(emailInput, password);
      if req.Some? {
        FinishSubmit(res, stringify);
      }
    }
  }
}
