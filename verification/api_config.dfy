/** What the login page and the user API modules share: the API base read
    from the build environment, the `Authorization` header taken from the
    stored token, and the message of a failed call. */
module ApiConfig {
  import opened Wrappers
  import opened Text
  import opened Js
  import opened Browser
  import opened HttpClient
  import Http

  const DefaultBase: string := "/api"
  const ApiSuffix: string := "/api"

  /** `import.meta.env`: the two variables that may name the API. */
  datatype Env = Env(apiBaseUrl: Option<string>, apiUrl: Option<string>)

  /** `env.VITE_API_BASE_URL || env.VITE_API_URL || "/api"`. */
  function EnvBase(env: Env): (b: string)
    ensures b != ""
    ensures Truthy(env.apiBaseUrl) ==> b == env.apiBaseUrl.value
    ensures !Truthy(env.apiBaseUrl) && Truthy(env.apiUrl) ==> b == env.apiUrl.value
    ensures !Truthy(env.apiBaseUrl) && !Truthy(env.apiUrl) ==> b == DefaultBase
  {
    var b := Or(env.apiBaseUrl, env.apiUrl);
    if Truthy(b) then b.value else DefaultBase
  }

  /** `s.endsWith("/api")`. */
  predicate EndsWithApi(s: string) {
    |s| >= |ApiSuffix| && s[|s| - |ApiSuffix|..] == ApiSuffix
  }

  predicate IsRelative(s: string) {
    s != [] && s[0] == '/'
  }

  /** A string whose last character is not a slash loses nothing to `StripTrailing`. */
  lemma StripNothing(s: string)
    requires s != [] && s[|s| - 1] != '/'
    ensures StripTrailing(s, '/') == s
  {
  }

  /** One more trailing slash makes no difference to `StripTrailing`. */
  lemma StripExtraSlash(s: string)
    ensures StripTrailing(s + "/", '/') == StripTrailing(s, '/')
  {
    assert (s + "/")[..|s|] == s;
  }

  lemma EndsWithApiLast(s: string)
    requires EndsWithApi(s)
    ensures s[|s| - 1] == 'i'
  {
    assert s[|s| - 1] == s[|s| - |ApiSuffix|..][3];
  }

  lemma EndsWithApiAppended(s: string)
    ensures EndsWithApi(s + ApiSuffix)
  {
    assert (s + ApiSuffix)[|s + ApiSuffix| - |ApiSuffix|..] == ApiSuffix;
  }

  /** A base ending in `/api` has no trailing slash to strip. */
  lemma StripKeepsApi(s: string)
    ensures EndsWithApi(s) ==> StripTrailing(s, '/') == s
  {
    if EndsWithApi(s) {
      EndsWithApiLast(s);
      StripNothing(s);
    }
  }

  /** The `resolveApiBase` of `commands/user.ts` as written: the suffix is
      checked before the trailing slashes are stripped. */
  function AppendApiAsWritten(base: string): (r: string)
    ensures EndsWithApi(r)
    ensures EndsWithApi(base) ==> r == base
    ensures !EndsWithApi(base) ==> r == StripTrailing(base, '/') + ApiSuffix
  {
    EndsWithApiAppended(StripTrailing(base, '/'));
    if EndsWithApi(base) then base else StripTrailing(base, '/') + ApiSuffix
  }

  /** The same with the trailing slashes stripped first, so that the suffix
      check sees the base without them. */
  function AppendApi(base: string): (r: string)
    ensures EndsWithApi(r)
    ensures EndsWithApi(base) ==> r == base
    ensures r == StripTrailing(base, '/') || r == StripTrailing(base, '/') + ApiSuffix
  {
    var b := StripTrailing(base, '/');
    EndsWithApiAppended(b);
    StripKeepsApi(base);
    if EndsWithApi(b) then b else b + ApiSuffix
  }

  /** A base that already ends in `/api` followed by a slash gets a second
      `/api` as written; the corrected form leaves a single one. */
  lemma TrailingSlashDoublesApi(host: string)
    ensures AppendApiAsWritten(host + "/api/") == host + "/api/api"
    ensures AppendApi(host + "/api/") == host + "/api"
  {
    var withApi := host + ApiSuffix;
    assert host + "/api/" == withApi + "/";
    assert !EndsWithApi(withApi + "/") by {
      assert (withApi + "/")[|withApi|] == '/';
    }
    StripExtraSlash(withApi);
    EndsWithApiAppended(host);
    EndsWithApiLast(withApi);
    StripNothing(withApi);
    assert withApi + ApiSuffix == host + "/api/api";
  }

  /** The corrected suffix rule does not care about trailing slashes. */
  lemma AppendApiIgnoresTrailingSlash(base: string)
    ensures AppendApi(base + "/") == AppendApi(base)
  {
    StripExtraSlash(base);
    if EndsWithApi(base + "/") {
      EndsWithApiLast(base + "/");
    }
  }

  /** Resolving a resolved base changes nothing. */
  lemma AppendApiIdempotent(base: string)
    ensures AppendApi(AppendApi(base)) == AppendApi(base)
  {
  }

  /** The `resolveApiBase` of `LoginPage.ts` and `queries/user.ts` as written:
      a relative base only loses its trailing slashes; any other base gets
      the suffix rule of `AppendApiAsWritten`. */
  function RelativeOrAppendApiAsWritten(base: string): (r: string)
    ensures IsRelative(base) ==> r == StripTrailing(base, '/')
    ensures !IsRelative(base) ==> EndsWithApi(r) && (EndsWithApi(base) ==> r == base)
  {
    if IsRelative(base) then StripTrailing(base, '/') else AppendApiAsWritten(base)
  }

  /** The same with the corrected suffix rule. */
  function RelativeOrAppendApi(base: string): (r: string)
    ensures IsRelative(base) ==> r == StripTrailing(base, '/')
    ensures !IsRelative(base) ==> EndsWithApi(r) && (EndsWithApi(base) ==> r == base)
  {
    if IsRelative(base) then StripTrailing(base, '/') else AppendApi(base)
  }

  /** An absolute base ending in `/api/` shows the same doubling here. */
  lemma AbsoluteTrailingSlashDoublesApi(host: string)
    requires host != [] && host[0] != '/'
    ensures RelativeOrAppendApiAsWritten(host + "/api/") == host + "/api/api"
    ensures RelativeOrAppendApi(host + "/api/") == host + "/api"
  {
    assert (host + "/api/")[0] == host[0];
    TrailingSlashDoublesApi(host);
  }

  /** With the corrected rule a non-empty base and the same base with one
      more trailing slash resolve alike. */
  lemma RelativeOrAppendApiIgnoresTrailingSlash(base: string)
    requires base != ""
    ensures RelativeOrAppendApi(base + "/") == RelativeOrAppendApi(base)
  {
    assert (base + "/")[0] == base[0];
    StripExtraSlash(base);
    AppendApiIgnoresTrailingSlash(base);
  }

  /** With no variable set every variant resolves to `/api`. */
  lemma DefaultResolvesToApi(env: Env)
    ensures !Truthy(env.apiBaseUrl) && !Truthy(env.apiUrl) ==>
      AppendApiAsWritten(EnvBase(env)) == AppendApi(EnvBase(env)) == DefaultBase
    ensures !Truthy(env.apiBaseUrl) && !Truthy(env.apiUrl) ==>
      RelativeOrAppendApiAsWritten(EnvBase(env)) == RelativeOrAppendApi(EnvBase(env)) == DefaultBase
  {
    assert EndsWithApi(DefaultBase) by {
      assert DefaultBase[|DefaultBase| - |ApiSuffix|..] == DefaultBase;
    }
    StripNothing(DefaultBase);
  }

  /** The `API` of `LoginPage.ts` and `queries/user.ts`, as written: a
      relative base keeps its path without trailing slashes, any other ends
      in `/api`, and one that already does is kept as it is. */
  function RelativeApi(env: Env): (api: string)
    ensures IsRelative(EnvBase(env)) ==> api == StripTrailing(EnvBase(env), '/')
    ensures !IsRelative(EnvBase(env)) ==> EndsWithApi(api)
    ensures !IsRelative(EnvBase(env)) && EndsWithApi(EnvBase(env)) ==> api == EnvBase(env)
    ensures !IsRelative(EnvBase(env)) && !EndsWithApi(EnvBase(env)) ==>
      api == StripTrailing(EnvBase(env), '/') + ApiSuffix
    ensures !Truthy(env.apiBaseUrl) && !Truthy(env.apiUrl) ==> api == DefaultBase
  {
    DefaultResolvesToApi(env);
    RelativeOrAppendApiAsWritten(EnvBase(env))
  }

  // ---------------------------------------------------------------- headers

  /** `authHeaders`: `storage` is `None` when `localStorage` is missing or
      throws; the stored token is sent as it is, without trimming. */
  function AuthHeaders(storage: Option<Storage>): (h: map<string, string>)
    ensures Authorization in h <==> storage.Some? && Truthy(GetItem(storage.value, "token"))
    ensures h.Keys <= {Authorization}
    ensures Authorization in h ==> h[Authorization] == "Bearer " + storage.value["token"]
  {
    if storage.None? then map[]
    else
      var token := GetItem(storage.value, "token");
      if Truthy(token) then map[Authorization := "Bearer " + token.value] else map[]
  }

  /** Whenever a `token` entry is stored, these headers carry the same bearer
      as the shared HTTP client's. */
  lemma AuthHeadersAgreeWithClient(storage: Storage)
    requires Truthy(GetItem(storage, "token"))
    ensures AuthHeaders(Some(storage))[Authorization] == "Bearer " + EffectiveToken(None, storage)
  {
  }

  /** A request as `fetch` is given it (the JSON body is left out). */
  datatype Call = Call(verb: string, url: string, headers: map<string, string>)

  /** `{ "Content-Type": "application/json", ...authHeaders() }`. */
  function JsonHeaders(storage: Option<Storage>): (h: map<string, string>)
    ensures h.Keys == {ContentType} + AuthHeaders(storage).Keys
    ensures h[ContentType] == ApplicationJson
    ensures Authorization in h ==> h[Authorization] == AuthHeaders(storage)[Authorization]
  {
    map[ContentType := ApplicationJson] + AuthHeaders(storage)
  }

  // ---------------------------------------------------------------- failures

  /** `throw new Error(text || fallback)` for a status outside 200..299. */
  function Failed<T>(res: Response<T>, fallback: string): (o: Outcome<T>)
    requires !IsOk(res.status)
    ensures o.Threw?
    ensures res.text != "" ==> o.message == res.text
    ensures res.text == "" ==> o.message == fallback
  {
    Threw(if res.text != "" then res.text else fallback)
  }

  /** A controller's reply as it arrives: an error's message is the text of the
      body, a success's value is its JSON body. */
  function OnWire<T>(r: Http.Reply<T>): (res: Response<T>)
    ensures res.status == r.status.Code()
    ensures r.Failure? ==> res.text == r.message && res.json.None?
    ensures r.Success? ==> res.json == Some(r.body)
  {
    match r
    case Failure(s, m) => Response(s.Code(), m, None)
    case Success(s, b) => Response(s.Code(), "", Some(b))
  }
}
