/** The client's one HTTP helper: where requests go, which token they carry,
    which headers they send, and what a response turns into. */
module HttpClient {
  import opened Wrappers
  import opened Text
  import opened Js
  import opened Browser

  /** `(VITE_API_URL ?? VITE_API_BASE_URL ?? '').replace(/\/+$/, '')`: the first
      configured value, not `null`-like, without its trailing slashes. An empty
      `VITE_API_URL` is kept, and gives the empty base. */
  function ApiBase(apiUrl: Option<string>, apiBaseUrl: Option<string>): (base: string)
    ensures base == [] || base[|base| - 1] != '/'
    ensures apiUrl.Some? ==> base <= apiUrl.value
    ensures apiUrl.None? && apiBaseUrl.Some? ==> base <= apiBaseUrl.value
    ensures apiUrl.None? && apiBaseUrl.None? ==> base == []
    ensures var v := Coalesce([apiUrl, apiBaseUrl], "");
      base <= v && forall i :: |base| <= i < |v| ==> v[i] == '/'
  {
    StripTrailing(Coalesce([apiUrl, apiBaseUrl], ""), '/')
  }

  /** `withBase`: the path with a leading slash, after the base when there is one. */
  function WithBase(base: string, path: string): (url: string)
    ensures base <= url
    ensures |url| > |base| && url[|base|] == '/'
    ensures StartsWith(path, "/") ==> url == base + path
    ensures !StartsWith(path, "/") ==> url == base + "/" + path
  {
    var p := if StartsWith(path, "/") then path else "/" + path;
    if base == [] then p else base + p
  }

  /** A missing leading slash is only a matter of spelling. */
  lemma WithBaseSlashOptional(base: string, path: string)
    requires !StartsWith(path, "/")
    ensures WithBase(base, "/" + path) == WithBase(base, path)
  {
  }

  /** `localStorage.getItem('token') || localStorage.getItem('auth_token') || ''`. */
  function StoredToken(storage: Storage): (token: string)
    ensures Truthy(GetItem(storage, "token")) ==> token == storage["token"]
    ensures !Truthy(GetItem(storage, "token")) && Truthy(GetItem(storage, "auth_token")) ==> token == storage["auth_token"]
    ensures !Truthy(GetItem(storage, "token")) && !Truthy(GetItem(storage, "auth_token")) ==> token == ""
  {
    var t := Or(GetItem(storage, "token"), GetItem(storage, "auth_token"));
    if Truthy(t) then t.value else ""
  }

  /** `(opts.authToken && opts.authToken.trim()) || storedToken || ''`: a
      non-blank explicit token, trimmed, wins over the stored one. */
  function EffectiveToken(authToken: Option<string>, storage: Storage): (token: string)
    ensures !IsNullOrWhiteSpace(authToken) ==> token == Trim(authToken.value)
    ensures IsNullOrWhiteSpace(authToken) ==> token == StoredToken(storage)
    ensures token == "" <==> IsNullOrWhiteSpace(authToken) && StoredToken(storage) == ""
  {
    var explicit := if Truthy(authToken) then Some(Trim(authToken.value)) else authToken;
    if Truthy(explicit) then explicit.value else StoredToken(storage)
  }

  const Accept: string := "Accept"
  const ContentType: string := "Content-Type"
  const Authorization: string := "Authorization"
  const ApplicationJson: string := "application/json"

  /** The headers of `request`: `Accept`, `Content-Type` when there is a body,
      then the caller's headers over these, then `Authorization` over all of
      them when there is a token. */
  method BuildHeaders(hasBody: bool, extra: map<string, string>, token: string) returns (headers: map<string, string>)
    ensures headers.Keys == {Accept} + (if hasBody then {ContentType} else {}) + extra.Keys +
                            (if token != "" then {Authorization} else {})
    ensures token != "" ==> headers[Authorization] == "Bearer " + token
    ensures forall k :: k in extra && !(k == Authorization && token != "") ==> headers[k] == extra[k]
    ensures Accept !in extra ==> headers[Accept] == ApplicationJson
    ensures hasBody && ContentType !in extra ==> headers[ContentType] == ApplicationJson
  {
    headers := map[Accept := ApplicationJson];
    if hasBody {
      headers := headers[ContentType := ApplicationJson];
    }
    headers := headers + extra;
    if token != "" {
      headers := headers[Authorization := "Bearer " + token];
    }
  }

  /** What a call returns: the parsed body (`None` for `undefined` or `null`),
      or the error it throws. */
  datatype Outcome<T> = Threw(message: string) | Returned(value: Option<T>)

  function ErrorMessage(verb: string, path: string, status: int, text: string): string {
    verb + " " + path + " -> HTTP " + IntToString(status) + (if text != "" then " - " + text else "")
  }

  /** The end of `request`: a status outside 200..299 throws, naming the
      method, the path and the status; 204 gives `undefined`; otherwise the
      JSON body, or `null` when the body is not JSON. */
  function RequestOutcome<T>(verb: string, path: string, res: Response<T>): (o: Outcome<T>)
    ensures o.Threw? <==> !IsOk(res.status)
    ensures o.Threw? ==> StartsWith(o.message, verb + " " + path + " -> HTTP " + IntToString(res.status))
    ensures res.status == 204 ==> o == Returned(None)
    ensures IsOk(res.status) && res.status != 204 ==> o == Returned(res.json)
  {
    if !IsOk(res.status) then Threw(ErrorMessage(verb, path, res.status, res.text))
    else if res.status == 204 then Returned(None)
    else Returned(res.json)
  }

  /** The end of `httpDelete`: 204 and 404 both count as done, so deleting
      something already gone is no error. */
  function DeleteOutcome<T>(path: string, res: Response<T>): (o: Outcome<T>)
    ensures o.Threw? <==> !IsOk(res.status) && res.status != 404
    ensures res.status == 204 || res.status == 404 ==> o == Returned(None)
    ensures o.Threw? ==> o == RequestOutcome("DELETE", path, res)
  {
    if res.status == 204 || res.status == 404 then Returned(None)
    else if !IsOk(res.status) then Threw(ErrorMessage("DELETE", path, res.status, res.text))
    else Returned(res.json)
  }

  /** Deleting twice: whether the first call removed the resource (204) or
      found it gone (404), neither call throws. */
  lemma DeleteTwiceIsQuiet<T>(path: string, first: Response<T>, second: Response<T>)
    requires first.status in {204, 404} && second.status in {204, 404}
    ensures DeleteOutcome(path, first) == DeleteOutcome(path, second) == Returned(None)
  {
  }

  /** `httpDelete` sends the stored token only, and no body. */
  method DeleteHeaders(storage: Storage) returns (headers: map<string, string>)
    ensures headers.Keys == {Accept} + (if StoredToken(storage) != "" then {Authorization} else {})
    ensures headers[Accept] == ApplicationJson
    ensures StoredToken(storage) != "" ==> headers[Authorization] == "Bearer " + StoredToken(storage)
  {
    var storedToken := StoredToken(storage);
    headers := map[Accept := ApplicationJson];
    if storedToken != "" {
      headers := headers[Authorization := "Bearer " + storedToken];
    }
  }
}
