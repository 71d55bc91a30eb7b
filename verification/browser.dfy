/** What the browser gives the client: `localStorage` as a map from keys to
    stored strings, and a `fetch` response as its status, its text and whether
    its content type is JSON. */
module Browser {
  import opened Wrappers

  type Storage = map<string, string>

  /** `localStorage.getItem(key)`: `null` for a missing key. */
  function GetItem(storage: Storage, key: string): (r: Option<string>)
    ensures r.Some? <==> key in storage
    ensures r.Some? ==> r.value == storage[key]
  {
    if key in storage then Some(storage[key]) else None
  }

  /** A response as the client reads it: the body is `T` when it is JSON. */
  datatype Response<T> = Response(status: int, text: string, json: Option<T>)

  /** `res.ok`. */
  predicate IsOk(status: int) {
    200 <= status <= 299
  }
}
