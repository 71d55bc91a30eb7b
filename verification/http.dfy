/** HTTP results as the controllers produce them. */
module Http {

  /** The `IActionResult` kinds the controllers return. */
  datatype Status =
    | Ok            // 200
    | Created       // 201
    | NoContent     // 204
    | BadRequest    // 400
    | Unauthorized  // 401
    | Forbidden     // 403
    | NotFound      // 404
    | Conflict      // 409
    | ServerError   // 500, an unhandled exception
  {
    function Code(): (c: int)
      ensures 200 <= c < 600
      ensures (c < 300) <==> (this == Ok || this == Created || this == NoContent)
    {
      match this
      case Ok => 200
      case Created => 201
      case NoContent => 204
      case BadRequest => 400
      case Unauthorized => 401
      case Forbidden => 403
      case NotFound => 404
      case Conflict => 409
      case ServerError => 500
    }
  }

  /** The body ASP.NET Core writes under `[ApiController]` for an error result
      that carries no value, such as `NotFound()` or `Unauthorized()`: a
      problem-details JSON object (RFC 9457) giving the status's type URI in
      RFC 9110, its title and its code. The per-request `traceId` member that
      follows them is not part of the model. */
  function ProblemText(s: Status): (t: string)
    requires 400 <= s.Code()
    ensures t != [] && t[0] == '{' && t[|t| - 1] == '}'
  {
    var (section, title, code) := match s
      case BadRequest => ("15.5.1", "Bad Request", "400")
      case Unauthorized => ("15.5.2", "Unauthorized", "401")
      case Forbidden => ("15.5.4", "Forbidden", "403")
      case NotFound => ("15.5.5", "Not Found", "404")
      case Conflict => ("15.5.10", "Conflict", "409")
      case _ => ("15.6.1", "An error occurred while processing your request.", "500");
    Problem(section, title, code)
  }

  function Problem(section: string, title: string, code: string): (t: string)
    ensures t != [] && t[0] == '{' && t[|t| - 1] == '}'
  {
    var members := "\"type\":\"https://tools.ietf.org/html/rfc9110#section-" + section +
      "\",\"title\":\"" + title + "\",\"status\":" + code;
    ['{'] + members + ['}']
  }

  /** A response: an error with its message, or a success with its body. */
  datatype Reply<T> =
    | Failure(status: Status, message: string)
    | Success(status: Status, body: T)
}
