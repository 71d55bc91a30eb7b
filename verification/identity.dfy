/** The authenticated caller as the controllers see it (`ClaimsPrincipal User`),
    and the claims a token carries. Signing and validating the token are not
    part of this model: a request either carries the claims of a token the
    server issued, or no claims at all. */
module Identity {
  import opened Wrappers
  import opened Text

  /** The claims the controllers read: `ClaimTypes.NameIdentifier`,
      `ClaimTypes.Role` and the custom `"fullName"` claim. */
  datatype Principal = Principal(
    nameIdentifier: Option<string>,
    role: Option<string>,
    fullName: Option<string>)

  /** The caller of an anonymous request. */
  const Anonymous: Principal := Principal(None, None, None)

  /** The request carries a token the server accepts, which is what
      `[Authorize]` lets through; any other request has no claims. */
  predicate Authenticated(p: Principal) {
    p != Anonymous
  }

  /** `int.TryParse(User.FindFirstValue(ClaimTypes.NameIdentifier), out var id) ? id : null`. */
  function UserIdOf(p: Principal): (r: Option<int>)
    ensures r.Some? ==> IsInt32(r.value)
    ensures IsNullOrEmpty(p.nameIdentifier) ==> r.None?
    ensures r.Some? <==> p.nameIdentifier.Some? && ParseDecimal(p.nameIdentifier.value).Some? &&
                         IsInt32(ParseDecimal(p.nameIdentifier.value).value)
    ensures r.Some? ==> r.value == ParseDecimal(p.nameIdentifier.value).value
  {
    ParseInt32(p.nameIdentifier)
  }

  /** A claim holding a 32-bit integer as `ToString()` prints it reads back as that integer. */
  lemma UserIdOfPrinted(p: Principal, n: int)
    requires IsInt32(n) && p.nameIdentifier == Some(IntToString(n))
    ensures UserIdOf(p) == Some(n)
  {
    ParseInt32OfIntToString(n);
  }

  /** The claims written into a token: subject, name identifier, role, email
      and full name, all of them present, plus the expiry instant (minutes). */
  datatype TokenClaims = TokenClaims(
    sub: string,
    nameIdentifier: string,
    role: string,
    email: string,
    fullName: string,
    expires: int)

  /** The principal a request authenticated with a token presents. */
  function PrincipalOf(t: TokenClaims): Principal {
    Principal(Some(t.nameIdentifier), Some(t.role), Some(t.fullName))
  }
}
