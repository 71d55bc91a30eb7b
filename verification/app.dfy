/** The single-page shell: which page a location hash selects, who the stored
    user is, and which pages are guarded. */
module App {
  import opened Wrappers
  import opened Text
  import opened Js
  import opened Browser

  /** The pages the shell can show. The root path `/` is not one of them. */
  datatype Route =
    | Products | Brands | Contact | ProductsAdmin | Reviews | Login | Register
    | Profile | ChangePassword | Support | MyTickets | SupportAdmin | Wishlist

  function Path(r: Route): (p: string)
    ensures |p| >= 6 && p[0] == '/' && !IsWhite(p[|p| - 1])
  {
    match r
    case Products => "/proizvodi"
    case Brands => "/brendovi"
    case Contact => "/kontakt"
    case ProductsAdmin => "/proizvodi-admin"
    case Reviews => "/recenzije"
    case Login => "/login"
    case Register => "/register"
    case Profile => "/profil"
    case ChangePassword => "/promjena-lozinke"
    case Support => "/podrska"
    case MyTickets => "/moji-zahtjevi"
    case SupportAdmin => "/support-admin"
    case Wishlist => "/wishlist"
  }

  /** The order in which `getRouteFromHash` tries the prefixes. */
  const Order: seq<Route> := [ProductsAdmin, Brands, Contact, Reviews, Login, Register, Profile,
                              ChangePassword, Support, MyTickets, SupportAdmin, Wishlist, Products]

  /** `s.replace('#', '')`: a string pattern replaces its first occurrence only. */
  function RemoveFirst(s: string, c: char): (r: string)
    ensures c in s ==> |r| == |s| - 1
    ensures c !in s ==> r == s
    ensures s != [] && s[0] == c ==> r == s[1..]
  {
    if s == [] then []
    else if s[0] == c then s[1..]
    else [s[0]] + RemoveFirst(s[1..], c)
  }

  /** `location.hash.replace('#', '').trim() || '/'`. */
  function HashPath(hash: string): (p: string)
    ensures p != []
    ensures IsBlank(RemoveFirst(hash, '#')) ==> p == "/"
  {
    var t := Trim(RemoveFirst(hash, '#'));
    if t == [] then "/" else t
  }

  /** The position of the first route in `routes` whose path starts `p`;
      `|routes|` when there is none. */
  function FirstMatch(p: string, routes: seq<Route>): (k: nat)
    ensures k <= |routes|
    ensures forall j :: 0 <= j < k ==> !StartsWith(p, Path(routes[j]))
    ensures k < |routes| ==> StartsWith(p, Path(routes[k]))
  {
    if routes == [] || StartsWith(p, Path(routes[0])) then 0
    else
      var k := FirstMatch(p, routes[1..]);
      assert forall j :: 1 <= j < k + 1 ==> routes[j] == routes[1..][j - 1];
      k + 1
  }

  /** The first route in `routes` whose path starts `p`. */
  function FirstPrefix(p: string, routes: seq<Route>): (r: Option<Route>)
    ensures r.None? <==> forall i :: 0 <= i < |routes| ==> !StartsWith(p, Path(routes[i]))
    ensures r.Some? ==> StartsWith(p, Path(r.value))
    ensures r.Some? ==> var k := FirstMatch(p, routes);
      k < |routes| && routes[k] == r.value && forall j :: 0 <= j < k ==> !StartsWith(p, Path(routes[j]))
  {
    var k := FirstMatch(p, routes);
    if k < |routes| then Some(routes[k]) else None
  }

  /** `getRouteFromHash`: the first matching prefix in `Order`; a path that
      matches none, the empty path and `/` all go to the products page. */
  function RouteFromHash(hash: string): (r: Route)
    ensures (forall i :: 0 <= i < |Order| ==> !StartsWith(HashPath(hash), Path(Order[i]))) ==> r == Products
    ensures r == Products || StartsWith(HashPath(hash), Path(r))
  {
    FirstPrefix(HashPath(hash), Order).GetOr(Products)
  }

  /** The route of a hash is the first one in `Order` whose path starts the
      hash's path, when there is one: no earlier route matches. */
  lemma RouteFromHashIsFirstMatch(hash: string, k: nat)
    requires k < |Order| && StartsWith(HashPath(hash), Path(Order[k]))
    requires forall j :: 0 <= j < k ==> !StartsWith(HashPath(hash), Path(Order[j]))
    ensures RouteFromHash(hash) == Order[k]
  {
    FirstMatchIsFirst(HashPath(hash), Order, k);
  }

  lemma FirstMatchIsFirst(p: string, routes: seq<Route>, k: nat)
    requires k < |routes| && StartsWith(p, Path(routes[k]))
    requires forall j :: 0 <= j < k ==> !StartsWith(p, Path(routes[j]))
    ensures FirstMatch(p, routes) == k
  {
  }

  lemma HashOfPath(r: Route, rest: string)
    ensures StartsWith(HashPath("#" + Path(r) + rest), Path(r))
  {
    var p := Path(r);
    var h := "#" + p + rest;
    assert h[0] == '#' && h[1..] == p + rest;
    assert !IsWhite(p[0]);
    TrimKeepsPrefix(p, rest);
  }

  /** A hash beginning with an administrator products link selects that page,
      although it also begins with the products path. */
  lemma {:induction false} AdminProductsWins(rest: string)
    ensures RouteFromHash("#" + Path(ProductsAdmin) + rest) == ProductsAdmin
  {
    HashOfPath(ProductsAdmin, rest);
  }

  /** Routes whose paths share their first letters: only the two products pages. */
  function Family(r: Route): Route {
    if r == ProductsAdmin then Products else r
  }

  /** The route family a path belongs to, from its letters at positions 1, 3 and 4. */
  function FamilyOfLetters(c1: char, c3: char, c4: char): Route {
    if c1 == 'b' then Brands
    else if c1 == 'k' then Contact
    else if c1 == 'l' then Login
    else if c1 == 'w' then Wishlist
    else if c1 == 's' then SupportAdmin
    else if c1 == 'm' then MyTickets
    else if c1 == 'r' then (if c3 == 'c' then Reviews else Register)
    else if c3 == 'd' then Support
    else if c4 == 'f' then Profile
    else if c4 == 'm' then ChangePassword
    else Products
  }

  lemma FamilyOfPath(r: Route)
    ensures FamilyOfLetters(Path(r)[1], Path(r)[3], Path(r)[4]) == Family(r)
  {
    match r
    case Products =>
    case Brands =>
    case Contact =>
    case ProductsAdmin =>
    case Reviews =>
    case Login =>
    case Register =>
    case Profile =>
    case ChangePassword =>
    case Support =>
    case MyTickets =>
    case SupportAdmin =>
    case Wishlist =>
  }

  /** Of two different routes, one path begins the other only for the products
      path and the administrator products path. */
  lemma {:induction false} PathPrefix(r1: Route, r2: Route)
    requires StartsWith(Path(r2), Path(r1))
    ensures r1 == r2 || (r1 == Products && r2 == ProductsAdmin)
  {
    var p1, p2 := Path(r1), Path(r2);
    assert p1[1] == p2[1] && p1[3] == p2[3] && p1[4] == p2[4];
    FamilyOfPath(r1);
    FamilyOfPath(r2);
  }

  /** Every route is tried. */
  lemma InOrder(r: Route)
    ensures r in Order
  {
    match r
    case Products =>
    case Brands =>
    case Contact =>
    case ProductsAdmin =>
    case Reviews =>
    case Login =>
    case Register =>
    case Profile =>
    case ChangePassword =>
    case Support =>
    case MyTickets =>
    case SupportAdmin =>
    case Wishlist =>
  }

  lemma {:induction false} FirstPrefixOfPath(r: Route)
    ensures FirstPrefix(Path(r), Order) == Some(r)
  {
    var p := Path(r);
    InOrder(r);
    var i :| 0 <= i < |Order| && Order[i] == r;
    assert StartsWith(p, Path(Order[i]));
    var k := FirstMatch(p, Order);
    assert k <= i;
    PathPrefix(Order[k], r);
  }

  /** Every link of the navigation bar, `#` followed by a route's path, selects that route. */
  lemma {:induction false} LinkSelectsItsRoute(r: Route)
    ensures RouteFromHash("#" + Path(r)) == r
  {
    var p := Path(r);
    assert RemoveFirst("#" + p, '#') == p;
    TrimOfTrimmed(p);
    FirstPrefixOfPath(r);
  }

  /** An empty hash, `#` and `#/` all show the products page. */
  lemma EmptyHashShowsProducts(hash: string)
    requires hash in {"", "#", "#/"}
    ensures RouteFromHash(hash) == Products
  {
    var t := RemoveFirst(hash, '#');
    assert t == "" || t == "/";
    TrimOfTrimmed(t);
    assert HashPath(hash) == "/";
  }

  // ---------------------------------------------------------------- user

  /** The fields of the stored `user` JSON that the shell reads. */
  datatype StoredUser = StoredUser(id: Option<int>, userId: Option<int>, role: Option<string>)

  /** The shell's `UserShape`. */
  datatype AppUser = AppUser(userId: Option<int>, roleName: Option<string>, roleId: Option<int>)

  /** A JSON number is truthy unless it is 0. */
  predicate IdTruthy(n: Option<int>) {
    n.Some? && n.value != 0
  }

  /** `getCurrentUser`: `parse` stands for `JSON.parse`, `None` when it throws,
      `Some(None)` for a falsy result. */
  function CurrentUser(storage: Storage, parse: string -> Option<Option<StoredUser>>): (u: Option<AppUser>)
    ensures !Truthy(GetItem(storage, "user")) ==> u.None?
    ensures Truthy(GetItem(storage, "user")) && parse(storage["user"]).Some? && parse(storage["user"]).value.Some? ==> u.Some?
    ensures u.Some? ==> Truthy(GetItem(storage, "user")) && parse(storage["user"]).Some? && parse(storage["user"]).value.Some?
    ensures u.Some? ==> var f := parse(storage["user"]).value.value;
      (IdTruthy(f.id) ==> u.value.userId == f.id) && (!IdTruthy(f.id) ==> u.value.userId == f.userId) &&
      u.value.roleName == f.role &&
      (u.value.roleId == Some(1) <==> f.role == Some("Admin")) && (u.value.roleId.None? <==> f.role != Some("Admin"))
  {
    var userJson := GetItem(storage, "user");
    if !Truthy(userJson) then None
    else match parse(userJson.value)
      case None => None
      case Some(None) => None
      case Some(Some(f)) =>
        Some(AppUser(if IdTruthy(f.id) then f.id else f.userId, f.role, if f.role == Some("Admin") then Some(1) else None))
  }

  /** `isAdmin`. */
  predicate IsAdmin(user: Option<AppUser>) {
    user.Some? && (user.value.roleName == Some("Admin") || user.value.roleId == Some(1))
  }

  /** For the user the shell reads from storage, being an administrator is
      exactly a stored role of `Admin`, in that letter case. */
  lemma {:induction false} AdminIsStoredRole(storage: Storage, parse: string -> Option<Option<StoredUser>>)
    ensures IsAdmin(CurrentUser(storage, parse)) <==>
      CurrentUser(storage, parse).Some? && parse(storage["user"]).value.value.role == Some("Admin")
  {
  }

  // ---------------------------------------------------------------- render

  /** The pages that need a token. */
  predicate NeedsToken(r: Route) {
    r == Profile || r == ChangePassword || r == MyTickets
  }

  const LoginHash: string := "#/login"

  /** The guards of `render`: `Some` of the hash it redirects to, or `None`
      when the page may be shown. */
  function Guard(route: Route, admin: bool, token: Option<string>): (redirect: Option<string>)
    ensures redirect.Some? ==> redirect.value == LoginHash
    ensures NeedsToken(route) ==> (redirect.None? <==> Truthy(token))
    ensures route == SupportAdmin ==> (redirect.None? <==> Truthy(token) && admin)
    ensures !NeedsToken(route) && route != SupportAdmin ==> redirect.None?
  {
    if NeedsToken(route) && !Truthy(token) then Some(LoginHash)
    else if route == SupportAdmin && (!Truthy(token) || !admin) then Some(LoginHash)
    else None
  }

  /** Which navigation links are visible. */
  datatype NavLinks = NavLinks(
    login: bool, register: bool, logout: bool, profile: bool,
    changePassword: bool, myTickets: bool, supportAdmin: bool)

  /** What one `render` decides: the route the hash selects, the links for
      the stored user, and the guard's redirect. */
  datatype Rendered = Rendered(route: Route, links: NavLinks, redirect: Option<string>)

  /** `render`'s decisions for a hash and the stored user and token. */
  function Rendering(hash: string, storage: Storage, parse: string -> Option<Option<StoredUser>>): Rendered
  {
    var route := RouteFromHash(hash);
    var user := CurrentUser(storage, parse);
    var admin := IsAdmin(user);
    var signedIn := user.Some?;
    Rendered(route, NavLinks(!signedIn, !signedIn, signedIn, signedIn, signedIn, signedIn, admin),
             Guard(route, admin, GetItem(storage, "token")))
  }

  /** A page that needs a token is only shown with one, the support
      administration page only to an administrator, any other page always;
      the links for signing in and for the signed-in pages are never shown
      together, and the administrator's link only to an administrator. */
  lemma RenderingGuards(hash: string, storage: Storage, parse: string -> Option<Option<StoredUser>>)
    ensures var v := Rendering(hash, storage, parse);
      var token := GetItem(storage, "token");
      var user := CurrentUser(storage, parse);
      v.route == RouteFromHash(hash) &&
      (v.redirect.Some? ==> v.redirect.value == LoginHash) &&
      (v.redirect.Some? <==>
        ((NeedsToken(v.route) && !Truthy(token)) ||
         (v.route == SupportAdmin && !(Truthy(token) && IsAdmin(user))))) &&
      v.links.login == v.links.register == !v.links.logout &&
      v.links.logout == v.links.profile == v.links.changePassword == v.links.myTickets == user.Some? &&
      (v.links.supportAdmin <==> IsAdmin(user))
  {
  }

  /** The shell's state: the hash, the highlighted link, the links shown and
      the page last rendered. */
  class Shell {
    var hash: string
    var active: Option<Route>
    var links: NavLinks
    var page: Option<Route>

    constructor(hash: string)
      ensures this.hash == hash && active.None? && page.None?
      ensures links == NavLinks(true, true, false, true, true, true, false)
    {
      this.hash := hash;
      active := None;
      page := None;
      // The initial markup: every link shown except logout and the administrator's support page.
      links := NavLinks(true, true, false, true, true, true, false);
    }

    /** `render`: highlight the route, show the links for the stored user,
        then either redirect to the login page or show the route. */
    method Render(storage: Storage, parse: string -> Option<Option<StoredUser>>)
      modifies this
      ensures var v := Rendering(old(hash), storage, parse);
        active == Some(v.route) && links == v.links &&
        (v.redirect.Some? ==> hash == v.redirect.value && page == old(page)) &&
        (v.redirect.None? ==> hash == old(hash) && page == Some(v.route))
    {
      var v := Rendering(hash, storage, parse);
      active := Some(v.route);
      links := v.links;
      if v.redirect.Some? {
        hash := v.redirect.value;
      } else {
        page := Some(v.route);
      }
    }
  }
}
