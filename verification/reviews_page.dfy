/** The reviews page of the browser client: who the signed-in user is (read
    from the stored user and the token's payload), which reviews show edit and
    delete buttons, the rating filter and the five-per-page pagination, the
    escaping of review text, and the checks made before an edit is sent. */
module ReviewsPage {
  import opened Wrappers
  import opened Text
  import opened Js
  import opened Queries
  import Html
  import ReviewsController
  import Identity

  type ReviewDto = ReviewsController.ReviewDto

  // ---------------------------------------------------------------- token payload

  /** The payload of a token as `JSON.parse` returns it: claim names to claim values. */
  type Payload = map<string, string>

  const NameIdentifierClaim: string := "http://schemas.xmlsoap.org/ws/2005/05/identity/claims/nameidentifier"
  const RoleClaim: string := "http://schemas.microsoft.com/ws/2008/06/identity/claims/role"

  /** `s.replace(/-/g, '+').replace(/_/g, '/')`: the base64url alphabet of
      section 5 of RFC 4648 mapped back to the standard one of section 4. */
  function Base64FromUrl(s: string): (r: string)
    ensures |r| == |s|
    ensures '-' !in r && '_' !in r
    ensures forall i :: 0 <= i < |s| && s[i] != '-' && s[i] != '_' ==> r[i] == s[i]
  {
    var r := seq(|s|, i requires 0 <= i < |s| => if s[i] == '-' then '+' else if s[i] == '_' then '/' else s[i]);
    assert forall i :: 0 <= i < |r| ==> r[i] != '-' && r[i] != '_';
    r
  }

  /** `decodeJwtPayload`: `atob` and `JSON.parse` are parameters, `None` standing
      for the exception each may throw. The signature is not checked. */
  function DecodeJwtPayload(token: Option<string>, atob: string -> Option<string>, parse: string -> Option<Payload>)
    : (r: Option<Payload>)
    ensures r.Some? ==> Truthy(token) && Count(token.value, '.') == 2
    ensures r.Some? ==>
      var encoded := Base64FromUrl(Split(token.value, '.')[1]);
      atob(encoded).Some? && r == parse(atob(encoded).value)
    ensures Truthy(token) && Count(token.value, '.') == 2 ==>
      var encoded := Base64FromUrl(Split(token.value, '.')[1]);
      atob(encoded).Some? ==> r == parse(atob(encoded).value)
  {
    if !Truthy(token) then None
    else
      var parts := Split(token.value, '.');
      if |parts| != 3 then None
      else match atob(Base64FromUrl(parts[1]))
        case None => None
        case Some(json) => parse(json)
  }

  /** Only the middle segment is read: the header and the signature can be
      anything without a dot. */
  lemma DecodeReadsOnlyPayload(
    header: string, body: string, signature: string, header': string, signature': string,
    atob: string -> Option<string>, parse: string -> Option<Payload>)
    requires '.' !in header && '.' !in body && '.' !in signature
    requires '.' !in header' && '.' !in signature'
    ensures DecodeJwtPayload(Some(header + "." + body + "." + signature), atob, parse) ==
            DecodeJwtPayload(Some(header' + "." + body + "." + signature'), atob, parse)
  {
    var t, t' := header + "." + body + "." + signature, header' + "." + body + "." + signature';
    Parts(header, body, signature);
    Parts(header', body, signature');
    assert Truthy(Some(t)) && Truthy(Some(t'));
    assert Split(t, '.')[1] == Split(t', '.')[1];
  }

  lemma Parts(header: string, body: string, signature: string)
    requires '.' !in header && '.' !in body && '.' !in signature
    ensures Split(header + "." + body + "." + signature, '.') == [header, body, signature]
  {
    var t := header + "." + body + "." + signature;
    assert t == header + ['.'] + (body + ['.'] + signature);
    SplitAtFirst(header, body + ['.'] + signature, '.');
    SplitAtFirst(body, signature, '.');
    SplitNoSeparator(signature, '.');
  }

  function Claim(payload: Option<Payload>, name: string): Option<string> {
    if payload.Some? && name in payload.value then Some(payload.value[name]) else None
  }

  /** `x || null` on optional strings: a falsy value becomes `null`. */
  function OrNull(a: Option<string>): (r: Option<string>)
    ensures Truthy(a) ==> r == a
    ensures !Truthy(a) ==> r.None?
  {
    if Truthy(a) then a else None
  }

  // ---------------------------------------------------------------- current user

  /** The fields of the stored `user` object this page reads. */
  datatype StoredUser = StoredUser(roleName: Option<string>, role: Option<string>, email: Option<string>)

  /** The page's idea of the signed-in user. */
  datatype PageUser = PageUser(id: Option<JsNumber>, role: Option<string>, email: Option<string>, fullName: Option<string>)

  /** `getCurrentUser` of the reviews page, given the parsed stored user and the
      decoded payload of the stored token. */
  function CurrentUser(raw: Option<StoredUser>, payload: Option<Payload>): (u: Option<PageUser>)
    ensures u.None? <==>
      !Truthy(IdFromToken(payload)) && !Truthy(RoleFromUser(raw)) && !Truthy(RoleFromToken(payload)) &&
      !Truthy(Claim(payload, "fullName")) && !Truthy(EmailOf(raw, payload))
    ensures raw.None? && payload.None? ==> u.None?
    // the id comes from the token only, the name-identifier claim before `sub`
    ensures u.Some? ==> (u.value.id.Some? <==> Truthy(Claim(payload, NameIdentifierClaim)) || Truthy(Claim(payload, "sub")))
    ensures u.Some? && Truthy(Claim(payload, NameIdentifierClaim)) ==>
      u.value.id == Some(NumberOf(Claim(payload, NameIdentifierClaim).value))
    // the stored user's role wins over the token's
    ensures u.Some? && Truthy(RoleFromUser(raw)) ==> u.value.role == RoleFromUser(raw)
    ensures u.Some? && !Truthy(RoleFromUser(raw)) ==> u.value.role == RoleFromToken(payload)
    // the full name is read from the token only
    ensures u.Some? ==> u.value.fullName == OrNull(Claim(payload, "fullName"))
  {
    var idFromToken := IdFromToken(payload);
    var roleFromUser := RoleFromUser(raw);
    var roleFromToken := RoleFromToken(payload);
    var fullNameFromToken := OrNull(Claim(payload, "fullName"));
    var emailFromToken := EmailOf(raw, payload);
    if Truthy(Or(Or(Or(Or(idFromToken, roleFromUser), roleFromToken), fullNameFromToken), emailFromToken)) then
      Some(PageUser(
        if Truthy(idFromToken) then Some(NumberOf(idFromToken.value)) else None,
        if roleFromUser.Some? then roleFromUser else roleFromToken,
        emailFromToken,
        fullNameFromToken))
    else None
  }

  function IdFromToken(payload: Option<Payload>): Option<string> {
    OrNull(Or(Claim(payload, NameIdentifierClaim), Claim(payload, "sub")))
  }

  function RoleFromUser(raw: Option<StoredUser>): Option<string> {
    if raw.None? then None else OrNull(Or(raw.value.roleName, raw.value.role))
  }

  function RoleFromToken(payload: Option<Payload>): Option<string> {
    OrNull(Or(Claim(payload, RoleClaim), Claim(payload, "role")))
  }

  function EmailOf(raw: Option<StoredUser>, payload: Option<Payload>): Option<string> {
    OrNull(Or(Claim(payload, "email"), if raw.None? then None else raw.value.email))
  }

  // ---------------------------------------------------------------- buttons

  /** `(s ?? '').trim().toLowerCase()`. */
  function NormName(s: Option<string>): (r: string)
    ensures r == [] <==> IsNullOrWhiteSpace(s)
  {
    ToLower(Trim(s.GetOr("")))
  }

  /** `a.split(/\s+/)[0]` for a trimmed `a`: the text before the first whitespace. */
  function FirstToken(a: string): (t: string)
    ensures t <= a
    ensures forall i :: 0 <= i < |t| ==> !IsWhite(t[i])
    ensures |t| < |a| ==> IsWhite(a[|t|])
  {
    TakeUntil(a, IsWhite)
  }

  /** `likelySamePerson`: both names non-blank and, after normalising, the
      user's name holds the review's name or the review's name holds the first
      word of the user's name (equality and first-word equality are special
      cases of these two). */
  function LikelySamePerson(userFullName: Option<string>, reviewUserName: Option<string>): (ok: bool)
    ensures IsNullOrWhiteSpace(userFullName) || IsNullOrWhiteSpace(reviewUserName) ==> !ok
    ensures ok <==>
      !IsNullOrWhiteSpace(userFullName) && !IsNullOrWhiteSpace(reviewUserName) &&
      (Contains(NormName(userFullName), NormName(reviewUserName)) ||
       Contains(NormName(reviewUserName), FirstToken(NormName(userFullName))))
  {
    var a := NormName(userFullName);
    var b := NormName(reviewUserName);
    if a == [] || b == [] then false
    else
      var aFirst := FirstToken(a);
      SameOrFirstIsContained(a, b);
      a == b || aFirst == b || Contains(a, b) || Contains(b, aFirst)
  }

  /** Equal names, and a review name equal to the first word, are both caught by the containment tests. */
  lemma SameOrFirstIsContained(a: string, b: string)
    ensures (a == b || FirstToken(a) == b) ==> Contains(a, b) || Contains(b, FirstToken(a))
  {
    if a == b {
      ContainsAt(a, b, 0);
    } else if FirstToken(a) == b {
      ContainsAt(b, FirstToken(a), 0);
    }
  }

  /** `canEdit`, which is also `canDelete`: a signed-in user whose role is
      exactly "Admin", whose id is the review's owner id, or, for a review
      without an owner id, whose name is likely the author's. */
  function CanEdit(user: Option<PageUser>, r: ReviewDto): (ok: bool)
    ensures user.None? ==> !ok
    ensures user.Some? && user.value.role == Some("Admin") ==> ok
    ensures r.userId.Some? ==>
      (ok <==> user.Some? && (user.value.role == Some("Admin") || user.value.id == Some(Whole(r.userId.value))))
    ensures r.userId.None? ==>
      (ok <==> user.Some? && (user.value.role == Some("Admin") || LikelySamePerson(user.value.fullName, r.userName)))
  {
    user.Some? && (
      user.value.role == Some("Admin") ||
      (user.value.id.Some? && user.value.id.value.Whole? && r.userId == Some(user.value.id.value.value)) ||
      (r.userId.None? && LikelySamePerson(user.value.fullName, r.userName)))
  }

  /** The page offers the buttons wherever the server's name rule lets the
      user act: the server's rule is the stricter of the two. */
  lemma {:induction false} ServerNameRuleShowsButtons(fullName: Option<string>, userName: Option<string>)
    requires ReviewsController.NameFallback(fullName, userName)
    ensures LikelySamePerson(fullName, userName)
  {
    var a := NormName(fullName);
    var b := NormName(userName);
    assert a == ReviewsController.Norm(fullName.value) && b == ReviewsController.Norm(userName.value);
  }

  /** The converse fails: the page shows the buttons to a user named "a b" on
      a review by "a c" (the review's name holds the first word "a"), and the
      server then refuses the edit. */
  lemma ButtonsWhereServerRefuses(userFullName: string, reviewUserName: string)
    requires userFullName == "a b" && reviewUserName == "a c"
    ensures LikelySamePerson(Some(userFullName), Some(reviewUserName))
    ensures !ReviewsController.NameFallback(Some(userFullName), Some(reviewUserName))
  {
    var a, b := userFullName, reviewUserName;
    assert a != [] && b != [] && a != b && ' ' in b && |a| == |b| == 3 && a[2] != b[2];
    SameLengthNotContained(a, b, 2);
    SampleFirstWordShared(a, b);
    SampleNameNormal(a);
    SampleNameNormal(b);
    PageAcceptsNormal(a, b);
    ServerRefusesNormal(a, b);
  }

  lemma SampleNameNormal(a: string)
    requires a == "a b" || a == "a c"
    ensures NormName(Some(a)) == a && ReviewsController.Norm(a) == a
  {
    NormOfNormal(a);
  }

  lemma SampleFirstWordShared(a: string, b: string)
    requires a == "a b" && b == "a c"
    ensures Contains(b, FirstToken(a))
  {
    FirstTokenOfTwoWords(a);
    ContainsAt(b, a[..1], 0);
  }

  /** The page's rule on names already in normal form, where the review's
      name holds the first word of the user's. */
  lemma PageAcceptsNormal(a: string, b: string)
    requires NormName(Some(a)) == a && NormName(Some(b)) == b && a != [] && b != []
    requires Contains(b, FirstToken(a))
    ensures LikelySamePerson(Some(a), Some(b))
  {
  }

  /** The server's rule on names already in normal form that differ, neither
      holding the other, where the review's name is not a single word. */
  lemma ServerRefusesNormal(a: string, b: string)
    requires ReviewsController.Norm(a) == a && ReviewsController.Norm(b) == b
    requires a != b && !Contains(a, b) && ' ' in b
    ensures !ReviewsController.NameFallback(Some(a), Some(b))
  {
  }

  lemma FirstTokenOfTwoWords(a: string)
    requires |a| >= 2 && !IsWhite(a[0]) && IsWhite(a[1])
    ensures FirstToken(a) == a[..1]
  {
  }

  lemma SameLengthNotContained(a: string, b: string, k: nat)
    requires |a| == |b| && k < |a| && a[k] != b[k]
    ensures !Contains(a, b)
  {
    assert a[0..] == a;
  }

  /** Names already trimmed and in lower case are their own normal form. */
  lemma NormOfNormal(s: string)
    requires s != [] && !IsWhite(s[0]) && !IsWhite(s[|s| - 1])
    requires forall i :: 0 <= i < |s| ==> !('A' <= s[i] <= 'Z')
    ensures NormName(Some(s)) == s
    ensures ReviewsController.Norm(s) == s
  {
    TrimOfTrimmed(s);
    assert ToLower(s) == s;
  }

  /** A role of "admin" is an administrator on the server but not on this page. */
  lemma LowerCaseAdminSeesNoButtons(r: ReviewDto)
    requires r.userId == Some(7)
    ensures !CanEdit(Some(PageUser(None, Some("admin"), None, None)), r)
    ensures ReviewsController.IsAdminRole(Identity.Principal(None, Some("admin"), None))
  {
    ReviewsController.AdminRoleIgnoresCase();
  }

  // ---------------------------------------------------------------- filter and pages

  /** The rating selector: "all" or one of the ratings. */
  datatype RatingFilter = AllRatings | Stars(rating: int)

  function HasRating(n: int): ReviewDto -> bool {
    (r: ReviewDto) => r.rating == n
  }

  /** The reviews the filter keeps, in their original order. */
  function FilterByRating(xs: seq<ReviewDto>, f: RatingFilter): (r: seq<ReviewDto>)
    ensures f.AllRatings? ==> r == xs
    ensures f.Stars? ==> forall x :: x in r <==> x in xs && x.rating == f.rating
    ensures |r| <= |xs|
    ensures Subsequence(r, xs)
  {
    SubsequenceOfSelf(xs);
    if f.AllRatings? then xs else Filter(xs, HasRating(f.rating))
  }

  /** Filtering a list made of two parts filters each part in place. */
  lemma FilterByRatingAppend(a: seq<ReviewDto>, b: seq<ReviewDto>, f: RatingFilter)
    ensures FilterByRating(a + b, f) == FilterByRating(a, f) + FilterByRating(b, f)
  {
    if f.Stars? {
      FilterAppend(a, b, HasRating(f.rating));
    }
  }

  const PerPage: nat := 5

  /** `Math.ceil(total / perPage)`. */
  function PageCount(total: nat): (pages: nat)
    ensures pages * PerPage >= total
    ensures pages == 0 || (pages - 1) * PerPage < total
  {
    (total + PerPage - 1) / PerPage
  }

  /** `filtered.slice(start, start + perPage)` with `start = (page - 1) * perPage`. */
  function PageSlice(xs: seq<ReviewDto>, page: int): (r: seq<ReviewDto>)
    requires page >= 1
    ensures |r| <= PerPage
    ensures (page - 1) * PerPage >= |xs| ==> r == []
    ensures (page - 1) * PerPage < |xs| ==>
      |r| == (if |xs| - (page - 1) * PerPage < PerPage then |xs| - (page - 1) * PerPage else PerPage)
    ensures forall k :: 0 <= k < |r| ==> r[k] == xs[(page - 1) * PerPage + k]
  {
    var start := (page - 1) * PerPage;
    if start >= |xs| then []
    else if start + PerPage <= |xs| then xs[start..start + PerPage]
    else xs[start..]
  }

  /** Every review is on exactly the page `i / 5 + 1`, which has a button. */
  lemma EveryReviewOnItsPage(xs: seq<ReviewDto>, i: nat)
    requires i < |xs|
    ensures 1 <= i / PerPage + 1 <= PageCount(|xs|)
    ensures PageSlice(xs, i / PerPage + 1)[i % PerPage] == xs[i]
  {
    var p := i / PerPage + 1;
    assert (p - 1) * PerPage + i % PerPage == i;
  }

  /** The pages with a button are exactly the non-empty ones. */
  lemma PagesWithButtonsAreNonEmpty(xs: seq<ReviewDto>, page: int)
    requires page >= 1
    ensures PageSlice(xs, page) != [] <==> page <= PageCount(|xs|)
  {
  }

  datatype PageButton = PageButton(page: int, primary: bool)

  /** `renderPagination`: one button per page, numbered from 1, the current
      page's button marked primary. */
  method RenderPagination(total: nat, currentPage: int) returns (buttons: seq<PageButton>)
    ensures |buttons| == PageCount(total)
    ensures forall k :: 0 <= k < |buttons| ==> buttons[k].page == k + 1
    ensures forall k :: 0 <= k < |buttons| ==> (buttons[k].primary <==> k + 1 == currentPage)
    ensures (exists k :: 0 <= k < |buttons| && buttons[k].primary) <==> 1 <= currentPage <= PageCount(total)
  {
    var pages := (total + PerPage - 1) / PerPage;
    buttons := [];
    var i := 1;
    while i <= pages
      invariant 1 <= i <= pages + 1
      invariant |buttons| == i - 1
      invariant forall k :: 0 <= k < |buttons| ==> buttons[k] == PageButton(k + 1, k + 1 == currentPage)
    {
      buttons := buttons + [PageButton(i, i == currentPage)];
      i := i + 1;
    }
    if 1 <= currentPage <= pages {
      assert buttons[currentPage - 1].primary;
    }
  }

  /** The page's state: the loaded reviews, the selected filter and the current page. */
  class ReviewsView {
    var allReviews: seq<ReviewDto>
    var filter: RatingFilter
    var currentPage: int

    ghost predicate Valid()
      reads this
    {
      currentPage >= 1
    }

    constructor ()
      ensures Valid() && allReviews == [] && filter == AllRatings && currentPage == 1
    {
      allReviews := [];
      filter := AllRatings;
      currentPage := 1;
    }

    function Filtered(): seq<ReviewDto>
      reads this
    {
      FilterByRating(allReviews, filter)
    }

    /** The reviews `renderReviews` lists. */
    function Shown(): (r: seq<ReviewDto>)
      requires Valid()
      reads this
      ensures |r| <= PerPage
    {
      PageSlice(Filtered(), currentPage)
    }

    /** `loadReviews`: the list is replaced; the filter and the page stay. */
    method Load(reviews: seq<ReviewDto>)
      requires Valid()
      modifies this
      ensures Valid()
      ensures allReviews == reviews && filter == old(filter) && currentPage == old(currentPage)
    {
      allReviews := reviews;
    }

    /** A change of the rating filter returns to the first page. */
    method SelectFilter(f: RatingFilter)
      requires Valid()
      modifies this
      ensures Valid()
      ensures filter == f && currentPage == 1 && allReviews == old(allReviews)
      ensures Shown() == Take(FilterByRating(allReviews, f), PerPage)
    {
      filter := f;
      currentPage := 1;
    }

    /** A click on a page button: the page it shows is never empty. */
    method SelectPage(page: int)
      requires Valid() && 1 <= page <= PageCount(|Filtered()|)
      modifies this
      ensures Valid()
      ensures currentPage == page && allReviews == old(allReviews) && filter == old(filter)
      ensures Shown() != []
    {
      currentPage := page;
      PagesWithButtonsAreNonEmpty(Filtered(), page);
    }
  }

  // ---------------------------------------------------------------- escaping

  /** `escapeHtml` of this page: five chained `replace` calls, `&` first. */
  function EscapeChained(s: string): string {
    ReplaceAll(ReplaceAll(ReplaceAll(ReplaceAll(ReplaceAll(s, '&', "&amp;"), '<', "&lt;"), '>', "&gt;"), '"', "&quot;"), '\'', "&#039;")
  }

  /** Because `&` is replaced first, the chain never re-escapes an entity it
      produced: it is the one-pass escaping with `&#039;`. */
  lemma {:induction false} EscapeChainedIsEscape(s: string)
    ensures EscapeChained(s) == Html.Escape(s, Html.AposLong)
  {
    if s != [] {
      var c, rest := s[0], s[1..];
      assert s == [c] + rest;
      ChainedAppend([c], rest);
      EscapeChainedChar(c);
      EscapeChainedIsEscape(rest);
    }
  }

  lemma ChainedAppend(a: string, b: string)
    ensures EscapeChained(a + b) == EscapeChained(a) + EscapeChained(b)
  {
    var r1a, r1b := ReplaceAll(a, '&', "&amp;"), ReplaceAll(b, '&', "&amp;");
    ReplaceAllAppend(a, b, '&', "&amp;");
    var r2a, r2b := ReplaceAll(r1a, '<', "&lt;"), ReplaceAll(r1b, '<', "&lt;");
    ReplaceAllAppend(r1a, r1b, '<', "&lt;");
    var r3a, r3b := ReplaceAll(r2a, '>', "&gt;"), ReplaceAll(r2b, '>', "&gt;");
    ReplaceAllAppend(r2a, r2b, '>', "&gt;");
    var r4a, r4b := ReplaceAll(r3a, '"', "&quot;"), ReplaceAll(r3b, '"', "&quot;");
    ReplaceAllAppend(r3a, r3b, '"', "&quot;");
    ReplaceAllAppend(r4a, r4b, '\'', "&#039;");
  }

  lemma EscapeChainedChar(c: char)
    ensures EscapeChained([c]) == Html.EscapeChar(c, Html.AposLong)
  {
    var e := Html.EscapeChar(c, Html.AposLong);
    ReplaceAllOne(c, '&', "&amp;");
    if c == '&' {
      AfterFirstStage("&amp;");
    } else {
      ReplaceAllOne(c, '<', "&lt;");
      if c == '<' {
        AfterSecondStage("&lt;");
      } else {
        ReplaceAllOne(c, '>', "&gt;");
        if c == '>' {
          AfterThirdStage("&gt;");
        } else {
          ReplaceAllOne(c, '"', "&quot;");
          ReplaceAllOne(c, '\'', "&#039;");
          if c == '"' {
            assert '\'' !in "&quot;";
          }
        }
      }
    }
  }

  /** Text holding none of the characters the later stages replace passes them unchanged. */
  lemma AfterFirstStage(t: string)
    requires '<' !in t && '>' !in t && '"' !in t && '\'' !in t
    ensures ReplaceAll(ReplaceAll(ReplaceAll(ReplaceAll(t, '<', "&lt;"), '>', "&gt;"), '"', "&quot;"), '\'', "&#039;") == t
  {
  }

  lemma AfterSecondStage(t: string)
    requires '>' !in t && '"' !in t && '\'' !in t
    ensures ReplaceAll(ReplaceAll(ReplaceAll(t, '>', "&gt;"), '"', "&quot;"), '\'', "&#039;") == t
  {
  }

  lemma AfterThirdStage(t: string)
    requires '"' !in t && '\'' !in t
    ensures ReplaceAll(ReplaceAll(t, '"', "&quot;"), '\'', "&#039;") == t
  {
  }

  lemma ReplaceAllOne(c: char, d: char, rep: string)
    ensures ReplaceAll([c], d, rep) == if c == d then rep else [c]
  {
    assert [c][1..] == [];
  }

  /** Review text as the template literal prints it: a missing value reads "null". */
  function Display(s: Option<string>): string {
    if s.None? then "null" else s.value
  }

  /** What the list prints for a review's product name, author and comment. */
  function EscapeField(s: Option<string>): (r: string)
    ensures forall i :: 0 <= i < |r| ==> r[i] != '<' && r[i] != '>' && r[i] != '"' && r[i] != '\''
    ensures Html.Unescape(r, Html.AposLong) == Display(s)
  {
    EscapeChainedIsEscape(Display(s));
    Html.UnescapeEscape(Display(s), Html.AposLong);
    EscapeChained(Display(s))
  }

  // ---------------------------------------------------------------- edit

  const MsgCheckData: string := "Provjerite podatke."
  const MsgSignInToEdit: string := "Morate biti prijavljeni da uredite recenziju."

  datatype EditOutcome = Refused(message: string) | Send(body: ReviewsController.UpdateReviewDto)

  /** The Save click in the edit dialog: an empty comment or a rating outside
      1..5 is refused, then a missing token; otherwise the body is sent with
      the trimmed comment and the rating as read. A non-finite rating passes
      both comparisons and is sent as `null`. */
  function SaveEdit(rating: JsNumber, commentInput: string, token: Option<string>): (o: EditOutcome)
    ensures IsBlank(commentInput) ==> o == Refused(MsgCheckData)
    ensures rating.Whole? && (rating.value < 1 || rating.value > 5) ==> o == Refused(MsgCheckData)
    ensures o.Send? ==> Truthy(token)
    ensures o.Send? ==> o.body.comment == Some(Trim(commentInput)) && !IsBlank(Trim(commentInput))
    ensures o.Send? ==> !ReviewsController.BadUpdate(Some(o.body))
    ensures o.Send? ==> o.body.rating == (if rating.Whole? then Some(rating.value) else None)
    ensures !IsBlank(commentInput) && (rating.NonFinite? || 1 <= rating.value <= 5) && Truthy(token) ==> o.Send?
  {
    var comment := Trim(commentInput);
    if comment == [] || (rating.Whole? && (rating.value < 1 || rating.value > 5)) then Refused(MsgCheckData)
    else if !Truthy(token) then Refused(MsgSignInToEdit)
    else
      assert !IsWhite(comment[0]);
      Send(ReviewsController.UpdateReviewDto(if rating.Whole? then Some(rating.value) else None, Some(comment)))
  }
}
