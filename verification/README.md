# Shop core in Dafny

A verified model of the core of a small web shop: an ASP.NET Core API over
reviews, wishlists, support tickets and user accounts, and the TypeScript
browser client that talks to it.

The server side has one module per controller:

- `ReviewsController`: listing, adding, editing and deleting reviews. Who may
  edit or delete a review is decided by `CanActOnReview`.
- `WishlistController`: the caller's wishlist (the cart), with add, remove by
  row, remove by product and clear.
- `SupportTicketsController`: creating tickets, the admin and per-user
  listings, and the status change restricted to `Pending`, `InProgress` and
  `Completed`.
- `AuthController`: registration and login, with email normalization, the
  default role and the claims of the issued token.
- `UsersController`: the caller's profile, its update and the password change.

The database is modelled in `Persistence`. Each table the controllers write
to is a class holding a sequence of rows and the next identity key. The
controller actions are methods that change those tables, and they state each
table's whole new contents. The claims principal is `Identity.Principal`, and
a reply (status code and body, or message) is `Http.Reply`.

The client side has one module per source file:

- `HttpClient`: the shared fetch helper, covering the API base, the stored
  token, the headers and how a response becomes a value or an error.
- `WishlistClient`: the wishlist calls, with the guard against a second
  DELETE of a row that is still being removed.
- `App`: the hash router, the stored user and the admin guard.
- The pages `ProductsPage`, `ReviewsPage`, `WishlistPage`,
  `SupportTicketsPage`, `SupportAdminPage` and `LoginPage`.
- The profile calls `UserCommands` and `UserQueries`, and the API base
  resolution they share with the login page, `ApiConfig`.

Page state that the source keeps in DOM elements or closures becomes a class:
`ReviewsPage.ReviewsView`, `ProductsPage.Catalog`, `ProductsPage.CartButton`,
`WishlistPage.CartPage`, `SupportAdminPage.AdminPage`,
`SupportAdminPage.TicketRow`, `LoginPage.LoginForm` and `App.Shell`. Rendering
is modelled as the data a table shows, not as markup. Every escaped text is
proved to read back as the original.

Several lemmas tie the client to the server's own behaviour:

- the page's looser edit rule compared with `CanActOnReview`;
- tickets rendered from the server's listing;
- the wishlist ids the cart page reads from the server's camel-case JSON;
- the login answer as the page stores it.

Shared helpers include `Text`, which covers trimming, ASCII case, splitting
and integer printing and parsing. JavaScript's truthiness, `||`, `??`,
`Number()`, `String()` and `encodeURIComponent` are in `Js`. The HTML escapes
are in `Html`, and LINQ-style filter, order and take are in `Queries`.

## Model

| member | source | states |
|---|---|---|
| Identity.UserIdOf | backend/src/Api/Controllers/WishlistController.cs:20-24 | the caller's id is the name-identifier claim read as a decimal integer, present exactly when the claim parses and fits 32 bits; a missing or empty claim gives no id |
| Identity.UserIdOfPrinted | backend/src/Api/Controllers/WishlistController.cs:20-24 | a claim holding a 32-bit integer as the server prints it reads back as that integer |
| ReviewsController.ToDto | backend/src/Api/Controllers/ReviewsController.cs:22-30 | a listed review copies id, product, author and owner; a missing rating shows as 0 and a missing comment as "" |
| ReviewsController.GetAll | backend/src/Api/Controllers/ReviewsController.cs:19-34 | the listing has one entry per stored review, in table order, each the review's DTO |
| ReviewsController.FirstWord | backend/src/Api/Controllers/ReviewsController.cs:122 | after the leading spaces, the maximal run of non-space characters, ended by a space or the end of the name; the whole name when it holds only spaces |
| ReviewsController.CanActOnReview | backend/src/Api/Controllers/ReviewsController.cs:101-128 | an administrator (role "Admin" in any case) may act on any review; a review with an owner id only by that owner; one without by a caller whose trimmed, lower-cased full name equals, contains or begins with the author name |
| ReviewsController.AdminRoleIgnoresCase | backend/src/Api/Controllers/ReviewsController.cs:103-105 | "admin" and "ADMIN" count as the administrator role, "Administrator" and a missing role do not |
| ReviewsController.NewReview | backend/src/Api/Controllers/ReviewsController.cs:48-60 | a new review keeps the posted rating, comment, product and author and is owned by the caller's id, never the posted one |
| ReviewsController.AddReview | backend/src/Api/Controllers/ReviewsController.cs:37-65 | a missing or blank field or a rating outside 1..5 answers 400 and stores nothing; otherwise exactly the new review is appended under the next id |
| ReviewsController.Patch | backend/src/Api/Controllers/ReviewsController.cs:79-80 | each supplied field replaces the stored one and nothing else changes |
| ReviewsController.PatchKeepsPermission | backend/src/Api/Controllers/ReviewsController.cs:77-80 | an edit never changes who may act on the review |
| ReviewsController.PatchIdempotent | backend/src/Api/Controllers/ReviewsController.cs:79-80 | applying the same edit twice equals applying it once |
| ReviewsController.UpdateReview | backend/src/Api/Controllers/ReviewsController.cs:67-84 | a request without a token gets the bodiless 401 challenge and nothing changes; then validation (400), lookup (404), permission (403), and then only that review is patched |
| ReviewsController.DeleteReview | backend/src/Api/Controllers/ReviewsController.cs:86-98 | a request without a token gets the bodiless 401 challenge and nothing changes; then lookup (404), permission (403); on success exactly the review with that id is gone and every other stays |
| ReviewsController.RemoveAtKeepsOthers | backend/src/Api/Controllers/ReviewsController.cs:95 | removing the found row removes the only row with that id and keeps all others |
| WishlistController.MineRows | backend/src/Api/Controllers/WishlistController.cs:33-35 | exactly the caller's rows, newest date first |
| WishlistController.JoinedRows | backend/src/Api/Controllers/WishlistController.cs:33-39 | exactly the caller's rows whose product exists, newest date first |
| WishlistController.MineQuery | backend/src/Api/Controllers/WishlistController.cs:33-59 | the items are sorted newest first, each comes from a row of the caller joined with its product, and every such row is listed |
| WishlistController.GetMine | backend/src/Api/Controllers/WishlistController.cs:28-62 | without a token the bodiless 401 challenge; a token without a readable id answers 401 with a problem-details body; otherwise 200 whose body is exactly the caller's joined items, newest first |
| Queries.SortDescStable | backend/src/Api/Controllers/WishlistController.cs:33-35 | `OrderByDescending` is stable: the rows sharing any one key come out in the order they went in |
| WishlistController.GetMineListsRealProducts | backend/src/Api/Controllers/WishlistController.cs:36-43 | every listed product id names an existing product |
| WishlistController.Add | backend/src/Api/Controllers/WishlistController.cs:66-95 | the bodiless challenge without a token, 401 with a problem-details body without an id, 404 for an unknown product; otherwise 204, with one row appended only when the pair is new and saving succeeds; the table never gains a duplicate pair |
| WishlistController.Remove | backend/src/Api/Controllers/WishlistController.cs:99-109 | the bodiless challenge without a token and a problem-details 401 without an id, both leaving the table alone; otherwise 204 and exactly the caller's row with that id is deleted |
| WishlistController.RemoveByProduct | backend/src/Api/Controllers/WishlistController.cs:113-123 | the bodiless challenge without a token and a problem-details 401 without an id, both leaving the table alone; otherwise 204 and exactly the caller's rows for that product are deleted |
| WishlistController.Clear | backend/src/Api/Controllers/WishlistController.cs:127-137 | the bodiless challenge without a token and a problem-details 401 without an id, both leaving the table alone; otherwise 204 and all of the caller's rows, and no one else's, are deleted |
| WishlistController.MineQueryAfterClear | backend/src/Api/Controllers/WishlistController.cs:127-137 | after clearing, the caller's wishlist reads back empty |
| WishlistController.RemoveIdempotent | backend/src/Api/Controllers/WishlistController.cs:104-106 | deleting the same row twice equals deleting it once |
| SupportTicketsController.ToDto | backend/src/Api/Controllers/SupportTicketsController.cs:114-121 | id and owner are copied; a missing subject or description shows as "", a missing status as "Pending" |
| SupportTicketsController.ToDtoStatusAllowed | backend/src/Api/Controllers/SupportTicketsController.cs:18 | a ticket holding no disallowed status is shown with an allowed one |
| SupportTicketsController.TicketOwner | backend/src/Api/Controllers/SupportTicketsController.cs:33-36 | the posted user id wins over the caller's claim; without one the claim's id is used |
| SupportTicketsController.Create | backend/src/Api/Controllers/SupportTicketsController.cs:28-50 | a blank subject or description answers 400 and stores nothing; otherwise one "Pending" ticket is appended and returned with 201; allowed statuses stay allowed |
| SupportTicketsController.Listing | backend/src/Api/Controllers/SupportTicketsController.cs:84-85 | the selected tickets, highest id first, each as its DTO, none missing |
| SupportTicketsController.GetById | backend/src/Api/Controllers/SupportTicketsController.cs:54-59 | 200 exactly when a ticket with that id exists, whose body is the DTO of a stored ticket with that id (of the one, when ids are unique); otherwise 404 with a problem-details body |
| SupportTicketsController.GetAll | backend/src/Api/Controllers/SupportTicketsController.cs:64-71 | exactly min(take, number of tickets) entries (none for take <= 0), highest id first, each the DTO of a stored ticket, all of them when take covers the table |
| SupportTicketsController.GetAllKeepsNewest | backend/src/Api/Controllers/SupportTicketsController.cs:64-71 | a ticket left out of the listing has an id no higher than any listed ticket's |
| SupportTicketsController.GetByUser | backend/src/Api/Controllers/SupportTicketsController.cs:75-86 | 400 exactly for a non-blank status that is not allowed; otherwise every listed DTO is that of a stored ticket of the user with the chosen status, and every such ticket is listed |
| SupportTicketsController.GetMine | backend/src/Api/Controllers/SupportTicketsController.cs:91-96 | 401 without a caller id; otherwise the same answer as the by-user listing for the caller |
| SupportTicketsController.UpdateStatus | backend/src/Api/Controllers/SupportTicketsController.cs:100-112 | lookup (404 with a problem-details body), then a blank value (400), then a disallowed one (400); otherwise only that ticket's status changes; allowed statuses stay allowed |
| AuthController.NormalizeEmail | backend/src/Api/Controllers/AuthController.cs:83-90 | the normalized email is empty exactly when the input is blank |
| AuthController.NormalizeEmailIdempotent | backend/src/Api/Controllers/AuthController.cs:83-90 | normalizing a normalized email changes nothing |
| AuthController.TrimOpt | backend/src/Api/Controllers/AuthController.cs:34-35 | a trimmed optional string is blank exactly when the original is |
| AuthController.RoleName | backend/src/Api/Controllers/AuthController.cs:150-151 | the name of the first role with that id, or "User" when none matches |
| AuthController.DefaultRoleId | backend/src/Api/Controllers/AuthController.cs:58-61 | the id of a role named "User" when one exists, none otherwise |
| AuthController.IssueClaims | backend/src/Api/Controllers/AuthController.cs:119-148 | the token carries the id as subject and name identifier, the role name, email and full name ("" when missing) and expires 30 minutes after issue |
| AuthController.IssuedTokenIdentifiesUser | backend/src/Api/Controllers/AuthController.cs:128-129 | a token issued for an account is read back by the controllers as that account's id |
| AuthController.ResponseFor | backend/src/Api/Controllers/AuthController.cs:110-116 | the answer carries the account's id, role name and token, with name and email as in the token |
| AuthController.NewUser | backend/src/Api/Controllers/AuthController.cs:54-65 | the new account has the trimmed name, the normalized email, the hash of the password and the "User" role |
| AuthController.Register | backend/src/Api/Controllers/AuthController.cs:31-77 | missing fields (400), short password (400), taken email (409), each leaving the table alone; otherwise exactly the new account is appended and its response returned |
| AuthController.FindAccount | backend/src/Api/Controllers/AuthController.cs:93-95 | no account exactly when no row holds the email; a found account holds it |
| AuthController.MatchesUnique | backend/src/Api/Controllers/AuthController.cs:93-95 | with unique emails at most one row matches |
| AuthController.FindAccountUnique | backend/src/Api/Controllers/AuthController.cs:93-95 | with unique emails the lookup never finds two accounts |
| AuthController.Login | backend/src/Api/Controllers/AuthController.cs:80-117 | missing fields answer 400; an unknown email 401 with the fixed message; two accounts with the email 500; for the one account found: no hash 400, a password the verifier rejects 401, otherwise 200 with that account's response |
| AuthController.LoginNoServerErrorWhenUnique | backend/src/Api/Controllers/AuthController.cs:93-95 | with unique emails a login never fails with a server error |
| AuthController.FindAccountOf | backend/src/Api/Controllers/AuthController.cs:93-95 | with unique emails, the lookup for an address finds exactly the account stored under it |
| AuthController.LoginOfAccount | backend/src/Api/Controllers/AuthController.cs:93-117 | with unique emails, logging in as a stored account gives 400 without a hash, 401 when the verifier rejects the password, and otherwise 200 with that account's response |
| AuthController.LoginWithoutHashIgnoresVerifier | backend/src/Api/Controllers/AuthController.cs:95-103 | with unique emails, an account without a hash is refused with 400 and the no-password message whatever the verifier would say |
| AuthController.LoginDoesNotRevealAccounts | backend/src/Api/Controllers/AuthController.cs:97-108 | with unique emails, a wrong password for a stored account and an unknown address both get 401 with the same message |
| AuthController.OnlyNewAccountMatches | backend/src/Api/Controllers/AuthController.cs:50-51 | a fresh address appended to the table is matched by the new account only |
| AuthController.LoginAfterRegister | backend/src/Api/Controllers/AuthController.cs:47-117 | registering and then logging in with the same password and the address in any case or padding yields the new account |
| UsersController.CurrentUser | backend/src/Api/Controllers/UsersController.cs:27-36 | a found account has the caller's claimed id; an empty claim finds none, and when none is found the claim is not an integer or matches no account |
| UsersController.ProfileOf | backend/src/Api/Controllers/UsersController.cs:45-51 | the profile copies the id; a missing name or email shows as ""; the role name is that of the first role with the account's role id, and an account without a named matching role is a "User" |
| UsersController.Me | backend/src/Api/Controllers/UsersController.cs:40-53 | without a token the bodiless 401 challenge; a signed-in caller without an account gets 401 with a problem-details body; otherwise 200 with its profile |
| UsersController.MeWithIssuedToken | backend/src/Api/Controllers/UsersController.cs:27-53 | a token issued for an account reads back that account's profile |
| UsersController.UpdatedName | backend/src/Api/Controllers/UsersController.cs:63-66 | a non-blank new name replaces the old one trimmed; a blank one leaves it |
| UsersController.UpdateMe | backend/src/Api/Controllers/UsersController.cs:57-98 | the bodiless 401 challenge without a token, a problem-details 401 without an account; a changed email held by another account answers 409 and leaves the table alone, the new name included; otherwise only the caller's row gets the new name and email |
| UsersController.ChangePassword | backend/src/Api/Controllers/UsersController.cs:102-135 | the bodiless 401 challenge without a token, a problem-details 401 without an account, then missing passwords, short new password, no stored hash and wrong current password (each 400, table unchanged), in that order; otherwise 204 and only the caller's hash is replaced |
| Browser.GetItem | frontend/src/infrastructure/http/client.ts:45 | `getItem` finds a value exactly for a stored key, and it is the stored value |
| Html.Escape | frontend/src/presentation/pages/ReviewsPage.ts:434-441 | the escaped text holds no `<`, `>`, `"` or `'`, is never shorter, and text without special characters is left as it is |
| Html.EscapeHtml | frontend/src/presentation/pages/SupportAdminPage.ts:35-37 | the single-pass form with `&#39;` leaves no `<`, `>`, `"` or `'` and keeps plain text as it is |
| Html.UnescapeCons | frontend/src/presentation/pages/ReviewsPage.ts:434-441 | the browser decodes each escaped character back to itself, whatever follows |
| Html.UnescapeEscape | frontend/src/presentation/pages/ReviewsPage.ts:434-441 | escaping loses nothing: the browser shows exactly the original text |
| Js.Or | frontend/src/infrastructure/http/client.ts:45 | `a \|\| b` is truthy when either operand is, and is `a` when `a` is truthy |
| Js.Coalesce | frontend/src/infrastructure/http/client.ts:4 | a chain of `??` gives the first operand that is neither `null` nor `undefined`, else the fallback |
| Js.NumberOf | frontend/src/presentation/pages/WishlistPage.ts:113 | `Number` of a blank string is 0 |
| Js.NumberOfIntToString | frontend/src/presentation/pages/WishlistPage.ts:113 | an integer written into an attribute reads back with `Number` as that integer |
| Js.NumberToStringRoundTrip | frontend/src/presentation/pages/WishlistPage.ts:113 | any number, `NaN` included, written as text and read back with `Number` is itself |
| Js.EncodeUriComponent | frontend/src/presentation/pages/SupportAdminPage.ts:30 | the encoded text holds only unreserved characters and percent escapes; unreserved text is left alone |
| Js.EncodedComponentIsOneValue | frontend/src/presentation/pages/SupportAdminPage.ts:30 | an encoded status cannot end its query value: it holds no `&`, `=`, `#` or `?` |
| HttpClient.ApiBase | frontend/src/infrastructure/http/client.ts:4 | the base is the first configured variable (`VITE_API_URL` first) with only its trailing slashes removed: a prefix of it followed by nothing but slashes, never ending in a slash, and empty when neither is set |
| HttpClient.WithBase | frontend/src/infrastructure/http/client.ts:8-17 | the URL is the base followed by the path with exactly one leading slash added when missing |
| HttpClient.WithBaseSlashOptional | frontend/src/infrastructure/http/client.ts:9 | a path with or without its leading slash gives the same URL |
| HttpClient.StoredToken | frontend/src/infrastructure/http/client.ts:45 | the non-empty `token` entry, else the non-empty `auth_token` entry, else "" |
| HttpClient.EffectiveToken | frontend/src/infrastructure/http/client.ts:46 | a non-blank explicit token, trimmed, wins over the stored one; the token is empty exactly when both are |
| HttpClient.BuildHeaders | frontend/src/infrastructure/http/client.ts:49-54 | the header names are `Accept`, `Content-Type` with a body, the caller's and `Authorization` with a token; the bearer overrides the caller's value, which overrides the defaults |
| HttpClient.RequestOutcome | frontend/src/infrastructure/http/client.ts:65-74 | a call throws exactly on a status outside 200..299, with a message naming method, path and status; 204 gives `undefined`; any other 2xx gives the JSON body (`null` when it is not JSON) |
| HttpClient.DeleteOutcome | frontend/src/infrastructure/http/client.ts:112-122 | a delete throws exactly on a failing status other than 404; 204 and 404 give `undefined`; the message is the one `request` would give |
| HttpClient.DeleteTwiceIsQuiet | frontend/src/infrastructure/http/client.ts:111-112 | deleting something already gone throws no more than the first delete |
| HttpClient.DeleteHeaders | frontend/src/infrastructure/http/client.ts:97-103 | a delete sends `Accept` and, when a token is stored, its bearer, and nothing else |
| WishlistClient.ItemPath | frontend/src/infrastructure/http/wishlist.ts:22 | an item path is the wishlist path, a slash and a non-empty id segment |
| WishlistClient.ItemPathNamesId | frontend/src/infrastructure/http/wishlist.ts:22 | the id segment reads back as the id, both with `Number` and as the server's route integer |
| WishlistClient.AddToWishlist | frontend/src/infrastructure/http/wishlist.ts:19-23 | a non-finite or non-positive id is rejected with the fixed message before any request; any other is posted to its own item path |
| WishlistClient.AddPositive | frontend/src/infrastructure/http/wishlist.ts:19-23 | every positive id is posted to its item path |
| WishlistClient.RemovalGuard.BeginRemove | frontend/src/infrastructure/http/wishlist.ts:25-30 | a non-finite or pending id is skipped with nothing changed; any other is marked pending and its delete is sent |
| WishlistClient.RemovalGuard.FinishRemove | frontend/src/infrastructure/http/wishlist.ts:31-33 | the id is no longer pending, whatever the request did |
| WishlistClient.RemovalGuard.RemoveWishlistItem | frontend/src/infrastructure/http/wishlist.ts:25-34 | a skipped call returns quietly and changes nothing; a sent one sends exactly one delete, gives the delete's outcome and leaves the pending set as it was |
| WishlistClient.RemovalGuard.DoubleRemove | frontend/src/infrastructure/http/wishlist.ts:27 | a second removal of an id while its first is pending sends nothing |
| WishlistClient.RemovalGuard.constructor | frontend/src/infrastructure/http/wishlist.ts:13 | no removal is in flight when the module loads, and nothing has been sent |
| ReviewsPage.Base64FromUrl | frontend/src/presentation/pages/ReviewsPage.ts:106 | every `-` and `_` is mapped (to `+` and `/`), every other character is kept, the length is unchanged |
| ReviewsPage.DecodeJwtPayload | frontend/src/presentation/pages/ReviewsPage.ts:101-112 | a payload is found only for a non-empty token with exactly three dot-separated parts whose middle part decodes; for such a token the result is the parse of the decoded middle part |
| ReviewsPage.DecodeReadsOnlyPayload | frontend/src/presentation/pages/ReviewsPage.ts:104-108 | the header and signature parts do not affect the decoded payload |
| ReviewsPage.Parts | frontend/src/presentation/pages/ReviewsPage.ts:104 | a token made of three dot-free parts splits back into exactly those parts |
| ReviewsPage.OrNull | frontend/src/presentation/pages/ReviewsPage.ts:130 | `x \|\| null` keeps a truthy value and turns a falsy one into `null` |
| ReviewsPage.CurrentUser | frontend/src/presentation/pages/ReviewsPage.ts:114-141 | no user exactly when none of id, stored role, token role, full name and email is truthy; the id comes from the name-identifier claim before `sub`; the stored role wins over the token's; the full name comes from the token only |
| ReviewsPage.NormName | frontend/src/presentation/pages/ReviewsPage.ts:145 | the normal form is empty exactly when the name is missing or blank |
| ReviewsPage.FirstToken | frontend/src/presentation/pages/ReviewsPage.ts:150 | the first token is the longest whitespace-free prefix of the name: it holds no whitespace, and whitespace or the end of the name follows it |
| ReviewsPage.LikelySamePerson | frontend/src/presentation/pages/ReviewsPage.ts:144-152 | false when either name is blank; otherwise true exactly when the normalized user name contains the review name or the review name contains the user's first token |
| ReviewsPage.SameOrFirstIsContained | frontend/src/presentation/pages/ReviewsPage.ts:149-151 | the equality and first-token tests are subsumed by the two containment tests |
| ReviewsPage.CanEdit | frontend/src/presentation/pages/ReviewsPage.ts:171-176 | no user sees no buttons; role exactly "Admin" sees them everywhere; on an owned review only the owner id does; on an unowned review a likely same person does |
| ReviewsPage.ServerNameRuleShowsButtons | frontend/src/presentation/pages/ReviewsPage.ts:144-152 | wherever the server's name fallback allows an action, the page shows the buttons |
| ReviewsPage.ButtonsWhereServerRefuses | frontend/src/presentation/pages/ReviewsPage.ts:151 | the converse fails: "a b" and "a c" share a first word, so the page shows buttons the server refuses |
| ReviewsPage.SampleNameNormal | frontend/src/presentation/pages/ReviewsPage.ts:145 | the two sample names are their own normal form on both sides |
| ReviewsPage.SampleFirstWordShared | frontend/src/presentation/pages/ReviewsPage.ts:150-151 | the second sample name contains the first one's first token |
| ReviewsPage.PageAcceptsNormal | frontend/src/presentation/pages/ReviewsPage.ts:151 | on normalized names, a review name holding the user's first token is accepted |
| ReviewsPage.ServerRefusesNormal | backend/src/Api/Controllers/ReviewsController.cs:119-123 | on normalized, different names where neither containment nor the first-word test holds, the server refuses |
| ReviewsPage.FirstTokenOfTwoWords | frontend/src/presentation/pages/ReviewsPage.ts:150 | a one-letter first word followed by whitespace is the first token |
| ReviewsPage.SameLengthNotContained | backend/src/Api/Controllers/ReviewsController.cs:123 | a name of the same length that differs somewhere is not contained |
| ReviewsPage.NormOfNormal | frontend/src/presentation/pages/ReviewsPage.ts:145 | a trimmed lower-case name is its own normal form, on the page and on the server |
| ReviewsPage.LowerCaseAdminSeesNoButtons | frontend/src/presentation/pages/ReviewsPage.ts:172 | a user with role "admin" sees no buttons on someone else's review although the server would let them act |
| ReviewsPage.FilterByRating | frontend/src/presentation/pages/ReviewsPage.ts:155-159 | "all" keeps every review; a rating keeps exactly the reviews with that rating, as a subsequence of the input (original order) |
| ReviewsPage.FilterByRatingAppend | frontend/src/presentation/pages/ReviewsPage.ts:155-159 | filtering two lists one after the other is filtering each in place: the kept reviews of the first all come before those of the second |
| ReviewsPage.PageCount | frontend/src/presentation/pages/ReviewsPage.ts:206 | the number of pages is the ceiling of total / 5 |
| ReviewsPage.PageSlice | frontend/src/presentation/pages/ReviewsPage.ts:161-162 | a page holds at most 5 reviews, those starting at (page - 1) * 5, and is empty past the end |
| ReviewsPage.EveryReviewOnItsPage | frontend/src/presentation/pages/ReviewsPage.ts:161-162 | review i is shown at position i % 5 of page i / 5 + 1, which has a button |
| ReviewsPage.PagesWithButtonsAreNonEmpty | frontend/src/presentation/pages/ReviewsPage.ts:205-209 | a page is non-empty exactly when it has a button |
| ReviewsPage.RenderPagination | frontend/src/presentation/pages/ReviewsPage.ts:205-219 | one button per page numbered from 1; a button is highlighted exactly when it is the current page |
| ReviewsPage.ReviewsView.constructor | frontend/src/presentation/pages/ReviewsPage.ts:91 | the page starts empty, unfiltered, on page 1 |
| ReviewsPage.ReviewsView.Shown | frontend/src/presentation/pages/ReviewsPage.ts:154-162 | the list shows at most 5 reviews |
| ReviewsPage.ReviewsView.Load | frontend/src/presentation/pages/ReviewsPage.ts:94-98 | loading replaces the reviews and keeps the filter and page |
| ReviewsPage.ReviewsView.SelectFilter | frontend/src/presentation/pages/ReviewsPage.ts:221-224 | a new filter returns to page 1, which shows the first five reviews it keeps |
| ReviewsPage.ReviewsView.SelectPage | frontend/src/presentation/pages/ReviewsPage.ts:213-216 | a page chosen by its button is never empty |
| ReviewsPage.EscapeChainedIsEscape | frontend/src/presentation/pages/ReviewsPage.ts:434-441 | because `&` is replaced first, the five chained replacements equal a single-pass escape |
| ReviewsPage.ChainedAppend | frontend/src/presentation/pages/ReviewsPage.ts:434-441 | the chained escape works character by character: it distributes over concatenation |
| ReviewsPage.EscapeChainedChar | frontend/src/presentation/pages/ReviewsPage.ts:434-441 | on one character the chain gives that character's entity |
| ReviewsPage.EscapeField | frontend/src/presentation/pages/ReviewsPage.ts:180-182 | a printed field holds no raw `<`, `>`, `"` or `'` and the browser shows exactly the field's text ("null" for a missing one) |
| ReviewsPage.SaveEdit | frontend/src/presentation/pages/ReviewsPage.ts:347-360 | a blank comment or a rating outside 1..5 is refused, then a missing token; a sent edit carries the trimmed comment, which the server's validation accepts, and the rating as read, `null` for a non-finite one |
| App.Path | frontend/src/presentation/app.ts:34-46 | every route path starts with `/`, has at least six characters and does not end in whitespace, so `/` itself is no route |
| App.RemoveFirst | frontend/src/presentation/app.ts:33 | `replace('#', '')` removes one `#`, the leading one when there is one, and leaves a string without `#` alone |
| App.HashPath | frontend/src/presentation/app.ts:33 | the path is never empty, and is `/` when the hash holds nothing but a `#` and whitespace |
| App.FirstMatch | frontend/src/presentation/app.ts:34-45 | the position of the first route whose path begins the given path: no earlier route matches and the found one does; the list's length when none does |
| App.FirstPrefix | frontend/src/presentation/app.ts:34-45 | the first route in the list whose path begins the given path; none exactly when no path matches |
| App.RouteFromHash | frontend/src/presentation/app.ts:32-48 | a path matching no prefix shows the products page; otherwise the chosen route's path begins the path |
| App.RouteFromHashIsFirstMatch | frontend/src/presentation/app.ts:32-48 | when some route's path begins the hash path, the route shown is the first such one in the table's order |
| App.HashOfPath | frontend/src/presentation/app.ts:33 | `#` followed by a route's path yields a path that begins with it |
| App.AdminProductsWins | frontend/src/presentation/app.ts:34-46 | a hash starting with the administrator products path selects that page, not the plain products page |
| App.FamilyOfPath | frontend/src/presentation/app.ts:34-46 | three letters of a path tell which family its route belongs to |
| App.PathPrefix | frontend/src/presentation/app.ts:34-46 | of two different routes, one path begins the other only for the products pages |
| App.InOrder | frontend/src/presentation/app.ts:34-46 | every route is tried |
| App.FirstPrefixOfPath | frontend/src/presentation/app.ts:34-46 | a route's own path is first matched by that route |
| App.LinkSelectsItsRoute | frontend/src/presentation/app.ts:81-94 | each navigation link, `#` followed by a route's path, selects that route |
| App.EmptyHashShowsProducts | frontend/src/presentation/app.ts:33-46 | an empty hash, `#` and `#/` all show the products page |
| App.CurrentUser | frontend/src/presentation/app.ts:50-63 | a user exactly when the stored value is truthy and parses to a non-null object; the id is `id` when truthy, else `userId`; the role is copied; roleID is 1 exactly when the role is "Admin" |
| App.AdminIsStoredRole | frontend/src/presentation/app.ts:65-68 | the stored user is an administrator exactly when its stored role is "Admin" |
| App.Guard | frontend/src/presentation/app.ts:144-156 | only redirects to `#/login`; the profile, password and my-tickets pages redirect exactly without a token; the support administration page exactly without a token or an administrator |
| App.Shell.constructor | frontend/src/presentation/app.ts:80-95 | the shell starts with the given hash, no page, and the administration link hidden |
| App.RenderingGuards | frontend/src/presentation/app.ts:128-175 | the route is the one the hash selects; the only redirect is to `#/login`, and it happens exactly for a token-guarded page without a token or the support administration page without a token and an administrator; the sign-in and register links show exactly when the signed-in links do not, and the administration link exactly for an administrator |
| App.Shell.Render | frontend/src/presentation/app.ts:128-175 | the shell's new state is what `Rendering` decides for the old hash: the route's link highlighted, the links for the stored user, and either the hash moved to the redirect with the page unchanged, or the hash kept and the route's page rendered |
| ProductsPage.Pick | frontend/src/presentation/pages/ProductsPage.ts:28-34 | the value of the first listed key that is neither `null` nor `undefined`, otherwise the fallback |
| ProductsPage.IdOf | frontend/src/presentation/pages/ProductsPage.ts:42 | the id is `ProductID`, else `productID`, else `id`, the first one present |
| ProductsPage.NormalizePath | frontend/src/presentation/pages/ProductsPage.ts:59-61 | the result starts with `http` or `/` and ends with the path; a path already starting with either is kept |
| ProductsPage.NormalizePathIdempotent | frontend/src/presentation/pages/ProductsPage.ts:59-61 | normalizing a normalized path changes nothing |
| ProductsPage.ImageOf | frontend/src/presentation/pages/ProductsPage.ts:52-64 | the placeholder exactly for a blank path; otherwise the API base followed by the normalized trimmed path |
| ProductsPage.ImageOfIsStable | frontend/src/presentation/pages/ProductsPage.ts:52-64 | a normalized path read back gives the same image |
| ProductsPage.ToVM | frontend/src/presentation/pages/ProductsPage.ts:40-67 | the card's id, its name (first of the four name keys, "Proizvod" when none is set) and its image from the first of the four image keys |
| ProductsPage.FilterByQuery | frontend/src/presentation/pages/ProductsPage.ts:134-142 | an empty query keeps every product; otherwise exactly the products whose lower-cased name contains the trimmed lower-cased query, as a subsequence of the input (original order) |
| ProductsPage.FilterByQueryAppend | frontend/src/presentation/pages/ProductsPage.ts:134-142 | filtering two lists one after the other is filtering each in place: the kept products of the first all come before those of the second |
| ProductsPage.QueryIgnoresCase | frontend/src/presentation/pages/ProductsPage.ts:135 | an upper-cased query filters the same as the original |
| ProductsPage.Catalog.constructor | frontend/src/presentation/pages/ProductsPage.ts:109-110 | the page starts with no products and an empty query |
| ProductsPage.Catalog.Load | frontend/src/presentation/pages/ProductsPage.ts:214-216 | every product becomes its card, in order, and all are shown |
| ProductsPage.Catalog.Apply | frontend/src/presentation/pages/ProductsPage.ts:134-146 | the shown products are the text filter of all products |
| ProductsPage.Catalog.Reset | frontend/src/presentation/pages/ProductsPage.ts:147-153 | the query is emptied and every product is shown again |
| ProductsPage.CartButton.constructor | frontend/src/presentation/pages/ProductsPage.ts:127 | a button starts idle, enabled, captioned "Dodaj u korpu" |
| ProductsPage.CartButton.BeginClick | frontend/src/presentation/pages/ProductsPage.ts:161-189 | a busy button ignores the click; a bad id and a missing token change nothing; otherwise the button turns busy and disabled, shows "Dodajem…" and posts exactly one item request |
| ProductsPage.CartButton.FinishClick | frontend/src/presentation/pages/ProductsPage.ts:190-203 | the button is idle and enabled again, showing "Dodano ✓" on success and its old caption on failure |
| ProductsPage.CartButton.ClickTwice | frontend/src/presentation/pages/ProductsPage.ts:161-164 | a second click while the first is pending is ignored: one request in all |
| ProductsPage.Catalog.Type | frontend/src/presentation/pages/ProductsPage.ts:103 | typing into the search box changes only the query; the products and the grid stay until the filter is applied |
| TicketView.StatusLabel | frontend/src/presentation/pages/SupportTicketsPage.ts:12-16 | the three statuses the server accepts are shown as "Na čekanju", "U obradi" and "Završeno"; any other status is shown as it is |
| TicketView.BadgeClass | frontend/src/presentation/pages/SupportTicketsPage.ts:18-22 | the three accepted statuses get the classes `badge badge-pending`, `badge badge-progress` and `badge badge-done`; any other gets the plain `badge` |
| TicketView.StyledExactlyWhenAllowed | frontend/src/presentation/pages/SupportTicketsPage.ts:53 | a status gets a styled badge, and a translated label, exactly when the server accepts it as a status |
| TicketView.WithStatus | frontend/src/presentation/pages/SupportTicketsPage.ts:25-27 | with no status or an empty one the path is requested as it is; otherwise `?status=` and the URI-encoded status are appended |
| TicketView.StatusIsOneValue | frontend/src/presentation/pages/SupportAdminPage.ts:29-31 | whatever the status holds, the text after `?status=` contains no `&`, `#` or `?`, so it cannot start another query parameter or a fragment |
| SupportTicketsPage.RenderTable | frontend/src/presentation/pages/SupportTicketsPage.ts:31-61 | no tickets give exactly the "Nema zahtjeva." message; otherwise one row per ticket, in order, with its id, its status badge, and a subject and description that unescape back to the ticket's own text |
| SupportTicketsPage.Open | frontend/src/presentation/pages/SupportTicketsPage.ts:67-73 | the page asks the user to sign in exactly when no non-empty token is stored, and then makes no request; otherwise it requests the caller's tickets with the selected status as the query, carrying a non-empty bearer, the trimmed token when it is not blank |
| SupportTicketsPage.Loaded | frontend/src/presentation/pages/SupportTicketsPage.ts:100-109 | a failed request shows "Greška pri učitavanju: " and its message; a list shows the rendered table; a body that is not a list ends in the runtime's error |
| SupportTicketsPage.ServerTicketsAreStyled | frontend/src/presentation/pages/SupportTicketsPage.ts:46-57 | when the stored tickets hold only statuses the server allows, every row of the server's own `mine` answer gets a styled badge and a translated label |
| SupportAdminPage.TakeOf | frontend/src/presentation/pages/SupportAdminPage.ts:124 | the number of tickets asked for is at least 1: blank, non-numeric or zero input gives 50, a positive number is kept and a negative one gives 1 |
| SupportAdminPage.ByUserPath | frontend/src/presentation/pages/SupportAdminPage.ts:28-31 | one user's tickets are requested under `/by-user/` and the user's id, with the status query only when a status is selected |
| SupportAdminPage.PlanOf | frontend/src/presentation/pages/SupportAdminPage.ts:122-134 | with a user id the server filters by that user and the status and the page filters nothing; without one the page asks for the newest `take` tickets and filters them by the selected status itself |
| SupportAdminPage.ClientFilter | frontend/src/presentation/pages/SupportAdminPage.ts:133 | with no status every ticket is kept; otherwise exactly the tickets with that status are kept, as a subsequence of the input (original order) |
| SupportAdminPage.ClientFilterAppend | frontend/src/presentation/pages/SupportAdminPage.ts:133 | filtering two listings one after the other is filtering each in place: the kept tickets of the first all come before those of the second |
| SupportAdminPage.ClientFilterIdempotent | frontend/src/presentation/pages/SupportAdminPage.ts:133 | filtering a filtered listing again by the same status changes nothing |
| SupportAdminPage.ClientFilterOfServerListing | frontend/src/presentation/pages/SupportAdminPage.ts:131-133 | when `take` covers the table, the server's listing filtered on the client holds every stored ticket with the chosen status and no ticket with another |
| SupportAdminPage.UserCell | frontend/src/presentation/pages/SupportAdminPage.ts:45 | a ticket without a user shows `-`; one with a user shows a number that reads back as that user's id |
| SupportAdminPage.RenderTable | frontend/src/presentation/pages/SupportAdminPage.ts:39-81 | no tickets give exactly the "Nema zahtjeva." message; otherwise one row per ticket, in order, with its id, its user cell, its badge, and a subject and description that unescape back to the ticket's own text |
| SupportAdminPage.AdminPage.constructor | frontend/src/presentation/pages/SupportAdminPage.ts:119-120 | the page starts loading and has requested nothing |
| SupportAdminPage.AdminPage.Load | frontend/src/presentation/pages/SupportAdminPage.ts:119-140 | exactly one path, the one the plan names, is requested; a failure shows its message after "Greška pri učitavanju: ", a list shows the table of its client-filtered tickets |
| SupportAdminPage.RenderedRowPatchesItsTicket | frontend/src/presentation/pages/SupportAdminPage.ts:150-160 | the `data-id` a rendered row carries turns back into the ticket's own id in the PATCH path, and the server reads that id back as the same number |
| SupportAdminPage.TicketRow.constructor | frontend/src/presentation/pages/SupportAdminPage.ts:43-48 | a rendered row carries its ticket's id as `data-id` and the badge of its ticket's status |
| SupportAdminPage.TicketRow.Save | frontend/src/presentation/pages/SupportAdminPage.ts:143-169 | without an id or a selected status nothing is sent and the badge stays; otherwise the status change goes out with the stored token, a success rewrites the badge to the new status by the rendering rule, and a failure leaves the badge as it was |
| WishlistPage.EscapeText | frontend/src/presentation/pages/WishlistPage.ts:12-17 | a missing text escapes to the empty string; any other escapes to text that unescapes back to the original |
| WishlistPage.ItemOf | frontend/src/presentation/pages/WishlistPage.ts:24-26 | each field is the first present of its keys: the row id of `WishlistID`, `wishlistID`, `id`, else the row's position from 1; the name of `ModelName`, `modelName`, `ProductName`, `productName`, else "Proizvod"; the price of `Price`, `price`, `UnitPrice`, `unitPrice`, else 0 |
| WishlistPage.Items | frontend/src/presentation/pages/WishlistPage.ts:23-33 | one cart item per JSON item, in order, each read by the fallback rules with its own position |
| WishlistPage.TotalAppend | frontend/src/presentation/pages/WishlistPage.ts:35 | the total of two lists joined is the sum of their totals |
| WishlistPage.TotalOne | frontend/src/presentation/pages/WishlistPage.ts:35 | a single item adds its price when the price is finite and nothing otherwise |
| WishlistPage.TotalSkipsNonFinite | frontend/src/presentation/pages/WishlistPage.ts:35 | dropping the items whose price is not finite leaves the total unchanged |
| WishlistPage.TotalBoundsEachPrice | frontend/src/presentation/pages/WishlistPage.ts:35 | when no price is negative, no item's price exceeds the total |
| WishlistPage.TotalNonNegative | frontend/src/presentation/pages/WishlistPage.ts:35 | when no price is negative, the total is not negative |
| WishlistPage.RenderTable | frontend/src/presentation/pages/WishlistPage.ts:19-70 | no items give exactly "Korpa je prazna."; otherwise one row per item, numbered from 1, whose non-empty `data-wid` reads back as the item's id, whose name unescapes back to the item's, with the item's price, and the total of the finite prices |
| WishlistPage.ServerItemsKeepTheirIds | frontend/src/presentation/pages/WishlistPage.ts:24-25 | for the list the server sends, in camel case, every row carries its wishlist id and its model name, so a remove click names the row the server deletes |
| WishlistPage.Open | frontend/src/presentation/pages/WishlistPage.ts:74-78 | the page asks the user to sign in exactly when no non-empty token is stored; otherwise it requests the wishlist |
| WishlistPage.Loaded | frontend/src/presentation/pages/WishlistPage.ts:97-105 | a failed request shows "Greška: " and its message; a list shows the rendered table; a body that is not a list ends in the runtime's error |
| WishlistPage.RowIds | frontend/src/presentation/pages/WishlistPage.ts:51 | an error or an empty cart has no rows; a cart has one `data-wid` per rendered row, in order |
| WishlistPage.CartPage.constructor | frontend/src/presentation/pages/WishlistPage.ts:94-125 | the opened page shows what the first load gave, with its rows, an enabled order button and no order in flight |
| WishlistPage.CartPage.Load | frontend/src/presentation/pages/WishlistPage.ts:97-105 | the table and its rows are drawn anew with a fresh order button, while the page-wide order flag stays as it was |
| WishlistPage.CartPage.OrderClick | frontend/src/presentation/pages/WishlistPage.ts:117-122 | the first press marks the order as in flight and disables the button with the caption "Kreiram…"; once the flag is set a press changes nothing |
| WishlistPage.CartPage.RemoveClick | frontend/src/presentation/pages/WishlistPage.ts:112-116 | a row without `data-wid` sends nothing; otherwise the item's removal runs under the shared in-flight guard, a failure is alerted and keeps the row, and any other outcome takes exactly that row out of the document |
| WishlistPage.CartPage.ClearClick | frontend/src/presentation/pages/WishlistPage.ts:110-111 | the wishlist is cleared by one DELETE; on success the table is loaded again, on failure the error is alerted and the table stays |
| ApiConfig.EnvBase | frontend/src/application/commands/user.ts:10 | the base is never empty: `VITE_API_BASE_URL` when it is non-empty, else `VITE_API_URL` when it is non-empty, else `/api` |
| ApiConfig.AppendApiAsWritten | frontend/src/application/commands/user.ts:12-14 | as written: the result always ends in `/api`; a base already ending in `/api` is kept, any other loses its trailing slashes and gains `/api` |
| ApiConfig.TrailingSlashDoublesApi | frontend/src/application/commands/user.ts:12-14 | as written, a base ending in `/api/` resolves to one ending in `/api/api`; with the slashes stripped first it resolves to a single `/api` |
| ApiConfig.AppendApi | frontend/src/application/commands/user.ts:12-14 | corrected: the result ends in `/api`, keeps a base already ending in `/api`, and is the base without trailing slashes, with `/api` appended when it lacked it |
| ApiConfig.AppendApiIgnoresTrailingSlash | frontend/src/application/commands/user.ts:13 | corrected: one more trailing slash on the base resolves to the same API root |
| ApiConfig.AppendApiIdempotent | frontend/src/application/commands/user.ts:12-14 | resolving an already resolved base changes nothing |
| ApiConfig.RelativeOrAppendApiAsWritten | frontend/src/application/queries/user.ts:9-15 | as written: a base starting with `/` only loses its trailing slashes; any other ends in `/api` and is kept when it already did |
| ApiConfig.AbsoluteTrailingSlashDoublesApi | frontend/src/presentation/pages/LoginPage.ts:10-16 | as written, an absolute base ending in `/api/` resolves to one ending in `/api/api`; corrected, to a single `/api` |
| ApiConfig.RelativeOrAppendApi | frontend/src/application/queries/user.ts:12-13 | corrected: a base starting with `/` only loses its trailing slashes; any other ends in `/api` and is kept when it already did |
| ApiConfig.RelativeOrAppendApiIgnoresTrailingSlash | frontend/src/application/queries/user.ts:12-13 | corrected: a non-empty base with one more trailing slash resolves to the same API root |
| ApiConfig.DefaultResolvesToApi | frontend/src/application/queries/user.ts:11-14 | with neither variable set, every variant, as written or corrected, resolves to `/api` |
| ApiConfig.RelativeApi | frontend/src/presentation/pages/LoginPage.ts:10-18 | the login page's and the profile query's API root as written: a relative base keeps its path without trailing slashes; an absolute one already ending in `/api` is kept as it is, any other loses its trailing slashes and gains `/api`; with nothing set it is `/api` |
| ApiConfig.AuthHeaders | frontend/src/application/commands/user.ts:21-28 | an `Authorization` header is sent exactly when storage is reachable and a non-empty token is stored, and then it is `Bearer ` followed by the token as stored; no other header is added |
| ApiConfig.AuthHeadersAgreeWithClient | frontend/src/application/queries/user.ts:20-27 | whenever a token is stored these headers carry the same bearer as the shared HTTP client's |
| ApiConfig.JsonHeaders | frontend/src/application/commands/user.ts:37-40 | the headers are exactly `Content-Type: application/json` and the authorization headers, with the same bearer |
| ApiConfig.Failed | frontend/src/application/commands/user.ts:44-47 | a failed status throws the body's text, or the fallback message when the text is empty |
| ApiConfig.OnWire | frontend/src/application/commands/user.ts:44-49 | a controller's reply reaches the client with the same status code; an error carries its body (a validation message, a problem-details object, or nothing for the authorization challenge) as text and no JSON, a success its body as JSON |
| UserCommands.Api | frontend/src/application/commands/user.ts:8-18 | the commands' API root as written always ends in `/api`: a base already ending in `/api` is kept as it is, any other loses its trailing slashes and gains `/api`; with nothing set it is `/api` |
| UserCommands.UpdateProfileCall | frontend/src/application/commands/user.ts:31-42 | a PUT to the root's `/users/me` with a JSON content type, carrying a bearer exactly when a token is stored |
| UserCommands.ChangePasswordCall | frontend/src/application/commands/user.ts:53-64 | a PUT to the root's `/users/change-password` with a JSON content type, carrying a bearer exactly when a token is stored |
| UserCommands.UpdateProfile | frontend/src/application/commands/user.ts:44-49 | it throws exactly on a failed status, with the body's text or "Greška pri ažuriranju profila."; otherwise it returns the parsed body |
| UserCommands.ChangePassword | frontend/src/application/commands/user.ts:66-72 | it throws exactly on a failed status, with the body's text or "Greška pri promjeni lozinke."; otherwise it returns `true` |
| UserCommands.UpdateProfileReportsServer | frontend/src/application/commands/user.ts:44-49 | against the server's profile update: a success returns the new profile, a taken email throws the server's own message, the bodiless challenge the fixed message, a problem-details 401 its own text |
| UserCommands.ChangePasswordReportsServer | frontend/src/application/commands/user.ts:66-72 | against the server's password change: its 204 returns `true`, each refusal with a body (a message or a problem-details object) throws that text, the bodiless challenge the fixed message |
| UserQueries.GetProfileCall | frontend/src/application/queries/user.ts:29-36 | a GET to the API root's `/users/me` with a JSON content type, carrying a bearer exactly when a token is stored |
| UserQueries.GetProfile | frontend/src/application/queries/user.ts:38-44 | it throws exactly on a failed status, with the body's text or "Greška pri učitavanju profila."; otherwise it returns the parsed body |
| UserQueries.GetProfileReportsServer | frontend/src/application/queries/user.ts:38-44 | against the server's `me` action: a success returns the caller's profile, a request without a token throws the fixed message, a signed-in caller without an account the problem-details text |
| LoginPage.SubmittedEmail | frontend/src/presentation/pages/LoginPage.ts:111 | the submitted email is empty exactly when the input is blank |
| LoginPage.SubmittedEmailBlank | frontend/src/presentation/pages/LoginPage.ts:111-114 | the normalized email is blank exactly when the input is |
| LoginPage.SubmittedEmailLogsInAlike | frontend/src/presentation/pages/LoginPage.ts:111 | the email the page sends passes the server's required-field check exactly when the raw input would, and finds the same account |
| LoginPage.SavedUserAsWritten | frontend/src/presentation/pages/LoginPage.ts:139-148 | as written: the saved user's id and name are read from `userId` and `fullName`, its email and role from `email` and `role` |
| LoginPage.SavedUserLosesIdAndName | frontend/src/presentation/pages/LoginPage.ts:143-144 | against the server's camel-case answer, which names them `id` and `name`, the user saved as written has neither an id nor a name |
| LoginPage.SavedUserOf | frontend/src/presentation/pages/LoginPage.ts:139-148 | corrected: the saved user's id and name are read from the `id` and `name` the server sends |
| LoginPage.SavedUserKeepsServerFields | backend/src/Api/Controllers/AuthController.cs:110-116 | every field of the server's login answer except the token is saved |
| LoginPage.StoredText | frontend/src/presentation/pages/LoginPage.ts:139 | a text field that is present is stored as it is, a missing one as "undefined" and a null one as "null" |
| LoginPage.ShellKnowsSignedInUser | frontend/src/presentation/pages/LoginPage.ts:140-148 | after a sign-in the shell knows the user by the account's id and treats them as an administrator exactly when the server named the role `Admin`; as written it never learns the id |
| LoginPage.LoginForm.constructor | frontend/src/presentation/pages/LoginPage.ts:10-18 | the form starts with the API root as written, an enabled "Prijavi se" button, both messages hidden and nothing sent |
| LoginPage.LoginForm.ClearMessages | frontend/src/presentation/pages/LoginPage.ts:97-104 | both messages are hidden and nothing else changes |
| LoginPage.LoginForm.BeginSubmit | frontend/src/presentation/pages/LoginPage.ts:107-129 | with an empty email or password only "Unesite email i lozinku." shows and nothing is sent; otherwise the button is disabled with "Prijavljivanje..." and exactly one request with the normalized email and the password is posted to `/auth/login` |
| LoginPage.LoginForm.FinishSubmit | frontend/src/presentation/pages/LoginPage.ts:131-163 | a failed status shows its text or "Neuspješna prijava." and stores nothing; a success stores the token and the user as written, with id and name read from `userId` and `fullName`, shows "Uspješna prijava." and schedules the move to the profile; either way the button is enabled again |
| LoginPage.LoginForm.Submit | frontend/src/presentation/pages/LoginPage.ts:107-164 | a request is sent exactly when both fields are filled; a refused login stores nothing and shows the reason, a successful one stores the token and the user as written (id and name from `userId` and `fullName`) and moves to the profile, and the button ends up enabled |

## Left out

- Signing, encoding and validating JWTs (RFC 7519 with HS256 from section 3.2 of RFC 7518) are not modelled. A token is its claim set, `Identity.TokenClaims`, and the clock is the parameter `now`.
- The password hasher is not modelled. `hash` and `verify` are function parameters, so no claim is made about salting or timing.
- EF Core and SQL Server are replaced by in-memory tables. The model does not capture:
  - SQL collation (email comparison is exact on the lower-cased text);
  - transactions;
  - the product join and image subquery of the wishlist listing, whose `ImagePath` and `Price` columns are left out;
  - a `DbUpdateException`, which appears only as the `insertFails` parameter of `WishlistController.Add`.
- Framework wiring is not modelled: dependency injection, CORS, Swagger, the middleware order, route matching beyond the `int` constraint, and model binding beyond missing and null fields. Of the filters, only two are modelled. `[Authorize]` answers a request without a valid token with a bodiless 401 before the action runs (`Identity.Authenticated`). `[ApiController]` turns a bare `NotFound()` or `Unauthorized()` into a problem-details body (`Http.ProblemText`).
- Http.ProblemText: holds the `type`, `title` and `status` members of the problem-details body. The per-request `traceId` member is not modelled. The `type` URI, which depends on the framework version, is taken as the RFC 9110 one.
- WishlistController.GetMine: rows added at the same moment are listed in their stored order (`Queries.SortDescStable`), as LINQ over objects does. The source's query runs in the database, where `ORDER BY DateAdded DESC` leaves the order of such ties undefined.
- DOM rendering is modelled as the data the markup shows. The following are not modelled:
  - event wiring, modals, the focus trap and keyboard handling;
  - `confirm` and `alert` (alerts are recorded as a list of messages);
  - `setTimeout` (the scheduled redirect is a field);
  - the placeholder image's SVG content.
- `fetch`, `res.text()`, `res.json()`, `atob` and `JSON.parse` are parameters or outcomes. A body that fails to parse is `None`, and the runtime's own error message for it is not modelled.
- Floating point is not modelled. A JavaScript number is `Js.JsNumber`, either a whole number or non-finite, so fractional prices and ids are not represented. `Intl` and `toLocaleString` currency formatting is left out.
- Js.NumberOf: reads only blank strings and signed decimal integers. `"Infinity"`, exponent forms such as `"1e3"`, fractions and hexadecimal forms all read as non-finite, like `NaN`. So `SupportAdminPage.TakeOf` gives 50 for `"1e3"` and for `"Infinity"`, where the browser would ask for 1000 tickets or send `take=Infinity`. Likewise `ReviewsPage.SaveEdit` lets a rating written as `"5e0"` through and sends it as a `null` rating, where the browser sends 5. It also sends `"Infinity"` as `null`, where the browser refuses it as greater than 5.
- AuthController.Register: the minimum password length is checked on the number of characters in the model. .NET's `string.Length` counts UTF-16 code units, so a password with characters outside the Basic Multilingual Plane is longer in the source than in the model.
- UsersController.ChangePassword: the same difference in counting password length as `AuthController.Register`.
- SupportTicketsController.GetAll: `take` is always given. The default of 50 used when the query has no `take` is not modelled, and a negative `take` gives an empty listing, where the database provider would refuse the query.
- ProductsPage.Catalog.Apply: filters by the search text only. The minimum and maximum price bounds of `applyFilters` compare floating-point prices and are left out.
- Strings are sequences of characters. Only ASCII whitespace and ASCII letter case are modelled, not Unicode trimming, case mapping or normalization.
- Concurrency and interleavings of requests are not modelled. Every handler runs to completion before the next event. The wishlist client's in-flight set is modelled sequentially, as a begin step and a finish step.
- The reviews page's add-review form is not modelled (`ReviewsPage.ts:228-258`), because its only checks repeat the server's validation. Three parts of the edit and delete flow are not modelled either:
  - the delete confirmation dialog (`ReviewsPage.ts:392-424`);
  - the friendly messages chosen per status code for failed edits and deletes (`ReviewsPage.ts:369-377` and `410-414`);
  - the star widget.
  The checks made before an edit is sent are modelled by `ReviewsPage.SaveEdit`.
- LoginPage.SubmittedEmailLogsInAlike: states that the normalized email passes the same field check and finds the same account as the raw input. It does not state that the two `AuthController.Login` replies are equal, which follows from those two facts together with the rest of `Login`.
- ProductsPage.CartButton.BeginClick: records the request path `addToWishlist` posts to. The id check of `addToWishlist` itself is stated separately, by `WishlistClient.AddToWishlist` and `WishlistClient.AddPositive`.
- `err?.message ?? 'nepoznato'` and similar fallbacks: a thrown error always carries a message in the model, so the fallback text is never shown.
- Request bodies (`JSON.stringify(payload)`) are not part of the modelled requests. Only the verb, URL and headers are.
- `RegisterPage.ts`, `ChangePasswordPage.ts`, `ProfilePage.ts`, `Program.cs` and the DTO files are not part of this model. The DTOs appear only as datatype shapes.

## Findings

| source | as written | input that shows it | evidently intended | confidence | as-written member | corrected member |
|---|---|---|---|---|---|---|
| frontend/src/application/commands/user.ts:12-14 | the `/api` suffix is looked for before trailing slashes are stripped, so a base ending in `/api/` gets a second suffix | `VITE_API_BASE_URL = "https://shop.example/api/"` resolves to `https://shop.example/api/api` | one `/api` root whatever the trailing slashes (`ApiConfig.AppendApiIgnoresTrailingSlash`, `ApiConfig.AppendApiIdempotent`) | not executed; high | ApiConfig.AppendApiAsWritten (shown by ApiConfig.TrailingSlashDoublesApi) | ApiConfig.AppendApi |
| frontend/src/application/queries/user.ts:13 | the same suffix check for an absolute base, also in `LoginPage.ts:14` | `VITE_API_URL = "https://shop.example/api/"` resolves to `https://shop.example/api/api` | one `/api` root whatever the trailing slashes (`ApiConfig.RelativeOrAppendApiIgnoresTrailingSlash`) | not executed; high | ApiConfig.RelativeOrAppendApiAsWritten (shown by ApiConfig.AbsoluteTrailingSlashDoublesApi) | ApiConfig.RelativeOrAppendApi |
| frontend/src/presentation/pages/LoginPage.ts:143-144 | the stored user's `id` and `fullName` are read from `data.userId` and `data.fullName`, but the server's `AuthResponse` is serialized as `id` and `name` | any successful login, e.g. the answer `{"id":7,"name":"Ana","email":"ana@x.ba","role":"User","token":"…"}` stores a user with neither id nor name, and the shell never learns the user id | the saved user carries the account's id and name (`LoginPage.SavedUserKeepsServerFields`, `LoginPage.ShellKnowsSignedInUser`) | not executed; high | LoginPage.SavedUserAsWritten (shown by LoginPage.SavedUserLosesIdAndName) | LoginPage.SavedUserOf |
