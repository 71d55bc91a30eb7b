/** `/api/reviews`: listing, creating, editing and deleting product reviews,
    with the rule that decides who may edit or delete a review. */
module ReviewsController {
  import opened Wrappers
  import opened Text
  import opened Http
  import opened Identity
  import opened Persistence

  /** The body of `POST /api/reviews`, and one element of `GET /api/reviews`. */
  datatype ReviewDto = ReviewDto(
    reviewId: int,
    productName: Option<string>,
    userName: Option<string>,
    rating: int,
    comment: Option<string>,
    userId: Option<int>)

  /** The body of `PUT /api/reviews/{id}`: absent fields are left alone. */
  datatype UpdateReviewDto = UpdateReviewDto(rating: Option<int>, comment: Option<string>)

  const MsgInvalidReview: string := "Nevažeći podaci o recenziji."
  const MsgInvalidData: string := "Nevažeći podaci."
  const MsgNotFound: string := "Recenzija nije pronađena."
  const MsgAdded: string := "Recenzija je uspješno dodana."
  const MsgUpdated: string := "Recenzija je uspješno ažurirana."
  const MsgDeleted: string := "Recenzija je uspješno obrisana."

  // ---------------------------------------------------------------- listing

  /** One row of `GET /api/reviews`: a missing rating shows as 0, a missing comment as "". */
  function ToDto(r: Review): (d: ReviewDto)
    ensures d.reviewId == r.reviewId && d.userId == r.userId
    ensures d.productName == r.productName && d.userName == r.userName
    ensures r.rating.Some? ==> d.rating == r.rating.value
    ensures r.rating.None? ==> d.rating == 0
    ensures d.comment.Some? && (r.comment.Some? ==> d.comment == r.comment)
    ensures r.comment.None? ==> d.comment == Some("")
  {
    ReviewDto(r.reviewId, r.productName, r.userName, r.rating.GetOr(0), Some(r.comment.GetOr("")), r.userId)
  }

  /** `GET /api/reviews`: every stored review, in table order. */
  function GetAll(rows: seq<Review>): (r: seq<ReviewDto>)
    ensures |r| == |rows|
    ensures forall i :: 0 <= i < |rows| ==> r[i] == ToDto(rows[i])
  {
    Queries.Map(rows, ToDto)
  }

  // ---------------------------------------------------------------- permission

  /** `Trim().ToLowerInvariant()`. */
  function Norm(s: string): string {
    ToLower(Trim(s))
  }

  /** `w` is the word of `a` that starts at `n`: only spaces come before it,
      it starts with a non-space, and a space or the end of `a` follows it. */
  ghost predicate WordAfterSpaces(a: string, n: int, w: string) {
    0 <= n < |a| && n + |w| <= |a| && a[n] != ' ' && w == a[n..n + |w|] &&
    (forall k :: 0 <= k < n ==> a[k] == ' ') && (n + |w| == |a| || a[n + |w|] == ' ')
  }

  /** `a.Split(' ', RemoveEmptyEntries).FirstOrDefault() ?? a`: the first word
      between spaces, or the whole string when it holds nothing but spaces. */
  function FirstWord(a: string): (w: string)
    ensures ' ' !in w || w == a
    ensures (exists i :: 0 <= i < |a| && a[i] != ' ') ==> w != [] && ' ' !in w
    ensures (forall i :: 0 <= i < |a| ==> a[i] == ' ') ==> w == a
    ensures (exists i :: 0 <= i < |a| && a[i] != ' ') ==> exists n :: WordAfterSpaces(a, n, w)
  {
    var d := DropWhile(a, IsSpace);
    if d == [] then a
    else
      var w := TakeUntil(d, IsSpace);
      var n := |a| - |d|;
      assert a[n..] == d;
      assert a[n..n + |w|] == w && a[n] == d[0];
      assert n + |w| < |a| ==> a[n + |w|] == d[|w|];
      assert WordAfterSpaces(a, n, w);
      w
  }

  /** The permissive fallback for reviews without an owner id: the caller's
      `fullName` claim and the review's author name, both non-blank, compared
      after trimming and lower-casing. */
  predicate NameFallback(fullName: Option<string>, userName: Option<string>) {
    !IsNullOrWhiteSpace(fullName) && !IsNullOrWhiteSpace(userName) &&
    var a := Norm(fullName.value);
    var b := Norm(userName.value);
    a == b || Contains(a, b) || b == FirstWord(a)
  }

  /** The role claim names the administrator role, in any letter case. */
  predicate IsAdminRole(user: Principal) {
    EqualsIgnoreCase(user.role.GetOr(""), "Admin")
  }

  /** `CanActOnReview`: administrators may act on any review; otherwise a
      review with an owner id may be changed only by that owner, and a
      review without one by a caller whose name matches the author name. */
  function CanActOnReview(user: Principal, review: Review): (ok: bool)
    ensures IsAdminRole(user) ==> ok
    ensures review.userId.Some? ==> (ok <==> IsAdminRole(user) || UserIdOf(user) == review.userId)
    ensures review.userId.None? ==> (ok <==> IsAdminRole(user) || NameFallback(user.fullName, review.userName))
  {
    var isAdmin := EqualsIgnoreCase(user.role.GetOr(""), "Admin");
    var isOwner :=
      if review.userId.Some? && !IsNullOrEmpty(user.nameIdentifier) then
        match ParseInt32(user.nameIdentifier)
        case Some(current) => review.userId.value == current
        case None => false
      else false;
    var isOwner' :=
      if !isOwner && review.userId.None? then NameFallback(user.fullName, review.userName)
      else isOwner;
    isAdmin || isOwner'
  }

  /** "admin" and "ADMIN" are administrators too; "Administrator" is not. */
  lemma AdminRoleIgnoresCase()
    ensures IsAdminRole(Principal(None, Some("admin"), None))
    ensures IsAdminRole(Principal(None, Some("ADMIN"), None))
    ensures !IsAdminRole(Principal(None, Some("Administrator"), None))
    ensures !IsAdminRole(Anonymous)
  {
    assert ToUpper("admin") == "ADMIN";
    assert ToUpper("Admin") == "ADMIN";
    assert |ToUpper("Administrator")| != |ToUpper("Admin")|;
    assert ToUpper("") != ToUpper("Admin");
  }

  // ---------------------------------------------------------------- create

  /** The checks `AddReview` makes before storing anything. */
  predicate ValidNewReview(dto: Option<ReviewDto>) {
    dto.Some? &&
    !IsNullOrWhiteSpace(dto.value.comment) &&
    1 <= dto.value.rating <= 5 &&
    !IsNullOrWhiteSpace(dto.value.productName) &&
    !IsNullOrWhiteSpace(dto.value.userName)
  }

  /** The row `AddReview` stores: the posted text and rating, owned by the
      caller's integer id when there is one; the posted id and owner are ignored. */
  function NewReview(dto: ReviewDto, user: Principal): (r: Review)
    ensures r.userId == UserIdOf(user)
    ensures r.rating == Some(dto.rating) && r.comment == dto.comment
    ensures r.productName == dto.productName && r.userName == dto.userName
  {
    Review(0, dto.productName, dto.userName, Some(dto.rating), dto.comment, UserIdOf(user))
  }

  /** `POST /api/reviews`. */
  method AddReview(db: ReviewTable, user: Principal, dto: Option<ReviewDto>) returns (reply: Reply<string>)
    requires db.Valid()
    modifies db
    ensures db.Valid()
    ensures !ValidNewReview(dto) ==>
      reply == Failure(BadRequest, MsgInvalidReview) && db.rows == old(db.rows) && db.nextId == old(db.nextId)
    ensures ValidNewReview(dto) ==>
      reply == Success(Ok, MsgAdded) &&
      db.rows == old(db.rows) + [NewReview(dto.value, user).(reviewId := old(db.nextId))]
  {
    if !ValidNewReview(dto) {
      return Failure(BadRequest, MsgInvalidReview);
    }
    var review := NewReview(dto.value, user);
    var _ := db.Insert(review);
    reply := Success(Ok, MsgAdded);
  }

  // ---------------------------------------------------------------- update

  /** `dto` is rejected before the review is looked up. */
  predicate BadUpdate(dto: Option<UpdateReviewDto>) {
    dto.None? || (dto.value.rating.Some? && (dto.value.rating.value < 1 || dto.value.rating.value > 5))
  }

  /** The partial update: each field supplied in `dto` replaces the stored one. */
  function Patch(review: Review, dto: UpdateReviewDto): (r: Review)
    ensures r.rating == (if dto.rating.Some? then dto.rating else review.rating)
    ensures r.comment == (if dto.comment.Some? then dto.comment else review.comment)
    ensures r.(rating := review.rating, comment := review.comment) == review
  {
    var r1 := if dto.rating.Some? then review.(rating := dto.rating) else review;
    if dto.comment.Some? then r1.(comment := dto.comment) else r1
  }

  /** Editing never changes who may act on a review. */
  lemma PatchKeepsPermission(user: Principal, review: Review, dto: UpdateReviewDto)
    ensures CanActOnReview(user, Patch(review, dto)) == CanActOnReview(user, review)
  {
  }

  /** Sending the same edit twice leaves the review as after the first. */
  lemma PatchIdempotent(review: Review, dto: UpdateReviewDto)
    ensures Patch(Patch(review, dto), dto) == Patch(review, dto)
  {
  }

  /** `PUT /api/reviews/{id}`: `[Authorize]` turns away a request without a
      token with the bodiless 401 challenge; then validation, lookup,
      permission and the patch. */
  method UpdateReview(db: ReviewTable, user: Principal, id: int, dto: Option<UpdateReviewDto>)
    returns (reply: Reply<string>)
    requires db.Valid()
    modifies db
    ensures db.Valid() && db.nextId == old(db.nextId)
    ensures !Authenticated(user) ==> reply == Failure(Unauthorized, "") && db.rows == old(db.rows)
    ensures Authenticated(user) && BadUpdate(dto) ==>
      reply == Failure(BadRequest, MsgInvalidData) && db.rows == old(db.rows)
    ensures Authenticated(user) && !BadUpdate(dto) && IndexOfKey(old(db.rows), ReviewKey, id).None? ==>
      reply == Failure(NotFound, MsgNotFound) && db.rows == old(db.rows)
    ensures Authenticated(user) && !BadUpdate(dto) && IndexOfKey(old(db.rows), ReviewKey, id).Some? ==>
      var i := IndexOfKey(old(db.rows), ReviewKey, id).value;
      if CanActOnReview(user, old(db.rows)[i]) then
        reply == Success(Ok, MsgUpdated) && db.rows == old(db.rows)[i := Patch(old(db.rows)[i], dto.value)]
      else
        reply.status == Forbidden && db.rows == old(db.rows)
  {
    if !Authenticated(user) {
      return Failure(Unauthorized, "");
    }
    if BadUpdate(dto) {
      return Failure(BadRequest, MsgInvalidData);
    }
    var found := IndexOfKey(db.rows, ReviewKey, id);
    if found.None? {
      return Failure(NotFound, MsgNotFound);
    }
    var i := found.value;
    var review := db.rows[i];
    if !CanActOnReview(user, review) {
      return Failure(Forbidden, "");
    }
    db.Put(i, Patch(review, dto.value));
    reply := Success(Ok, MsgUpdated);
  }

  // ---------------------------------------------------------------- delete

  /** `DELETE /api/reviews/{id}`: the bodiless 401 challenge without a token,
      then lookup, permission and removal of that one review. */
  method DeleteReview(db: ReviewTable, user: Principal, id: int) returns (reply: Reply<string>)
    requires db.Valid()
    modifies db
    ensures db.Valid() && db.nextId == old(db.nextId)
    ensures !Authenticated(user) ==> reply == Failure(Unauthorized, "") && db.rows == old(db.rows)
    ensures Authenticated(user) && IndexOfKey(old(db.rows), ReviewKey, id).None? ==>
      reply == Failure(NotFound, MsgNotFound) && db.rows == old(db.rows)
    ensures Authenticated(user) && IndexOfKey(old(db.rows), ReviewKey, id).Some? ==>
      var i := IndexOfKey(old(db.rows), ReviewKey, id).value;
      if CanActOnReview(user, old(db.rows)[i]) then
        reply == Success(Ok, MsgDeleted) &&
        (forall r :: r in db.rows <==> r in old(db.rows) && r.reviewId != id)
      else
        reply.status == Forbidden && db.rows == old(db.rows)
  {
    if !Authenticated(user) {
      return Failure(Unauthorized, "");
    }
    var found := IndexOfKey(db.rows, ReviewKey, id);
    if found.None? {
      return Failure(NotFound, MsgNotFound);
    }
    var i := found.value;
    if !CanActOnReview(user, db.rows[i]) {
      return Failure(Forbidden, "");
    }
    ghost var before := db.rows;
    db.RemoveAt(i);
    RemoveAtKeepsOthers(before, i, id);
    reply := Success(Ok, MsgDeleted);
  }

  /** Removing the row at `i` removes the row with its key and keeps every other row. */
  lemma RemoveAtKeepsOthers(rows: seq<Review>, i: nat, id: int)
    requires i < |rows| && rows[i].reviewId == id && UniqueKeys(rows, ReviewKey)
    ensures forall r :: r in rows[..i] + rows[i + 1..] <==> r in rows && r.reviewId != id
  {
    var after := rows[..i] + rows[i + 1..];
    forall r | r in after ensures r in rows && r.reviewId != id {
      var k :| 0 <= k < |after| && after[k] == r;
      var j := if k < i then k else k + 1;
      assert rows[j] == r && j != i;
      assert ReviewKey(rows[j]) != ReviewKey(rows[i]);
    }
    forall r | r in rows && r.reviewId != id ensures r in after {
      var j :| 0 <= j < |rows| && rows[j] == r;
      assert j != i;
      if j < i {
        assert after[j] == r;
      } else {
        assert after[j - 1] == r;
      }
    }
  }
}
