/** `/api/wishlist`: the caller's saved products. The controller is
    `[Authorize]`d, so a request without a token gets the bodiless 401
    challenge; every action then reads the caller's integer id from the
    name-identifier claim and answers its own 401 without it. All writes are
    scoped to that id. */
module WishlistController {
  import opened Wrappers
  import opened Http
  import opened Identity
  import opened Persistence
  import opened Queries

  /** One element of `GET /api/wishlist`. The price and image path are not part of this model. */
  datatype WishlistItemDto = WishlistItemDto(
    wishlistId: int,
    productId: int,
    modelName: string,
    dateAdded: Option<Day>)

  const MsgNoProduct: string := "Proizvod ne postoji."

  // ---------------------------------------------------------------- reading

  /** `OrderByDescending(w => w.DateAdded)`: a missing date sorts below every date. */
  function DateKey(w: Wishlist): int {
    match w.dateAdded
    case None => -1
    case Some(d) => d
  }

  function ItemDateKey(it: WishlistItemDto): int {
    match it.dateAdded
    case None => -1
    case Some(d) => d
  }

  predicate IsProduct(products: seq<Product>, id: int) {
    exists i :: 0 <= i < |products| && products[i].productId == id
  }

  /** The inner join on `ProductID`: rows without a product id, or whose product is gone, drop out. */
  predicate Joins(products: seq<Product>, w: Wishlist) {
    w.productId.Some? && IsProduct(products, w.productId.value)
  }

  /** The product's `ModelName ?? ""` (product ids are the table's key). */
  function ModelNameOf(products: seq<Product>, id: int): string {
    if products == [] then ""
    else if products[0].productId == id then products[0].modelName.GetOr("")
    else ModelNameOf(products[1..], id)
  }

  function ItemOf(products: seq<Product>, w: Wishlist): WishlistItemDto {
    WishlistItemDto(w.wishlistId, w.productId.GetOr(0), ModelNameOf(products, w.productId.GetOr(0)), w.dateAdded)
  }

  function OwnedBy(uid: int): Wishlist -> bool {
    (w: Wishlist) => w.userId == Some(uid)
  }

  /** The caller's rows, newest first. */
  function MineRows(uid: int, rows: seq<Wishlist>): (r: seq<Wishlist>)
    ensures SortedDesc(r, DateKey)
    ensures forall w :: w in r <==> w in rows && w.userId == Some(uid)
  {
    var mine := Filter(rows, OwnedBy(uid));
    SortDescMembers(mine, DateKey);
    SortDesc(mine, DateKey)
  }

  /** The caller's rows that join with a product, newest first. */
  function JoinedRows(uid: int, rows: seq<Wishlist>, products: seq<Product>): (r: seq<Wishlist>)
    ensures SortedDesc(r, DateKey)
    ensures forall w :: w in r <==> w in rows && w.userId == Some(uid) && Joins(products, w)
  {
    var mine := MineRows(uid, rows);
    FilterKeepsSortedDesc(mine, DateKey, (w: Wishlist) => Joins(products, w));
    Filter(mine, (w: Wishlist) => Joins(products, w))
  }

  /** The query of `GetMine`: the caller's rows, newest first, joined with their products. */
  function MineQuery(uid: int, rows: seq<Wishlist>, products: seq<Product>): (items: seq<WishlistItemDto>)
    ensures forall i, j :: 0 <= i < j < |items| ==> ItemDateKey(items[i]) >= ItemDateKey(items[j])
    ensures forall it :: it in items ==>
      exists w :: w in rows && w.userId == Some(uid) && Joins(products, w) && it == ItemOf(products, w)
    ensures forall w :: w in rows && w.userId == Some(uid) && Joins(products, w) ==> ItemOf(products, w) in items
  {
    var joined := JoinedRows(uid, rows, products);
    var f := (w: Wishlist) => ItemOf(products, w);
    MapMembers(joined, f);
    var items := Map(joined, f);
    assert forall i :: 0 <= i < |items| ==> ItemDateKey(items[i]) == DateKey(joined[i]);
    items
  }

  /** `GET /api/wishlist`. */
  function GetMine(user: Principal, rows: seq<Wishlist>, products: seq<Product>): (r: Reply<seq<WishlistItemDto>>)
    ensures !Authenticated(user) ==> r == Failure(Unauthorized, "")
    ensures Authenticated(user) && UserIdOf(user).None? ==> r == Failure(Unauthorized, ProblemText(Unauthorized))
    ensures UserIdOf(user).Some? ==> r == Success(Ok, MineQuery(UserIdOf(user).value, rows, products))
    ensures r.Success? ==> forall it :: it in r.body ==>
      exists w :: w in rows && w.userId == UserIdOf(user) && it.wishlistId == w.wishlistId
  {
    if !Authenticated(user) then Failure(Unauthorized, "")
    else match UserIdOf(user)
      case None => Failure(Unauthorized, ProblemText(Unauthorized))
      case Some(uid) => Success(Ok, MineQuery(uid, rows, products))
  }

  /** Every listed product id names an existing product: the inner join has
      already dropped the rows without one, so the `?? 0` fallback never shows. */
  lemma {:induction false} GetMineListsRealProducts(user: Principal, rows: seq<Wishlist>, products: seq<Product>)
    requires GetMine(user, rows, products).Success?
    ensures forall it :: it in GetMine(user, rows, products).body ==> IsProduct(products, it.productId)
  {
    var uid := UserIdOf(user).value;
    forall it | it in MineQuery(uid, rows, products) ensures IsProduct(products, it.productId) {
      var w :| w in rows && w.userId == Some(uid) && Joins(products, w) && it == ItemOf(products, w);
    }
  }

  // ---------------------------------------------------------------- writing

  /** At most one row for each (user, product) pair. */
  predicate UniquePairs(rows: seq<Wishlist>) {
    forall i, j :: 0 <= i < j < |rows| && rows[i].userId.Some? && rows[i].productId.Some? ==>
      rows[i].userId != rows[j].userId || rows[i].productId != rows[j].productId
  }

  predicate HasPair(rows: seq<Wishlist>, uid: int, productId: int) {
    exists i :: 0 <= i < |rows| && rows[i].userId == Some(uid) && rows[i].productId == Some(productId)
  }

  /** `POST /api/wishlist/{productId}`: add the pair unless it is already there.
      `today` is the server's date; `insertFails` stands for a `DbUpdateException`
      on save, which is answered like a success. */
  method Add(db: WishlistTable, user: Principal, products: seq<Product>, productId: int, today: Day, insertFails: bool)
    returns (reply: Reply<()>)
    requires db.Valid()
    modifies db
    ensures db.Valid()
    ensures !Authenticated(user) ==> reply == Failure(Unauthorized, "") && db.rows == old(db.rows)
    ensures Authenticated(user) && UserIdOf(user).None? ==>
      reply == Failure(Unauthorized, ProblemText(Unauthorized)) && db.rows == old(db.rows)
    ensures UserIdOf(user).Some? && !IsProduct(products, productId) ==>
      reply == Failure(NotFound, MsgNoProduct) && db.rows == old(db.rows)
    ensures UserIdOf(user).Some? && IsProduct(products, productId) ==> reply == Success(NoContent, ())
    ensures UserIdOf(user).Some? && IsProduct(products, productId) ==>
      if HasPair(old(db.rows), UserIdOf(user).value, productId) || insertFails then db.rows == old(db.rows)
      else db.rows == old(db.rows) + [Wishlist(old(db.nextId), UserIdOf(user), Some(productId), Some(today))]
    ensures UniquePairs(old(db.rows)) ==> UniquePairs(db.rows)
  {
    if !Authenticated(user) {
      return Failure(Unauthorized, "");
    }
    var userId := UserIdOf(user);
    if userId.None? {
      return Failure(Unauthorized, ProblemText(Unauthorized));
    }
    var existsProduct := exists i :: 0 <= i < |products| && products[i].productId == productId;
    if !existsProduct {
      return Failure(NotFound, MsgNoProduct);
    }
    var already := exists i :: 0 <= i < |db.rows| && db.rows[i].userId == userId && db.rows[i].productId == Some(productId);
    if !already && !insertFails {
      var _ := db.Insert(Wishlist(0, userId, Some(productId), Some(today)));
    }
    reply := Success(NoContent, ());
  }

  function KeepOnRemove(wishlistId: int, uid: int): Wishlist -> bool {
    (w: Wishlist) => !(w.wishlistId == wishlistId && w.userId == Some(uid))
  }

  function KeepOnRemoveByProduct(productId: int, uid: int): Wishlist -> bool {
    (w: Wishlist) => !(w.userId == Some(uid) && w.productId == Some(productId))
  }

  function KeepOnClear(uid: int): Wishlist -> bool {
    (w: Wishlist) => w.userId != Some(uid)
  }

  /** `DELETE /api/wishlist/{wishlistId}`: the caller's row with that id, if any, goes. */
  method Remove(db: WishlistTable, user: Principal, wishlistId: int) returns (reply: Reply<()>)
    requires db.Valid()
    modifies db
    ensures db.Valid()
    ensures !Authenticated(user) ==> reply == Failure(Unauthorized, "") && db.rows == old(db.rows)
    ensures Authenticated(user) && UserIdOf(user).None? ==>
      reply == Failure(Unauthorized, ProblemText(Unauthorized)) && db.rows == old(db.rows)
    ensures UserIdOf(user).Some? ==>
      var uid := UserIdOf(user).value;
      reply == Success(NoContent, ()) &&
      db.rows == Filter(old(db.rows), KeepOnRemove(wishlistId, uid)) &&
      (forall w :: w in db.rows <==> w in old(db.rows) && !(w.wishlistId == wishlistId && w.userId == Some(uid)))
  {
    if !Authenticated(user) {
      return Failure(Unauthorized, "");
    }
    var userId := UserIdOf(user);
    if userId.None? {
      return Failure(Unauthorized, ProblemText(Unauthorized));
    }
    db.DeleteWhere(KeepOnRemove(wishlistId, userId.value));
    reply := Success(NoContent, ());
  }

  /** `DELETE /api/wishlist/product/{productId}`: every row of the caller for that product goes. */
  method RemoveByProduct(db: WishlistTable, user: Principal, productId: int) returns (reply: Reply<()>)
    requires db.Valid()
    modifies db
    ensures db.Valid()
    ensures !Authenticated(user) ==> reply == Failure(Unauthorized, "") && db.rows == old(db.rows)
    ensures Authenticated(user) && UserIdOf(user).None? ==>
      reply == Failure(Unauthorized, ProblemText(Unauthorized)) && db.rows == old(db.rows)
    ensures UserIdOf(user).Some? ==>
      var uid := UserIdOf(user).value;
      reply == Success(NoContent, ()) &&
      db.rows == Filter(old(db.rows), KeepOnRemoveByProduct(productId, uid)) &&
      (forall w :: w in db.rows <==> w in old(db.rows) && !(w.userId == Some(uid) && w.productId == Some(productId))) &&
      !HasPair(db.rows, uid, productId)
  {
    if !Authenticated(user) {
      return Failure(Unauthorized, "");
    }
    var userId := UserIdOf(user);
    if userId.None? {
      return Failure(Unauthorized, ProblemText(Unauthorized));
    }
    db.DeleteWhere(KeepOnRemoveByProduct(productId, userId.value));
    reply := Success(NoContent, ());
  }

  /** `DELETE /api/wishlist`: all of the caller's rows go, nobody else's. */
  method Clear(db: WishlistTable, user: Principal) returns (reply: Reply<()>)
    requires db.Valid()
    modifies db
    ensures db.Valid()
    ensures !Authenticated(user) ==> reply == Failure(Unauthorized, "") && db.rows == old(db.rows)
    ensures Authenticated(user) && UserIdOf(user).None? ==>
      reply == Failure(Unauthorized, ProblemText(Unauthorized)) && db.rows == old(db.rows)
    ensures UserIdOf(user).Some? ==>
      var uid := UserIdOf(user).value;
      reply == Success(NoContent, ()) &&
      db.rows == Filter(old(db.rows), KeepOnClear(uid)) &&
      (forall w :: w in db.rows <==> w in old(db.rows) && w.userId != Some(uid))
  {
    if !Authenticated(user) {
      return Failure(Unauthorized, "");
    }
    var userId := UserIdOf(user);
    if userId.None? {
      return Failure(Unauthorized, ProblemText(Unauthorized));
    }
    db.DeleteWhere(KeepOnClear(userId.value));
    reply := Success(NoContent, ());
  }

  /** After `Clear` the caller's wishlist reads back empty. */
  lemma MineQueryAfterClear(uid: int, rows: seq<Wishlist>, products: seq<Product>)
    ensures MineQuery(uid, Filter(rows, KeepOnClear(uid)), products) == []
  {
  }

  /** Removing a row twice is the same as removing it once. */
  lemma RemoveIdempotent(rows: seq<Wishlist>, wishlistId: int, uid: int)
    ensures Filter(Filter(rows, KeepOnRemove(wishlistId, uid)), KeepOnRemove(wishlistId, uid)) ==
            Filter(rows, KeepOnRemove(wishlistId, uid))
  {
    var once := Filter(rows, KeepOnRemove(wishlistId, uid));
    assert forall i :: 0 <= i < |once| ==> KeepOnRemove(wishlistId, uid)(once[i]);
  }
}
