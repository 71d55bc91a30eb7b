/** The browser's wishlist calls: the product id is checked before anything is
    sent, and a module-wide set of wishlist ids keeps a second removal of the
    same row from being sent while the first is still under way. */
module WishlistClient {
  import opened Wrappers
  import opened Text
  import opened Js
  import opened Browser
  import opened HttpClient

  /** `getMyWishlist` reads and `clearWishlist` deletes this path. */
  const WishlistPath: string := "/api/wishlist"
  const MsgBadProductId: string := "Neispravan productId."

  /** `/api/wishlist/${id}`. */
  function ItemPath(id: int): (p: string)
    ensures |p| > |WishlistPath| + 1 && p[..|WishlistPath| + 1] == WishlistPath + "/"
  {
    WishlistPath + "/" + IntToString(id)
  }

  /** The id segment of an item path reads back as the id, both as a number
      and as the server's 32-bit route value. */
  lemma ItemPathNamesId(id: int)
    ensures NumberOf(ItemPath(id)[|WishlistPath| + 1..]) == Whole(id)
    ensures IsInt32(id) ==> ParseInt32(Some(ItemPath(id)[|WishlistPath| + 1..])) == Some(id)
  {
    assert ItemPath(id)[|WishlistPath| + 1..] == IntToString(id);
    NumberOfIntToString(id);
    if IsInt32(id) {
      ParseInt32OfIntToString(id);
    }
  }

  datatype AddOutcome = Rejected(message: string) | Post(path: string)

  /** `addToWishlist(productId)` after `Number(productId)`: a non-finite or
      non-positive id throws before any request. */
  function AddToWishlist(productId: JsNumber): (o: AddOutcome)
    ensures o.Rejected? <==> productId.NonFinite? || productId.value <= 0
    ensures o.Rejected? ==> o.message == MsgBadProductId
    ensures o.Post? ==> (productId.value > 0 && o.path == ItemPath(productId.value) &&
                         NumberOf(o.path[|WishlistPath| + 1..]) == productId)
  {
    if !IsPositiveId(productId) then Rejected(MsgBadProductId)
    else
      ItemPathNamesId(productId.value);
      Post(ItemPath(productId.value))
  }

  /** A positive id is always posted, to its own item path. */
  lemma AddPositive(id: int)
    requires id > 0
    ensures AddToWishlist(Whole(id)) == Post(ItemPath(id))
  {
  }

  /** What one call of `removeWishlistItem` does before its request ends. */
  datatype Removal = Skipped | Requested(path: string)

  /** The module state of `wishlist.ts`: `delItemInFlight`, together with the
      paths of the DELETE requests issued so far. */
  class RemovalGuard {
    var delItemInFlight: set<int>
    var sent: seq<string>

    constructor()
      ensures delItemInFlight == {} && sent == []
    {
      delItemInFlight := {};
      sent := [];
    }

    /** The part of `removeWishlistItem` before the `await`: a non-finite id or
        an id already in flight returns at once; otherwise the id joins the set
        and its DELETE is issued. */
    method BeginRemove(wishlistId: JsNumber) returns (r: Removal)
      modifies this
      ensures wishlistId.NonFinite? ==> r == Skipped && unchanged(this)
      ensures wishlistId.Whole? && wishlistId.value in old(delItemInFlight) ==> r == Skipped && unchanged(this)
      ensures wishlistId.Whole? && wishlistId.value !in old(delItemInFlight) ==>
        r == Requested(ItemPath(wishlistId.value)) &&
        delItemInFlight == old(delItemInFlight) + {wishlistId.value} &&
        sent == old(sent) + [ItemPath(wishlistId.value)]
    {
      if wishlistId.NonFinite? {
        return Skipped;
      }
      var id := wishlistId.value;
      if id in delItemInFlight {
        return Skipped;
      }
      delItemInFlight := delItemInFlight + {id};
      r := Requested(ItemPath(id));
      sent := sent + [ItemPath(id)];
    }

    /** The `finally` block: runs whether the request succeeded or threw, and
        takes out that id only. */
    method FinishRemove(wishlistId: int)
      modifies this
      ensures delItemInFlight == old(delItemInFlight) - {wishlistId}
      ensures sent == old(sent)
    {
      delItemInFlight := delItemInFlight - {wishlistId};
    }

    /** One whole `removeWishlistItem` call with nothing else in between: the
        response is `httpDelete`'s, and afterwards the set is as it was. */
    method RemoveWishlistItem(wishlistId: JsNumber, response: Response<()>) returns (o: Outcome<()>)
      modifies this
      ensures wishlistId.NonFinite? ==> o == Returned(None) && unchanged(this)
      ensures wishlistId.Whole? && wishlistId.value in old(delItemInFlight) ==> o == Returned(None) && unchanged(this)
      ensures wishlistId.Whole? && wishlistId.value !in old(delItemInFlight) ==>
        o == DeleteOutcome(ItemPath(wishlistId.value), response) &&
        delItemInFlight == old(delItemInFlight) &&
        sent == old(sent) + [ItemPath(wishlistId.value)]
    {
      var r := BeginRemove(wishlistId);
      if r.Skipped? {
        return Returned(None);
      }
      o := DeleteOutcome(r.path, response);
      FinishRemove(wishlistId.value);
    }

    /** A second click while the first removal is pending sends nothing: the
        two calls together issue one request, and once the first finishes the
        set is back to what it was. */
    method DoubleRemove(wishlistId: int, response: Response<()>) returns (first: Outcome<()>, second: Removal)
      requires wishlistId !in delItemInFlight
      modifies this
      ensures second == Skipped
      ensures sent == old(sent) + [ItemPath(wishlistId)]
      ensures delItemInFlight == old(delItemInFlight)
      ensures first == DeleteOutcome(ItemPath(wishlistId), response)
    {
      var r := BeginRemove(Whole(wishlistId));
      second := BeginRemove(Whole(wishlistId));
      first := DeleteOutcome(r.path, response);
      FinishRemove(wishlistId);
    }
  }
}
