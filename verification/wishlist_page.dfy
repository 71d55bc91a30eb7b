/** The cart page ("Korpa"): the caller's wishlist as a table with a total,
    per-row removal through the wishlist client, and an order button that
    reacts to its first press only. */
module WishlistPage {
  import opened Wrappers
  import opened Js
  import opened Browser
  import opened Html
  import opened HttpClient
  import opened WishlistClient
  import Queries
  import WishlistController

  const MsgEmpty: string := "Korpa je prazna."
  const MsgSignIn: string := "Morate biti prijavljeni da biste vidjeli korpu."
  const MsgLoadError: string := "Greška: "
  const DefaultName: string := "Proizvod"
  const OrderLabel: string := "Poruči"
  const CreatingLabel: string := "Kreiram…"

  /** The keys tried in turn for a row's id, name and price. */
  const WidKeys: seq<string> := ["WishlistID", "wishlistID", "id"]
  const NameKeys: seq<string> := ["ModelName", "modelName", "ProductName", "productName"]
  const PriceKeys: seq<string> := ["Price", "price", "UnitPrice", "unitPrice"]

  /** `escapeHtml`: `null` and `undefined` are escaped as the empty string, and
      the result always reads back as the text. */
  function EscapeText(s: Option<string>): (r: string)
    ensures s.None? ==> r == ""
    ensures Unescape(r, AposShort) == s.GetOr("")
  {
    UnescapeEscape(s.GetOr(""), AposShort);
    EscapeHtml(s.GetOr(""))
  }

  // ---------------------------------------------------------------- rows

  /** The record `renderTable` makes of one item. */
  datatype CartItem = CartItem(wid: JsNumber, name: string, price: JsNumber)

  /** The fallbacks of one item at position `idx`: each field is read from
      the first of its keys that is present, in order. The row id tries
      `WishlistID`, `wishlistID`, `id`, else the position plus one; the name
      tries `ModelName`, `modelName`, `ProductName`, `productName`, else
      "Proizvod"; the price tries `Price`, `price`, `UnitPrice`, `unitPrice`,
      else 0. */
  function ItemOf(it: JsonObject, idx: nat): (r: CartItem)
    ensures Lookup(it.numbers, "WishlistID").Some? ==> r.wid == it.numbers["WishlistID"].value
    ensures Lookup(it.numbers, "WishlistID").None? && Lookup(it.numbers, "wishlistID").Some? ==>
      r.wid == it.numbers["wishlistID"].value
    ensures (forall k :: 0 <= k < |WidKeys| ==> Lookup(it.numbers, WidKeys[k]).None?) ==> r.wid == Whole(idx + 1)
    ensures (forall k :: 0 <= k < |NameKeys| ==> Lookup(it.texts, NameKeys[k]).None?) ==> r.name == DefaultName
    ensures Lookup(it.texts, "ModelName").Some? ==> r.name == it.texts["ModelName"].value
    ensures (forall k :: 0 <= k < |PriceKeys| ==> Lookup(it.numbers, PriceKeys[k]).None?) ==> r.price == Whole(0)
    ensures r.wid == Coalesce(Lookups(it.numbers, WidKeys), Whole(idx + 1))
    ensures r.name == Coalesce(Lookups(it.texts, NameKeys), DefaultName)
    ensures r.price == Coalesce(Lookups(it.numbers, PriceKeys), Whole(0))
  {
    var wids := Lookups(it.numbers, WidKeys);
    assert wids[0] == Lookup(it.numbers, "WishlistID") && wids[1] == Lookup(it.numbers, "wishlistID");
    CartItem(Coalesce(wids, Whole(idx + 1)),
             Coalesce(Lookups(it.texts, NameKeys), DefaultName),
             Coalesce(Lookups(it.numbers, PriceKeys), Whole(0)))
  }

  function Items(items: seq<JsonObject>): (r: seq<CartItem>)
    ensures |r| == |items| && forall i :: 0 <= i < |items| ==> r[i] == ItemOf(items[i], i)
  {
    seq(|items|, i requires 0 <= i < |items| => ItemOf(items[i], i))
  }

  /** What a price adds to the total: a non-finite price adds nothing. */
  function FinitePrice(it: CartItem): int {
    if it.price.Whole? then it.price.value else 0
  }

  /** The `reduce` of `renderTable`, from the left. */
  function Total(items: seq<CartItem>): int {
    if items == [] then 0 else Total(items[..|items| - 1]) + FinitePrice(items[|items| - 1])
  }

  /** The total of two lists is the sum of their totals. */
  lemma {:induction false} TotalAppend(a: seq<CartItem>, b: seq<CartItem>)
    ensures Total(a + b) == Total(a) + Total(b)
  {
    if b == [] {
      assert a + b == a;
    } else {
      var b' := b[..|b| - 1];
      assert (a + b)[..|a + b| - 1] == a + b';
      assert (a + b)[|a + b| - 1] == b[|b| - 1];
      TotalAppend(a, b');
    }
  }

  /** The total of one item is its price, when finite. */
  lemma TotalOne(it: CartItem)
    ensures Total([it]) == FinitePrice(it)
  {
    assert [it][..0] == [];
  }

  predicate HasFinitePrice(it: CartItem) {
    it.price.Whole?
  }

  /** Rows without a finite price do not change the total: it is the sum over
      the rows whose price is finite. */
  lemma {:induction false} TotalSkipsNonFinite(items: seq<CartItem>)
    ensures Total(Queries.Filter(items, HasFinitePrice)) == Total(items)
  {
    if items != [] {
      var head := [items[0]];
      var tail := items[1..];
      assert items == head + tail;
      TotalSkipsNonFinite(tail);
      Queries.FilterAppend(head, tail, HasFinitePrice);
      TotalAppend(head, tail);
      TotalOne(items[0]);
      var kept := Queries.Filter(head, HasFinitePrice);
      TotalAppend(kept, Queries.Filter(tail, HasFinitePrice));
      if HasFinitePrice(items[0]) {
        assert kept == head;
      } else {
        assert kept == [];
      }
    }
  }

  /** With no negative prices, no row's price exceeds the total. */
  lemma {:induction false} TotalBoundsEachPrice(items: seq<CartItem>, i: nat)
    requires i < |items|
    requires forall k :: 0 <= k < |items| ==> FinitePrice(items[k]) >= 0
    ensures 0 <= FinitePrice(items[i]) <= Total(items)
  {
    var init := items[..|items| - 1];
    if i < |items| - 1 {
      TotalBoundsEachPrice(init, i);
    } else {
      TotalNonNegative(init);
    }
  }

  lemma {:induction false} TotalNonNegative(items: seq<CartItem>)
    requires forall k :: 0 <= k < |items| ==> FinitePrice(items[k]) >= 0
    ensures Total(items) >= 0
  {
    if items != [] {
      TotalNonNegative(items[..|items| - 1]);
    }
  }

  // ---------------------------------------------------------------- table

  /** One rendered row: its `data-wid` attribute, its 1-based position, the
      escaped name and the price. */
  datatype RenderedRow = RenderedRow(dataWid: string, position: nat, name: string, price: JsNumber)

  datatype Table = Empty(message: string) | Cart(rows: seq<RenderedRow>, total: int)

  /** `renderTable`: "Korpa je prazna." for no items, otherwise one row per
      item, in order, whose `data-wid` reads back as the row id, whose name
      reads back as the item's, and the total of the finite prices. */
  function RenderTable(items: seq<JsonObject>): (t: Table)
    ensures items == [] <==> t == Empty(MsgEmpty)
    ensures t.Cart? ==> |t.rows| == |items| && t.total == Total(Items(items))
    ensures t.Cart? ==> forall i :: 0 <= i < |items| ==>
      t.rows[i].position == i + 1 &&
      t.rows[i].dataWid != "" &&
      NumberOf(t.rows[i].dataWid) == ItemOf(items[i], i).wid &&
      Unescape(t.rows[i].name, AposShort) == ItemOf(items[i], i).name &&
      t.rows[i].price == ItemOf(items[i], i).price
  {
    if items == [] then Empty(MsgEmpty)
    else
      var cart := Items(items);
      var rows := seq(|cart|, i requires 0 <= i < |cart| =>
        RenderedRow(NumberToString(cart[i].wid), i + 1, EscapeText(Some(cart[i].name)), cart[i].price));
      assert forall i :: 0 <= i < |items| ==> NumberOf(rows[i].dataWid) == cart[i].wid by {
        forall i | 0 <= i < |items| ensures NumberOf(rows[i].dataWid) == cart[i].wid {
          NumberToStringRoundTrip(cart[i].wid);
        }
      }
      Cart(rows, Total(cart))
  }

  /** An item as the server's JSON serializer writes it: property names in
      camel case, so `WishlistID` arrives as `wishlistID`. */
  function Serialized(d: WishlistController.WishlistItemDto): JsonObject {
    JsonObject(map["wishlistID" := Some(Whole(d.wishlistId)), "productID" := Some(Whole(d.productId))],
               map["modelName" := Some(d.modelName)])
  }

  /** For the server's own list every row carries its wishlist id and model name,
      so a remove click on it names the row the server deletes. */
  lemma ServerItemsKeepTheirIds(ds: seq<WishlistController.WishlistItemDto>)
    ensures var items := seq(|ds|, i requires 0 <= i < |ds| => Serialized(ds[i]));
      forall i :: 0 <= i < |ds| ==>
        ItemOf(items[i], i).wid == Whole(ds[i].wishlistId) && ItemOf(items[i], i).name == ds[i].modelName
  {
    var items := seq(|ds|, i requires 0 <= i < |ds| => Serialized(ds[i]));
    forall i | 0 <= i < |ds|
      ensures ItemOf(items[i], i).wid == Whole(ds[i].wishlistId)
      ensures ItemOf(items[i], i).name == ds[i].modelName
    {
      var o := items[i];
      assert Lookup(o.numbers, "WishlistID").None?;
      assert Lookup(o.numbers, "wishlistID") == Some(Whole(ds[i].wishlistId));
      assert Lookups(o.texts, NameKeys)[0].None?;
      assert Lookups(o.texts, NameKeys)[1] == Some(ds[i].modelName);
    }
  }

  // ---------------------------------------------------------------- page

  datatype Screen = SignInRequired(message: string) | Fetching(path: string)

  /** Opening the page: without a stored token only a message shows and no
      request is made; otherwise the wishlist is fetched. */
  function Open(storage: Storage): (s: Screen)
    ensures s.SignInRequired? <==> !Truthy(GetItem(storage, "token"))
    ensures s.SignInRequired? ==> s.message == MsgSignIn
    ensures s.Fetching? ==> s.path == WishlistPath
  {
    if !Truthy(GetItem(storage, "token")) then SignInRequired(MsgSignIn) else Fetching(WishlistPath)
  }

  /** What `load` leaves in the page. `None` as a message stands for the
      runtime's own text when the body is not a list. */
  datatype View = LoadError(message: Option<string>) | Shown(table: Table)

  function Loaded(outcome: Outcome<seq<JsonObject>>): (v: View)
    ensures outcome.Threw? ==> v == LoadError(Some(MsgLoadError + outcome.message))
    ensures outcome.Returned? && outcome.value.None? ==> v == LoadError(None)
    ensures outcome.Returned? && outcome.value.Some? ==> v.Shown? && v.table == RenderTable(outcome.value.value)
  {
    match outcome
    case Threw(m) => LoadError(Some(MsgLoadError + m))
    case Returned(None) => LoadError(None)
    case Returned(Some(items)) => Shown(RenderTable(items))
  }

  /** The `data-wid` attributes of the rows a view shows. */
  function RowIds(v: View): (ids: seq<Option<string>>)
    ensures v.LoadError? || v.table.Empty? ==> ids == []
    ensures v.Shown? && v.table.Cart? ==> (|ids| == |v.table.rows| &&
      forall i :: 0 <= i < |ids| ==> ids[i] == Some(v.table.rows[i].dataWid))
  {
    if v.LoadError? || v.table.Empty? then []
    else seq(|v.table.rows|, i requires 0 <= i < |v.table.rows| => Some(v.table.rows[i].dataWid))
  }

  /** The page after it is opened with a token: its table, the rows still in
      the document, the order button, and the page-wide `orderInFlight`. */
  class CartPage {
    var view: View
    var rows: seq<Option<string>>
    var orderInFlight: bool
    var orderDisabled: bool
    var orderCaption: string
    var alerts: seq<string>

    constructor(outcome: Outcome<seq<JsonObject>>)
      ensures view == Loaded(outcome) && rows == RowIds(view)
      ensures !orderInFlight && !orderDisabled && orderCaption == OrderLabel && alerts == []
    {
      view := Loaded(outcome);
      rows := RowIds(Loaded(outcome));
      orderInFlight := false;
      orderDisabled := false;
      orderCaption := OrderLabel;
      alerts := [];
    }

    /** `load`: the table is drawn anew, with a fresh order button; the
        `orderInFlight` flag belongs to the page and stays as it was. */
    method Load(outcome: Outcome<seq<JsonObject>>)
      modifies this
      ensures view == Loaded(outcome) && rows == RowIds(view)
      ensures !orderDisabled && orderCaption == OrderLabel
      ensures orderInFlight == old(orderInFlight) && alerts == old(alerts)
    {
      view := Loaded(outcome);
      rows := RowIds(view);
      orderDisabled := false;
      orderCaption := OrderLabel;
    }

    /** The order button: the first press marks the order as in flight and
        disables the button; once the flag is set a press changes nothing. */
    method OrderClick()
      modifies this
      ensures old(orderInFlight) ==> unchanged(this)
      ensures !old(orderInFlight) ==>
        orderInFlight && orderDisabled && orderCaption == CreatingLabel &&
        view == old(view) && rows == old(rows) && alerts == old(alerts)
    {
      if orderInFlight {
        return;
      }
      orderInFlight := true;
      orderDisabled := true;
      orderCaption := CreatingLabel;
    }

    /** The `rm-item` button of row `i`: a row without a `data-wid` sends
        nothing; otherwise `removeWishlistItem(Number(wid))` runs, and unless
        it throws the row leaves the document, also when the removal was
        skipped because the same id is still in flight. */
    method RemoveClick(i: nat, guard: RemovalGuard, response: Response<()>) returns (o: Outcome<()>)
      requires i < |rows|
      modifies this, guard
      ensures orderInFlight == old(orderInFlight) && view == old(view)
      ensures !Truthy(old(rows)[i]) ==> o == Returned(None) && unchanged(this) && unchanged(guard)
      ensures Truthy(old(rows)[i]) ==> (
        var id := NumberOf(old(rows)[i].value);
        guard.delItemInFlight == old(guard.delItemInFlight) &&
        (if id.Whole? && id.value !in old(guard.delItemInFlight) then
           o == DeleteOutcome(ItemPath(id.value), response) && guard.sent == old(guard.sent) + [ItemPath(id.value)]
         else
           o == Returned(None) && guard.sent == old(guard.sent)) &&
        (o.Threw? ==> rows == old(rows) && alerts == old(alerts) + [o.message]) &&
        (o.Returned? ==> rows == old(rows)[..i] + old(rows)[i + 1..] && alerts == old(alerts)))
    {
      var wid := rows[i];
      if !Truthy(wid) {
        return Returned(None);
      }
      o := guard.RemoveWishlistItem(NumberOf(wid.value), response);
      if o.Threw? {
        alerts := alerts + [o.message];
      } else {
        rows := rows[..i] + rows[i + 1..];
      }
    }

    /** The `clear-cart` button: `DELETE /api/wishlist`, then the table is
        loaded again; a failure is alerted and the table stays. */
    method ClearClick(response: Response<()>, reload: Outcome<seq<JsonObject>>) returns (o: Outcome<()>)
      modifies this
      ensures o == DeleteOutcome(WishlistPath, response)
      ensures orderInFlight == old(orderInFlight)
      ensures o.Threw? ==> (unchanged(this`view, this`rows, this`orderDisabled, this`orderCaption) &&
        alerts == old(alerts) + [o.message])
      ensures o.Returned? ==> view == Loaded(reload) && rows == RowIds(view) && alerts == old(alerts)
    {
      o := DeleteOutcome(WishlistPath, response);
      if o.Threw? {
        alerts := alerts + [o.message];
        return;
      }
      Load(reload);
    }
  }
}
