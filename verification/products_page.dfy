/** The product catalogue page: API objects with keys in either case turned
    into view models, the text filter, and the add-to-cart button that ignores
    clicks while its request is under way. */
module ProductsPage {
  import opened Wrappers
  import opened Text
  import opened Js
  import opened Browser
  import opened Queries
  import WishlistClient

  /** `pick(obj, keys, fallback)`: the value of the first key that is neither
      `undefined` nor `null`, else the fallback. */
  method Pick<T>(obj: Fields<T>, keys: seq<string>, fallback: T) returns (v: T)
    ensures v == Coalesce(Lookups(obj, keys), fallback)
    ensures (forall i :: 0 <= i < |keys| ==> Lookup(obj, keys[i]).None?) ==> v == fallback
    ensures forall i :: 0 <= i < |keys| && Lookup(obj, keys[i]).Some? && (forall j :: 0 <= j < i ==> Lookup(obj, keys[j]).None?)
                ==> v == Lookup(obj, keys[i]).value
  {
    for i := 0 to |keys|
      invariant forall j :: 0 <= j < i ==> Lookup(obj, keys[j]).None?
    {
      var val := Lookup(obj, keys[i]);
      if val.Some? {
        return val.value;
      }
    }
    return fallback;
  }

  // ---------------------------------------------------------------- view model

  /** A product as the API sends it. */
  type RawProduct = JsonObject

  /** The card image: the inline placeholder, or a URL on the API's origin. */
  datatype Image = Placeholder | Url(url: string)

  /** `ProductVM` without the price. */
  datatype ProductVM = ProductVM(id: JsNumber, name: string, image: Image)

  const NameKeys: seq<string> := ["ModelName", "modelName", "Name", "name"]
  const ImageKeys: seq<string> := ["ImagePath", "imagePath", "ImageUrl", "imageUrl"]
  const DefaultName: string := "Proizvod"

  /** `safeNum(p.ProductID ?? p.productID ?? p.id, NaN)`. The last operand of
      `??` is taken as it is: an `id` holding `null` is `Number(null)`, 0,
      while a missing `id` is `Number(undefined)`, not finite. */
  function IdOf(p: RawProduct): (id: JsNumber)
    ensures Lookup(p.numbers, "ProductID").Some? ==> id == p.numbers["ProductID"].value
    ensures Lookup(p.numbers, "ProductID").None? && Lookup(p.numbers, "productID").Some? ==>
      id == p.numbers["productID"].value
    ensures Lookup(p.numbers, "ProductID").None? && Lookup(p.numbers, "productID").None? ==>
      id == (if "id" !in p.numbers then NonFinite else p.numbers["id"].GetOr(Whole(0)))
  {
    var first := Lookup(p.numbers, "ProductID");
    var second := Lookup(p.numbers, "productID");
    if first.Some? then first.value
    else if second.Some? then second.value
    else if "id" in p.numbers then p.numbers["id"].GetOr(Whole(0))
    else NonFinite
  }

  /** The image path made absolute on the API's origin: kept when it starts
      with `http` or `/`, otherwise given a leading `/`. */
  function NormalizePath(path: string): (n: string)
    ensures StartsWith(n, "http") || StartsWith(n, "/")
    ensures EndsWith(n, path)
    ensures StartsWith(path, "http") || StartsWith(path, "/") ==> n == path
  {
    if StartsWith(path, "http") || StartsWith(path, "/") then path else "/" + path
  }

  /** Normalizing twice changes nothing more. */
  lemma NormalizePathIdempotent(path: string)
    ensures NormalizePath(NormalizePath(path)) == NormalizePath(path)
  {
  }

  /** The image of `toVM`: a blank path gives the placeholder, any other the
      API base followed by the trimmed, normalized path. */
  function ImageOf(path: string, apiBase: string): (img: Image)
    ensures img == Placeholder <==> IsBlank(path)
    ensures img.Url? ==> img.url == apiBase + NormalizePath(Trim(path))
  {
    var imagePath := Trim(path);
    if imagePath == [] then Placeholder else Url(apiBase + NormalizePath(imagePath))
  }

  /** An image URL read back as a path keeps pointing at the same image. */
  lemma {:induction false} ImageOfIsStable(path: string, apiBase: string)
    requires !IsBlank(path)
    ensures ImageOf(NormalizePath(Trim(path)), apiBase) == ImageOf(path, apiBase)
  {
    var t := Trim(path);
    var n := NormalizePath(t);
    assert n[|n| - 1] == t[|t| - 1];
    assert n[0] == 'h' || n[0] == '/';
    TrimOfTrimmed(n);
    NormalizePathIdempotent(t);
  }

  /** `toVM(p)`, given the client's API base. */
  function ToVM(p: RawProduct, apiBase: string): (vm: ProductVM)
    ensures vm.id == IdOf(p)
    ensures vm.name == Coalesce(Lookups(p.texts, NameKeys), DefaultName)
    ensures (forall i :: 0 <= i < |NameKeys| ==> Lookup(p.texts, NameKeys[i]).None?) ==> vm.name == DefaultName
    ensures vm.image == ImageOf(Coalesce(Lookups(p.texts, ImageKeys), ""), apiBase)
  {
    ProductVM(IdOf(p), Coalesce(Lookups(p.texts, NameKeys), DefaultName),
              ImageOf(Coalesce(Lookups(p.texts, ImageKeys), ""), apiBase))
  }

  // ---------------------------------------------------------------- filter

  /** `(q || '').toLowerCase().trim()`. */
  function NormalizeQuery(input: string): string {
    Trim(ToLower(input))
  }

  function MatchesQuery(q: string): ProductVM -> bool {
    (p: ProductVM) => q == [] || Contains(ToLower(p.name), q)
  }

  /** The text part of `applyFilters`: an empty query keeps everything;
      otherwise the products whose lower-cased name contains the query, in
      their original order. */
  function FilterByQuery(items: seq<ProductVM>, input: string): (r: seq<ProductVM>)
    ensures NormalizeQuery(input) == [] ==> r == items
    ensures forall p :: p in r <==> p in items && (NormalizeQuery(input) == [] || Contains(ToLower(p.name), NormalizeQuery(input)))
    ensures |r| <= |items|
    ensures Subsequence(r, items)
  {
    Filter(items, MatchesQuery(NormalizeQuery(input)))
  }

  /** Filtering a list made of two parts filters each part in place: the
      products kept from the first part all come before those kept from the
      second. */
  lemma FilterByQueryAppend(a: seq<ProductVM>, b: seq<ProductVM>, input: string)
    ensures FilterByQuery(a + b, input) == FilterByQuery(a, input) + FilterByQuery(b, input)
  {
    FilterAppend(a, b, MatchesQuery(NormalizeQuery(input)));
  }

  lemma LowerOfUpper(s: string)
    ensures ToLower(ToUpper(s)) == ToLower(s)
  {
  }

  /** The filter ignores the letter case of the query. */
  lemma QueryIgnoresCase(items: seq<ProductVM>, input: string)
    ensures FilterByQuery(items, ToUpper(input)) == FilterByQuery(items, input)
  {
    LowerOfUpper(input);
  }

  /** The page's product lists and search box. */
  class Catalog {
    var all: seq<ProductVM>
    var shown: seq<ProductVM>
    var query: string

    constructor()
      ensures all == [] && shown == [] && query == ""
    {
      all := [];
      shown := [];
      query := "";
    }

    /** The initial load: every product turned into a view model, all of them shown. */
    method Load(products: seq<RawProduct>, apiBase: string)
      modifies this
      ensures |all| == |products| && forall i :: 0 <= i < |products| ==> all[i] == ToVM(products[i], apiBase)
      ensures shown == all && query == old(query)
    {
      all := Map(products, (p: RawProduct) => ToVM(p, apiBase));
      shown := all;
    }

    method Type(input: string)
      modifies this
      ensures query == input && all == old(all) && shown == old(shown)
    {
      query := input;
    }

    /** The apply button. */
    method Apply()
      modifies this
      ensures shown == FilterByQuery(all, query)
      ensures all == old(all) && query == old(query)
    {
      shown := FilterByQuery(all, query);
    }

    /** The reset button: the search box is emptied and every product shows,
        which is what applying the empty query shows too. */
    method Reset()
      modifies this
      ensures query == "" && shown == all && all == old(all)
      ensures shown == FilterByQuery(all, query)
    {
      query := "";
      shown := all;
    }
  }

  // ---------------------------------------------------------------- add to cart

  const AddLabel: string := "Dodaj u korpu"
  const AddingLabel: string := "Dodajem…"
  const AddedLabel: string := "Dodano ✓"

  /** How a click ends before the request: ignored while busy, refused for a
      bad id, sent to the login page without a token, or started. */
  datatype ClickStart = Ignored | BadProduct | ToLogin | Adding(pid: int)

  /** One add-to-cart button: `data-busy`, `disabled`, its caption, and the
      wishlist requests it has issued. Its `data-id` is `Js.NumberToString`
      of the card's id, which `Js.NumberToStringRoundTrip` reads back. */
  class CartButton {
    var busy: bool
    var disabled: bool
    var caption: string
    var savedCaption: string
    var sent: seq<string>

    constructor()
      ensures !busy && !disabled && caption == AddLabel && sent == []
    {
      busy := false;
      disabled := false;
      caption := AddLabel;
      savedCaption := AddLabel;
      sent := [];
    }

    /** The click handler up to the `await`. */
    method BeginClick(dataId: Option<string>, storage: Storage) returns (r: ClickStart)
      modifies this
      ensures old(busy) ==> r == Ignored && unchanged(this)
      ensures !old(busy) && !IsPositiveId(NumberOf(dataId.GetOr(""))) ==> r == BadProduct && unchanged(this)
      ensures !old(busy) && IsPositiveId(NumberOf(dataId.GetOr(""))) && !Truthy(GetItem(storage, "token")) ==>
        r == ToLogin && unchanged(this)
      ensures r.Adding? <==> !old(busy) && IsPositiveId(NumberOf(dataId.GetOr(""))) && Truthy(GetItem(storage, "token"))
      ensures r.Adding? ==>
        r.pid == NumberOf(dataId.GetOr("")).value &&
        r.pid > 0 &&
        busy && disabled && caption == AddingLabel && savedCaption == old(caption) &&
        sent == old(sent) + [WishlistClient.ItemPath(r.pid)]
    {
      if busy {
        return Ignored;
      }
      var pid := NumberOf(dataId.GetOr(""));
      if !IsPositiveId(pid) {
        return BadProduct;
      }
      var token := GetItem(storage, "token");
      if !Truthy(token) {
        return ToLogin;
      }
      busy := true;
      disabled := true;
      savedCaption := caption;
      caption := AddingLabel;
      // `addToWishlist(pid)` posts to the item path (see `WishlistClient.AddPositive`).
      sent := sent + [WishlistClient.ItemPath(pid.value)];
      r := Adding(pid.value);
    }

    /** The rest of the handler: the caption tells how it went, and the `finally`
        block clears the busy state either way. */
    method FinishClick(succeeded: bool)
      modifies this
      ensures !busy && !disabled
      ensures caption == (if succeeded then AddedLabel else old(savedCaption))
      ensures sent == old(sent) && savedCaption == old(savedCaption)
    {
      caption := if succeeded then AddedLabel else savedCaption;
      busy := false;
      disabled := false;
    }

    /** A second click before the first request ends issues no request. */
    method ClickTwice(dataId: Option<string>, storage: Storage, succeeded: bool) returns (first: ClickStart, second: ClickStart)
      requires !busy
      modifies this
      ensures first.Adding? ==> second == Ignored && |sent| == |old(sent)| + 1 && !busy && !disabled
    {
      first := BeginClick(dataId, storage);
      ghost var afterFirst := sent;
      assert first.Adding? ==> busy;
      second := BeginClick(dataId, storage);
      if first.Adding? {
        assert sent == afterFirst;
        FinishClick(succeeded);
      }
    }
  }
}
