/** `LoggedInWishlist`: the in-memory mirror of a signed-in customer's wishlist, changed only
    after the wishlist endpoint has answered. */
module LoggedInStore {
  import opened JsValues
  import opened Records

  /** How a `fetch` to the wishlist endpoint ends: it rejects (or its body is not JSON),
      it answers with a status outside 200-299, or it answers ok with a JSON body. */
  datatype Reply<T> = Threw | NotOk | Ok(body: T)

  /** The fields of the loader's JSON body that `fetchWishlist` reads. */
  datatype FetchBody = FetchBody(data: Option<seq<Entry>>, variantData: Option<seq<Item>>)

  /** `result.data || []`: the list an ok loader reply gives. */
  function FetchedEntries(body: FetchBody): seq<Entry> {
    if body.data.Some? then body.data.value else []
  }

  /** `result.variantData || []`: the detail list an ok loader reply gives. */
  function FetchedDetails(body: FetchBody): seq<Item> {
    if body.variantData.Some? then body.variantData.value else []
  }

  /** What `fetchWishlist` resolves to: `{wishlistData, variantData}`, or `[]` after an error. */
  datatype FetchResult = Fetched(wishlistData: seq<Entry>, variantData: seq<Item>) | EmptyArray

  /** The fields of the action's JSON body that `_sendWishlistUpdate` reads. */
  datatype UpdateBody = UpdateBody(data: Option<Entry>, variantData: Option<seq<Item>>)

  datatype Action = Add | Remove {
    function Name(): string {
      match this
      case Add => "add"
      case Remove => "remove"
    }
  }

  /** The form `_sendWishlistUpdate` posts. `FormData.append` turns a value into a string,
      and the product handle is only sent when it is truthy. */
  function UpdateForm(customerId: Value, shop: Value, action: Action, productVariantId: Value,
                      productHandle: Value): (form: map<string, string>)
    ensures form.Keys == {"customerId", "shop", "productVariantId", "_action"}
                         + (if Truthy(productHandle) then {"productHandle"} else {})
    ensures form["_action"] == action.Name()
    ensures form["productVariantId"] == ToStr(productVariantId)
  {
    map["customerId" := ToStr(customerId), "shop" := ToStr(shop),
        "productVariantId" := ToStr(productVariantId), "_action" := action.Name()]
    + (if Truthy(productHandle) then map["productHandle" := productHandle.s] else map[])
  }

  class LoggedInWishlist {
    const customerId: Value
    const shop: Value
    var wishlistData: seq<Entry>
    /** `undefined` until a fetch succeeds. */
    var variantData: Option<seq<Item>>

    constructor (customerId: Value, shop: Value)
      ensures this.customerId == customerId && this.shop == shop
      ensures wishlistData == [] && variantData == None
    {
      this.customerId := customerId;
      this.shop := shop;
      wishlistData := [];
      variantData := None;
    }

    /** `fetchWishlist()`: on an ok reply the list becomes `result.data || []` and the detail
        list `result.variantData || []`; on any failure nothing changes and `[]` is returned. */
    method FetchWishlist(reply: Reply<FetchBody>) returns (r: FetchResult)
      modifies this
      ensures reply.Ok? ==>
                && wishlistData == FetchedEntries(reply.body)
                && variantData == Some(FetchedDetails(reply.body))
                && r == Fetched(wishlistData, variantData.value)
      ensures !reply.Ok? ==> r == EmptyArray && wishlistData == old(wishlistData) && variantData == old(variantData)
    {
      if !reply.Ok? {
        return EmptyArray;
      }
      wishlistData := FetchedEntries(reply.body);
      var details := FetchedDetails(reply.body);
      variantData := Some(details);
      r := Fetched(wishlistData, details);
    }

    /** `_sendWishlistUpdate(action, {productVariantId, productHandle})`: `posted` is the form
        sent to the endpoint, whatever the reply. Only an ok reply changes the list: "add"
        appends a copy of `result.data` (an empty object when the body has no `data`), "remove"
        drops every entry with the variant id. */
    method SendWishlistUpdate(action: Action, productVariantId: Value, productHandle: Value,
                              reply: Reply<UpdateBody>) returns (r: HandlerResult, posted: map<string, string>)
      modifies this`wishlistData
      ensures posted == UpdateForm(customerId, shop, action, productVariantId, productHandle)
      ensures r.success <==> reply.Ok?
      ensures reply.Ok? && action == Add ==>
                wishlistData == old(wishlistData) + [if reply.body.data.Some? then reply.body.data.value else EmptyEntry]
      ensures reply.Ok? && action == Remove ==> wishlistData == WithoutVariant(old(wishlistData), productVariantId)
      ensures !reply.Ok? ==> wishlistData == old(wishlistData)
      ensures r.message == if !reply.Ok? then "Error " + action.Name() + "ing item in wishlist."
                           else if action == Add then "Product added to wishlist."
                           else "Product removed from wishlist."
      ensures r.variantData == if reply.Ok? then reply.body.variantData else None
    {
      posted := UpdateForm(customerId, shop, action, productVariantId, productHandle);
      if !reply.Ok? {
        return HandlerResult(false, "Error " + action.Name() + "ing item in wishlist.", None), posted;
      }
      var body := reply.body;
      if action == Add {
        wishlistData := wishlistData + [if body.data.Some? then body.data.value else EmptyEntry];
      } else {
        wishlistData := WithoutVariant(wishlistData, productVariantId);
      }
      var message := if action == Add then "Product added to wishlist." else "Product removed from wishlist.";
      return HandlerResult(true, message, body.variantData), posted;
    }

    /** `addItem(productVariantId, productHandle)` */
    method AddItem(productVariantId: Value, productHandle: Value, reply: Reply<UpdateBody>)
      returns (r: HandlerResult, posted: map<string, string>)
      modifies this`wishlistData
      ensures posted == UpdateForm(customerId, shop, Add, productVariantId, productHandle)
      ensures r.success <==> reply.Ok?
      ensures r.message == if reply.Ok? then "Product added to wishlist." else "Error adding item in wishlist."
      ensures reply.Ok? ==>
                wishlistData == old(wishlistData) + [if reply.body.data.Some? then reply.body.data.value else EmptyEntry]
      ensures !reply.Ok? ==> wishlistData == old(wishlistData)
      ensures r.variantData == if reply.Ok? then reply.body.variantData else None
    {
      assert "Error " + Add.Name() + "ing item in wishlist." == "Error adding item in wishlist.";
      r, posted := SendWishlistUpdate(Add, productVariantId, productHandle, reply);
    }

    /** `removeItem(productVariantId)`: the handle is not passed, so it defaults to `null`. */
    method RemoveItem(productVariantId: Value, reply: Reply<UpdateBody>)
      returns (r: HandlerResult, posted: map<string, string>)
      modifies this`wishlistData
      ensures posted == UpdateForm(customerId, shop, Remove, productVariantId, Null)
      ensures r.success <==> reply.Ok?
      ensures r.message == if reply.Ok? then "Product removed from wishlist." else "Error removeing item in wishlist."
      ensures reply.Ok? ==> wishlistData == WithoutVariant(old(wishlistData), productVariantId)
      ensures !reply.Ok? ==> wishlistData == old(wishlistData)
      ensures r.variantData == if reply.Ok? then reply.body.variantData else None
    {
      assert "Error " + Remove.Name() + "ing item in wishlist." == "Error removeing item in wishlist.";
      r, posted := SendWishlistUpdate(Remove, productVariantId, Null, reply);
    }
  }
}
