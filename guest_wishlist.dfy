/** `GuestWishlist`: the anonymous shopper's wishlist, mirrored into the session-storage
    slot "wishlistGuest" after every change that succeeds. */
module GuestStore {
  import opened JsValues
  import opened Records

  /** What `JSON.parse(sessionStorage.getItem("wishlistGuest")) || []` yields for a slot:
      the list last saved, or `[]` when the slot is absent. */
  function Persisted(slot: Option<seq<Entry>>): seq<Entry> {
    match slot
    case None => []
    case Some(data) => data
  }

  class GuestWishlist {
    const shop: Value
    var wishlistData: seq<Entry>
    /** The session-storage slot, holding the list it was last saved with; `None` once removed. */
    var slot: Option<seq<Entry>>

    constructor (shop: Value, slot: Option<seq<Entry>>)
      ensures this.shop == shop && this.slot == slot
      ensures wishlistData == Persisted(slot)
    {
      this.shop := shop;
      this.slot := slot;
      this.wishlistData := Persisted(slot);
    }

    /** `fetchWishlist()`: re-reads the slot (not the in-memory list). */
    function FetchWishlist(): (r: seq<Entry>)
      reads this
      ensures slot.None? ==> r == []
      ensures slot.Some? ==> r == slot.value
    {
      Persisted(slot)
    }

    /** `addItem(productVariantId, productHandle)` */
    method AddItem(productVariantId: Value, productHandle: Value) returns (r: HandlerResult)
      modifies this
      ensures r.success <==> !HasVariant(old(wishlistData), productVariantId)
      ensures r.success ==> wishlistData == old(wishlistData) + [Entry(productVariantId, productHandle, shop)]
                            && slot == Some(wishlistData)
      ensures !r.success ==> wishlistData == old(wishlistData) && slot == old(slot)
      ensures r.message == if r.success then "Product added to guest wishlist." else "Product is already in the wishlist."
      ensures r.variantData == None
      ensures wishlistData == AddEntry(old(wishlistData), shop, productVariantId, productHandle)
      ensures DistinctVariants(old(wishlistData)) ==> DistinctVariants(wishlistData)
    {
      if !HasVariant(wishlistData, productVariantId) {
        wishlistData := wishlistData + [Entry(productVariantId, productHandle, shop)];
        SaveWishlist();
        return HandlerResult(true, "Product added to guest wishlist.", None);
      }
      return HandlerResult(false, "Product is already in the wishlist.", None);
    }

    /** `removeItem(productVariantId)` */
    method RemoveItem(productVariantId: Value) returns (r: HandlerResult)
      modifies this
      ensures wishlistData == WithoutVariant(old(wishlistData), productVariantId)
      ensures r.success <==> |wishlistData| != |old(wishlistData)|
      ensures r.success <==> HasVariant(old(wishlistData), productVariantId)
      ensures r.success ==> slot == Some(wishlistData)
      ensures !r.success ==> wishlistData == old(wishlistData) && slot == old(slot)
      ensures r.message == if r.success then "Product removed from guest wishlist." else "Product not found in the wishlist."
      ensures r.variantData == None
    {
      var initialLength := |wishlistData|;
      wishlistData := WithoutVariant(wishlistData, productVariantId);
      if |wishlistData| != initialLength {
        SaveWishlist();
        return HandlerResult(true, "Product removed from guest wishlist.", None);
      }
      return HandlerResult(false, "Product not found in the wishlist.", None);
    }

    /** `clearWishlist()` */
    method ClearWishlist()
      modifies this
      ensures wishlistData == [] && slot == None
      ensures FetchWishlist() == []
    {
      slot := None;
      wishlistData := [];
    }

    /** `saveWishlist()` */
    method SaveWishlist()
      modifies this`slot
      ensures slot == Some(wishlistData)
      ensures FetchWishlist() == wishlistData
    {
      slot := Some(wishlistData);
    }
  }
}
