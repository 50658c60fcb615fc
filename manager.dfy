/** `WishlistManager`: picks the guest or the logged-in store, merges the guest list into the
    customer's list on start-up, turns icon clicks into debounced add/remove actions and keeps
    the icons' `wishlisted` flags in line with the current list. */
module Manager {
  import opened JsValues
  import opened Seqs
  import opened Text
  import opened Records
  import opened GuestStore
  import opened LoggedInStore
  import opened Panel
  import opened Debounce

  /** `WishlistManager.options` */
  const DefaultOptions: map<string, bool> := map["toaster" := true, "guestWishList" := true, "variantChange" := true]

  /** `{ ...defaults, ...overrides }`: every key of either, the override winning. */
  function MergeOptions(defaults: map<string, bool>, overrides: map<string, bool>): (r: map<string, bool>)
    ensures r.Keys == defaults.Keys + overrides.Keys
    ensures forall k :: k in overrides ==> r[k] == overrides[k]
    ensures forall k :: k in defaults && k !in overrides ==> r[k] == defaults[k]
  {
    defaults + overrides
  }

  /** An option read as a condition: a missing key is `undefined`, which is falsy. */
  predicate Flag(options: map<string, bool>, key: string) {
    key in options && options[key]
  }

  /** With no overrides every default flag is on. */
  lemma DefaultsAllOn()
    ensures Flag(MergeOptions(DefaultOptions, map[]), "toaster")
    ensures Flag(MergeOptions(DefaultOptions, map[]), "guestWishList")
    ensures Flag(MergeOptions(DefaultOptions, map[]), "variantChange")
  {
  }

  /** A wishlist icon (`.wishlist-icon`): its two data attributes and its `wishlisted` attribute. */
  datatype Icon = Icon(productId: Value, productHandle: Value, wishlisted: bool)

  /** The attribute `#updateUI` reads: `data-product-id` when `variantChange` is on,
      `data-product-handle` otherwise. */
  function IconKey(icon: Icon, useVariantId: bool): Value {
    if useVariantId then icon.productId else icon.productHandle
  }

  predicate EntryMatches(e: Entry, useVariantId: bool, key: Value) {
    if useVariantId then e.productVariantId == key else e.productHandle == key
  }

  /** `wishlistData.some(item => useVariantId ? item.productVariantId === key : item.productHandle === key)` */
  function AnyMatch(data: seq<Entry>, useVariantId: bool, key: Value): (r: bool)
    ensures r <==> exists e :: e in data && EntryMatches(e, useVariantId, key)
  {
    if data == [] then false
    else EntryMatches(data[0], useVariantId, key) || AnyMatch(data[1..], useVariantId, key)
  }

  /** `#isProductInWishlist(productId)` */
  function IsProductInWishlist(data: seq<Entry>, productId: Value): (r: bool)
    ensures r <==> HasVariant(data, productId)
  {
    AnyMatch(data, true, productId)
  }

  /** The choice in `#handleWishlistAction`. */
  function ChooseAction(isInWishlist: bool): Action {
    if isInWishlist then Remove else Add
  }

  /** Deciding from the current guest list flips the product's membership, either way. */
  lemma ChosenActionToggles(data: seq<Entry>, shop: Value, productId: Value, productHandle: Value)
    ensures ChooseAction(IsProductInWishlist(data, productId)) == Add ==>
              !HasVariant(data, productId) && HasVariant(AddEntry(data, shop, productId, productHandle), productId)
    ensures ChooseAction(IsProductInWishlist(data, productId)) == Remove ==>
              HasVariant(data, productId) && !HasVariant(WithoutVariant(data, productId), productId)
  {
  }

  /** After a guest add, an icon keyed by that variant id is flagged. */
  lemma AddedIconIsFlagged(data: seq<Entry>, shop: Value, icon: Icon)
    ensures AnyMatch(AddEntry(data, shop, icon.productId, icon.productHandle), true, IconKey(icon, true))
  {
  }

  /** `dbItem.productVariantId === guestItem.productVariantId && dbItem.shop === guestItem.shop`
      for some stored item. */
  predicate InDb(db: seq<Entry>, g: Entry) {
    exists d :: d in db && d.productVariantId == g.productVariantId && d.shop == g.shop
  }

  /** `newWishlistItems`: the guest items, in order, whose (variant id, shop) pair is not stored. */
  function NewItems(guest: seq<Entry>, db: seq<Entry>): (r: seq<Entry>)
    ensures IsSubsequence(r, guest)
    ensures forall g :: g in r <==> g in guest && !InDb(db, g)
    ensures forall g :: multiset(r)[g] == if InDb(db, g) then 0 else multiset(guest)[g]
    ensures r == guest <==> forall g :: g in guest ==> !InDb(db, g)
    ensures r == [] <==> forall g :: g in guest ==> InDb(db, g)
  {
    FilterMultiset(guest, (g: Entry) => !InDb(db, g));
    Filter(guest, (g: Entry) => !InDb(db, g))
  }

  /** Filtering again against the same stored list changes nothing. */
  lemma NewItemsIdempotent(guest: seq<Entry>, db: seq<Entry>)
    ensures NewItems(NewItems(guest, db), db) == NewItems(guest, db)
  {
  }

  /** Once the new items are stored beside the old ones, no guest item is new any more. */
  lemma {:induction false} NothingNewAfterMerge(guest: seq<Entry>, db: seq<Entry>)
    ensures NewItems(guest, db + NewItems(guest, db)) == []
  {
    var merged := db + NewItems(guest, db);
    forall g | g in guest
      ensures InDb(merged, g)
    {
      if !InDb(db, g) {
        assert g in merged;
      } else {
        var d :| d in db && d.productVariantId == g.productVariantId && d.shop == g.shop;
        assert d in merged;
      }
    }
  }

  /** `#updateWishlistUI`'s per-item key for a removal: the part of `item.id` after the last
      "/", or the removed id itself when that part is empty or there is no id. */
  function SuffixKey(item: Item, productVariantId: Value): Value
    requires item.Item?
  {
    if item.id.Str? && LastSegment(item.id.s) != "" then Str(LastSegment(item.id.s)) else productVariantId
  }

  /** The removal filter's test, `variantId !== productVariantId.toString()`, for a string id. */
  predicate SuffixKept(item: Item, productVariantId: string) {
    item.Item? && SuffixKey(item, Str(productVariantId)) != Str(productVariantId)
  }

  /** An item is kept exactly when its id is a string whose last segment is a different,
      non-empty id: an item without an id is dropped along with the removed one. */
  lemma SuffixKeptMeans(item: Item, productVariantId: string)
    requires item.Item?
    ensures SuffixKept(item, productVariantId) <==>
              item.id.Str? && LastSegment(item.id.s) != "" && LastSegment(item.id.s) != productVariantId
  {
  }

  /** A variant with the global id `gid://shopify/ProductVariant/<n>` is dropped when `n` is removed. */
  lemma GlobalIdMatchesSuffix(n: string, product: Option<Product>)
    requires '/' !in n
    ensures !SuffixKept(Item(Str("gid://shopify/ProductVariant/" + n), product), n)
  {
    LastSegmentAfterSlash("gid://shopify/ProductVariant", n);
    assert "gid://shopify/ProductVariant/" + n == "gid://shopify/ProductVariant" + "/" + n;
  }

  /** Whether `#updateWishlistUI` throws: spreading or filtering an `undefined` panel list,
      `item.id` on a nullish item, or `toString` on a nullish id (once there is an item). */
  predicate UpdateThrows(action: Action, productVariantId: Value, variantData: Option<seq<Item>>) {
    || variantData.None?
    || (action == Remove && (Nullish in variantData.value || (variantData.value != [] && !productVariantId.Str?)))
  }

  /** A value appended by `[...variantData, result.variantData]`: `undefined` when the handler
      gave none, otherwise an array, which has neither `id` nor `product`. */
  function AsItem(v: Option<seq<Item>>): Item {
    if v.None? then Nullish else Item(Undefined, None)
  }

  /** A guest entry shown in the panel: an object with neither `id` nor `product`. */
  function EntriesAsItems(data: seq<Entry>): (r: seq<Item>)
    ensures |r| == |data| && forall i :: 0 <= i < |r| ==> r[i] == Item(Undefined, None)
  {
    seq(|data|, i => Item(Undefined, None))
  }

  /** The form `#bulkUpdateWishlist` posts: the guest items go in `data`, the action in `_action`. */
  function BulkForm(customerId: Value, shop: Value, payload: string): (form: map<string, string>)
    ensures form.Keys == {"customerId", "shop", "data", "_action"}
    ensures form["_action"] == "bulkCreate" && form["data"] == payload
  {
    map["customerId" := ToStr(customerId), "shop" := ToStr(shop), "data" := payload, "_action" := "bulkCreate"]
  }

  /** The arguments a click hands to the debounced `#handleWishlistAction`. */
  datatype PendingAction = PendingAction(productVariantId: Value, productHandle: Value, isInWishlist: bool)

  /** How `#syncGuestDataWithDB` ends. */
  datatype SyncOutcome =
    | Shown        // no guest items: the customer's list is shown
    | Merged       // the new guest items were posted and the guest store cleared
    | NothingNew   // every guest item is already stored: nothing happens
    | Failed       // an error was caught and the error toaster shown

  class WishlistManager {
    const customerId: Value
    const shop: Value
    const options: map<string, bool>
    const guest: GuestWishlist
    /** `null` when there is no customer. */
    const loggedIn: LoggedInWishlist?
    const ui: WishlistUI
    const icons: array<Icon>
    /** `#debounceWishlistAction`: one debounce shared by every icon. */
    const actionDebounce: Debouncer<PendingAction>

    /** The private fields' initialisers and the constructor: `customerEmail || null`,
        `shop || null`, and the options merged over the defaults. */
    constructor (customerEmail: Value, shopName: Value, guestSlot: Option<seq<Entry>>,
                 overrides: map<string, bool>, icons: array<Icon>)
      ensures customerId == Or(customerEmail, Null) && shop == Or(shopName, Null)
      ensures (loggedIn != null) == Truthy(customerEmail)
      ensures loggedIn != null ==> fresh(loggedIn) && loggedIn.wishlistData == [] && loggedIn.variantData == None
      ensures fresh(guest) && guest.slot == guestSlot && guest.wishlistData == Persisted(guestSlot) && guest.shop == shop
      ensures fresh(ui) && ui.variantData == None && ui.cards == []
      ensures options == MergeOptions(DefaultOptions, overrides)
      ensures this.icons == icons
      ensures fresh(actionDebounce) && actionDebounce.delay == 300 && actionDebounce.timer == None
      ensures Valid()
    {
      customerId := Or(customerEmail, Null);
      shop := Or(shopName, Null);
      var sh := Or(shopName, Null);
      guest := new GuestWishlist(sh, guestSlot);
      ui := new WishlistUI();
      if Truthy(customerEmail) {
        loggedIn := new LoggedInWishlist(customerEmail, sh);
      } else {
        loggedIn := null;
      }
      options := MergeOptions(DefaultOptions, overrides);
      this.icons := icons;
      actionDebounce := new Debouncer(300);
    }

    /** The logged-in store exists exactly when there is a customer. */
    ghost predicate Valid()
      reads this
    {
      (loggedIn != null) == Truthy(customerId)
    }

    /** `#getWishlistHandler().wishlistData` */
    function HandlerData(): seq<Entry>
      reads this, guest, loggedIn
    {
      if loggedIn != null then loggedIn.wishlistData else guest.wishlistData
    }

    /** Every icon's flag says whether the current list holds its key. */
    predicate IconsReflect()
      reads this, guest, loggedIn, icons
    {
      var useVariantId := Flag(options, "variantChange");
      forall i :: 0 <= i < icons.Length ==>
        icons[i].wishlisted == AnyMatch(HandlerData(), useVariantId, IconKey(icons[i], useVariantId))
    }

    /** The icons' data attributes are those they had before. */
    twostate predicate SameAttributes()
      reads this, icons
    {
      forall i :: 0 <= i < icons.Length ==>
        icons[i].productId == old(icons[i].productId) && icons[i].productHandle == old(icons[i].productHandle)
    }

    /** `#updateUI()`: toggles every icon's `wishlisted` attribute. */
    method UpdateUI()
      modifies icons
      ensures IconsReflect() && SameAttributes()
    {
      var data := HandlerData();
      var useVariantId := Flag(options, "variantChange");
      for i := 0 to icons.Length
        invariant forall j :: 0 <= j < i ==>
                    icons[j] == old(icons[j]).(wishlisted := AnyMatch(data, useVariantId, IconKey(old(icons[j]), useVariantId)))
        invariant forall j :: i <= j < icons.Length ==> icons[j] == old(icons[j])
      {
        icons[i] := icons[i].(wishlisted := AnyMatch(data, useVariantId, IconKey(icons[i], useVariantId)));
      }
    }

    /** `#updateWishlistUI(action, productVariantId, variantData)`: re-renders the panel from its
        list (which it does not change); true when it throws. */
    method UpdateWishlistUI(action: Action, productVariantId: Value, variantData: Option<seq<Item>>)
      returns (threw: bool)
      modifies ui`cards
      ensures threw <==> UpdateThrows(action, productVariantId, ui.variantData)
      ensures threw ==> ui.cards == old(ui.cards)
      ensures !threw ==> ui.cards == []
    {
      if ui.variantData.None? {
        return true;
      }
      var current := ui.variantData.value;
      if action == Add {
        ui.UpdateProductCards(current + [AsItem(variantData)], Str(""));
        return false;
      }
      if Nullish in current || (current != [] && !productVariantId.Str?) {
        return true;
      }
      var updatedData := if productVariantId.Str? then Filter(current, (x: Item) => SuffixKept(x, productVariantId.s)) else [];
      ui.UpdateProductCards(updatedData, Undefined);
      return false;
    }

    /** What the handler operation chosen for `pending` does to the stores, given the reply
        (a logged-in store) and whether it reports success. A guest operation saves the list
        to the slot only when it succeeds; a logged-in one never touches the guest store. */
    twostate predicate ActionApplied(pending: PendingAction, reply: Reply<UpdateBody>, success: bool)
      reads this, guest, loggedIn
    {
      var id := pending.productVariantId;
      var action := ChooseAction(pending.isInWishlist);
      if loggedIn == null then
        && guest.wishlistData == (if action == Add then AddEntry(old(guest.wishlistData), guest.shop, id, pending.productHandle)
                                  else WithoutVariant(old(guest.wishlistData), id))
        && (success <==> if action == Add then !HasVariant(old(guest.wishlistData), id) else HasVariant(old(guest.wishlistData), id))
        && guest.slot == (if success then Some(guest.wishlistData) else old(guest.slot))
      else
        && guest.wishlistData == old(guest.wishlistData) && guest.slot == old(guest.slot)
        && (success <==> reply.Ok?)
        && loggedIn.variantData == old(loggedIn.variantData)
        && loggedIn.wishlistData == (if !reply.Ok? then old(loggedIn.wishlistData)
                                     else if action == Add then old(loggedIn.wishlistData) + [if reply.body.data.Some? then reply.body.data.value else EmptyEntry]
                                     else WithoutVariant(old(loggedIn.wishlistData), id))
    }

    /** `#handleWishlistAction(productVariantId, productHandle, isInWishlist)`: runs the chosen
        handler operation; on success re-renders the panel and, unless that throws, announces
        the change (event and toaster); the icons are refreshed in every case. */
    method HandleWishlistAction(productVariantId: Value, productHandle: Value, isInWishlist: bool,
                                reply: Reply<UpdateBody>)
      returns (action: Action, result: HandlerResult, announced: bool)
      modifies guest, loggedIn, ui`cards, icons
      ensures action == ChooseAction(isInWishlist)
      ensures ActionApplied(PendingAction(productVariantId, productHandle, isInWishlist), reply, result.success)
      ensures announced <==> result.success && !UpdateThrows(action, productVariantId, ui.variantData)
      ensures result.success && !announced ==> ui.cards == old(ui.cards)
      ensures !result.success ==> ui.cards == old(ui.cards)
      ensures announced ==> ui.cards == []
      ensures ui.variantData == old(ui.variantData)
      ensures IconsReflect() && SameAttributes()
    {
      action := ChooseAction(isInWishlist);
      if loggedIn != null {
        if action == Add {
          var posted;
          result, posted := loggedIn.AddItem(productVariantId, productHandle, reply);
        } else {
          var posted;
          result, posted := loggedIn.RemoveItem(productVariantId, reply);
        }
      } else {
        if action == Add {
          result := guest.AddItem(productVariantId, productHandle);
        } else {
          result := guest.RemoveItem(productVariantId);
        }
      }
      announced := false;
      if result.success {
        var threw := UpdateWishlistUI(action, productVariantId, result.variantData);
        announced := !threw;
      }
      UpdateUI();
    }

    /** A click on icon `k` at time `now`: redirects to the login page when guest wishlists
        are off, otherwise reads the icon and whether its product is listed now, and calls
        the debounced action with them. */
    method Click(now: int, k: nat) returns (redirected: bool)
      requires k < icons.Length
      modifies actionDebounce
      ensures redirected <==> !Flag(options, "guestWishList")
      ensures redirected ==> actionDebounce.timer == old(actionDebounce.timer)
      ensures !redirected ==>
                var pending := PendingAction(icons[k].productId, icons[k].productHandle,
                                             IsProductInWishlist(HandlerData(), icons[k].productId));
                (actionDebounce.timer, None) == Step(actionDebounce.delay, old(actionDebounce.timer), Call(now, pending))
    {
      if !Flag(options, "guestWishList") {
        return true;
      }
      var productId := icons[k].productId;
      var pending := PendingAction(productId, icons[k].productHandle, IsProductInWishlist(HandlerData(), productId));
      actionDebounce.Invoke(now, pending);
      return false;
    }

    /** The event loop reaching time `now`: the pending action runs if its delay has passed,
        with the membership read at click time; `success` is what its handler reported. */
    method ActionTick(now: int, reply: Reply<UpdateBody>) returns (fired: Option<PendingAction>, success: bool)
      modifies actionDebounce, guest, loggedIn, ui`cards, icons
      ensures (actionDebounce.timer, fired) == Step(actionDebounce.delay, old(actionDebounce.timer), Tick(now))
      ensures fired.Some? ==> ActionApplied(fired.value, reply, success) && IconsReflect() && SameAttributes()
      ensures fired.Some? ==>
                ui.cards == (if success && !UpdateThrows(ChooseAction(fired.value.isInWishlist), fired.value.productVariantId, ui.variantData)
                             then [] else old(ui.cards))
      ensures fired.None? ==>
                && !success
                && guest.wishlistData == old(guest.wishlistData) && guest.slot == old(guest.slot)
                && (loggedIn != null ==> loggedIn.wishlistData == old(loggedIn.wishlistData)
                                         && loggedIn.variantData == old(loggedIn.variantData))
                && ui.cards == old(ui.cards) && icons[..] == old(icons[..])
    {
      fired := actionDebounce.Advance(now);
      success := false;
      if fired.Some? {
        var pending := fired.value;
        var _, result, _ := HandleWishlistAction(pending.productVariantId, pending.productHandle, pending.isInWishlist, reply);
        success := result.success;
      }
    }

    /** A card's remove button: the panel drops the item, then `onActionRemoveItemFromPopup`
        runs a removal of the id's last segment straight away (not debounced); `success` is
        what the handler reported. */
    method PanelRemove(variantId: string, reply: Reply<UpdateBody>) returns (removed: Option<string>, success: bool)
      modifies guest, loggedIn, ui`cards, ui`variantData, icons
      ensures removed.None? <==> old(ui.variantData).None? || Nullish in old(ui.variantData).value
      ensures removed.Some? ==> removed.value == LastSegment(variantId)
      ensures removed.Some? ==> ActionApplied(PendingAction(Str(removed.value), Str(""), true), reply, success)
      ensures removed.Some? ==> IconsReflect() && SameAttributes()
      ensures removed.Some? ==>
                && ui.cards == []
                && ui.variantData == Some(WithoutCard(old(ui.variantData).value, variantId))
      ensures removed.None? ==>
                && !success
                && icons[..] == old(icons[..])
                && guest.wishlistData == old(guest.wishlistData) && guest.slot == old(guest.slot)
                && (loggedIn != null ==> loggedIn.wishlistData == old(loggedIn.wishlistData)
                                         && loggedIn.variantData == old(loggedIn.variantData))
                && ui.variantData == old(ui.variantData) && ui.cards == old(ui.cards)
    {
      ghost var guestBefore, slotBefore := guest.wishlistData, guest.slot;
      ghost var loggedInBefore := if loggedIn != null then loggedIn.wishlistData else [];
      ghost var detailsBefore := if loggedIn != null then loggedIn.variantData else None;
      ghost var iconsBefore := icons[..];
      var threw, id := ui.RemoveItem(variantId);
      assert icons[..] == iconsBefore;
      assert guest.wishlistData == guestBefore && guest.slot == slotBefore;
      assert loggedIn != null ==> loggedIn.wishlistData == loggedInBefore && loggedIn.variantData == detailsBefore;
      if threw {
        return None, false;
      }
      ghost var filtered := ui.variantData;
      var _, result, _ := HandleWishlistAction(Str(id), Str(""), true, reply);
      assert ui.variantData == filtered;
      return Some(id), result.success;
    }

    /** A `change` event in a section (listened to only when `variantChange` is on): when the
        section has an add-to-cart form, its icon `icon` (if any) takes the selected variant id
        (when that is not empty), and the icons are refreshed. */
    method VariantChange(hasForm: bool, icon: Option<nat>, variantId: string)
      requires icon.Some? ==> icon.value < icons.Length
      modifies icons
      ensures !Flag(options, "variantChange") || !hasForm ==> icons[..] == old(icons[..])
      ensures Flag(options, "variantChange") && hasForm ==> IconsReflect()
      ensures Flag(options, "variantChange") && hasForm ==>
                forall i :: 0 <= i < icons.Length ==>
                  icons[i].productHandle == old(icons[i].productHandle) &&
                  icons[i].productId == if icon == Some(i) && variantId != "" then Str(variantId) else old(icons[i].productId)
    {
      if !Flag(options, "variantChange") || !hasForm {
        return;
      }
      if icon.Some? && variantId != "" {
        icons[icon.value] := icons[icon.value].(productId := Str(variantId));
      }
      UpdateUI();
    }

    /** The panel holds one card per item of `data`, in order, reading the item's id. */
    static predicate CardsShow(cards: seq<string>, data: seq<Item>) {
      |cards| == |data| && forall k :: 0 <= k < |cards| ==> data[k].Item? && cards[k] == ToStr(data[k].id)
    }

    /** A render of `data` that threw: the cards read the ids of the items before the first
        nullish one. */
    static predicate CardsStopAtNullish(cards: seq<string>, data: seq<Item>) {
      && |cards| < |data| && data[|cards|] == Nullish
      && forall k :: 0 <= k < |cards| ==> data[k].Item? && cards[k] == ToStr(data[k].id)
    }

    /** The state `#syncGuestDataWithDB()` leaves, given the replies of the loader fetch and of
        the bulk post, how it ended and the bulk form it posted, if any:
        - the logged-in store holds what the fetch returned, or is unchanged when it failed;
        - with no guest items the fetched details go to the panel, and the sync fails exactly
          when they cannot be rendered: the cards then stop at the first nullish item, or are
          empty when the fetch failed;
        - otherwise the panel's list is untouched; a failed fetch ends it; else exactly the guest
          items whose (variant id, shop) pair is not in the fetched list are posted, when there
          are any, and the guest store is cleared only when that post succeeded. */
    twostate predicate Synced(fetchReply: Reply<FetchBody>, bulkReply: Reply<()>, stringify: seq<Entry> -> string,
                              outcome: SyncOutcome, new posted: Option<map<string, string>>)
      reads this, guest, loggedIn, ui
      requires loggedIn != null
    {
      var guestData := old(guest.FetchWishlist());
      && (fetchReply.Ok? ==>
            loggedIn.wishlistData == FetchedEntries(fetchReply.body) && loggedIn.variantData == Some(FetchedDetails(fetchReply.body)))
      && (!fetchReply.Ok? ==>
            loggedIn.wishlistData == old(loggedIn.wishlistData) && loggedIn.variantData == old(loggedIn.variantData))
      && (outcome == Merged ==> guest.wishlistData == [] && guest.slot == None)
      && (outcome != Merged ==> guest.wishlistData == old(guest.wishlistData) && guest.slot == old(guest.slot))
      && (guestData == [] ==>
            && posted == None
            && ui.variantData == (if fetchReply.Ok? then Some(FetchedDetails(fetchReply.body)) else None)
            && (outcome == Shown <==> fetchReply.Ok? && Nullish !in FetchedDetails(fetchReply.body))
            && (outcome == Failed <==> outcome != Shown)
            && (outcome == Shown ==> CardsShow(ui.cards, FetchedDetails(fetchReply.body)))
            && (fetchReply.Ok? && outcome == Failed ==> CardsStopAtNullish(ui.cards, FetchedDetails(fetchReply.body)))
            && (!fetchReply.Ok? ==> ui.cards == []))
      && (guestData != [] ==> ui.variantData == old(ui.variantData) && ui.cards == old(ui.cards))
      && (guestData != [] && !fetchReply.Ok? ==> outcome == Failed && posted == None)
      && (guestData != [] && fetchReply.Ok? ==>
            var newItems := NewItems(guestData, FetchedEntries(fetchReply.body));
            && posted == (if newItems == [] then None else Some(BulkForm(customerId, shop, stringify(newItems))))
            && outcome == (if newItems == [] then NothingNew else if bulkReply.Ok? then Merged else Failed))
    }

    /** `#syncGuestDataWithDB()`, given the replies of the fetch and of the bulk post (which is
        only sent when there are new items). `posted` is the bulk form, when one is sent. */
    method SyncGuestDataWithDB(fetchReply: Reply<FetchBody>, bulkReply: Reply<()>, stringify: seq<Entry> -> string)
      returns (outcome: SyncOutcome, posted: Option<map<string, string>>)
      requires Valid() && loggedIn != null
      modifies loggedIn, guest, ui`cards, ui`variantData, icons
      ensures Synced(fetchReply, bulkReply, stringify, outcome, posted)
      ensures outcome == Shown || outcome == Merged ==> IconsReflect() && SameAttributes()
      ensures outcome == NothingNew || outcome == Failed ==> icons[..] == old(icons[..])
    {
      posted := None;
      var data := loggedIn.FetchWishlist(fetchReply);
      var guestData := guest.FetchWishlist();
      if |guestData| == 0 || !Truthy(customerId) {
        var threw := ui.SetVariantData(if data.Fetched? then Some(data.variantData) else None);
        if threw {
          return Failed, None;
        }
        UpdateUI();
        return Shown, None;
      }
      if data.EmptyArray? {
        // `[].wishlistData.some(...)` throws on the first guest item
        return Failed, None;
      }
      var newWishlistItems := NewItems(guestData, data.wishlistData);
      if |newWishlistItems| > 0 {
        posted := Some(BulkForm(customerId, shop, stringify(newWishlistItems)));
        if !bulkReply.Ok? {
          return Failed, posted;
        }
        guest.ClearWishlist();
        UpdateUI();
        return Merged, posted;
      }
      return NothingNew, None;
    }

    /** `init()`: the logged-in path syncs, with the outcome and posted form above; the guest
        path shows the persisted guest list in the panel and refreshes the icons. */
    method Init(fetchReply: Reply<FetchBody>, bulkReply: Reply<()>, stringify: seq<Entry> -> string)
      returns (outcome: Option<SyncOutcome>, posted: Option<map<string, string>>)
      requires Valid()
      modifies loggedIn, guest, ui`cards, ui`variantData, icons
      ensures outcome.Some? <==> loggedIn != null
      ensures loggedIn != null ==> Synced(fetchReply, bulkReply, stringify, outcome.value, posted)
      ensures loggedIn != null && (outcome.value == Shown || outcome.value == Merged) ==> IconsReflect() && SameAttributes()
      ensures loggedIn != null && (outcome.value == NothingNew || outcome.value == Failed) ==> icons[..] == old(icons[..])
      ensures loggedIn == null ==>
                && posted == None
                && guest.wishlistData == old(guest.wishlistData) && guest.slot == old(guest.slot)
                && ui.variantData == Some(EntriesAsItems(old(guest.FetchWishlist())))
                && |ui.cards| == |old(guest.FetchWishlist())|
                && (forall k :: 0 <= k < |ui.cards| ==> ui.cards[k] == "undefined")
                && IconsReflect() && SameAttributes()
    {
      if loggedIn != null {
        var o, p := SyncGuestDataWithDB(fetchReply, bulkReply, stringify);
        return Some(o), p;
      }
      var threw := ui.SetVariantData(Some(EntriesAsItems(guest.FetchWishlist())));
      UpdateUI();
      return None, None;
    }
  }
}
