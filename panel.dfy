/** `WishlistUI`: the wishlist panel. Its cards are abstracted to the `data-variant-id`
    attribute of each card in the product container, in document order. */
module Panel {
  import opened JsValues
  import opened Seqs
  import opened Text
  import opened Records
  import opened Debounce

  /** `item?.product.title || ""`: `None` when the expression throws (`product` is missing
      on an object), otherwise the title text, "" for a nullish item or a falsy title. */
  function TitleOf(item: Item): (r: Option<string>)
    ensures item.Nullish? ==> r == Some("")
    ensures r.None? <==> item.Item? && item.product.None?
    ensures r.Some? && r.value != "" ==> item.Item? && item.product == Some(Product(Str(r.value)))
    ensures item.Item? && item.product.Some? && Truthy(item.product.value.title) ==> r == Some(item.product.value.title.s)
  {
    match item
    case Nullish => Some("")
    case Item(_, product) =>
      if product.None? then None
      else if Truthy(product.value.title) then Some(product.value.title.s)
      else Some("")
  }

  /** The search callback: the lower-cased title contains the prepared query. */
  predicate TitleMatches(item: Item, needle: string)
    requires TitleOf(item).Some?
  {
    Contains(Lower(TitleOf(item).value), needle)
  }

  /** `searchWishlist`'s filter over `variantData`. `None` stands for the TypeError thrown
      when the query is not empty and some element is an object without `product`. */
  function SearchFilter(variantData: seq<Item>, query: string): (r: Option<seq<Item>>)
    ensures query == "" ==> r == Some(variantData)
    ensures query != "" ==> (r.None? <==> exists x :: x in variantData && TitleOf(x).None?)
    ensures query != "" && r.Some? ==>
              && IsSubsequence(r.value, variantData)
              && (forall x :: x in r.value <==> x in variantData && TitleMatches(x, Lower(Trim(query))))
              && (forall x :: multiset(r.value)[x] ==
                    if TitleOf(x).Some? && TitleMatches(x, Lower(Trim(query))) then multiset(variantData)[x] else 0)
  {
    var needle := Lower(Trim(query));
    if query == "" then Some(variantData)
    else if exists x :: x in variantData && TitleOf(x).None? then None
    else
      FilterMultiset(variantData, (x: Item) => TitleOf(x).Some? && TitleMatches(x, needle));
      Some(Filter(variantData, (x: Item) => TitleOf(x).Some? && TitleMatches(x, needle)))
  }

  /** A query of white space only is not the empty query, but it still keeps every item. */
  lemma BlankQueryKeepsAll(variantData: seq<Item>, query: string)
    requires query != "" && Trim(query) == ""
    requires forall x :: x in variantData ==> TitleOf(x).Some?
    ensures SearchFilter(variantData, query) == Some(variantData)
  {
    forall x | x in variantData
      ensures TitleMatches(x, Lower(Trim(query)))
    {
      assert Lower("") == "";
    }
  }

  /** `new Map(items.map(item => [item.id, item]))`: a later item with the same id replaces
      an earlier one. */
  function KeyedById(items: seq<Item>): map<Value, Item>
    requires forall i :: 0 <= i < |items| ==> items[i].Item?
  {
    if items == [] then map[]
    else KeyedById(items[..|items| - 1])[items[|items| - 1].id := items[|items| - 1]]
  }

  /** `updateProductCards`' lookup map, as written: a fresh empty map when there is data,
      and the map of the (then empty) data otherwise. */
  function FilteredMap(filteredData: seq<Item>): map<Value, Item> {
    if |filteredData| > 0 then map[] else KeyedById(filteredData)
  }

  /** Both arms of the condition give the empty map, whatever the data. */
  lemma FilteredMapIsEmpty(filteredData: seq<Item>)
    ensures FilteredMap(filteredData) == map[]
  {
  }

  /** `item => item.id !== variantId`, for an item that is not nullish. */
  predicate KeepsCard(item: Item, variantId: string) {
    item.Nullish? || item.id != Str(variantId)
  }

  /** `variantData.filter(item => item.id !== variantId)`. */
  function WithoutCard(data: seq<Item>, variantId: string): seq<Item> {
    Filter(data, (x: Item) => KeepsCard(x, variantId))
  }

  class WishlistUI {
    /** `this.variantData`: `undefined` until `setVariantData` runs. */
    var variantData: Option<seq<Item>>
    /** The `data-variant-id` of each card in `.product-container`, in document order. */
    var cards: seq<string>
    /** The value of the dialog's search field. */
    var searchValue: string
    /** The 300 ms debounce in front of `searchWishlist`. */
    const searchDebounce: Debouncer<string>

    constructor ()
      ensures variantData == None && cards == [] && searchValue == ""
      ensures fresh(searchDebounce) && searchDebounce.delay == 300 && searchDebounce.timer == None
    {
      variantData := None;
      cards := [];
      searchValue := "";
      searchDebounce := new Debouncer(300);
    }

    /** `renderProductCards(data)`: empties the container, then appends one card per item.
        `item.id` throws on a nullish item, which ends the loop with the cards so far. */
    method RenderProductCards(data: seq<Item>) returns (threw: bool)
      modifies this`cards
      ensures threw <==> Nullish in data
      ensures |cards| <= |data|
      ensures forall k :: 0 <= k < |cards| ==> data[k].Item? && cards[k] == ToStr(data[k].id)
      ensures !threw ==> |cards| == |data|
      ensures threw ==> data[|cards|] == Nullish
    {
      cards := [];
      var i := 0;
      while i < |data|
        invariant 0 <= i <= |data| && |cards| == i
        invariant forall k :: 0 <= k < i ==> data[k].Item? && cards[k] == ToStr(data[k].id)
      {
        if data[i].Nullish? {
          return true;
        }
        cards := cards + [ToStr(data[i].id)];
        i := i + 1;
      }
      return false;
    }

    /** `setVariantData(data)`: stores the list and renders it. For `undefined` the container
        is emptied and then `data.forEach` throws. */
    method SetVariantData(data: Option<seq<Item>>) returns (threw: bool)
      modifies this`variantData, this`cards
      ensures variantData == data
      ensures data.None? ==> threw && cards == []
      ensures data.Some? ==> (threw <==> Nullish in data.value)
      ensures data.Some? ==> |cards| <= |data.value|
      ensures data.Some? ==> forall k :: 0 <= k < |cards| ==> data.value[k].Item? && cards[k] == ToStr(data.value[k].id)
      ensures data.Some? && !threw ==> |cards| == |data.value|
      ensures data.Some? && threw ==> data.value[|cards|] == Nullish
    {
      variantData := data;
      if data.None? {
        cards := [];
        return true;
      }
      threw := RenderProductCards(data.value);
    }

    /** `updateProductCards(filteredData, action)`. Every existing card whose id is not a key
        of `filteredMap` is removed, then a card is appended per remaining entry unless this
        is a removal while the search field is not empty. As written the map is always empty,
        so the container always ends up empty. */
    method UpdateProductCards(filteredData: seq<Item>, action: Value)
      modifies this`cards
      ensures cards == []
    {
      var filteredMap := FilteredMap(filteredData);
      FilteredMapIsEmpty(filteredData);
      var existingCards := cards;
      var i := 0;
      while i < |existingCards|
        invariant 0 <= i <= |existingCards|
        invariant cards == existingCards[i..]
      {
        // `filteredMap.has(variantId)` is false, so the card is removed
        assert Str(existingCards[i]) !in filteredMap;
        cards := cards[1..];
        i := i + 1;
      }
      if action == Str("remove") && searchValue != "" {
        return;
      }
      // the `forEach` over the remaining map entries appends no card
      assert filteredMap == map[];
    }

    /** `searchWishlist(query)`. With no stored list both arms throw (`undefined.filter`,
        and `undefined.length` inside `updateProductCards`), and nothing changes. */
    method SearchWishlist(query: string) returns (threw: bool)
      modifies this`cards
      ensures old(variantData).None? ==> threw
      ensures old(variantData).Some? ==> (threw <==> SearchFilter(old(variantData).value, query).None?)
      ensures threw ==> cards == old(cards)
      ensures !threw ==> cards == []
    {
      if variantData.None? {
        return true;
      }
      var filteredData := SearchFilter(variantData.value, query);
      if filteredData.None? {
        return true;
      }
      UpdateProductCards(filteredData.value, Undefined);
      return false;
    }

    /** `removeItem(variantId)`, the panel part: drops the items with that id, re-renders, and
        yields `variantId.split('/').pop()` for the manager. It throws, changing nothing, when
        there is no stored list or an element of it is nullish. */
    method RemoveItem(variantId: string) returns (threw: bool, id: string)
      modifies this`variantData, this`cards
      ensures threw <==> old(variantData).None? || Nullish in old(variantData).value
      ensures threw ==> variantData == old(variantData) && cards == old(cards)
      ensures !threw ==> variantData == Some(WithoutCard(old(variantData).value, variantId))
      ensures !threw ==> cards == [] && id == LastSegment(variantId)
    {
      if variantData.None? || Nullish in variantData.value {
        return true, "";
      }
      var filteredData := WithoutCard(variantData.value, variantId);
      variantData := Some(filteredData);
      UpdateProductCards(filteredData, Str("remove"));
      id := LastSegment(variantId);
      threw := false;
    }

    /** An `input` event on the search field at time `now`. */
    method OnSearchInput(now: int, value: string)
      modifies this`searchValue, searchDebounce
      ensures searchValue == value
      ensures (searchDebounce.timer, None) == Step(300, old(searchDebounce.timer), Call(now, value))
      requires searchDebounce.delay == 300
    {
      searchValue := value;
      searchDebounce.Invoke(now, value);
    }

    /** The event loop reaching time `now`: runs `searchWishlist` if the debounce fires. */
    method SearchTimerTick(now: int) returns (searched: Option<string>, threw: bool)
      requires searchDebounce.delay == 300
      modifies this`cards, searchDebounce
      ensures (searchDebounce.timer, searched) == Step(300, old(searchDebounce.timer), Tick(now))
      ensures searched.None? ==> cards == old(cards) && !threw
      ensures searched.Some? ==>
                (threw <==> old(variantData).None? || SearchFilter(old(variantData).value, searched.value).None?)
      ensures threw ==> cards == old(cards)
      ensures searched.Some? && !threw ==> cards == []
    {
      searched := searchDebounce.Advance(now);
      threw := false;
      if searched.Some? {
        threw := SearchWishlist(searched.value);
      }
    }
  }
}
