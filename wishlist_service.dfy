/** The wishlist service behind the storefront endpoint. The database table is a sequence of
    rows and the product catalogue a map from encoded global id to variant node; a catalogue
    that is down makes every lookup throw. */
module Service {
  import opened JsValues
  import opened Seqs
  import opened Text
  import opened Gid

  /** A row of the wishlist table, restricted to the columns the service sets or selects. */
  datatype Row = Row(customerId: string, productVariantId: string, shop: string,
                     productHandle: Option<string>, productTitle: Option<string>)

  /** The part of a `ProductVariant` node the service reads. */
  datatype ProductNode = ProductNode(title: string)
  datatype Node = Node(id: string, product: Option<ProductNode>)

  /** The Admin API as seen from the service. */
  datatype Catalog = Catalog(up: bool, nodes: map<string, Node>)

  /** The value `JSON.parse` yields, or a value passed in directly. */
  datatype Json = JString(s: string) | JArray(elems: seq<Json>) | JOther

  /** The id a variant is looked up by: `encodeGId("ProductVariant", id)`. */
  function VariantGId(id: string): string {
    EncodeGId("ProductVariant", id)
  }

  /** `fetchProductVariant`, when the catalogue is up: the node, or `null` for an unknown id. */
  function Lookup(catalog: Catalog, id: string): (r: Option<Node>)
    ensures r.Some? <==> EncodeGId("ProductVariant", id) in catalog.nodes
    ensures r.Some? ==> r.value == catalog.nodes[EncodeGId("ProductVariant", id)]
  {
    if VariantGId(id) in catalog.nodes then Some(catalog.nodes[VariantGId(id)]) else None
  }

  /** `fetchMultipleProductVariants`, when the catalogue is up: one entry per id, in order. */
  function LookupAll(catalog: Catalog, ids: seq<string>): (r: seq<Option<Node>>)
    ensures |r| == |ids| && forall i :: 0 <= i < |ids| ==> r[i] == Lookup(catalog, ids[i])
  {
    seq(|ids|, i requires 0 <= i < |ids| => Lookup(catalog, ids[i]))
  }

  predicate Owned(row: Row, shop: string, customerId: string) {
    row.shop == shop && row.customerId == customerId
  }

  /** `findMany({ where: { customerId, shop } })`, in table order. */
  function CustomerRows(db: seq<Row>, shop: string, customerId: string): (r: seq<Row>)
    ensures IsSubsequence(r, db)
    ensures forall row :: row in r <==> row in db && Owned(row, shop, customerId)
    ensures forall row :: multiset(r)[row] == if Owned(row, shop, customerId) then multiset(db)[row] else 0
  {
    FilterMultiset(db, (row: Row) => Owned(row, shop, customerId));
    Filter(db, (row: Row) => Owned(row, shop, customerId))
  }

  /** `fetchWishlistCount(shop, customerId)` */
  function Count(db: seq<Row>, shop: string, customerId: string): (n: nat)
    ensures n <= |db|
    ensures n == 0 <==> forall row :: row in db ==> !Owned(row, shop, customerId)
    ensures n == |db| <==> forall row :: row in db ==> Owned(row, shop, customerId)
  {
    |CustomerRows(db, shop, customerId)|
  }

  /** Adding rows that all belong to the customer raises the count by their number. */
  lemma CountAppendOwned(db: seq<Row>, added: seq<Row>, shop: string, customerId: string)
    requires forall row :: row in added ==> Owned(row, shop, customerId)
    ensures Count(db + added, shop, customerId) == Count(db, shop, customerId) + |added|
  {
    FilterAppend(db, added, (row: Row) => Owned(row, shop, customerId));
  }

  // ---------------------------------------------------------------------------------------
  // bulkUpdate

  datatype BulkResult =
    | BulkParseFailed                   // 400 "Failed to parse guest wishlist data"
    | BulkNotArray                      // 400 "Invalid guest wishlist data. Expected an array."
    | BulkAdded(created: nat, variantData: seq<Option<Node>>, count: nat)
    | BulkNothingNew                    // "No new items to add"
    | BulkFailed                        // 500 "Error during bulk update of wishlist"

  datatype BulkOutcome = BulkOutcome(db: seq<Row>, result: BulkResult)

  function BulkMessage(r: BulkResult): string {
    match r
    case BulkParseFailed => "Failed to parse guest wishlist data"
    case BulkNotArray => "Invalid guest wishlist data. Expected an array."
    case BulkAdded(_, _, _) => "New items added to wishlist"
    case BulkNothingNew => "No new items to add"
    case BulkFailed => "Error during bulk update of wishlist"
  }

  /** The `status` field of the result object, when it has one. */
  function BulkStatus(r: BulkResult): Option<int> {
    match r
    case BulkParseFailed => Some(400)
    case BulkNotArray => Some(400)
    case BulkFailed => Some(500)
    case _ => None
  }

  /** The parsed value as a list of ids, when every element is a string. Any other element
      makes the `in` filter of the query invalid, so the query throws. */
  function AsIds(elems: seq<Json>): (r: Option<seq<string>>)
    ensures r.Some? <==> forall i :: 0 <= i < |elems| ==> elems[i].JString?
    ensures r.Some? ==> |r.value| == |elems| && forall i :: 0 <= i < |elems| ==> elems[i] == JString(r.value[i])
  {
    if elems == [] then Some([])
    else if !elems[0].JString? then None
    else
      var rest := AsIds(elems[1..]);
      if rest.None? then None else Some([elems[0].s] + rest.value)
  }

  predicate Stored(db: seq<Row>, customerId: string, shop: string, id: string) {
    exists row :: row in db && Owned(row, shop, customerId) && row.productVariantId == id
  }

  /** `existingIds`: the stored variant ids of the customer among `ids`. */
  function ExistingIds(db: seq<Row>, customerId: string, shop: string, ids: seq<string>): set<string> {
    set row | row in db && Owned(row, shop, customerId) && row.productVariantId in ids :: row.productVariantId
  }

  /** `newItems`: the ids, in input order, that the customer has not stored (a repeated new
      id stays repeated). */
  function NewIds(db: seq<Row>, customerId: string, shop: string, ids: seq<string>): (r: seq<string>)
    ensures IsSubsequence(r, ids)
    ensures forall id :: id in r <==> id in ids && !Stored(db, customerId, shop, id)
    ensures forall id :: multiset(r)[id] == if Stored(db, customerId, shop, id) then 0 else multiset(ids)[id]
    ensures r == [] <==> forall id :: id in ids ==> Stored(db, customerId, shop, id)
  {
    var existingIds := ExistingIds(db, customerId, shop, ids);
    FilterMultiset(ids, (id: string) => id !in existingIds);
    Filter(ids, (id: string) => id !in existingIds)
  }

  /** `updateItems`: one row per new id, carrying the call's customer and shop. */
  function NewRows(customerId: string, shop: string, ids: seq<string>): (r: seq<Row>)
    ensures |r| == |ids|
    ensures forall i :: 0 <= i < |ids| ==> r[i] == Row(customerId, ids[i], shop, None, None)
  {
    seq(|ids|, i requires 0 <= i < |ids| => Row(customerId, ids[i], shop, None, None))
  }

  /** A string argument is parsed; any other value is used as it is. `None`: the parse threw. */
  function Parsed(variantData: Json, parse: string -> Option<Json>): Option<Json> {
    if variantData.JString? then parse(variantData.s) else Some(variantData)
  }

  /** The value parsed (or passed) is an array, as `Array.isArray` tests. */
  predicate ParsedArray(variantData: Json, parse: string -> Option<Json>) {
    Parsed(variantData, parse).Some? && Parsed(variantData, parse).value.JArray?
  }

  /** The ids of a bulk update: the parsed value, when it is an array of strings. */
  function BulkIds(variantData: Json, parse: string -> Option<Json>): Option<seq<string>> {
    if ParsedArray(variantData, parse) then AsIds(Parsed(variantData, parse).value.elems) else None
  }

  /** `bulkUpdate({customerId, variantData, shop})`. A string is parsed first; the parsed value
      must be an array. Rows are created for the new ids; when the catalogue then fails, the
      rows stay and the result is the 500 error. */
  function BulkUpdate(db: seq<Row>, catalog: Catalog, customerId: string, variantData: Json, shop: string,
                      parse: string -> Option<Json>): (out: BulkOutcome)
    ensures out.result.BulkParseFailed? <==> variantData.JString? && parse(variantData.s).None?
    ensures out.result.BulkNotArray? <==> Parsed(variantData, parse).Some? && !ParsedArray(variantData, parse)
    ensures BulkIds(variantData, parse).None? ==> out.db == db && !out.result.BulkAdded? && !out.result.BulkNothingNew?
    ensures ParsedArray(variantData, parse) && BulkIds(variantData, parse).None? ==> out.result.BulkFailed?
    ensures BulkIds(variantData, parse).Some? ==>
              var newIds := NewIds(db, customerId, shop, BulkIds(variantData, parse).value);
              && out.db == db + NewRows(customerId, shop, newIds)
              && (out.result.BulkNothingNew? <==> newIds == [])
              && (newIds != [] && !catalog.up ==> out.result.BulkFailed?)
              && (newIds != [] && catalog.up ==>
                    && out.result.BulkAdded?
                    && out.result.created == |newIds|
                    && out.result.variantData == LookupAll(catalog, newIds)
                    && out.result.count == Count(db, shop, customerId) + |newIds|)
  {
    var parsed := Parsed(variantData, parse);
    if parsed.None? then BulkOutcome(db, BulkParseFailed)
    else if !parsed.value.JArray? then BulkOutcome(db, BulkNotArray)
    else
      var ids := AsIds(parsed.value.elems);
      if ids.None? then BulkOutcome(db, BulkFailed)
      else
        var newItems := NewIds(db, customerId, shop, ids.value);
        if |newItems| == 0 then
          assert NewRows(customerId, shop, newItems) == [];
          assert db + [] == db;
          BulkOutcome(db, BulkNothingNew)
        else Insert(db, catalog, customerId, shop, newItems)
  }

  /** The `createMany` of the new ids, then their lookups; a lookup failure leaves the rows. */
  function Insert(db: seq<Row>, catalog: Catalog, customerId: string, shop: string, newItems: seq<string>): (out: BulkOutcome)
    ensures out.db == db + NewRows(customerId, shop, newItems)
    ensures |db| <= |out.db| && out.db[..|db|] == db && |out.db| - |db| == |newItems|
    ensures forall row :: row in out.db[|db|..] ==> Owned(row, shop, customerId) && row.productVariantId in newItems
    ensures !catalog.up ==> out.result == BulkFailed
    ensures catalog.up ==> out.result.BulkAdded? && out.result.created == |newItems|
    ensures catalog.up ==> out.result.variantData == LookupAll(catalog, newItems)
    ensures catalog.up ==> out.result.count == Count(db, shop, customerId) + |newItems|
  {
    var created := NewRows(customerId, shop, newItems);
    var db' := db + created;
    assert db'[|db|..] == created && db'[..|db|] == db;
    assert forall row :: row in created ==> Owned(row, shop, customerId) && row.productVariantId in newItems;
    if !catalog.up then BulkOutcome(db', BulkFailed)
    else
      CountAppendOwned(db, created, shop, customerId);
      var count := Count(db', shop, customerId);
      assert count == Count(db, shop, customerId) + |newItems|;
      BulkOutcome(db', BulkAdded(|created|, LookupAll(catalog, newItems), count))
  }

  /** After the new ids' rows are added, every id of the call is stored. */
  lemma AllStoredAfterInsert(db: seq<Row>, customerId: string, shop: string, ids: seq<string>)
    ensures forall id :: id in ids ==>
              Stored(db + NewRows(customerId, shop, NewIds(db, customerId, shop, ids)), customerId, shop, id)
  {
    var newItems := NewIds(db, customerId, shop, ids);
    var db' := db + NewRows(customerId, shop, newItems);
    forall id | id in ids
      ensures Stored(db', customerId, shop, id)
    {
      if !Stored(db, customerId, shop, id) {
        var i :| 0 <= i < |newItems| && newItems[i] == id;
        assert db'[|db| + i] == Row(customerId, id, shop, None, None);
      } else {
        var row :| row in db && Owned(row, shop, customerId) && row.productVariantId == id;
        assert row in db';
      }
    }
  }

  /** Repeating a bulk update that added rows adds nothing more. */
  lemma BulkUpdateIdempotent(db: seq<Row>, catalog: Catalog, customerId: string, variantData: Json, shop: string,
                             parse: string -> Option<Json>)
    requires BulkUpdate(db, catalog, customerId, variantData, shop, parse).result.BulkAdded?
    ensures var once := BulkUpdate(db, catalog, customerId, variantData, shop, parse);
            BulkUpdate(once.db, catalog, customerId, variantData, shop, parse) == BulkOutcome(once.db, BulkNothingNew)
  {
    var parsed := Parsed(variantData, parse);
    var ids := AsIds(parsed.value.elems).value;
    var newItems := NewIds(db, customerId, shop, ids);
    var db' := db + NewRows(customerId, shop, newItems);
    assert BulkUpdate(db, catalog, customerId, variantData, shop, parse).db == db';
    AllStoredAfterInsert(db, customerId, shop, ids);
    assert NewIds(db', customerId, shop, ids) == [];
  }

  // ---------------------------------------------------------------------------------------
  // getSearchResults

  /** `whereCondition`: `shop` and `customerId`, plus a case-insensitive `productTitle`
      containment test when the query is truthy. */
  datatype SearchWhere = SearchWhere(shop: string, customerId: string, titleContains: Option<string>)

  function SearchCondition(shop: string, query: string, customerId: string): (w: SearchWhere)
    ensures w.shop == shop && w.customerId == customerId
    ensures w.titleContains.Some? <==> query != ""
    ensures w.titleContains.Some? ==> w.titleContains.value == Lower(query)
  {
    SearchWhere(shop, customerId, if query != "" then Some(Lower(query)) else None)
  }

  /** A row satisfies the condition; `mode: "insensitive"` compares lower-cased text. */
  predicate MatchesWhere(row: Row, w: SearchWhere) {
    && Owned(row, w.shop, w.customerId)
    && (w.titleContains.Some? ==>
          row.productTitle.Some? && Contains(Lower(row.productTitle.value), Lower(w.titleContains.value)))
  }

  /** An empty query selects every row of the customer. */
  lemma EmptyQuerySelectsCustomer(row: Row, shop: string, customerId: string)
    ensures MatchesWhere(row, SearchCondition(shop, "", customerId)) <==> Owned(row, shop, customerId)
  {
  }

  /** The title test does not depend on the case of the query. */
  lemma SearchIgnoresQueryCase(row: Row, shop: string, query: string, customerId: string)
    ensures MatchesWhere(row, SearchCondition(shop, query, customerId)) <==>
            MatchesWhere(row, SearchCondition(shop, Lower(query), customerId))
  {
    if query != "" {
      LowerIdempotent(query);
      LowerIdempotent(Lower(query));
    }
  }

  /** `matchingItems`, in table order; the selected columns are the whole row here. */
  function MatchingItems(db: seq<Row>, w: SearchWhere): (r: seq<Row>)
    ensures IsSubsequence(r, db)
    ensures forall row :: row in r <==> row in db && MatchesWhere(row, w)
    ensures forall row :: multiset(r)[row] == if MatchesWhere(row, w) then multiset(db)[row] else 0
  {
    FilterMultiset(db, (row: Row) => MatchesWhere(row, w));
    Filter(db, (row: Row) => MatchesWhere(row, w))
  }

  datatype SearchResult =
    | MatchingFound(variantData: seq<Option<Node>>, wishlisted: seq<Row>)   // "Matching items found"
    | NoMatches(data: seq<Row>)                                             // "No matching items found"
    | SearchThrew                                                           // "Error fetching wishlist items"

  /** `getSearchResults(shop, query, customerId)`. The variants are only looked up when some
      row matches; a lookup that fails is rethrown as a new error. */
  function GetSearchResults(db: seq<Row>, catalog: Catalog, shop: string, query: string, customerId: string): (r: SearchResult)
    ensures r.SearchThrew? <==> !catalog.up && exists row :: row in db && MatchesWhere(row, SearchCondition(shop, query, customerId))
    ensures r.MatchingFound? ==>
              && r.wishlisted == MatchingItems(db, SearchCondition(shop, query, customerId))
              && |r.variantData| == |r.wishlisted| > 0
              && forall i :: 0 <= i < |r.wishlisted| ==> r.variantData[i] == Lookup(catalog, r.wishlisted[i].productVariantId)
    ensures r.NoMatches? ==> r.data == [] && forall row :: row in db ==> !MatchesWhere(row, SearchCondition(shop, query, customerId))
  {
    var matchingItems := MatchingItems(db, SearchCondition(shop, query, customerId));
    var ids := seq(|matchingItems|, i requires 0 <= i < |matchingItems| => matchingItems[i].productVariantId);
    if |matchingItems| > 0 && !catalog.up then
      assert matchingItems[0] in matchingItems;
      SearchThrew
    else
      var variantData := if |matchingItems| > 0 then LookupAll(catalog, ids) else [];
      if |variantData| > 0 then MatchingFound(variantData, matchingItems)
      else
        assert matchingItems == [];
        NoMatches(matchingItems)
  }

  // ---------------------------------------------------------------------------------------
  // getCustomerWishlistedProducts

  datatype WishlistResult =
    | MissingCustomerOrShop                                                 // status 400
    | WishlistFetched(wishlisted: seq<Row>, variantData: seq<Option<Node>>, count: nat)   // status 200
    | WishlistFailed                                                        // status 500

  /** `getCustomerWishlistedProducts({customerId, shop})`: guarded, then the customer's rows
      with their variants and count. */
  function GetCustomerWishlistedProducts(db: seq<Row>, catalog: Catalog, customerId: Value, shop: Value): (r: WishlistResult)
    ensures r.MissingCustomerOrShop? <==> !Truthy(customerId) || !Truthy(shop)
    ensures r.WishlistFailed? <==> Truthy(customerId) && Truthy(shop) && !catalog.up
    ensures r.WishlistFetched? ==>
              && r.wishlisted == CustomerRows(db, shop.s, customerId.s)
              && r.count == |r.wishlisted|
              && |r.variantData| == |r.wishlisted|
              && forall i :: 0 <= i < |r.wishlisted| ==> r.variantData[i] == Lookup(catalog, r.wishlisted[i].productVariantId)
  {
    if !Truthy(customerId) || !Truthy(shop) then MissingCustomerOrShop
    else
      var wishlisted := CustomerRows(db, shop.s, customerId.s);
      var ids := seq(|wishlisted|, i requires 0 <= i < |wishlisted| => wishlisted[i].productVariantId);
      if !catalog.up then WishlistFailed
      else WishlistFetched(wishlisted, LookupAll(catalog, ids), Count(db, shop.s, customerId.s))
  }

  function WishlistStatus(r: WishlistResult): int {
    match r
    case MissingCustomerOrShop => 400
    case WishlistFetched(_, _, _) => 200
    case WishlistFailed => 500
  }

  // ---------------------------------------------------------------------------------------
  // createWishlist, deleteWishlist, fetchProductData

  /** `result?.product?.title || "Unknown Product"` */
  function TitleOrDefault(node: Option<Node>): (t: string)
    ensures t != ""
    ensures node.Some? && node.value.product.Some? && node.value.product.value.title != "" ==>
              t == node.value.product.value.title
    ensures node.None? || node.value.product.None? || node.value.product.value.title == "" ==> t == "Unknown Product"
  {
    if node.Some? && node.value.product.Some? && node.value.product.value.title != "" then node.value.product.value.title
    else "Unknown Product"
  }

  datatype CreateResult =
    | Created(variantData: Option<Node>, wishlisted: Row, count: nat)     // "Product added to wishlist"
    | CreateFailed                                                        // 500 "Error adding product to wishlist"

  datatype CreateOutcome = CreateOutcome(db: seq<Row>, result: CreateResult)

  /** `createWishlist(...)`: looks the variant up for its title, stores one row, and reports the
      new count. Nothing is stored when the first lookup throws. */
  function CreateWishlist(db: seq<Row>, catalog: Catalog, customerId: string, productVariantId: string,
                          shop: string, productHandle: string): (out: CreateOutcome)
    ensures !catalog.up ==> out == CreateOutcome(db, CreateFailed)
    ensures catalog.up ==>
              && out.result.Created?
              && out.db == db + [out.result.wishlisted]
              && out.result.wishlisted == Row(customerId, productVariantId, shop, Some(productHandle),
                                              Some(TitleOrDefault(Lookup(catalog, productVariantId))))
              && out.result.variantData == Lookup(catalog, productVariantId)
              && out.result.count == Count(db, shop, customerId) + 1
  {
    if !catalog.up then CreateOutcome(db, CreateFailed)
    else
      var result := Lookup(catalog, productVariantId);
      var productTitle := TitleOrDefault(result);
      var wishlist := Row(customerId, productVariantId, shop, Some(productHandle), Some(productTitle));
      var db' := db + [wishlist];
      CountAppendOwned(db, [wishlist], shop, customerId);
      CreateOutcome(db', Created(result, wishlist, Count(db', shop, customerId)))
  }

  /** The `deleteMany` filter; an absent handle does not constrain the handle column. */
  predicate DeleteMatches(row: Row, customerId: string, productVariantId: string, shop: string, productHandle: Option<string>) {
    && row.customerId == customerId && row.productVariantId == productVariantId && row.shop == shop
    && (productHandle.Some? ==> row.productHandle == productHandle)
  }

  datatype DeleteResult =
    | Deleted(removed: nat, variantData: Option<Node>, count: nat)       // "Product removed from wishlist"
    | DeleteFailed                                                       // 500 "Error removing product from wishlist"

  datatype DeleteOutcome = DeleteOutcome(db: seq<Row>, result: DeleteResult)

  /** `deleteWishlist(...)`: the delete and the lookup are started together, so the rows are
      deleted even when the lookup throws. */
  function DeleteWishlist(db: seq<Row>, catalog: Catalog, customerId: string, productVariantId: string,
                          shop: string, productHandle: Option<string>): (out: DeleteOutcome)
    ensures IsSubsequence(out.db, db)
    ensures forall row :: row in out.db <==> row in db && !DeleteMatches(row, customerId, productVariantId, shop, productHandle)
    ensures forall row :: multiset(out.db)[row] ==
              if DeleteMatches(row, customerId, productVariantId, shop, productHandle) then 0 else multiset(db)[row]
    ensures out.result.DeleteFailed? <==> !catalog.up
    ensures out.result.Deleted? ==>
              && out.result.removed == |db| - |out.db|
              && out.result.variantData == Lookup(catalog, productVariantId)
              && out.result.count == Count(out.db, shop, customerId)
  {
    var db' := Filter(db, (row: Row) => !DeleteMatches(row, customerId, productVariantId, shop, productHandle));
    FilterMultiset(db, (row: Row) => !DeleteMatches(row, customerId, productVariantId, shop, productHandle));
    if !catalog.up then DeleteOutcome(db', DeleteFailed)
    else DeleteOutcome(db', Deleted(|db| - |db'|, Lookup(catalog, productVariantId), Count(db', shop, customerId)))
  }

  /** `fetchProductData(shop, productVariantId)`: the lookup, or `undefined` when it throws
      (the error is swallowed). */
  function FetchProductData(catalog: Catalog, productVariantId: string): (r: Option<Option<Node>>)
    ensures r.Some? <==> catalog.up
    ensures r.Some? ==> r.value == Lookup(catalog, productVariantId)
  {
    if catalog.up then Some(Lookup(catalog, productVariantId)) else None
  }
}
