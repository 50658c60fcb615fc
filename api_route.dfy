/** The storefront endpoint `/api/wishlist`: the `loader` (GET) and the `action` (POST). A
    request's form is a map from field name to text, the query string likewise. */
module Route {
  import opened JsValues
  import opened Service

  type Form = map<string, string>

  /** A destructured field used as a condition: missing (`undefined`) and "" are falsy. */
  predicate Present(form: Form, key: string) {
    key in form && form[key] != ""
  }

  /** A field's value, `None` when the form has no such field. */
  function Field(form: Form, key: string): Option<string> {
    if key in form then Some(form[key]) else None
  }

  /** The actions the switch knows. */
  const Actions: set<string> := {"add", "remove", "bulkCreate", "fetch", "search"}

  /** The fields each action needs before its service is called. */
  function Required(action: string): set<string> {
    match action
    case "add" => {"productVariantId", "productHandle", "customerId", "shop"}
    case "remove" => {"productVariantId", "customerId", "shop"}
    case "bulkCreate" => {"variantData", "customerId", "shop"}
    case "fetch" => {"productVariantId", "shop"}
    case "search" => {"query", "shop", "customerId"}
    case _ => {}
  }

  /** The 400 message for an action whose required fields are not all present. */
  function MissingMessage(action: string): string {
    match action
    case "add" => "Missing product data for add action"
    case "remove" => "Missing product data for remove action"
    case "bulkCreate" => "Missing data for bulk create action"
    case _ => "Missing data"
  }

  /** The service call an accepted request makes, with the form values it passes. */
  datatype ServiceCall =
    | CallCreate(customerId: string, productVariantId: string, shop: string, productHandle: string)
    | CallDelete(customerId: string, productVariantId: string, shop: string, handle: Option<string>)
    | CallBulk(customerId: string, variantData: string, shop: string)
    | CallFetch(shop: string, productVariantId: string)
    | CallSearch(shop: string, query: string, customerId: string)

  function CallAction(c: ServiceCall): string {
    match c
    case CallCreate(_, _, _, _) => "add"
    case CallDelete(_, _, _, _) => "remove"
    case CallBulk(_, _, _) => "bulkCreate"
    case CallFetch(_, _) => "fetch"
    case CallSearch(_, _, _) => "search"
  }

  datatype Dispatch = Reject(message: string) | Call(call: ServiceCall)

  /** The guards of `action`: "Missing action", then the switch with each case's field check,
      then "Invalid action". */
  function Classify(form: Form): (d: Dispatch)
    ensures !Present(form, "action") ==> d == Reject("Missing action")
    ensures Present(form, "action") && form["action"] !in Actions ==> d == Reject("Invalid action")
    ensures Present(form, "action") && form["action"] in Actions && d.Reject? ==>
              d.message == MissingMessage(form["action"])
    ensures d.Call? ==> Present(form, "action") && CallAction(d.call) == form["action"]
    ensures d.Call? && d.call.CallCreate? ==>
              Present(form, "customerId") && Present(form, "productVariantId") && Present(form, "shop")
              && Present(form, "productHandle")
              && d.call == CallCreate(form["customerId"], form["productVariantId"], form["shop"], form["productHandle"])
    ensures d.Call? && d.call.CallDelete? ==>
              Present(form, "customerId") && Present(form, "productVariantId") && Present(form, "shop")
              && d.call == CallDelete(form["customerId"], form["productVariantId"], form["shop"], Field(form, "productHandle"))
    ensures d.Call? && d.call.CallBulk? ==>
              Present(form, "customerId") && Present(form, "variantData") && Present(form, "shop")
              && d.call == CallBulk(form["customerId"], form["variantData"], form["shop"])
    ensures d.Call? && d.call.CallFetch? ==>
              Present(form, "shop") && Present(form, "productVariantId")
              && d.call == CallFetch(form["shop"], form["productVariantId"])
    ensures d.Call? && d.call.CallSearch? ==>
              Present(form, "shop") && Present(form, "query") && Present(form, "customerId")
              && d.call == CallSearch(form["shop"], form["query"], form["customerId"])
  {
    if !Present(form, "action") then Reject("Missing action")
    else
      match form["action"]
      case "add" =>
        if !Present(form, "productVariantId") || !Present(form, "productHandle") || !Present(form, "customerId") || !Present(form, "shop")
        then Reject("Missing product data for add action")
        else Call(CallCreate(form["customerId"], form["productVariantId"], form["shop"], form["productHandle"]))
      case "remove" =>
        if !Present(form, "productVariantId") || !Present(form, "customerId") || !Present(form, "shop")
        then Reject("Missing product data for remove action")
        else Call(CallDelete(form["customerId"], form["productVariantId"], form["shop"], Field(form, "productHandle")))
      case "bulkCreate" =>
        if !Present(form, "variantData") || !Present(form, "customerId") || !Present(form, "shop")
        then Reject("Missing data for bulk create action")
        else Call(CallBulk(form["customerId"], form["variantData"], form["shop"]))
      case "fetch" =>
        if !Present(form, "productVariantId") || !Present(form, "shop")
        then Reject("Missing data")
        else Call(CallFetch(form["shop"], form["productVariantId"]))
      case "search" =>
        if !Present(form, "query") || !Present(form, "shop") || !Present(form, "customerId")
        then Reject("Missing data")
        else Call(CallSearch(form["shop"], form["query"], form["customerId"]))
      case _ => Reject("Invalid action")
  }

  /** A known action reaches its service exactly when every field it requires is present. */
  lemma DispatchIffRequired(form: Form)
    requires Present(form, "action") && form["action"] in Actions
    ensures Classify(form).Call? <==> forall k :: k in Required(form["action"]) ==> Present(form, k)
  {
    var req := Required(form["action"]);
    match form["action"]
    case "add" =>
      assert req == {"productVariantId", "productHandle", "customerId", "shop"};
    case "remove" =>
      assert req == {"productVariantId", "customerId", "shop"};
    case "bulkCreate" =>
      assert req == {"variantData", "customerId", "shop"};
    case "fetch" =>
      assert req == {"productVariantId", "shop"};
    case "search" =>
      assert req == {"query", "shop", "customerId"};
  }

  /** A search with an empty query never reaches the service. */
  lemma EmptySearchRejected(form: Form)
    requires Present(form, "action") && form["action"] == "search"
    requires "query" in form && form["query"] == ""
    ensures Classify(form) == Reject("Missing data")
  {
  }

  /** The HTTP answer: its status, the body's `message` (absent for an empty body) and the
      body's field names. */
  datatype Response = Response(status: int, message: Option<string>, fields: set<string>)

  const ErrorFields: set<string> := {"message", "error", "status"}

  function CreateBody(r: CreateResult): Response {
    match r
    case Created(_, _, _) => Response(200, Some("Product added to wishlist"), {"message", "method", "count", "variantData", "wishlisted"})
    case CreateFailed => Response(200, Some("Error adding product to wishlist"), ErrorFields)
  }

  function DeleteBody(r: DeleteResult): Response {
    match r
    case Deleted(_, _, _) => Response(200, Some("Product removed from wishlist"), {"message", "method", "count", "result", "variantData"})
    case DeleteFailed => Response(200, Some("Error removing product from wishlist"), ErrorFields)
  }

  function BulkBody(r: BulkResult): Response {
    match r
    case BulkAdded(_, _, _) => Response(200, Some(BulkMessage(r)), {"message", "wishlisted", "variantData", "count"})
    case BulkNothingNew => Response(200, Some(BulkMessage(r)), {"message"})
    case BulkNotArray => Response(200, Some(BulkMessage(r)), {"message", "status"})
    case _ => Response(200, Some(BulkMessage(r)), ErrorFields)
  }

  function FetchBody(r: Option<Option<Node>>): Response {
    if r.Some? then Response(200, Some("Product data fetched successfully"), {"variantData", "message", "status"})
    else Response(200, None, {})
  }

  /** A search that threw surfaces as the route's 500. */
  function SearchBody(r: SearchResult): Response {
    match r
    case MatchingFound(_, _) => Response(200, Some("Matching items found"), {"message", "variantData", "wishlisted"})
    case NoMatches(_) => Response(200, Some("No matching items found"), {"message", "data"})
    case SearchThrew => Response(500, Some("Failed to perform action"), {"message", "error"})
  }

  /** The dispatch is a search whose query throws. */
  predicate SearchThrows(d: Dispatch, db: seq<Row>, catalog: Catalog) {
    d.Call? && d.call.CallSearch? && GetSearchResults(db, catalog, d.call.shop, d.call.query, d.call.customerId).SearchThrew?
  }

  datatype ActOutcome = ActOutcome(db: seq<Row>, response: Response)

  /** Running an accepted call against the table and the catalogue. */
  function Perform(call: ServiceCall, db: seq<Row>, catalog: Catalog, parse: string -> Option<Json>): (out: ActOutcome)
    ensures out.response.status == 500 <==> call.CallSearch? && GetSearchResults(db, catalog, call.shop, call.query, call.customerId).SearchThrew?
    ensures out.response.status != 500 ==> out.response.status == 200
    ensures call.CallSearch? || call.CallFetch? ==> out.db == db
  {
    match call
    case CallCreate(c, p, s, h) =>
      var o := CreateWishlist(db, catalog, c, p, s, h);
      ActOutcome(o.db, CreateBody(o.result))
    case CallDelete(c, p, s, h) =>
      var o := DeleteWishlist(db, catalog, c, p, s, h);
      ActOutcome(o.db, DeleteBody(o.result))
    case CallBulk(c, v, s) =>
      var o := BulkUpdate(db, catalog, c, JString(v), s, parse);
      ActOutcome(o.db, BulkBody(o.result))
    case CallFetch(s, p) =>
      ActOutcome(db, FetchBody(FetchProductData(catalog, p)))
    case CallSearch(s, q, c) =>
      ActOutcome(db, SearchBody(GetSearchResults(db, catalog, s, q, c)))
  }

  /** `action({request})`. `None` stands for a body that cannot be read as form data, which
      throws inside the `try`. */
  function Act(request: Option<Form>, db: seq<Row>, catalog: Catalog, parse: string -> Option<Json>): (out: ActOutcome)
    ensures request.None? ==> out == ActOutcome(db, Response(500, Some("Failed to perform action"), {"message", "error"}))
    ensures out.response.status == 400 <==> request.Some? && Classify(request.value).Reject?
    ensures out.response.status == 400 ==> out.db == db && out.response.message == Some(Classify(request.value).message)
    ensures out.response.status == 500 <==>
              || request.None?
              || (request.Some? && SearchThrows(Classify(request.value), db, catalog))
    ensures out.response.status in {200, 400, 500}
  {
    if request.None? then ActOutcome(db, Response(500, Some("Failed to perform action"), {"message", "error"}))
    else
      var d := Classify(request.value);
      if d.Reject? then
        ActOutcome(db, Response(400, Some(d.message), if d.message == "Missing action" then {"message", "method"} else {"message"}))
      else Perform(d.call, db, catalog, parse)
  }

  /** `loader({request})`: `None` stands for a URL that cannot be parsed. The service's own
      status is carried in the body; the HTTP status of a handled request is 200. */
  function Loader(query: Option<Form>, db: seq<Row>, catalog: Catalog): (r: Response)
    ensures query.None? ==> r == Response(500, Some("Failed to fetch wishlist"), {"message", "error"})
    ensures r.status == 400 <==> query.Some? && (!Present(query.value, "customer") || !Present(query.value, "shop"))
    ensures r.status == 400 ==> r.message == Some("Missing customer or shop data")
    ensures query.Some? && r.status != 400 ==> r.status == 200 && r.message != Some("Missing customer or shop data")
  {
    if query.None? then Response(500, Some("Failed to fetch wishlist"), {"message", "error"})
    else if !Present(query.value, "customer") || !Present(query.value, "shop") then
      Response(400, Some("Missing customer or shop data"), {"message"})
    else
      var w := GetCustomerWishlistedProducts(db, catalog, Str(query.value["customer"]), Str(query.value["shop"]));
      match w
      case WishlistFetched(_, _, _) =>
        Response(200, Some("Wishlist fetched successfully"), {"wishlisted", "variantData", "count", "message", "status"})
      case WishlistFailed => Response(200, Some("Error fetching customer wishlist"), ErrorFields)
      case MissingCustomerOrShop => assert false; Response(200, None, {})
  }
}
