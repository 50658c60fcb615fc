/** How the storefront script's requests and the endpoint's replies fit together as written:
    the script names its action field `_action` and its bulk payload `data`, while the route
    reads `action` and `variantData`; the script reads `data` from replies that carry their
    rows under `wishlisted`. */
module Interop {
  import opened JsValues
  import opened Records
  import opened LoggedInStore
  import opened Manager
  import opened Service
  import opened Route

  /** Every add or remove the logged-in store posts is turned away before dispatch. */
  lemma UpdateFormMissesAction(customerId: Value, shop: Value, action: Action, productVariantId: Value,
                               productHandle: Value, db: seq<Row>, catalog: Catalog, parse: string -> Option<Json>)
    ensures Classify(UpdateForm(customerId, shop, action, productVariantId, productHandle)) == Reject("Missing action")
    ensures Act(Some(UpdateForm(customerId, shop, action, productVariantId, productHandle)), db, catalog, parse)
            == ActOutcome(db, Response(400, Some("Missing action"), {"message", "method"}))
  {
    var form := UpdateForm(customerId, shop, action, productVariantId, productHandle);
    assert "action" !in form.Keys;
  }

  /** The guest merge's bulk post is turned away for the same reason. */
  lemma BulkFormMissesAction(customerId: Value, shop: Value, payload: string)
    ensures Classify(BulkForm(customerId, shop, payload)) == Reject("Missing action")
  {
    assert "action" !in BulkForm(customerId, shop, payload).Keys;
  }

  /** Even under the field name the route reads, the bulk post lacks `variantData`. */
  lemma RenamedBulkFormMissesData(customerId: Value, shop: Value, payload: string)
    ensures Classify(BulkForm(customerId, shop, payload)["action" := "bulkCreate"]) == Reject("Missing data for bulk create action")
  {
    var form := BulkForm(customerId, shop, payload)["action" := "bulkCreate"];
    assert "variantData" !in form.Keys;
    assert Present(form, "action") && form["action"] == "bulkCreate";
  }

  /** The bulk payload the script builds is an array of entry objects, not of ids; reaching
      the service, it fails the query and creates nothing. */
  lemma EntryPayloadFailsBulkUpdate(db: seq<Row>, catalog: Catalog, customerId: string, payload: string,
                                    shop: string, parse: string -> Option<Json>, entries: seq<Json>)
    requires entries != [] && forall i :: 0 <= i < |entries| ==> entries[i] == JOther
    requires parse(payload) == Some(JArray(entries))
    ensures BulkUpdate(db, catalog, customerId, JString(payload), shop, parse) == BulkOutcome(db, BulkFailed)
  {
    assert !entries[0].JString?;
  }

  /** No reply of the loader has a `data` field, so the script's `result.data || []` is `[]`. */
  lemma LoaderReplyHasNoData(query: Option<Form>, db: seq<Row>, catalog: Catalog)
    ensures "data" !in Loader(query, db, catalog).fields
  {
  }

  /** No reply to an add has a `data` field, so the script appends an empty object. */
  lemma CreateReplyHasNoData(r: CreateResult)
    ensures "data" !in CreateBody(r).fields
  {
  }
}
