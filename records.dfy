/** The record shapes the storefront widget passes around, and the membership and removal
    filters it applies to wishlist lists. */
module Records {
  import opened JsValues
  import opened Seqs

  /** A wishlist entry as the widget holds it. Guest entries are
      `{productVariantId, productHandle, shop}`; server rows carry these fields among others. */
  datatype Entry = Entry(productVariantId: Value, productHandle: Value, shop: Value)

  /** `{ ...undefined }`: an object with none of the fields. */
  const EmptyEntry := Entry(Undefined, Undefined, Undefined)

  /** A product of a variant-detail item: the panel reads only its title. */
  datatype Product = Product(title: Value)

  /** One element of a list shown in the panel: a catalogue variant (`id`, `product`), any
      other object (a guest entry, an array: both have neither field), or `null`/`undefined`. */
  datatype Item = Nullish | Item(id: Value, product: Option<Product>)

  /** What a guest or logged-in handler's `addItem` / `removeItem` resolves to. */
  datatype HandlerResult = HandlerResult(success: bool, message: string, variantData: Option<seq<Item>>)

  /** `data.some(item => item.productVariantId === id)` */
  predicate HasVariant(data: seq<Entry>, id: Value) {
    exists e :: e in data && e.productVariantId == id
  }

  /** No two entries share a `productVariantId`. */
  predicate DistinctVariants(data: seq<Entry>) {
    forall i, j :: 0 <= i < j < |data| ==> data[i].productVariantId != data[j].productVariantId
  }

  /** `data.filter(item => item.productVariantId !== id)` */
  function WithoutVariant(data: seq<Entry>, id: Value): (r: seq<Entry>)
    ensures forall e :: e in r <==> e in data && e.productVariantId != id
    ensures forall e :: multiset(r)[e] == if e.productVariantId != id then multiset(data)[e] else 0
    ensures IsSubsequence(r, data)
    ensures !HasVariant(r, id)
    ensures |r| == |data| <==> !HasVariant(data, id)
    ensures !HasVariant(data, id) ==> r == data
  {
    FilterMultiset(data, (e: Entry) => e.productVariantId != id);
    Filter(data, (e: Entry) => e.productVariantId != id)
  }

  /** The guest store's add: append `{id, handle, shop}` unless an entry already has `id`. */
  function AddEntry(data: seq<Entry>, shop: Value, id: Value, handle: Value): (r: seq<Entry>)
    ensures HasVariant(r, id)
    ensures HasVariant(data, id) ==> r == data
    ensures !HasVariant(data, id) ==> r == data + [Entry(id, handle, shop)]
    ensures DistinctVariants(data) ==> DistinctVariants(r)
  {
    if HasVariant(data, id) then data else data + [Entry(id, handle, shop)]
  }
}
