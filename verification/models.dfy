/** The entities the app stores, receives and sends: funnel rows, catalog
    product records, the offer handed to the checkout extension, changes,
    statistic rows, and a JSON value type for request bodies and token
    payloads. Money amounts are `real`s; float rounding is not modelled. */
module Models {
  import opened Wrappers
  import opened JsText

  /** A funnel row: the merchant's rule pairing a trigger product with a
      discounted offer product. Product ids are stored in global-id form,
      `gid://shopify/Product/N`. */
  datatype Funnel = Funnel(
    id: int,
    title: string,
    shop: string,
    triggerProductId: string,
    offerProductId: string,
    discount: int,
    offerProductPrice: real,
    createdAt: int,
    updatedAt: int
  )

  /** The editable fields of the funnel form. */
  datatype FunnelForm = FunnelForm(
    title: string,
    triggerProductId: string,
    offerProductId: string,
    discount: int
  )

  // ---------------------------------------------------------------------
  // Catalog records (the product query's response) and the compiled offer
  // ---------------------------------------------------------------------

  datatype Image = Image(url: string, altText: Option<string>)

  /** Everything about a variant except its id; the compiled offer copies
      these fields unchanged. The product query's `image` is `null` for a
      variant without one. */
  datatype VariantFields = VariantFields(
    price: string,
    displayName: string,
    image: Option<Image>,
    title: string,
    availableForSale: bool,
    inventoryQuantity: int
  )

  /** A catalog variant, identified by its global id. */
  datatype CatalogVariant = CatalogVariant(gid: string, fields: VariantFields)

  /** The catalog's product record for the offer product. */
  datatype CatalogProduct = CatalogProduct(
    gid: string,
    title: string,
    variants: seq<CatalogVariant>,
    description: string,
    featuredImageUrl: Option<string>
  )

  /** A variant of the compiled offer: the id is the numeric tail of the
      catalog's global id, `undefined` (None) when the id has too few
      segments. */
  datatype OfferVariant = OfferVariant(id: Option<string>, fields: VariantFields)

  /** Every variant carries an image. The checkout extension reads each
      variant's `image.url` while rendering, so it throws otherwise. */
  predicate EveryVariantHasImage(variants: seq<OfferVariant>) {
    forall i :: 0 <= i < |variants| ==> variants[i].fields.image.Some?
  }

  datatype Discount = Discount(value: int, valueType: string, title: string)

  /** The `variantId` of a change: absent, a string, or a number. */
  datatype VariantRef = NoVariant | VariantText(text: string) | VariantNumber(num: JsNum)

  /** One order change. Every field may be missing, because the extension
      spreads `changes[0]`, which may itself be missing. */
  datatype Change = Change(
    kind: Option<string>,
    variantId: VariantRef,
    quantity: Option<JsNum>,
    discount: Option<Discount>
  )

  /** The offer sent to the checkout extension. */
  datatype PurchaseOption = PurchaseOption(
    id: int,
    productTitle: string,
    discount: int,
    variants: seq<OfferVariant>,
    changes: seq<Change>
  )

  /** The `offer` field of the offer endpoint's response: `null`, the empty
      array the store query yields when nothing matches, or an offer. */
  datatype OfferField = NullOffer | EmptyList | Offer(option: PurchaseOption)

  /** Why producing an offer throws. */
  datatype OfferError =
    | ProductNotFound   // the catalog returned no product for the offer id
    | NoVariants        // the product has no variants, so `nodes[0].id` throws
    | SessionMissing    // the older route destructures a null session

  // ---------------------------------------------------------------------
  // JSON and statistics
  // ---------------------------------------------------------------------

  /** A JSON value, as read from a request body or written into a token. */
  datatype Json =
    | JNull
    | JBool(b: bool)
    | JNum(n: real)
    | JStr(s: string)
    | JArr(items: seq<Json>)
    | JObj(fields: map<string, Json>)

  /** A statistic row: one accepted offer. */
  datatype Statistic = Statistic(shop: string, funnelId: int, revenue: real, discount: real)
}
