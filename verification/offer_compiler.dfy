/** The pure part of turning a matched funnel and the catalog's record of its
    offer product into the offer the checkout extension shows: variant ids
    are reduced to their numeric tails and exactly one `add_variant` change
    template carrying the percentage discount is built. The catalog query
    itself is an input. */
module OfferCompiler {
  import opened Wrappers
  import opened JsText
  import opened Models
  import opened ProductIds

  const AddVariant := "add_variant"
  const Percentage := "percentage"

  /** The discount's display title, `${discount}% off`. */
  function DiscountTitle(discount: int): string {
    IntToString(discount) + "% off"
  }

  /** The title embeds the percentage: reading its integer prefix back gives
      the discount. */
  lemma DiscountTitleEmbedsPercentage(discount: int)
    ensures ParseIntPrefix(DiscountTitle(discount)) == Num(discount)
  {
    ParseIntOfPrinted(discount, "% off");
  }

  /** A catalog variant with its id replaced by the id's numeric tail. */
  function ToOfferVariant(v: CatalogVariant): OfferVariant {
    OfferVariant(NumericTail(v.gid), v.fields)
  }

  /** A numeric tail as a change's `variantId` (`undefined` stays absent). */
  function VariantRefOf(tail: Option<string>): VariantRef {
    match tail
    case None => NoVariant
    case Some(t) => VariantText(t)
  }

  /** Builds the offer for funnel `f` from the catalog's answer `product`
      (None when the catalog has no such product). */
  function Compile(f: Funnel, product: Option<CatalogProduct>): (r: Result<PurchaseOption, OfferError>)
    ensures product.None? ==> r == Failure(ProductNotFound)
    ensures product.Some? && |product.value.variants| == 0 ==> r == Failure(NoVariants)
    ensures product.Some? && |product.value.variants| > 0 ==> r.Success?
    ensures r.Success? ==>
      var o := r.value;
      var p := product.value;
      && o.id == f.id && o.discount == f.discount && o.productTitle == p.title
      // the variants keep the catalog's length and order; only ids change
      && |o.variants| == |p.variants|
      && (forall i :: 0 <= i < |o.variants| ==>
            o.variants[i].fields == p.variants[i].fields
            && o.variants[i].id == NumericTail(p.variants[i].gid))
      // exactly one change: add one unit of the first variant, with the
      // funnel's percentage discount
      && |o.changes| == 1
      && o.changes[0].kind == Some(AddVariant)
      && o.changes[0].quantity == Some(Num(1))
      && o.changes[0].discount == Some(Discount(f.discount, Percentage, DiscountTitle(f.discount)))
      && (o.changes[0].variantId.NoVariant? <==> o.variants[0].id.None?)
      && (o.variants[0].id.Some? ==> o.changes[0].variantId == VariantText(o.variants[0].id.value))
  {
    if product.None? then Failure(ProductNotFound)
    else
      var p := product.value;
      if |p.variants| == 0 then Failure(NoVariants)
      else
        var variantId := NumericTail(p.variants[0].gid);
        var change := Change(
          Some(AddVariant),
          VariantRefOf(variantId),
          Some(Num(1)),
          Some(Discount(f.discount, Percentage, DiscountTitle(f.discount))));
        Success(PurchaseOption(
          f.id,
          p.title,
          f.discount,
          seq(|p.variants|, i requires 0 <= i < |p.variants| => ToOfferVariant(p.variants[i])),
          [change]))
  }

  /** A variant whose catalog id is `gid://shopify/ProductVariant/N` appears
      in the offer with id `N`. */
  lemma CompiledVariantId(f: Funnel, p: CatalogProduct, i: nat, n: nat)
    requires i < |p.variants|
    requires p.variants[i].gid == Gid("ProductVariant", NatToString(n))
    ensures Compile(f, Some(p)).Success?
    ensures Compile(f, Some(p)).value.variants[i].id == Some(NatToString(n))
  {
    TailOfGid("ProductVariant", NatToString(n));
  }
}
