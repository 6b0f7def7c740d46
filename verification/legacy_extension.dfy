/** The older, untyped version of the checkout extension. It differs from the
    typed one in a few places: the initial image prefers the offer's
    `productImageUrl`; the variant id and alt text are copied raw, without
    fallbacks; the variant lookup has no guard, so selecting an id no
    variant has throws; the quantity error is checked even without a stock
    limit; and the currency label works on the amount's text. */
module LegacyExtension {
  import opened Wrappers
  import opened JsText
  import opened Models
  import CheckoutExtension

  /** The legacy form state: the variant id and alt text may be
      `undefined` (the alt text after a selection only). */
  datatype LegacyState = LegacyState(
    quantity: JsNum,
    variantId: Option<string>,
    variantTitle: string,
    imageSrc: string,
    altText: Option<string>,
    maxQuantity: Option<int>,
    mainTitle: string
  )

  /** `productImageUrl || variants[0].image.url || ""`. */
  function InitialImage(productImageUrl: Option<string>, firstVariantUrl: string): (r: string)
    ensures productImageUrl.Some? && productImageUrl.value != "" ==> r == productImageUrl.value
    ensures (productImageUrl.None? || productImageUrl == Some("")) ==> r == firstVariantUrl
  {
    if productImageUrl.Some? && productImageUrl.value != "" then productImageUrl.value
    else firstVariantUrl
  }

  /** The initial legacy state. `productImageUrl` is the offer's optional
      product image; the offers the current server compiles never carry
      one. The offer must have a variant, each with an image:
      `variants[0].id`, the first variant's `image.altText` and the
      slider's list of images throw otherwise. */
  function InitialState(o: PurchaseOption, productImageUrl: Option<string>): (r: LegacyState)
    requires |o.variants| > 0 && EveryVariantHasImage(o.variants)
    ensures r.quantity == CheckoutExtension.InitialQuantity(CheckoutExtension.FirstChange(o))
    ensures r.variantId == o.variants[0].id
    ensures r.imageSrc == InitialImage(productImageUrl, o.variants[0].fields.image.value.url)
    ensures r.altText == Some(o.variants[0].fields.image.value.altText.GetOr(""))
    ensures r.maxQuantity == CheckoutExtension.StockLimit(o.variants[0].fields.inventoryQuantity)
    ensures r.mainTitle == o.productTitle && r.variantTitle == o.variants[0].fields.title
  {
    var v := o.variants[0];
    LegacyState(
      CheckoutExtension.InitialQuantity(CheckoutExtension.FirstChange(o)),
      v.id,
      v.fields.title,
      InitialImage(productImageUrl, v.fields.image.value.url),
      // `altText || ""` leaves "" for a missing alt text
      Some(v.fields.image.value.altText.GetOr("")),
      CheckoutExtension.StockLimit(v.fields.inventoryQuantity),
      o.productTitle)
  }

  /** Without a product image, the legacy form starts like the typed one,
      up to the raw id and alt text. */
  lemma InitialStatesAgree(o: PurchaseOption)
    requires |o.variants| > 0 && EveryVariantHasImage(o.variants)
    ensures var legacy := InitialState(o, None);
            var typed := CheckoutExtension.InitialState(Offer(o)).value;
            && legacy.quantity == typed.quantity
            && legacy.variantId.GetOr("") == typed.variantId
            && legacy.imageSrc == typed.imageSrc
            && legacy.altText.GetOr("") == typed.altText
            && legacy.maxQuantity == typed.maxQuantity
            && legacy.mainTitle == typed.mainTitle
  {
  }

  /** Some variant has exactly this id (`undefined` matches a variant without
      an id). */
  ghost predicate HasVariant(variants: seq<OfferVariant>, value: Option<string>) {
    exists i :: 0 <= i < |variants| && variants[i].id == value
  }

  /** The first variant whose id is `value`. */
  function FindVariant(variants: seq<OfferVariant>, value: Option<string>): (r: nat)
    requires HasVariant(variants, value)
    ensures r < |variants| && variants[r].id == value
    ensures forall j :: 0 <= j < r ==> variants[j].id != value
    decreases |variants|
  {
    if variants[0].id == value then 0
    else
      assert HasVariant(variants[1..], value) by {
        var i :| 0 <= i < |variants| && variants[i].id == value;
        assert variants[1..][i - 1] == variants[i];
      }
      FindVariant(variants[1..], value) + 1
  }

  /** `handleSelectChange` without a guard: the variant must exist. Like
      the other handlers, it runs only in a rendered form, whose variants
      all have an image. */
  function SelectVariant(s: LegacyState, variants: seq<OfferVariant>, value: Option<string>): (r: LegacyState)
    requires EveryVariantHasImage(variants)
    requires HasVariant(variants, value)
    ensures var v := variants[FindVariant(variants, value)];
            && r.quantity == s.quantity
            && r.variantId == value
            && r.variantTitle == v.fields.title
            && r.imageSrc == v.fields.image.value.url
            && r.altText == v.fields.image.value.altText
            && r.mainTitle == v.fields.displayName
            && r.maxQuantity == Some(v.fields.inventoryQuantity)
  {
    var v := variants[FindVariant(variants, value)];
    s.(variantId := value,
       variantTitle := v.fields.title,
       imageSrc := v.fields.image.value.url,
       altText := v.fields.image.value.altText,
       mainTitle := v.fields.displayName,
       maxQuantity := Some(v.fields.inventoryQuantity))
  }

  /** The variant showing `url`; it must exist, as `.find(...).id` throws
      otherwise. */
  function VariantForImage(variants: seq<OfferVariant>, url: string): (r: nat)
    requires EveryVariantHasImage(variants)
    requires exists i :: 0 <= i < |variants| && variants[i].fields.image.value.url == url
    ensures r < |variants| && variants[r].fields.image.value.url == url
    ensures forall j :: 0 <= j < r ==> variants[j].fields.image.value.url != url
  {
    var k := CheckoutExtension.ImageIndex(variants, url);
    k
  }

  /** The arrow buttons: the index arithmetic is the typed version's; the
      image at the new index always belongs to a variant, so the unguarded
      lookups succeed. */
  function ChangeImage(s: LegacyState, variants: seq<OfferVariant>, direction: int): (r: LegacyState)
    requires EveryVariantHasImage(variants)
    requires CheckoutExtension.SliderVisible(variants) && (direction == 1 || direction == -1)
    ensures var k := CheckoutExtension.NextImageIndex(CheckoutExtension.ImageIndex(variants, s.imageSrc), direction, |variants|);
            var v := variants[VariantForImage(variants, variants[k].fields.image.value.url)];
            && v.fields.image.value.url == variants[k].fields.image.value.url
            && HasVariant(variants, v.id)
            && r == SelectVariant(s, variants, v.id)
            && r.variantId == v.id
            && r.quantity == s.quantity
  {
    var n := |variants|;
    var k := CheckoutExtension.NextImageIndex(CheckoutExtension.ImageIndex(variants, s.imageSrc), direction, n);
    var url := variants[k].fields.image.value.url;
    assert variants[k].fields.image.value.url == url;
    var j := VariantForImage(variants, url);
    var id := variants[j].id;
    assert variants[j].id == id;
    SelectVariant(s, variants, id)
  }

  /** A product image that no variant shows puts the slider before its
      first image: "next" then selects the first variant, "previous" the
      last but one. */
  lemma NextFromProductImage(s: LegacyState, variants: seq<OfferVariant>)
    requires CheckoutExtension.SliderVisible(variants)
    requires CheckoutExtension.DistinctVariants(variants)
    requires forall i :: 0 <= i < |variants| ==> variants[i].fields.image.value.url != s.imageSrc
    ensures ChangeImage(s, variants, 1).variantId == variants[0].id
    ensures ChangeImage(s, variants, 1).imageSrc == variants[0].fields.image.value.url
    ensures ChangeImage(s, variants, -1).variantId == variants[|variants| - 2].id
  {
    var n := |variants|;
    JsRemWrap(n, n);
    JsRemWrap(n - 2, n);
    assert CheckoutExtension.ImageIndex(variants, s.imageSrc) == -1;
    assert CheckoutExtension.ImageIndex(variants, variants[0].fields.image.value.url) == 0;
    assert FindVariant(variants, variants[0].id) == 0;
    assert CheckoutExtension.ImageIndex(variants, variants[n - 2].fields.image.value.url) == n - 2;
  }

  /** The quantity error, checked even without a stock limit: comparing with
      `undefined` is false, so only the lower bound applies then; a stock
      limit of 0 is compared like any other. */
  function QuantityError(quantity: JsNum, maxQuantity: Option<int>): (r: Option<string>)
    ensures r.Some? ==> r.value == CheckoutExtension.ExceedsStock || r.value == CheckoutExtension.AtLeastOne
    ensures r == Some(CheckoutExtension.ExceedsStock) <==>
              quantity.Num? && maxQuantity.Some? && quantity.value > maxQuantity.value
    ensures r == Some(CheckoutExtension.AtLeastOne) <==>
              quantity.Num? && quantity.value < 1 && !(maxQuantity.Some? && quantity.value > maxQuantity.value)
  {
    if quantity.Num? && maxQuantity.Some? && quantity.value > maxQuantity.value then Some(CheckoutExtension.ExceedsStock)
    else if quantity.Num? && quantity.value < 1 then Some(CheckoutExtension.AtLeastOne)
    else None
  }

  /** The two versions agree whenever a non-zero stock limit is set; without
      one the legacy version still rejects quantities below 1. */
  lemma QuantityErrorsAgreeWithLimit(quantity: JsNum, maxQuantity: Option<int>)
    ensures maxQuantity.Some? && maxQuantity.value != 0 ==>
              QuantityError(quantity, maxQuantity) == CheckoutExtension.QuantityError(quantity, maxQuantity)
    ensures maxQuantity.None? && quantity.Num? && quantity.value < 1 ==>
              QuantityError(quantity, maxQuantity) == Some(CheckoutExtension.AtLeastOne)
              && CheckoutExtension.QuantityError(quantity, maxQuantity).None?
  {
  }

  /** The accepted (and calculated) change: the template with the raw
      variant id and the quantity. */
  function AcceptChange(o: PurchaseOption, s: LegacyState): (r: Change)
    ensures var t := CheckoutExtension.FirstChange(o);
            && r.quantity == Some(s.quantity)
            && (s.variantId.Some? ==> r.variantId == VariantText(s.variantId.value))
            && (s.variantId.None? ==> r.variantId.NoVariant?)
            && (t.Some? ==> r.kind == t.value.kind && r.discount == t.value.discount)
  {
    var id := if s.variantId.Some? then VariantText(s.variantId.value) else NoVariant;
    CheckoutExtension.OverrideChange(CheckoutExtension.FirstChange(o), id, s.quantity)
  }

  /** `formatCurrency` on the amount's text: "Free" when the text is
      missing, empty, or its integer prefix reads 0 (so "0.50" is free);
      otherwise `$` and the text as it is. */
  function FormatCurrency(amount: Option<string>): (r: string)
    ensures r == "Free" <==> amount.None? || amount == Some("") || ParseIntPrefix(amount.value) == Num(0)
    ensures r != "Free" ==> r == "$" + amount.value
  {
    if amount.None? || amount.value == "" || ParseIntPrefix(amount.value) == Num(0) then "Free"
    else
      var r := "$" + amount.value;
      assert r[0] != "Free"[0];
      r
  }

  /** Amounts below one unit are labelled free, and a whole amount is
      printed as given. */
  lemma FormatCurrencyExamples()
    ensures FormatCurrency(Some("0.50")) == "Free"
    ensures FormatCurrency(Some("12.00")) == "$12.00"
    ensures FormatCurrency(None) == "Free"
  {
    assert DigitPrefix("0.50") == 1;
    assert "0.50"[..1] == "0";
    assert ParseDigits("0") == 0;
    assert ParseIntPrefix("0.50") == Num(0);
    assert DigitPrefix("12.00") == 2;
    assert "12.00"[..2] == "12";
  }
}
