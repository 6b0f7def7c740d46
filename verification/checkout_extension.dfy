/** The post-purchase checkout extension (the typed version): whether to
    render, the form state built from the offer, variant selection, the image
    slider, the quantity error, the change sent for calculation and for
    signing, and the currency label.

    The extension's UI framework, its hooks and the asynchronous calls into
    the checkout (`calculateChangeset`, `applyChangeset`, `done`) are left
    out; the form state is a value and every handler is a function from the
    old state to the new one. */
module CheckoutExtension {
  import opened Wrappers
  import opened JsText
  import opened Models
  import opened SignChangeset

  /** The form's state. `quantity` is whatever `Number()` made of the
      quantity field, so it may be NaN. */
  datatype FormState = FormState(
    quantity: JsNum,
    variantId: string,
    variantTitle: string,
    imageSrc: string,
    altText: string,
    maxQuantity: Option<int>,
    mainTitle: string
  )

  /** Why building the form throws. */
  datatype RenderError =
    | OfferIsNull          // `null.changes`
    | OfferIsEmptyList     // `[].changes[0]`: the changes are undefined
    | OfferHasNoVariants   // `variants[0].id` on an empty list
    | VariantHasNoImage    // `image.url` of a variant whose image is `null`

  /** `purchaseOption.changes[0]`, or `undefined`. */
  function FirstChange(o: PurchaseOption): (r: Option<Change>)
    ensures r.Some? <==> |o.changes| > 0
    ensures r.Some? ==> r.value == o.changes[0]
  {
    if |o.changes| > 0 then Some(o.changes[0]) else None
  }

  /** `changes[0]?.quantity || 1`. */
  function InitialQuantity(c: Option<Change>): (r: JsNum)
    ensures r.Truthy()
    ensures c.Some? && c.value.quantity.Some? && c.value.quantity.value.Truthy() ==> r == c.value.quantity.value
    ensures !(c.Some? && c.value.quantity.Some? && c.value.quantity.value.Truthy()) ==> r == Num(1)
  {
    if c.Some? && c.value.quantity.Some? && c.value.quantity.value.Truthy() then c.value.quantity.value
    else Num(1)
  }

  /** `inventoryQuantity || undefined`: no limit when the stock reads 0. */
  function StockLimit(inventoryQuantity: int): (r: Option<int>)
    ensures r.None? <==> inventoryQuantity == 0
    ensures r.Some? ==> r.value == inventoryQuantity
  {
    if inventoryQuantity != 0 then Some(inventoryQuantity) else None
  }

  /** The initial form state, from the `offer` the extension stored at
      render time. The same first render reads the first variant's image
      and lists every variant's image for the slider, so one variant
      without an image is enough to make it throw. */
  function InitialState(offer: OfferField): (r: Result<FormState, RenderError>)
    ensures offer.NullOffer? ==> r == Failure(OfferIsNull)
    ensures offer.EmptyList? ==> r == Failure(OfferIsEmptyList)
    ensures offer.Offer? && |offer.option.variants| == 0 ==> r == Failure(OfferHasNoVariants)
    ensures offer.Offer? && |offer.option.variants| > 0 && !EveryVariantHasImage(offer.option.variants) ==>
              r == Failure(VariantHasNoImage)
    ensures r.Success? <==>
              offer.Offer? && |offer.option.variants| > 0 && EveryVariantHasImage(offer.option.variants)
    ensures r.Success? ==>
              var o := offer.option;
              var v := o.variants[0];
              && r.value.quantity == InitialQuantity(FirstChange(o))
              && r.value.variantId == v.id.GetOr("")
              && r.value.variantTitle == v.fields.title
              && r.value.imageSrc == v.fields.image.value.url
              && r.value.altText == v.fields.image.value.altText.GetOr("")
              && r.value.maxQuantity == StockLimit(v.fields.inventoryQuantity)
              && r.value.mainTitle == o.productTitle
  {
    match offer
    case NullOffer => Failure(OfferIsNull)
    case EmptyList => Failure(OfferIsEmptyList)
    case Offer(o) =>
      if |o.variants| == 0 then Failure(OfferHasNoVariants)
      else if !EveryVariantHasImage(o.variants) then Failure(VariantHasNoImage)
      else
        var v := o.variants[0];
        Success(FormState(
          InitialQuantity(FirstChange(o)),
          v.id.GetOr(""),
          v.fields.title,
          v.fields.image.value.url,
          v.fields.image.value.altText.GetOr(""),
          StockLimit(v.fields.inventoryQuantity),
          o.productTitle))
  }

  // ---------------------------------------------------------------------
  // Should-render
  // ---------------------------------------------------------------------

  /** The should-render hook, as written: it stores the offer response and
      always asks to render. */
  function ShouldRender(offer: OfferField): (render: bool)
    ensures render
  {
    true
  }

  /** The hook asks to render for a `null` offer and for the empty list the
      offer query returns when nothing matches, and building the form from
      either throws. */
  lemma ShouldRenderWithoutOffer()
    ensures ShouldRender(NullOffer) && InitialState(NullOffer).Failure?
    ensures ShouldRender(EmptyList) && InitialState(EmptyList).Failure?
  {
  }

  /** The should-render hook as intended: render exactly when there is an
      offer with a variant to show, each variant with an image. */
  function ShouldRenderCorrected(offer: OfferField): (render: bool)
    ensures render <==> InitialState(offer).Success?
    ensures !render ==> offer.NullOffer? || offer.EmptyList? || |offer.option.variants| == 0
                        || !EveryVariantHasImage(offer.option.variants)
  {
    offer.Offer? && |offer.option.variants| > 0 && EveryVariantHasImage(offer.option.variants)
  }

  // ---------------------------------------------------------------------
  // Variant selection
  // ---------------------------------------------------------------------

  /** `variants.findIndex((v) => v.id === value)`, as an option. */
  function FindVariant(variants: seq<OfferVariant>, value: string): (r: Option<nat>)
    ensures r.None? <==> forall i :: 0 <= i < |variants| ==> variants[i].id != Some(value)
    ensures r.Some? ==> r.value < |variants| && variants[r.value].id == Some(value)
    ensures r.Some? ==> forall j :: 0 <= j < r.value ==> variants[j].id != Some(value)
    decreases |variants|
  {
    if |variants| == 0 then None
    else if variants[0].id == Some(value) then Some(0)
    else
      match FindVariant(variants[1..], value)
      case None => None
      case Some(k) => Some(k + 1)
  }

  /** `handleSelectChange`: copies the first variant with id `value` into
      the form and keeps the quantity; an unknown id changes nothing. Like
      every handler below, it runs only in a rendered form, whose variants
      all have an image. */
  function SelectVariant(s: FormState, variants: seq<OfferVariant>, value: string): (r: FormState)
    requires EveryVariantHasImage(variants)
    ensures FindVariant(variants, value).None? ==> r == s
    ensures FindVariant(variants, value).Some? ==>
              var v := variants[FindVariant(variants, value).value];
              && r.quantity == s.quantity
              && r.variantId == value
              && r.variantTitle == v.fields.title
              && r.imageSrc == v.fields.image.value.url
              && r.altText == v.fields.image.value.altText.GetOr("")
              && r.mainTitle == v.fields.displayName
              && r.maxQuantity == Some(v.fields.inventoryQuantity)
  {
    match FindVariant(variants, value)
    case None => s
    case Some(i) =>
      var v := variants[i];
      s.(variantId := value,
         variantTitle := v.fields.title,
         imageSrc := v.fields.image.value.url,
         altText := v.fields.image.value.altText.GetOr(""),
         mainTitle := v.fields.displayName,
         maxQuantity := Some(v.fields.inventoryQuantity))
  }

  /** Selecting the same variant twice is the same as selecting it once, and
      the selection depends on the old state only through the quantity. */
  lemma SelectVariantIdempotent(s: FormState, t: FormState, variants: seq<OfferVariant>, value: string)
    requires EveryVariantHasImage(variants)
    requires FindVariant(variants, value).Some? && s.quantity == t.quantity
    ensures SelectVariant(SelectVariant(s, variants, value), variants, value) == SelectVariant(s, variants, value)
    ensures SelectVariant(s, variants, value) == SelectVariant(t, variants, value)
  {
  }

  /** `handleQuantityChange`: the field's text through `Number()`. */
  function ChangeQuantity(s: FormState, value: string): (r: FormState)
    ensures r.quantity == ToNumber(value)
    ensures r.(quantity := s.quantity) == s
  {
    s.(quantity := ToNumber(value))
  }

  // ---------------------------------------------------------------------
  // Image slider
  // ---------------------------------------------------------------------

  /** The slider is shown only when there is more than one image. */
  function SliderVisible(variants: seq<OfferVariant>): bool {
    |variants| > 1
  }

  /** The slider is shown exactly when an arrow moves to another image:
      with a single image, "next" stays on it. */
  lemma SliderMovesImage(variants: seq<OfferVariant>)
    requires |variants| >= 1
    ensures SliderVisible(variants) <==>
              forall k :: 0 <= k < |variants| ==> NextImageIndex(k, 1, |variants|) != k
  {
    var n := |variants|;
    if n == 1 {
      JsRemWrap(1 + 1, 1);
      assert NextImageIndex(0, 1, n) == 0;
    } else {
      forall k | 0 <= k < n ensures NextImageIndex(k, 1, n) != k {
        JsRemWrap(k + 1 + n, n);
      }
    }
  }

  /** `imageSetArray.findIndex(({url}) => url === imageSrc)`: the first
      variant showing the image, or -1. */
  function ImageIndex(variants: seq<OfferVariant>, imageSrc: string): (r: int)
    requires EveryVariantHasImage(variants)
    ensures -1 <= r < |variants|
    ensures r == -1 <==> forall i :: 0 <= i < |variants| ==> variants[i].fields.image.value.url != imageSrc
    ensures r >= 0 ==> variants[r].fields.image.value.url == imageSrc
    ensures r >= 0 ==> forall j :: 0 <= j < r ==> variants[j].fields.image.value.url != imageSrc
    decreases |variants|
  {
    if |variants| == 0 then -1
    else if variants[0].fields.image.value.url == imageSrc then 0
    else
      var k := ImageIndex(variants[1..], imageSrc);
      if k == -1 then -1 else k + 1
  }

  /** `(current + direction + n) % n`. */
  function NextImageIndex(current: int, direction: int, n: int): (r: int)
    requires n >= 1
    ensures -1 <= current < n && (direction == 1 || direction == -1) ==> 0 <= r < n
  {
    JsRem(current + direction + n, n)
  }

  /** Moving forward and then back returns to the image shown, and so does
      moving back and then forward. */
  lemma NextThenPrevious(current: int, n: int)
    requires 0 <= current < n
    ensures NextImageIndex(NextImageIndex(current, 1, n), -1, n) == current
    ensures NextImageIndex(NextImageIndex(current, -1, n), 1, n) == current
  {
    var next := NextImageIndex(current, 1, n);
    var prev := NextImageIndex(current, -1, n);
    JsRemWrap(current + 1 + n, n);
    JsRemWrap(current - 1 + n, n);
    JsRemWrap(next - 1 + n, n);
    JsRemWrap(prev + 1 + n, n);
  }

  /** `variants.find(({image}) => image.url === url)?.id`. */
  function VariantIdForImage(variants: seq<OfferVariant>, url: string): (r: Option<string>)
    requires EveryVariantHasImage(variants)
    ensures ImageIndex(variants, url) == -1 ==> r.None?
    ensures ImageIndex(variants, url) >= 0 ==> r == variants[ImageIndex(variants, url)].id
  {
    var k := ImageIndex(variants, url);
    if k == -1 then None else variants[k].id
  }

  /** `variantId && handleSelectChange(variantId)`: selection by the variant
      showing `url`, skipped when that variant has no (or an empty) id. */
  function SelectByImage(s: FormState, variants: seq<OfferVariant>, url: string): (r: FormState)
    requires EveryVariantHasImage(variants)
    ensures VariantIdForImage(variants, url).None? || VariantIdForImage(variants, url) == Some("") ==> r == s
    ensures VariantIdForImage(variants, url).Some? && VariantIdForImage(variants, url) != Some("") ==>
              r == SelectVariant(s, variants, VariantIdForImage(variants, url).value)
  {
    var id := VariantIdForImage(variants, url);
    if id.Some? && id.value != "" then SelectVariant(s, variants, id.value) else s
  }

  /** The slider's arrow buttons (`direction` 1 for next, -1 for previous);
      they exist only when the slider is shown. */
  function ChangeImage(s: FormState, variants: seq<OfferVariant>, direction: int): (r: FormState)
    requires EveryVariantHasImage(variants)
    requires SliderVisible(variants) && (direction == 1 || direction == -1)
    ensures r.quantity == s.quantity
    ensures var k := NextImageIndex(ImageIndex(variants, s.imageSrc), direction, |variants|);
            && 0 <= k < |variants|
            && var id := VariantIdForImage(variants, variants[k].fields.image.value.url);
            && (id.None? || id == Some("") ==> r == s)
            && (id.Some? && id != Some("") ==> r.variantId == id.value && r == SelectVariant(s, variants, id.value))
  {
    var n := |variants|;
    var k := NextImageIndex(ImageIndex(variants, s.imageSrc), direction, n);
    var url := variants[k].fields.image.value.url;
    var j := ImageIndex(variants, url);
    assert 0 <= j;
    var id := VariantIdForImage(variants, url);
    assert id.Some? && id != Some("") ==> FindVariant(variants, id.value).Some? by {
      if id.Some? && id != Some("") {
        assert variants[j].id == Some(id.value);
      }
    }
    SelectByImage(s, variants, url)
  }

  /** Clicking a thumbnail is `SelectByImage` on its url: it selects the
      variant showing it, keeping the quantity. */
  function ClickImage(s: FormState, variants: seq<OfferVariant>, url: string): (r: FormState)
    requires EveryVariantHasImage(variants)
    ensures ImageIndex(variants, url) == -1 ==> r == s
    ensures var k := ImageIndex(variants, url);
            k >= 0 && variants[k].id.Some? && variants[k].id.value != "" ==>
              && r.variantId == variants[k].id.value
              && r.imageSrc == variants[FindVariant(variants, variants[k].id.value).value].fields.image.value.url
              && r.quantity == s.quantity
  {
    SelectByImage(s, variants, url)
  }

  /** Every variant has its own image and its own non-empty id. */
  ghost predicate DistinctVariants(variants: seq<OfferVariant>) {
    && EveryVariantHasImage(variants)
    && (forall i :: 0 <= i < |variants| ==> variants[i].id.Some? && variants[i].id.value != "")
    && (forall i, j :: 0 <= i < j < |variants| ==> variants[i].fields.image.value.url != variants[j].fields.image.value.url)
    && (forall i, j :: 0 <= i < j < |variants| ==> variants[i].id != variants[j].id)
  }

  /** With distinct images and ids, selecting by the image of variant `k`
      selects variant `k`. */
  lemma SelectByImageOfVariant(s: FormState, variants: seq<OfferVariant>, k: nat)
    requires DistinctVariants(variants) && k < |variants|
    ensures SelectByImage(s, variants, variants[k].fields.image.value.url).imageSrc == variants[k].fields.image.value.url
    ensures SelectByImage(s, variants, variants[k].fields.image.value.url).variantId == variants[k].id.value
  {
    var url := variants[k].fields.image.value.url;
    assert ImageIndex(variants, url) == k;
    var id := variants[k].id.value;
    assert FindVariant(variants, id) == Some(k);
  }

  /** With distinct images and ids, "next" shows the following variant
      (wrapping around), and "previous" after "next" restores the variant
      that was shown. */
  lemma NextThenPreviousRestoresVariant(s: FormState, variants: seq<OfferVariant>, k: nat)
    requires DistinctVariants(variants) && SliderVisible(variants)
    requires k < |variants| && s.imageSrc == variants[k].fields.image.value.url
    ensures var next := ChangeImage(s, variants, 1);
            && next.imageSrc == variants[JsRem(k + 1, |variants|)].fields.image.value.url
            && ChangeImage(next, variants, -1).imageSrc == s.imageSrc
            && ChangeImage(next, variants, -1).variantId == variants[k].id.value
  {
    var n := |variants|;
    assert ImageIndex(variants, s.imageSrc) == k;
    var k1 := NextImageIndex(k, 1, n);
    assert k1 == JsRem(k + 1, n) by {
      JsRemWrap(k + 1 + n, n);
      JsRemWrap(k + 1, n);
    }
    SelectByImageOfVariant(s, variants, k1);
    var next := ChangeImage(s, variants, 1);
    assert ImageIndex(variants, next.imageSrc) == k1;
    NextThenPrevious(k, n);
    SelectByImageOfVariant(next, variants, k);
  }

  // ---------------------------------------------------------------------
  // Quantity error
  // ---------------------------------------------------------------------

  const ExceedsStock := "Quantity exceeds available stock"
  const AtLeastOne := "Quantity must be at least 1"

  /** The quantity field's error: checked only when a stock limit is set
      (and is not 0); above the limit first, then below 1. A NaN quantity
      compares false both ways. */
  function QuantityError(quantity: JsNum, maxQuantity: Option<int>): (r: Option<string>)
    ensures maxQuantity.None? || maxQuantity == Some(0) ==> r.None?
    ensures r.Some? ==> r.value == ExceedsStock || r.value == AtLeastOne
    ensures r == Some(ExceedsStock) ==> quantity.Num? && quantity.value > maxQuantity.value
    ensures r == Some(AtLeastOne) ==> quantity.Num? && quantity.value < 1
  {
    if maxQuantity.None? || maxQuantity.value == 0 then None
    else if quantity.Num? && quantity.value > maxQuantity.value then Some(ExceedsStock)
    else if quantity.Num? && quantity.value < 1 then Some(AtLeastOne)
    else None
  }

  /** With a stock limit set, a numeric quantity is accepted exactly when it
      lies in `1..max`; above the limit wins over below 1. */
  lemma QuantityErrorWithLimit(q: int, max: int)
    requires max != 0
    ensures QuantityError(Num(q), Some(max)).None? <==> 1 <= q <= max
    ensures q > max ==> QuantityError(Num(q), Some(max)) == Some(ExceedsStock)
    ensures q <= max && q < 1 ==> QuantityError(Num(q), Some(max)) == Some(AtLeastOne)
  {
  }

  // ---------------------------------------------------------------------
  // Changes
  // ---------------------------------------------------------------------

  /** `{...template, variantId, quantity}`: the template (possibly missing)
      with only the variant and the quantity replaced. */
  function OverrideChange(template: Option<Change>, variantId: VariantRef, quantity: JsNum): (r: Change)
    ensures r.variantId == variantId && r.quantity == Some(quantity)
    ensures template.Some? ==> r.kind == template.value.kind && r.discount == template.value.discount
    ensures template.None? ==> r.kind.None? && r.discount.None?
  {
    match template
    case None => Change(None, variantId, Some(quantity), None)
    case Some(c) => c.(variantId := variantId, quantity := Some(quantity))
  }

  /** The change sent to `calculateChangeset`: the variant id through
      `Number()`. */
  function CalculateChange(o: PurchaseOption, s: FormState): (r: Change)
    ensures r.variantId == VariantNumber(ToNumber(s.variantId)) && r.quantity == Some(s.quantity)
    ensures FirstChange(o).Some? ==> r.kind == o.changes[0].kind && r.discount == o.changes[0].discount
    ensures AllDigits(s.variantId) ==> r.variantId.num.Num?
  {
    OverrideChange(FirstChange(o), VariantNumber(ToNumber(s.variantId)), s.quantity)
  }

  /** The change sent to be signed: the variant id as text. */
  function AcceptChange(o: PurchaseOption, s: FormState): (r: Change)
    ensures r.variantId == VariantText(s.variantId) && r.quantity == Some(s.quantity)
    ensures FirstChange(o).Some? ==> r.kind == o.changes[0].kind && r.discount == o.changes[0].discount
    ensures FirstChange(o).None? ==> r.kind.None? && r.discount.None?
  {
    OverrideChange(FirstChange(o), VariantText(s.variantId), s.quantity)
  }

  /** Both changes carry the same template fields, quantity and variant;
      they differ only in how the variant id is written. */
  lemma CalculateAndAcceptAgree(o: PurchaseOption, s: FormState, n: nat)
    requires s.variantId == NatToString(n)
    ensures CalculateChange(o, s).kind == AcceptChange(o, s).kind
    ensures CalculateChange(o, s).discount == AcceptChange(o, s).discount
    ensures CalculateChange(o, s).quantity == AcceptChange(o, s).quantity
    ensures CalculateChange(o, s).variantId == VariantNumber(Num(n))
    ensures AcceptChange(o, s).variantId == VariantText(NatToString(n))
  {
    ToNumberOfNatToString(n);
  }

  // ---------------------------------------------------------------------
  // The request bodies
  // ---------------------------------------------------------------------

  /** A JavaScript number as JSON: NaN serialises as `null`. */
  function NumberJson(n: JsNum): Json {
    match n
    case NaN => JNull
    case Num(v) => JNum(v as real)
  }

  function DiscountJson(d: Discount): Json {
    JObj(map["value" := JNum(d.value as real), "valueType" := JStr(d.valueType), "title" := JStr(d.title)])
  }

  function VariantRefJson(v: VariantRef): Option<Json> {
    match v
    case NoVariant => None
    case VariantText(t) => Some(JStr(t))
    case VariantNumber(n) => Some(NumberJson(n))
  }

  /** A change as the JSON object it serialises to (the kind under `type`;
      absent fields dropped). */
  function ChangeJson(c: Change): (r: Json)
    ensures r.JObj?
    ensures "type" in r.fields <==> c.kind.Some?
    ensures c.kind.Some? ==> r.fields["type"] == JStr(c.kind.value)
    ensures "variantId" in r.fields <==> !c.variantId.NoVariant?
    ensures "quantity" in r.fields <==> c.quantity.Some?
    ensures c.quantity.Some? ==> r.fields["quantity"] == NumberJson(c.quantity.value)
    ensures "discount" in r.fields <==> c.discount.Some?
    ensures c.discount.Some? ==> r.fields["discount"] == DiscountJson(c.discount.value)
    ensures r.fields.Keys <= {"type", "variantId", "quantity", "discount"}
    ensures "variantId" in r.fields ==> VariantRefJson(c.variantId) == Some(r.fields["variantId"])
  {
    JObj(OptionalField("type", if c.kind.Some? then Some(JStr(c.kind.value)) else None)
         + OptionalField("variantId", VariantRefJson(c.variantId))
         + OptionalField("quantity", if c.quantity.Some? then Some(NumberJson(c.quantity.value)) else None)
         + OptionalField("discount", if c.discount.Some? then Some(DiscountJson(c.discount.value)) else None))
  }

  /** The body posted to the sign-changeset endpoint on accept:
      `{sub: referenceId, changes: [change]}`. */
  function SignRequestBody(referenceId: string, o: PurchaseOption, s: FormState): (r: Json)
    ensures r.JObj? && r.fields.Keys == {"sub", "changes"}
    ensures r == TopLevelBody(r.fields["sub"], r.fields["changes"])
    ensures r.fields["sub"] == JStr(referenceId)
    ensures r.fields["changes"] == JArr([ChangeJson(AcceptChange(o, s))])
  {
    TopLevelBody(JStr(referenceId), JArr([ChangeJson(AcceptChange(o, s))]))
  }

  // ---------------------------------------------------------------------
  // Currency label
  // ---------------------------------------------------------------------

  /** `formatCurrency`: "Free" for a falsy amount (0 or NaN, the latter
      written None), else `$` and the amount to two decimals. The decimal
      rendering `toFixed(2)` is an input. */
  function FormatCurrency(amount: Option<real>, toFixed2: real -> string): (r: string)
    ensures r == "Free" <==> amount.None? || amount == Some(0.0)
    ensures amount.Some? && amount.value != 0.0 ==> r == "$" + toFixed2(amount.value)
  {
    if amount.None? || amount.value == 0.0 then "Free"
    else
      var r := "$" + toFixed2(amount.value);
      assert r[0] != "Free"[0];
      r
  }
}
