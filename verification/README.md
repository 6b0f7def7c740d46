# Post-purchase funnel offers, modelled in Dafny

The app lets a merchant define *funnels*. A funnel says that a shopper who has
just bought the trigger product is offered the offer product at a percentage
discount, on the post-purchase page of the checkout. This project models the
offer pipeline of that app as pure Dafny functions over immutable values:

- **Trigger ids and matching.** The numeric tails of the funnels' trigger
  product gids are collected. They are intersected with the purchased
  products' ids, and the common ids are turned back into product gids. The
  offer query then picks the shop's matching funnel with the highest cached
  offer price. Both the typed and the untyped offer routes are modelled.
- **Offer compile.** A matched funnel and the catalog's record of its offer
  product become the offer: variant ids are reduced to their numeric tails,
  and exactly one `add_variant` change is built, carrying the percentage
  discount.
- **Sign-changeset payload.** The claims `{iss, jti, iat, sub, changes}` are
  built from the request body and signed with the app secret.
- **Statistics.** One row is appended per accepted offer, from the request
  body with the session's shop merged in. Totals are aggregated per shop.
- **Admin list arithmetic.** This covers the dashboard loader's page and limit
  parameters, the clamp-and-redirect rule, the pagination control, the
  items-per-page selector and the table's column sort.
- **Extension form state.** Both the typed extension and the legacy untyped
  one are modelled: the should-render hook, the initial form state, variant
  selection, the image slider, the quantity error, the changes sent for
  calculation and for signing, the statistic body and the currency label.

JavaScript's own semantics are written out where the code depends on them:

| JavaScript | Model |
|---|---|
| `split("/")[4]` | `JsText.SegmentAt` |
| `Number()` | `JsText.ToNumber` |
| `parseInt` | `JsText.ParseIntPrefix` |
| `String(n)` | `JsText.IntToString` |
| truncating `%` | `JsText.JsRem` |
| truthiness | `JsNum.Truthy` |
| object spread | `Statistics.SpreadFields` |
| dropping `undefined` fields when serialising | `SignChangeset.OptionalField` |

Tables are sequences of rows in storage order. The following are inputs to the
model:

- the catalog query;
- the session table (shop to access token);
- the signer;
- the token id and issue time;
- `toFixed(2)`;
- `localeCompare`.

`Sorting.SortBy` is a stable insertion sort. It stands for both the store's
`orderBy` and `Array.prototype.sort`, and its sortedness lemma is what every
"ordered by" claim rests on.

The model follows the code on these points:

- The offer holds no computed discounted price, description or image.
- A missing catalog product makes the offer route fail rather than answer "no
  offer".
- The signing endpoint reads `referenceId` and
  `storage.initialData.offer.changes`, not the `{sub, changes}` the extension
  sends (see Findings).

## Model

| member | source | states |
|---|---|---|
| JsText.SegmentAt | app/models/Funnel.server.ts:28 | The k-th `/`-separated segment (from 0) exists iff the text has at least k slashes; it is the k-th piece of the split and contains no slash. |
| JsText.ToNumberOfIntToString | app/routes/app._index.tsx:58-61 | Writing an integer with `String()` and reading it back with `Number()` gives the integer: a page parameter survives the redirect. |
| JsText.ParseIntOfPrinted | extensions/my-post-purchase-test-extension/src/index.jsx:381-386 | `parseInt` of a printed integer followed by any non-digit text reads back that integer. |
| ProductIds.NumericTail | app/models/Funnel.server.ts:16-31 | A gid's numeric tail is present iff the gid has at least five segments, and holds no slash. |
| ProductIds.TailOfGid | app/models/Funnel.server.ts:28 | The tail of `gid://shopify/<kind>/<tail>` is `<tail>` for a slash-free kind and tail. |
| ProductIds.ProductGidRoundTrip | app/routes/api.offer.tsx:34-45 | Reducing a stored product gid to its tail and re-prefixing the tail restores the gid. |
| ProductIds.DecimalTailOfProductGid | app/routes/api.offer.tsx:20-24 | A decimal product id survives the gid round trip. |
| OfferCompiler.Compile | app/models/Funnel.server.ts:255-281 | Fails on a missing product or one without variants. Otherwise the offer keeps the funnel's id and discount, every variant's fields in catalog order with ids reduced to tails, and exactly one `add_variant` change of quantity 1 for the first variant with the funnel's percentage discount. |
| OfferCompiler.DiscountTitleEmbedsPercentage | app/models/Funnel.server.ts:277 | For an integer discount, the discount title `N% off` reads back, through `parseInt`, as the discount. |
| OfferCompiler.CompiledVariantId | app/models/Funnel.server.ts:265-268 | A catalog variant `gid://shopify/ProductVariant/N` appears in the offer with id `N`. |
| FunnelStore.TriggerIds | app/models/Funnel.server.ts:16-31 | One entry per funnel row of every shop, in row order: the numeric tail of its trigger gid. |
| FunnelStore.TriggerIdOfStoredGid | app/models/Funnel.server.ts:27-30 | A funnel stored with trigger `gid://shopify/Product/N` contributes `N`, whatever its shop. |
| FunnelStore.FunnelInfo | app/models/Funnel.server.ts:81-89 | `null` iff no row has the id; otherwise the first row with that id. |
| FunnelStore.ShopFunnels | app/models/Funnel.server.ts:43-56 | Exactly the shop's rows. |
| FunnelStore.ShopFunnelsMultiset | app/models/Funnel.server.ts:39-41 | Each of the shop's rows is kept as often as it is stored, and no row of another shop is kept. |
| FunnelStore.ShopFunnelsAppend | app/models/Funnel.server.ts:54-56 | Selecting the shop's rows keeps storage order: it distributes over concatenation. |
| FunnelStore.CeilDiv | app/models/Funnel.server.ts:52 | The number of pages: the least count of pages of `limit` rows that holds `total` rows. |
| FunnelStore.ClampPage | app/models/Funnel.server.ts:52 | A page past the end becomes the last page; any other page is kept. The result never exceeds the request and, for a positive request over rows, starts inside the listing. |
| FunnelStore.ClampPageIdempotent | app/models/Funnel.server.ts:52 | Clamping a clamped page changes nothing. |
| FunnelStore.ServedWindow | app/models/Funnel.server.ts:52-59 | The served page's window starts inside the listing. |
| FunnelStore.NewestFirstSlice | app/models/Funnel.server.ts:54-59 | Every window of the newest-first ordering holds only the shop's rows, newest first. |
| FunnelStore.ListFunnels | app/models/Funnel.server.ts:33-79 | No rows: empty data with the requested page. Otherwise, for a positive page and limit, the clamped page holds between 1 and `limit` of the shop's rows, newest first, ending at `min(page*limit, total)`. A page below 1 fails on the negative skip. Which rows the page holds is stated by `FunnelStore.ListFunnelsWindow`. |
| FunnelStore.ListFunnelsWindow | app/models/Funnel.server.ts:52-59 | For a positive page and limit over a non-empty listing, the page's rows are exactly the `skip`/`take` window of the shop's rows ordered newest first: from `(page - 1) * limit` up to `min(page * limit, total)`, at the clamped page. |
| FunnelStore.Candidates | app/models/Funnel.server.ts:112-113 | Exactly the shop's funnels whose trigger is one of the given gids. |
| FunnelStore.SelectFunnel | app/models/Funnel.server.ts:112-118 | None iff no funnel of the shop has one of the triggers. Otherwise a matching funnel whose cached offer price is at least every other match's. |
| FunnelStore.GetOffer | app/models/Funnel.server.ts:107-122 | The empty list iff nothing matches. Otherwise the selected funnel is served iff it compiles: its compiled offer, or else exactly its compile error. |
| FunnelStore.Validate | app/models/Funnel.server.ts:180-198 | No errors iff title, trigger and offer product are all non-empty. Each empty field has exactly its own message. |
| FunnelStore.ValidateIgnoresDiscount | app/models/Funnel.server.ts:180-198 | The discount never affects validation. |
| OfferRoute.PurchasedIds | app/routes/api.offer.tsx:20-24 | The line items' product ids as decimal text, in line-item order. |
| OfferRoute.Intersect | app/routes/api.offer.tsx:34-40 | Keeps exactly the purchased ids that are trigger ids, with their multiplicities. |
| OfferRoute.IntersectConcat | app/routes/api.offer.tsx:34-40 | The intersection keeps purchase order: it distributes over concatenation. |
| OfferRoute.CountCommonElements | app/routes/api.offer.tsx:34-45 | The common ids, each re-prefixed as a product gid. |
| OfferRoute.CommonGids | app/routes/api.offer.tsx:50-53 | Every gid queried is the product gid of a purchased line item whose id is a trigger id. |
| OfferRoute.Action | app/routes/api.offer.tsx:14-82 | `{offer: null}` when nothing is common or the shop has no session. An offer implies a selected funnel. Never fails for a missing session. |
| OfferRoute.PurchasedTriggerGetsOffer | app/routes/api.offer.tsx:14-82 | When a purchased product triggers one of the shop's funnels, the shop has a session and its funnels' offer products are in the catalog with variants, both routes answer the compiled offer of the selected funnel. |
| OfferRoute.OfferedFunnelWasPurchased | app/routes/api.offer.tsx:20-81 | An offer always comes from a funnel of the requesting shop whose trigger is the gid of a purchased product. |
| OfferRoute.LegacyAction | app/routes/api.offer.jsx:16-61 | Like the typed route, except that a missing session fails. |
| OfferRoute.EmptyIntersectionIgnoresSessionAndCatalog | app/routes/api.offer.tsx:58-60 | When no purchased id is a trigger id, both routes answer `{offer: null}` whatever the sessions and catalog. |
| OfferRoute.ActionQueriesOffer | app/routes/api.offer.tsx:75-81 | With common ids and a session, the answer is the offer query's answer. |
| OfferRoute.RoutesAgreeExceptOnMissingSession | app/routes/api.offer.jsx:52-58 | The two routes differ exactly when ids are common and the shop has no session. |
| Statistics.ShopRows | app/models/Statistic.server.ts:4-6 | Exactly the shop's rows. |
| Statistics.GetTotalStats | app/models/Statistic.server.ts:3-27 | The loop's totals equal the reference definition: the count of the shop's rows and the sums of their revenue and discount. No rows give zero totals. |
| Statistics.SumsAppend | app/models/Statistic.server.ts:18-24 | Revenue and discount sums distribute over concatenation. |
| Statistics.ShopRowsAppend | app/models/Statistic.server.ts:4-6 | Selecting a shop's rows distributes over concatenation. |
| Statistics.NoShopRows | app/models/Statistic.server.ts:8-16 | A table without rows of the shop selects nothing for it. |
| Statistics.OtherShopsIgnored | app/models/Statistic.server.ts:4-6 | Rows of other shops, wherever they sit, never change a shop's totals. |
| Statistics.AppendAddsToTotals | app/models/Statistic.server.ts:18-24 | Appending a row adds one order and the row's amounts to its shop's totals. |
| Statistics.RowOf | app/models/Statistic.server.ts:29-34 | A row is created only from data with exactly the four statistic columns, and it carries their values. |
| Statistics.AddOneToStatistic | app/models/Statistic.server.ts:29-35 | Appends exactly the created row and leaves the existing rows unchanged; fails iff the data is not a statistic. |
| Statistics.IndexFields | app/routes/api.statistic-update.jsx:39 | Spreading an array or a string yields only all-digit keys. |
| Statistics.MergeRecord | app/routes/api.statistic-update.jsx:39 | `{shop, ...body}` holds `shop` and the body's own keys. The body's values win, and the session's shop stays unless the body has its own. |
| Statistics.OnlyObjectsOverrideShop | app/routes/api.statistic-update.jsx:39 | A non-object body never overrides the session's shop. |
| Statistics.StatisticUpdate | app/routes/api.statistic-update.jsx:31-42 | Succeeds iff the merged record is a statistic, then answers `{success: true}` and appends exactly that row. |
| Statistics.ExtensionUpdateAppendsOneRow | app/routes/api.statistic-update.jsx:31-42 | The extension's body appends one row with the session's shop and the body's amounts, and the shop's totals grow by one order and those amounts. |
| Statistics.BodyShopOverridesSession | app/routes/api.statistic-update.jsx:39 | A `shop` in the body is recorded instead of the session's shop. |
| Statistics.RepeatedPostAppendsTwice | app/routes/api.statistic-update.jsx:39 | Posting the same body twice appends two identical rows: nothing is deduplicated. |
| SignChangeset.Field | app/routes/api.sign-changeset.jsx:23 | A property is present iff the value is an object with that key. |
| SignChangeset.Then | app/routes/api.sign-changeset.jsx:17 | `undefined` and `null` stop an optional chain. |
| SignChangeset.SelectedFunnel | app/routes/api.sign-changeset.jsx:17 | `body.storage.initialData.offer` is present iff every link of the chain is an object with the next key, and it is the value found there. |
| SignChangeset.PayloadJson | app/routes/api.sign-changeset.jsx:19-25 | The serialised claims hold `jti` and `iat`, plus `iss`, `sub` and `changes` exactly when present, each with its value. |
| SignChangeset.DistinctJtiDistinctPayloads | app/routes/api.sign-changeset.jsx:20-22 | Distinct token ids always give distinct serialised payloads. |
| SignChangeset.BuildPayload | app/routes/api.sign-changeset.jsx:15-25 | Fails iff the body is `null`. Otherwise `sub` is the body's `referenceId` and `changes` is read under `storage.initialData.offer`. |
| SignChangeset.SignAction | app/routes/api.sign-changeset.jsx:10-29 | Fails on a `null` body or a missing or empty secret. Otherwise answers `{token}` holding the signed serialised payload. |
| SignChangeset.SignedClaims | app/routes/api.sign-changeset.jsx:17-27 | The signed claims hold at most the five names; `sub` is present iff the body has a `referenceId`, and `changes` iff the whole chain exists. |
| SignChangeset.TopLevelBodyLosesSubAndChanges | app/routes/api.sign-changeset.jsx:17-24 | For a body `{sub, changes}`, the payload carries neither `sub` nor `changes`. |
| SignChangeset.BuildPayloadCorrected | app/routes/api.sign-changeset.jsx:15-25 | The corrected reading: `sub` and `changes` are taken from the body's top level. |
| SignChangeset.SignActionCorrected | app/routes/api.sign-changeset.jsx:10-29 | The action with the corrected reading, with the same error cases. |
| SignChangeset.CorrectedKeepsSubAndChanges | app/routes/api.sign-changeset.jsx:19-25 | With the corrected reading, a `{sub, changes}` body is signed with exactly that `sub` and those `changes`. |
| AdminIndex.NumberParam | app/routes/app._index.tsx:47-48 | A missing, empty, non-numeric or zero parameter gives the default; otherwise its numeric value. |
| AdminIndex.Loader | app/routes/app._index.tsx:45-69 | Fails iff the listing fails. It redirects, with the served page, iff that page differs from the requested one; otherwise it renders the listing with the requested page. |
| AdminIndex.RedirectIsFinal | app/routes/app._index.tsx:58-61 | Following the loader's redirect renders without redirecting again. |
| AdminIndex.RenderedPageIsNonEmpty | app/routes/app._index.tsx:63-68 | A rendered page of a non-empty listing shows between 1 and `limit` rows. |
| AdminIndex.Pagination | app/routes/app._index.tsx:421-430 | "Next" iff rows lie beyond this page; "previous" iff the page is above 1. The label's range ends at `min(page*limit, total)`. |
| AdminIndex.PaginationMatchesListedRows | app/routes/app._index.tsx:421-430 | For a listed page, the label's range counts exactly the rows listed. "Next" is offered iff rows remain after them, "previous" iff rows precede them. |
| AdminIndex.WindowArithmetic | app/routes/app._index.tsx:422-429 | The same agreement from the window's bounds alone. |
| AdminIndex.PaginationMatchesRenderedRows | app/routes/app._index.tsx:421-430 | On a rendered page, the label's range counts exactly the rows rendered. |
| AdminIndex.NextParams | app/routes/app._index.tsx:159-165 | Only `page` changes, and it reads back as one more. |
| AdminIndex.PreviousParams | app/routes/app._index.tsx:167-174 | Only `page` changes, and it reads back as one less. |
| AdminIndex.ChangeLimit | app/routes/app._index.tsx:412-419 | Sets `limit`, resets `page` to 1 and keeps every other parameter. |
| AdminIndex.NextIsServedAsIs | app/routes/app._index.tsx:159-165 | When "next" is offered, following it renders the next page without a redirect. |
| AdminIndex.NextPageInRange | app/routes/app._index.tsx:422 | The page after one that ends before the last row is never clamped. |
| AdminIndex.ChangeLimitIsServedAsIs | app/routes/app._index.tsx:412-419 | Choosing a positive limit renders page 1 with that limit, never redirecting. |
| AdminIndex.CompareRows | app/routes/app._index.tsx:258-271 | Two numbers order by the direction, and swapping them negates the result. Two texts follow `collate`, with the arguments swapped for a descending sort. Any other pair ties. Stated by `AdminIndex.CompareRowsDecides`. |
| AdminIndex.CompareRowsDecides | app/routes/app._index.tsx:258-271 | Two numbers order by the direction, and swapping them negates the result. Two texts follow `collate`, with the arguments swapped for a descending sort. Any other pair ties. |
| AdminIndex.SortCurrency | app/routes/app._index.tsx:253-272 | The sorted rows are a permutation of the input. |
| AdminIndex.SortNumericColumn | app/routes/app._index.tsx:266-267 | On a column of numbers, ascending order gives non-decreasing and descending order non-increasing numbers. |
| AdminIndex.SortOtherColumnKeepsOrder | app/routes/app._index.tsx:268-270 | On a column with neither texts nor numbers, the order is kept. |
| CheckoutExtension.FirstChange | extensions/my-post-purchase-test-extension/src/index.tsx:78 | The first change iff there is one. |
| CheckoutExtension.InitialQuantity | extensions/my-post-purchase-test-extension/src/index.tsx:78 | The change's quantity when it is truthy, else 1; always truthy. |
| CheckoutExtension.StockLimit | extensions/my-post-purchase-test-extension/src/index.tsx:83 | No limit iff the stock reads 0. |
| CheckoutExtension.InitialState | extensions/my-post-purchase-test-extension/src/index.tsx:70-131 | Fails for a `null` offer, the empty list, an offer without variants, or an offer with a variant whose image is `null`, since the first render reads the first variant's image and lists every variant's image. Otherwise the form shows the first variant with the initial quantity and stock limit. |
| CheckoutExtension.ShouldRender | extensions/my-post-purchase-test-extension/src/index.tsx:40-58 | As written, the hook always asks to render. |
| CheckoutExtension.ShouldRenderWithoutOffer | extensions/my-post-purchase-test-extension/src/index.tsx:40-85 | For `null` and for the empty list the hook asks to render, and building the form fails. |
| CheckoutExtension.ShouldRenderCorrected | extensions/my-post-purchase-test-extension/src/index.tsx:40-85 | Renders iff the form can be built: an offer with variants, each with an image. |
| CheckoutExtension.FindVariant | extensions/my-post-purchase-test-extension/src/index.tsx:92-94 | The first variant with the id, or none iff no variant has it. |
| CheckoutExtension.SelectVariant | extensions/my-post-purchase-test-extension/src/index.tsx:90-117 | An unknown id changes nothing. Otherwise the form takes the variant's fields and stock and keeps the quantity. |
| CheckoutExtension.SelectVariantIdempotent | extensions/my-post-purchase-test-extension/src/index.tsx:90-117 | Selecting twice equals selecting once, and the result depends on the old form only through its quantity. |
| CheckoutExtension.ChangeQuantity | extensions/my-post-purchase-test-extension/src/index.tsx:313-315 | Only the quantity changes, to the field's text through `Number()`. |
| CheckoutExtension.ImageIndex | extensions/my-post-purchase-test-extension/src/index.tsx:140-142 | -1 iff no variant shows the image; otherwise the first variant showing it. |
| CheckoutExtension.NextImageIndex | extensions/my-post-purchase-test-extension/src/index.tsx:148-150 | From any index, including -1, one step either way lands inside the slider. |
| CheckoutExtension.SliderMovesImage | extensions/my-post-purchase-test-extension/src/index.tsx:135 | The slider is shown iff an arrow step moves away from every image, that is, iff there are at least two variants. |
| CheckoutExtension.NextThenPrevious | extensions/my-post-purchase-test-extension/src/index.tsx:147-165 | Forward then back, or back then forward, returns to the same index. |
| CheckoutExtension.VariantIdForImage | extensions/my-post-purchase-test-extension/src/index.tsx:154-156 | The id of the first variant showing the image, or none when no variant shows it. |
| CheckoutExtension.ChangeImage | extensions/my-post-purchase-test-extension/src/index.tsx:147-161 | An arrow step finds the image at the next index inside the slider and takes the id of the first variant showing that image. It then makes exactly the selection of that id: the first variant carrying the id, with its title, image, alt text and stock, keeping the quantity. Nothing changes when the id is missing or empty. |
| CheckoutExtension.SelectByImage | extensions/my-post-purchase-test-extension/src/index.tsx:154-161 | Selects the variant showing the image, and is skipped when that variant has no id or an empty one. |
| CheckoutExtension.ClickImage | extensions/my-post-purchase-test-extension/src/index.tsx:170-175 | A click on an image whose first variant has a non-empty id selects that id, with the image of the first variant carrying it, and keeps the quantity. A foreign image changes nothing. |
| CheckoutExtension.SelectByImageOfVariant | extensions/my-post-purchase-test-extension/src/index.tsx:154-175 | With distinct images and ids, selecting by variant k's image selects variant k. |
| CheckoutExtension.NextThenPreviousRestoresVariant | extensions/my-post-purchase-test-extension/src/index.tsx:147-165 | With distinct images and ids, "next" shows the following variant, and "previous" then restores the variant shown before. |
| CheckoutExtension.QuantityError | extensions/my-post-purchase-test-extension/src/index.tsx:380-388 | No error without a stock limit. "Exceeds" only above the limit and "at least 1" only below 1; NaN never errs. |
| CheckoutExtension.QuantityErrorWithLimit | extensions/my-post-purchase-test-extension/src/index.tsx:380-388 | With a limit, an integer quantity is accepted iff it lies in `1..max`, and "exceeds" wins over "at least 1". |
| CheckoutExtension.OverrideChange | extensions/my-post-purchase-test-extension/src/index.tsx:196-200 | The template's fields with only the variant and quantity replaced. |
| CheckoutExtension.CalculateChange | extensions/my-post-purchase-test-extension/src/index.tsx:192-201 | The template with the variant id through `Number()` and the form's quantity. A decimal id yields a number. |
| CheckoutExtension.AcceptChange | extensions/my-post-purchase-test-extension/src/index.tsx:265-269 | The template with the variant id as text and the form's quantity. |
| CheckoutExtension.CalculateAndAcceptAgree | extensions/my-post-purchase-test-extension/src/index.tsx:192-269 | The calculated and accepted changes agree in every field; only the variant id's spelling differs. |
| CheckoutExtension.ChangeJson | extensions/my-post-purchase-test-extension/src/index.tsx:262-271 | A change serialises to an object holding exactly its present fields, at most `type`, `variantId`, `quantity` and `discount`. The variant id keeps its text or number form, the discount keeps its value, type and title, and a NaN quantity becomes `null`. |
| CheckoutExtension.SignRequestBody | extensions/my-post-purchase-test-extension/src/index.tsx:262-271 | The posted body holds exactly `sub` (the reference id) and `changes` (the one accepted change). |
| CheckoutExtension.FormatCurrency | extensions/my-post-purchase-test-extension/src/index.tsx:480-485 | "Free" iff the amount is falsy; otherwise `$` and the two-decimal rendering. |
| LegacyExtension.InitialImage | extensions/my-post-purchase-test-extension/src/index.jsx:61-64 | Prefers a non-empty product image over the first variant's image. |
| LegacyExtension.InitialState | extensions/my-post-purchase-test-extension/src/index.jsx:57-68 | The first variant's raw id, title and stock limit, the preferred image, and the alt text or "". |
| LegacyExtension.InitialStatesAgree | extensions/my-post-purchase-test-extension/src/index.jsx:57-68 | Without a product image, the legacy form starts like the typed one, up to the raw id. |
| LegacyExtension.FindVariant | extensions/my-post-purchase-test-extension/src/index.jsx:78 | The first variant with the id. |
| LegacyExtension.SelectVariant | extensions/my-post-purchase-test-extension/src/index.jsx:70-91 | The form takes the found variant's raw fields and keeps the quantity. |
| LegacyExtension.VariantForImage | extensions/my-post-purchase-test-extension/src/index.jsx:109-111 | The first variant showing the image. |
| LegacyExtension.ChangeImage | extensions/my-post-purchase-test-extension/src/index.jsx:104-113 | The arrows take the id of the first variant showing the image at the new index, which always exists, and make exactly the selection of that id, keeping the quantity. |
| LegacyExtension.NextFromProductImage | extensions/my-post-purchase-test-extension/src/index.jsx:104-113 | From a product image no variant shows, "next" selects the first variant and "previous" the last but one. |
| LegacyExtension.QuantityError | extensions/my-post-purchase-test-extension/src/index.jsx:284-290 | "Exceeds" iff there is a limit and the quantity is above it; "at least 1" iff the quantity is below 1 and not above a limit. |
| LegacyExtension.QuantityErrorsAgreeWithLimit | extensions/my-post-purchase-test-extension/src/index.jsx:284-290 | With a non-zero limit both versions agree; without one, only the legacy version rejects quantities below 1. |
| LegacyExtension.AcceptChange | extensions/my-post-purchase-test-extension/src/index.jsx:176-185 | The template with the raw variant id and the quantity. |
| LegacyExtension.FormatCurrency | extensions/my-post-purchase-test-extension/src/index.jsx:381-386 | "Free" iff the amount text is missing, empty, or its integer prefix reads 0; otherwise `$` and the text. |
| LegacyExtension.FormatCurrencyExamples | extensions/my-post-purchase-test-extension/src/index.jsx:381-386 | "0.50" is labelled free and "12.00" is printed as given. |
| Pipeline.ServedOfferRenders | app/routes/api.offer.tsx:75-81 | An offer the route answers has a variant. It renders exactly when every variant came back with an image, and its form then starts on the first variant with quantity 1. |
| Pipeline.UnmatchedCheckoutCrashes | extensions/my-post-purchase-test-extension/src/index.tsx:40-85 | For `{offer: null}` or the empty list, the hook asks to render but the form cannot be built; the corrected hook declines. |
| Pipeline.UneditedAcceptSignsCompiledChange | extensions/my-post-purchase-test-extension/src/index.tsx:262-271 | Accepting without editing the form asks to sign exactly the compiled change. |
| Pipeline.AcceptedChangeIsNotSigned | app/routes/api.sign-changeset.jsx:19-25 | The body the extension posts is signed without `sub` and without `changes`. |
| Pipeline.AcceptedChangeIsSignedWhenCorrected | app/routes/api.sign-changeset.jsx:19-27 | With the corrected endpoint, the token signs the reference id and exactly the accepted change. |
| Pipeline.AcceptRecordsMatchedFunnel | extensions/my-post-purchase-test-extension/src/index.tsx:285-297 | The statistic recorded after an accept is a row for the matched funnel in the checkout's shop. |

## Left out

- Authentication, the store client, HTTP and the signing library are left out.
  Their effects are inputs: the session table, the catalog function, the
  signer, the token id and the issue time. The JWT library's own handling of
  `iat` is part of the signer.
- The GraphQL request of `supplementPostPurchaseFunnel` is left out, and so is
  its first-100-variants limit; the catalog's answer is an input.
- FunnelStore.ListFunnels: returns the store's raw rows. `getFunnels` passes
  every listed row through `supplementFunnel` (app/models/Funnel.server.ts:69-71),
  which adds the trigger and offer product titles the dashboard shows
  (app/routes/app._index.tsx:246-252) and throws when a product lookup fails.
  That lookup, and its throw, are left out with the rest of the GraphQL client.
- `getFunnelByTriggerProductId` is left out; it serves the admin edit page, not
  the offer pipeline.
- OfferCompiler.DiscountTitleEmbedsPercentage: the discount is an integer. The
  source types it as `number` and the edit form reads it with `Number()`, so a
  discount of 12.5 is possible there: its title "12.5% off" reads back through
  `parseInt` as 12. The store's column type is not part of this model, so the
  model keeps integer discounts and states the round trip for them only.
- Statistics.RowOf: a row is made only from an object with exactly the four
  keys `shop`, `funnelId`, `revenue` and `discount`, holding text, an integral
  number and two numbers. A body with an extra or missing column, or a
  fractional `funnelId`, is rejected. The store's schema, which decides what
  the create really accepts, is not part of this model.
- LegacyExtension.InitialState: requires at least one variant, each with an
  image, and takes the offer itself. The legacy code reads
  `purchaseOption.variants[0]` and its `image.altText` without a check, and
  lists every variant's `image.url` for the slider, so a `null` or `[]`
  offer, one without variants, or one with a variant whose image is `null`
  throws there and lies outside the model.
- CheckoutExtension.SelectVariant, CheckoutExtension.ImageIndex,
  CheckoutExtension.VariantIdForImage, CheckoutExtension.SelectByImage,
  CheckoutExtension.ChangeImage, CheckoutExtension.ClickImage and the legacy
  SelectVariant, VariantForImage and ChangeImage: require every variant to
  have an image. These handlers exist only in a rendered form, and the render
  throws on a variant whose image is `null`, which `InitialState` models as
  `VariantHasNoImage`.
- LegacyExtension.FindVariant, LegacyExtension.SelectVariant and
  LegacyExtension.VariantForImage: require the lookup to succeed. The legacy
  code dereferences the `find` result without a check, so a failed lookup
  throws there and is not modelled.
- The dashboard's delete action is left out; it is a single store delete.
- The checkout's `payments` amounts and the float arithmetic on them
  (`toFixed`, `parseFloat`) are left out. Money is an exact `real`, and the
  statistic body takes revenue and discount as inputs.
- `localeCompare` is an input `collate`, and `toFixed(2)` an input function.
- `Number()` reads only the empty text and optionally signed digit runs.
  Decimals, exponents and surrounding whitespace read as NaN. The model's
  `ParseIntPrefix` and `ToNumber` do not skip leading whitespace, which
  JavaScript's `parseInt` and `Number()` do.
- FunnelStore.ListFunnels: a negative `limit` over a non-empty listing is the
  error `NegativeTake`. How the store treats a negative `take` is not
  modelled.
- FunnelStore.SelectFunnel: ties in price, and ties in update time in
  `ListFunnels`, keep storage order. The store does not promise an order for
  ties, so the model fixes one.
- LegacyExtension.ChangeImage: the image shown after the move may belong to
  another variant than the one whose image was chosen, when two variants
  share an id.
- Rendering, the UI framework's hooks, the `calculateChangeset`,
  `applyChangeset` and `done` calls, and the `console` output are left out.

## Findings

| source | as written | input that shows it | evidently intended | confidence | as-written member | corrected member |
|---|---|---|---|---|---|---|
| app/routes/api.sign-changeset.jsx:17-24 | `sub` is read from `body.referenceId` and `changes` from `body.storage.initialData.offer.changes` | the extension's body `{sub: "R1", changes: [c]}` yields claims with neither `sub` nor `changes` | the claims carry the posted `sub` and `changes` | high; not executed | SignChangeset.TopLevelBodyLosesSubAndChanges, Pipeline.AcceptedChangeIsNotSigned | SignChangeset.BuildPayloadCorrected, SignChangeset.CorrectedKeepsSubAndChanges, Pipeline.AcceptedChangeIsSignedWhenCorrected |
| extensions/my-post-purchase-test-extension/src/index.tsx:56 | the should-render hook returns `render: true` for every offer response | a checkout with no matching funnel stores `{offer: null}` (or `[]`), and building the form then dereferences it | render only when there is an offer to show | high; not executed | CheckoutExtension.ShouldRender, CheckoutExtension.ShouldRenderWithoutOffer, Pipeline.UnmatchedCheckoutCrashes | CheckoutExtension.ShouldRenderCorrected, Pipeline.ServedOfferRenders |
