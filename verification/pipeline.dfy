/** Properties of the whole offer flow, across the server routes and the
    checkout extension: what the extension does with the offer the server
    answers, what it asks the server to sign, and what it records. */
module Pipeline {
  import opened Wrappers
  import opened JsText
  import opened Models
  import opened OfferCompiler
  import opened FunnelStore
  import opened OfferRoute
  import opened SignChangeset
  import opened Statistics
  import CheckoutExtension

  /** An offer the server answers always has a variant, so the extension
      renders it exactly when every variant came back with an image, and
      its form then starts on the first variant with quantity 1. */
  lemma ServedOfferRenders(
    session: CheckoutSession, table: seq<Funnel>, sessions: map<string, string>,
    catalog: (string, string) -> Option<CatalogProduct>)
    requires Action(session, table, sessions, catalog).Success?
    requires Action(session, table, sessions, catalog).value.Offer?
    ensures var offer := Action(session, table, sessions, catalog).value;
            && |offer.option.variants| > 0
            && (CheckoutExtension.ShouldRenderCorrected(offer) <==> EveryVariantHasImage(offer.option.variants))
            && (CheckoutExtension.InitialState(offer).Success? <==> EveryVariantHasImage(offer.option.variants))
            && (EveryVariantHasImage(offer.option.variants) ==>
                  CheckoutExtension.InitialState(offer).value.quantity == Num(1))
  {
    var offer := Action(session, table, sessions, catalog).value;
    var common := CommonGids(session, table);
    ActionQueriesOffer(session, table, sessions, catalog);
    var f := SelectFunnel(table, common, session.shopDomain).value;
    assert Compile(f, catalog(f.offerProductId, sessions[session.shopDomain])) == Success(offer.option);
    assert CheckoutExtension.FirstChange(offer.option) == Some(offer.option.changes[0]);
  }

  /** When no funnel matches, the server answers `null` or the empty list;
      the hook as written still asks to render and the form cannot be
      built, while the corrected hook declines. */
  lemma UnmatchedCheckoutCrashes(
    session: CheckoutSession, table: seq<Funnel>, sessions: map<string, string>,
    catalog: (string, string) -> Option<CatalogProduct>)
    requires Action(session, table, sessions, catalog).Success?
    requires !Action(session, table, sessions, catalog).value.Offer?
    ensures var offer := Action(session, table, sessions, catalog).value;
            && CheckoutExtension.ShouldRender(offer)
            && CheckoutExtension.InitialState(offer).Failure?
            && !CheckoutExtension.ShouldRenderCorrected(offer)
  {
  }

  /** Accepting the offer without touching the form asks to sign exactly the
      change the server compiled. */
  lemma UneditedAcceptSignsCompiledChange(f: Funnel, p: CatalogProduct)
    requires Compile(f, Some(p)).Success?
    requires Compile(f, Some(p)).value.variants[0].id.Some?
    requires EveryVariantHasImage(Compile(f, Some(p)).value.variants)
    ensures var o := Compile(f, Some(p)).value;
            CheckoutExtension.AcceptChange(o, CheckoutExtension.InitialState(Offer(o)).value) == o.changes[0]
  {
    var o := Compile(f, Some(p)).value;
    assert CheckoutExtension.FirstChange(o) == Some(o.changes[0]);
  }

  /** The body the extension posts on accept is signed without `sub` and
      without `changes`: the endpoint reads other fields. */
  lemma AcceptedChangeIsNotSigned(
    referenceId: string, o: PurchaseOption, s: CheckoutExtension.FormState,
    apiKey: Option<string>, jti: string, iat: int)
    ensures var p := BuildPayload(CheckoutExtension.SignRequestBody(referenceId, o, s), apiKey, jti, iat);
            && p.Success?
            && p.value.sub.None?
            && p.value.changes.None?
            && PayloadJson(p.value).fields.Keys <= {"iss", "jti", "iat"}
  {
    var change := JArr([CheckoutExtension.ChangeJson(CheckoutExtension.AcceptChange(o, s))]);
    TopLevelBodyLosesSubAndChanges(JStr(referenceId), change, apiKey, jti, iat);
  }

  /** With the corrected endpoint, the token signs the checkout's reference
      id and exactly the accepted change. */
  lemma AcceptedChangeIsSignedWhenCorrected(
    referenceId: string, o: PurchaseOption, s: CheckoutExtension.FormState,
    apiKey: Option<string>, secret: string, jti: string, iat: int, sign: (Json, string) -> string)
    requires secret != ""
    ensures var body := CheckoutExtension.SignRequestBody(referenceId, o, s);
            var p := BuildPayloadCorrected(body, apiKey, jti, iat).value;
            && p.sub == Some(JStr(referenceId))
            && p.changes == Some(JArr([CheckoutExtension.ChangeJson(CheckoutExtension.AcceptChange(o, s))]))
            && SignActionCorrected(body, apiKey, Some(secret), jti, iat, sign)
                 == Success(TokenResponse(sign(PayloadJson(p), secret)))
  {
  }

  /** The statistic the extension records after accepting an offer is a row
      for the matched funnel, in the checkout's shop. */
  lemma AcceptRecordsMatchedFunnel(
    session: CheckoutSession, table: seq<Funnel>, sessions: map<string, string>,
    catalog: (string, string) -> Option<CatalogProduct>,
    stats: seq<Statistic>, revenue: real, discount: real)
    requires Action(session, table, sessions, catalog).Success?
    requires Action(session, table, sessions, catalog).value.Offer?
    ensures var o := Action(session, table, sessions, catalog).value.option;
            var f := SelectFunnel(table, CommonGids(session, table), session.shopDomain).value;
            var r := StatisticUpdate(stats, session.shopDomain, ExtensionStatBody(o.id, revenue, discount));
            && r.Success?
            && r.value.table == stats + [Statistic(session.shopDomain, f.id, revenue, discount)]
  {
    OfferedFunnelWasPurchased(session, table, sessions, catalog);
    var o := Action(session, table, sessions, catalog).value.option;
    ExtensionUpdateAppendsOneRow(stats, session.shopDomain, o.id, revenue, discount);
  }
}
