/** The offer endpoint, in its current typed version and its older untyped
    version: the purchased products' ids are intersected with the funnels'
    trigger ids, the common ids are re-prefixed into product gids, and the
    offer query runs with the shop's access token.

    The checkout session token is reduced to the two things the route reads
    (the shop domain and the line items' product ids); the session table is a
    map from shop to access token; the catalog is an input. */
module OfferRoute {
  import opened Wrappers
  import opened JsText
  import opened Models
  import opened ProductIds
  import opened FunnelStore
  import opened OfferCompiler

  /** The parts of the checkout session token the route reads. */
  datatype CheckoutSession = CheckoutSession(shopDomain: string, lineItemProductIds: seq<nat>)

  /** The line items' product ids as strings, in line-item order. */
  function PurchasedIds(productIds: seq<nat>): (r: seq<string>)
    ensures |r| == |productIds|
    ensures forall i :: 0 <= i < |r| ==> r[i] == NatToString(productIds[i])
  {
    seq(|productIds|, i requires 0 <= i < |productIds| => NatToString(productIds[i]))
  }

  /** `offersIds.filter((e) => triggersIds.includes(e))`. A trigger entry
      that is `undefined` never equals a string. */
  function Intersect(offers: seq<string>, triggers: seq<Option<string>>): (r: seq<string>)
    ensures forall x :: x in r <==> x in offers && Some(x) in triggers
    ensures forall x :: multiset(r)[x] == if Some(x) in triggers then multiset(offers)[x] else 0
    decreases |offers|
  {
    if |offers| == 0 then []
    else
      assert offers == [offers[0]] + offers[1..];
      var rest := Intersect(offers[1..], triggers);
      if Some(offers[0]) in triggers then [offers[0]] + rest else rest
  }

  /** The intersection keeps purchase order: it distributes over
      concatenation of the purchased ids. */
  lemma {:induction false} IntersectConcat(a: seq<string>, b: seq<string>, triggers: seq<Option<string>>)
    ensures Intersect(a + b, triggers) == Intersect(a, triggers) + Intersect(b, triggers)
    decreases |a|
  {
    if |a| > 0 {
      assert (a + b)[1..] == a[1..] + b;
      IntersectConcat(a[1..], b, triggers);
    } else {
      assert a + b == b;
    }
  }

  /** `countCommonElements`: the common ids, each as `gid://shopify/Product/<id>`. */
  function CountCommonElements(offers: seq<string>, triggers: seq<Option<string>>): (r: seq<string>)
    ensures |r| == |Intersect(offers, triggers)|
    ensures forall i :: 0 <= i < |r| ==> r[i] == ProductGid(Intersect(offers, triggers)[i])
  {
    var common := Intersect(offers, triggers);
    seq(|common|, i requires 0 <= i < |common| => ProductGid(common[i]))
  }

  /** The purchased product `i` is the trigger the gid `g` names. */
  ghost predicate PurchasedTrigger(session: CheckoutSession, table: seq<Funnel>, g: string, i: int) {
    && 0 <= i < |session.lineItemProductIds|
    && g == ProductGid(NatToString(session.lineItemProductIds[i]))
    && Some(NatToString(session.lineItemProductIds[i])) in TriggerIds(table)
  }

  /** The gids the current route passes to the offer query: each names a
      purchased product that is some funnel's trigger. */
  function CommonGids(session: CheckoutSession, table: seq<Funnel>): (r: seq<string>)
    ensures forall g :: g in r ==> exists i :: PurchasedTrigger(session, table, g, i)
  {
    var purchased := PurchasedIds(session.lineItemProductIds);
    var common := Intersect(purchased, TriggerIds(table));
    var r := CountCommonElements(purchased, TriggerIds(table));
    assert forall g :: g in r ==> exists i :: PurchasedTrigger(session, table, g, i) by {
      forall g | g in r ensures exists i :: PurchasedTrigger(session, table, g, i) {
        var j :| 0 <= j < |r| && r[j] == g;
        assert common[j] in purchased;
        var i :| 0 <= i < |purchased| && purchased[i] == common[j];
        assert PurchasedTrigger(session, table, g, i);
      }
    }
    r
  }

  /** The current route (`api.offer.tsx`): the response's `offer` field. */
  function Action(
    session: CheckoutSession, table: seq<Funnel>, sessions: map<string, string>,
    catalog: (string, string) -> Option<CatalogProduct>
  ): (r: Result<OfferField, OfferError>)
    ensures |CommonGids(session, table)| == 0 ==> r == Success(NullOffer)
    ensures session.shopDomain !in sessions ==> r == Success(NullOffer)
    ensures session.shopDomain in sessions && r.Success? && r.value.Offer? ==>
              SelectFunnel(table, CommonGids(session, table), session.shopDomain).Some?
    ensures r.Failure? ==> r.error != SessionMissing
  {
    var common := CommonGids(session, table);
    if |common| == 0 then Success(NullOffer)
    else
      var shop := session.shopDomain;
      if shop !in sessions then Success(NullOffer)
      else GetOffer(table, common, shop, sessions[shop], catalog)
  }

  /** An offer always comes from a funnel of the requesting shop whose
      trigger is the gid of one of the purchased products. */
  lemma OfferedFunnelWasPurchased(
    session: CheckoutSession, table: seq<Funnel>, sessions: map<string, string>,
    catalog: (string, string) -> Option<CatalogProduct>)
    requires Action(session, table, sessions, catalog).Success?
    requires Action(session, table, sessions, catalog).value.Offer?
    ensures SelectFunnel(table, CommonGids(session, table), session.shopDomain).Some?
    ensures var f := SelectFunnel(table, CommonGids(session, table), session.shopDomain).value;
            && f in table
            && f.shop == session.shopDomain
            && Action(session, table, sessions, catalog).value.option.id == f.id
            && exists i :: 0 <= i < |session.lineItemProductIds| &&
                 f.triggerProductId == ProductGid(NatToString(session.lineItemProductIds[i]))
  {
    var common := CommonGids(session, table);
    var f := SelectFunnel(table, common, session.shopDomain).value;
    var purchased := PurchasedIds(session.lineItemProductIds);
    var k :| 0 <= k < |common| && common[k] == f.triggerProductId;
    var t := Intersect(purchased, TriggerIds(table))[k];
    assert t in purchased;
    var i :| 0 <= i < |purchased| && purchased[i] == t;
    assert f.triggerProductId == ProductGid(NatToString(session.lineItemProductIds[i]));
  }

  /** A purchase of a product that triggers one of the shop's funnels gets
      an offer, from both routes, when the shop has a session and every
      funnel of the shop has an offer product with variants: the offer is
      the compiled highest-priced match. */
  lemma PurchasedTriggerGetsOffer(
    session: CheckoutSession, table: seq<Funnel>, sessions: map<string, string>,
    catalog: (string, string) -> Option<CatalogProduct>, i: nat, g: Funnel)
    requires i < |session.lineItemProductIds|
    requires g in table && g.shop == session.shopDomain
    requires g.triggerProductId == ProductGid(NatToString(session.lineItemProductIds[i]))
    requires session.shopDomain in sessions
    requires forall f :: f in table && f.shop == session.shopDomain ==>
               catalog(f.offerProductId, sessions[session.shopDomain]).Some?
               && |catalog(f.offerProductId, sessions[session.shopDomain]).value.variants| > 0
    ensures SelectFunnel(table, CommonGids(session, table), session.shopDomain).Some?
    ensures var f := SelectFunnel(table, CommonGids(session, table), session.shopDomain).value;
            var compiled := Compile(f, catalog(f.offerProductId, sessions[session.shopDomain]));
            && compiled.Success?
            && Action(session, table, sessions, catalog) == Success(Offer(compiled.value))
            && LegacyAction(session, table, sessions, catalog) == Success(Offer(compiled.value))
  {
    var shop := session.shopDomain;
    var id := NatToString(session.lineItemProductIds[i]);
    assert '/' !in id by {
      forall j | 0 <= j < |id| ensures id[j] != '/' {
        assert IsDigit(id[j]);
      }
    }
    var k :| 0 <= k < |table| && table[k] == g;
    TriggerIdOfStoredGid(table, k, id);
    var purchased := PurchasedIds(session.lineItemProductIds);
    assert purchased[i] == id;
    var common := Intersect(purchased, TriggerIds(table));
    assert id in common;
    var j :| 0 <= j < |common| && common[j] == id;
    assert CommonGids(session, table)[j] == g.triggerProductId;
    assert g.triggerProductId in CommonGids(session, table);
  }

  /** The older route (`api.offer.jsx`): identical except that a missing
      session is a failure, because it destructures `null`. */
  function LegacyAction(
    session: CheckoutSession, table: seq<Funnel>, sessions: map<string, string>,
    catalog: (string, string) -> Option<CatalogProduct>
  ): (r: Result<OfferField, OfferError>)
    ensures |CommonGids(session, table)| == 0 ==> r == Success(NullOffer)
    ensures |CommonGids(session, table)| > 0 && session.shopDomain !in sessions ==>
              r == Failure(SessionMissing)
    ensures |CommonGids(session, table)| > 0 && session.shopDomain in sessions ==>
              r == GetOffer(table, CommonGids(session, table), session.shopDomain,
                            sessions[session.shopDomain], catalog)
  {
    var common := CommonGids(session, table);
    if |common| == 0 then Success(NullOffer)
    else
      var shop := session.shopDomain;
      if shop !in sessions then Failure(SessionMissing)
      else GetOffer(table, common, shop, sessions[shop], catalog)
  }

  /** An empty intersection answers `{offer: null}` before the session table
      or the catalog is consulted: neither can change the answer. */
  lemma EmptyIntersectionIgnoresSessionAndCatalog(
    session: CheckoutSession, table: seq<Funnel>,
    sessions1: map<string, string>, catalog1: (string, string) -> Option<CatalogProduct>,
    sessions2: map<string, string>, catalog2: (string, string) -> Option<CatalogProduct>)
    requires forall i :: 0 <= i < |session.lineItemProductIds| ==>
               Some(NatToString(session.lineItemProductIds[i])) !in TriggerIds(table)
    ensures Action(session, table, sessions1, catalog1) == Success(NullOffer)
    ensures Action(session, table, sessions1, catalog1) == Action(session, table, sessions2, catalog2)
    ensures LegacyAction(session, table, sessions1, catalog1) == Success(NullOffer)
  {
  }

  /** With a session for the shop, the current route's answer is exactly the
      offer query's answer for the common gids. */
  lemma ActionQueriesOffer(
    session: CheckoutSession, table: seq<Funnel>, sessions: map<string, string>,
    catalog: (string, string) -> Option<CatalogProduct>)
    requires |CommonGids(session, table)| > 0 && session.shopDomain in sessions
    ensures Action(session, table, sessions, catalog)
              == GetOffer(table, CommonGids(session, table), session.shopDomain,
                          sessions[session.shopDomain], catalog)
  {
  }

  /** The two routes agree whenever the shop has a session, and differ only
      when it has none: `{offer: null}` against a failure. */
  lemma RoutesAgreeExceptOnMissingSession(
    session: CheckoutSession, table: seq<Funnel>, sessions: map<string, string>,
    catalog: (string, string) -> Option<CatalogProduct>)
    ensures session.shopDomain in sessions ==>
              LegacyAction(session, table, sessions, catalog) == Action(session, table, sessions, catalog)
    ensures Action(session, table, sessions, catalog) != LegacyAction(session, table, sessions, catalog) <==>
              |CommonGids(session, table)| > 0 && session.shopDomain !in sessions
  {
  }
}
