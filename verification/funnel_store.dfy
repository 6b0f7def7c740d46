/** The funnel model: the queries the app runs against the funnel table,
    with the table given as an immutable sequence of rows in storage order.
    Covers the trigger-id listing, the single-row lookup, the paginated
    per-shop listing, the offer query with its highest-price selection, and
    the form validation. */
module FunnelStore {
  import opened Wrappers
  import opened JsText
  import opened Models
  import opened ProductIds
  import opened Sorting
  import opened OfferCompiler

  /** Why the store rejects a query. */
  datatype StoreError =
    | NegativeSkip   // a page below 1 makes `skip` negative, which the store refuses
    | NegativeTake   // a negative `limit`; how the store reads it is not modelled

  // ---------------------------------------------------------------------
  // Trigger ids
  // ---------------------------------------------------------------------

  /** The trigger ids of all funnels of every shop, reduced to their numeric
      tails, one entry per row in row order. */
  function TriggerIds(table: seq<Funnel>): (r: seq<Option<string>>)
    ensures |r| == |table|
    ensures forall i :: 0 <= i < |table| ==> r[i] == NumericTail(table[i].triggerProductId)
  {
    seq(|table|, i requires 0 <= i < |table| => NumericTail(table[i].triggerProductId))
  }

  /** A funnel stored with `gid://shopify/Product/N` contributes `N`,
      whatever its shop. */
  lemma TriggerIdOfStoredGid(table: seq<Funnel>, i: nat, tail: string)
    requires i < |table| && '/' !in tail
    requires table[i].triggerProductId == ProductGid(tail)
    ensures TriggerIds(table)[i] == Some(tail)
    ensures Some(tail) in TriggerIds(table)
  {
    TailOfGid("Product", tail);
  }

  // ---------------------------------------------------------------------
  // Single-row lookup
  // ---------------------------------------------------------------------

  /** The first row with the given id, or `null`. */
  function FunnelInfo(table: seq<Funnel>, id: int): (r: Option<Funnel>)
    ensures r.None? <==> forall k :: 0 <= k < |table| ==> table[k].id != id
    ensures r.Some? ==> exists k :: 0 <= k < |table| && table[k] == r.value
                          && r.value.id == id
                          && forall j :: 0 <= j < k ==> table[j].id != id
    decreases |table|
  {
    if |table| == 0 then None
    else if table[0].id == id then Some(table[0])
    else
      var r := FunnelInfo(table[1..], id);
      if r.Some? then
        var k :| 0 <= k < |table[1..]| && table[1..][k] == r.value && r.value.id == id
                 && forall j :: 0 <= j < k ==> table[1..][j].id != id;
        assert table[k + 1] == r.value;
        assert forall j :: 0 <= j < k + 1 ==> table[j].id != id by {
          forall j | 0 <= j < k + 1 ensures table[j].id != id {
            if j > 0 { assert table[j] == table[1..][j - 1]; }
          }
        }
        r
      else
        assert forall k :: 0 <= k < |table| ==> table[k].id != id by {
          forall k | 0 <= k < |table| ensures table[k].id != id {
            if k > 0 { assert table[k] == table[1..][k - 1]; }
          }
        }
        r
  }

  // ---------------------------------------------------------------------
  // Paginated listing
  // ---------------------------------------------------------------------

  /** The rows owned by `shop`, in storage order. */
  function ShopFunnels(table: seq<Funnel>, shop: string): (r: seq<Funnel>)
    ensures forall f :: f in r <==> f in table && f.shop == shop
    ensures |r| <= |table|
    decreases |table|
  {
    if |table| == 0 then []
    else
      assert forall f :: f in table <==> f == table[0] || f in table[1..] by {
        assert table == [table[0]] + table[1..];
      }
      if table[0].shop == shop then [table[0]] + ShopFunnels(table[1..], shop)
      else ShopFunnels(table[1..], shop)
  }

  /** The shop's rows keep their multiplicities: the listing's `total` is
      the number of the shop's rows, duplicates included. */
  lemma {:induction false} ShopFunnelsMultiset(table: seq<Funnel>, shop: string)
    ensures forall f :: multiset(ShopFunnels(table, shop))[f] ==
                          if f.shop == shop then multiset(table)[f] else 0
    decreases |table|
  {
    if |table| > 0 {
      ShopFunnelsMultiset(table[1..], shop);
      assert table == [table[0]] + table[1..];
    }
  }

  /** The shop filter keeps storage order: it distributes over
      concatenation. */
  lemma {:induction false} ShopFunnelsAppend(a: seq<Funnel>, b: seq<Funnel>, shop: string)
    ensures ShopFunnels(a + b, shop) == ShopFunnels(a, shop) + ShopFunnels(b, shop)
    decreases |a|
  {
    if |a| > 0 {
      assert (a + b)[1..] == a[1..] + b;
      ShopFunnelsAppend(a[1..], b, shop);
    } else {
      assert a + b == b;
    }
  }

  /** `orderBy: { updatedAt: "desc" }` as a comparator. */
  function ByUpdatedDesc(a: Funnel, b: Funnel): real {
    (b.updatedAt - a.updatedAt) as real
  }

  /** The sort key under which newest-first is ascending order. */
  function NewestFirst(f: Funnel): real {
    -(f.updatedAt as real)
  }

  /** `Math.ceil(total / limit)`. */
  function CeilDiv(total: nat, limit: int): (r: int)
    requires limit >= 1
    ensures (r - 1) * limit < total <= r * limit || (total == 0 && r == 0)
    ensures total > 0 ==> r >= 1
  {
    var q := total / limit;
    var m := total % limit;
    assert total == q * limit + m;
    if m == 0 then q else q + 1
  }

  /** The page actually served: a page past the end is pulled back to the
      last page; any other page is served as requested. */
  function ClampPage(page: int, limit: int, total: nat): (r: int)
    requires limit >= 1
    ensures page * limit > total ==> r == CeilDiv(total, limit)
    ensures page * limit <= total ==> r == page
    ensures r <= page || total == 0
    ensures page >= 1 && total > 0 ==> 1 <= r && (r - 1) * limit < total
  {
    if page * limit > total then
      var c := CeilDiv(total, limit);
      assert c <= page || total == 0 by {
        if total > 0 {
          MulLessThan(c - 1, page, limit);
        }
      }
      c
    else page
  }

  /** Multiplying by a positive factor preserves strict order. */
  lemma MulLessThan(x: int, y: int, k: int)
    requires k >= 1 && x * k < y * k
    ensures x < y
  {
    assert (y - x) * k == y * k - x * k;
  }

  /** Clamping a page that was already clamped changes nothing, so serving
      the clamped page never asks for another move. */
  lemma ClampPageIdempotent(page: int, limit: int, total: nat)
    requires limit >= 1 && total > 0
    ensures ClampPage(ClampPage(page, limit, total), limit, total) == ClampPage(page, limit, total)
  {
  }

  /** For a positive page and limit over a non-empty listing, the served
      page starts inside the listing and its window ends at
      `min(page * limit, total)`. */
  lemma ServedWindow(page: int, limit: int, total: nat)
    requires page >= 1 && limit >= 1 && total > 0
    ensures var c := ClampPage(page, limit, total);
            && 0 <= (c - 1) * limit < total
            && (c - 1) * limit + limit == c * limit
  {
    var c := ClampPage(page, limit, total);
    assert c - 1 >= 0;
    assert (c - 1) * limit >= 0;
    assert (c - 1) * limit + limit == c * limit;
  }

  /** Any window of the newest-first ordering of a shop's rows holds only
      that shop's rows, newest first. */
  lemma NewestFirstSlice(table: seq<Funnel>, shop: string, from: int, to: int)
    requires 0 <= from <= to <= |ShopFunnels(table, shop)|
    ensures var data := SortBy(ShopFunnels(table, shop), ByUpdatedDesc)[from..to];
            && (forall f :: f in data ==> f in table && f.shop == shop)
            && SortedByKey(data, NewestFirst)
  {
    var rows := ShopFunnels(table, shop);
    var ordered := SortBy(rows, ByUpdatedDesc);
    var data := ordered[from..to];
    SortByKeySorted(rows, ByUpdatedDesc, NewestFirst);
    forall f | f in data ensures f in table && f.shop == shop {
      assert f in ordered;
      assert f in multiset(ordered);
      assert f in rows;
    }
    forall i, j | 0 <= i < j < |data| ensures NewestFirst(data[i]) <= NewestFirst(data[j]) {
      assert data[i] == ordered[from + i] && data[j] == ordered[from + j];
    }
  }

  /** One page of the listing, as the listing query returns it. */
  datatype FunnelPage = FunnelPage(data: seq<Funnel>, total: nat, page: int, limit: int)

  /** The row a page ends before: `min(page * limit, total)`. */
  function PageEnd(page: int, limit: int, total: nat): int {
    if page * limit < total then page * limit else total
  }

  /** Page `current` of an ordered, non-empty listing: `skip` the rows of
      the pages before it and `take` up to `limit` rows. */
  function ServedPage(ordered: seq<Funnel>, current: int, limit: int): (r: FunnelPage)
    requires limit >= 1 && current >= 1 && (current - 1) * limit < |ordered|
    ensures r.total == |ordered| && r.page == current && r.limit == limit
    ensures 0 <= (current - 1) * limit < PageEnd(current, limit, |ordered|) <= |ordered|
    ensures 1 <= |r.data| <= limit
    ensures (current - 1) * limit + |r.data| == PageEnd(current, limit, |ordered|)
    ensures r.data == ordered[(current - 1) * limit .. PageEnd(current, limit, |ordered|)]
  {
    var skip := (current - 1) * limit;
    assert 0 <= skip && skip + limit == current * limit;
    FunnelPage(ordered[skip..PageEnd(current, limit, |ordered|)], |ordered|, current, limit)
  }

  /** The shop's funnels, newest first, one page of `limit` rows. */
  function ListFunnels(table: seq<Funnel>, shop: string, page: int, limit: int): (r: Result<FunnelPage, StoreError>)
    // zero funnels: empty data, the requested page echoed
    ensures |ShopFunnels(table, shop)| == 0 ==> r == Success(FunnelPage([], 0, page, limit))
    ensures r.Success? ==> r.value.total == |ShopFunnels(table, shop)| && r.value.limit == limit
    // a positive page and limit are served from the clamped page, never empty
    ensures |ShopFunnels(table, shop)| > 0 && page >= 1 && limit >= 1 ==>
              && r.Success?
              && r.value.page == ClampPage(page, limit, |ShopFunnels(table, shop)|)
              && 1 <= r.value.page
              && 1 <= |r.value.data| <= limit
              && (r.value.page - 1) * limit + |r.value.data|
                   == (if r.value.page * limit < r.value.total then r.value.page * limit else r.value.total)
    ensures |ShopFunnels(table, shop)| > 0 && page < 1 && limit >= 1 ==> r == Failure(NegativeSkip)
    ensures |ShopFunnels(table, shop)| > 0 && limit < 0 ==> r == Failure(NegativeTake)
    // every row shown belongs to the shop, newest first
    ensures r.Success? ==>
              && |r.value.data| <= (if limit > 0 then limit else 0)
              && (forall f :: f in r.value.data ==> f in table && f.shop == shop)
              && SortedByKey(r.value.data, NewestFirst)
  {
    var rows := ShopFunnels(table, shop);
    var total := |rows|;
    if total == 0 then Success(FunnelPage([], total, page, limit))
    else if limit < 0 then Failure(NegativeTake)
    else if limit == 0 then
      // page * 0 > total never holds, so the page is echoed and `take: 0` is empty
      Success(FunnelPage([], total, page, limit))
    else
      var current := ClampPage(page, limit, total);
      // with limit >= 1, skip = (current - 1) * limit is negative exactly
      // when current < 1, which happens exactly when page < 1
      if current < 1 then Failure(NegativeSkip)
      else
        ServedWindow(page, limit, total);
        var served := ServedPage(SortBy(rows, ByUpdatedDesc), current, limit);
        NewestFirstSlice(table, shop, (current - 1) * limit, PageEnd(current, limit, total));
        Success(served)
  }

  /** The rows of a served page are the `skip`/`take` window of the shop's
      rows ordered newest first: from `(page - 1) * limit` up to
      `min(page * limit, total)`, at the clamped page. */
  lemma ListFunnelsWindow(table: seq<Funnel>, shop: string, page: int, limit: int)
    requires |ShopFunnels(table, shop)| > 0 && page >= 1 && limit >= 1
    ensures var r := ListFunnels(table, shop, page, limit);
            && r.Success?
            && 0 <= (r.value.page - 1) * limit < PageEnd(r.value.page, limit, r.value.total) <= r.value.total
            && r.value.data == SortBy(ShopFunnels(table, shop), ByUpdatedDesc)
                                 [(r.value.page - 1) * limit .. PageEnd(r.value.page, limit, r.value.total)]
  {
    ListFunnelsServesPage(table, shop, page, limit);
    ServedPageWindow(SortBy(ShopFunnels(table, shop), ByUpdatedDesc),
                     ClampPage(page, limit, |ShopFunnels(table, shop)|), limit,
                     ListFunnels(table, shop, page, limit).value);
  }

  /** The served page's window, read off the page itself. */
  lemma ServedPageWindow(ordered: seq<Funnel>, current: int, limit: int, p: FunnelPage)
    requires limit >= 1 && current >= 1 && (current - 1) * limit < |ordered|
    requires p == ServedPage(ordered, current, limit)
    ensures 0 <= (p.page - 1) * limit < PageEnd(p.page, limit, p.total) <= p.total == |ordered|
    ensures p.data == ordered[(p.page - 1) * limit .. PageEnd(p.page, limit, p.total)]
  {
  }

  /** A positive page of a non-empty listing is the served page at the
      clamped page number. */
  lemma ListFunnelsServesPage(table: seq<Funnel>, shop: string, page: int, limit: int)
    requires |ShopFunnels(table, shop)| > 0 && page >= 1 && limit >= 1
    ensures var total := |ShopFunnels(table, shop)|;
            && 1 <= ClampPage(page, limit, total)
            && (ClampPage(page, limit, total) - 1) * limit < total
            && ListFunnels(table, shop, page, limit)
                 == Success(ServedPage(SortBy(ShopFunnels(table, shop), ByUpdatedDesc), ClampPage(page, limit, total), limit))
  {
    ServedWindow(page, limit, |ShopFunnels(table, shop)|);
  }

  // ---------------------------------------------------------------------
  // The offer query
  // ---------------------------------------------------------------------

  /** The shop's funnels whose trigger id is one of `ids`. */
  function Candidates(table: seq<Funnel>, ids: seq<string>, shop: string): (r: seq<Funnel>)
    ensures forall f :: f in r <==> f in table && f.shop == shop && f.triggerProductId in ids
    decreases |table|
  {
    if |table| == 0 then []
    else
      assert forall f :: f in table <==> f == table[0] || f in table[1..] by {
        assert table == [table[0]] + table[1..];
      }
      var f := table[0];
      if f.shop == shop && f.triggerProductId in ids then [f] + Candidates(table[1..], ids, shop)
      else Candidates(table[1..], ids, shop)
  }

  /** `orderBy: { offerProductPrice: "desc" }` as a comparator. */
  function ByPriceDesc(a: Funnel, b: Funnel): real {
    b.offerProductPrice - a.offerProductPrice
  }

  /** The sort key under which the most expensive offer comes first. */
  function DearestFirst(f: Funnel): real {
    -f.offerProductPrice
  }

  /** The funnel the offer query picks: the first row after ordering the
      candidates by cached offer price, highest first. */
  function SelectFunnel(table: seq<Funnel>, ids: seq<string>, shop: string): (r: Option<Funnel>)
    ensures r.None? <==> forall f :: f in table ==> !(f.shop == shop && f.triggerProductId in ids)
    ensures r.Some? ==>
              && r.value in table
              && r.value.shop == shop
              && r.value.triggerProductId in ids
              && forall g :: g in table && g.shop == shop && g.triggerProductId in ids ==>
                   g.offerProductPrice <= r.value.offerProductPrice
  {
    var candidates := Candidates(table, ids, shop);
    var ranked := SortBy(candidates, ByPriceDesc);
    if |ranked| == 0 then
      assert forall f :: f in candidates ==> f in multiset(ranked);
      None
    else
      SortByKeySorted(candidates, ByPriceDesc, DearestFirst);
      assert ranked[0] in multiset(candidates);
      assert forall g :: g in candidates ==> g.offerProductPrice <= ranked[0].offerProductPrice by {
        forall g | g in candidates ensures g.offerProductPrice <= ranked[0].offerProductPrice {
          assert g in multiset(ranked);
          HeadIsLeast(ranked, DearestFirst, g);
        }
      }
      Some(ranked[0])
  }

  /** `getOffer`: the selected funnel compiled against the catalog record of
      its offer product, or the empty array when no funnel matches. The
      catalog query is the input `catalog(productId, accessToken)`. */
  function GetOffer(
    table: seq<Funnel>, ids: seq<string>, shop: string, accessToken: string,
    catalog: (string, string) -> Option<CatalogProduct>
  ): (r: Result<OfferField, OfferError>)
    ensures r == Success(EmptyList) <==> SelectFunnel(table, ids, shop).None?
    ensures r.Success? ==> r.value != NullOffer
    ensures r.Success? && r.value.Offer? ==>
              var f := SelectFunnel(table, ids, shop).value;
              && r.value.option.id == f.id
              && r.value.option.discount == f.discount
              && catalog(f.offerProductId, accessToken).Some?
              && Compile(f, catalog(f.offerProductId, accessToken)) == Success(r.value.option)
    ensures r.Failure? ==> r.error != SessionMissing
    // a selected funnel is served exactly when its offer product compiles
    ensures SelectFunnel(table, ids, shop).Some? ==>
              var f := SelectFunnel(table, ids, shop).value;
              var compiled := Compile(f, catalog(f.offerProductId, accessToken));
              && (r.Success? <==> compiled.Success?)
              && (compiled.Success? ==> r == Success(Offer(compiled.value)))
              && (compiled.Failure? ==> r == Failure(compiled.error))
  {
    match SelectFunnel(table, ids, shop)
    case None => Success(EmptyList)
    case Some(f) =>
      match Compile(f, catalog(f.offerProductId, accessToken))
      case Success(o) => Success(Offer(o))
      case Failure(e) => Failure(e)
  }

  // ---------------------------------------------------------------------
  // Form validation
  // ---------------------------------------------------------------------

  datatype FormField = FieldTitle | FieldTriggerProduct | FieldOfferProduct

  const TitleRequired := "Name is required"
  const TriggerRequired := "Trigger product is required"
  const OfferRequired := "Offer product is required"

  /** `validateFunnel`: the error map, or `undefined` when there is none. */
  function Validate(form: FunnelForm): (r: Option<map<FormField, string>>)
    ensures r.None? <==> form.title != "" && form.triggerProductId != "" && form.offerProductId != ""
    ensures r.Some? ==>
              && (FieldTitle in r.value <==> form.title == "")
              && (FieldTriggerProduct in r.value <==> form.triggerProductId == "")
              && (FieldOfferProduct in r.value <==> form.offerProductId == "")
              && (FieldTitle in r.value ==> r.value[FieldTitle] == TitleRequired)
              && (FieldTriggerProduct in r.value ==> r.value[FieldTriggerProduct] == TriggerRequired)
              && (FieldOfferProduct in r.value ==> r.value[FieldOfferProduct] == OfferRequired)
  {
    var e1: map<FormField, string> := if form.title == "" then map[FieldTitle := TitleRequired] else map[];
    var e2 := if form.triggerProductId == "" then e1[FieldTriggerProduct := TriggerRequired] else e1;
    var e3 := if form.offerProductId == "" then e2[FieldOfferProduct := OfferRequired] else e2;
    if |e3| > 0 then Some(e3)
    else
      assert FieldTitle !in e3 && FieldTriggerProduct !in e3 && FieldOfferProduct !in e3;
      None
  }

  /** The discount plays no part in validation. */
  lemma ValidateIgnoresDiscount(form: FunnelForm, discount: int)
    ensures Validate(form.(discount := discount)) == Validate(form)
  {
  }
}
