/** The statistics model and the statistic-update endpoint: one row is
    appended per call, built from the request body with the session's shop
    merged in, and totals are aggregated per shop.

    The statistic table is an append-only sequence of rows. The store's
    schema file is not part of this model: a row is accepted exactly when the
    data has the four columns of a statistic (`shop`, `funnelId`, `revenue`,
    `discount`) with the right JSON types and nothing else. */
module Statistics {
  import opened Wrappers
  import opened JsText
  import opened Models

  /** Totals shown on the dashboard. */
  datatype Totals = Totals(totalOrders: nat, totalRevenue: real, totalDiscount: real)

  const NoTotals := Totals(0, 0.0, 0.0)

  // ---------------------------------------------------------------------
  // Aggregation
  // ---------------------------------------------------------------------

  /** The rows owned by `shop`, in storage order. */
  function ShopRows(table: seq<Statistic>, shop: string): (r: seq<Statistic>)
    ensures forall s :: s in r <==> s in table && s.shop == shop
    decreases |table|
  {
    if |table| == 0 then []
    else
      assert table == [table[0]] + table[1..];
      if table[0].shop == shop then [table[0]] + ShopRows(table[1..], shop)
      else ShopRows(table[1..], shop)
  }

  function SumRevenue(rows: seq<Statistic>): real
    decreases |rows|
  {
    if |rows| == 0 then 0.0 else rows[0].revenue + SumRevenue(rows[1..])
  }

  function SumDiscount(rows: seq<Statistic>): real
    decreases |rows|
  {
    if |rows| == 0 then 0.0 else rows[0].discount + SumDiscount(rows[1..])
  }

  /** The totals by definition: the number of the shop's rows and the sums of
      their revenue and discount. */
  function ShopTotals(table: seq<Statistic>, shop: string): Totals {
    var rows := ShopRows(table, shop);
    Totals(|rows|, SumRevenue(rows), SumDiscount(rows))
  }

  lemma {:induction false} SumsAppend(a: seq<Statistic>, b: seq<Statistic>)
    ensures SumRevenue(a + b) == SumRevenue(a) + SumRevenue(b)
    ensures SumDiscount(a + b) == SumDiscount(a) + SumDiscount(b)
    decreases |a|
  {
    if |a| > 0 {
      assert (a + b)[1..] == a[1..] + b;
      SumsAppend(a[1..], b);
    } else {
      assert a + b == b;
    }
  }

  lemma {:induction false} ShopRowsAppend(a: seq<Statistic>, b: seq<Statistic>, shop: string)
    ensures ShopRows(a + b, shop) == ShopRows(a, shop) + ShopRows(b, shop)
    decreases |a|
  {
    if |a| > 0 {
      assert (a + b)[1..] == a[1..] + b;
      ShopRowsAppend(a[1..], b, shop);
    } else {
      assert a + b == b;
    }
  }

  /** `getTotalStats`: the shop's rows folded into totals, starting from
      zero. */
  method GetTotalStats(table: seq<Statistic>, shop: string) returns (t: Totals)
    ensures t == ShopTotals(table, shop)
    ensures (forall s :: s in table ==> s.shop != shop) ==> t == NoTotals
  {
    var response := ShopRows(table, shop);
    t := NoTotals;
    for i := 0 to |response|
      invariant t == Totals(i, SumRevenue(response[..i]), SumDiscount(response[..i]))
    {
      SumsAppend(response[..i], [response[i]]);
      assert response[..i + 1] == response[..i] + [response[i]];
      t := Totals(t.totalOrders + 1, t.totalRevenue + response[i].revenue,
                  t.totalDiscount + response[i].discount);
    }
    assert response[..|response|] == response;
    if forall s :: s in table ==> s.shop != shop {
      NoShopRows(table, shop);
    }
  }

  /** A table without rows of `shop` has no rows for it. */
  lemma {:induction false} NoShopRows(table: seq<Statistic>, shop: string)
    requires forall s :: s in table ==> s.shop != shop
    ensures ShopRows(table, shop) == []
    decreases |table|
  {
    if |table| > 0 {
      assert table[0] in table;
      NoShopRows(table[1..], shop);
    }
  }

  /** Rows of other shops never change a shop's totals, wherever they sit. */
  lemma OtherShopsIgnored(before: seq<Statistic>, others: seq<Statistic>, after: seq<Statistic>, shop: string)
    requires forall s :: s in others ==> s.shop != shop
    ensures ShopTotals(before + others + after, shop) == ShopTotals(before + after, shop)
  {
    ShopRowsAppend(before + others, after, shop);
    ShopRowsAppend(before, others, shop);
    ShopRowsAppend(before, after, shop);
    NoShopRows(others, shop);
    assert ShopRows(before, shop) + [] == ShopRows(before, shop);
  }

  /** Appending a row of the shop adds one order and that row's amounts. */
  lemma AppendAddsToTotals(table: seq<Statistic>, row: Statistic)
    ensures ShopTotals(table + [row], row.shop) ==
              Totals(ShopTotals(table, row.shop).totalOrders + 1,
                     ShopTotals(table, row.shop).totalRevenue + row.revenue,
                     ShopTotals(table, row.shop).totalDiscount + row.discount)
  {
    ShopRowsAppend(table, [row], row.shop);
    assert ShopRows([row], row.shop) == [row];
    SumsAppend(ShopRows(table, row.shop), [row]);
  }

  // ---------------------------------------------------------------------
  // Appending
  // ---------------------------------------------------------------------

  /** Why the store refuses to create a row. */
  datatype StatError = NotAStatistic

  /** The row the store creates from `data`, if the data has exactly the
      statistic columns with the right types. */
  function RowOf(data: map<string, Json>): (r: Option<Statistic>)
    ensures r.Some? ==> data.Keys == {"shop", "funnelId", "revenue", "discount"}
    ensures r.Some? ==>
              && data["shop"] == JStr(r.value.shop)
              && data["funnelId"] == JNum(r.value.funnelId as real)
              && data["revenue"] == JNum(r.value.revenue)
              && data["discount"] == JNum(r.value.discount)
  {
    if data.Keys == {"shop", "funnelId", "revenue", "discount"}
       && data["shop"].JStr? && data["funnelId"].JNum? && data["revenue"].JNum?
       && data["discount"].JNum?
       && data["funnelId"].n == data["funnelId"].n.Floor as real
    then Some(Statistic(data["shop"].s, data["funnelId"].n.Floor, data["revenue"].n, data["discount"].n))
    else None
  }

  /** `addOneToStatistic`: appends the created row and leaves the existing
      rows unchanged. */
  function AddOneToStatistic(table: seq<Statistic>, data: map<string, Json>): (r: Result<seq<Statistic>, StatError>)
    ensures r.Success? <==> RowOf(data).Some?
    ensures r.Success? ==>
              && |r.value| == |table| + 1
              && r.value[..|table|] == table
              && r.value[|table|] == RowOf(data).value
  {
    match RowOf(data)
    case None => Failure(NotAStatistic)
    case Some(row) => Success(table + [row])
  }

  // ---------------------------------------------------------------------
  // The statistic-update endpoint
  // ---------------------------------------------------------------------

  /** `{...items}` for an array (or the characters of a string): one key
      per index, written in decimal. */
  function IndexFields(items: seq<Json>): (r: map<string, Json>)
    ensures forall k :: k in r ==> AllDigits(k)
    decreases |items|
  {
    if |items| == 0 then map[]
    else IndexFields(items[..|items| - 1])[NatToString(|items| - 1) := items[|items| - 1]]
  }

  /** The own enumerable properties object spread copies from `body`. */
  function SpreadFields(body: Json): map<string, Json> {
    match body
    case JObj(fields) => fields
    case JArr(items) => IndexFields(items)
    case JStr(s) => IndexFields(seq(|s|, i requires 0 <= i < |s| => JStr([s[i]])))
    case _ => map[]
  }

  /** `{ shop, ...body }`: the body's fields, plus `shop` unless the body
      has its own `shop`, which then wins. */
  function MergeRecord(shop: string, body: Json): (r: map<string, Json>)
    ensures r.Keys == {"shop"} + SpreadFields(body).Keys
    ensures forall k :: k in SpreadFields(body) ==> r[k] == SpreadFields(body)[k]
    ensures "shop" !in SpreadFields(body) ==> r["shop"] == JStr(shop)
  {
    map["shop" := JStr(shop)] + SpreadFields(body)
  }

  /** Only an object body can carry a `shop` key; arrays and strings spread
      index keys. */
  lemma OnlyObjectsOverrideShop(shop: string, body: Json)
    requires !body.JObj?
    ensures MergeRecord(shop, body)["shop"] == JStr(shop)
  {
    assert "shop"[0] == 's';
    assert !AllDigits("shop");
  }

  datatype UpdateResult = UpdateResult(response: Json, table: seq<Statistic>)

  const SuccessResponse := JObj(map["success" := JBool(true)])

  /** The statistic-update action for a request from `sessionShop`. */
  function StatisticUpdate(table: seq<Statistic>, sessionShop: string, body: Json): (r: Result<UpdateResult, StatError>)
    ensures r.Success? <==> RowOf(MergeRecord(sessionShop, body)).Some?
    ensures r.Success? ==>
              && r.value.response == SuccessResponse
              && r.value.table == table + [RowOf(MergeRecord(sessionShop, body)).value]
  {
    match AddOneToStatistic(table, MergeRecord(sessionShop, body))
    case Failure(e) => Failure(e)
    case Success(t) =>
      assert t == t[..|table|] + [t[|table|]];
      Success(UpdateResult(SuccessResponse, t))
  }

  /** The body the checkout extension posts after an accepted offer. */
  function ExtensionStatBody(funnelId: int, revenue: real, discount: real): Json {
    JObj(map["funnelId" := JNum(funnelId as real), "revenue" := JNum(revenue), "discount" := JNum(discount)])
  }

  /** For the extension's body, exactly one row is appended, carrying the
      session's shop and the body's amounts, and the shop's totals grow by
      one order and those amounts. */
  lemma ExtensionUpdateAppendsOneRow(table: seq<Statistic>, shop: string, funnelId: int, revenue: real, discount: real)
    ensures var r := StatisticUpdate(table, shop, ExtensionStatBody(funnelId, revenue, discount));
            && r.Success?
            && r.value.table == table + [Statistic(shop, funnelId, revenue, discount)]
            && ShopTotals(r.value.table, shop) ==
                 Totals(ShopTotals(table, shop).totalOrders + 1,
                        ShopTotals(table, shop).totalRevenue + revenue,
                        ShopTotals(table, shop).totalDiscount + discount)
  {
    var data := MergeRecord(shop, ExtensionStatBody(funnelId, revenue, discount));
    assert data.Keys == {"shop", "funnelId", "revenue", "discount"};
    assert (funnelId as real).Floor == funnelId;
    assert RowOf(data) == Some(Statistic(shop, funnelId, revenue, discount));
    AppendAddsToTotals(table, Statistic(shop, funnelId, revenue, discount));
  }

  /** A `shop` in the body overrides the session's shop. */
  lemma BodyShopOverridesSession(table: seq<Statistic>, sessionShop: string, bodyShop: string,
                                 funnelId: int, revenue: real, discount: real)
    ensures var body := JObj(map["shop" := JStr(bodyShop), "funnelId" := JNum(funnelId as real),
                                 "revenue" := JNum(revenue), "discount" := JNum(discount)]);
            var r := StatisticUpdate(table, sessionShop, body);
            r.Success? && r.value.table[|table|].shop == bodyShop
  {
    var body := JObj(map["shop" := JStr(bodyShop), "funnelId" := JNum(funnelId as real),
                         "revenue" := JNum(revenue), "discount" := JNum(discount)]);
    var data := MergeRecord(sessionShop, body);
    assert data.Keys == {"shop", "funnelId", "revenue", "discount"};
    assert (funnelId as real).Floor == funnelId;
    assert RowOf(data).Some?;
  }

  /** No deduplication: posting the same body twice appends two identical
      rows. */
  lemma RepeatedPostAppendsTwice(table: seq<Statistic>, shop: string, body: Json)
    requires StatisticUpdate(table, shop, body).Success?
    ensures var once := StatisticUpdate(table, shop, body).value.table;
            var twice := StatisticUpdate(once, shop, body);
            && twice.Success?
            && |twice.value.table| == |table| + 2
            && twice.value.table[|table|] == twice.value.table[|table| + 1]
  {
  }
}
