/** The admin dashboard's funnel list: the loader's query parameters and
    redirect rule, the pagination control, the items-per-page selector and
    the table's column sort.

    The URL's search parameters are a map from name to text; the loader
    answers either a redirect to the same URL with other parameters, or the
    page to render. The shop comes from the admin session, an input. */
module AdminIndex {
  import opened Wrappers
  import opened JsText
  import opened Models
  import opened Sorting
  import opened FunnelStore

  /** `Number(url.searchParams.get(name)) || default`: a missing, empty,
      non-numeric or zero parameter gives the default. */
  function NumberParam(params: map<string, string>, name: string, default: int): (r: int)
    ensures name !in params ==> r == default
    ensures name in params ==>
              (if ToNumber(params[name]).Truthy() then r == ToNumber(params[name]).value else r == default)
  {
    if name in params && ToNumber(params[name]).Truthy() then ToNumber(params[name]).value
    else default
  }

  const DefaultPage := 1
  const DefaultLimit := 5

  /** What the loader answers. */
  datatype LoaderResult =
    | Redirect(params: map<string, string>)
    | Render(funnels: seq<Funnel>, page: int, limit: int, total: nat)

  /** The dashboard loader. */
  function Loader(table: seq<Funnel>, shop: string, params: map<string, string>): (r: Result<LoaderResult, StoreError>)
    ensures var page := NumberParam(params, "page", DefaultPage);
            var limit := NumberParam(params, "limit", DefaultLimit);
            var listed := ListFunnels(table, shop, page, limit);
            && (r.Failure? <==> listed.Failure?)
            && (listed.Success? && listed.value.page != page ==>
                  r == Success(Redirect(params["page" := IntToString(listed.value.page)])))
            && (listed.Success? && listed.value.page == page ==>
                  r == Success(Render(listed.value.data, page, limit, listed.value.total)))
  {
    var page := NumberParam(params, "page", DefaultPage);
    var limit := NumberParam(params, "limit", DefaultLimit);
    var listed :- ListFunnels(table, shop, page, limit);
    if listed.page != page then Success(Redirect(params["page" := IntToString(listed.page)]))
    else Success(Render(listed.data, page, limit, listed.total))
  }

  /** Following the loader's redirect never redirects again: the new page
      parameter reads back as the served page, which is already in range. */
  lemma RedirectIsFinal(table: seq<Funnel>, shop: string, params: map<string, string>)
    requires Loader(table, shop, params).Success?
    requires Loader(table, shop, params).value.Redirect?
    ensures var next := Loader(table, shop, Loader(table, shop, params).value.params);
            next.Success? && next.value.Render?
  {
    var page := NumberParam(params, "page", DefaultPage);
    var limit := NumberParam(params, "limit", DefaultLimit);
    var listed := ListFunnels(table, shop, page, limit).value;
    var total := |ShopFunnels(table, shop)|;
    // only a clamped page redirects, and clamping needs rows and a positive limit
    assert total > 0 && limit != 0;
    assert limit >= 1;
    assert page >= 1;
    var c := listed.page;
    assert c == ClampPage(page, limit, total) && c >= 1;
    var params2 := params["page" := IntToString(c)];
    ToNumberOfIntToString(c);
    assert NumberParam(params2, "page", DefaultPage) == c;
    assert NumberParam(params2, "limit", DefaultLimit) == limit;
    ClampPageIdempotent(page, limit, total);
  }

  /** A rendered page is never past the end: with any rows at all, the
      rendered page holds at least one of them. */
  lemma RenderedPageIsNonEmpty(table: seq<Funnel>, shop: string, params: map<string, string>)
    requires Loader(table, shop, params).Success?
    requires Loader(table, shop, params).value.Render?
    requires NumberParam(params, "limit", DefaultLimit) >= 1
    ensures var v := Loader(table, shop, params).value;
            v.total > 0 ==> 1 <= |v.funnels| <= v.limit && v.page >= 1
  {
  }

  // ---------------------------------------------------------------------
  // Pagination
  // ---------------------------------------------------------------------

  /** The pagination control's state. */
  datatype PaginationView = PaginationView(hasNext: bool, hasPrevious: bool, from: int, to: int, caption: string)

  /** `Showing <from> to <to> of <total> funnels`, with
      `from = page*limit - limit + 1` and `to = min(page*limit, total)`. */
  function Pagination(page: int, limit: int, total: nat): (r: PaginationView)
    ensures r.hasNext <==> page * limit < total
    ensures r.hasPrevious <==> page > 1
    ensures r.from == (page - 1) * limit + 1
    ensures r.to <= total && r.to <= page * limit
    ensures r.to == total || r.to == page * limit
    ensures r.caption == "Showing " + IntToString(r.from) + " to " + IntToString(r.to)
                       + " of " + NatToString(total) + " funnels"
  {
    var end := page * limit;
    var from := end - limit + 1;
    var to := if end < total then end else total;
    PaginationView(end < total, page > 1, from, to,
                   "Showing " + IntToString(from) + " to " + IntToString(to) + " of " + NatToString(total) + " funnels")
  }

  /** For a listed page, the label's range counts exactly the rows
      listed, "next" is offered exactly when rows remain after them, and
      "previous" exactly when rows precede them. */
  lemma PaginationMatchesListedRows(table: seq<Funnel>, shop: string, page: int, limit: int)
    requires page >= 1 && limit >= 1 && |ShopFunnels(table, shop)| > 0
    ensures var v := ListFunnels(table, shop, page, limit).value;
            var p := Pagination(v.page, limit, v.total);
            && p.to - p.from + 1 == |v.data|
            && (p.hasNext <==> p.to < v.total)
            && (p.hasPrevious <==> p.from > 1)
  {
    var v := ListFunnels(table, shop, page, limit).value;
    assert v.page >= 1 && (v.page - 1) * limit + |v.data| == (if v.page * limit < v.total then v.page * limit else v.total);
    WindowArithmetic(v.page, limit, v.total, |v.data|);
  }

  lemma WindowArithmetic(page: int, limit: int, total: nat, shown: nat)
    requires page >= 1 && limit >= 1
    requires (page - 1) * limit + shown == (if page * limit < total then page * limit else total)
    ensures var p := Pagination(page, limit, total);
            && p.to - p.from + 1 == shown
            && (p.hasNext <==> p.to < total)
            && (p.hasPrevious <==> p.from > 1)
  {
    PageProducts(page, limit);
  }

  /** The products the page arithmetic needs, each stated linearly. */
  lemma PageProducts(page: int, limit: int)
    requires page >= 1 && limit >= 1
    ensures 0 <= (page - 1) * limit && (page - 1) * limit + limit == page * limit
    ensures page > 1 <==> (page - 1) * limit > 0
  {
    if page > 1 {
      assert (page - 1) * limit >= 1 * limit;
    }
  }

  /** On a rendered page the same holds for the rows rendered. */
  lemma PaginationMatchesRenderedRows(table: seq<Funnel>, shop: string, params: map<string, string>)
    requires Loader(table, shop, params).Success?
    requires Loader(table, shop, params).value.Render?
    requires Loader(table, shop, params).value.total > 0
    requires Loader(table, shop, params).value.page >= 1
    requires Loader(table, shop, params).value.limit >= 1
    ensures var v := Loader(table, shop, params).value;
            var p := Pagination(v.page, v.limit, v.total);
            && p.to - p.from + 1 == |v.funnels|
            && (p.hasNext <==> p.to < v.total)
            && (p.hasPrevious <==> p.from > 1)
  {
    var page := NumberParam(params, "page", DefaultPage);
    var limit := NumberParam(params, "limit", DefaultLimit);
    PaginationMatchesListedRows(table, shop, page, limit);
  }

  /** The "next" button: the same parameters with `page` one higher. */
  function NextParams(params: map<string, string>, page: int): (r: map<string, string>)
    ensures r.Keys == params.Keys + {"page"}
    ensures ToNumber(r["page"]) == Num(page + 1)
    ensures forall k :: k in params && k != "page" ==> r[k] == params[k]
  {
    ToNumberOfIntToString(page + 1);
    params["page" := IntToString(page + 1)]
  }

  /** The "previous" button: the same parameters with `page` one lower. */
  function PreviousParams(params: map<string, string>, page: int): (r: map<string, string>)
    ensures r.Keys == params.Keys + {"page"}
    ensures ToNumber(r["page"]) == Num(page - 1)
    ensures forall k :: k in params && k != "page" ==> r[k] == params[k]
  {
    ToNumberOfIntToString(page - 1);
    params["page" := IntToString(page - 1)]
  }

  /** The items-per-page selector: sets `limit` and returns to page 1. */
  function ChangeLimit(params: map<string, string>, value: string): (r: map<string, string>)
    ensures r.Keys == params.Keys + {"limit", "page"}
    ensures r["limit"] == value && r["page"] == "1"
    ensures forall k :: k in params && k != "limit" && k != "page" ==> r[k] == params[k]
  {
    params["limit" := value]["page" := "1"]
  }

  /** When "next" is offered, following it loads the next page without a
      redirect. */
  lemma NextIsServedAsIs(table: seq<Funnel>, shop: string, params: map<string, string>)
    requires Loader(table, shop, params).Success?
    requires Loader(table, shop, params).value.Render?
    requires Loader(table, shop, params).value.page >= 1
    requires Loader(table, shop, params).value.limit >= 1
    requires Pagination(Loader(table, shop, params).value.page, Loader(table, shop, params).value.limit,
                        Loader(table, shop, params).value.total).hasNext
    ensures var v := Loader(table, shop, params).value;
            var next := Loader(table, shop, NextParams(params, v.page));
            next.Success? && next.value.Render? && next.value.page == v.page + 1
  {
    var v := Loader(table, shop, params).value;
    var params2 := NextParams(params, v.page);
    assert NumberParam(params2, "page", DefaultPage) == v.page + 1;
    assert NumberParam(params2, "limit", DefaultLimit) == v.limit;
    NextPageInRange(v.page, v.limit, |ShopFunnels(table, shop)|);
  }

  /** The page after one that does not reach the end is never clamped. */
  lemma NextPageInRange(page: int, limit: int, total: nat)
    requires page >= 1 && limit >= 1 && page * limit < total
    ensures ClampPage(page + 1, limit, total) == page + 1
  {
    if (page + 1) * limit > total {
      var c := CeilDiv(total, limit);
      assert (c - 1) * limit < total <= c * limit;
    }
  }

  /** Changing the number of items per page to a positive number never
      redirects: page 1 is always in range. */
  lemma ChangeLimitIsServedAsIs(table: seq<Funnel>, shop: string, params: map<string, string>, n: nat)
    requires n >= 1
    ensures var next := Loader(table, shop, ChangeLimit(params, NatToString(n)));
            next.Success? && next.value.Render? && next.value.page == 1 && next.value.limit == n
  {
    var params2 := ChangeLimit(params, NatToString(n));
    ToNumberOfNatToString(n);
    assert ToNumber("1") == Num(1);
    assert NumberParam(params2, "page", DefaultPage) == 1;
    assert NumberParam(params2, "limit", DefaultLimit) == n;
  }

  // ---------------------------------------------------------------------
  // Column sort
  // ---------------------------------------------------------------------

  /** A table cell: text, a number, or anything else (a rendered element,
      or `undefined` past the end of the row). */
  datatype Cell = Text(text: string) | Number(n: real) | Other

  datatype Direction = Ascending | Descending

  function CellAt(row: seq<Cell>, index: int): Cell {
    if 0 <= index < |row| then row[index] else Other
  }

  /** The comparator of `sortCurrency`. Text cells compare with the
      locale-aware `collate`; two number cells compare by difference; any
      other pair is a tie. */
  function CompareRows(index: int, direction: Direction, collate: (string, string) -> real): (cmp: (seq<Cell>, seq<Cell>) -> real)
  {
    (a: seq<Cell>, b: seq<Cell>) =>
      var x := CellAt(a, index);
      var y := CellAt(b, index);
      if x.Text? && y.Text? then
        (if direction == Descending then collate(y.text, x.text) else collate(x.text, y.text))
      else if x.Number? && y.Number? then
        (if direction == Descending then y.n - x.n else x.n - y.n)
      else 0.0
  }

  /** What the comparator decides: two numbers order by the direction and
      swapping them negates the result; two texts follow `collate` with the
      arguments swapped for a descending sort; any other pair ties. */
  lemma CompareRowsDecides(index: int, direction: Direction, collate: (string, string) -> real, a: seq<Cell>, b: seq<Cell>)
    ensures var x, y, c := CellAt(a, index), CellAt(b, index), CompareRows(index, direction, collate)(a, b);
            && (x.Number? && y.Number? ==>
                  && (c < 0.0 <==> if direction == Ascending then x.n < y.n else y.n < x.n)
                  && c == -CompareRows(index, direction, collate)(b, a))
            && (x.Text? && y.Text? ==>
                  c == if direction == Ascending then collate(x.text, y.text) else collate(y.text, x.text))
            && (!(x.Text? && y.Text?) && !(x.Number? && y.Number?) ==> c == 0.0)
  {
  }

  /** `sortCurrency`: a sorted copy of the rows; the input is a value and is
      never changed. */
  function SortCurrency(rows: seq<seq<Cell>>, index: int, direction: Direction, collate: (string, string) -> real)
    : (r: seq<seq<Cell>>)
    ensures multiset(r) == multiset(rows)
    ensures |r| == |rows|
  {
    SortBy(rows, CompareRows(index, direction, collate))
  }

  /** The number in the row's column (0 when the cell holds none). */
  function NumberIn(row: seq<Cell>, index: int): real {
    if CellAt(row, index).Number? then CellAt(row, index).n else 0.0
  }

  /** The column's number as a sort key. */
  function NumberAt(index: int): seq<Cell> -> real {
    (row: seq<Cell>) => NumberIn(row, index)
  }

  /** The column's number negated, the key of a descending sort. */
  function NegatedNumberAt(index: int): seq<Cell> -> real {
    (row: seq<Cell>) => -NumberIn(row, index)
  }

  /** On a column of numbers, ascending sorts give non-decreasing and
      descending sorts non-increasing numbers. */
  lemma {:induction false} SortNumericColumn(rows: seq<seq<Cell>>, index: int, collate: (string, string) -> real)
    requires forall i :: 0 <= i < |rows| ==> CellAt(rows[i], index).Number?
    ensures var up := SortCurrency(rows, index, Ascending, collate);
            forall i, j :: 0 <= i < j < |up| ==> NumberIn(up[i], index) <= NumberIn(up[j], index)
    ensures var down := SortCurrency(rows, index, Descending, collate);
            forall i, j :: 0 <= i < j < |down| ==> NumberIn(down[i], index) >= NumberIn(down[j], index)
  {
    assert forall a :: a in rows ==> CellAt(a, index).Number?;
    var up := SortCurrency(rows, index, Ascending, collate);
    SortByKeySorted(rows, CompareRows(index, Ascending, collate), NumberAt(index));
    var down := SortCurrency(rows, index, Descending, collate);
    SortByKeySorted(rows, CompareRows(index, Descending, collate), NegatedNumberAt(index));
  }

  /** Sorting on a column without text or number cells (the actions
      column, or an index past the row) keeps the rows' order. */
  lemma SortOtherColumnKeepsOrder(rows: seq<seq<Cell>>, index: int, direction: Direction, collate: (string, string) -> real)
    requires forall i :: 0 <= i < |rows| ==> CellAt(rows[i], index).Other?
    ensures SortCurrency(rows, index, direction, collate) == rows
  {
    assert forall a :: a in rows ==> CellAt(a, index).Other?;
    SortByAllTied(rows, CompareRows(index, direction, collate));
  }
}
