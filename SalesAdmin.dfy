/** get_sales_paginated of services/sales_admin_service.py: the sales that
    pass the optional date bounds and receipt/customer search, newest first,
    one page at a time. */
module SalesAdmin {
  import opened Common
  import opened Sorting
  import opened Text
  import opened Debt
  import opened Pagination

  const StartCondition: string := "DATE(s.transaction_date) >= ?"
  const EndCondition: string := "DATE(s.transaction_date) <= ?"
  const SearchCondition: string := "(s.sales_number LIKE ? OR s.customer_name LIKE ?)"

  /** A row of the sales table, with the columns the admin list reads. */
  datatype SaleRecord = SaleRecord(id: int, transactionDate: string, salesNumber: Option<string>,
                                   customerName: Option<string>, totalAmount: Option<int>, status: SaleStatus,
                                   paymentMethodId: Option<int>)

  /** The optional arguments start_date, end_date and search. */
  datatype SalesFilter = SalesFilter(startDate: Option<string>, endDate: Option<string>, search: Option<string>)

  /** `f"%{search}%"`. */
  function Pattern(search: string): string {
    "%" + search + "%"
  }

  /** `column LIKE pattern`: `like` is SQLite's LIKE, and NULL matches
      nothing. */
  predicate Like(value: Option<string>, pattern: string, like: (string, string) -> bool) {
    value.Some? && like(value.value, pattern)
  }

  /** How many parameters a condition takes. */
  function Arity(condition: string): nat {
    if condition == SearchCondition then 2 else 1
  }

  /** What SQLite makes of one condition with its parameters on a sale.
      `dateOf` is DATE(), None where that yields NULL. */
  predicate Holds(condition: string, args: seq<string>, s: SaleRecord,
                  dateOf: string -> Option<string>, like: (string, string) -> bool) {
    if condition == StartCondition then
      |args| == 1 && dateOf(s.transactionDate).Some? && LexLe(args[0], dateOf(s.transactionDate).value)
    else if condition == EndCondition then
      |args| == 1 && dateOf(s.transactionDate).Some? && LexLe(dateOf(s.transactionDate).value, args[0])
    else if condition == SearchCondition then
      |args| == 2 && (Like(s.salesNumber, args[0], like) || Like(s.customerName, args[1], like))
    else false
  }

  /** The WHERE clause holds of a sale: the parameters are bound to the
      conditions' placeholders in order, none left over, and every condition
      is true. */
  predicate AllHold(conditions: seq<string>, params: seq<string>, s: SaleRecord,
                    dateOf: string -> Option<string>, like: (string, string) -> bool)
    decreases |conditions|
  {
    if conditions == [] then params == []
    else
      var c := conditions[|conditions| - 1];
      var a := Arity(c);
      a <= |params| && Holds(c, params[|params| - a..], s, dateOf, like) &&
      AllHold(conditions[..|conditions| - 1], params[..|params| - a], s, dateOf, like)
  }

  lemma AllHoldSnoc(conditions: seq<string>, params: seq<string>, c: string, args: seq<string>, s: SaleRecord,
                    dateOf: string -> Option<string>, like: (string, string) -> bool)
    requires |args| == Arity(c)
    ensures AllHold(conditions + [c], params + args, s, dateOf, like) <==>
            AllHold(conditions, params, s, dateOf, like) && Holds(c, args, s, dateOf, like)
  {
    assert (conditions + [c])[..|conditions|] == conditions;
    assert (params + args)[|params|..] == args;
    assert (params + args)[..|params|] == params;
  }

  /** The three optional filters, in the order the conditions are built. */
  function FilterValue(f: SalesFilter, k: nat): Option<string>
    requires k < 3
  {
    if k == 0 then f.startDate else if k == 1 then f.endDate else f.search
  }

  function ConditionAt(k: nat): string
    requires k < 3
  {
    if k == 0 then StartCondition else if k == 1 then EndCondition else SearchCondition
  }

  /** The parameters of filter `k`: the date itself, or the search pattern
      once for each column. */
  function ArgsAt(f: SalesFilter, k: nat): seq<string>
    requires k < 3 && FilterValue(f, k).Some?
  {
    if k == 2 then [Pattern(f.search.value), Pattern(f.search.value)] else [FilterValue(f, k).value]
  }

  /** What filter `k` asks of a sale. */
  predicate FilterHolds(f: SalesFilter, k: nat, s: SaleRecord,
                        dateOf: string -> Option<string>, like: (string, string) -> bool)
    requires k < 3 && FilterValue(f, k).Some?
  {
    if k == 0 then dateOf(s.transactionDate).Some? && LexLe(f.startDate.value, dateOf(s.transactionDate).value)
    else if k == 1 then dateOf(s.transactionDate).Some? && LexLe(dateOf(s.transactionDate).value, f.endDate.value)
    else Like(s.salesNumber, Pattern(f.search.value), like) || Like(s.customerName, Pattern(f.search.value), like)
  }

  /** The first `n` filters hold; a falsy argument is no filter. */
  predicate MatchesThrough(f: SalesFilter, n: nat, s: SaleRecord,
                           dateOf: string -> Option<string>, like: (string, string) -> bool)
    requires n <= 3
  {
    n == 0 ||
    (MatchesThrough(f, n - 1, s, dateOf, like) &&
     (Truthy(FilterValue(f, n - 1)) ==> FilterHolds(f, n - 1, s, dateOf, like)))
  }

  /** The filter the caller asked for. */
  predicate Matches(f: SalesFilter, s: SaleRecord, dateOf: string -> Option<string>, like: (string, string) -> bool) {
    MatchesThrough(f, 3, s, dateOf, like)
  }

  /** Spelled out: within the given dates, and with the search text inside
      the receipt number or the customer name. */
  lemma MatchesMeans(f: SalesFilter, s: SaleRecord, dateOf: string -> Option<string>, like: (string, string) -> bool)
    ensures Matches(f, s, dateOf, like) <==>
            && (Truthy(f.startDate) ==>
                  dateOf(s.transactionDate).Some? && LexLe(f.startDate.value, dateOf(s.transactionDate).value))
            && (Truthy(f.endDate) ==>
                  dateOf(s.transactionDate).Some? && LexLe(dateOf(s.transactionDate).value, f.endDate.value))
            && (Truthy(f.search) ==>
                  Like(s.salesNumber, Pattern(f.search.value), like) || Like(s.customerName, Pattern(f.search.value), like))
  {
    assert MatchesThrough(f, 0, s, dateOf, like);
    var m1 := MatchesThrough(f, 1, s, dateOf, like);
    var m2 := MatchesThrough(f, 2, s, dateOf, like);
    assert m1 <==> (Truthy(f.startDate) ==> FilterHolds(f, 0, s, dateOf, like));
    assert m2 <==> m1 && (Truthy(f.endDate) ==> FilterHolds(f, 1, s, dateOf, like));
    assert Matches(f, s, dateOf, like) <==> m2 && (Truthy(f.search) ==> FilterHolds(f, 2, s, dateOf, like));
  }

  /** The condition of a given filter, with its parameters, holds exactly
      where the filter does. */
  lemma HoldsAt(f: SalesFilter, k: nat, s: SaleRecord, dateOf: string -> Option<string>, like: (string, string) -> bool)
    requires k < 3 && FilterValue(f, k).Some?
    ensures |ArgsAt(f, k)| == Arity(ConditionAt(k))
    ensures Holds(ConditionAt(k), ArgsAt(f, k), s, dateOf, like) <==> FilterHolds(f, k, s, dateOf, like)
  {
  }

  lemma Extend(f: SalesFilter, k: nat, conditions: seq<string>, params: seq<string>, c: string, args: seq<string>)
    requires k < 3 && Truthy(FilterValue(f, k)) && c == ConditionAt(k) && args == ArgsAt(f, k)
    requires forall s, dateOf, like :: AllHold(conditions, params, s, dateOf, like) <==> MatchesThrough(f, k, s, dateOf, like)
    ensures forall s, dateOf, like ::
              AllHold(conditions + [c], params + args, s, dateOf, like) <==> MatchesThrough(f, k + 1, s, dateOf, like)
  {
    forall s, dateOf, like
      ensures AllHold(conditions + [c], params + args, s, dateOf, like) <==> MatchesThrough(f, k + 1, s, dateOf, like)
    {
      HoldsAt(f, k, s, dateOf, like);
      AllHoldSnoc(conditions, params, c, args, s, dateOf, like);
    }
  }

  lemma Pass(f: SalesFilter, k: nat, conditions: seq<string>, params: seq<string>)
    requires k < 3 && !Truthy(FilterValue(f, k))
    requires forall s, dateOf, like :: AllHold(conditions, params, s, dateOf, like) <==> MatchesThrough(f, k, s, dateOf, like)
    ensures forall s, dateOf, like :: AllHold(conditions, params, s, dateOf, like) <==> MatchesThrough(f, k + 1, s, dateOf, like)
  {
  }

  function Given(s: Option<string>): nat {
    if Truthy(s) then 1 else 0
  }

  /** The `conditions` and `params` lists: one condition per given filter,
      one parameter per date bound and the search pattern twice, and
      together they select exactly the sales the filter asks for. */
  method BuildSalesConditions(f: SalesFilter) returns (conditions: seq<string>, params: seq<string>)
    ensures |conditions| == Given(f.startDate) + Given(f.endDate) + Given(f.search)
    ensures |params| == Given(f.startDate) + Given(f.endDate) + 2 * Given(f.search)
    ensures conditions == [] <==> !Truthy(f.startDate) && !Truthy(f.endDate) && !Truthy(f.search)
    ensures Truthy(f.search) ==> params[|params| - 2..] == [Pattern(f.search.value), Pattern(f.search.value)]
    ensures forall s, dateOf, like :: AllHold(conditions, params, s, dateOf, like) <==> Matches(f, s, dateOf, like)
  {
    conditions, params := [], [];
    if Truthy(f.startDate) {
      Extend(f, 0, conditions, params, StartCondition, [f.startDate.value]);
      conditions := conditions + [StartCondition];
      params := params + [f.startDate.value];
    } else {
      Pass(f, 0, conditions, params);
    }
    if Truthy(f.endDate) {
      Extend(f, 1, conditions, params, EndCondition, [f.endDate.value]);
      conditions := conditions + [EndCondition];
      params := params + [f.endDate.value];
    } else {
      Pass(f, 1, conditions, params);
    }
    if Truthy(f.search) {
      var pattern := Pattern(f.search.value);
      Extend(f, 2, conditions, params, SearchCondition, [pattern, pattern]);
      conditions := conditions + [SearchCondition];
      params := params + [pattern, pattern];
    } else {
      Pass(f, 2, conditions, params);
    }
  }

  // ---------------------------------------------------------------------
  // The query

  /** The sales rows that pass the filter; `COUNT(*)` counts them. */
  function Selected(sales: seq<SaleRecord>, f: SalesFilter, dateOf: string -> Option<string>,
                    like: (string, string) -> bool): seq<SaleRecord> {
    Filter(sales, (s: SaleRecord) => Matches(f, s, dateOf, like))
  }

  /** ORDER BY s.transaction_date DESC. */
  function NewestFirst(): (SaleRecord, SaleRecord) -> bool {
    (a: SaleRecord, b: SaleRecord) => LexLe(b.transactionDate, a.transactionDate)
  }

  /** A displayed row: the sale with `LEFT JOIN payment_methods` resolved
      and its date run through format_date. */
  datatype AdminRow = AdminRow(id: int, transactionDate: string, salesNumber: Option<string>,
                               customerName: Option<string>, totalAmount: Option<int>, status: SaleStatus,
                               paymentMethodName: Option<string>)

  function Display(methods: map<int, string>, render: string -> string): SaleRecord -> AdminRow {
    (s: SaleRecord) =>
      AdminRow(s.id, FormatDate(Some(s.transactionDate), render), s.salesNumber, s.customerName, s.totalAmount,
               s.status,
               if s.paymentMethodId.Some? && s.paymentMethodId.value in methods
               then Some(methods[s.paymentMethodId.value]) else None)
  }

  /** The returned dictionary. */
  datatype SalesPage = SalesPage(rows: seq<AdminRow>, total: int, page: int, perPage: int, totalPages: int)

  function SalesPageOf(sales: seq<SaleRecord>, methods: map<int, string>, f: SalesFilter, page: int,
                       dateOf: string -> Option<string>, like: (string, string) -> bool,
                       render: string -> string): SalesPage {
    var selected := Selected(sales, f, dateOf, like);
    SalesPage(Map(Page(SortBy(selected, NewestFirst()), page), Display(methods, render)),
              |selected|, page, PerPage, TotalPages(|selected|))
  }

  /** total counts exactly the sales that pass the filter, the page holds at
      most PER_PAGE of them and page and per_page are echoed. */
  lemma SalesPageSpec(sales: seq<SaleRecord>, methods: map<int, string>, f: SalesFilter, page: int,
                      dateOf: string -> Option<string>, like: (string, string) -> bool, render: string -> string)
    ensures var r := SalesPageOf(sales, methods, f, page, dateOf, like, render);
            var sel := Selected(sales, f, dateOf, like);
            && (forall s :: s in sel <==> s in sales && Matches(f, s, dateOf, like))
            && r.total == |sel| <= |sales|
            && |r.rows| <= PerPage && r.page == page && r.perPage == PerPage
            && r.totalPages >= 1 && r.totalPages * PerPage >= r.total
  {
    var sel := Selected(sales, f, dateOf, like);
    FilterMembers(sales, (s: SaleRecord) => Matches(f, s, dateOf, like));
    PageSpec(SortBy(sel, NewestFirst()), page);
    TotalPagesSpec(|sel|);
  }

  /** The page lists selected sales newest first. */
  lemma SalesPageOrder(sales: seq<SaleRecord>, methods: map<int, string>, f: SalesFilter, page: int,
                       dateOf: string -> Option<string>, like: (string, string) -> bool, render: string -> string)
    ensures var sel := Selected(sales, f, dateOf, like);
            var shown := Page(SortBy(sel, NewestFirst()), page);
            && SalesPageOf(sales, methods, f, page, dateOf, like, render).rows == Map(shown, Display(methods, render))
            && SortedPairwise(shown, NewestFirst())
            && forall s :: s in shown ==> s in sel
  {
    var sel := Selected(sales, f, dateOf, like);
    var le := NewestFirst();
    assert Total(le) by {
      forall a: SaleRecord, b: SaleRecord ensures le(a, b) || le(b, a) { LexLeTotal(a.transactionDate, b.transactionDate); }
    }
    assert Transitive(le) by {
      forall a: SaleRecord, b: SaleRecord, c: SaleRecord | le(a, b) && le(b, c) ensures le(a, c) {
        LexLeTrans(c.transactionDate, b.transactionDate, a.transactionDate);
      }
    }
    SortBySorted(sel, le);
    SortedIsPairwise(SortBy(sel, le), le);
    PageSorted(SortBy(sel, le), page, le);
    forall s | s in Page(SortBy(sel, le), page) ensures s in sel {
      SortByMembers(sel, le, s);
    }
  }

  /** get_sales_paginated(page, start_date, end_date, search): builds the
      conditions, counts and fetches the sales under them and returns the
      requested page. */
  method GetSalesPaginated(sales: seq<SaleRecord>, methods: map<int, string>, page: int, f: SalesFilter,
                           dateOf: string -> Option<string>, like: (string, string) -> bool,
                           render: string -> string) returns (r: SalesPage)
    ensures r == SalesPageOf(sales, methods, f, page, dateOf, like, render)
  {
    var conditions, params := BuildSalesConditions(f);
    var inView := (s: SaleRecord) => AllHold(conditions, params, s, dateOf, like);
    var selected := Filter(sales, inView);
    FilterCongruent(sales, inView, (s: SaleRecord) => Matches(f, s, dateOf, like));
    var total := |selected|;
    var totalPages := TotalPages(total);
    var shown := Page(SortBy(selected, NewestFirst()), page);
    r := SalesPage(Map(shown, Display(methods, render)), total, page, PerPage, totalPages);
  }
}
