/** The end-of-day report of services/reports_service.py
    (get_sales_report_by_date), after its three queries: grouping of the
    product and service lines by sale, the per-sale mechanic quota and
    commission, the split into Paid and other sales, and the day's totals.
    Amounts are integer centavos; a commission rate is an exact fraction. */
module Reports {
  import opened Common
  import opened Debt

  /** MECHANIC_QUOTA = 500.00. */
  const MechanicQuota: int := 50000

  datatype Fraction = Fraction(num: int, den: int)

  type Rate = f: Fraction | f.den > 0 witness Fraction(0, 1)

  /** `commission_rate or 0.0`: a sale without a mechanic has rate 0. */
  function EffectiveRate(r: Option<Rate>): (rate: Rate)
    ensures r.None? ==> rate.num == 0
    ensures r.Some? ==> rate == r.value
  {
    if r.None? then Fraction(0, 1) else r.value
  }

  /** n / d rounded to the nearest integer, halves upward. */
  function RoundHalfUp(n: int, d: int): int
    requires d > 0
  {
    (2 * n + d) / (2 * d)
  }

  /** The rounded value is within half a unit of n / d. */
  lemma RoundHalfUpBound(n: int, d: int)
    requires d > 0
    ensures -d < 2 * (RoundHalfUp(n, d) * d - n) <= d
  {
    var q := (2 * n + d) / (2 * d);
    assert 2 * n + d == q * (2 * d) + (2 * n + d) % (2 * d);
  }

  datatype Quota = Quota(topup: int, base: int)

  /** Lines 154-159: a sale whose services are billed but fall short of the
      quota is lifted to the quota by a shop top-up. */
  function ApplyQuota(servicesTotal: int): (q: Quota)
    ensures q.base == servicesTotal + q.topup
    ensures 0 <= q.topup < MechanicQuota
    ensures q.topup > 0 <==> 0 < servicesTotal < MechanicQuota
    ensures servicesTotal > 0 ==> q.base >= MechanicQuota
  {
    if servicesTotal > 0 && servicesTotal < MechanicQuota then Quota(MechanicQuota - servicesTotal, MechanicQuota)
    else Quota(0, servicesTotal)
  }

  /** Line 161: the commission on the effective base, to the centavo. */
  function MechanicCut(base: int, rate: Rate): int {
    RoundHalfUp(base * rate.num, rate.den)
  }

  /** The cut is base × rate to within half a centavo. */
  lemma MechanicCutExact(base: int, rate: Rate)
    ensures -rate.den < 2 * (MechanicCut(base, rate) * rate.den - base * rate.num) <= rate.den
  {
    RoundHalfUpBound(base * rate.num, rate.den);
  }

  lemma DivNonNegative(x: int, y: int)
    requires 0 <= x && 0 < y
    ensures 0 <= x / y
  {
  }

  lemma DivBelow(x: int, y: int, k: int)
    requires 0 < y && x < y * k
    ensures x / y < k
  {
    assert x == y * (x / y) + x % y;
    assert y * (k - x / y) > 0 by {
      assert y * (k - x / y) == y * k - y * (x / y);
    }
  }

  /** With no rate there is no cut; with a rate between 0 and 1 the cut lies
      between 0 and the base. */
  lemma MechanicCutBounds(base: int, rate: Rate)
    ensures rate.num == 0 ==> MechanicCut(base, rate) == 0
    ensures 0 <= base && 0 <= rate.num <= rate.den ==> 0 <= MechanicCut(base, rate) <= base
  {
    var d := rate.den;
    var n := base * rate.num;
    if rate.num == 0 {
      assert n == 0;
      assert 2 * n + d == d;
      DivNonNegative(d, 2 * d);
      DivBelow(d, 2 * d, 1);
    }
    if 0 <= base && 0 <= rate.num <= d {
      MulBelow(base, rate.num, d);
      DivNonNegative(2 * n + d, 2 * d);
      assert (2 * d) * (base + 1) == 2 * (base * d) + 2 * d;
      DivBelow(2 * n + d, 2 * d, base + 1);
    }
  }

  lemma MulBelow(a: int, b: int, c: int)
    requires 0 <= a && 0 <= b <= c
    ensures 0 <= a * b <= a * c
  {
    assert a * c - a * b == a * (c - b);
  }

  // ---------------------------------------------------------------------
  // Query rows

  datatype ReportSale = ReportSale(
    id: int,
    salesNumber: Option<string>,
    customerName: Option<string>,
    totalAmount: Option<int>,
    status: SaleStatus,
    notes: Option<string>,
    transactionDate: string,
    mechanicName: Option<string>,
    commissionRate: Option<Rate>,
    paymentMethod: Option<string>)

  /** A sales_items row; discount_percent is carried in hundredths of a
      percent. */
  datatype ItemLine = ItemLine(
    saleId: int,
    itemName: string,
    quantity: int,
    originalUnitPrice: int,
    discountPercent: int,
    discountAmount: int,
    finalUnitPrice: int,
    lineTotal: int)

  datatype ServiceLine = ServiceLine(saleId: int, serviceName: string, price: int)

  function ItemKey(): ItemLine -> int { (l: ItemLine) => l.saleId }
  function ServiceKey(): ServiceLine -> int { (l: ServiceLine) => l.saleId }
  function ServicePrice(): ServiceLine -> int { (l: ServiceLine) => l.price }

  /** `items_by_sale.get(sale_id, [])` as a declarative definition. */
  function ItemsOf(items: seq<ItemLine>, id: int): seq<ItemLine> {
    Filter(items, KeyIs(ItemKey(), id))
  }

  function ServicesOf(services: seq<ServiceLine>, id: int): seq<ServiceLine> {
    Filter(services, KeyIs(ServiceKey(), id))
  }

  /** Line 139: the sale's service prices summed, 0 when it has none. */
  function ServicesTotal(services: seq<ServiceLine>, id: int): int {
    SumBy(ServicesOf(services, id), ServicePrice())
  }

  lemma ServicesTotalSpec(services: seq<ServiceLine>, id: int)
    ensures ServicesTotal(services, id) ==
            SumBy(services, (l: ServiceLine) => if l.saleId == id then l.price else 0)
    ensures (forall l :: l in services ==> l.saleId != id) ==> ServicesTotal(services, id) == 0
  {
    SumByFilter(services, KeyIs(ServiceKey(), id), ServicePrice(),
                (l: ServiceLine) => if l.saleId == id then l.price else 0);
    if forall l :: l in services ==> l.saleId != id {
      SumByZero(services, (l: ServiceLine) => if l.saleId == id then l.price else 0);
    }
  }

  /** The `(lookup).setdefault(sale_id, []).append(row)` loops of lines
      116-122: after the loop every key's list is, in query order, the rows
      carrying that key. */
  method GroupBySale<T>(rows: seq<T>, key: T -> int) returns (m: map<int, seq<T>>)
    ensures forall id :: Get(m, id) == Filter(rows, KeyIs(key, id))
  {
    m := map[];
    for k := 0 to |rows|
      invariant forall id :: Get(m, id) == Filter(rows[..k], KeyIs(key, id))
    {
      var id := key(rows[k]);
      ghost var before := m;
      m := m[id := Get(m, id) + [rows[k]]];
      assert rows[..k + 1][..k] == rows[..k];
      forall other ensures Get(m, other) == Filter(rows[..k + 1], KeyIs(key, other)) {
        if other != id {
          assert Get(m, other) == Get(before, other);
        }
      }
    }
    assert rows[..|rows|] == rows;
  }

  /** `d.get(k, [])`. */
  function Get<T>(m: map<int, seq<T>>, k: int): seq<T> {
    if k in m then m[k] else []
  }

  // ---------------------------------------------------------------------
  // Report rows

  datatype ReportRow = ReportRow(
    salesNumber: string,
    customerName: string,
    mechanicName: string,
    commissionRate: Rate,
    servicesTotal: int,
    effectiveBase: int,
    shopTopup: int,
    mechanicCut: int,
    totalAmount: int,
    status: SaleStatus,
    paymentMethod: string,
    notes: string,
    products: seq<ItemLine>,
    services: seq<ServiceLine>)

  /** The row dictionary of lines 163-178 for one sale and its own lines. */
  function RowOf(sale: ReportSale, products: seq<ItemLine>, services: seq<ServiceLine>): ReportRow {
    var servicesTotal := SumBy(services, ServicePrice());
    var q := ApplyQuota(servicesTotal);
    var rate := EffectiveRate(sale.commissionRate);
    ReportRow(
      OrElse(sale.salesNumber, "#" + IntToString(sale.id)),
      OrElse(sale.customerName, "Walk-in"),
      OrElse(sale.mechanicName, "\U{2014}"),
      rate,
      servicesTotal,
      q.base,
      q.topup,
      MechanicCut(q.base, rate),
      OrZero(sale.totalAmount),
      sale.status,
      OrElse(sale.paymentMethod, "\U{2014}"),
      OrElse(sale.notes, ""),
      products,
      services)
  }

  /** A missing or empty text field shows its default; the effective base
      and the top-up are the quota rule's, so there is no top-up once the
      services reach the quota; the cut is the commission on the effective
      base, to within half a centavo; without a mechanic the top-up still
      applies and the cut is 0. */
  lemma RowOfSpec(sale: ReportSale, products: seq<ItemLine>, services: seq<ServiceLine>)
    ensures var r := RowOf(sale, products, services);
            && r.salesNumber == (if Truthy(sale.salesNumber) then sale.salesNumber.value else "#" + IntToString(sale.id))
            && r.customerName == (if Truthy(sale.customerName) then sale.customerName.value else "Walk-in")
            && r.mechanicName == (if Truthy(sale.mechanicName) then sale.mechanicName.value else "\U{2014}")
            && r.paymentMethod == (if Truthy(sale.paymentMethod) then sale.paymentMethod.value else "\U{2014}")
            && r.notes == (if Truthy(sale.notes) then sale.notes.value else "")
    ensures var r := RowOf(sale, products, services);
            && r.servicesTotal == SumBy(services, ServicePrice())
            && r.effectiveBase == r.servicesTotal + r.shopTopup
            && 0 <= r.shopTopup < MechanicQuota
            && (0 < r.servicesTotal < MechanicQuota ==> r.effectiveBase == MechanicQuota)
            && r.totalAmount == (if sale.totalAmount.Some? then sale.totalAmount.value else 0)
    ensures var r := RowOf(sale, products, services);
            && r.shopTopup == ApplyQuota(r.servicesTotal).topup
            && r.effectiveBase == ApplyQuota(r.servicesTotal).base
            && (r.servicesTotal <= 0 || MechanicQuota <= r.servicesTotal ==> r.shopTopup == 0)
    ensures var r := RowOf(sale, products, services);
            && r.commissionRate == EffectiveRate(sale.commissionRate)
            && r.mechanicCut == MechanicCut(r.effectiveBase, r.commissionRate)
            && -r.commissionRate.den < 2 * (r.mechanicCut * r.commissionRate.den - r.effectiveBase * r.commissionRate.num)
                                     <= r.commissionRate.den
    ensures sale.commissionRate.None? ==> RowOf(sale, products, services).mechanicCut == 0
  {
    var q := ApplyQuota(SumBy(services, ServicePrice()));
    MechanicCutBounds(q.base, EffectiveRate(sale.commissionRate));
    MechanicCutExact(q.base, EffectiveRate(sale.commissionRate));
  }

  function RowFor(items: seq<ItemLine>, services: seq<ServiceLine>): ReportSale -> ReportRow {
    (s: ReportSale) => RowOf(s, ItemsOf(items, s.id), ServicesOf(services, s.id))
  }

  /** One row per sale, in the query's order. */
  function RowsOf(sales: seq<ReportSale>, items: seq<ItemLine>, services: seq<ServiceLine>): seq<ReportRow>
    decreases |sales|
  {
    if sales == [] then []
    else RowsOf(sales[..|sales| - 1], items, services) + [RowFor(items, services)(sales[|sales| - 1])]
  }

  lemma RowsOfSnoc(sales: seq<ReportSale>, items: seq<ItemLine>, services: seq<ServiceLine>, k: int)
    requires 0 <= k < |sales|
    ensures RowsOf(sales[..k + 1], items, services) == RowsOf(sales[..k], items, services) + [RowFor(items, services)(sales[k])]
  {
    assert sales[..k + 1][..k] == sales[..k];
  }

  lemma {:induction false} RowsOfIsMap(sales: seq<ReportSale>, items: seq<ItemLine>, services: seq<ServiceLine>)
    ensures RowsOf(sales, items, services) == Map(sales, RowFor(items, services))
    decreases |sales|
  {
    if sales != [] {
      var n := |sales| - 1;
      var f := RowFor(items, services);
      RowsOfIsMap(sales[..n], items, services);
      MapSnoc(sales[..n], sales[n], f);
      assert sales[..n] + [sales[n]] == sales;
      assert RowsOf(sales, items, services) == Map(sales[..n], f) + [f(sales[n])];
    }
  }

  lemma RowsOfAt(sales: seq<ReportSale>, items: seq<ItemLine>, services: seq<ServiceLine>, k: int)
    requires 0 <= k < |sales|
    ensures |RowsOf(sales, items, services)| == |sales|
    ensures RowsOf(sales, items, services)[k] ==
            RowOf(sales[k], ItemsOf(items, sales[k].id), ServicesOf(services, sales[k].id))
  {
    RowsOfIsMap(sales, items, services);
  }

  function IsPaidRow(): ReportRow -> bool { (r: ReportRow) => r.status == Paid }
  function IsOtherRow(): ReportRow -> bool { (r: ReportRow) => r.status != Paid }
  function Gross(): ReportRow -> int { (r: ReportRow) => r.totalAmount }
  function Cut(): ReportRow -> int { (r: ReportRow) => r.mechanicCut }
  function Topup(): ReportRow -> int { (r: ReportRow) => r.shopTopup }

  /** `[]` when the day has no sales; the dictionary of lines 190-197
      otherwise. */
  datatype Report =
    | Empty
    | Report(sales: seq<ReportRow>, unresolved: seq<ReportRow>,
             totalGross: int, totalMechCut: int, totalShopTopup: int, netRevenue: int)

  /** The report as a whole: the Paid rows and the others, each in query
      order, and the totals over the Paid rows. */
  function SalesReport(sales: seq<ReportSale>, items: seq<ItemLine>, services: seq<ServiceLine>): (r: Report)
    ensures r.Empty? <==> sales == []
    ensures r.Report? ==> r.netRevenue == r.totalGross - r.totalMechCut - r.totalShopTopup
  {
    if sales == [] then Empty
    else
      var rows := RowsOf(sales, items, services);
      var paid := Filter(rows, IsPaidRow());
      var gross := SumBy(paid, Gross());
      var cut := SumBy(paid, Cut());
      var topup := SumBy(paid, Topup());
      Report(paid, Filter(rows, IsOtherRow()), gross, cut, topup, gross - cut - topup)
  }

  /** One more row goes to exactly one of the two lists, and a Paid one
      adds its amounts to the three totals. */
  lemma RouteStep(rows: seq<ReportRow>, row: ReportRow)
    ensures var paid := Filter(rows, IsPaidRow());
            row.status == Paid ==>
              && Filter(rows + [row], IsPaidRow()) == paid + [row]
              && Filter(rows + [row], IsOtherRow()) == Filter(rows, IsOtherRow())
              && SumBy(paid + [row], Gross()) == SumBy(paid, Gross()) + row.totalAmount
              && SumBy(paid + [row], Cut()) == SumBy(paid, Cut()) + row.mechanicCut
              && SumBy(paid + [row], Topup()) == SumBy(paid, Topup()) + row.shopTopup
    ensures row.status != Paid ==>
              Filter(rows + [row], IsPaidRow()) == Filter(rows, IsPaidRow()) &&
              Filter(rows + [row], IsOtherRow()) == Filter(rows, IsOtherRow()) + [row]
  {
    FilterSnoc(rows + [row], |rows|, IsPaidRow());
    FilterSnoc(rows + [row], |rows|, IsOtherRow());
    assert (rows + [row])[..|rows|] == rows;
    assert (rows + [row])[..|rows| + 1] == rows + [row];
    var paid := Filter(rows, IsPaidRow());
    SumBySnoc(paid, row, Gross());
    SumBySnoc(paid, row, Cut());
    SumBySnoc(paid, row, Topup());
  }

  /** The row built from the grouped lines is the sale's row. */
  lemma GroupedRow(sale: ReportSale, items: seq<ItemLine>, services: seq<ServiceLine>,
                   itemsBySale: map<int, seq<ItemLine>>, servicesBySale: map<int, seq<ServiceLine>>)
    requires forall id :: Get(itemsBySale, id) == Filter(items, KeyIs(ItemKey(), id))
    requires forall id :: Get(servicesBySale, id) == Filter(services, KeyIs(ServiceKey(), id))
    ensures RowOf(sale, Get(itemsBySale, sale.id), Get(servicesBySale, sale.id)) == RowFor(items, services)(sale)
  {
    assert Get(itemsBySale, sale.id) == ItemsOf(items, sale.id);
    assert Get(servicesBySale, sale.id) == ServicesOf(services, sale.id);
  }

  /** The loop of lines 133-188: one pass over the sales that accumulates
      the totals and appends each row to one of the two lists. */
  method RouteSales(sales: seq<ReportSale>, items: seq<ItemLine>, services: seq<ServiceLine>,
                    itemsBySale: map<int, seq<ItemLine>>, servicesBySale: map<int, seq<ServiceLine>>)
    returns (paidSales: seq<ReportRow>, unresolved: seq<ReportRow>,
             totalGross: int, totalMechCut: int, totalShopTopup: int)
    requires forall id :: Get(itemsBySale, id) == Filter(items, KeyIs(ItemKey(), id))
    requires forall id :: Get(servicesBySale, id) == Filter(services, KeyIs(ServiceKey(), id))
    ensures paidSales == Filter(RowsOf(sales, items, services), IsPaidRow())
    ensures unresolved == Filter(RowsOf(sales, items, services), IsOtherRow())
    ensures totalGross == SumBy(paidSales, Gross())
    ensures totalMechCut == SumBy(paidSales, Cut())
    ensures totalShopTopup == SumBy(paidSales, Topup())
  {
    paidSales, unresolved := [], [];
    totalGross, totalMechCut, totalShopTopup := 0, 0, 0;
    for k := 0 to |sales|
      invariant paidSales == Filter(RowsOf(sales[..k], items, services), IsPaidRow())
      invariant unresolved == Filter(RowsOf(sales[..k], items, services), IsOtherRow())
      invariant totalGross == SumBy(paidSales, Gross())
      invariant totalMechCut == SumBy(paidSales, Cut())
      invariant totalShopTopup == SumBy(paidSales, Topup())
    {
      var sale := sales[k];
      var row := RowOf(sale, Get(itemsBySale, sale.id), Get(servicesBySale, sale.id));
      GroupedRow(sale, items, services, itemsBySale, servicesBySale);
      RowsOfSnoc(sales, items, services, k);
      RouteStep(RowsOf(sales[..k], items, services), row);
      if row.status == Paid {
        totalGross := totalGross + row.totalAmount;
        totalMechCut := totalMechCut + row.mechanicCut;
        totalShopTopup := totalShopTopup + row.shopTopup;
        paidSales := paidSales + [row];
      } else {
        unresolved := unresolved + [row];
      }
    }
    assert sales[..|sales|] == sales;
  }

  /** get_sales_report_by_date after its queries: the grouping loops of
      lines 115-122, then the pass over the sales. */
  method BuildSalesReport(sales: seq<ReportSale>, items: seq<ItemLine>, services: seq<ServiceLine>)
    returns (r: Report)
    ensures r == SalesReport(sales, items, services)
  {
    if |sales| == 0 {
      return Empty;
    }
    var itemsBySale := GroupBySale(items, ItemKey());
    var servicesBySale := GroupBySale(services, ServiceKey());
    var paidSales, unresolved, totalGross, totalMechCut, totalShopTopup :=
      RouteSales(sales, items, services, itemsBySale, servicesBySale);
    r := Report(paidSales, unresolved, totalGross, totalMechCut, totalShopTopup,
                totalGross - totalMechCut - totalShopTopup);
  }

  // ---------------------------------------------------------------------
  // What the report promises

  /** Every sale lands in exactly one of the two lists: Paid sales in
      `sales`, every other status in `unresolved`. */
  lemma ReportPartition(sales: seq<ReportSale>, items: seq<ItemLine>, services: seq<ServiceLine>)
    requires sales != []
    ensures var r := SalesReport(sales, items, services);
            |r.sales| + |r.unresolved| == |sales|
    ensures var r := SalesReport(sales, items, services);
            forall i :: 0 <= i < |sales| ==>
              var row := RowFor(items, services)(sales[i]);
              (row in r.sales <==> sales[i].status == Paid) &&
              (row in r.unresolved <==> sales[i].status != Paid)
    ensures var r := SalesReport(sales, items, services);
            (forall row :: row in r.sales ==> row.status == Paid) &&
            (forall row :: row in r.unresolved ==> row.status != Paid)
  {
    var rows := RowsOf(sales, items, services);
    var r := SalesReport(sales, items, services);
    assert r.sales == Filter(rows, IsPaidRow()) && r.unresolved == Filter(rows, IsOtherRow());
    SplitRows(rows);
    RowsOfAt(sales, items, services, 0);
    forall i | 0 <= i < |sales|
      ensures var row := RowFor(items, services)(sales[i]);
              row in rows && row.status == sales[i].status
    {
      RowsOfAt(sales, items, services, i);
      RowStatus(sales[i], items, services);
      assert rows[i] in rows;
    }
  }

  /** A row keeps its sale's status. */
  lemma RowStatus(sale: ReportSale, items: seq<ItemLine>, services: seq<ServiceLine>)
    ensures RowFor(items, services)(sale).status == sale.status
  {
  }

  /** Splitting rows by status loses and duplicates nothing. */
  lemma SplitRows(rows: seq<ReportRow>)
    ensures |Filter(rows, IsPaidRow())| + |Filter(rows, IsOtherRow())| == |rows|
    ensures forall row :: row in Filter(rows, IsPaidRow()) <==> row in rows && row.status == Paid
    ensures forall row :: row in Filter(rows, IsOtherRow()) <==> row in rows && row.status != Paid
  {
    FilterComplement(rows, IsPaidRow(), IsOtherRow());
    FilterMembers(rows, IsPaidRow());
    FilterMembers(rows, IsOtherRow());
  }

  function PaidAmount(): ReportSale -> int {
    (s: ReportSale) => if s.status == Paid then OrZero(s.totalAmount) else 0
  }

  function PaidTopup(services: seq<ServiceLine>): ReportSale -> int {
    (s: ReportSale) => if s.status == Paid then ApplyQuota(ServicesTotal(services, s.id)).topup else 0
  }

  function PaidCut(services: seq<ServiceLine>): ReportSale -> int {
    (s: ReportSale) =>
      if s.status == Paid then
        MechanicCut(ApplyQuota(ServicesTotal(services, s.id)).base, EffectiveRate(s.commissionRate))
      else 0
  }

  /** Summing a field over the Paid rows is summing it, zero off Paid,
      over the sales. */
  lemma PaidSum(sales: seq<ReportSale>, items: seq<ItemLine>, services: seq<ServiceLine>,
                f: ReportRow -> int, h: ReportSale -> int)
    requires forall s :: s in sales ==> h(s) == if s.status == Paid then f(RowFor(items, services)(s)) else 0
    ensures SumBy(Filter(RowsOf(sales, items, services), IsPaidRow()), f) == SumBy(sales, h)
  {
    var m := RowFor(items, services);
    forall s | s in sales ensures h(s) == if IsPaidRow()(m(s)) then f(m(s)) else 0 {
      assert m(s).status == s.status;
    }
    RowsOfIsMap(sales, items, services);
    FilterMapSum(sales, m, IsPaidRow(), f, h);
  }

  lemma GrossSum(sales: seq<ReportSale>, items: seq<ItemLine>, services: seq<ServiceLine>)
    ensures SumBy(Filter(RowsOf(sales, items, services), IsPaidRow()), Gross()) == SumBy(sales, PaidAmount())
  {
    PaidSum(sales, items, services, Gross(), PaidAmount());
  }

  lemma CutSum(sales: seq<ReportSale>, items: seq<ItemLine>, services: seq<ServiceLine>)
    ensures SumBy(Filter(RowsOf(sales, items, services), IsPaidRow()), Cut()) == SumBy(sales, PaidCut(services))
  {
    PaidSum(sales, items, services, Cut(), PaidCut(services));
  }

  lemma TopupSum(sales: seq<ReportSale>, items: seq<ItemLine>, services: seq<ServiceLine>)
    ensures SumBy(Filter(RowsOf(sales, items, services), IsPaidRow()), Topup()) == SumBy(sales, PaidTopup(services))
  {
    PaidSum(sales, items, services, Topup(), PaidTopup(services));
  }

  /** Every row's top-up is short of one quota. */
  lemma PaidTopupBounded(sales: seq<ReportSale>, items: seq<ItemLine>, services: seq<ServiceLine>)
    ensures var paid := Filter(RowsOf(sales, items, services), IsPaidRow());
            0 <= SumBy(paid, Topup()) <= (MechanicQuota - 1) * |paid|
  {
    var rows := RowsOf(sales, items, services);
    var paid := Filter(rows, IsPaidRow());
    RowsOfIsMap(sales, items, services);
    FilterMembers(rows, IsPaidRow());
    forall row | row in paid ensures 0 <= Topup()(row) <= MechanicQuota - 1 {
      var i :| 0 <= i < |rows| && rows[i] == row;
      RowsOfAt(sales, items, services, i);
      RowOfSpec(sales[i], ItemsOf(items, sales[i].id), ServicesOf(services, sales[i].id));
    }
    SumByBounded(paid, Topup(), 0, MechanicQuota - 1);
  }

  /** The totals are sums over the Paid sales only, a missing total counting
      0; the top-up totals at most one quota shortfall per Paid sale. */
  lemma ReportTotals(sales: seq<ReportSale>, items: seq<ItemLine>, services: seq<ServiceLine>)
    requires sales != []
    ensures var r := SalesReport(sales, items, services);
            r.totalGross == SumBy(sales, PaidAmount()) &&
            r.totalMechCut == SumBy(sales, PaidCut(services)) &&
            r.totalShopTopup == SumBy(sales, PaidTopup(services))
    ensures var r := SalesReport(sales, items, services);
            0 <= r.totalShopTopup <= (MechanicQuota - 1) * |r.sales|
  {
    GrossSum(sales, items, services);
    CutSum(sales, items, services);
    TopupSum(sales, items, services);
    PaidTopupBounded(sales, items, services);
  }
}
