/** Customer debt ("utang") of services/debt_service.py: the sales and
    debt_payments tables, record_payment's guarded state change, and the
    read-side balance derivation of get_all_debts and get_debt_detail.
    Amounts are integer centavos. */
module Debt {
  import opened Common
  import opened Sorting

  /** The statuses the service writes (the sales table's CHECK constraint
      names only Paid and Unresolved). */
  datatype SaleStatus = Paid | Unresolved | Partial

  datatype Sale = Sale(
    id: int,
    salesNumber: Option<string>,
    customerName: Option<string>,
    totalAmount: int,
    status: SaleStatus,
    notes: Option<string>,
    transactionDate: string,
    paidAt: Option<string>)

  datatype DebtPayment = DebtPayment(
    saleId: int,
    amountPaid: int,
    paymentMethodId: Option<int>,
    referenceNo: Option<string>,
    notes: Option<string>,
    paidBy: Option<int>,
    paidAt: string)

  datatype PaymentError =
    | SaleNotFound
    | AmountNotANumber
    | NonPositiveAmount
    | ExceedsBalance(amount: int, remaining: int)

  /** What round(float(amount_paid), 2) yields, in centavos: a finite
      amount; nothing, when float() raises; or the IEEE not-a-number that
      float() returns for the text "nan". */
  datatype AmountInput = Finite(centavos: int) | Unreadable | NaN

  /** The dictionary record_payment returns. */
  datatype PaymentReceipt = PaymentReceipt(newStatus: SaleStatus, newRemaining: int, amountPaid: int)

  ghost predicate UniqueSaleIds(sales: seq<Sale>) {
    forall i, j :: 0 <= i < j < |sales| ==> sales[i].id != sales[j].id
  }

  /** The row `WHERE s.id = ?` finds. */
  function FindSale(sales: seq<Sale>, id: int): (r: Option<nat>)
    ensures r.None? <==> forall i :: 0 <= i < |sales| ==> sales[i].id != id
    ensures r.Some? ==> r.value < |sales| && sales[r.value].id == id
  {
    if sales == [] then None
    else if sales[0].id == id then Some(0)
    else
      var r := FindSale(sales[1..], id);
      assert forall i :: 0 < i < |sales| ==> sales[i] == sales[1..][i - 1];
      if r.None? then None else Some(r.value + 1)
  }

  function PaidTowards(saleId: int): DebtPayment -> int {
    (p: DebtPayment) => if p.saleId == saleId then p.amountPaid else 0
  }

  /** COALESCE(SUM(dp.amount_paid), 0) over the sale's payments. */
  function TotalPaid(payments: seq<DebtPayment>, saleId: int): int {
    SumBy(payments, PaidTowards(saleId))
  }

  lemma TotalPaidAppend(payments: seq<DebtPayment>, p: DebtPayment, saleId: int)
    ensures TotalPaid(payments + [p], saleId) ==
            TotalPaid(payments, saleId) + (if p.saleId == saleId then p.amountPaid else 0)
  {
    SumByAppend(payments, [p], PaidTowards(saleId));
    SumBySingle(p, PaidTowards(saleId));
  }

  /** Σ(payments of a sale) never exceeds its total. */
  ghost predicate NoOverpayment(sales: seq<Sale>, payments: seq<DebtPayment>) {
    forall i :: 0 <= i < |sales| ==> TotalPaid(payments, sales[i].id) <= sales[i].totalAmount
  }

  /** The two guards of record_payment as written, with IEEE comparison:
      every comparison with NaN is false, so NaN passes both. */
  function AcceptedAsWritten(remaining: int, amount: AmountInput): bool {
    match amount
    case Unreadable => false
    case NaN => true  // nan <= 0 and nan > remaining are both false
    case Finite(v) => !(v <= 0) && !(v > remaining)
  }

  /** The guard and status rule of record_payment, for a sale that exists,
      with a NaN amount rejected like an unreadable one. */
  function Decide(totalAmount: int, totalPaid: int, amount: AmountInput): (r: Result<PaymentReceipt, PaymentError>)
    ensures r.Ok? <==> amount.Finite? && 0 < amount.centavos <= totalAmount - totalPaid
    ensures !amount.Finite? ==> r == Err(AmountNotANumber)
    ensures amount.Finite? && amount.centavos <= 0 ==> r == Err(NonPositiveAmount)
    ensures amount.Finite? && 0 < amount.centavos && totalAmount - totalPaid < amount.centavos ==>
              r == Err(ExceedsBalance(amount.centavos, totalAmount - totalPaid))
    ensures r.Ok? ==> r.value.amountPaid == amount.centavos &&
                      r.value.newRemaining == totalAmount - (totalPaid + amount.centavos) &&
                      0 <= r.value.newRemaining < totalAmount - totalPaid
    ensures r.Ok? ==> r.value.newStatus != Unresolved &&
                      (r.value.newStatus == Paid <==> r.value.newRemaining == 0)
  {
    var remaining := totalAmount - totalPaid;
    match amount
    case Unreadable => Err(AmountNotANumber)
    case NaN => Err(AmountNotANumber)
    case Finite(v) =>
      if v <= 0 then Err(NonPositiveAmount)
      else if v > remaining then Err(ExceedsBalance(v, remaining))
      else
        var newRemaining := totalAmount - (totalPaid + v);
        Ok(PaymentReceipt(if newRemaining <= 0 then Paid else Partial, newRemaining, v))
  }

  /** As written, a NaN payment gets past both guards whatever the balance,
      even on a sale already paid in full. */
  lemma NaNPassesGuardsAsWritten(totalAmount: int, totalPaid: int)
    ensures AcceptedAsWritten(totalAmount - totalPaid, NaN)
    ensures Decide(totalAmount, totalPaid, NaN).Err?
  {
  }

  /** On every other input the written guards and Decide agree. */
  lemma GuardsAgreeOnOtherInputs(totalAmount: int, totalPaid: int, amount: AmountInput)
    requires amount != NaN
    ensures AcceptedAsWritten(totalAmount - totalPaid, amount) <==> Decide(totalAmount, totalPaid, amount).Ok?
  {
  }

  /** The UPDATE of the sales row: Paid stamps paid_at, Partial leaves it. */
  function Settle(sale: Sale, status: SaleStatus, now: string): Sale {
    if status == Paid then sale.(status := Paid, paidAt := Some(now))
    else sale.(status := status)
  }

  // ---------------------------------------------------------------------
  // Read side

  datatype DebtQueryRow = DebtQueryRow(sale: Sale, totalPaid: int)

  datatype DebtRow = DebtRow(sale: Sale, totalPaid: int, remaining: int)

  datatype DebtDetail = DebtDetail(sale: Sale, totalPaid: int, remaining: int, payments: seq<DebtPayment>)

  predicate IsOpen(s: Sale) {
    s.status == Unresolved || s.status == Partial
  }

  function ByDateAscending(): (DebtQueryRow, DebtQueryRow) -> bool {
    (a: DebtQueryRow, b: DebtQueryRow) => LexLe(a.sale.transactionDate, b.sale.transactionDate)
  }

  function ByPaidAtAscending(): (DebtPayment, DebtPayment) -> bool {
    (a: DebtPayment, b: DebtPayment) => LexLe(a.paidAt, b.paidAt)
  }

  /** The rows of get_all_debts' query: the sales still Unresolved or Partial,
      each with its total paid, ORDER BY transaction_date ASC. */
  function DebtQuery(sales: seq<Sale>, payments: seq<DebtPayment>): seq<DebtQueryRow> {
    var open := Filter(sales, (s: Sale) => IsOpen(s));
    SortBy(seq(|open|, i requires 0 <= i < |open| => DebtQueryRow(open[i], TotalPaid(payments, open[i].id))),
           ByDateAscending())
  }

  /** The query keeps exactly the open sales, each once, with its payments
      summed (0 for a sale with none), oldest first. */
  lemma DebtQuerySpec(sales: seq<Sale>, payments: seq<DebtPayment>)
    ensures forall q: DebtQueryRow :: q in DebtQuery(sales, payments) <==>
              q.sale in sales && IsOpen(q.sale) && q.totalPaid == TotalPaid(payments, q.sale.id)
    ensures |DebtQuery(sales, payments)| == |Filter(sales, (s: Sale) => IsOpen(s))|
    ensures SortedPairwise(DebtQuery(sales, payments), ByDateAscending())
  {
    var open := Filter(sales, (s: Sale) => IsOpen(s));
    FilterMembers(sales, (s: Sale) => IsOpen(s));
    var rows := seq(|open|, i requires 0 <= i < |open| => DebtQueryRow(open[i], TotalPaid(payments, open[i].id)));
    forall q: DebtQueryRow ensures q in DebtQuery(sales, payments) <==> q in rows {
      SortByMembers(rows, ByDateAscending(), q);
    }
    forall q: DebtQueryRow | q in rows
      ensures q.sale in sales && IsOpen(q.sale) && q.totalPaid == TotalPaid(payments, q.sale.id)
    {
      var i :| 0 <= i < |rows| && rows[i] == q;
      assert open[i] in open;
    }
    forall q: DebtQueryRow | q.sale in sales && IsOpen(q.sale) && q.totalPaid == TotalPaid(payments, q.sale.id)
      ensures q in rows
    {
      var i :| 0 <= i < |open| && open[i] == q.sale;
      assert rows[i] == q;
    }
    assert Total(ByDateAscending()) by {
      forall a: DebtQueryRow, b: DebtQueryRow ensures ByDateAscending()(a, b) || ByDateAscending()(b, a) {
        LexLeTotal(a.sale.transactionDate, b.sale.transactionDate);
      }
    }
    assert Transitive(ByDateAscending()) by {
      forall a: DebtQueryRow, b: DebtQueryRow, c: DebtQueryRow
        | ByDateAscending()(a, b) && ByDateAscending()(b, c)
        ensures ByDateAscending()(a, c)
      {
        LexLeTrans(a.sale.transactionDate, b.sale.transactionDate, c.sale.transactionDate);
      }
    }
    SortBySorted(rows, ByDateAscending());
    SortedIsPairwise(DebtQuery(sales, payments), ByDateAscending());
  }

  /** One row of the query, read by position. */
  lemma DebtQueryAt(sales: seq<Sale>, payments: seq<DebtPayment>, k: int)
    requires 0 <= k < |DebtQuery(sales, payments)|
    ensures var q := DebtQuery(sales, payments)[k];
            q.sale in sales && IsOpen(q.sale) && q.totalPaid == TotalPaid(payments, q.sale.id)
    ensures var q := DebtQuery(sales, payments)[k];
            NoOverpayment(sales, payments) ==> q.totalPaid <= q.sale.totalAmount
  {
    var q := DebtQuery(sales, payments)[k];
    DebtQuerySpec(sales, payments);
    assert q in DebtQuery(sales, payments);
    var idx :| 0 <= idx < |sales| && sales[idx] == q.sale;
  }

  /** The two writes of a successful payment: the appended row moves only
      its own sale's total, the UPDATE keeps every id, and a payment within
      the balance keeps every sale from being overpaid. */
  lemma ApplyPayment(sales: seq<Sale>, payments: seq<DebtPayment>, i: int, p: DebtPayment,
                     status: SaleStatus, now: string)
    requires UniqueSaleIds(sales) && 0 <= i < |sales| && p.saleId == sales[i].id
    ensures UniqueSaleIds(sales[i := Settle(sales[i], status, now)])
    ensures forall id :: TotalPaid(payments + [p], id) ==
              TotalPaid(payments, id) + (if id == p.saleId then p.amountPaid else 0)
    ensures NoOverpayment(sales, payments) && TotalPaid(payments, p.saleId) + p.amountPaid <= sales[i].totalAmount ==>
              NoOverpayment(sales[i := Settle(sales[i], status, now)], payments + [p])
  {
    var sales' := sales[i := Settle(sales[i], status, now)];
    forall id ensures TotalPaid(payments + [p], id) == TotalPaid(payments, id) + (if id == p.saleId then p.amountPaid else 0) {
      TotalPaidAppend(payments, p, id);
    }
    assert forall k :: 0 <= k < |sales'| ==> sales'[k].id == sales[k].id && sales'[k].totalAmount == sales[k].totalAmount;
    if NoOverpayment(sales, payments) && TotalPaid(payments, p.saleId) + p.amountPaid <= sales[i].totalAmount {
      forall k | 0 <= k < |sales'| ensures TotalPaid(payments + [p], sales'[k].id) <= sales'[k].totalAmount {
        if k != i { assert sales[k].id != p.saleId; }
      }
    }
  }

  class DebtBook {
    var sales: seq<Sale>
    var payments: seq<DebtPayment>

    /** sales.id is the primary key. */
    ghost predicate Valid()
      reads this
    {
      UniqueSaleIds(sales)
    }

    constructor (initialSales: seq<Sale>, initialPayments: seq<DebtPayment>)
      requires UniqueSaleIds(initialSales)
      ensures Valid() && sales == initialSales && payments == initialPayments
    {
      sales := initialSales;
      payments := initialPayments;
    }

    /** record_payment(sale_id, amount_paid, ...): an unknown sale or a
        rejected amount writes nothing (the transaction is rolled back);
        otherwise exactly one payment row is appended and only that sale's
        status (and, when settled, paid_at) changes. */
    method RecordPayment(saleId: int, amount: AmountInput, paymentMethodId: Option<int>,
                         referenceNo: Option<string>, notes: Option<string>, paidBy: Option<int>,
                         now: string)
      returns (r: Result<PaymentReceipt, PaymentError>)
      requires Valid()
      modifies this
      ensures Valid()
      ensures FindSale(old(sales), saleId).None? ==> r == Err(SaleNotFound)
      ensures FindSale(old(sales), saleId).Some? ==>
                r == Decide(old(sales)[FindSale(old(sales), saleId).value].totalAmount,
                            TotalPaid(old(payments), saleId), amount)
      ensures r.Err? ==> sales == old(sales) && payments == old(payments)
      ensures r.Ok? ==>
                var i := FindSale(old(sales), saleId).value;
                && payments == old(payments) + [DebtPayment(saleId, r.value.amountPaid, paymentMethodId,
                                                            referenceNo, notes, paidBy, now)]
                && sales == old(sales)[i := Settle(old(sales)[i], r.value.newStatus, now)]
                && r.value.newRemaining == sales[i].totalAmount - TotalPaid(payments, saleId)
      ensures forall id :: id != saleId ==> TotalPaid(payments, id) == TotalPaid(old(payments), id)
      ensures NoOverpayment(old(sales), old(payments)) ==> NoOverpayment(sales, payments)
    {
      var found := FindSale(sales, saleId);
      if found.None? {
        return Err(SaleNotFound);
      }
      var i := found.value;
      var totalAmount := sales[i].totalAmount;
      var totalPaid := TotalPaid(payments, saleId);
      r := Decide(totalAmount, totalPaid, amount);
      if r.Err? {
        return;
      }
      var p := DebtPayment(saleId, r.value.amountPaid, paymentMethodId, referenceNo, notes, paidBy, now);
      ApplyPayment(sales, payments, i, p, r.value.newStatus, now);
      payments := payments + [p];
      sales := sales[i := Settle(sales[i], r.value.newStatus, now)];
    }

    /** get_all_debts(): the open sales with what has been paid and what
        remains, in the query's order. */
    method GetAllDebts() returns (result: seq<DebtRow>)
      ensures |result| == |DebtQuery(sales, payments)|
      ensures forall k :: 0 <= k < |result| ==>
                result[k].sale == DebtQuery(sales, payments)[k].sale &&
                result[k].totalPaid == TotalPaid(payments, result[k].sale.id) &&
                result[k].remaining == result[k].sale.totalAmount - result[k].totalPaid
      ensures forall k :: 0 <= k < |result| ==> result[k].sale in sales && IsOpen(result[k].sale)
      ensures NoOverpayment(sales, payments) ==> forall k :: 0 <= k < |result| ==> result[k].remaining >= 0
    {
      var rows := DebtQuery(sales, payments);
      result := [];
      var k := 0;
      while k < |rows|
        invariant 0 <= k <= |rows|
        invariant |result| == k
        invariant forall j :: 0 <= j < k ==>
                    result[j].sale == rows[j].sale &&
                    result[j].totalPaid == TotalPaid(payments, result[j].sale.id) &&
                    result[j].remaining == result[j].sale.totalAmount - result[j].totalPaid &&
                    result[j].sale in sales && IsOpen(result[j].sale) &&
                    (NoOverpayment(sales, payments) ==> result[j].remaining >= 0)
      {
        DebtQueryAt(sales, payments, k);
        var d := DebtRow(rows[k].sale, rows[k].totalPaid, rows[k].sale.totalAmount - rows[k].totalPaid);
        result := result + [d];
        k := k + 1;
      }
    }

    /** get_debt_detail(sale_id): None for an unknown sale; otherwise the sale,
        its balance and its payment history, ORDER BY paid_at ASC. */
    function DebtDetailOf(saleId: int): (r: Option<DebtDetail>)
      reads this
      ensures r.None? <==> forall i :: 0 <= i < |sales| ==> sales[i].id != saleId
      ensures r.Some? ==>
                r.value.sale in sales && r.value.sale.id == saleId &&
                r.value.totalPaid == TotalPaid(payments, saleId) &&
                r.value.remaining == r.value.sale.totalAmount - r.value.totalPaid
      ensures r.Some? ==>
                multiset(r.value.payments) == multiset(Filter(payments, (p: DebtPayment) => p.saleId == saleId)) &&
                Sorted(r.value.payments, ByPaidAtAscending())
    {
      var found := FindSale(sales, saleId);
      if found.None? then None
      else
        var sale := sales[found.value];
        var history := Filter(payments, (p: DebtPayment) => p.saleId == saleId);
        assert Total(ByPaidAtAscending()) by {
          forall a: DebtPayment, b: DebtPayment ensures ByPaidAtAscending()(a, b) || ByPaidAtAscending()(b, a) {
            LexLeTotal(a.paidAt, b.paidAt);
          }
        }
        SortBySorted(history, ByPaidAtAscending());
        var paid := TotalPaid(payments, saleId);
        Some(DebtDetail(sale, paid, sale.totalAmount - paid, SortBy(history, ByPaidAtAscending())))
    }
  }
}
