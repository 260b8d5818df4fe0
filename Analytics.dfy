/** The dashboard aggregates of services/analytics_service.py: read-only
    counts, sums, filters, sorts and limits over the items table and the
    movement ledger. "now - 30 days" and "now - days" are passed in as the
    cutoff strings the SQL would compute. */
module Analytics {
  import opened Common
  import opened Sorting
  import opened Catalog
  import opened Ledger

  // ---------------------------------------------------------------------
  // total_stock

  /** Σ over every ledger row of +quantity for IN and -quantity otherwise. */
  function TotalStock(rows: seq<Movement>): int {
    SumBy(rows, FullDelta)
  }

  function ItemStockOf(rows: seq<Movement>): Item -> int {
    (it: Item) => StockFull(rows, it.id)
  }

  function Indicator(id: ItemId, d: int): Item -> int {
    (it: Item) => if it.id == id then d else 0
  }

  lemma {:induction false} IndicatorSum(items: seq<Item>, id: ItemId, d: int)
    requires DistinctIds(items)
    ensures SumBy(items, Indicator(id, d)) == if exists i :: 0 <= i < |items| && items[i].id == id then d else 0
    decreases |items|
  {
    if items != [] {
      var n := |items| - 1;
      var front := items[..n];
      assert forall i :: 0 <= i < n ==> front[i] == items[i];
      IndicatorSum(front, id, d);
      if items[n].id == id {
        assert forall i :: 0 <= i < n ==> front[i].id != id;
      }
    }
  }

  /** When every ledger row names a listed item, total_stock is the sum of the
      items' full-mode stock. */
  lemma {:induction false} TotalStockIsSumOfItemStocks(items: seq<Item>, rows: seq<Movement>)
    requires DistinctIds(items)
    requires forall m :: m in rows ==> exists i :: 0 <= i < |items| && items[i].id == m.itemId
    ensures TotalStock(rows) == SumBy(items, ItemStockOf(rows))
    decreases |rows|
  {
    if rows == [] {
      SumByZero(items, ItemStockOf(rows));
    } else {
      var n := |rows| - 1;
      var front := rows[..n];
      var m := rows[n];
      assert rows == front + [m];
      assert forall x :: x in front ==> x in rows;
      TotalStockIsSumOfItemStocks(items, front);
      forall it | it in items
        ensures ItemStockOf(rows)(it) == ItemStockOf(front)(it) + Indicator(m.itemId, FullDelta(m))(it)
      {
        StockFullAppend(front, m, it.id);
      }
      SumByPlus(items, ItemStockOf(rows), ItemStockOf(front), Indicator(m.itemId, FullDelta(m)));
      assert m in rows;
      IndicatorSum(items, m.itemId, FullDelta(m));
    }
  }

  // ---------------------------------------------------------------------
  // Low stock

  datatype LowStockRow = LowStockRow(name: string, reorderLevel: int, currentStock: int)

  /** Every item with its full-mode stock, in table order. */
  function StockRows(items: seq<Item>, rows: seq<Movement>): (r: seq<LowStockRow>)
    ensures |r| == |items|
    ensures forall i :: 0 <= i < |items| ==>
              r[i] == LowStockRow(items[i].name, items[i].reorderLevel, StockFull(rows, items[i].id))
  {
    seq(|items|, i requires 0 <= i < |items| =>
      LowStockRow(items[i].name, items[i].reorderLevel, StockFull(rows, items[i].id)))
  }

  function AtOrBelowReorder(): LowStockRow -> bool {
    (r: LowStockRow) => r.currentStock <= r.reorderLevel
  }

  function ByStockAscending(): (LowStockRow, LowStockRow) -> bool {
    (a: LowStockRow, b: LowStockRow) => a.currentStock <= b.currentStock
  }

  /** HAVING current_stock <= items.reorder_level ORDER BY current_stock ASC. */
  function LowStockItems(items: seq<Item>, rows: seq<Movement>): seq<LowStockRow> {
    SortBy(Filter(StockRows(items, rows), AtOrBelowReorder()), ByStockAscending())
  }

  /** low_stock_count: the same HAVING query, counted. */
  function LowStockCount(items: seq<Item>, rows: seq<Movement>): int {
    |Filter(StockRows(items, rows), AtOrBelowReorder())|
  }

  /** The low-stock list holds exactly the items at or below their reorder
      level, each once per item row, in ascending stock order, and the
      dashboard's count is its length. */
  lemma LowStockSpec(items: seq<Item>, rows: seq<Movement>)
    ensures forall r :: r in LowStockItems(items, rows) <==>
              exists i :: 0 <= i < |items| && r == StockRows(items, rows)[i] && r.currentStock <= r.reorderLevel
    ensures multiset(LowStockItems(items, rows)) == multiset(Filter(StockRows(items, rows), AtOrBelowReorder()))
    ensures SortedPairwise(LowStockItems(items, rows), ByStockAscending())
    ensures LowStockCount(items, rows) == |LowStockItems(items, rows)|
  {
    var all := StockRows(items, rows);
    var low := Filter(all, AtOrBelowReorder());
    FilterMembers(all, AtOrBelowReorder());
    forall r ensures r in LowStockItems(items, rows) <==> r in low {
      SortByMembers(low, ByStockAscending(), r);
    }
    SortBySorted(low, ByStockAscending());
    SortedIsPairwise(LowStockItems(items, rows), ByStockAscending());
  }

  // ---------------------------------------------------------------------
  // Hot items and the dashboard's top item

  datatype HotItem = HotItem(id: ItemId, name: string, totalSold: int)

  /** The item has at least one OUT row dated on or after `since`. */
  predicate HasRecentOut(rows: seq<Movement>, id: ItemId, since: string) {
    exists m :: m in rows && m.itemId == id && IsOutSince(since)(m)
  }

  function RecentlySold(rows: seq<Movement>, since: string): Item -> bool {
    (it: Item) => HasRecentOut(rows, it.id, since)
  }

  /** One group per item with a recent OUT row (the inner JOIN and WHERE drop
      the others), totalling its recent OUT quantities. */
  function HotGroups(items: seq<Item>, rows: seq<Movement>, since: string): (r: seq<HotItem>)
    ensures |r| == |Filter(items, RecentlySold(rows, since))|
  {
    var sold := Filter(items, RecentlySold(rows, since));
    seq(|sold|, i requires 0 <= i < |sold| => HotItem(sold[i].id, sold[i].name, OutQtySince(rows, sold[i].id, since)))
  }

  function BySoldDescending(): (HotItem, HotItem) -> bool {
    (a: HotItem, b: HotItem) => a.totalSold >= b.totalSold
  }

  /** ORDER BY total_sold DESC over all groups. */
  function HotRanking(items: seq<Item>, rows: seq<Movement>, since: string): seq<HotItem> {
    SortBy(HotGroups(items, rows, since), BySoldDescending())
  }

  /** get_hot_items(limit): the ranking cut to `limit` entries. */
  function HotItems(items: seq<Item>, rows: seq<Movement>, since: string, limit: int): seq<HotItem> {
    Limit(HotRanking(items, rows, since), limit)
  }

  /** top_item of get_dashboard_stats: the same ranking with LIMIT 1. */
  function TopItem(items: seq<Item>, rows: seq<Movement>, since: string): Option<HotItem> {
    var top := HotItems(items, rows, since, 1);
    if top == [] then None else Some(top[0])
  }

  lemma HotGroupsMembers(items: seq<Item>, rows: seq<Movement>, since: string)
    ensures forall h :: h in HotGroups(items, rows, since) <==>
              exists it :: it in items && HasRecentOut(rows, it.id, since) &&
                           h == HotItem(it.id, it.name, OutQtySince(rows, it.id, since))
  {
    var sold := Filter(items, RecentlySold(rows, since));
    FilterMembers(items, RecentlySold(rows, since));
    var g := HotGroups(items, rows, since);
    forall h | h in g
      ensures exists it :: it in items && HasRecentOut(rows, it.id, since) &&
                           h == HotItem(it.id, it.name, OutQtySince(rows, it.id, since))
    {
      var i :| 0 <= i < |g| && g[i] == h;
      assert sold[i] in sold;
    }
    forall it | it in items && HasRecentOut(rows, it.id, since)
      ensures HotItem(it.id, it.name, OutQtySince(rows, it.id, since)) in g
    {
      assert it in sold;
      var i :| 0 <= i < |sold| && sold[i] == it;
      assert g[i] == HotItem(it.id, it.name, OutQtySince(rows, it.id, since));
    }
  }

  /** Hot items: every entry is an item with a recent OUT row, carrying the
      sum of exactly those OUT quantities; the entries are in descending
      order; a limit of n >= 0 keeps exactly the first min(n, groups) entries
      of the ranking (SQLite reads a negative limit as none); and no item
      left out of a full list outsold one kept. */
  lemma HotItemsSpec(items: seq<Item>, rows: seq<Movement>, since: string, limit: int)
    ensures forall h :: h in HotItems(items, rows, since, limit) ==>
              exists it :: it in items && HasRecentOut(rows, it.id, since) &&
                           h == HotItem(it.id, it.name, OutQtySince(rows, it.id, since))
    ensures SortedPairwise(HotItems(items, rows, since, limit), BySoldDescending())
    ensures limit >= 0 ==> |HotItems(items, rows, since, limit)| <= limit
    ensures limit >= 0 ==>
              var ranking := HotRanking(items, rows, since);
              HotItems(items, rows, since, limit) == ranking[..if limit < |ranking| then limit else |ranking|]
    ensures limit < 0 ==> multiset(HotItems(items, rows, since, limit)) == multiset(HotGroups(items, rows, since))
    ensures forall i, j :: 0 <= i < |HotItems(items, rows, since, limit)| <= j < |HotRanking(items, rows, since)| ==>
              HotRanking(items, rows, since)[j].totalSold <= HotItems(items, rows, since, limit)[i].totalSold
  {
    var g := HotGroups(items, rows, since);
    var ranking := HotRanking(items, rows, since);
    var hot := HotItems(items, rows, since, limit);
    HotGroupsMembers(items, rows, since);
    SortBySorted(g, BySoldDescending());
    SortedIsPairwise(ranking, BySoldDescending());
    forall h | h in hot ensures h in g {
      SortByMembers(g, BySoldDescending(), h);
    }
    assert forall i :: 0 <= i < |hot| ==> hot[i] == ranking[i];
  }

  /** top_item is absent exactly when no item has a recent OUT row, and
      otherwise it is the head of the ranking and sold at least as much as
      every item that has one. */
  lemma TopItemSpec(items: seq<Item>, rows: seq<Movement>, since: string)
    ensures TopItem(items, rows, since).None? <==> forall it :: it in items ==> !HasRecentOut(rows, it.id, since)
    ensures TopItem(items, rows, since).Some? ==>
              TopItem(items, rows, since).value == HotRanking(items, rows, since)[0] &&
              forall it :: it in items && HasRecentOut(rows, it.id, since) ==>
                OutQtySince(rows, it.id, since) <= TopItem(items, rows, since).value.totalSold
  {
    var g := HotGroups(items, rows, since);
    var ranking := HotRanking(items, rows, since);
    HotGroupsMembers(items, rows, since);
    SortBySorted(g, BySoldDescending());
    SortedIsPairwise(ranking, BySoldDescending());
    forall h ensures h in ranking <==> h in g { SortByMembers(g, BySoldDescending(), h); }
    forall it | it in items && HasRecentOut(rows, it.id, since)
      ensures HotItem(it.id, it.name, OutQtySince(rows, it.id, since)) in ranking
    {
    }
    if TopItem(items, rows, since).Some? {
      assert ranking[0] in g;
      forall it | it in items && HasRecentOut(rows, it.id, since)
        ensures OutQtySince(rows, it.id, since) <= ranking[0].totalSold
      {
        var h := HotItem(it.id, it.name, OutQtySince(rows, it.id, since));
        assert h in ranking;
        var j :| 0 <= j < |ranking| && ranking[j] == h;
        if j > 0 { assert BySoldDescending()(ranking[0], ranking[j]); }
      }
    }
  }

  // ---------------------------------------------------------------------
  // Dead stock

  datatype DeadItem = DeadItem(name: string, lastSold: Option<string>)

  function LaterDate(a: string, b: string): string {
    if LexLe(a, b) then b else a
  }

  /** MAX(transaction_date) over the item's OUT rows; NULL when it has none. */
  function LastOut(rows: seq<Movement>, id: ItemId): Option<string> {
    if rows == [] then None
    else
      var prev := LastOut(rows[..|rows| - 1], id);
      var m := rows[|rows| - 1];
      if m.itemId != id || m.kind != Out then prev
      else if prev.None? then Some(m.date)
      else Some(LaterDate(prev.value, m.date))
  }

  /** LastOut is absent exactly when the item has no OUT row, and otherwise it
      is the date of one of them and no OUT row of the item is later. */
  lemma {:induction false} LastOutSpec(rows: seq<Movement>, id: ItemId)
    ensures LastOut(rows, id).None? <==> forall m :: m in rows ==> !(m.itemId == id && m.kind == Out)
    ensures LastOut(rows, id).Some? ==>
              (exists m :: m in rows && m.itemId == id && m.kind == Out && m.date == LastOut(rows, id).value) &&
              forall m :: m in rows && m.itemId == id && m.kind == Out ==> LexLe(m.date, LastOut(rows, id).value)
    decreases |rows|
  {
    if rows != [] {
      var n := |rows| - 1;
      var front := rows[..n];
      var m := rows[n];
      assert rows == front + [m];
      LastOutSpec(front, id);
      LexLeRefl(m.date);
      var prev := LastOut(front, id);
      if m.itemId == id && m.kind == Out && prev.Some? {
        LexLeTotal(prev.value, m.date);
        var last := LaterDate(prev.value, m.date);
        forall x | x in rows && x.itemId == id && x.kind == Out ensures LexLe(x.date, last) {
          if x in front {
            if LexLe(prev.value, m.date) { LexLeTrans(x.date, prev.value, m.date); }
          }
        }
      }
    }
  }

  function IsDead(cutoff: string): DeadItem -> bool {
    (d: DeadItem) => d.lastSold.None? || LexLe(d.lastSold.value, cutoff)
  }

  /** get_dead_stock(days): HAVING last_sold IS NULL OR last_sold <= cutoff. */
  function DeadStock(items: seq<Item>, rows: seq<Movement>, cutoff: string): seq<DeadItem> {
    Filter(seq(|items|, i requires 0 <= i < |items| => DeadItem(items[i].name, LastOut(rows, items[i].id))), IsDead(cutoff))
  }

  /** An item is listed as dead stock exactly when none of its OUT rows is
      dated after the cutoff (in particular when it has none). */
  lemma DeadStockSpec(items: seq<Item>, rows: seq<Movement>, cutoff: string, it: Item)
    requires it in items
    ensures DeadItem(it.name, LastOut(rows, it.id)) in DeadStock(items, rows, cutoff) <==>
              forall m :: m in rows && m.itemId == it.id && m.kind == Out ==> LexLe(m.date, cutoff)
  {
    var all := seq(|items|, i requires 0 <= i < |items| => DeadItem(items[i].name, LastOut(rows, items[i].id)));
    FilterMembers(all, IsDead(cutoff));
    var i :| 0 <= i < |items| && items[i] == it;
    assert all[i] == DeadItem(it.name, LastOut(rows, it.id));
    LastOutSpec(rows, it.id);
    var last := LastOut(rows, it.id);
    if last.Some? && LexLe(last.value, cutoff) {
      forall m | m in rows && m.itemId == it.id && m.kind == Out ensures LexLe(m.date, cutoff) {
        LexLeTrans(m.date, last.value, cutoff);
      }
    }
  }

  // ---------------------------------------------------------------------
  // get_dashboard_stats

  datatype Dashboard = Dashboard(
    totalItems: int,
    totalStock: int,
    lowStockCount: int,
    topItem: Option<HotItem>,
    items: seq<Item>)

  /** The dashboard tuple; `since` is datetime('now', '-30 days'). */
  function DashboardStats(items: seq<Item>, rows: seq<Movement>, since: string): (d: Dashboard)
    ensures d.totalItems == |items| && d.items == items
    ensures d.lowStockCount == |LowStockItems(items, rows)|
    ensures d.totalStock == TotalStock(rows)
    ensures d.topItem == TopItem(items, rows, since)
  {
    LowStockSpec(items, rows);
    Dashboard(|items|, TotalStock(rows), LowStockCount(items, rows), TopItem(items, rows, since), items)
  }
}
