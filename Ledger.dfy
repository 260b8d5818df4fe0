/** The stock ledger: inventory_transactions is an append-only sequence of
    movement rows, and every stock figure is a signed sum over it, never a
    stored counter (services/inventory_service.py). */
module Ledger {
  import opened Common
  import opened Catalog

  datatype MovementType = In | Out | Order

  /** The text stored in transaction_type. */
  function TypeName(t: MovementType): string {
    match t
    case In => "IN"
    case Out => "OUT"
    case Order => "ORDER"
  }

  /** One row of inventory_transactions. The reference, reason and notes
      columns are read by the audit trail; rows written by the code modelled
      here leave them empty. */
  datatype Movement = Movement(
    itemId: ItemId,
    quantity: int,
    kind: MovementType,
    date: string,
    userId: Option<int>,
    userName: Option<string>,
    referenceId: Option<int>,
    referenceType: Option<string>,
    changeReason: Option<string>,
    notes: Option<string>)

  /** A movement with every optional column left NULL. */
  function Plain(itemId: ItemId, quantity: int, kind: MovementType, date: string): Movement {
    Movement(itemId, quantity, kind, date, None, None, None, None, None, None)
  }

  // ---------------------------------------------------------------------
  // The two CASE expressions of get_items_with_stock.

  /** Full mode: IN adds, every other type (OUT and ORDER alike) subtracts. */
  function FullDelta(m: Movement): int {
    if m.kind == In then m.quantity else -m.quantity
  }

  /** Snapshot mode: IN adds at any date, OUT subtracts only on or after the
      cutoff, anything else counts zero. */
  function SnapshotDelta(m: Movement, cutoff: string): int {
    if m.kind == In then m.quantity
    else if m.kind == Out && LexLe(cutoff, m.date) then -m.quantity
    else 0
  }

  function FullContribution(id: ItemId): Movement -> int {
    (m: Movement) => if m.itemId == id then FullDelta(m) else 0
  }

  function SnapshotContribution(id: ItemId, cutoff: string): Movement -> int {
    (m: Movement) => if m.itemId == id then SnapshotDelta(m, cutoff) else 0
  }

  /** current_stock of one item in full mode. */
  function StockFull(rows: seq<Movement>, id: ItemId): int {
    SumBy(rows, FullContribution(id))
  }

  /** current_stock of one item in snapshot mode. */
  function StockSnapshot(rows: seq<Movement>, id: ItemId, cutoff: string): int {
    SumBy(rows, SnapshotContribution(id, cutoff))
  }

  datatype ItemStock = ItemStock(id: ItemId, name: string, currentStock: int)

  /** get_items_with_stock(snapshot_date): one row per item (LEFT JOIN, so an
      item without movements still appears), with its stock in snapshot mode
      when snapshot_date is truthy and in full mode otherwise. */
  function ItemsWithStock(items: seq<Item>, rows: seq<Movement>, snapshotDate: Option<string>): (r: seq<ItemStock>)
    ensures |r| == |items|
    ensures forall i :: 0 <= i < |items| ==> r[i].id == items[i].id && r[i].name == items[i].name
    ensures forall i :: 0 <= i < |items| ==>
              r[i].currentStock == if Truthy(snapshotDate) then StockSnapshot(rows, items[i].id, snapshotDate.value)
                                   else StockFull(rows, items[i].id)
  {
    seq(|items|, i requires 0 <= i < |items| =>
      ItemStock(items[i].id, items[i].name,
                if Truthy(snapshotDate) then StockSnapshot(rows, items[i].id, snapshotDate.value)
                else StockFull(rows, items[i].id)))
  }

  // ---------------------------------------------------------------------
  // Reference definitions: quantities per type, summed over one item's rows.

  function QtyWhere(id: ItemId, p: Movement -> bool): Movement -> int {
    (m: Movement) => if m.itemId == id && p(m) then m.quantity else 0
  }

  function IsIn(): Movement -> bool { (m: Movement) => m.kind == In }
  function IsNotIn(): Movement -> bool { (m: Movement) => m.kind != In }
  function IsOutSince(cutoff: string): Movement -> bool { (m: Movement) => m.kind == Out && LexLe(cutoff, m.date) }

  /** Σ quantity over the item's IN rows. */
  function InQty(rows: seq<Movement>, id: ItemId): int { SumBy(rows, QtyWhere(id, IsIn())) }

  /** Σ quantity over the item's rows of every other type. */
  function NonInQty(rows: seq<Movement>, id: ItemId): int { SumBy(rows, QtyWhere(id, IsNotIn())) }

  /** Σ quantity over the item's OUT rows dated on or after the cutoff. */
  function OutQtySince(rows: seq<Movement>, id: ItemId, cutoff: string): int {
    SumBy(rows, QtyWhere(id, IsOutSince(cutoff)))
  }

  /** The item's own rows, in ledger order. */
  function OwnRows(rows: seq<Movement>, id: ItemId): seq<Movement> {
    Filter(rows, (m: Movement) => m.itemId == id)
  }

  /** Full mode is "IN minus everything else". */
  lemma StockFullIsInMinusRest(rows: seq<Movement>, id: ItemId)
    ensures StockFull(rows, id) == InQty(rows, id) - NonInQty(rows, id)
  {
    SumByDifference(rows, FullContribution(id), QtyWhere(id, IsIn()), QtyWhere(id, IsNotIn()));
  }

  /** Snapshot mode is "all IN minus OUT since the cutoff". */
  lemma StockSnapshotIsInMinusRecentOut(rows: seq<Movement>, id: ItemId, cutoff: string)
    ensures StockSnapshot(rows, id, cutoff) == InQty(rows, id) - OutQtySince(rows, id, cutoff)
  {
    SumByDifference(rows, SnapshotContribution(id, cutoff), QtyWhere(id, IsIn()), QtyWhere(id, IsOutSince(cutoff)));
  }

  /** An item's stock is a function of its own rows only... */
  lemma StockFullOwnRows(rows: seq<Movement>, id: ItemId)
    ensures StockFull(rows, id) == StockFull(OwnRows(rows, id), id)
  {
    SumByFilter(rows, (m: Movement) => m.itemId == id, FullContribution(id), FullContribution(id));
    FilterMembers(rows, (m: Movement) => m.itemId == id);
    SumByCongruent(OwnRows(rows, id), FullContribution(id), (m: Movement) => FullDelta(m));
    SumByFilter(rows, (m: Movement) => m.itemId == id, (m: Movement) => FullDelta(m), FullContribution(id));
  }

  lemma StockSnapshotOwnRows(rows: seq<Movement>, id: ItemId, cutoff: string)
    ensures StockSnapshot(rows, id, cutoff) == StockSnapshot(OwnRows(rows, id), id, cutoff)
  {
    SumByFilter(rows, (m: Movement) => m.itemId == id, (m: Movement) => SnapshotDelta(m, cutoff), SnapshotContribution(id, cutoff));
    FilterMembers(rows, (m: Movement) => m.itemId == id);
    SumByCongruent(OwnRows(rows, id), SnapshotContribution(id, cutoff), (m: Movement) => SnapshotDelta(m, cutoff));
  }

  /** ...so an item without movements has stock 0 in both modes. */
  lemma NoMovementsNoStock(rows: seq<Movement>, id: ItemId, cutoff: string)
    requires forall m :: m in rows ==> m.itemId != id
    ensures StockFull(rows, id) == 0 && StockSnapshot(rows, id, cutoff) == 0
  {
    SumByZero(rows, FullContribution(id));
    SumByZero(rows, SnapshotContribution(id, cutoff));
  }

  /** ...and not of the order in which the rows were written. */
  lemma StockOrderIndependent(rows: seq<Movement>, rows': seq<Movement>, id: ItemId, cutoff: string)
    requires multiset(rows) == multiset(rows')
    ensures StockFull(rows, id) == StockFull(rows', id)
    ensures StockSnapshot(rows, id, cutoff) == StockSnapshot(rows', id, cutoff)
  {
    SumByPermutation(rows, rows', FullContribution(id));
    SumByPermutation(rows, rows', SnapshotContribution(id, cutoff));
  }

  /** With only IN and OUT rows of non-negative quantity, the snapshot view
      never shows less than the full view: it leaves out old OUT rows. */
  lemma SnapshotAtLeastFull(rows: seq<Movement>, id: ItemId, cutoff: string)
    requires forall m :: m in rows ==> m.kind != Order && m.quantity >= 0
    ensures StockFull(rows, id) <= StockSnapshot(rows, id, cutoff)
  {
    SumByMonotone(rows, FullContribution(id), SnapshotContribution(id, cutoff));
  }

  /** Appending a movement moves the full-mode stock of its own item by its
      signed quantity and leaves every other item's stock as it was. */
  lemma StockFullAppend(rows: seq<Movement>, m: Movement, id: ItemId)
    ensures StockFull(rows + [m], id) ==
            StockFull(rows, id) + (if m.itemId != id then 0 else if m.kind == In then m.quantity else -m.quantity)
  {
    SumByAppend(rows, [m], FullContribution(id));
    SumBySingle(m, FullContribution(id));
  }

  lemma StockSnapshotAppend(rows: seq<Movement>, m: Movement, id: ItemId, cutoff: string)
    ensures StockSnapshot(rows + [m], id, cutoff) == StockSnapshot(rows, id, cutoff) + SnapshotContribution(id, cutoff)(m)
  {
    SumByAppend(rows, [m], SnapshotContribution(id, cutoff));
    SumBySingle(m, SnapshotContribution(id, cutoff));
  }

  /** Committing a batch adds the batch's own contribution to every item's
      full-mode stock. */
  lemma StockFullConcat(rows: seq<Movement>, batch: seq<Movement>, id: ItemId)
    ensures StockFull(rows + batch, id) == StockFull(rows, id) + StockFull(batch, id)
  {
    SumByAppend(rows, batch, FullContribution(id));
  }

  /** A batch of IN rows with positive quantities adds exactly its quantities
      for the item, which is never negative. */
  lemma StockFullOfIns(batch: seq<Movement>, id: ItemId)
    requires forall m :: m in batch ==> m.kind == In && m.quantity > 0
    ensures StockFull(batch, id) == InQty(batch, id) >= 0
  {
    SumByCongruent(batch, FullContribution(id), QtyWhere(id, IsIn()));
    SumByMonotone(batch, (m: Movement) => 0, QtyWhere(id, IsIn()));
    SumByZero(batch, (m: Movement) => 0);
  }

  /** A batch of OUT rows with positive quantities takes away exactly its
      quantities for the item, which is never negative. */
  lemma StockFullOfOuts(batch: seq<Movement>, id: ItemId)
    requires forall m :: m in batch ==> m.kind == Out && m.quantity > 0
    ensures StockFull(batch, id) == -NonInQty(batch, id)
    ensures NonInQty(batch, id) >= 0
  {
    var zero := (m: Movement) => 0;
    SumByDifference(batch, FullContribution(id), zero, QtyWhere(id, IsNotIn()));
    SumByZero(batch, zero);
    SumByMonotone(batch, zero, QtyWhere(id, IsNotIn()));
  }
}
