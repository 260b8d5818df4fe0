/** The inventory_transactions table as a mutable object, and add_transaction
    (services/transactions_service.py), which appends one movement to it. */
module Transactions {
  import opened Common
  import opened Catalog
  import opened Ledger

  /** The transaction_type values the table's CHECK constraint admits. */
  function ParseType(t: string): (r: Option<MovementType>)
    ensures r.Some? <==> t == "IN" || t == "OUT"
    ensures r.Some? ==> TypeName(r.value) == t
  {
    if t == "IN" then Some(In) else if t == "OUT" then Some(Out) else None
  }

  class InventoryTable {
    /** The rows, oldest first. Rows are only ever appended. */
    var rows: seq<Movement>

    constructor (initial: seq<Movement>)
      ensures rows == initial
    {
      rows := initial;
    }

    /** One committed INSERT. */
    method Insert(m: Movement)
      modifies this
      ensures rows == old(rows) + [m]
    {
      rows := rows + [m];
    }

    /** The INSERTs of one transaction, committed together. */
    method InsertAll(ms: seq<Movement>)
      modifies this
      ensures rows == old(rows) + ms
    {
      rows := rows + ms;
    }

    /** add_transaction(item_id, quantity, transaction_type): one INSERT with
        no user and the database's current time as its date. There is no sign
        check on quantity; a type other than IN or OUT fails the CHECK
        constraint, and then nothing is written. */
    method AddTransaction(itemId: ItemId, quantity: int, transactionType: string, now: string) returns (ok: bool)
      modifies this
      ensures ok <==> ParseType(transactionType).Some?
      ensures ok ==> rows == old(rows) + [Plain(itemId, quantity, ParseType(transactionType).value, now)]
      ensures !ok ==> rows == old(rows)
      ensures ok ==> forall id ::
                       StockFull(rows, id) == StockFull(old(rows), id) +
                         (if id != itemId then 0 else if transactionType == "IN" then quantity else -quantity)
    {
      var kind := ParseType(transactionType);
      if kind.None? {
        return false;
      }
      ghost var before := rows;
      var m := Plain(itemId, quantity, kind.value, now);
      Insert(m);
      forall id ensures StockFull(rows, id) == StockFull(before, id) + (if id != itemId then 0
                                            else if transactionType == "IN" then quantity else -quantity)
      {
        StockFullAppend(before, m, id);
      }
      ok := true;
    }
  }
}
