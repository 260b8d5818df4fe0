/** import_inventory_csv and normalize_name of
    importers/inventory_importer.py: each CSV record is classified, the
    counters and the list of unmatched rows are updated, and the baseline
    stock of every accepted record becomes one IN movement. The movements are
    committed together at the end; an exception the loop does not catch
    leaves the ledger as it was. */
module InventoryImport {
  import opened Common
  import opened Text
  import opened Catalog
  import opened Ledger
  import opened Transactions
  import opened Csv

  /** BASELINE_SNAPSHOT_DATE. */
  const BaselineSnapshotDate: string := "2026-01-21 00:00:00"

  /** normalize_name(value): "" for "", otherwise trimmed, whitespace runs
      collapsed to one space, lowercased. */
  function NormalizeName(value: string): string {
    if value == "" then "" else Lower(Join(Words(Strip(value)), " "))
  }

  lemma SingleSpacedLower(s: string)
    requires SingleSpaced(s)
    ensures SingleSpaced(Lower(s))
  {
  }

  /** The result is lowercase and single-spaced, with the input's words
      lowercased. */
  lemma NormalizeNameShape(value: string)
    ensures value == "" ==> NormalizeName(value) == ""
    ensures SingleSpaced(NormalizeName(value))
    ensures Lower(NormalizeName(value)) == NormalizeName(value)
    ensures Words(NormalizeName(value)) == Map(Words(value), (w: string) => Lower(w))
  {
    if value != "" {
      var ws := Words(Strip(value));
      WordsAreWords(Strip(value));
      WordsStrip(value);
      LowerJoinShape(ws);
    }
  }

  /** Joining words and lowercasing gives a lowercase, single-spaced text
      that splits into the lowercased words. */
  lemma LowerJoinShape(ws: seq<string>)
    requires AllWords(ws)
    ensures SingleSpaced(Lower(Join(ws, " ")))
    ensures Lower(Lower(Join(ws, " "))) == Lower(Join(ws, " "))
    ensures Words(Lower(Join(ws, " "))) == Map(ws, (w: string) => Lower(w))
  {
    JoinShape(ws);
    SingleSpacedLower(Join(ws, " "));
    LowerIdempotent(Join(ws, " "));
    LowerOfJoin(ws);
    var lws := Map(ws, (w: string) => Lower(w));
    forall i | 0 <= i < |lws| ensures IsWord(lws[i]) {
      LowerKeepsWords(ws[i]);
    }
    WordsOfJoin(lws);
  }

  /** Normalising a normalised name changes nothing. */
  lemma NormalizeNameIdempotent(value: string)
    ensures NormalizeName(NormalizeName(value)) == NormalizeName(value)
  {
    var r := NormalizeName(value);
    if r != "" {
      NormalizeNameShape(value);
      var ws := Words(Strip(value));
      WordsStrip(value);
      WordsStrip(r);
      assert Words(Strip(r)) == Map(ws, (w: string) => Lower(w));
      LowerOfJoin(ws);
      LowerIdempotent(Join(ws, " "));
    }
  }

  // ---------------------------------------------------------------------
  // One record

  datatype SkipReason = MissingFields | BadQuantity | ZeroQuantity

  /** The dictionary appended to skipped_rows. */
  datatype SkippedRow = SkippedRow(inventoryId: string, normalizedInventoryId: string, quantityOnHand: string)

  datatype RowOutcome =
    | Imported(itemId: ItemId, quantity: int)
    | Skipped(reason: SkipReason)
    | Unmatched(row: SkippedRow)
    | Raises

  /** `normalized.get("inventory id") or ""`. */
  function RawItemName(row: CsvRow): string {
    OrElse(Field(row.fields, "inventory id"), "")
  }

  /** `normalized.get("quantity on hand") or ""`. */
  function RawQuantity(row: CsvRow): string {
    OrElse(Field(row.fields, "quantity on hand"), "")
  }

  /** The body of the loop for one record, once the raw name, its
      normalised form and the stripped quantity are read: header
      normalisation (which raises on surplus values), then missing fields,
      then the quantity, then its sign, then the strict name match. An
      OverflowError from the quantity is not caught. */
  function Decide(surplus: bool, rawName: string, name: string, qty: string,
                  lookup: map<string, ItemId>, parse: string -> ParseOutcome): RowOutcome {
    if surplus then Raises
    else if name == "" || qty == "" then Skipped(MissingFields)
    else
      match parse(RemoveCommas(qty))
      case OverflowError => Raises
      case ValueError => Skipped(BadQuantity)
      case Parsed(q) =>
        if q <= 0 then Skipped(ZeroQuantity)
        else if name !in lookup || lookup[name] == 0 then Unmatched(SkippedRow(rawName, name, qty))
        else Imported(lookup[name], q)
  }

  function ClassifyRow(row: CsvRow, lookup: map<string, ItemId>, parse: string -> ParseOutcome): RowOutcome {
    Decide(row.surplus, RawItemName(row), NormalizeName(RawItemName(row)), Strip(RawQuantity(row)), lookup, parse)
  }

  /** The checks in their order, each outcome with what led to it. */
  lemma DecideSpec(surplus: bool, rawName: string, name: string, qty: string,
                   lookup: map<string, ItemId>, parse: string -> ParseOutcome)
    ensures var o := Decide(surplus, rawName, name, qty, lookup, parse);
            && (o.Raises? <==> surplus || (name != "" && qty != "" && parse(RemoveCommas(qty)).OverflowError?))
            && (o == Skipped(MissingFields) <==> !surplus && (name == "" || qty == ""))
            && (o == Skipped(BadQuantity) <==> !surplus && name != "" && qty != "" && parse(RemoveCommas(qty)).ValueError?)
            && (o == Skipped(ZeroQuantity) <==>
                  !surplus && name != "" && qty != "" &&
                  parse(RemoveCommas(qty)).Parsed? && parse(RemoveCommas(qty)).value <= 0)
            && (o.Unmatched? ==> parse(RemoveCommas(qty)).Parsed? && parse(RemoveCommas(qty)).value > 0 &&
                                 (name !in lookup || lookup[name] == 0) && o.row == SkippedRow(rawName, name, qty))
            && (o.Imported? ==> !surplus && parse(RemoveCommas(qty)) == Parsed(o.quantity) && o.quantity > 0 &&
                                name in lookup && lookup[name] == o.itemId && o.itemId != 0)
  {
  }

  // ---------------------------------------------------------------------
  // The counters

  /** The skip_reasons dictionary. */
  datatype SkipCounts = SkipCounts(missingFields: nat, badQuantity: nat, itemNotFound: nat, zeroQuantity: nat)

  datatype Tally = Tally(imported: nat, skipped: nat, reasons: SkipCounts,
                         skippedRows: seq<SkippedRow>, movements: seq<Movement>)

  const NoRows: Tally := Tally(0, 0, SkipCounts(0, 0, 0, 0), [], [])

  /** What one outcome adds to the counters, the unmatched list and the
      pending INSERTs. */
  function Step(t: Tally, o: RowOutcome): Tally {
    match o
    case Imported(id, q) =>
      t.(imported := t.imported + 1, movements := t.movements + [Plain(id, q, In, BaselineSnapshotDate)])
    case Skipped(MissingFields) =>
      t.(skipped := t.skipped + 1, reasons := t.reasons.(missingFields := t.reasons.missingFields + 1))
    case Skipped(BadQuantity) =>
      t.(skipped := t.skipped + 1, reasons := t.reasons.(badQuantity := t.reasons.badQuantity + 1))
    case Skipped(ZeroQuantity) =>
      t.(skipped := t.skipped + 1, reasons := t.reasons.(zeroQuantity := t.reasons.zeroQuantity + 1))
    case Unmatched(sr) =>
      t.(skipped := t.skipped + 1, reasons := t.reasons.(itemNotFound := t.reasons.itemNotFound + 1),
         skippedRows := t.skippedRows + [sr])
    case Raises => t
  }

  function TallyOf(outs: seq<RowOutcome>): Tally
    decreases |outs|
  {
    if outs == [] then NoRows else Step(TallyOf(outs[..|outs| - 1]), outs[|outs| - 1])
  }

  function IsImported(): RowOutcome -> bool { (o: RowOutcome) => o.Imported? }
  function IsUnmatched(): RowOutcome -> bool { (o: RowOutcome) => o.Unmatched? }
  function IsSkippedFor(r: SkipReason): RowOutcome -> bool { (o: RowOutcome) => o == Skipped(r) }

  function UnmatchedRow(o: RowOutcome): SkippedRow {
    if o.Unmatched? then o.row else SkippedRow("", "", "")
  }

  function BaselineMovement(o: RowOutcome): Movement {
    if o.Imported? then Plain(o.itemId, o.quantity, In, BaselineSnapshotDate) else Plain(0, 0, In, BaselineSnapshotDate)
  }

  /** Each counter counts the records with its outcome, every record is
      counted once, skipped_rows lists exactly the unmatched records and the
      pending INSERTs are exactly the accepted ones, all in file order. */
  lemma TallySpec(outs: seq<RowOutcome>)
    requires forall o :: o in outs ==> !o.Raises?
    ensures var t := TallyOf(outs);
            && t.imported == Count(outs, IsImported())
            && t.reasons.missingFields == Count(outs, IsSkippedFor(MissingFields))
            && t.reasons.badQuantity == Count(outs, IsSkippedFor(BadQuantity))
            && t.reasons.zeroQuantity == Count(outs, IsSkippedFor(ZeroQuantity))
            && t.reasons.itemNotFound == Count(outs, IsUnmatched())
    ensures var t := TallyOf(outs);
            && t.imported + t.skipped == |outs|
            && t.skipped == t.reasons.missingFields + t.reasons.badQuantity + t.reasons.itemNotFound + t.reasons.zeroQuantity
    ensures var t := TallyOf(outs);
            && t.skippedRows == Map(Filter(outs, IsUnmatched()), UnmatchedRow)
            && t.movements == Map(Filter(outs, IsImported()), BaselineMovement)
  {
    TallyCounts(outs);
    TallyLists(outs);
  }

  /** What one outcome adds to each counter and list. */
  lemma StepSpec(t: Tally, o: RowOutcome)
    requires !o.Raises?
    ensures var t' := Step(t, o);
            && t'.imported == t.imported + (if o.Imported? then 1 else 0)
            && t'.skipped == t.skipped + (if o.Imported? then 0 else 1)
            && t'.reasons.missingFields == t.reasons.missingFields + (if o == Skipped(MissingFields) then 1 else 0)
            && t'.reasons.badQuantity == t.reasons.badQuantity + (if o == Skipped(BadQuantity) then 1 else 0)
            && t'.reasons.zeroQuantity == t.reasons.zeroQuantity + (if o == Skipped(ZeroQuantity) then 1 else 0)
            && t'.reasons.itemNotFound == t.reasons.itemNotFound + (if o.Unmatched? then 1 else 0)
            && t'.skippedRows == t.skippedRows + (if o.Unmatched? then [UnmatchedRow(o)] else [])
            && t'.movements == t.movements + (if o.Imported? then [BaselineMovement(o)] else [])
  {
  }

  lemma {:induction false} TallyCounts(outs: seq<RowOutcome>)
    requires forall o :: o in outs ==> !o.Raises?
    ensures var t := TallyOf(outs);
            && t.imported == Count(outs, IsImported())
            && t.reasons.missingFields == Count(outs, IsSkippedFor(MissingFields))
            && t.reasons.badQuantity == Count(outs, IsSkippedFor(BadQuantity))
            && t.reasons.zeroQuantity == Count(outs, IsSkippedFor(ZeroQuantity))
            && t.reasons.itemNotFound == Count(outs, IsUnmatched())
            && t.imported + t.skipped == |outs|
            && t.skipped == t.reasons.missingFields + t.reasons.badQuantity + t.reasons.itemNotFound + t.reasons.zeroQuantity
    decreases |outs|
  {
    if outs != [] {
      var n := |outs| - 1;
      assert forall o :: o in outs[..n] ==> o in outs;
      TallyCounts(outs[..n]);
      assert outs[n] in outs;
      StepSpec(TallyOf(outs[..n]), outs[n]);
      assert outs[..n + 1] == outs;
      CountSnoc(outs, n, IsImported());
      CountSnoc(outs, n, IsSkippedFor(MissingFields));
      CountSnoc(outs, n, IsSkippedFor(BadQuantity));
      CountSnoc(outs, n, IsSkippedFor(ZeroQuantity));
      CountSnoc(outs, n, IsUnmatched());
    }
  }

  lemma {:induction false} TallyLists(outs: seq<RowOutcome>)
    requires forall o :: o in outs ==> !o.Raises?
    ensures var t := TallyOf(outs);
            && t.skippedRows == Map(Filter(outs, IsUnmatched()), UnmatchedRow)
            && t.movements == Map(Filter(outs, IsImported()), BaselineMovement)
    decreases |outs|
  {
    if outs != [] {
      var n := |outs| - 1;
      assert forall o :: o in outs[..n] ==> o in outs;
      TallyLists(outs[..n]);
      assert outs[n] in outs;
      StepSpec(TallyOf(outs[..n]), outs[n]);
      assert outs[..n + 1] == outs;
      FilterSnoc(outs, n, IsUnmatched());
      FilterSnoc(outs, n, IsImported());
      MapSnoc(Filter(outs[..n], IsUnmatched()), outs[n], UnmatchedRow);
      MapSnoc(Filter(outs[..n], IsImported()), outs[n], BaselineMovement);
    }
  }

  // ---------------------------------------------------------------------
  // The whole import

  /** `{normalize_name(item["name"]): item["id"] for item in items}`. */
  function ItemLookup(items: seq<Item>): map<string, ItemId> {
    NameLookup(items, (n: string) => NormalizeName(n))
  }

  /** A name in the lookup is the normalised name of a catalogue item
      carrying the id it maps to. */
  lemma ItemLookupHit(items: seq<Item>, name: string)
    requires name in ItemLookup(items)
    ensures exists i :: 0 <= i < |items| && NormalizeName(items[i].name) == name && items[i].id == ItemLookup(items)[name]
  {
    NameLookupSpec(items, (n: string) => NormalizeName(n));
  }

  function Outcomes(rows: seq<CsvRow>, lookup: map<string, ItemId>, parse: string -> ParseOutcome): seq<RowOutcome> {
    Map(rows, (row: CsvRow) => ClassifyRow(row, lookup, parse))
  }

  datatype ImportError = InvalidFile | Uncaught

  /** The loop over the outcomes: the first record that raises ends the
      import, and nothing is committed. */
  function Run(outs: seq<RowOutcome>): Result<Tally, ImportError>
    decreases |outs|
  {
    if outs == [] then Ok(NoRows)
    else
      match Run(outs[..|outs| - 1])
      case Err(e) => Err(e)
      case Ok(t) => if outs[|outs| - 1].Raises? then Err(Uncaught) else Ok(Step(t, outs[|outs| - 1]))
  }

  lemma RunSnoc(outs: seq<RowOutcome>, k: nat)
    requires k < |outs|
    ensures Run(outs[..k + 1]) ==
              match Run(outs[..k])
              case Err(e) => Err(e)
              case Ok(t) => if outs[k].Raises? then Err(Uncaught) else Ok(Step(t, outs[k]))
  {
    assert outs[..k + 1][..k] == outs[..k];
  }

  /** Once a prefix has raised, the rest of the file is never read. */
  lemma {:induction false} RunPrefixErr(outs: seq<RowOutcome>, k: nat)
    requires k <= |outs| && Run(outs[..k]).Err?
    ensures Run(outs) == Run(outs[..k])
    decreases |outs| - k
  {
    if k < |outs| {
      RunSnoc(outs, k);
      RunPrefixErr(outs, k + 1);
    } else {
      assert outs[..k] == outs;
    }
  }

  /** The run raises exactly when some record raises, and otherwise ends
      with the tally of all records. */
  lemma {:induction false} RunSpec(outs: seq<RowOutcome>)
    ensures (exists i :: 0 <= i < |outs| && outs[i].Raises?) ==> Run(outs) == Err(Uncaught)
    ensures (forall i :: 0 <= i < |outs| ==> !outs[i].Raises?) ==> Run(outs) == Ok(TallyOf(outs))
    decreases |outs|
  {
    if outs != [] {
      var n := |outs| - 1;
      RunSpec(outs[..n]);
      if exists i :: 0 <= i < n && outs[..n][i].Raises? {
        assert Run(outs[..n]) == Err(Uncaught);
      }
    }
  }

  /** import_inventory_csv: rejected unless the file name ends in ".csv",
      otherwise the run over the classified records. */
  function ImportOutcome(filename: Option<string>, rows: seq<CsvRow>, items: seq<Item>,
                         parse: string -> ParseOutcome): Result<Tally, ImportError> {
    if !FileAccepted(filename) then Err(InvalidFile)
    else Run(Outcomes(rows, ItemLookup(items), parse))
  }

  /** The two error paths and when each is taken; otherwise the tally of all
      records. */
  lemma ImportOutcomeCases(filename: Option<string>, rows: seq<CsvRow>, items: seq<Item>, parse: string -> ParseOutcome)
    ensures ImportOutcome(filename, rows, items, parse) == Err(InvalidFile) <==> !FileAccepted(filename)
    ensures ImportOutcome(filename, rows, items, parse) == Err(Uncaught) <==>
              FileAccepted(filename) &&
              exists i :: 0 <= i < |rows| && ClassifyRow(rows[i], ItemLookup(items), parse).Raises?
    ensures ImportOutcome(filename, rows, items, parse).Ok? ==>
              && (forall i :: 0 <= i < |rows| ==> !ClassifyRow(rows[i], ItemLookup(items), parse).Raises?)
              && ImportOutcome(filename, rows, items, parse).value == TallyOf(Outcomes(rows, ItemLookup(items), parse))
  {
    var outs := Outcomes(rows, ItemLookup(items), parse);
    RunSpec(outs);
    if exists i :: 0 <= i < |rows| && ClassifyRow(rows[i], ItemLookup(items), parse).Raises? {
      var i :| 0 <= i < |rows| && ClassifyRow(rows[i], ItemLookup(items), parse).Raises?;
      assert outs[i].Raises?;
    } else {
      assert forall i :: 0 <= i < |outs| ==> !outs[i].Raises?;
    }
  }

  /** The counters of a completed import balance: every record is either
      imported or skipped for exactly one reason, one movement is committed
      per imported record and one skipped row is kept per unmatched one. */
  lemma ImportCounts(filename: Option<string>, rows: seq<CsvRow>, items: seq<Item>, parse: string -> ParseOutcome)
    requires ImportOutcome(filename, rows, items, parse).Ok?
    ensures var t := ImportOutcome(filename, rows, items, parse).value;
            && t.imported + t.skipped == |rows|
            && t.skipped == t.reasons.missingFields + t.reasons.badQuantity + t.reasons.itemNotFound + t.reasons.zeroQuantity
            && |t.movements| == t.imported && |t.skippedRows| == t.reasons.itemNotFound
  {
    var outs := Outcomes(rows, ItemLookup(items), parse);
    ImportOutcomeCases(filename, rows, items, parse);
    assert forall o :: o in outs ==> !o.Raises?;
    TallySpec(outs);
  }

  /** The pending INSERTs come from the imported outcomes, and the skipped
      rows are exactly those of the unmatched ones. */
  lemma TallyMembers(outs: seq<RowOutcome>)
    requires forall o :: o in outs ==> !o.Raises?
    ensures forall m :: m in TallyOf(outs).movements ==>
              exists o :: o in outs && o.Imported? && m == Plain(o.itemId, o.quantity, In, BaselineSnapshotDate)
    ensures forall sr :: sr in TallyOf(outs).skippedRows <==> Unmatched(sr) in outs
  {
    TallySpec(outs);
    var fi := Filter(outs, IsImported());
    var fu := Filter(outs, IsUnmatched());
    FilterMembers(outs, IsImported());
    FilterMembers(outs, IsUnmatched());
    forall m | m in TallyOf(outs).movements
      ensures exists o :: o in outs && o.Imported? && m == Plain(o.itemId, o.quantity, In, BaselineSnapshotDate)
    {
      var j :| 0 <= j < |fi| && Map(fi, BaselineMovement)[j] == m;
      assert fi[j] in fi;
    }
    forall sr ensures sr in TallyOf(outs).skippedRows <==> Unmatched(sr) in outs {
      if sr in TallyOf(outs).skippedRows {
        var j :| 0 <= j < |fu| && Map(fu, UnmatchedRow)[j] == sr;
        assert fu[j] in fu;
      }
      if Unmatched(sr) in outs {
        var j :| 0 <= j < |fu| && fu[j] == Unmatched(sr);
        assert Map(fu, UnmatchedRow)[j] == sr;
      }
    }
  }

  /** Every committed movement is an IN of a positive quantity at the
      baseline date, with no user, for an item of the catalogue with a
      non-zero id. */
  lemma ImportMovements(filename: Option<string>, rows: seq<CsvRow>, items: seq<Item>, parse: string -> ParseOutcome)
    requires ImportOutcome(filename, rows, items, parse).Ok?
    ensures var t := ImportOutcome(filename, rows, items, parse).value;
            forall m :: m in t.movements ==>
              && m.kind == In && m.quantity > 0 && m.date == BaselineSnapshotDate && m.userId.None?
              && exists i :: 0 <= i < |items| && items[i].id == m.itemId && m.itemId != 0
  {
    var lookup := ItemLookup(items);
    var outs := Outcomes(rows, lookup, parse);
    ImportOutcomeCases(filename, rows, items, parse);
    assert forall o :: o in outs ==> !o.Raises?;
    TallyMembers(outs);
    forall m | m in TallyOf(outs).movements
      ensures && m.kind == In && m.quantity > 0 && m.date == BaselineSnapshotDate && m.userId.None?
              && exists i :: 0 <= i < |items| && items[i].id == m.itemId && m.itemId != 0
    {
      var o :| o in outs && o.Imported? && m == Plain(o.itemId, o.quantity, In, BaselineSnapshotDate);
      ImportedOutcome(rows, items, parse, o);
    }
  }

  lemma ImportedOutcome(rows: seq<CsvRow>, items: seq<Item>, parse: string -> ParseOutcome, o: RowOutcome)
    requires o in Outcomes(rows, ItemLookup(items), parse) && o.Imported?
    ensures o.quantity > 0 && o.itemId != 0 && exists i :: 0 <= i < |items| && items[i].id == o.itemId
  {
    var i :| 0 <= i < |rows| && Outcomes(rows, ItemLookup(items), parse)[i] == o;
    ImportedRow(rows[i], items, parse);
  }

  /** An imported record names, after normalisation, a catalogue item with
      a non-zero id, and carries a positive quantity. */
  lemma ImportedRow(row: CsvRow, items: seq<Item>, parse: string -> ParseOutcome)
    requires ClassifyRow(row, ItemLookup(items), parse).Imported?
    ensures var o := ClassifyRow(row, ItemLookup(items), parse);
            && o.quantity > 0 && o.itemId != 0
            && exists i :: 0 <= i < |items| && NormalizeName(items[i].name) == NormalizeName(RawItemName(row)) &&
                           items[i].id == o.itemId
  {
    var name := NormalizeName(RawItemName(row));
    DecideSpec(row.surplus, RawItemName(row), name, Strip(RawQuantity(row)), ItemLookup(items), parse);
    ItemLookupHit(items, name);
  }

  /** Importing a baseline never lowers any item's stock: each item gains
      exactly the quantities imported for it. */
  lemma ImportRaisesStock(before: seq<Movement>, filename: Option<string>, rows: seq<CsvRow>, items: seq<Item>,
                          parse: string -> ParseOutcome, id: ItemId)
    requires ImportOutcome(filename, rows, items, parse).Ok?
    ensures var ms := ImportOutcome(filename, rows, items, parse).value.movements;
            StockFull(before + ms, id) == StockFull(before, id) + InQty(ms, id) >= StockFull(before, id)
  {
    var ms := ImportOutcome(filename, rows, items, parse).value.movements;
    ImportMovements(filename, rows, items, parse);
    StockFullConcat(before, ms, id);
    StockFullOfIns(ms, id);
  }

  /** The rows written to skipped_inventory_rows.csv are exactly the
      unmatched records, each with its raw name, normalised name and
      stripped quantity. */
  lemma ImportSkippedRows(filename: Option<string>, rows: seq<CsvRow>, items: seq<Item>, parse: string -> ParseOutcome)
    requires ImportOutcome(filename, rows, items, parse).Ok?
    ensures var t := ImportOutcome(filename, rows, items, parse).value;
            forall sr :: sr in t.skippedRows <==> Unmatched(sr) in Outcomes(rows, ItemLookup(items), parse)
    ensures forall sr :: Unmatched(sr) in Outcomes(rows, ItemLookup(items), parse) ==>
              sr.normalizedInventoryId == NormalizeName(sr.inventoryId) &&
              (sr.normalizedInventoryId !in ItemLookup(items) || ItemLookup(items)[sr.normalizedInventoryId] == 0)
  {
    var lookup := ItemLookup(items);
    var outs := Outcomes(rows, lookup, parse);
    ImportOutcomeCases(filename, rows, items, parse);
    assert forall o :: o in outs ==> !o.Raises?;
    TallyMembers(outs);
    forall sr | Unmatched(sr) in outs
      ensures sr.normalizedInventoryId == NormalizeName(sr.inventoryId) &&
              (sr.normalizedInventoryId !in lookup || lookup[sr.normalizedInventoryId] == 0)
    {
      var i :| 0 <= i < |outs| && outs[i] == Unmatched(sr);
      DecideSpec(rows[i].surplus, RawItemName(rows[i]), NormalizeName(RawItemName(rows[i])),
                 Strip(RawQuantity(rows[i])), lookup, parse);
    }
  }

  /** The counter updates of one pass through the loop body. */
  method Record(t: Tally, o: RowOutcome) returns (t': Tally)
    requires !o.Raises?
    ensures t' == Step(t, o)
  {
    t' := t;
    match o {
      case Skipped(MissingFields) =>
        t' := t'.(skipped := t'.skipped + 1, reasons := t'.reasons.(missingFields := t'.reasons.missingFields + 1));
      case Skipped(BadQuantity) =>
        t' := t'.(skipped := t'.skipped + 1, reasons := t'.reasons.(badQuantity := t'.reasons.badQuantity + 1));
      case Skipped(ZeroQuantity) =>
        t' := t'.(skipped := t'.skipped + 1, reasons := t'.reasons.(zeroQuantity := t'.reasons.zeroQuantity + 1));
      case Unmatched(sr) =>
        t' := t'.(skipped := t'.skipped + 1, reasons := t'.reasons.(itemNotFound := t'.reasons.itemNotFound + 1));
        t' := t'.(skippedRows := t'.skippedRows + [sr]);
      case Imported(id, q) =>
        t' := t'.(movements := t'.movements + [Plain(id, q, In, BaselineSnapshotDate)]);
        t' := t'.(imported := t'.imported + 1);
    }
  }

  /** The summary in the returned dictionary. */
  datatype InventorySummary = InventorySummary(imported: nat, skipped: nat, skipReasons: SkipCounts, snapshotDate: string)

  /** import_inventory_csv(file): the loop over the records, then one commit
      of the pending INSERTs. Also returns the skipped_rows list that is
      written to skipped_inventory_rows.csv. */
  method ImportInventoryCsv(table: InventoryTable, filename: Option<string>, rows: seq<CsvRow>, items: seq<Item>,
                            parse: string -> ParseOutcome)
    returns (r: Result<InventorySummary, ImportError>, skippedRows: seq<SkippedRow>)
    modifies table
    ensures var spec := ImportOutcome(filename, rows, items, parse);
            && (r.Err? <==> spec.Err?)
            && (r.Err? ==> r.error == spec.error && table.rows == old(table.rows))
            && (r.Ok? ==> r.value == InventorySummary(spec.value.imported, spec.value.skipped, spec.value.reasons,
                                                      BaselineSnapshotDate) &&
                          skippedRows == spec.value.skippedRows &&
                          table.rows == old(table.rows) + spec.value.movements)
  {
    skippedRows := [];
    if !FileAccepted(filename) {
      return Err(InvalidFile), skippedRows;
    }
    var lookup := ItemLookup(items);
    ghost var outs := Outcomes(rows, lookup, parse);
    var t := NoRows;
    for k := 0 to |rows|
      invariant Run(outs[..k]) == Ok(t)
      invariant table.rows == old(table.rows)
    {
      var o := ClassifyRow(rows[k], lookup, parse);
      RunSnoc(outs, k);
      if o.Raises? {
        RunPrefixErr(outs, k + 1);
        return Err(Uncaught), [];
      }
      t := Record(t, o);
    }
    assert outs[..|rows|] == outs;
    table.InsertAll(t.movements);
    skippedRows := t.skippedRows;
    r := Ok(InventorySummary(t.imported, t.skipped, t.reasons, BaselineSnapshotDate));
  }
}
