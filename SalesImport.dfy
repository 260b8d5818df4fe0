/** import_sales_csv of importers/sales_importer.py: every inventory sale in
    the CSV file becomes one OUT movement of the item it names, matched
    exactly after trimming and lowercasing or, failing that, by the closest
    name. Every other record is skipped under one of five reasons; an
    exception inside a record only counts it under "other". */
module SalesImport {
  import opened Common
  import opened Text
  import opened Catalog
  import opened Ledger
  import opened Transactions
  import opened Csv

  /** `item["name"].strip().lower()`, the key of the item lookup. */
  function NameKey(name: string): string {
    Lower(Strip(name))
  }

  /** `{name.strip().lower(): id for item in items}`. */
  function SalesLookup(items: seq<Item>): map<string, ItemId> {
    NameLookup(items, (n: string) => NameKey(n))
  }

  /** What find_item_id comes to: an id (possibly 0), no match, or the
      KeyError raised when the close match is not a key of the lookup. */
  datatype ItemMatch = MatchedId(id: ItemId) | NoMatch | KeyError

  /** find_item_id(item_name): the exact key first; otherwise the best close
      match among the keys, as chosen by `closest` (difflib's
      get_close_matches with n=1, cutoff=0.85). */
  function FindItemId(key: string, lookup: map<string, ItemId>,
                      closest: (string, set<string>) -> Option<string>): ItemMatch {
    if key in lookup then MatchedId(lookup[key])
    else
      match closest(key, lookup.Keys)
      case None => NoMatch
      case Some(k) => if k in lookup then MatchedId(lookup[k]) else KeyError
  }

  /** An exact key is used whatever the close-match search would say, and a
      close match is only consulted for a key that is missing. */
  lemma FindItemIdSpec(key: string, lookup: map<string, ItemId>, closest: (string, set<string>) -> Option<string>)
    ensures key in lookup ==> FindItemId(key, lookup, closest) == MatchedId(lookup[key])
    ensures FindItemId(key, lookup, closest) == NoMatch <==> key !in lookup && closest(key, lookup.Keys).None?
    ensures FindItemId(key, lookup, closest).MatchedId? ==>
              exists k :: k in lookup && lookup[k] == FindItemId(key, lookup, closest).id &&
                          (k == key || (key !in lookup && closest(key, lookup.Keys) == Some(k)))
    ensures FindItemId(key, lookup, closest) == KeyError ==>
              key !in lookup && closest(key, lookup.Keys).Some? && closest(key, lookup.Keys).value !in lookup
  {
    if key !in lookup && closest(key, lookup.Keys).Some? && closest(key, lookup.Keys).value in lookup {
      var k := closest(key, lookup.Keys).value;
      assert lookup[k] == FindItemId(key, lookup, closest).id;
    }
  }

  // ---------------------------------------------------------------------
  // One record

  datatype SalesSkipReason = NonInventorySale | MissingFields | BadQuantity | ItemNotFound | Other

  datatype SaleOutcome = Sold(itemId: ItemId, quantity: int, date: string) | Skipped(reason: SalesSkipReason)

  /** `(normalized.get("sales type") or "").strip().lower()`. */
  function SalesType(row: CsvRow): string {
    Lower(Strip(OrElse(Field(row.fields, "sales type"), "")))
  }

  /** `(normalized.get("part number") or "").strip()`. */
  function PartNumber(row: CsvRow): string {
    Strip(OrElse(Field(row.fields, "part number"), ""))
  }

  /** The body of the loop for one record, once its fields are read: the
      sales type, then missing fields, then the quantity (any exception from
      `int(float(qty))` and a non-positive result are both a bad quantity),
      then the item, which `found` is find_item_id's answer for. The quantity
      and date are the raw field values. Header
      normalisation raising on surplus values lands in "other". */
  function DecideSale(surplus: bool, salesType: string, itemName: string, qtyRaw: Option<string>,
                      dateRaw: Option<string>, found: ItemMatch, parse: string -> Option<int>): SaleOutcome {
    if surplus then Skipped(Other)
    else if salesType != "inventory" then Skipped(NonInventorySale)
    else if itemName == "" || !Truthy(qtyRaw) || !Truthy(dateRaw) then Skipped(MissingFields)
    else
      match parse(qtyRaw.value)
      case None => Skipped(BadQuantity)
      case Some(q) =>
        if q <= 0 then Skipped(BadQuantity)
        else
          match found
          case KeyError => Skipped(Other)
          case NoMatch => Skipped(ItemNotFound)
          case MatchedId(id) => if id == 0 then Skipped(ItemNotFound) else Sold(id, q, dateRaw.value)
  }

  function ClassifySale(row: CsvRow, lookup: map<string, ItemId>,
                        closest: (string, set<string>) -> Option<string>, parse: string -> Option<int>): SaleOutcome {
    DecideSale(row.surplus, SalesType(row), PartNumber(row), Field(row.fields, "qty pc"), Field(row.fields, "tr date"),
               FindItemId(NameKey(PartNumber(row)), lookup, closest), parse)
  }

  /** The checks in their order, each outcome with what led to it. */
  lemma DecideSaleSpec(surplus: bool, salesType: string, itemName: string, qtyRaw: Option<string>,
                       dateRaw: Option<string>, found: ItemMatch, parse: string -> Option<int>)
    ensures var o := DecideSale(surplus, salesType, itemName, qtyRaw, dateRaw, found, parse);
            && (o == Skipped(NonInventorySale) <==> !surplus && salesType != "inventory")
            && (o == Skipped(MissingFields) <==>
                  !surplus && salesType == "inventory" && (itemName == "" || !Truthy(qtyRaw) || !Truthy(dateRaw)))
            && (o == Skipped(BadQuantity) <==>
                  !surplus && salesType == "inventory" && itemName != "" && Truthy(qtyRaw) && Truthy(dateRaw) &&
                  (parse(qtyRaw.value).None? || parse(qtyRaw.value).value <= 0))
            && (o.Sold? ==> && !surplus && salesType == "inventory" && itemName != ""
                            && Truthy(dateRaw) && o.date == dateRaw.value
                            && Truthy(qtyRaw) && parse(qtyRaw.value) == Some(o.quantity) && o.quantity > 0
                            && found == MatchedId(o.itemId) && o.itemId != 0)
            && var passes := !surplus && salesType == "inventory" && itemName != "" && Truthy(qtyRaw) &&
                             Truthy(dateRaw) && parse(qtyRaw.value).Some? && parse(qtyRaw.value).value > 0;
               && (o == Skipped(ItemNotFound) <==> passes && (found == NoMatch || found == MatchedId(0)))
               && (o == Skipped(Other) <==> surplus || (passes && found == KeyError))
               && (o.Sold? <==> passes && found.MatchedId? && found.id != 0)
  {
  }

  // ---------------------------------------------------------------------
  // The counters

  /** The skip_reasons dictionary. */
  datatype SalesSkipCounts = SalesSkipCounts(nonInventorySale: nat, missingFields: nat, badQuantity: nat,
                                             itemNotFound: nat, other: nat)

  datatype SalesTally = SalesTally(imported: nat, skipped: nat, reasons: SalesSkipCounts, movements: seq<Movement>)

  const NoSales: SalesTally := SalesTally(0, 0, SalesSkipCounts(0, 0, 0, 0, 0), [])

  function SaleMovement(o: SaleOutcome): Movement {
    if o.Sold? then Plain(o.itemId, o.quantity, Out, o.date) else Plain(0, 0, Out, "")
  }

  /** What one outcome adds to the counters and the pending INSERTs. */
  function SaleStep(t: SalesTally, o: SaleOutcome): SalesTally {
    match o
    case Sold(_, _, _) => t.(imported := t.imported + 1, movements := t.movements + [SaleMovement(o)])
    case Skipped(NonInventorySale) =>
      t.(skipped := t.skipped + 1, reasons := t.reasons.(nonInventorySale := t.reasons.nonInventorySale + 1))
    case Skipped(MissingFields) =>
      t.(skipped := t.skipped + 1, reasons := t.reasons.(missingFields := t.reasons.missingFields + 1))
    case Skipped(BadQuantity) =>
      t.(skipped := t.skipped + 1, reasons := t.reasons.(badQuantity := t.reasons.badQuantity + 1))
    case Skipped(ItemNotFound) =>
      t.(skipped := t.skipped + 1, reasons := t.reasons.(itemNotFound := t.reasons.itemNotFound + 1))
    case Skipped(Other) =>
      t.(skipped := t.skipped + 1, reasons := t.reasons.(other := t.reasons.other + 1))
  }

  function SalesTallyOf(outs: seq<SaleOutcome>): SalesTally
    decreases |outs|
  {
    if outs == [] then NoSales else SaleStep(SalesTallyOf(outs[..|outs| - 1]), outs[|outs| - 1])
  }

  lemma SalesTallySnoc(outs: seq<SaleOutcome>, k: nat)
    requires k < |outs|
    ensures SalesTallyOf(outs[..k + 1]) == SaleStep(SalesTallyOf(outs[..k]), outs[k])
  {
    assert outs[..k + 1][..k] == outs[..k];
  }

  function IsSold(): SaleOutcome -> bool { (o: SaleOutcome) => o.Sold? }
  function IsSkippedFor(r: SalesSkipReason): SaleOutcome -> bool { (o: SaleOutcome) => o == Skipped(r) }

  /** Each counter counts the records with its outcome, every record is
      counted once, and the pending INSERTs are those of the sold records in
      file order. */
  lemma {:induction false} SalesTallySpec(outs: seq<SaleOutcome>)
    ensures var t := SalesTallyOf(outs);
            && t.imported == Count(outs, IsSold())
            && t.reasons.nonInventorySale == Count(outs, IsSkippedFor(NonInventorySale))
            && t.reasons.missingFields == Count(outs, IsSkippedFor(MissingFields))
            && t.reasons.badQuantity == Count(outs, IsSkippedFor(BadQuantity))
            && t.reasons.itemNotFound == Count(outs, IsSkippedFor(ItemNotFound))
            && t.reasons.other == Count(outs, IsSkippedFor(Other))
    ensures var t := SalesTallyOf(outs);
            && t.imported + t.skipped == |outs|
            && t.skipped == t.reasons.nonInventorySale + t.reasons.missingFields + t.reasons.badQuantity +
                            t.reasons.itemNotFound + t.reasons.other
    ensures SalesTallyOf(outs).movements == Map(Filter(outs, IsSold()), SaleMovement)
    decreases |outs|
  {
    if outs != [] {
      var n := |outs| - 1;
      SalesTallySpec(outs[..n]);
      assert outs[..n + 1] == outs;
      CountSnoc(outs, n, IsSold());
      CountSnoc(outs, n, IsSkippedFor(NonInventorySale));
      CountSnoc(outs, n, IsSkippedFor(MissingFields));
      CountSnoc(outs, n, IsSkippedFor(BadQuantity));
      CountSnoc(outs, n, IsSkippedFor(ItemNotFound));
      CountSnoc(outs, n, IsSkippedFor(Other));
      MapSnoc(Filter(outs[..n], IsSold()), outs[n], SaleMovement);
    }
  }

  /** The pending INSERTs are exactly the sold outcomes. */
  lemma SalesTallyMembers(outs: seq<SaleOutcome>)
    ensures forall m :: m in SalesTallyOf(outs).movements <==> exists o :: o in outs && o.Sold? && m == SaleMovement(o)
  {
    SalesTallySpec(outs);
    var f := Filter(outs, IsSold());
    FilterMembers(outs, IsSold());
    forall m ensures m in SalesTallyOf(outs).movements <==> exists o :: o in outs && o.Sold? && m == SaleMovement(o) {
      if m in SalesTallyOf(outs).movements {
        var j :| 0 <= j < |f| && Map(f, SaleMovement)[j] == m;
        assert f[j] in f;
      }
      if exists o :: o in outs && o.Sold? && m == SaleMovement(o) {
        var o :| o in outs && o.Sold? && m == SaleMovement(o);
        var j :| 0 <= j < |f| && f[j] == o;
        assert Map(f, SaleMovement)[j] == m;
      }
    }
  }

  // ---------------------------------------------------------------------
  // The whole import

  function SaleOutcomes(rows: seq<CsvRow>, lookup: map<string, ItemId>,
                        closest: (string, set<string>) -> Option<string>, parse: string -> Option<int>): seq<SaleOutcome> {
    Map(rows, (row: CsvRow) => ClassifySale(row, lookup, closest, parse))
  }

  datatype SalesError = InvalidFile

  /** import_sales_csv: rejected unless the file name ends in ".csv",
      otherwise the tally of every record. */
  function SalesImportOutcome(filename: Option<string>, rows: seq<CsvRow>, items: seq<Item>,
                              closest: (string, set<string>) -> Option<string>,
                              parse: string -> Option<int>): (r: Result<SalesTally, SalesError>)
    ensures r.Err? <==> !FileAccepted(filename)
  {
    if !FileAccepted(filename) then Err(InvalidFile)
    else Ok(SalesTallyOf(SaleOutcomes(rows, SalesLookup(items), closest, parse)))
  }

  /** The counters of an accepted file balance: every record is imported or
      skipped for exactly one of the five reasons, one movement per import. */
  lemma SalesImportCounts(filename: Option<string>, rows: seq<CsvRow>, items: seq<Item>,
                          closest: (string, set<string>) -> Option<string>, parse: string -> Option<int>)
    requires FileAccepted(filename)
    ensures var t := SalesImportOutcome(filename, rows, items, closest, parse).value;
            && t.imported + t.skipped == |rows|
            && t.skipped == t.reasons.nonInventorySale + t.reasons.missingFields + t.reasons.badQuantity +
                            t.reasons.itemNotFound + t.reasons.other
            && |t.movements| == t.imported
  {
    var outs := SaleOutcomes(rows, SalesLookup(items), closest, parse);
    SalesTallySpec(outs);
  }

  /** A sold record names an item of the catalogue with a non-zero id, whose
      trimmed lowercased name is the part number's exactly or, when there is
      no exact one, its close match; it carries a positive quantity and the
      record's raw date. */
  lemma SoldRow(row: CsvRow, items: seq<Item>, closest: (string, set<string>) -> Option<string>,
                parse: string -> Option<int>)
    requires ClassifySale(row, SalesLookup(items), closest, parse).Sold?
    ensures var o := ClassifySale(row, SalesLookup(items), closest, parse);
            var key := NameKey(PartNumber(row));
            && o.quantity > 0 && o.itemId != 0
            && Field(row.fields, "tr date") == Some(o.date)
            && exists i :: 0 <= i < |items| && items[i].id == o.itemId &&
                           (NameKey(items[i].name) == key ||
                            (key !in SalesLookup(items) &&
                             closest(key, SalesLookup(items).Keys) == Some(NameKey(items[i].name))))
  {
    var lookup := SalesLookup(items);
    var key := NameKey(PartNumber(row));
    DecideSaleSpec(row.surplus, SalesType(row), PartNumber(row), Field(row.fields, "qty pc"),
                   Field(row.fields, "tr date"), FindItemId(key, lookup, closest), parse);
    FindItemIdSpec(key, lookup, closest);
    var o := ClassifySale(row, lookup, closest, parse);
    var k :| k in lookup && lookup[k] == o.itemId && (k == key || (key !in lookup && closest(key, lookup.Keys) == Some(k)));
    NameLookupSpec(items, (n: string) => NameKey(n));
  }

  /** Every committed movement is an OUT of a positive quantity, for an item
      of the catalogue, dated with some record's raw date. */
  lemma SalesMovements(filename: Option<string>, rows: seq<CsvRow>, items: seq<Item>,
                       closest: (string, set<string>) -> Option<string>, parse: string -> Option<int>)
    requires FileAccepted(filename)
    ensures var t := SalesImportOutcome(filename, rows, items, closest, parse).value;
            forall m :: m in t.movements ==>
              && m.kind == Out && m.quantity > 0 && m.userId.None? && m.itemId != 0
              && (exists i :: 0 <= i < |items| && items[i].id == m.itemId)
              && exists j :: 0 <= j < |rows| && Field(rows[j].fields, "tr date") == Some(m.date)
  {
    var lookup := SalesLookup(items);
    var outs := SaleOutcomes(rows, lookup, closest, parse);
    SalesTallyMembers(outs);
    forall m | m in SalesTallyOf(outs).movements
      ensures && m.kind == Out && m.quantity > 0 && m.userId.None? && m.itemId != 0
              && (exists i :: 0 <= i < |items| && items[i].id == m.itemId)
              && exists j :: 0 <= j < |rows| && Field(rows[j].fields, "tr date") == Some(m.date)
    {
      var o :| o in outs && o.Sold? && m == SaleMovement(o);
      var j :| 0 <= j < |rows| && outs[j] == o;
      SoldRow(rows[j], items, closest, parse);
    }
  }

  /** Importing sales never raises any item's stock: each item loses exactly
      the quantities sold of it. */
  lemma SalesImportLowersStock(before: seq<Movement>, filename: Option<string>, rows: seq<CsvRow>, items: seq<Item>,
                               closest: (string, set<string>) -> Option<string>, parse: string -> Option<int>,
                               id: ItemId)
    requires FileAccepted(filename)
    ensures var ms := SalesImportOutcome(filename, rows, items, closest, parse).value.movements;
            StockFull(before + ms, id) == StockFull(before, id) - NonInQty(ms, id) <= StockFull(before, id)
  {
    var ms := SalesImportOutcome(filename, rows, items, closest, parse).value.movements;
    SalesMovements(filename, rows, items, closest, parse);
    StockFullConcat(before, ms, id);
    StockFullOfOuts(ms, id);
  }

  /** The counter updates of one pass through the loop body. */
  method RecordSale(t: SalesTally, o: SaleOutcome) returns (t': SalesTally)
    ensures t' == SaleStep(t, o)
  {
    t' := t;
    match o {
      case Sold(id, q, date) =>
        t' := t'.(movements := t'.movements + [Plain(id, q, Out, date)]);
        t' := t'.(imported := t'.imported + 1);
      case Skipped(NonInventorySale) =>
        t' := t'.(skipped := t'.skipped + 1, reasons := t'.reasons.(nonInventorySale := t'.reasons.nonInventorySale + 1));
      case Skipped(MissingFields) =>
        t' := t'.(skipped := t'.skipped + 1, reasons := t'.reasons.(missingFields := t'.reasons.missingFields + 1));
      case Skipped(BadQuantity) =>
        t' := t'.(skipped := t'.skipped + 1, reasons := t'.reasons.(badQuantity := t'.reasons.badQuantity + 1));
      case Skipped(ItemNotFound) =>
        t' := t'.(skipped := t'.skipped + 1, reasons := t'.reasons.(itemNotFound := t'.reasons.itemNotFound + 1));
      case Skipped(Other) =>
        t' := t'.(skipped := t'.skipped + 1, reasons := t'.reasons.(other := t'.reasons.other + 1));
    }
  }

  /** The summary in the returned dictionary. */
  datatype SalesSummary = SalesSummary(imported: nat, skipped: nat, skipReasons: SalesSkipCounts)

  /** import_sales_csv(file): the loop over the records, then one commit of
      the pending INSERTs. */
  method ImportSalesCsv(table: InventoryTable, filename: Option<string>, rows: seq<CsvRow>, items: seq<Item>,
                        closest: (string, set<string>) -> Option<string>, parse: string -> Option<int>)
    returns (r: Result<SalesSummary, SalesError>)
    modifies table
    ensures var spec := SalesImportOutcome(filename, rows, items, closest, parse);
            && (r.Err? <==> spec.Err?)
            && (r.Err? ==> table.rows == old(table.rows))
            && (r.Ok? ==> r.value == SalesSummary(spec.value.imported, spec.value.skipped, spec.value.reasons) &&
                          table.rows == old(table.rows) + spec.value.movements)
  {
    if !FileAccepted(filename) {
      return Err(InvalidFile);
    }
    var lookup := SalesLookup(items);
    ghost var outs := SaleOutcomes(rows, lookup, closest, parse);
    var t := NoSales;
    for k := 0 to |rows|
      invariant t == SalesTallyOf(outs[..k])
      invariant table.rows == old(table.rows)
    {
      var o := ClassifySale(rows[k], lookup, closest, parse);
      SalesTallySnoc(outs, k);
      t := RecordSale(t, o);
    }
    assert outs[..|rows|] == outs;
    table.InsertAll(t.movements);
    r := Ok(SalesSummary(t.imported, t.skipped, t.reasons));
  }
}
