/** get_audit_trail of services/audit_service.py: the ledger rows that pass
    the optional date and type filters, grouped by reference, date, type and
    reason, newest group first, one page at a time. */
module Audit {
  import opened Common
  import opened Sorting
  import opened Catalog
  import opened Ledger
  import opened Text
  import opened Transactions
  import opened Pagination

  const StartCondition: string := "DATE(t.transaction_date) >= ?"
  const EndCondition: string := "DATE(t.transaction_date) <= ?"
  const TypeCondition: string := "t.transaction_type = ?"

  /** The optional arguments start_date, end_date and movement_type. */
  datatype AuditFilter = AuditFilter(startDate: Option<string>, endDate: Option<string>, movementType: Option<string>)

  /** What SQLite makes of one condition with its parameter on a ledger row.
      `dateOf` is SQLite's DATE(), None where that yields NULL; a comparison
      with NULL is not true. */
  predicate Holds(condition: string, param: string, m: Movement, dateOf: string -> Option<string>) {
    if condition == StartCondition then dateOf(m.date).Some? && LexLe(param, dateOf(m.date).value)
    else if condition == EndCondition then dateOf(m.date).Some? && LexLe(dateOf(m.date).value, param)
    else if condition == TypeCondition then TypeName(m.kind) == param
    else false
  }

  /** The WHERE clause holds of a row: one parameter per condition, all of
      them true. */
  predicate AllHold(conditions: seq<string>, params: seq<string>, m: Movement, dateOf: string -> Option<string>) {
    |conditions| == |params| && forall i :: 0 <= i < |conditions| ==> Holds(conditions[i], params[i], m, dateOf)
  }

  /** The filter the caller asked for: every bound and the type that is
      given (a falsy argument is no filter). */
  predicate Matches(f: AuditFilter, m: Movement, dateOf: string -> Option<string>) {
    MatchesThrough(f, 2, m, dateOf)
  }

  /** The first `upTo + 1` of the three filters hold. */
  predicate MatchesThrough(f: AuditFilter, upTo: int, m: Movement, dateOf: string -> Option<string>) {
    && (Truthy(f.startDate) ==> dateOf(m.date).Some? && LexLe(f.startDate.value, dateOf(m.date).value))
    && (upTo >= 1 && Truthy(f.endDate) ==> dateOf(m.date).Some? && LexLe(dateOf(m.date).value, f.endDate.value))
    && (upTo >= 2 && Truthy(f.movementType) ==> TypeName(m.kind) == f.movementType.value)
  }

  function Rank(condition: string): int {
    if condition == StartCondition then 0 else if condition == EndCondition then 1 else 2
  }

  function Given(s: Option<string>): nat {
    if Truthy(s) then 1 else 0
  }

  /** Appending a condition with its parameter adds that condition to the
      conjunction. */
  lemma AllHoldSnoc(conditions: seq<string>, params: seq<string>, c: string, p: string,
                    m: Movement, dateOf: string -> Option<string>)
    requires |conditions| == |params|
    ensures AllHold(conditions + [c], params + [p], m, dateOf) <==>
            AllHold(conditions, params, m, dateOf) && Holds(c, p, m, dateOf)
  {
    var n := |conditions|;
    if AllHold(conditions, params, m, dateOf) && Holds(c, p, m, dateOf) {
      forall i | 0 <= i <= n ensures Holds((conditions + [c])[i], (params + [p])[i], m, dateOf) {
        if i < n { assert (conditions + [c])[i] == conditions[i] && (params + [p])[i] == params[i]; }
      }
    }
    if AllHold(conditions + [c], params + [p], m, dateOf) {
      forall i | 0 <= i < n ensures Holds(conditions[i], params[i], m, dateOf) {
        assert (conditions + [c])[i] == conditions[i] && (params + [p])[i] == params[i];
      }
      assert Holds((conditions + [c])[n], (params + [p])[n], m, dateOf);
    }
  }

  /** The `conditions` and `params` lists: one condition and one parameter
      per given filter, in the order start, end, type, and together they
      select exactly the rows the filter asks for. */
  method BuildAuditConditions(f: AuditFilter) returns (conditions: seq<string>, params: seq<string>)
    ensures |conditions| == |params| == Given(f.startDate) + Given(f.endDate) + Given(f.movementType)
    ensures conditions == [] <==> !Truthy(f.startDate) && !Truthy(f.endDate) && !Truthy(f.movementType)
    ensures forall i, j :: 0 <= i < j < |conditions| ==> Rank(conditions[i]) < Rank(conditions[j])
    ensures forall m, dateOf :: AllHold(conditions, params, m, dateOf) <==> Matches(f, m, dateOf)
  {
    conditions, params := [], [];
    if Truthy(f.startDate) {
      forall m, dateOf ensures AllHold(conditions + [StartCondition], params + [f.startDate.value], m, dateOf) <==>
                               AllHold(conditions, params, m, dateOf) && Holds(StartCondition, f.startDate.value, m, dateOf) {
        AllHoldSnoc(conditions, params, StartCondition, f.startDate.value, m, dateOf);
      }
      conditions := conditions + [StartCondition];
      params := params + [f.startDate.value];
    }
    assert forall m, dateOf :: AllHold(conditions, params, m, dateOf) <==> MatchesThrough(f, 0, m, dateOf);
    if Truthy(f.endDate) {
      forall m, dateOf ensures AllHold(conditions + [EndCondition], params + [f.endDate.value], m, dateOf) <==>
                               AllHold(conditions, params, m, dateOf) && Holds(EndCondition, f.endDate.value, m, dateOf) {
        AllHoldSnoc(conditions, params, EndCondition, f.endDate.value, m, dateOf);
      }
      conditions := conditions + [EndCondition];
      params := params + [f.endDate.value];
    }
    assert forall m, dateOf :: AllHold(conditions, params, m, dateOf) <==> MatchesThrough(f, 1, m, dateOf);
    if Truthy(f.movementType) {
      forall m, dateOf ensures AllHold(conditions + [TypeCondition], params + [f.movementType.value], m, dateOf) <==>
                               AllHold(conditions, params, m, dateOf) && Holds(TypeCondition, f.movementType.value, m, dateOf) {
        AllHoldSnoc(conditions, params, TypeCondition, f.movementType.value, m, dateOf);
      }
      conditions := conditions + [TypeCondition];
      params := params + [f.movementType.value];
    }
    assert forall m, dateOf :: AllHold(conditions, params, m, dateOf) <==> MatchesThrough(f, 2, m, dateOf);
  }

  // ---------------------------------------------------------------------
  // The grouping query

  /** The rows of inventory_transactions JOIN items that pass the filter. */
  function Selected(rows: seq<Movement>, items: seq<Item>, f: AuditFilter, dateOf: string -> Option<string>): seq<Movement> {
    Filter(rows, (m: Movement) => NameOf(items, m.itemId).Some? && Matches(f, m, dateOf))
  }

  /** GROUP BY t.reference_id, t.transaction_date, t.transaction_type,
      t.change_reason; NULLs group together. */
  datatype GroupKey = GroupKey(referenceId: Option<int>, date: string, kind: MovementType, changeReason: Option<string>)

  function KeyOf(m: Movement): GroupKey {
    GroupKey(m.referenceId, m.date, m.kind, m.changeReason)
  }

  /** The distinct group keys, in order of first appearance. */
  function Keys(rows: seq<Movement>): seq<GroupKey>
    decreases |rows|
  {
    if rows == [] then []
    else
      var ks := Keys(rows[..|rows| - 1]);
      var k := KeyOf(rows[|rows| - 1]);
      if k in ks then ks else ks + [k]
  }

  ghost predicate Distinct<T>(s: seq<T>) {
    forall i, j :: 0 <= i < j < |s| ==> s[i] != s[j]
  }

  /** Each row's key is a group, each group is some row's key, and no group
      is listed twice. */
  lemma {:induction false} KeysSpec(rows: seq<Movement>)
    ensures Distinct(Keys(rows))
    ensures forall k :: k in Keys(rows) <==> exists m :: m in rows && KeyOf(m) == k
    ensures |Keys(rows)| <= |rows|
    decreases |rows|
  {
    if rows != [] {
      var n := |rows| - 1;
      KeysSpec(rows[..n]);
      assert rows == rows[..n] + [rows[n]];
      forall k ensures k in Keys(rows) <==> exists m :: m in rows && KeyOf(m) == k {
        if k in Keys(rows) && k != KeyOf(rows[n]) {
          var m :| m in rows[..n] && KeyOf(m) == k;
          assert m in rows;
        }
        if exists m :: m in rows && KeyOf(m) == k {
          var m :| m in rows && KeyOf(m) == k;
          if m != rows[n] {
            assert m in rows[..n];
          }
        }
      }
    }
  }

  function HasKey(k: GroupKey): Movement -> bool {
    (m: Movement) => KeyOf(m) == k
  }

  /** `SUM(t.quantity)` of one group, as a summand over all rows. */
  function QtyOfKey(k: GroupKey): Movement -> int {
    (m: Movement) => if KeyOf(m) == k then m.quantity else 0
  }

  function TotalOf(rows: seq<Movement>): GroupKey -> int {
    (k: GroupKey) => SumBy(rows, QtyOfKey(k))
  }

  function Quantity(): Movement -> int {
    (m: Movement) => m.quantity
  }

  /** A key listed once among distinct keys picks out its summand once. */
  lemma {:induction false} SumByIndicator(keys: seq<GroupKey>, key: GroupKey, q: int)
    requires Distinct(keys)
    ensures SumBy(keys, (k: GroupKey) => if k == key then q else 0) == if key in keys then q else 0
    decreases |keys|
  {
    var ind := (k: GroupKey) => if k == key then q else 0;
    if keys != [] {
      var n := |keys| - 1;
      var front := keys[..n];
      assert keys == front + [keys[n]];
      if keys[n] == key {
        assert key !in front;
        SumByZero(front, ind);
      } else {
        SumByIndicator(front, key, q);
      }
    }
  }

  /** Grouping loses and duplicates no quantity: the group totals add up to
      the quantities of the rows. */
  lemma {:induction false} GroupsConserveQuantity(rows: seq<Movement>)
    ensures SumBy(Keys(rows), TotalOf(rows)) == SumBy(rows, Quantity())
    decreases |rows|
  {
    if rows != [] {
      var n := |rows| - 1;
      var front := rows[..n];
      var m := rows[n];
      var km := KeyOf(m);
      var ind := (k: GroupKey) => if k == km then m.quantity else 0;
      GroupsConserveQuantity(front);
      KeysSpec(front);
      var ks := Keys(front);
      assert forall k :: TotalOf(rows)(k) == TotalOf(front)(k) + ind(k);
      SumByPlus(ks, TotalOf(rows), TotalOf(front), ind);
      SumByIndicator(ks, km, m.quantity);
      if km !in ks {
        SumBySnoc(ks, km, TotalOf(rows));
        assert forall x :: x in front ==> QtyOfKey(km)(x) == 0;
        SumByZero(front, QtyOfKey(km));
      }
    }
  }

  /** One row of the grouped query: the key, `SUM(t.quantity)` and
      `GROUP_CONCAT(i.name, ', ')` over the group's rows. */
  datatype AuditGroup = AuditGroup(key: GroupKey, totalQty: int, itemsSummary: string)

  function ItemName(items: seq<Item>): Movement -> string {
    (m: Movement) => OrElse(NameOf(items, m.itemId), "")
  }

  function GroupOf(rows: seq<Movement>, items: seq<Item>): GroupKey -> AuditGroup {
    (k: GroupKey) => AuditGroup(k, SumBy(rows, QtyOfKey(k)), Join(Map(Filter(rows, HasKey(k)), ItemName(items)), ", "))
  }

  function Groups(rows: seq<Movement>, items: seq<Item>): seq<AuditGroup> {
    Map(Keys(rows), GroupOf(rows, items))
  }

  function GroupQty(): AuditGroup -> int {
    (g: AuditGroup) => g.totalQty
  }

  /** The groups carry, between them, exactly the rows' quantity. */
  lemma GroupsTotal(rows: seq<Movement>, items: seq<Item>)
    ensures SumBy(Groups(rows, items), GroupQty()) == SumBy(rows, Quantity())
  {
    SumByMap(Keys(rows), GroupOf(rows, items), GroupQty(), TotalOf(rows));
    GroupsConserveQuantity(rows);
  }

  /** ORDER BY t.transaction_date DESC. */
  function NewestFirst(): (AuditGroup, AuditGroup) -> bool {
    (a: AuditGroup, b: AuditGroup) => LexLe(b.key.date, a.key.date)
  }

  /** A displayed row: the group with its date run through format_date. */
  datatype AuditRow = AuditRow(transactionDate: string, kind: MovementType, totalQty: int,
                               changeReason: Option<string>, referenceId: Option<int>, itemsSummary: string)

  function Display(render: string -> string): AuditGroup -> AuditRow {
    (g: AuditGroup) => AuditRow(FormatDate(Some(g.key.date), render), g.key.kind, g.totalQty,
                                g.key.changeReason, g.key.referenceId, g.itemsSummary)
  }

  /** The returned dictionary. */
  datatype AuditTrail = AuditTrail(rows: seq<AuditRow>, total: int, page: int, perPage: int, totalPages: int)

  /** The page of the grouped view the call returns: `total` counts groups,
      not rows. */
  function AuditTrailOf(rows: seq<Movement>, items: seq<Item>, f: AuditFilter, page: int,
                        dateOf: string -> Option<string>, render: string -> string): AuditTrail {
    var groups := Groups(Selected(rows, items, f, dateOf), items);
    AuditTrail(Map(Page(SortBy(groups, NewestFirst()), page), Display(render)),
               |groups|, page, PerPage, TotalPages(|groups|))
  }

  /** The view's metadata: total is the number of distinct group keys among
      the selected rows, the page holds at most PER_PAGE rows and page and
      per_page are echoed. */
  lemma AuditTrailSpec(rows: seq<Movement>, items: seq<Item>, f: AuditFilter, page: int,
                       dateOf: string -> Option<string>, render: string -> string)
    ensures var r := AuditTrailOf(rows, items, f, page, dateOf, render);
            var sel := Selected(rows, items, f, dateOf);
            && (forall m :: m in sel <==> m in rows && NameOf(items, m.itemId).Some? && Matches(f, m, dateOf))
            && r.total == |Keys(sel)| <= |sel|
            && (forall k :: k in Keys(sel) <==> exists m :: m in sel && KeyOf(m) == k)
            && |r.rows| <= PerPage && r.page == page && r.perPage == PerPage
            && r.totalPages >= 1 && r.totalPages * PerPage >= r.total
  {
    var sel := Selected(rows, items, f, dateOf);
    FilterMembers(rows, (m: Movement) => NameOf(items, m.itemId).Some? && Matches(f, m, dateOf));
    KeysSpec(sel);
    PageSpec(SortBy(Groups(sel, items), NewestFirst()), page);
    TotalPagesSpec(|Keys(sel)|);
  }

  /** The page lists groups newest first, each one a group of the view. */
  lemma AuditTrailOrder(rows: seq<Movement>, items: seq<Item>, f: AuditFilter, page: int,
                        dateOf: string -> Option<string>, render: string -> string)
    ensures var groups := Groups(Selected(rows, items, f, dateOf), items);
            var shown := Page(SortBy(groups, NewestFirst()), page);
            && AuditTrailOf(rows, items, f, page, dateOf, render).rows == Map(shown, Display(render))
            && SortedPairwise(shown, NewestFirst())
            && forall g :: g in shown ==> g in groups
  {
    var groups := Groups(Selected(rows, items, f, dateOf), items);
    var le := NewestFirst();
    assert Total(le) by {
      forall a: AuditGroup, b: AuditGroup ensures le(a, b) || le(b, a) { LexLeTotal(a.key.date, b.key.date); }
    }
    assert Transitive(le) by {
      forall a: AuditGroup, b: AuditGroup, c: AuditGroup | le(a, b) && le(b, c) ensures le(a, c) {
        LexLeTrans(c.key.date, b.key.date, a.key.date);
      }
    }
    SortBySorted(groups, le);
    SortedIsPairwise(SortBy(groups, le), le);
    PageSorted(SortBy(groups, le), page, le);
    forall g | g in Page(SortBy(groups, le), page) ensures g in groups {
      SortByMembers(groups, le, g);
    }
  }

  /** get_audit_trail(page, start_date, end_date, movement_type): builds the
      conditions, runs the grouped query under them against the ledger and
      returns the requested page. */
  method GetAuditTrail(table: InventoryTable, items: seq<Item>, page: int, f: AuditFilter,
                       dateOf: string -> Option<string>, render: string -> string) returns (r: AuditTrail)
    ensures r == AuditTrailOf(table.rows, items, f, page, dateOf, render)
  {
    var conditions, params := BuildAuditConditions(f);
    var inView := (m: Movement) => NameOf(items, m.itemId).Some? && AllHold(conditions, params, m, dateOf);
    var selected := Filter(table.rows, inView);
    FilterCongruent(table.rows, inView, (m: Movement) => NameOf(items, m.itemId).Some? && Matches(f, m, dateOf));
    var groups := Groups(selected, items);
    var total := |groups|;
    var totalPages := TotalPages(total);
    var shown := Page(SortBy(groups, NewestFirst()), page);
    r := AuditTrail(Map(shown, Display(render)), total, page, PerPage, totalPages);
  }
}
