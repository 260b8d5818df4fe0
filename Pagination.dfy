/** The paging shared by get_audit_trail (services/audit_service.py) and
    get_sales_paginated (services/sales_admin_service.py): fifty rows a
    page, the OFFSET of a page, the page count, and the WHERE clause joined
    from the collected conditions. */
module Pagination {
  import opened Common
  import opened Sorting

  /** PER_PAGE. */
  const PerPage: int := 50

  /** `offset = (page - 1) * PER_PAGE`; the page number is not checked. */
  function Offset(page: int): int {
    (page - 1) * PerPage
  }

  /** `max(1, -(-total // PER_PAGE))`. Python's `//` floors, and so does
      Dafny's `/` for a positive divisor. */
  function TotalPages(total: int): int {
    var pages := -((-total) / PerPage);
    if pages < 1 then 1 else pages
  }

  /** The page count is at least one, its pages hold every row, and no page
      but an empty first one is wholly past the rows. */
  lemma TotalPagesSpec(total: nat)
    ensures TotalPages(total) >= 1
    ensures TotalPages(total) * PerPage >= total
    ensures total > 0 ==> (TotalPages(total) - 1) * PerPage < total
    ensures total == 0 ==> TotalPages(total) == 1
  {
    var q: int := (0 - total) / PerPage;
    assert q * PerPage <= 0 - total < q * PerPage + PerPage;
  }

  /** `LIMIT PER_PAGE OFFSET offset`; SQLite treats a negative OFFSET as 0. */
  function Page<T>(rows: seq<T>, page: int): seq<T> {
    var start := if Offset(page) < 0 then 0 else if Offset(page) > |rows| then |rows| else Offset(page);
    var end := if start + PerPage > |rows| then |rows| else start + PerPage;
    rows[start..end]
  }

  /** A page holds at most PER_PAGE rows, the rows that follow its offset in
      order; a page number below 1 shows the first page. */
  lemma PageSpec<T>(rows: seq<T>, page: int)
    ensures |Page(rows, page)| <= PerPage
    ensures page >= 1 ==> forall j :: 0 <= j < |Page(rows, page)| ==> Page(rows, page)[j] == rows[Offset(page) + j]
    ensures page >= 1 && Offset(page) + PerPage <= |rows| ==> |Page(rows, page)| == PerPage
    ensures page > TotalPages(|rows|) ==> Page(rows, page) == []
    ensures page < 1 ==> Page(rows, page) == Page(rows, 1)
  {
    TotalPagesSpec(|rows|);
  }

  /** Row i is shown at position i % PER_PAGE of page i / PER_PAGE + 1, a
      page that the page count covers. */
  lemma PageAt<T>(rows: seq<T>, i: int)
    requires 0 <= i < |rows|
    ensures var p := i / PerPage + 1;
            && 1 <= p <= TotalPages(|rows|)
            && i % PerPage < |Page(rows, p)| && Page(rows, p)[i % PerPage] == rows[i]
  {
    var p := i / PerPage + 1;
    TotalPagesSpec(|rows|);
    assert Offset(p) == i - i % PerPage;
    assert (p - 1) * PerPage <= i < |rows|;
    assert (p - 1) * PerPage < TotalPages(|rows|) * PerPage;
  }

  /** A page is a run of its rows, so it keeps their order. */
  lemma PageSorted<T>(rows: seq<T>, page: int, le: (T, T) -> bool)
    requires SortedPairwise(rows, le)
    ensures SortedPairwise(Page(rows, page), le)
    ensures forall x :: x in Page(rows, page) ==> x in rows
  {
  }

  /** `"WHERE " + " AND ".join(conditions)` if there are any, else "". */
  function WhereClause(conditions: seq<string>): string {
    if conditions == [] then "" else "WHERE " + Join(conditions, " AND ")
  }

  lemma WhereClauseSpec(conditions: seq<string>)
    ensures WhereClause(conditions) == "" <==> conditions == []
    ensures conditions != [] ==> WhereClause(conditions)[..6] == "WHERE "
  {
  }
}
