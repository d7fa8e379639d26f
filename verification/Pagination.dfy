/** Two independent page computations: FindPage (database/postgres/dao/count.go), which reads one more
    page of an ordered result, and NewInfo (pagination/pagination.go), which only counts pages.  The
    result is fixed: its count and its rows are those of one moment. */
module Pagination {

  datatype Page<+T> = Page(data: seq<T>, limit: int, offset: int, total: nat, hasNext: bool)

  datatype Info = Info(page: int, size: int, totalCount: nat, totalPages: nat, hasNext: bool, hasPrevious: bool)

  function Min(a: int, b: int): int {
    if a < b then a else b
  }

  /** The rows a page is to hold: `limit` rows after the first `offset`. */
  function Window<T>(rows: seq<T>, limit: int, offset: int): seq<T>
    requires limit >= 0 && offset >= 0
  {
    rows[Min(offset, |rows|)..Min(offset + limit, |rows|)]
  }

  function Ceiling(total: nat, size: int): nat
    requires size >= 1
  {
    (total + size - 1) / size
  }

  /** Some row of the result lies beyond the page. */
  predicate RowsSayNext(limit: int, offset: int, total: nat) {
    (if offset < 0 then 0 else offset) + (if limit <= 0 then 10 else limit) < total
  }

  method FindPage<T>(rows: seq<T>, limit: int, offset: int) returns (p: Page<T>)
    ensures p.limit == (if limit <= 0 then 10 else limit) && p.offset == (if offset < 0 then 0 else offset)
    ensures p.data == Window(rows, p.limit, p.offset) && p.total == |rows|
    ensures p.hasNext <==> RowsSayNext(limit, offset, |rows|)
  {
    var lim, off := limit, offset;
    if lim <= 0 {
      lim := 10;
    }
    if off < 0 {
      off := 0;
    }
    var total := |rows|;
    var data := [];
    if total > off {
      data := Select(rows, lim, off);
    }
    p := Page(data, lim, off, total, off + |data| < total);
  }

  /** SELECT … LIMIT limit OFFSET offset. */
  method Select<T>(rows: seq<T>, limit: nat, offset: nat) returns (data: seq<T>)
    ensures data == Window(rows, limit, offset)
  {
    data := [];
    var i := offset;
    while i < |rows| && |data| < limit
      invariant i == offset + |data| && |data| <= limit
      invariant offset <= |rows| ==> i <= |rows| && data == rows[offset..i]
      invariant offset > |rows| ==> data == []
    {
      data, i := data + [rows[i]], i + 1;
    }
  }

  /** NewInfo, for totals whose floating-point ceiling is exact. */
  method NewInfo(page: int, size: int, totalCount: nat) returns (info: Info)
    ensures info.page == (if page < 1 then 1 else page) && info.size == (if size < 1 then 10 else size)
    ensures info.totalCount == totalCount && info.totalPages == Ceiling(totalCount, info.size)
    ensures info.hasNext <==> CountSaysNext(page, size, totalCount)
    ensures info.hasNext <==> info.page * info.size < totalCount
    ensures info.hasPrevious <==> info.page > 1
  {
    var p, s := page, size;
    if p < 1 {
      p := 1;
    }
    if s < 1 {
      s := 10;
    }
    var totalPages := Ceiling(totalCount, s);
    CeilingIsLeast(totalCount, s, p);
    info := Info(p, s, totalCount, totalPages, p < totalPages, p > 1);
  }

  /** PaginatedRequest.Offset. */
  function Offset(page: int, size: int): int {
    if page < 1 then 0 else (page - 1) * size
  }

  /** NewInfo's HasNext for a request. */
  predicate CountSaysNext(page: int, size: int, total: nat) {
    (if page < 1 then 1 else page) < Ceiling(total, if size < 1 then 10 else size)
  }

  lemma MulMonotone(a: int, b: int, s: int)
    requires a <= b && s >= 0
    ensures a * s <= b * s
  {
  }

  /** A page is below the ceiling exactly when rows remain after it. */
  lemma CeilingIsLeast(total: nat, size: int, page: int)
    requires size >= 1
    ensures page < Ceiling(total, size) <==> page * size < total
  {
    var q := Ceiling(total, size);
    assert q * size <= total + size - 1 < q * size + size by {
      var x := total + size - 1;
      assert x == x / size * size + x % size;
    }
    if page < q {
      MulMonotone(page + 1, q, size);
      assert (page + 1) * size == page * size + size;
    } else {
      MulMonotone(q, page, size);
    }
  }

  /** The two agree for every page and total if the size is positive or the page is at most the first.
      With a size below one they part exactly between the first ten rows and the end of page `page`: the
      request's offset is computed from the size before the default replaces it. */
  lemma HasNextAgreesIff(page: int, size: int, total: nat)
    ensures RowsSayNext(size, Offset(page, size), total) == CountSaysNext(page, size, total) <==>
            !(size < 1 && page > 1 && 10 < total <= 10 * page)
  {
    var p, s := if page < 1 then 1 else page, if size < 1 then 10 else size;
    CeilingIsLeast(total, s, p);
    if page >= 1 {
      assert (page - 1) * size + size == page * size;
      if size >= 1 {
        MulMonotone(0, page - 1, size);
      } else {
        MulMonotone(0, page - 1, -size);
        assert (page - 1) * size == -((page - 1) * -size);
      }
    }
  }

  // ---- walking the pages ----

  /** A client that asks for page after page while there is a next one. */
  function Walk<T>(rows: seq<T>, size: int, page: int): seq<T>
    requires size >= 1 && page >= 1
    decreases if RowsSayNext(size, Offset(page, size), |rows|) then |rows| - Offset(page, size) else 0
  {
    NextOffset(page, size);
    Window(rows, size, Offset(page, size)) +
    if RowsSayNext(size, Offset(page, size), |rows|) then Walk(rows, size, page + 1) else []
  }

  /** The page the walk ends on. */
  function LastPage(total: nat, size: int): int
    requires size >= 1
  {
    if total == 0 then 1 else Ceiling(total, size)
  }

  lemma NextOffset(page: int, size: int)
    requires size >= 1 && page >= 1
    ensures Offset(page, size) >= 0 && Offset(page + 1, size) == Offset(page, size) + size
  {
    MulMonotone(0, page - 1, size);
  }

  /** From any page on, the walk delivers exactly the rows from that page's offset on. */
  lemma {:induction false} WalkIsSuffix<T>(rows: seq<T>, size: int, page: int)
    requires size >= 1 && page >= 1 && Offset(page, size) <= |rows|
    ensures Walk(rows, size, page) == rows[Offset(page, size)..]
    decreases |rows| - Offset(page, size)
  {
    NextOffset(page, size);
    if RowsSayNext(size, Offset(page, size), |rows|) {
      WalkIsSuffix(rows, size, page + 1);
    }
  }

  /** Following HasNext from the first page visits every row exactly once, in order. */
  lemma WalkVisitsAll<T>(rows: seq<T>, size: int)
    requires size >= 1
    ensures Walk(rows, size, 1) == rows
  {
    WalkIsSuffix(rows, size, 1);
  }

  /** It stops at the last page of the page count, and not before. */
  lemma WalkStopsAt(total: nat, size: int, page: int)
    requires size >= 1 && page >= 1
    ensures RowsSayNext(size, Offset(page, size), total) <==> page < LastPage(total, size)
  {
    HasNextAgreesIff(page, size, total);
    MulMonotone(1, page, size);
    CeilingIsLeast(total, size, 0);
  }
}
