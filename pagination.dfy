/** `buildPaginationResponse`: the page envelope around a slice of results, with
    `totalPages = Math.ceil(total / limit)` computed on JavaScript numbers. */
module Pagination {

  /** The value `Math.ceil(total / limit)` takes: an integer, or the `Infinity`, `-Infinity` or
      `NaN` that a division by zero yields. */
  datatype PageCount = Pages(n: int) | PosInfinity | NegInfinity | NaN

  /** `Math.ceil(a / b)` for a non-zero divisor: the least integer not below the quotient. */
  function CeilDiv(a: int, b: int): (q: int)
    requires b != 0
    ensures b > 0 ==> (q - 1) * b < a <= q * b
    ensures b < 0 ==> q * b <= a < (q - 1) * b
  {
    if b > 0 then
      var f := (-a) / b;
      assert (-a) == b * f + (-a) % b;
      -f
    else
      var f := a / (-b);
      assert a == (-b) * f + a % (-b);
      -f
  }

  /** `Math.ceil(total / limit)`. */
  function TotalPages(total: int, limit: int): PageCount
  {
    if limit != 0 then Pages(CeilDiv(total, limit))
    else if total > 0 then PosInfinity
    else if total < 0 then NegInfinity
    else NaN
  }

  /** The envelope returned to the client. */
  datatype PageResponse<T> = PageResponse(data: seq<T>, total: int, currentPage: int, totalPages: PageCount)

  /** `buildPaginationResponse(data, total, page, limit)`: `data`, `total` and `page` are passed
      through, and only `totalPages` is computed. */
  function BuildPaginationResponse<T>(data: seq<T>, total: int, page: int, limit: int): (r: PageResponse<T>)
    ensures r.data == data && r.total == total && r.currentPage == page
    ensures r.totalPages == TotalPages(total, limit)
  {
    PageResponse(data, total, page, TotalPages(total, limit))
  }

  /** With a positive limit and at least one result, the last page is the first one that ends at
      or after the last result: `(totalPages - 1) * limit < total <= totalPages * limit`. */
  lemma {:induction false} TotalPagesBounds(total: int, limit: int)
    requires limit > 0 && total > 0
    ensures TotalPages(total, limit).Pages?
    ensures var p := TotalPages(total, limit).n;
      1 <= p && (p - 1) * limit < total <= p * limit
  {
  }

  /** The count is the least possible: no smaller number of pages of `limit` items holds
      `total` items. */
  lemma {:induction false} TotalPagesLeast(total: int, limit: int, pages: int)
    requires limit > 0 && total <= pages * limit
    ensures TotalPages(total, limit).Pages? && TotalPages(total, limit).n <= pages
  {
  }

  /** Every result index falls on a page the count includes: item `i` (from 0) lies on page
      `i / limit + 1`, which is at most `totalPages`. */
  lemma {:induction false} EveryItemOnAPage(total: int, limit: int, i: int)
    requires limit > 0 && 0 <= i < total
    ensures TotalPages(total, limit).Pages? && 1 <= i / limit + 1 <= TotalPages(total, limit).n
  {
  }

  /** No results with a non-zero limit make zero pages. */
  lemma {:induction false} NoResultsNoPages(limit: int)
    requires limit != 0
    ensures TotalPages(0, limit) == Pages(0)
  {
  }

  /** A zero limit divides by zero: `Infinity` pages for results, `NaN` for none. */
  lemma {:induction false} ZeroLimit(total: int)
    ensures total > 0 ==> TotalPages(total, 0) == PosInfinity
    ensures total == 0 ==> TotalPages(total, 0) == NaN
  {
  }
}
