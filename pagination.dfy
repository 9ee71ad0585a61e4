/** Offset pagination as the list endpoints do it: page `page` of size `limit`
    asks the database for the inclusive row range `from..to`, and the response
    reports `Math.ceil(total / limit)` pages. */
module Pagination {
  import opened Wrappers

  /** An inclusive 0-based row range, the arguments of `query.range(from, to)`. */
  datatype Window = Window(from: int, to: int)

  /** `from = (page - 1) * limit; to = from + limit - 1`. */
  function RangeFor(page: int, limit: int): (w: Window)
    ensures w.to - w.from + 1 == limit
    ensures page >= 1 && limit >= 0 ==> w.from >= 0
    ensures page == 1 ==> w.from == 0
  {
    var from := (page - 1) * limit;
    Window(from, from + limit - 1)
  }

  /** ⌈n / d⌉ for a positive divisor. */
  function CeilDiv(n: int, d: int): (q: int)
    requires d > 0
    ensures (q - 1) * d < n <= q * d
  {
    var q := (n + d - 1) / d;
    assert q * d <= n + d - 1 < q * d + d by {
      DivBounds(n + d - 1, d);
    }
    q
  }

  lemma DivBounds(m: int, d: int)
    requires d > 0
    ensures (m / d) * d <= m < (m / d) * d + d
  {
    assert m == (m / d) * d + m % d;
  }

  /** `Math.ceil((count || 0) / limit)`; `None` stands for the non-finite
      JavaScript result of dividing by a zero limit (`Infinity` or `NaN`). */
  function TotalPages(count: Option<nat>, limit: int): (r: Option<int>)
    ensures r.None? <==> limit == 0
    ensures limit > 0 ==> r.Some? && (r.value - 1) * limit < count.GetOr(0) <= r.value * limit
    ensures limit > 0 ==> r.Some? && r.value >= 0
    ensures count.GetOr(0) == 0 && limit != 0 ==> r == Some(0)
  {
    var total := count.GetOr(0);
    if limit == 0 then None
    else if limit > 0 then Some(CeilDiv(total, limit))
    else
      // n / d == (-n) / (-d) for a negative limit
      Some(CeilDiv(-(total as int), -limit))
  }

  /** The page on which 0-based row `i` appears. */
  function PageOf(i: nat, limit: int): int
    requires limit > 0
  {
    i / limit + 1
  }

  /** Every row of the result set appears on one of the reported pages. */
  lemma RowOnReportedPage(count: Option<nat>, limit: int, i: nat)
    requires limit > 0 && i < count.GetOr(0)
    ensures 1 <= PageOf(i, limit) <= TotalPages(count, limit).value
    ensures RangeFor(PageOf(i, limit), limit).from <= i <= RangeFor(PageOf(i, limit), limit).to
  {
    var k := TotalPages(count, limit).value;
    DivBounds(i, limit);
    var q := i / limit;
    if q + 1 > k {
      MulMono(k, q, limit);
    }
  }

  /** Every page after the last reported one is empty. */
  lemma PagesAfterLastAreEmpty(count: Option<nat>, limit: int, page: int)
    requires limit > 0 && page > TotalPages(count, limit).value
    ensures RangeFor(page, limit).from >= count.GetOr(0)
  {
    MulMono(TotalPages(count, limit).value, page - 1, limit);
  }

  /** A row on page `p` lies before every later page, so no row is on two pages. */
  lemma PagesDisjoint(limit: int, p: int, q: int, i: int)
    requires limit > 0 && p < q
    requires RangeFor(p, limit).from <= i <= RangeFor(p, limit).to
    ensures i < RangeFor(q, limit).from
  {
    MulMono(p, q - 1, limit);
  }

  lemma MulMono(a: int, b: int, c: int)
    requires a <= b && c > 0
    ensures a * c <= b * c
  {
    assert b * c - a * c == (b - a) * c;
  }

  /** The page request after the destructuring defaults `page = 1, limit = 20`,
      which apply only to a missing parameter. */
  datatype PageRequest = PageRequest(page: int, limit: int)

  function DefaultedRequest(page: Option<int>, limit: Option<int>): PageRequest {
    PageRequest(page.GetOr(1), limit.GetOr(20))
  }

  /** The pagination part of a list response. */
  datatype PageInfo = PageInfo(page: int, limit: int, total: nat, totalPages: Option<int>)

  function ListPagination(req: PageRequest, count: Option<nat>): (r: (Window, PageInfo))
    ensures r.0.to - r.0.from + 1 == req.limit
    ensures r.1.total == count.GetOr(0)
    ensures req.limit > 0 ==> r.1.totalPages.Some? && (r.1.totalPages.value - 1) * req.limit < r.1.total <= r.1.totalPages.value * req.limit
  {
    (RangeFor(req.page, req.limit), PageInfo(req.page, req.limit, count.GetOr(0), TotalPages(count, req.limit)))
  }

  /** Without parameters the first 20 rows are requested and the page count is ⌈total / 20⌉. */
  lemma DefaultListing(count: Option<nat>)
    ensures var r := ListPagination(DefaultedRequest(None, None), count);
      r.0 == Window(0, 19) && r.1.page == 1 && r.1.limit == 20
      && (r.1.totalPages.value - 1) * 20 < count.GetOr(0) <= r.1.totalPages.value * 20
  {
  }
}
