/**
 * The pagination arithmetic of GET /api/products: the page and limit query parameters, the
 * OFFSET of the listing query, and the page count reported beside it.
 */
module Pagination {
  import opened Wrappers

  /**
   * `parseInt(raw) || fallback`. `None` stands for NaN (a parameter that does not start with a
   * number); NaN and 0 are both falsy, so both give the fallback.
   */
  function OrDefault(parsed: Option<int>, fallback: int): (r: int)
    ensures parsed.Some? && parsed.value != 0 ==> r == parsed.value
    ensures parsed.None? || parsed.value == 0 ==> r == fallback
  {
    match parsed
    case Some(n) => if n != 0 then n else fallback
    case None => fallback
  }

  /** `pageNum`: the parsed page, falling back to 1. */
  function PageNumber(parsed: Option<int>): (r: int)
    ensures r != 0
    ensures parsed.Some? && parsed.value != 0 ==> r == parsed.value
    ensures parsed.None? || parsed.value == 0 ==> r == 1
  {
    OrDefault(parsed, 1)
  }

  /** `limitNum`: the parsed limit, falling back to 12; never 0, so the page count is defined. */
  function LimitNumber(parsed: Option<int>): (r: int)
    ensures r != 0
    ensures parsed.Some? && parsed.value != 0 ==> r == parsed.value
    ensures parsed.None? || parsed.value == 0 ==> r == 12
  {
    OrDefault(parsed, 12)
  }

  /** The OFFSET of the listing query: the rows of all earlier pages are skipped. */
  function Offset(page: int, limit: int): (r: int)
    ensures page >= 1 && limit >= 0 ==> r >= 0
    ensures r + limit == page * limit
  {
    MulMonotone(0, page - 1, limit);
    (page - 1) * limit
  }

  /**
   * `Math.ceil(total / limit)` on exact division: the least page count whose pages cover
   * `total` rows when the limit is positive (and the mirror image for a negative limit).
   */
  function PageCount(total: int, limit: int): (r: int)
    requires limit != 0
    ensures limit > 0 ==> (r - 1) * limit < total <= r * limit
    ensures limit < 0 ==> r * limit <= total < (r - 1) * limit
  {
    if limit > 0 then CeilDivPositive(total, limit) else CeilDivPositive(-total, -limit)
  }

  /** Ceiling division by a positive divisor, through Dafny's flooring `/` on the negated dividend. */
  function CeilDivPositive(a: int, b: int): (r: int)
    requires b > 0
    ensures (r - 1) * b < a <= r * b
  {
    var q := (-a) / b;
    var m := (-a) % b;
    assert -a == b * q + m && 0 <= m < b;
    assert -q * b == a + m;
    assert (-q - 1) * b == a + m - b;
    -q
  }

  /** With a positive limit and a non-negative COUNT(*), no rows means no pages and vice versa. */
  lemma PageCountZero(total: int, limit: int)
    requires total >= 0 && limit > 0
    ensures PageCount(total, limit) >= 0
    ensures PageCount(total, limit) == 0 <==> total == 0
  {
  }

  /** Multiplying by a non-negative factor keeps the order. */
  lemma MulMonotone(a: int, b: int, c: int)
    ensures a <= b && c >= 0 ==> a * c <= b * c
  {
  }

  /**
   * The rows the listing query returns for a page: `LIMIT limit OFFSET (page-1)*limit` over the
   * ordered result. MySQL refuses a negative LIMIT or OFFSET, which the route answers with 500;
   * that is `None` here.
   */
  function PageOf<T>(rows: seq<T>, page: int, limit: int): (r: Option<seq<T>>)
    ensures r.None? <==> limit < 0 || Offset(page, limit) < 0
    ensures r.Some? ==> |r.value| <= limit
    ensures r.Some? ==> forall k :: 0 <= k < |r.value| ==>
      0 <= Offset(page, limit) + k < |rows| && r.value[k] == rows[Offset(page, limit) + k]
  {
    var off := Offset(page, limit);
    if limit < 0 || off < 0 then None
    else
      var lo := if off < |rows| then off else |rows|;
      var hi := if off + limit < |rows| then off + limit else |rows|;
      Some(rows[lo..hi])
  }

  /** Pages 1 to `n` one after another. */
  function Pages<T>(rows: seq<T>, limit: int, n: nat): (r: seq<T>)
    requires limit > 0
    ensures forall k :: 0 <= k < |r| ==> r[k] in rows
  {
    if n == 0 then []
    else
      var init, page := Pages(rows, limit, n - 1), PageOf(rows, n, limit).value;
      assert forall k :: 0 <= k < |page| ==> page[k] in rows;
      init + page
  }

  /** The first `n` pages are the first `n * limit` rows (or all rows, when there are fewer). */
  lemma {:induction false} PagesPrefix<T>(rows: seq<T>, limit: int, n: nat)
    requires limit > 0
    ensures n * limit >= 0
    ensures Pages(rows, limit, n) == rows[..if n * limit < |rows| then n * limit else |rows|]
  {
    if n > 0 {
      PagesPrefix(rows, limit, n - 1);
      var off := Offset(n, limit);
      var lo := if off < |rows| then off else |rows|;
      var hi := if off + limit < |rows| then off + limit else |rows|;
      assert n * limit == off + limit;
      assert PageOf(rows, n, limit).value == rows[lo..hi];
      assert rows[..lo] + rows[lo..hi] == rows[..hi];
    }
  }

  /**
   * Reading pages 1 to the reported page count, in order, gives back exactly the rows of the
   * whole listing: every row is on one page, none twice, none skipped.
   */
  lemma PagesCoverListing<T>(rows: seq<T>, limit: int)
    requires limit > 0
    ensures PageCount(|rows|, limit) >= 0
    ensures Pages(rows, limit, PageCount(|rows|, limit) as nat) == rows
  {
    PageCountZero(|rows|, limit);
    var n := PageCount(|rows|, limit);
    PagesPrefix(rows, limit, n as nat);
    assert n * limit >= |rows|;
  }

  /** A page beyond the reported count is empty, and every page up to it holds at least one row. */
  lemma PagesBeyondCountEmpty<T>(rows: seq<T>, page: int, limit: int)
    requires limit > 0 && page >= 1
    ensures page > PageCount(|rows|, limit) ==> PageOf(rows, page, limit) == Some([])
    ensures page <= PageCount(|rows|, limit) ==> |PageOf(rows, page, limit).value| > 0
  {
  }
}
