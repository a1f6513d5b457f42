/** The pagination arithmetic the list handlers share: defaulted page and
    limit, `skip = (page - 1) * limit` and `totalPages = Math.ceil(total / limit)`. */
module Paging {
  import opened Optional
  import opened Domain

  /** `parseInt(v) || fallback`: NaN and 0 fall back. */
  function IntOr(v: JsVal, fallback: int): (n: int)
    ensures ParseJs(v).Some? && ParseJs(v).value != 0 ==> n == ParseJs(v).value
    ensures ParseJs(v).None? || ParseJs(v).value == 0 ==> n == fallback
  {
    var p := ParseJs(v);
    if TruthyInt(p) then p.value else fallback
  }

  function Skip(page: int, limit: int): int { (page - 1) * limit }

  /** The query refuses a negative `skip` (a negative `take` is accepted), so
      the list handlers answer 500 exactly when this holds. */
  predicate SkipRefused(page: int, limit: int) { Skip(page, limit) < 0 }

  /** The sign of a product with a non-negative left factor, by induction on it. */
  lemma {:induction false} ProductSign(a: nat, b: int)
    ensures a == 0 || b == 0 ==> a * b == 0
    ensures a > 0 && b > 0 ==> a * b > 0
    ensures a > 0 && b < 0 ==> a * b < 0
    decreases a
  {
    if a > 0 {
      ProductSign(a - 1, b);
      assert a * b == (a - 1) * b + b;
    }
  }

  /** The skip is negative exactly for a page below 1 with a positive limit,
      or a page above 1 with a negative limit; page 1 and limit 0 never are. */
  lemma SkipRefusedIff(page: int, limit: int)
    ensures SkipRefused(page, limit) <==> (page < 1 && limit > 0) || (page > 1 && limit < 0)
  {
    if page >= 1 {
      ProductSign(page - 1, limit);
    } else {
      ProductSign(1 - page, limit);
      assert Skip(page, limit) == -((1 - page) * limit);
    }
  }

  /** `Math.ceil(total / limit)` for integers; None where JavaScript yields
      Infinity or NaN (a zero limit). */
  function CeilDiv(total: int, limit: int): Option<int> {
    if limit == 0 then None
    else if limit > 0 then Some(-((-total) / limit))
    else Some(-(total / (-limit)))
  }

  /** The `pagination` object of a list response. */
  datatype Pagination = Pagination(page: int, limit: int, total: int, totalPages: Option<int>)

  /** With a positive limit the page count is the least number of pages of
      `limit` rows that hold `total` rows. */
  lemma CeilDivIsPageCount(total: int, limit: int)
    requires total >= 0 && limit > 0
    ensures CeilDiv(total, limit).Some?
    ensures var tp := CeilDiv(total, limit).value;
            tp >= 0 && total <= tp * limit && (total > 0 ==> (tp - 1) * limit < total)
    ensures CeilDiv(total, limit).value == 0 <==> total == 0
  {
    var f := (-total) / limit;
    var r := (-total) % limit;
    assert -total == f * limit + r && 0 <= r < limit;
    var tp := -f;
    assert tp * limit == total + r;
    assert (tp - 1) * limit == total + r - limit;
  }
}
