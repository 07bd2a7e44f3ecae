/**
 * The page and limit query parameters the listing handlers share: their defaults, the skip
 * they give and the page count they announce.
 */
module Paging {
  import opened Common
  import opened Collections

  /** `parseInt(req.query.page) || 1`: a missing, non-numeric or zero page is page 1. */
  function PageOrDefault(page: Option<int>): (p: int)
    ensures p != 0
    ensures page.None? || page.value == 0 ==> p == 1
    ensures page.Some? && page.value != 0 ==> p == page.value
  {
    if page.None? || page.value == 0 then 1 else page.value
  }

  /** `parseInt(req.query.limit) || 10`: a missing, non-numeric or zero limit is 10. */
  function LimitOrDefault(limit: Option<int>): (l: int)
    ensures l != 0
    ensures limit.None? || limit.value == 0 ==> l == 10
    ensures limit.Some? && limit.value != 0 ==> l == limit.value
  {
    if limit.None? || limit.value == 0 then 10 else limit.value
  }

  /** `Math.ceil(total / limit)` for a non-zero integer limit. */
  function CeilDiv(total: nat, limit: int): (r: int)
    requires limit != 0
    ensures limit > 0 ==> (r - 1) * limit < total <= r * limit
    ensures limit < 0 ==> r * limit <= total < (r - 1) * limit
  {
    if limit > 0 then (total + limit - 1) / limit else -(total / -limit)
  }

  datatype Pagination = Pagination(current: int, pages: int, total: nat)

  function Paginate(page: Option<int>, limit: Option<int>, total: nat): Pagination {
    Pagination(PageOrDefault(page), CeilDiv(total, LimitOrDefault(limit)), total)
  }

  /** `skip = (page - 1) * limit`. */
  function Skip(page: Option<int>, limit: Option<int>): int {
    (PageOrDefault(page) - 1) * LimitOrDefault(limit)
  }

  /**
   * With a positive limit, the k-th of total items is on page k / limit + 1, which skip
   * reaches and which is one of the `pages` pages the response announces.
   */
  lemma ItemOnAnnouncedPage(total: nat, limit: nat, k: nat)
    requires 0 < limit && k < total
    ensures var page := k / limit + 1;
      && 1 <= page <= CeilDiv(total, limit)
      && Skip(Some(page), Some(limit)) <= k < Skip(Some(page), Some(limit)) + limit
  {
    var page := k / limit + 1;
    var pages := CeilDiv(total, limit);
    assert (page - 1) * limit <= k < (page - 1) * limit + limit;
  }

  function Abs(x: int): nat {
    if x < 0 then -x else x
  }

  /** The number of documents `.skip(skip).limit(limit)` leaves of total. */
  function PageLength(total: nat, skip: nat, limit: nat): nat {
    if total <= skip then 0 else if total - skip < limit then total - skip else limit
  }

  /**
   * items is the page the query parameters select from the ordered result s: the
   * documents of s from position skip on, as many as the limit and s allow.
   */
  ghost predicate IsPage<T>(items: seq<T>, s: seq<T>, page: Option<int>, limit: Option<int>) {
    var skip := Skip(page, limit);
    && 0 <= skip
    && |items| == PageLength(|s|, skip, Abs(LimitOrDefault(limit)))
    && forall k :: 0 <= k < |items| ==> skip + k < |s| && items[k] == s[skip + k]
  }

  /**
   * `.skip(skip).limit(limit)` on an ordered result: the database refuses a negative skip,
   * and a negative limit returns at most |limit| documents.
   */
  function PageOf<T>(s: seq<T>, page: Option<int>, limit: Option<int>): (r: Option<seq<T>>)
    ensures r.None? <==> Skip(page, limit) < 0
    ensures r.Some? ==> IsPage(r.value, s, page, limit)
  {
    var skip := Skip(page, limit);
    if skip < 0 then None else Some(Window(s, skip, Abs(LimitOrDefault(limit))))
  }

  /**
   * With a positive limit, every document of the ordered result is on one of the pages
   * the response announces: the one at k / limit + 1.
   */
  lemma PageCovers<T>(s: seq<T>, limit: nat, k: nat)
    requires 0 < limit && k < |s|
    ensures var page := k / limit + 1;
      && 1 <= page <= CeilDiv(|s|, limit)
      && PageOf(s, Some(page), Some(limit)).Some?
      && s[k] in PageOf(s, Some(page), Some(limit)).value
  {
    var page := k / limit + 1;
    ItemOnAnnouncedPage(|s|, limit, k);
    var skip := Skip(Some(page), Some(limit));
    var items := PageOf(s, Some(page), Some(limit)).value;
    assert items[k - skip] == s[k];
  }
}
