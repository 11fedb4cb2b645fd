/** The page arithmetic of the users view: the clamped Previous and Next steps
    and the page-count estimate a completed fetch leaves behind. The view keeps
    `1 <= page <= totalPages`; each function says how it preserves that range. */
module Pagination {

  predicate InRange(page: int, totalPages: int)
  {
    1 <= page <= totalPages
  }

  /** `Math.max(1, p - 1)`. */
  function PreviousPage(p: int): (r: int)
    ensures r >= 1
    ensures p <= 1 ==> r == 1
    ensures p > 1 ==> r == p - 1
    ensures forall total :: InRange(p, total) ==> InRange(r, total)
  {
    if p - 1 < 1 then 1 else p - 1
  }

  /** `Math.min(totalPages, p + 1)`. */
  function NextPage(p: int, totalPages: int): (r: int)
    ensures r <= totalPages
    ensures p >= totalPages ==> r == totalPages
    ensures p < totalPages ==> r == p + 1
    ensures InRange(p, totalPages) ==> InRange(r, totalPages)
  {
    if totalPages < p + 1 then totalPages else p + 1
  }

  /** The page-count estimate after page `page` was fetched and the server
      reported `reported` pages: one past the current page while the server
      knows of more pages, otherwise the estimate held so far. */
  function EstimateTotalPages(page: int, totalPages: int, reported: int): (r: int)
    ensures page < reported ==> r == page + 1
    ensures page >= reported ==> r == totalPages
    ensures InRange(page, totalPages) ==> InRange(page, r)
  {
    if page < reported then page + 1 else totalPages
  }
}
