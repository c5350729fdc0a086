/**
 * The audit-log pager of the administrator's dashboard
 * (frontend/src/pages/AdminDashboard.tsx): the `page` state, the number
 * of pages computed from the batch of audit rows last fetched, and the
 * Previous and Next buttons. A disabled button does not fire its handler.
 */
module AdminDashboard {
  import opened Common
  import AdminController

  const PAGE_SIZE := 10

  /** The `limit` of every audit fetch: a batch never holds more rows. */
  const FETCH_LIMIT := 50

  /** `Math.ceil(auditLogs.length / pageSize)`. */
  function TotalPages(count: nat): int
  {
    AdminController.CeilDiv(count, PAGE_SIZE)
  }

  /** The updater `(p) => Math.max(p - 1, 1)`. */
  function PreviousPage(p: int): int { Max(p - 1, 1) }

  /** The updater `(p) => Math.min(p + 1, totalPages)`. */
  function NextPage(p: int, total: int): int { Min(p + 1, total) }

  /** The page after a click on Previous, which is disabled on page 1. */
  function AfterPrevious(p: int): int { if p == 1 then p else PreviousPage(p) }

  /** The page after a click on Next, which is disabled only on the last page. */
  function AfterNext(p: int, total: int): int { if p == total then p else NextPage(p, total) }

  class Pager {
    var page: int
    /** `auditLogs.length`, the size of the batch last fetched (none yet: 0). */
    var logCount: nat

    constructor ()
      ensures page == 1 && logCount == 0
    {
      page := 1;
      logCount := 0;
    }

    function Total(): int
      reads this
    {
      TotalPages(logCount)
    }

    /** A fetch completes with `count` rows. */
    method LogsLoaded(count: nat)
      modifies this
      ensures logCount == count && page == old(page)
    {
      logCount := count;
    }

    method ClickPrevious()
      modifies this
      ensures page == AfterPrevious(old(page)) && logCount == old(logCount)
    {
      if page != 1 {
        page := Max(page - 1, 1);
      }
    }

    method ClickNext()
      modifies this
      ensures page == AfterNext(old(page), TotalPages(old(logCount))) && logCount == old(logCount)
    {
      var total := Total();
      if page != total {
        page := Min(page + 1, total);
      }
    }
  }

  /** The page count is the ceiling of rows over ten: 0 with no rows, at most 5 for one batch. */
  lemma TotalPagesCeiling(count: nat)
    ensures var total := TotalPages(count);
      && (total - 1) * PAGE_SIZE < count <= total * PAGE_SIZE
      && (count == 0 <==> total == 0)
      && (count <= FETCH_LIMIT ==> total <= 5)
  {
  }

  /** Previous never goes below page 1, and steps back by one from page 2 on. */
  lemma PreviousNeverBelowOne(p: int)
    ensures PreviousPage(p) >= 1
    ensures p >= 2 ==> PreviousPage(p) == p - 1
    ensures AfterPrevious(1) == 1
  {
  }

  /** Next never goes past the last page, and steps on by one before it. */
  lemma NextNeverPastLast(p: int, total: int)
    ensures NextPage(p, total) <= total
    ensures p < total ==> NextPage(p, total) == p + 1
    ensures AfterNext(total, total) == total
  {
  }

  /** With at least one page, clicking either button keeps the page between 1 and the last. */
  lemma ClicksStayInRange(p: int, total: int)
    requires 1 <= p <= total
    ensures 1 <= AfterPrevious(p) <= total
    ensures 1 <= AfterNext(p, total) <= total
  {
  }

  /**
   * With no rows there are 0 pages, yet Next on page 1 is enabled, and
   * pressing it moves to page 0; Previous then brings it back to 1.
   */
  lemma EmptyLogNextGoesToZero()
    ensures TotalPages(0) == 0
    ensures AfterNext(1, TotalPages(0)) == 0
    ensures AfterPrevious(0) == 1
  {
  }
}
