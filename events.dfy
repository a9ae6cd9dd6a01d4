/**
 * The events list: server-side pagination bookkeeping, the request each page
 * load sends, and the delete-confirmation modal.
 */
module Events {
  import opened Options

  /** `Math.ceil(n / d)` for a whole number of records and a positive page size. */
  function CeilDiv(n: nat, d: nat): (r: nat)
    requires d > 0
    ensures r * d >= n
    ensures r == 0 || (r - 1) * d < n
    ensures n == 0 <==> r == 0
  {
    var q := (n + d - 1) / d;
    assert q * d + (n + d - 1) % d == n + d - 1;
    assert (n + d - 1) % d < d;
    q
  }

  /** `Array.from({length: n}, (_, i) => i + 1)`: the page numbers 1..n, ascending. */
  function PageNumbers(n: nat): (r: seq<int>)
    ensures |r| == n
    ensures forall a, b | 0 <= a < b < |r| :: r[a] < r[b]
    ensures forall i | 0 <= i < |r| :: 1 <= r[i] <= n
  {
    seq(n, i requires 0 <= i < n => i + 1)
  }

  /** The listed pages are exactly the valid page numbers 1..n. */
  lemma PageNumbersAreValidPages(n: nat)
    ensures forall p :: p in PageNumbers(n) <==> 1 <= p <= n
  {
    var r := PageNumbers(n);
    forall p | 1 <= p <= n ensures p in r {
      assert r[p - 1] == p;
    }
  }

  /** The DataTables-style body of the events request. */
  datatype EventsRequest = EventsRequest(draw: int, start: int, length: int, searchValue: string, regex: bool)

  /** The offset of the first record of a page. */
  function PageStart(page: int, pageSize: nat): int {
    (page - 1) * pageSize
  }

  /** The request loadEvents sends for the current page. */
  function RequestFor(currentPage: int, pageSize: nat, searchTerm: string): (req: EventsRequest)
    ensures req.start == PageStart(currentPage, pageSize) && req.length == pageSize
    ensures req.searchValue == searchTerm && !req.regex && req.draw == 1
  {
    EventsRequest(1, (currentPage - 1) * pageSize, pageSize, searchTerm, false)
  }

  /** From page 1 on, a request starts at a non-negative multiple of the page size. */
  lemma RequestStartAligned(currentPage: int, pageSize: nat, searchTerm: string)
    requires currentPage >= 1 && pageSize > 0
    ensures RequestFor(currentPage, pageSize, searchTerm).start >= 0
    ensures RequestFor(currentPage, pageSize, searchTerm).start % pageSize == 0
  {
    var k: nat := currentPage - 1;
    assert PageStart(currentPage, pageSize) == k * pageSize;
    MultipleMod(k, pageSize);
  }

  lemma MultipleMod(k: nat, d: nat)
    requires d > 0
    ensures k * d >= 0 && (k * d) % d == 0
  {
    var q := (k * d) / d;
    var m := (k * d) % d;
    assert q * d + m == k * d;
    assert (k - q) * d == m;
    if k - q >= 1 {
      assert false;
    } else if k - q <= -1 {
      assert false;
    }
  }

  /**
   * The pages listed by calculatePagination split the records: each record
   * index below totalRecords lies in the window [start, start + pageSize) of
   * exactly one listed page.
   */
  lemma RecordOnExactlyOnePage(totalRecords: nat, pageSize: nat, index: nat)
    requires pageSize > 0 && index < totalRecords
    ensures var p := index / pageSize + 1;
      && p in PageNumbers(CeilDiv(totalRecords, pageSize))
      && PageStart(p, pageSize) <= index < PageStart(p, pageSize) + pageSize
    ensures forall q | q in PageNumbers(CeilDiv(totalRecords, pageSize)) ::
      PageStart(q, pageSize) <= index < PageStart(q, pageSize) + pageSize ==> q == index / pageSize + 1
  {
    var k := index / pageSize;
    var pages := CeilDiv(totalRecords, pageSize);
    DivWindow(index, pageSize);
    assert PageStart(k + 1, pageSize) == k * pageSize;
    if pages <= k {
      MulMonotone(pages, k, pageSize);
      assert false;
    }
    PageNumbersAreValidPages(pages);
    forall q | q in PageNumbers(pages) && PageStart(q, pageSize) <= index < PageStart(q, pageSize) + pageSize
      ensures q == k + 1
    {
      WindowUnique(q - 1, k, pageSize, index);
    }
  }

  /** The page window of `n` holds `n`. */
  lemma DivWindow(n: nat, d: nat)
    requires d > 0
    ensures (n / d) * d <= n < (n / d) * d + d
  {
    assert (n / d) * d + n % d == n;
  }

  /** Two windows of width d that share a point start at the same multiple of d. */
  lemma WindowUnique(a: int, b: int, d: nat, x: int)
    requires d > 0
    requires a * d <= x < a * d + d && b * d <= x < b * d + d
    ensures a == b
  {
    if a < b {
      MulMonotone(a + 1, b, d);
      assert false;
    } else if b < a {
      MulMonotone(b + 1, a, d);
      assert false;
    }
  }

  lemma MulMonotone(a: int, b: int, d: nat)
    requires a <= b
    ensures a * d <= b * d
  {
    assert b * d - a * d == (b - a) * d;
  }

  datatype EventRow = EventRow(id: string, title: string)

  class EventsList {
    var events: seq<EventRow>
    var showDeleteModal: bool
    var eventToDeleteId: Option<string>
    var searchTerm: string
    var pageSize: nat
    var currentPage: int
    var totalRecords: nat
    var totalPages: nat
    var pagesArray: seq<int>

    /** A positive page size, and the current page never below 1. */
    predicate Valid()
      reads this
    {
      pageSize > 0 && currentPage >= 1
    }

    /** totalPages and pagesArray agree with totalRecords. */
    predicate Paginated()
      reads this
      requires pageSize > 0
    {
      totalPages == CeilDiv(totalRecords, pageSize) && pagesArray == PageNumbers(totalPages)
    }

    constructor ()
      ensures Valid() && Paginated()
      ensures pageSize == 25 && currentPage == 1 && totalRecords == 0 && totalPages == 0 && pagesArray == []
      ensures events == [] && !showDeleteModal && eventToDeleteId.None? && searchTerm == ""
    {
      events, showDeleteModal, eventToDeleteId, searchTerm := [], false, None, "";
      pageSize, currentPage, totalRecords, totalPages, pagesArray := 25, 1, 0, 0, [];
    }

    /** The request loadEvents sends in this state. */
    function LoadEventsRequest(): (req: EventsRequest)
      reads this
      requires Valid()
      ensures req.start >= 0 && req.start % pageSize == 0 && req.length == pageSize
      ensures req.start == PageStart(currentPage, pageSize) && req.searchValue == searchTerm
    {
      RequestStartAligned(currentPage, pageSize, searchTerm);
      RequestFor(currentPage, pageSize, searchTerm)
    }

    /** calculatePagination: page count by ceiling division, pages numbered from 1. */
    method CalculatePagination()
      requires pageSize > 0
      modifies this`totalPages, this`pagesArray
      ensures Paginated()
      ensures totalPages * pageSize >= totalRecords && (totalPages == 0 || (totalPages - 1) * pageSize < totalRecords)
    {
      totalPages := CeilDiv(totalRecords, pageSize);
      pagesArray := PageNumbers(totalPages);
    }

    /** The success callback of loadEvents, with the response's rows (none when absent) and `recordsTotal` (0 when absent). */
    method OnEventsLoaded(rows: Option<seq<EventRow>>, recordsTotal: Option<nat>)
      requires Valid()
      modifies this`events, this`totalRecords, this`totalPages, this`pagesArray
      ensures events == rows.GetOr([]) && totalRecords == recordsTotal.GetOr(0) && Paginated()
    {
      events := rows.GetOr([]);
      totalRecords := recordsTotal.GetOr(0);
      CalculatePagination();
    }

    /** The error callback of loadEvents: no rows, no pages. */
    method OnEventsLoadFailed()
      requires Valid()
      modifies this`events, this`totalRecords, this`totalPages, this`pagesArray
      ensures events == [] && totalRecords == 0 && totalPages == 0 && pagesArray == []
    {
      events := [];
      totalRecords := 0;
      CalculatePagination();
    }

    /** goToPage: moves only to a listed page, and then reloads. */
    method GoToPage(page: int) returns (request: Option<EventsRequest>)
      requires Valid()
      modifies this`currentPage
      ensures Valid()
      ensures 1 <= page <= totalPages ==> currentPage == page && request == Some(LoadEventsRequest())
      ensures !(1 <= page <= totalPages) ==> currentPage == old(currentPage) && request.None?
    {
      if page >= 1 && page <= totalPages {
        currentPage := page;
        request := Some(LoadEventsRequest());
      } else {
        request := None;
      }
    }

    /** onSearchChange: back to page 1, and reload from the first record. */
    method OnSearchChange() returns (request: EventsRequest)
      requires Valid()
      modifies this`currentPage
      ensures Valid() && currentPage == 1
      ensures request == LoadEventsRequest() && request.start == 0
    {
      currentPage := 1;
      request := LoadEventsRequest();
    }

    /** confirmDelete: remember the event and open the modal. */
    method ConfirmDelete(id: string)
      modifies this`eventToDeleteId, this`showDeleteModal
      ensures eventToDeleteId == Some(id) && showDeleteModal
    {
      eventToDeleteId := Some(id);
      showDeleteModal := true;
    }

    /** closeDeleteModal: close the modal and forget the event. */
    method CloseDeleteModal()
      modifies this`eventToDeleteId, this`showDeleteModal
      ensures eventToDeleteId.None? && !showDeleteModal
    {
      eventToDeleteId := None;
      showDeleteModal := false;
    }

    /** executeDelete: a delete request for the pending event, none when nothing is pending. */
    method ExecuteDelete() returns (request: Option<string>)
      ensures request.Some? <==> eventToDeleteId.Some?
      ensures request.Some? ==> request.value == eventToDeleteId.value
    {
      if eventToDeleteId.Some? {
        request := Some(eventToDeleteId.value);
      } else {
        request := None;
      }
    }

    /** The delete response: on success reload, in both cases close the modal. */
    method OnDeleteResponse(succeeded: bool) returns (reload: Option<EventsRequest>)
      requires Valid()
      modifies this`eventToDeleteId, this`showDeleteModal
      ensures eventToDeleteId.None? && !showDeleteModal
      ensures reload == if succeeded then Some(LoadEventsRequest()) else None
    {
      reload := if succeeded then Some(LoadEventsRequest()) else None;
      CloseDeleteModal();
    }
  }
}
