/** The process-list pagination bar: the page count, the window of at most five page links around
    the current page, the previous/next flags and the "items x-y" caption. */
module Pagination {
  import ImportProcesses

  const MaxPagesToShow: int := 5

  /** `Math.ceil(filteredCount / pageSize)`. */
  function TotalPages(filteredCount: nat, pageSize: int): (r: nat)
    requires pageSize >= 1
    ensures r == 0 <==> filteredCount == 0
    ensures (r - 1) * pageSize < filteredCount <= r * pageSize || (r == 0 && filteredCount == 0)
  {
    var r := (filteredCount + pageSize - 1) / pageSize;
    assert r * pageSize + (filteredCount + pageSize - 1) % pageSize == filteredCount + pageSize - 1;
    r
  }

  /** The first and last page of the window, before the links are listed. */
  function Window(currentPage: int, totalPages: int): (bounds: (int, int)) {
    var startPage := if currentPage - MaxPagesToShow / 2 > 1 then currentPage - MaxPagesToShow / 2 else 1;
    var endPage := startPage + MaxPagesToShow - 1;
    if endPage > totalPages then
      (if totalPages - MaxPagesToShow + 1 > 1 then totalPages - MaxPagesToShow + 1 else 1, totalPages)
    else (startPage, endPage)
  }

  /** `getPageRange`: the consecutive page numbers from the window's first to its last page. */
  method GetPageRange(currentPage: int, totalPages: nat) returns (range: seq<int>)
    ensures forall k :: 0 <= k < |range| ==> 1 <= range[k] <= totalPages
    ensures forall k :: 0 < k < |range| ==> range[k] == range[k - 1] + 1
    ensures |range| <= MaxPagesToShow
    ensures totalPages == 0 ==> range == []
    ensures 1 <= currentPage <= totalPages ==>
              currentPage in range && |range| == if totalPages < MaxPagesToShow then totalPages else MaxPagesToShow
    ensures 3 <= currentPage <= totalPages - 2 ==> range == [currentPage - 2, currentPage - 1, currentPage, currentPage + 1, currentPage + 2]
  {
    var (startPage, endPage) := Window(currentPage, totalPages);
    range := [];
    var i := startPage;
    while i <= endPage
      invariant startPage <= i <= (if endPage + 1 > startPage then endPage + 1 else startPage)
      invariant |range| == i - startPage
      invariant forall k :: 0 <= k < |range| ==> range[k] == startPage + k
    {
      range := range + [i];
      i := i + 1;
    }
    if 1 <= currentPage <= totalPages {
      assert range[currentPage - startPage] == currentPage;
    }
  }

  /** `hasPrevious`. */
  predicate HasPrevious(currentPage: int) {
    currentPage > 1
  }

  /** `hasNext`. */
  predicate HasNext(currentPage: int, totalPages: int) {
    currentPage < totalPages
  }

  /** `startItem`: the one-based position of the page's first process, 0 when nothing is listed. */
  function StartItem(currentPage: int, pageSize: int, filteredCount: nat): (r: int)
    ensures filteredCount == 0 ==> r == 0
    ensures filteredCount > 0 && currentPage >= 1 && pageSize >= 1 ==> r >= 1
    ensures filteredCount > 0 && currentPage == 1 ==> r == 1
  {
    if filteredCount > 0 then
      assert currentPage >= 1 && pageSize >= 1 ==> (currentPage - 1) * pageSize >= 0 by {
        if currentPage >= 1 && pageSize >= 1 {
          ImportProcesses.ProductNonNegative(currentPage - 1, pageSize);
        }
      }
      (currentPage - 1) * pageSize + 1
    else 0
  }

  /** `endItem`: the position of the page's last process. */
  function EndItem(currentPage: int, pageSize: int, filteredCount: nat): (r: int)
    ensures r <= filteredCount && r <= currentPage * pageSize
    ensures r == filteredCount || r == currentPage * pageSize
    ensures currentPage >= 0 && pageSize >= 0 ==> r >= 0
  {
    assert currentPage >= 0 && pageSize >= 0 ==> currentPage * pageSize >= 0 by {
      if currentPage >= 0 && pageSize >= 0 {
        ImportProcesses.ProductNonNegative(currentPage, pageSize);
      }
    }
    if currentPage * pageSize < filteredCount then currentPage * pageSize else filteredCount
  }

  /** There is a next page exactly when the current page ends before the last process. */
  lemma NextIffMoreItems(currentPage: int, pageSize: int, filteredCount: nat)
    requires pageSize >= 1 && currentPage >= 1
    ensures HasNext(currentPage, TotalPages(filteredCount, pageSize)) <==>
              EndItem(currentPage, pageSize, filteredCount) < filteredCount
  {
    var t := TotalPages(filteredCount, pageSize);
    if currentPage < t {
      MonotoneProduct(currentPage, t - 1, pageSize);
    } else if filteredCount > 0 {
      MonotoneProduct(t, currentPage, pageSize);
    }
  }

  /** There is a previous page exactly when the current page does not begin with the first
      process. */
  lemma PreviousIffEarlierItems(currentPage: int, pageSize: int, filteredCount: nat)
    requires pageSize >= 1 && currentPage >= 1 && filteredCount > 0
    ensures HasPrevious(currentPage) <==> StartItem(currentPage, pageSize, filteredCount) > 1
  {
    if currentPage > 1 {
      MonotoneProduct(1, currentPage - 1, pageSize);
    }
  }

  /** Captions of consecutive pages abut: after a full page the next page's caption starts one
      past where this one ends, so together with `StartItem(1, …) == 1` every page's caption
      starts right after the items of the pages before it. */
  lemma CaptionsAbut(currentPage: int, pageSize: int, filteredCount: nat)
    requires currentPage >= 1 && pageSize >= 1 && filteredCount > 0
    requires currentPage * pageSize <= filteredCount
    ensures StartItem(currentPage + 1, pageSize, filteredCount) == EndItem(currentPage, pageSize, filteredCount) + 1
  {
    assert (currentPage + 1 - 1) * pageSize == currentPage * pageSize;
  }

  lemma MonotoneProduct(a: int, b: int, c: int)
    requires a <= b && c >= 0
    ensures a * c <= b * c
  {
    assert b * c - a * c == (b - a) * c;
  }

  /** The caption `startItem-endItem` names exactly the processes `getPaginatedProcesses` returns
      for a page in range: the page holds `endItem - startItem + 1` processes, beginning at the
      position `startItem`. */
  lemma CaptionMatchesPage<T>(processes: seq<T>, currentPage: int, pageSize: int)
    requires pageSize >= 1
    requires 1 <= currentPage <= TotalPages(|processes|, pageSize)
    ensures var page := ImportProcesses.Page(processes, currentPage, pageSize);
            var first := StartItem(currentPage, pageSize, |processes|);
            var last := EndItem(currentPage, pageSize, |processes|);
            1 <= first <= last <= |processes|
            && |page| == last - first + 1
            && page == processes[first - 1..last]
  {
    var t := TotalPages(|processes|, pageSize);
    ImportProcesses.PageWindow(processes, currentPage, pageSize);
    MonotoneProduct(currentPage - 1, t - 1, pageSize);
    MonotoneProduct(0, currentPage - 1, pageSize);
  }
}
