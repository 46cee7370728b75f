/**
 * Page arithmetic of the lister: the page count from the profile
 * (script.js:15, 61), the clamp of `changePage` (script.js:19-27), the
 * Prev/Next flags (script.js:160-161) and the page-number strip
 * (script.js:166-227).
 */
module Pagination {

  const ReposPerPage: nat := 10
  /** Most page numbers shown in the sliding window. */
  const MaxPages: nat := 5

  function Min(a: int, b: int): int { if a <= b then a else b }
  function Max(a: int, b: int): int { if a >= b then a else b }

  /** `Math.ceil(publicRepos / reposPerPage)`: the fewest pages of ten that hold every repository. */
  function TotalPages(publicRepos: nat): (pages: nat)
    ensures pages * ReposPerPage >= publicRepos
    ensures pages * ReposPerPage < publicRepos + ReposPerPage
  {
    (publicRepos + ReposPerPage - 1) / ReposPerPage
  }

  /**
   * The page `changePage` settles on: raised to 1, then lowered to the
   * page count. The upper clamp runs last, so with no pages the result is 0.
   */
  function ClampPage(page: int, totalPages: nat): (p: nat)
    ensures p <= totalPages
    ensures totalPages >= 1 ==> 1 <= p
    ensures totalPages == 0 ==> p == 0
    ensures 1 <= page <= totalPages ==> p == page
    ensures page < 1 && totalPages >= 1 ==> p == 1
    ensures page > totalPages ==> p == totalPages
  {
    var raised := if page < 1 then 1 else page;
    if raised > totalPages then totalPages else raised
  }

  /** Prev is disabled exactly on page 1. */
  predicate PrevDisabled(currentPage: int) {
    currentPage == 1
  }

  /** Next is disabled from the last page on. */
  predicate NextDisabled(currentPage: int, totalPages: nat) {
    currentPage >= totalPages
  }

  /**
   * On a page in range, a button is disabled exactly when pressing it would
   * leave the page where it is; an enabled one moves by one page.
   */
  lemma NavigationFlags(currentPage: int, totalPages: nat)
    requires 1 <= currentPage <= totalPages
    ensures PrevDisabled(currentPage) <==> ClampPage(currentPage - 1, totalPages) == currentPage
    ensures NextDisabled(currentPage, totalPages) <==> ClampPage(currentPage + 1, totalPages) == currentPage
    ensures !PrevDisabled(currentPage) ==> ClampPage(currentPage - 1, totalPages) == currentPage - 1
    ensures !NextDisabled(currentPage, totalPages) ==> ClampPage(currentPage + 1, totalPages) == currentPage + 1
  {
  }

  /** The window `[start, end]` of page numbers; `end < start` means no numbers. */
  datatype Span = Span(start: int, end: int)

  /**
   * The window of `renderPageNumbers`: centred on the current page, cut at
   * the page count, then pulled back to hold five pages where there are
   * five. It holds `min(5, totalPages)` pages for ANY current page; near
   * either end it is anchored to that end, so the ensures fix it for every input.
   */
  function PageWindow(currentPage: int, totalPages: nat): (w: Span)
    ensures totalPages == 0 ==> w == Span(1, 0)
    ensures totalPages >= 1 ==> 1 <= w.start <= w.end <= totalPages
    ensures w.end - w.start + 1 == Min(MaxPages, totalPages)
    ensures 1 <= currentPage <= totalPages ==> w.start <= currentPage <= w.end
    ensures 3 <= currentPage <= totalPages - 2 ==> w == Span(currentPage - 2, currentPage + 2)
    ensures totalPages >= 1 && currentPage <= 2 ==> w.start == 1
    ensures totalPages >= 1 && currentPage >= totalPages - 1 ==> w.end == totalPages
  {
    var start := Max(1, currentPage - MaxPages / 2);
    var end := Min(totalPages, start + MaxPages - 1);
    if end - start < MaxPages - 1 then Span(Max(1, end - MaxPages + 1), end) else Span(start, end)
  }

  /** One entry of the strip: a clickable page number (highlighted when current) or an ellipsis. */
  datatype PageItem = Num(page: int, isCurrent: bool) | Ellipsis

  /** The first-page shortcut when the window starts after 1, and an ellipsis when a page is hidden before it. */
  function LeadingItems(start: int): seq<PageItem> {
    (if start > 1 then [Num(1, false)] else []) + (if start > 2 then [Ellipsis] else [])
  }

  /** The window's own numbers, the current one highlighted. */
  function WindowItems(start: int, end: int, currentPage: int): (items: seq<PageItem>)
    ensures |items| == if end >= start then end - start + 1 else 0
    decreases end - start
  {
    if end < start then [] else WindowItems(start, end - 1, currentPage) + [Num(end, end == currentPage)]
  }

  /** The `k`-th of the window's numbers is page `start + k`. */
  lemma {:induction false} WindowItemsAt(start: int, end: int, currentPage: int, k: int)
    requires 0 <= k <= end - start
    ensures WindowItems(start, end, currentPage)[k] == Num(start + k, start + k == currentPage)
    decreases end - start
  {
    if k < end - start {
      WindowItemsAt(start, end - 1, currentPage, k);
    }
  }

  /** An ellipsis when a page is hidden after the window, and the last-page shortcut when the window stops short of it. */
  function TrailingItems(end: int, totalPages: nat): seq<PageItem> {
    (if end < totalPages - 1 then [Ellipsis] else []) + (if end < totalPages then [Num(totalPages, false)] else [])
  }

  /** What `renderPageNumbers` leaves in the page-number container. */
  function PageStrip(currentPage: int, totalPages: nat): (items: seq<PageItem>)
    ensures items == [] <==> totalPages == 0
  {
    var w := PageWindow(currentPage, totalPages);
    LeadingItems(w.start) + WindowItems(w.start, w.end, currentPage) + TrailingItems(w.end, totalPages)
  }

  /** `renderPageNumbers`, appending to the container one element at a time. */
  method RenderPageNumbers(currentPage: int, totalPages: nat) returns (items: seq<PageItem>)
    ensures items == PageStrip(currentPage, totalPages)
  {
    var startPage := Max(1, currentPage - MaxPages / 2);
    var endPage := Min(totalPages, startPage + MaxPages - 1);
    if endPage - startPage < MaxPages - 1 {
      startPage := Max(1, endPage - MaxPages + 1);
    }
    assert Span(startPage, endPage) == PageWindow(currentPage, totalPages);
    items := [];
    if startPage > 1 {
      items := items + [Num(1, false)];
      if startPage > 2 {
        items := items + [Ellipsis];
      }
    }
    ghost var leading := items;
    assert leading == LeadingItems(startPage);
    for i := startPage to endPage + 1
      invariant items == leading + WindowItems(startPage, i - 1, currentPage)
    {
      ghost var before := WindowItems(startPage, i - 1, currentPage);
      assert WindowItems(startPage, i, currentPage) == before + [Num(i, i == currentPage)];
      AppendOne(leading, before, Num(i, i == currentPage));
      items := items + [Num(i, i == currentPage)];
    }
    ghost var numbered := items;
    if endPage < totalPages {
      if endPage < totalPages - 1 {
        items := items + [Ellipsis];
      }
      items := items + [Num(totalPages, false)];
    }
    assert items == numbered + TrailingItems(endPage, totalPages);
    assert PageStrip(currentPage, totalPages)
        == LeadingItems(startPage) + WindowItems(startPage, endPage, currentPage) + TrailingItems(endPage, totalPages);
  }

  lemma AppendOne<T>(a: seq<T>, b: seq<T>, x: T)
    ensures a + (b + [x]) == a + b + [x]
  {
  }

  /** With no pages the strip is empty. */
  lemma StripEmpty(currentPage: int)
    ensures PageStrip(currentPage, 0) == []
  {
  }

  /**
   * Where each piece of the strip sits: `L` leading items, then the window's
   * numbers, then the trailing items.
   */
  lemma StripLayout(currentPage: int, totalPages: nat, k: int)
    requires totalPages >= 1
    requires 0 <= k < |PageStrip(currentPage, totalPages)|
    ensures var w := PageWindow(currentPage, totalPages);
            var s := PageStrip(currentPage, totalPages);
            var lead := |LeadingItems(w.start)|;
            var n := w.end - w.start + 1;
            && |s| == lead + n + |TrailingItems(w.end, totalPages)|
            && (k < lead ==> s[k] == LeadingItems(w.start)[k])
            && (lead <= k < lead + n ==> s[k] == Num(w.start + k - lead, w.start + k - lead == currentPage))
            && (lead + n <= k ==> s[k] == TrailingItems(w.end, totalPages)[k - lead - n])
  {
    var w := PageWindow(currentPage, totalPages);
    var lead := |LeadingItems(w.start)|;
    if lead <= k < lead + w.end - w.start + 1 {
      WindowItemsAt(w.start, w.end, currentPage, k - lead);
    }
  }

  /** With at least one page the strip starts at page 1 and ends at the last page. */
  lemma StripEnds(currentPage: int, totalPages: nat)
    requires totalPages >= 1
    ensures var s := PageStrip(currentPage, totalPages);
            |s| >= 1 && s[0].Num? && s[0].page == 1 && s[|s| - 1].Num? && s[|s| - 1].page == totalPages
  {
    var s := PageStrip(currentPage, totalPages);
    StripLayout(currentPage, totalPages, 0);
    StripLayout(currentPage, totalPages, |s| - 1);
  }

  /** Every number shown is a real page, and the numbers strictly increase, so none repeats. */
  lemma StripIncreasing(currentPage: int, totalPages: nat)
    ensures var s := PageStrip(currentPage, totalPages);
            forall i :: 0 <= i < |s| && s[i].Num? ==> 1 <= s[i].page <= totalPages
    ensures var s := PageStrip(currentPage, totalPages);
            forall i, j :: 0 <= i < j < |s| && s[i].Num? && s[j].Num? ==> s[i].page < s[j].page
  {
    var s := PageStrip(currentPage, totalPages);
    if totalPages >= 1 {
      forall i | 0 <= i < |s| && s[i].Num? ensures 1 <= s[i].page <= totalPages {
        StripLayout(currentPage, totalPages, i);
      }
      forall i, j | 0 <= i < j < |s| && s[i].Num? && s[j].Num? ensures s[i].page < s[j].page {
        StripLayout(currentPage, totalPages, i);
        StripLayout(currentPage, totalPages, j);
      }
    }
  }

  /** Two neighbouring numbers in the strip are consecutive pages. */
  lemma StripNeighbours(currentPage: int, totalPages: nat)
    ensures var s := PageStrip(currentPage, totalPages);
            forall i :: 0 <= i < |s| - 1 && s[i].Num? && s[i + 1].Num? ==> s[i + 1].page == s[i].page + 1
  {
    var s := PageStrip(currentPage, totalPages);
    if totalPages >= 1 {
      forall i | 0 <= i < |s| - 1 && s[i].Num? && s[i + 1].Num? ensures s[i + 1].page == s[i].page + 1 {
        StripLayout(currentPage, totalPages, i);
        StripLayout(currentPage, totalPages, i + 1);
      }
    }
  }

  /**
   * An ellipsis stands only between two numbers with at least one page
   * between them, so with `StripNeighbours` the ellipses mark exactly the
   * hidden pages.
   */
  lemma StripEllipses(currentPage: int, totalPages: nat)
    ensures var s := PageStrip(currentPage, totalPages);
            forall i :: 0 <= i < |s| && s[i].Ellipsis? ==>
              0 < i < |s| - 1 && s[i - 1].Num? && s[i + 1].Num? && s[i + 1].page >= s[i - 1].page + 2
  {
    var s := PageStrip(currentPage, totalPages);
    if totalPages >= 1 {
      forall i | 0 <= i < |s| && s[i].Ellipsis?
        ensures 0 < i < |s| - 1 && s[i - 1].Num? && s[i + 1].Num? && s[i + 1].page >= s[i - 1].page + 2
      {
        StripEllipsisAt(currentPage, totalPages, i);
      }
    }
  }

  lemma StripEllipsisAt(currentPage: int, totalPages: nat, i: int)
    requires totalPages >= 1
    requires 0 <= i < |PageStrip(currentPage, totalPages)| && PageStrip(currentPage, totalPages)[i].Ellipsis?
    ensures var s := PageStrip(currentPage, totalPages);
            0 < i < |s| - 1 && s[i - 1].Num? && s[i + 1].Num? && s[i + 1].page >= s[i - 1].page + 2
  {
    var s := PageStrip(currentPage, totalPages);
    StripLayout(currentPage, totalPages, i);
    StripEnds(currentPage, totalPages);
    StripLayout(currentPage, totalPages, i - 1);
    StripLayout(currentPage, totalPages, i + 1);
  }

  /** Only the current page is highlighted, and it is shown exactly when it is a real page. */
  lemma StripCurrent(currentPage: int, totalPages: nat)
    ensures var s := PageStrip(currentPage, totalPages);
            forall i :: 0 <= i < |s| && s[i].Num? && s[i].isCurrent ==> s[i].page == currentPage
    ensures var s := PageStrip(currentPage, totalPages);
            (exists i :: 0 <= i < |s| && s[i] == Num(currentPage, true)) <==> 1 <= currentPage <= totalPages
  {
    var s := PageStrip(currentPage, totalPages);
    var w := PageWindow(currentPage, totalPages);
    if totalPages >= 1 {
      forall i | 0 <= i < |s| && s[i].Num? && s[i].isCurrent ensures s[i].page == currentPage {
        StripLayout(currentPage, totalPages, i);
      }
      if 1 <= currentPage <= totalPages {
        var i := |LeadingItems(w.start)| + currentPage - w.start;
        StripLayout(currentPage, totalPages, i);
        assert s[i] == Num(currentPage, true);
      } else {
        forall i | 0 <= i < |s| ensures s[i] != Num(currentPage, true) {
          StripLayout(currentPage, totalPages, i);
        }
      }
    }
  }

  /**
   * A profile reporting 25 public repositories gives three pages; page 1 of
   * them shows the strip `[1] 2 3`, with Prev disabled and Next enabled.
   */
  lemma TwentyFiveRepositories()
    ensures TotalPages(25) == 3
    ensures PageStrip(1, 3) == [Num(1, true), Num(2, false), Num(3, false)]
    ensures PrevDisabled(1) && !NextDisabled(1, 3)
  {
    assert PageWindow(1, 3) == Span(1, 3);
    assert WindowItems(1, 1, 1) == [Num(1, true)];
    assert WindowItems(1, 2, 1) == [Num(1, true), Num(2, false)];
  }
}
