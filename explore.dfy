/** The public catalogue page (`src/pages/Explore.tsx`): server-side search and filters,
    twelve courses per page, and a pager that shows at most five page numbers. */
module Explore {
  import opened Js
  import opened Api

  /** The `limit` of every request. */
  const PageSize: int := 12

  /** The value a select filter holds when it does not filter. */
  const All: string := "all"

  /** The most page numbers the pager shows at once. */
  const WindowSize: int := 5

  // ===========================================================================
  // The page-number window (lines 291-301)

  /** The page numbers the pager shows, computed entry by entry as the source does.
      Whatever the current page, they are a run of consecutive pages from `WindowStart`. */
  function PageWindow(current: int, total: int): (pages: seq<int>)
    ensures |pages| == if total <= 0 then 0 else Min(WindowSize, total)
    ensures forall i :: 0 <= i < |pages| ==> pages[i] == WindowStart(current, total) + i
  {
    var n := if total <= 0 then 0 else Min(WindowSize, total);
    seq(n, i requires 0 <= i < n =>
      if total <= 5 then i + 1
      else if current <= 3 then i + 1
      else if current >= total - 2 then total - 4 + i
      else current - 2 + i)
  }

  /** Reference definition of the window's first page: the page two before the current
      one, pushed right to 1 and left so the window ends at the last page. */
  function WindowStart(current: int, total: int): int {
    Max(1, Min(current - 2, total - WindowSize + 1))
  }

  /** When the current page is a real page, the window holds only real pages, contains
      the current one, and centres it whenever two pages fit on each side. */
  lemma PageWindowContainsCurrent(current: int, total: int)
    requires 1 <= current <= total
    ensures forall p :: p in PageWindow(current, total) ==> 1 <= p <= total
    ensures current in PageWindow(current, total)
    ensures 3 <= current <= total - 2 ==> PageWindow(current, total)[2] == current
  {
    var w := PageWindow(current, total);
    var start := WindowStart(current, total);
    assert 0 <= current - start < |w|;
    assert w[current - start] == current;
    forall p | p in w ensures 1 <= p <= total {
      var i :| 0 <= i < |w| && w[i] == p;
    }
  }

  // ===========================================================================
  // Request parameters (lines 55-63)

  /** The query sent to `getAllCourses`; an absent property is None. */
  datatype QueryParams = QueryParams(
    page: int,
    limit: int,
    search: Option<string>,
    status: Option<string>,
    category: Option<string>,
    difficulty: Option<string>)

  /** The search box and the three filters. */
  datatype Filters = Filters(search: string, status: string, category: string, difficulty: string)

  /** An optional filter property: present unless the filter is switched off. */
  function Param(value: string, off: string): Option<string> {
    if value != off then Some(value) else None
  }

  /** Read the filter state back from a request: an absent property is the "off" value. */
  function FiltersOf(p: QueryParams): Filters {
    Filters(
      if p.search.Some? then p.search.value else "",
      if p.status.Some? then p.status.value else All,
      if p.category.Some? then p.category.value else All,
      if p.difficulty.Some? then p.difficulty.value else All)
  }

  /** Lines 55-63: the request object, built one property at a time. The request always
      carries the page and the page size, and the filter state can be read back from it
      exactly: a property is present exactly when its filter is switched on. */
  method BuildParams(currentPage: int, f: Filters) returns (p: QueryParams)
    ensures p.page == currentPage && p.limit == PageSize
    ensures FiltersOf(p) == f
    ensures p.search.Some? <==> f.search != ""
    ensures p.status.Some? <==> f.status != All
    ensures p.category.Some? <==> f.category != All
    ensures p.difficulty.Some? <==> f.difficulty != All
  {
    p := QueryParams(currentPage, PageSize, None, None, None, None);
    if f.search != "" { p := p.(search := Some(f.search)); }
    if f.status != All { p := p.(status := Some(f.status)); }
    if f.category != All { p := p.(category := Some(f.category)); }
    if f.difficulty != All { p := p.(difficulty := Some(f.difficulty)); }
  }

  /** The request for a page and a filter state, as a value. */
  function Request(currentPage: int, f: Filters): QueryParams {
    QueryParams(currentPage, PageSize, Param(f.search, ""), Param(f.status, All), Param(f.category, All), Param(f.difficulty, All))
  }

  /** Two different page states never send the same request. */
  lemma RequestIsInjective(page: int, f: Filters, page': int, f': Filters)
    requires Request(page, f) == Request(page', f')
    ensures page == page' && f == f'
  {
    assert FiltersOf(Request(page, f)) == f;
    assert FiltersOf(Request(page', f')) == f';
  }

  // ===========================================================================
  // The pager (lines 280-323)

  /** The pager is rendered only under a non-empty list (line 192) of more than one page (line 280). */
  predicate PagerShown(totalPages: int, courseCount: int) {
    totalPages > 1 && courseCount > 0
  }

  /** Line 287: Previous does not react on the first page. */
  predicate PreviousPageDisabled(current: int) {
    current == 1
  }

  /** Line 321: Next does not react on the last page. */
  predicate NextPageDisabled(current: int, total: int) {
    current == total
  }

  datatype PagerClick = PreviousPage | NextPage | PageLink(slot: int)

  /** The page asked for by a click on the pager; a disabled control or a slot the
      window does not have leaves the page as it is. */
  function AfterPagerClick(current: int, total: int, click: PagerClick): (page: int)
    ensures click == PreviousPage ==> page == current || (page == current - 1 && !PreviousPageDisabled(current))
    ensures click == NextPage ==> page == current || (page == current + 1 && !NextPageDisabled(current, total))
    ensures click.PageLink? ==> page == current || page in PageWindow(current, total)
  {
    match click
    case PreviousPage => if PreviousPageDisabled(current) then current else current - 1
    case NextPage => if NextPageDisabled(current, total) then current else current + 1
    case PageLink(slot) =>
      var w := PageWindow(current, total);
      if 0 <= slot < |w| then w[slot] else current
  }

  /** From a real page, every pager click lands on a real page. */
  lemma PagerKeepsPageInRange(current: int, total: int, click: PagerClick)
    requires 1 <= current <= total
    ensures 1 <= AfterPagerClick(current, total, click) <= total
  {
    PageWindowContainsCurrent(current, total);
    if click.PageLink? && 0 <= click.slot < |PageWindow(current, total)| {
      assert PageWindow(current, total)[click.slot] in PageWindow(current, total);
    }
  }

  // ===========================================================================
  // The page's state

  class ExplorePage {
    var courses: seq<Course>
    var isLoading: bool
    var filters: Filters
    var currentPage: int
    var totalPages: int
    var totalItems: int
    /** A change to the page or a filter has not been fetched yet (the effect at lines 48-50). */
    var fetchDue: bool

    /** The page as first rendered, with its first fetch due. */
    constructor ()
      ensures courses == [] && isLoading
      ensures filters == Filters("", All, All, All)
      ensures currentPage == 1 && totalPages == 1 && totalItems == 0
      ensures fetchDue
    {
      courses, isLoading := [], true;
      filters := Filters("", All, All, All);
      currentPage, totalPages, totalItems := 1, 1, 0;
      fetchDue := true;
    }

    /** `fetchCourses` (lines 52-80) with the reply of `getAllCourses` as input. Returns the
        request it sent. Only a resolved reply with `success` replaces the list and the
        pagination totals; loading always ends. */
    method FetchCourses(reply: Call<CourseList>) returns (sent: QueryParams, error: Option<string>)
      modifies this
      ensures sent == Request(old(currentPage), old(filters))
      ensures FiltersOf(sent) == filters && sent.page == currentPage
      ensures !isLoading && !fetchDue
      ensures reply.Resolved? && reply.body.success ==>
        courses == reply.body.data
        && totalPages == reply.body.pagination.totalPages
        && totalItems == reply.body.pagination.totalItems
      ensures !(reply.Resolved? && reply.body.success) ==>
        courses == old(courses) && totalPages == old(totalPages) && totalItems == old(totalItems)
      ensures error == if reply.Thrown? then Some(OrElse(reply.message, "Failed to fetch courses")) else None
      ensures filters == old(filters) && currentPage == old(currentPage)
    {
      isLoading := true;
      sent := BuildParams(currentPage, filters);
      error := None;
      match reply {
        case Resolved(body) =>
          if body.success {
            courses := body.data;
            totalPages := body.pagination.totalPages;
            totalItems := body.pagination.totalItems;
          }
        case Thrown(message) =>
          error := Some(OrElse(message, "Failed to fetch courses"));
      }
      isLoading := false;
      fetchDue := false;
    }

    /** Setting `currentPage`; the effect fetches again only if the value changed. */
    method SetCurrentPage(page: int)
      modifies this`currentPage, this`fetchDue
      ensures currentPage == page
      ensures fetchDue == (old(fetchDue) || page != old(currentPage))
    {
      fetchDue := fetchDue || page != currentPage;
      currentPage := page;
    }

    /** Setting the search box or a filter; the effect fetches again only if it changed. */
    method SetFilters(f: Filters)
      modifies this`filters, this`fetchDue
      ensures filters == f
      ensures fetchDue == (old(fetchDue) || f != old(filters))
    {
      fetchDue := fetchDue || f != filters;
      filters := f;
    }

    /** `handleSearch` (lines 82-85): submitting the search form goes back to page 1.
        The search term itself is already in the state, so on page 1 nothing is fetched. */
    method HandleSearch()
      modifies this`currentPage, this`fetchDue
      ensures currentPage == 1
      ensures fetchDue == (old(fetchDue) || old(currentPage) != 1)
    {
      SetCurrentPage(1);
    }

    /** `handlePageChange` (lines 87-90); the scroll to the top is not modelled. */
    method HandlePageChange(page: int)
      modifies this`currentPage, this`fetchDue
      ensures currentPage == page
      ensures fetchDue == (old(fetchDue) || page != old(currentPage))
    {
      SetCurrentPage(page);
    }

    /** A click on a pager control (lines 285-322), while the pager is shown. */
    method ClickPager(click: PagerClick)
      requires PagerShown(totalPages, |courses|)
      modifies this`currentPage, this`fetchDue
      ensures currentPage == AfterPagerClick(old(currentPage), totalPages, click)
      ensures 1 <= old(currentPage) <= totalPages ==> 1 <= currentPage <= totalPages
    {
      match click {
        case PreviousPage =>
          if currentPage != 1 { HandlePageChange(currentPage - 1); }
        case NextPage =>
          if currentPage != totalPages { HandlePageChange(currentPage + 1); }
        case PageLink(slot) =>
          var w := PageWindow(currentPage, totalPages);
          if 0 <= slot < |w| { HandlePageChange(w[slot]); }
      }
      if 1 <= old(currentPage) <= totalPages {
        PagerKeepsPageInRange(old(currentPage), totalPages, click);
      }
    }

    /** Clear Filters (lines 200-206): every filter off and back to page 1. */
    method ClearFilters()
      modifies this`filters, this`currentPage, this`fetchDue
      ensures filters == Filters("", All, All, All) && currentPage == 1
      ensures fetchDue == (old(fetchDue) || old(filters) != Filters("", All, All, All) || old(currentPage) != 1)
      ensures Request(currentPage, filters) == QueryParams(1, PageSize, None, None, None, None)
    {
      SetFilters(Filters("", All, All, All));
      SetCurrentPage(1);
    }
  }
}
