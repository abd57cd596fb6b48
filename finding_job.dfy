/** The job search page, client/src/pages/otherPages/FIndingJob.jsx: a search
    query, a page number and a map of applied filters decide the request; the
    reply sets the listing, the filter options and the pager. */
module FindingJob {
  import opened Js

  const FetchErrorMessage := "Error fetching job data. Please try again later."

  /** The query parameters of a request: keyword and page, then each applied
      filter, a filter overriding a parameter of the same name as a later
      property of an object spread does. */
  function RequestParams(keyword: string, page: int, filters: map<string, string>): (params: map<string, Value>)
    ensures params.Keys == {"keyword", "page"} + filters.Keys
    ensures forall k :: k in filters ==> params[k] == Str(filters[k])
    ensures "keyword" !in filters ==> params["keyword"] == Str(keyword)
    ensures "page" !in filters ==> params["page"] == Num(page)
  {
    map["keyword" := Str(keyword), "page" := Num(page)] + map k | k in filters :: Str(filters[k])
  }

  /** The part of a successful reply the page keeps. */
  datatype SearchReply = SearchReply(jobs: seq<Value>, filters: Record, totalPages: int, currentPage: int)

  class JobSearch {
    var jobs: seq<Value>
    var searchQuery: string
    var filterOptions: Record
    var appliedFilters: map<string, string>
    var error: Option<string>
    var loading: bool
    var currentPage: int
    var totalPages: int

    constructor ()
      ensures jobs == [] && searchQuery == "" && filterOptions == map[] && appliedFilters == map[]
      ensures error == None && !loading && currentPage == 1 && totalPages == 1
    {
      jobs := [];
      searchQuery := "";
      filterOptions := map[];
      appliedFilters := map[];
      error := None;
      loading := false;
      currentPage := 1;
      totalPages := 1;
    }

    /** The request the next fetch sends. */
    function Params(): (params: map<string, Value>)
      reads this
      ensures params.Keys == {"keyword", "page"} + appliedFilters.Keys
      ensures forall k :: k in appliedFilters ==> params[k] == Str(appliedFilters[k])
      ensures "keyword" !in appliedFilters ==> params["keyword"] == Str(searchQuery)
      ensures "page" !in appliedFilters ==> params["page"] == Num(currentPage)
    {
      RequestParams(searchQuery, currentPage, appliedFilters)
    }

    /** fetchData up to its request: loading is set, and the request carries
        the query, the page and the filters of the current render. */
    method FetchStarted() returns (params: map<string, Value>)
      modifies this
      ensures loading
      ensures params == RequestParams(searchQuery, currentPage, appliedFilters)
      ensures searchQuery == old(searchQuery) && appliedFilters == old(appliedFilters) && currentPage == old(currentPage)
      ensures jobs == old(jobs) && filterOptions == old(filterOptions) && totalPages == old(totalPages)
      ensures error == old(error)
    {
      params := Params();
      loading := true;
    }

    /** fetchData once its request has settled: a reply replaces the listing,
        the options and both page numbers; a failure sets the error and keeps
        the rest. The error is never cleared. Loading is false afterwards. */
    method FetchCompleted(reply: Option<SearchReply>)
      modifies this
      ensures !loading
      ensures searchQuery == old(searchQuery) && appliedFilters == old(appliedFilters)
      ensures reply.Some? ==>
                && jobs == reply.value.jobs && filterOptions == reply.value.filters
                && totalPages == reply.value.totalPages && currentPage == reply.value.currentPage
                && error == old(error)
      ensures reply.None? ==>
                && jobs == old(jobs) && filterOptions == old(filterOptions)
                && totalPages == old(totalPages) && currentPage == old(currentPage)
                && error == Some(FetchErrorMessage)
    {
      match reply {
        case Some(r) =>
          jobs := r.jobs;
          filterOptions := r.filters;
          totalPages := r.totalPages;
          currentPage := r.currentPage;
        case None =>
          error := Some(FetchErrorMessage);
      }
      loading := false;
    }

    /** handleFilterChange: the filter is set, to "" for the placeholder
        option rather than removed; the query is cleared and the page reset. */
    method HandleFilterChange(filterType: string, value: string)
      modifies this
      ensures appliedFilters == old(appliedFilters)[filterType := value]
      ensures searchQuery == "" && currentPage == 1
      ensures jobs == old(jobs) && filterOptions == old(filterOptions) && totalPages == old(totalPages)
      ensures error == old(error) && loading == old(loading)
    {
      appliedFilters := appliedFilters[filterType := value];
      searchQuery := "";
      currentPage := 1;
    }

    /** handleRemoveFilter: the rest of the filters after destructuring one
        key out. */
    method HandleRemoveFilter(filterType: string)
      modifies this
      ensures appliedFilters == old(appliedFilters) - {filterType}
      ensures searchQuery == "" && currentPage == 1
      ensures jobs == old(jobs) && filterOptions == old(filterOptions) && totalPages == old(totalPages)
      ensures error == old(error) && loading == old(loading)
    {
      appliedFilters := appliedFilters - {filterType};
      searchQuery := "";
      currentPage := 1;
    }

    method ResetFilters()
      modifies this
      ensures appliedFilters == map[] && searchQuery == "" && currentPage == 1
      ensures jobs == old(jobs) && filterOptions == old(filterOptions) && totalPages == old(totalPages)
      ensures error == old(error) && loading == old(loading)
    {
      appliedFilters := map[];
      searchQuery := "";
      currentPage := 1;
    }

    /** handleSearchChange: a new query starts from the first page; the
        filters stay. */
    method HandleSearchChange(value: string)
      modifies this
      ensures searchQuery == value && currentPage == 1
      ensures appliedFilters == old(appliedFilters)
      ensures jobs == old(jobs) && filterOptions == old(filterOptions) && totalPages == old(totalPages)
      ensures error == old(error) && loading == old(loading)
    {
      searchQuery := value;
      currentPage := 1;
    }

    /** handleSearchSubmit: back to the first page, and a direct call of the
        current render's fetchData, whose request still carries the page from
        before the reset. */
    method HandleSearchSubmit() returns (params: map<string, Value>)
      modifies this
      ensures params == RequestParams(old(searchQuery), old(currentPage), old(appliedFilters))
      ensures currentPage == 1 && loading
      ensures searchQuery == old(searchQuery) && appliedFilters == old(appliedFilters)
      ensures jobs == old(jobs) && filterOptions == old(filterOptions) && totalPages == old(totalPages)
      ensures error == old(error)
    {
      params := FetchStarted();
      currentPage := 1;
    }

    /** handlePageChange: the page is set to exactly `page`; the query and the
        filters of the next request stay. */
    method HandlePageChange(page: int)
      modifies this
      ensures currentPage == page
      ensures searchQuery == old(searchQuery) && appliedFilters == old(appliedFilters)
      ensures jobs == old(jobs) && filterOptions == old(filterOptions) && totalPages == old(totalPages)
      ensures error == old(error) && loading == old(loading)
    {
      currentPage := page;
    }

    predicate PreviousDisabled()
      reads this
    {
      currentPage == 1
    }

    predicate NextDisabled()
      reads this
    {
      currentPage == totalPages
    }

    predicate PageInRange()
      reads this
    {
      1 <= currentPage <= totalPages
    }

    /** The Previous button, enabled only off the first page, keeps an
        in-range page in range. */
    method ClickPrevious()
      requires !PreviousDisabled()
      modifies this
      ensures currentPage == old(currentPage) - 1
      ensures totalPages == old(totalPages)
      ensures old(PageInRange()) ==> PageInRange()
      ensures searchQuery == old(searchQuery) && appliedFilters == old(appliedFilters)
      ensures jobs == old(jobs) && filterOptions == old(filterOptions)
      ensures error == old(error) && loading == old(loading)
    {
      HandlePageChange(currentPage - 1);
    }

    /** The Next button, enabled only off the last page, keeps an in-range page
        in range. */
    method ClickNext()
      requires !NextDisabled()
      modifies this
      ensures currentPage == old(currentPage) + 1
      ensures totalPages == old(totalPages)
      ensures old(PageInRange()) ==> PageInRange()
      ensures searchQuery == old(searchQuery) && appliedFilters == old(appliedFilters)
      ensures jobs == old(jobs) && filterOptions == old(filterOptions)
      ensures error == old(error) && loading == old(loading)
    {
      HandlePageChange(currentPage + 1);
    }
  }

  /** Changing the page changes only the page parameter of the next request. */
  lemma PageChangeKeepsRequest(keyword: string, filters: map<string, string>, page: int, page': int)
    requires "page" !in filters
    ensures RequestParams(keyword, page', filters) == RequestParams(keyword, page, filters)["page" := Num(page')]
  {
    var a := RequestParams(keyword, page', filters);
    var b := RequestParams(keyword, page, filters)["page" := Num(page')];
    assert a.Keys == b.Keys;
    forall k | k in a
      ensures a[k] == b[k]
    {
    }
  }
}
