/** The `usePagination` hook: the guards of next / previous / jump-to-page
    navigation and the query string each navigation pushes to the router. */
module Pagination {
  import opened Wrappers
  import opened Text
  import opened QueryParams
  import opened Notices

  /** `data.pagination` as the listing page hands it over, already computed. */
  datatype PageInfo = PageInfo(
    currentPage: int,
    hasNextPage: bool,
    hasPrevPage: bool,
    nextCursor: Option<string>,
    prevCursor: Option<string>,
    totalCount: int,
    totalPages: int)

  datatype Direction = Next | Prev | Specific

  /** The arguments of one `navigateToPage(direction, cursor, pageNumber)` call. */
  datatype Navigation = Navigation(direction: Direction, cursor: Option<string>, pageNumber: Option<int>)

  /** A location: its path and its query string. */
  datatype Url = Url(path: string, query: Query)

  const PageKey: string := "page"
  const CursorKey: string := "cursor"
  /** The only query keys navigation ever writes. */
  const Managed: set<string> := {PageKey, CursorKey}

  const NavigationFailed: string := "Failed to load page"

  /** JavaScript truthiness of an optional string: `null`, `undefined` and "" are false. */
  predicate Present(s: Option<string>) {
    s.Some? && s.value != ""
  }

  /** JavaScript truthiness of an optional number: `undefined` and 0 are false. */
  predicate NonZero(n: Option<int>) {
    n.Some? && n.value != 0
  }

  function Max(a: int, b: int): int {
    if a < b then b else a
  }

  // ---------------------------------------------------------------------------
  // Guards: goToNextPage, goToPrevPage, goToPage
  // ---------------------------------------------------------------------------

  /** The page a navigation writes into `page`, or None when it writes nothing. */
  function Target(nav: Navigation, currentPage: int): Option<int> {
    match nav.direction
    case Next => if Present(nav.cursor) then Some(currentPage + 1) else None
    case Prev => Some(Max(1, currentPage - 1))
    case Specific => if NonZero(nav.pageNumber) then Some(nav.pageNumber.value) else None
  }

  /** `goToNextPage`: navigates only when there is a next page, passing the
      next cursor on only when it is truthy (`nextCursor || undefined`). */
  function NextPageCall(p: PageInfo): (r: Option<Navigation>)
    ensures r.Some? <==> p.hasNextPage
    ensures r.Some? ==> r.value.direction == Next
    ensures r.Some? && Present(p.nextCursor) ==>
              r.value.cursor == p.nextCursor && Target(r.value, p.currentPage) == Some(p.currentPage + 1)
    ensures r.Some? && !Present(p.nextCursor) ==> Target(r.value, p.currentPage) == None
  {
    if p.hasNextPage then
      Some(Navigation(Next, if Present(p.nextCursor) then p.nextCursor else None, None))
    else None
  }

  /** `goToPrevPage`: navigates only when there is a previous page, and then
      always to a page of at least 1. */
  function PrevPageCall(p: PageInfo): (r: Option<Navigation>)
    ensures r.Some? <==> p.hasPrevPage
    ensures r.Some? ==> r.value.direction == Prev
    ensures r.Some? ==> var t := Target(r.value, p.currentPage);
              t.Some? && t.value >= 1 && (p.currentPage >= 2 ==> t.value == p.currentPage - 1)
  {
    if p.hasPrevPage then Some(Navigation(Prev, None, None)) else None
  }

  /** `goToPage(n)`: navigates exactly when 1 <= n <= totalPages, and then to n. */
  function GoToPageCall(p: PageInfo, n: int): (r: Option<Navigation>)
    ensures r.Some? <==> 1 <= n <= p.totalPages
    ensures r.Some? ==> r.value.direction == Specific && Target(r.value, p.currentPage) == Some(n)
  {
    if 1 <= n && n <= p.totalPages then Some(Navigation(Specific, None, Some(n))) else None
  }

  // ---------------------------------------------------------------------------
  // navigateToPage: the query string pushed
  // ---------------------------------------------------------------------------

  /** The query `navigateToPage` builds from the current one. */
  function NavigationQuery(nav: Navigation, currentPage: int, q: Query): Query {
    match nav.direction
    case Next =>
      if Present(nav.cursor) then Set(Set(q, CursorKey, nav.cursor.value), PageKey, IntToString(currentPage + 1))
      else q
    case Prev =>
      Delete(Set(q, PageKey, IntToString(Max(1, currentPage - 1))), CursorKey)
    case Specific =>
      if NonZero(nav.pageNumber) then Delete(Set(q, PageKey, IntToString(nav.pageNumber.value)), CursorKey)
      else q
  }

  /** What a navigation does to the query: the pairs under any key other than
      `page` and `cursor` stay as they were, in order; a navigation without a
      target leaves the query unchanged; otherwise `page` holds exactly one
      value, which reads back as the target page, and `cursor` holds the
      given cursor when moving forward and is gone otherwise. */
  lemma NavigationQueryEffect(nav: Navigation, currentPage: int, q: Query)
    ensures Others(NavigationQuery(nav, currentPage, q), Managed) == Others(q, Managed)
    ensures Target(nav, currentPage).None? ==> NavigationQuery(nav, currentPage, q) == q
    ensures Target(nav, currentPage).Some? ==>
              var r := NavigationQuery(nav, currentPage, q);
              var t := Target(nav, currentPage).value;
              && Only(r, PageKey) == [Param(PageKey, IntToString(t))]
              && Get(r, PageKey) == Some(IntToString(t))
              && ParseInt(Get(r, PageKey).value) == Some(t)
              && Get(r, CursorKey) == (if nav.direction == Next then nav.cursor else None)
  {
    var t := Target(nav, currentPage);
    if t.Some? {
      IntToStringRoundTrip(t.value);
      var page := IntToString(t.value);
      if nav.direction == Next {
        var c := nav.cursor.value;
        var q1 := Set(q, CursorKey, c);
        SetKeepsOthers(q, CursorKey, c, Managed);
        SetKeepsOthers(q1, PageKey, page, Managed);
        SetLeavesOnePair(q1, PageKey, page);
        SetLeavesOnePair(q, CursorKey, c);
        GetOthers(Set(q1, PageKey, page), {PageKey}, CursorKey);
        GetOthers(q1, {PageKey}, CursorKey);
        SetKeepsOthers(q1, PageKey, page, {PageKey});
      } else {
        var q1 := Set(q, PageKey, page);
        SetKeepsOthers(q, PageKey, page, Managed);
        DeleteKeepsOthers(q1, CursorKey, Managed);
        SetLeavesOnePair(q, PageKey, page);
        DeleteRemovesKey(q1, CursorKey);
        GetOthers(Delete(q1, CursorKey), {CursorKey}, PageKey);
        GetOthers(q1, {CursorKey}, PageKey);
        DeleteKeepsOthers(q1, CursorKey, {CursorKey});
        OnlyOfDeleteOther(q1, CursorKey, PageKey);
      }
    }
  }

  /** Where a successful `router.push` of `${basePath}?${query}` leads. */
  function Resolve(basePath: string, current: Url, q: Query): Url {
    Url(if basePath == "" then current.path else basePath, q)
  }

  // ---------------------------------------------------------------------------
  // The hook's state
  // ---------------------------------------------------------------------------

  class PaginationHook<T> {
    var items: seq<T>
    var pagination: PageInfo
    var loading: bool
    /** `window.location`, which the router changes on a successful push. */
    var location: Url
    var toasts: seq<Toast>
    const basePath: string
    /** Every value handed to `setLoading`, oldest first. */
    ghost var loadingTrace: seq<bool>

    /** The hook's first render: `data` starts as `initialData`, not loading. */
    constructor(initialItems: seq<T>, initialPagination: PageInfo, base: string, url: Url)
      ensures items == initialItems && pagination == initialPagination
      ensures basePath == base && location == url
      ensures !loading && toasts == [] && loadingTrace == []
    {
      items, pagination := initialItems, initialPagination;
      basePath, location := base, url;
      loading, toasts := false, [];
      loadingTrace := [];
    }

    /** `navigateToPage`: raises `loading`, builds the new query from the
        current one, pushes it, and lowers `loading` whatever the push did.
        `pushSucceeds` is the outcome of `router.push`; a failure only raises
        an error toast. The pagination record itself is not touched. */
    method NavigateToPage(nav: Navigation, pushSucceeds: bool) returns (pushed: Url)
      modifies this
      ensures pushed == Resolve(basePath, old(location), NavigationQuery(nav, old(pagination).currentPage, old(location).query))
      ensures location == if pushSucceeds then pushed else old(location)
      ensures toasts == old(toasts) + if pushSucceeds then [] else [Toast(Failure, NavigationFailed)]
      ensures !loading && loadingTrace == old(loadingTrace) + [true, false]
      ensures items == old(items) && pagination == old(pagination)
    {
      loading := true;
      loadingTrace := loadingTrace + [true];

      var q := location.query;
      match nav.direction {
        case Next =>
          if Present(nav.cursor) {
            q := Set(q, CursorKey, nav.cursor.value);
            q := Set(q, PageKey, IntToString(pagination.currentPage + 1));
          }
        case Prev =>
          q := Set(q, PageKey, IntToString(Max(1, pagination.currentPage - 1)));
          q := Delete(q, CursorKey);
        case Specific =>
          if NonZero(nav.pageNumber) {
            q := Set(q, PageKey, IntToString(nav.pageNumber.value));
            q := Delete(q, CursorKey);
          }
      }

      pushed := Resolve(basePath, location, q);
      if pushSucceeds {
        location := pushed;
      } else {
        toasts := toasts + [Toast(Failure, NavigationFailed)];
      }

      loading := false;
      loadingTrace := loadingTrace + [false];
    }

    /** Runs the navigation a guard allows; with none, nothing changes. */
    method Navigate(call: Option<Navigation>, pushSucceeds: bool) returns (navigated: bool)
      modifies this
      ensures navigated == call.Some?
      ensures !navigated ==> unchanged(this)
      ensures navigated ==>
                && location == (if pushSucceeds
                                then Resolve(basePath, old(location), NavigationQuery(call.value, old(pagination).currentPage, old(location).query))
                                else old(location))
                && !loading && loadingTrace == old(loadingTrace) + [true, false]
                && toasts == old(toasts) + (if pushSucceeds then [] else [Toast(Failure, NavigationFailed)])
                && items == old(items) && pagination == old(pagination)
    {
      navigated := call.Some?;
      if navigated {
        var _ := NavigateToPage(call.value, pushSucceeds);
      }
    }

    /** `goToNextPage`: acts only when `hasNextPage`. */
    method GoToNextPage(pushSucceeds: bool) returns (navigated: bool)
      modifies this
      ensures navigated == old(pagination).hasNextPage
      ensures !navigated ==> unchanged(this)
      ensures navigated ==>
                && location == (if pushSucceeds
                                then Resolve(basePath, old(location), NavigationQuery(NextPageCall(old(pagination)).value, old(pagination).currentPage, old(location).query))
                                else old(location))
                && !loading && loadingTrace == old(loadingTrace) + [true, false]
                && toasts == old(toasts) + (if pushSucceeds then [] else [Toast(Failure, NavigationFailed)])
                && items == old(items)
      ensures pagination == old(pagination)
    {
      navigated := Navigate(NextPageCall(pagination), pushSucceeds);
    }

    /** `goToPrevPage`: acts only when `hasPrevPage`. */
    method GoToPrevPage(pushSucceeds: bool) returns (navigated: bool)
      modifies this
      ensures navigated == old(pagination).hasPrevPage
      ensures !navigated ==> unchanged(this)
      ensures navigated ==>
                && location == (if pushSucceeds
                                then Resolve(basePath, old(location), NavigationQuery(PrevPageCall(old(pagination)).value, old(pagination).currentPage, old(location).query))
                                else old(location))
                && !loading && loadingTrace == old(loadingTrace) + [true, false]
                && toasts == old(toasts) + (if pushSucceeds then [] else [Toast(Failure, NavigationFailed)])
                && items == old(items)
      ensures pagination == old(pagination)
    {
      navigated := Navigate(PrevPageCall(pagination), pushSucceeds);
    }

    /** `goToPage(n)`: acts only when 1 <= n <= totalPages. */
    method GoToPage(n: int, pushSucceeds: bool) returns (navigated: bool)
      modifies this
      ensures navigated <==> 1 <= n <= old(pagination).totalPages
      ensures !navigated ==> unchanged(this)
      ensures navigated ==>
                && location == (if pushSucceeds
                                then Resolve(basePath, old(location), NavigationQuery(GoToPageCall(old(pagination), n).value, old(pagination).currentPage, old(location).query))
                                else old(location))
                && !loading && loadingTrace == old(loadingTrace) + [true, false]
                && toasts == old(toasts) + (if pushSucceeds then [] else [Toast(Failure, NavigationFailed)])
                && items == old(items)
      ensures pagination == old(pagination)
    {
      navigated := Navigate(GoToPageCall(pagination, n), pushSucceeds);
    }

    /** `setData`, which the hook hands back to the page. */
    method SetData(newItems: seq<T>, newPagination: PageInfo)
      modifies this
      ensures items == newItems && pagination == newPagination
      ensures loading == old(loading) && location == old(location) && toasts == old(toasts)
      ensures loadingTrace == old(loadingTrace)
    {
      items, pagination := newItems, newPagination;
    }
  }

  /** A jump through `goToPage(n)` writes `page=n`, drops `cursor` and keeps
      every other query parameter. */
  lemma GoToPageQuery(p: PageInfo, n: int, q: Query)
    requires 1 <= n <= p.totalPages
    ensures var r := NavigationQuery(GoToPageCall(p, n).value, p.currentPage, q);
            && Get(r, PageKey).Some? && ParseInt(Get(r, PageKey).value) == Some(n)
            && Get(r, CursorKey) == None
            && Others(r, Managed) == Others(q, Managed)
  {
    NavigationQueryEffect(GoToPageCall(p, n).value, p.currentPage, q);
  }

  /** `goToPrevPage` writes a page of at least 1 and drops `cursor`. */
  lemma PrevPageQuery(p: PageInfo, q: Query)
    requires p.hasPrevPage
    ensures var r := NavigationQuery(PrevPageCall(p).value, p.currentPage, q);
            && Get(r, PageKey).Some? && ParseInt(Get(r, PageKey).value) == Some(Max(1, p.currentPage - 1))
            && Get(r, CursorKey) == None
            && Others(r, Managed) == Others(q, Managed)
  {
    NavigationQueryEffect(PrevPageCall(p).value, p.currentPage, q);
  }

  /** `goToNextPage` with a cursor writes `page=currentPage+1` and that
      cursor; without one it pushes the query unchanged. */
  lemma NextPageQuery(p: PageInfo, q: Query)
    requires p.hasNextPage
    ensures var r := NavigationQuery(NextPageCall(p).value, p.currentPage, q);
            && (Present(p.nextCursor) ==>
                  && Get(r, PageKey).Some? && ParseInt(Get(r, PageKey).value) == Some(p.currentPage + 1)
                  && Get(r, CursorKey) == p.nextCursor
                  && Others(r, Managed) == Others(q, Managed))
            && (!Present(p.nextCursor) ==> r == q)
  {
    if Present(p.nextCursor) {
      var nav := Navigation(Next, p.nextCursor, None);
      assert NextPageCall(p).value == nav;
      NavigationQueryEffect(nav, p.currentPage, q);
    } else {
      assert NextPageCall(p).value == Navigation(Next, None, None);
    }
  }
}
