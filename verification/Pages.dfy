/** Page arithmetic: which part of a result a request selects, and how the pages cover the result. */
module Pages {
  import opened Wrappers
  import opened Php
  import opened OrderedMap
  import opened Filters

  datatype Settings = Settings(
    serverEnabled: bool, clientEnabled: bool, itemsPerPage: Option<int>, maximumItemsPerPage: int,
    clientItemsPerPage: bool, itemsPerPageName: string, enabledName: string, pageName: string)

  /** `(int)$value`; a non-empty array counts as 1. */
  function IntOf(v: ParamValue): int {
    match v
    case Scalar(s) => IntCast(s)
    case Assoc(entries) => if entries == [] then 0 else 1
  }

  /** `(bool)$value` */
  predicate BoolOf(v: ParamValue) {
    match v
    case Scalar(s) => BoolCast(s)
    case Assoc(entries) => entries != []
  }

  predicate IsEnabled(s: Settings, params: QueryParams) {
    if s.clientEnabled && Has(params, s.enabledName)
    then BoolOf(Lookup(params, s.enabledName).value)
    else s.serverEnabled
  }

  function ClientItemsPerPage(s: Settings, params: QueryParams): Option<int> {
    if s.clientItemsPerPage && Has(params, s.itemsPerPageName)
    then Some(IntOf(Lookup(params, s.itemsPerPageName).value))
    else None
  }

  function NonZero(n: Option<int>): seq<int> {
    if n == None || n == Some(0) then [] else [n.value]
  }

  /** `min(array_filter([$maximum, $client ?? $configured]))`; the minimum of nothing throws. */
  function ItemsPerPage(s: Settings, params: QueryParams): (r: Result<int>)
    ensures r.Success? ==> r.value != 0
  {
    var client := ClientItemsPerPage(s, params);
    var sizes := NonZero(Some(s.maximumItemsPerPage)) + NonZero(if client.Some? then client else s.itemsPerPage);
    if sizes == [] then Failure("min(): Argument #1 must contain at least one element")
    else if |sizes| == 1 || sizes[0] <= sizes[1] then Success(sizes[0])
    else Success(sizes[1])
  }

  function Page(s: Settings, params: QueryParams): int {
    if Has(params, s.pageName) then IntOf(Lookup(params, s.pageName).value) else 1
  }

  /** The page size asked for: by the client where allowed, else by configuration; none or 0 asks for nothing. */
  function AskedItemsPerPage(s: Settings, params: QueryParams): int {
    var client := ClientItemsPerPage(s, params);
    (if client.Some? then client else s.itemsPerPage).GetOr(0)
  }

  /** A configured maximum always bounds the page size, which is usable unless a negative size is asked for. */
  lemma {:induction false} MaximumBoundsPageSize(s: Settings, params: QueryParams)
    requires s.maximumItemsPerPage >= 1
    ensures ItemsPerPage(s, params).Success? && ItemsPerPage(s, params).value <= s.maximumItemsPerPage
    ensures ItemsPerPage(s, params).value >= 1 <==> AskedItemsPerPage(s, params) >= 0
    ensures 1 <= AskedItemsPerPage(s, params) <= s.maximumItemsPerPage ==>
              ItemsPerPage(s, params).value == AskedItemsPerPage(s, params)
  {
  }

  // ---------------------------------------------------------------- slices

  function Min(a: int, b: int): int {
    if a <= b then a else b
  }

  /** LIMIT limit OFFSET offset */
  function Slice<T>(rows: seq<T>, offset: nat, limit: nat): seq<T> {
    rows[Min(offset, |rows|)..Min(offset + limit, |rows|)]
  }

  /** The members of a page of size m, counted from 1. */
  function PageSlice<T>(rows: seq<T>, page: int, m: nat): seq<T>
    requires page >= 1
  {
    Slice(rows, (page - 1) * m, m)
  }

  /** `ceil($n / $m)` for a divisor other than 0. */
  function CeilDiv(n: nat, m: int): int
    requires m != 0
  {
    if m > 0 then (n + m - 1) / m else 0 - n / (0 - m)
  }

  lemma {:induction false} LastPageBounds(n: nat, m: int)
    requires m >= 1
    ensures var last := CeilDiv(n, m); last >= 0 && n <= last * m && (n >= 1 ==> last >= 1 && (last - 1) * m < n)
    ensures n == 0 ==> CeilDiv(n, m) == 0
  {
    var last := CeilDiv(n, m);
    var r := (n + m - 1) % m;
    assert n + m - 1 == m * last + r;
    assert m * last == last * m;
    assert (last - 1) * m == last * m - m;
    if n >= 1 && last < 1 {
      MulMonotone(last, 0, m);
    }
  }

  /** The members of the first k pages, one after another. */
  function Concatenated<T>(rows: seq<T>, m: nat, k: nat): seq<T> {
    if k == 0 then [] else Concatenated(rows, m, k - 1) + PageSlice(rows, k, m)
  }

  lemma {:induction false} PagesCover<T>(rows: seq<T>, m: nat, k: nat)
    ensures k * m >= 0
    ensures Concatenated(rows, m, k) == rows[..Min(k * m, |rows|)]
  {
    if k > 0 {
      PagesCover(rows, m, k - 1);
      assert (k - 1) * m + m == k * m;
      assert (k - 1) * m >= 0;
    }
  }

  /** Where a page starts and ends, next to the number of rows. */
  lemma {:induction false} PageBounds(n: nat, m: int, page: int)
    requires m >= 1 && page >= 1
    ensures (page - 1) * m >= 0 && page * m == (page - 1) * m + m
    ensures page < CeilDiv(n, m) ==> page * m <= n
    ensures page == CeilDiv(n, m) ==> (page - 1) * m < n <= page * m
    ensures page > CeilDiv(n, m) ==> n <= (page - 1) * m
  {
    var last := CeilDiv(n, m);
    LastPageBounds(n, m);
    MulMonotone(0, page - 1, m);
    if page < last {
      MulMonotone(page, last - 1, m);
    } else if page > last {
      MulMonotone(last, page - 1, m);
    }
  }

  lemma {:induction false} SliceLength<T>(rows: seq<T>, offset: nat, limit: nat)
    ensures |Slice(rows, offset, limit)| ==
            if |rows| <= offset then 0 else if offset + limit <= |rows| then limit else |rows| - offset
  {
  }

  /**
   The pages 1 to last partition the result: their members concatenate to it, every page but the
   last is full, the last is not empty, and later pages are empty.
   */
  lemma {:induction false} PagesPartition<T>(rows: seq<T>, m: int, page: int)
    requires m >= 1 && page >= 1
    ensures var last := CeilDiv(|rows|, m);
      && last >= 0
      && Concatenated(rows, m, last) == rows
      && (page < last ==> |PageSlice(rows, page, m)| == m)
      && (page == last ==> 1 <= |PageSlice(rows, page, m)| <= m)
      && (page > last ==> PageSlice(rows, page, m) == [])
  {
    LastPageBounds(|rows|, m);
    PagesCover(rows, m, CeilDiv(|rows|, m));
    PageBounds(|rows|, m, page);
    SliceLength(rows, (page - 1) * m, m);
  }

  lemma {:induction false} MulMonotone(a: int, b: int, m: int)
    requires a <= b && m >= 0
    ensures a * m <= b * m
  {
    assert (b - a) * m >= 0;
    assert b * m == a * m + (b - a) * m;
  }

  // ---------------------------------------------------------------- what a request selects

  /** The members that a request selects. A limit below 1 or an offset below 0 is refused by the query. */
  function Members<T>(s: Settings, params: QueryParams, rows: seq<T>): Result<seq<T>> {
    if !IsEnabled(s, params) then Success(rows)
    else
      var m :- ItemsPerPage(s, params);
      if m < 1 then Failure("The limit must be an integer >= 1")
      else if (Page(s, params) - 1) * m < 0 then Failure("The offset must be a positive integer")
      else Success(Slice(rows, (Page(s, params) - 1) * m, m))
  }

  // ---------------------------------------------------------------- links

  /** A path with a query. */
  datatype Link = Link(path: string, params: QueryParams)

  datatype View = View(first: Link, last: Link, prev: Option<Link>, next: Option<Link>, pages: seq<Link>, page: int)

  /** `range($from, $to)`, which counts down when $to is smaller. */
  function Range(from: int, to: int): (r: seq<int>)
    ensures |r| == (if from <= to then to - from else from - to) + 1
    ensures forall i :: 0 <= i < |r| ==> r[i] == if from <= to then from + i else from - i
  {
    if from <= to then seq(to - from + 1, i => from + i) else seq(from - to + 1, i => from - i)
  }

  /** The current query with the page replaced. */
  function PageParams(s: Settings, params: QueryParams, page: int): QueryParams {
    Put(params, s.pageName, Scalar(Decimal(page)))
  }

  function PageLink(s: Settings, path: string, params: QueryParams, page: int): Link {
    Link(path, PageParams(s, params, page))
  }

  function PageLinks(s: Settings, path: string, params: QueryParams, pages: seq<int>): seq<Link> {
    seq(|pages|, i requires 0 <= i < |pages| => PageLink(s, path, params, pages[i]))
  }

  /**
   The view for a result of n rows, or nothing when pagination is disabled. Page and page size are those of
   the parameters that the pagination holds; the links keep the parameters of the request.
   */
  function ViewWith(s: Settings, path: string, held: QueryParams, request: QueryParams, n: nat): Result<Option<View>> {
    if !IsEnabled(s, held) then Success(None)
    else
      var m :- ItemsPerPage(s, held);
      var last, page := CeilDiv(n, m), Page(s, held);
      Success(Some(View(
        PageLink(s, path, request, 1),
        PageLink(s, path, request, last),
        if page > 1 then Some(PageLink(s, path, request, page - 1)) else None,
        if page < last then Some(PageLink(s, path, request, page + 1)) else None,
        PageLinks(s, path, request, Range(1, last)),
        page)))
  }

  /** The view of a request that the pagination holds. */
  function ViewOf(s: Settings, path: string, params: QueryParams, n: nat): Result<Option<View>> {
    ViewWith(s, path, params, params, n)
  }

  /** Two requests that are paginated alike for a result of n rows: the same page, and the same last page. */
  predicate PaginatedAlike(s: Settings, a: QueryParams, b: QueryParams, n: nat) {
    && (IsEnabled(s, a) <==> IsEnabled(s, b))
    && (IsEnabled(s, a) ==>
          && (ItemsPerPage(s, a).Success? <==> ItemsPerPage(s, b).Success?)
          && (ItemsPerPage(s, a).Success? ==>
                && CeilDiv(n, ItemsPerPage(s, a).value) == CeilDiv(n, ItemsPerPage(s, b).value)
                && Page(s, a) == Page(s, b)))
  }

  lemma {:induction false} SizeFailure(s: Settings, params: QueryParams)
    ensures ItemsPerPage(s, params).Failure? ==>
      ItemsPerPage(s, params) == Failure("min(): Argument #1 must contain at least one element")
  {
  }

  /** Links to different pages differ. */
  lemma {:induction false} LinkNamesPage(s: Settings, path: string, params: QueryParams, page: int, page': int)
    ensures PageLink(s, path, params, page) == PageLink(s, path, params, page') ==> page == page'
  {
    PutLookup(params, s.pageName, Scalar(Decimal(page)), s.pageName);
    PutLookup(params, s.pageName, Scalar(Decimal(page')), s.pageName);
    hide Put, Decimal, IntCast;
    IntCastDecimal(page);
    IntCastDecimal(page');
  }

  /** The view is that of the request exactly when the held parameters paginate alike. */
  lemma {:induction false} ViewAgrees(s: Settings, path: string, held: QueryParams, request: QueryParams, n: nat)
    ensures ViewWith(s, path, held, request, n) == ViewOf(s, path, request, n) <==> PaginatedAlike(s, held, request, n)
  {
    hide IsEnabled, ItemsPerPage, Page, CeilDiv, PageLink, PageLinks, Range;
    var m, m' := ItemsPerPage(s, held), ItemsPerPage(s, request);
    SizeFailure(s, held);
    SizeFailure(s, request);
    if IsEnabled(s, held) && IsEnabled(s, request) && m.Success? && m'.Success? {
      LinkNamesPage(s, path, request, CeilDiv(n, m.value), CeilDiv(n, m'.value));
      var view, view' := ViewWith(s, path, held, request, n).value.value, ViewOf(s, path, request, n).value.value;
      assert view.page == Page(s, held) && view'.page == Page(s, request);
      assert view.last == PageLink(s, path, request, CeilDiv(n, m.value));
      assert view'.last == PageLink(s, path, request, CeilDiv(n, m'.value));
    }
  }

  /** The settings the extension ships. */
  const DEFAULT_SETTINGS :=
    Settings(true, false, Some(30), 9999999, false, "itemsPerPage", "pagination", "page")

  const SECOND_PAGE: QueryParams := [("page", Scalar("2"))]

  lemma {:induction false} SecondPage()
    ensures Page(DEFAULT_SETTINGS, SECOND_PAGE) == 2 && Page(DEFAULT_SETTINGS, []) == 1
  {
    LookupAt(SECOND_PAGE, 0);
    IntCastDecimal(2);
    assert Decimal(2) == "2";
  }

  /** For `page=2`, getView before getMembers gives the view of page 1, whatever the result. */
  lemma {:induction false} ViewBeforeMembers(path: string, n: nat)
    ensures ViewWith(DEFAULT_SETTINGS, path, [], SECOND_PAGE, n) != ViewOf(DEFAULT_SETTINGS, path, SECOND_PAGE, n)
  {
    SecondPage();
    ViewAgrees(DEFAULT_SETTINGS, path, [], SECOND_PAGE, n);
  }

  // ---------------------------------------------------------------- following links

  /** The page parameter is not one of the parameters that decide whether and how to paginate. */
  predicate SeparateNames(s: Settings) {
    s.pageName != s.enabledName && s.pageName != s.itemsPerPageName
  }

  /** A request that is paginated with a usable page size. */
  predicate Paginated(s: Settings, params: QueryParams) {
    SeparateNames(s) && IsEnabled(s, params) && ItemsPerPage(s, params).Success? && ItemsPerPage(s, params).value >= 1
  }

  function PageSize(s: Settings, params: QueryParams): nat
    requires Paginated(s, params)
  {
    ItemsPerPage(s, params).value
  }

  function LastPage(s: Settings, params: QueryParams, n: nat): int
    requires Paginated(s, params)
  {
    CeilDiv(n, PageSize(s, params))
  }

  /** Following a page link changes the page and nothing else. */
  lemma {:induction false} PageParamsMeaning(s: Settings, params: QueryParams, page: int)
    requires Paginated(s, params)
    ensures var q := PageParams(s, params, page);
      && Page(s, q) == page
      && Paginated(s, q) && PageSize(s, q) == PageSize(s, params)
      && (forall name :: name != s.pageName ==> Lookup(q, name) == Lookup(params, name))
  {
    var q := PageParams(s, params, page);
    forall name
      ensures Lookup(q, name) == if name == s.pageName then Some(Scalar(Decimal(page))) else Lookup(params, name)
    {
      PutLookup(params, s.pageName, Scalar(Decimal(page)), name);
    }
    assert Has(q, s.enabledName) <==> Lookup(params, s.enabledName).Some?;
    assert Has(q, s.itemsPerPageName) <==> Lookup(params, s.itemsPerPageName).Some?;
    assert Has(q, s.pageName) <==> Lookup(q, s.pageName).Some?;
    IntCastDecimal(page);
  }

  function NextParams(s: Settings, path: string, params: QueryParams, n: nat): Option<QueryParams>
    requires Paginated(s, params)
  {
    match ViewOf(s, path, params, n).value.value.next
    case Some(link) => Some(link.params)
    case None => None
  }

  /** The requests made by following next links from a request, itself first. */
  function Visits(s: Settings, path: string, params: QueryParams, n: nat): seq<QueryParams>
    requires Paginated(s, params)
    decreases LastPage(s, params, n) - Page(s, params)
  {
    PageParamsMeaning(s, params, Page(s, params) + 1);
    match NextParams(s, path, params, n)
    case Some(next) => [params] + Visits(s, path, next, n)
    case None => [params]
  }

  lemma {:induction false} VisitsStep(s: Settings, path: string, params: QueryParams, n: nat)
    requires Paginated(s, params)
    ensures var next := PageParams(s, params, Page(s, params) + 1);
      && Paginated(s, next) && LastPage(s, next, n) == LastPage(s, params, n) && Page(s, next) == Page(s, params) + 1
      && Visits(s, path, params, n) ==
         if Page(s, params) < LastPage(s, params, n) then [params] + Visits(s, path, next, n) else [params]
  {
    PageParamsMeaning(s, params, Page(s, params) + 1);
  }

  lemma {:induction false} SamePageLinks(s: Settings, params: QueryParams, page: int, page': int)
    ensures PageParams(s, PageParams(s, params, page), page') == PageParams(s, params, page')
  {
    PutTwice(params, s.pageName, Scalar(Decimal(page)), Scalar(Decimal(page')));
  }

  /** The i-th request of a walk is the first one with the page moved on by i, up to the last page. */
  lemma {:induction false} VisitsPages(s: Settings, path: string, params: QueryParams, n: nat)
    requires Paginated(s, params)
    ensures var walk, page, last := Visits(s, path, params, n), Page(s, params), LastPage(s, params, n);
      && |walk| == (if page < last then last - page else 0) + 1
      && walk[0] == params
      && forall i :: 1 <= i < |walk| ==> walk[i] == PageParams(s, params, page + i)
    decreases LastPage(s, params, n) - Page(s, params)
  {
    hide PageParams, ViewOf, ItemsPerPage, IsEnabled, Page, CeilDiv;
    var page := Page(s, params);
    VisitsStep(s, path, params, n);
    if page < LastPage(s, params, n) {
      var next := PageParams(s, params, page + 1);
      var tail := Visits(s, path, next, n);
      VisitsPages(s, path, next, n);
      forall i | 1 <= i < |tail|
        ensures tail[i] == PageParams(s, params, page + 1 + i)
      {
        SamePageLinks(s, params, page + 1, page + 1 + i);
      }
    }
  }

  /** The members collected by a list of requests. */
  function Collected<T>(s: Settings, walk: seq<QueryParams>, rows: seq<T>): Result<seq<T>> {
    if walk == [] then Success([])
    else
      var front :- Collected(s, walk[..|walk| - 1], rows);
      var last :- Members(s, walk[|walk| - 1], rows);
      Success(front + last)
  }

  lemma {:induction false} MembersOfPage<T>(s: Settings, params: QueryParams, rows: seq<T>)
    requires Paginated(s, params) && Page(s, params) >= 1
    ensures Members(s, params, rows) == Success(PageSlice(rows, Page(s, params), PageSize(s, params)))
  {
    MulMonotone(0, Page(s, params) - 1, PageSize(s, params));
  }

  lemma {:induction false} CollectedPages<T>(s: Settings, path: string, params: QueryParams, rows: seq<T>,
                                             walk: seq<QueryParams>)
    requires Paginated(s, params) && Page(s, params) == 1
    requires walk <= Visits(s, path, params, |rows|)
    ensures Collected(s, walk, rows) == Success(Concatenated(rows, PageSize(s, params), |walk|))
  {
    if walk != [] {
      var i := |walk| - 1;
      CollectedPages(s, path, params, rows, walk[..i]);
      VisitsPages(s, path, params, |rows|);
      PageParamsMeaning(s, params, 1 + i);
      MembersOfPage(s, walk[i], rows);
    }
  }

  /**
   Starting at page 1 and following hydra:next visits the pages 1, 2, ..., last once each (page 1
   alone for an empty result), keeps all other parameters, and collects the whole result.
   */
  lemma {:induction false} FollowingNextCollectsAll<T>(s: Settings, path: string, params: QueryParams, rows: seq<T>)
    requires Paginated(s, params) && Page(s, params) == 1
    ensures var walk := Visits(s, path, params, |rows|);
      && |walk| == (if rows == [] then 1 else LastPage(s, params, |rows|))
      && (forall i :: 0 <= i < |walk| ==> Page(s, walk[i]) == i + 1)
      && (forall i, name :: 0 <= i < |walk| && name != s.pageName ==> Lookup(walk[i], name) == Lookup(params, name))
      && Collected(s, walk, rows) == Success(rows)
  {
    var walk, m := Visits(s, path, params, |rows|), PageSize(s, params);
    LastPageBounds(|rows|, m);
    VisitsPages(s, path, params, |rows|);
    CollectedPages(s, path, params, rows, walk);
    forall i | 0 <= i < |walk|
      ensures Page(s, walk[i]) == i + 1
      ensures forall name :: name != s.pageName ==> Lookup(walk[i], name) == Lookup(params, name)
    {
      PageParamsMeaning(s, params, 1 + i);
    }
    if rows == [] {
      assert Concatenated(rows, m, 1) == [];
    } else {
      PagesPartition(rows, m, 1);
    }
  }

  lemma {:induction false} ViewLinks(s: Settings, path: string, params: QueryParams, n: nat)
    requires Paginated(s, params)
    ensures var view, page := ViewOf(s, path, params, n).value.value, Page(s, params);
      && view.next == (if page < LastPage(s, params, n) then Some(PageLink(s, path, params, page + 1)) else None)
      && view.prev == (if page > 1 then Some(PageLink(s, path, params, page - 1)) else None)
  {
  }

  lemma {:induction false} SamePageSameMembers<T>(s: Settings, params: QueryParams, params': QueryParams, rows: seq<T>)
    requires Paginated(s, params) && Paginated(s, params')
    requires Page(s, params) == Page(s, params') && PageSize(s, params) == PageSize(s, params')
    ensures Members(s, params, rows) == Members(s, params', rows)
  {
  }

  /** hydra:prev undoes hydra:next: it asks for the page that next was followed from, with all other parameters. */
  lemma {:induction false} PrevUndoesNext<T>(s: Settings, path: string, params: QueryParams, rows: seq<T>)
    requires Paginated(s, params) && Page(s, params) >= 1 && NextParams(s, path, params, |rows|).Some?
    ensures var next := NextParams(s, path, params, |rows|).value;
      && Paginated(s, next)
      && var prev := ViewOf(s, path, next, |rows|).value.value.prev;
         && prev == Some(PageLink(s, path, params, Page(s, params)))
         && Members(s, prev.value.params, rows) == Members(s, params, rows)
  {
    hide Members, ItemsPerPage, IsEnabled, Page, PageParams, CeilDiv;
    var page := Page(s, params);
    var next, prev := PageParams(s, params, page + 1), PageParams(s, params, page);
    ViewLinks(s, path, params, |rows|);
    PageParamsMeaning(s, params, page + 1);
    PageParamsMeaning(s, params, page);
    ViewLinks(s, path, next, |rows|);
    SamePageLinks(s, params, page + 1, page);
    SamePageSameMembers(s, prev, params, rows);
  }

  /** The listed pages are 1 to last, and the last link names one of them, exactly when the result is not empty. */
  lemma {:induction false} ListedPages(s: Settings, path: string, params: QueryParams, n: nat)
    requires Paginated(s, params)
    ensures var view := ViewOf(s, path, params, n).value.value;
            var last := LastPage(s, params, n);
      && (n >= 1 ==> |view.pages| == last && forall i :: 0 <= i < last ==> Page(s, view.pages[i].params) == i + 1)
      && (n >= 1 <==> forall link :: link in view.pages ==> 1 <= Page(s, link.params) <= last)
      && Page(s, view.first.params) == 1 && Page(s, view.last.params) == last
      && (n >= 1 <==> last >= 1)
  {
    var view := ViewOf(s, path, params, n).value.value;
    var last := LastPage(s, params, n);
    LastPageBounds(n, PageSize(s, params));
    PageParamsMeaning(s, params, 1);
    PageParamsMeaning(s, params, last);
    var numbers := Range(1, last);
    forall i | 0 <= i < |view.pages|
      ensures Page(s, view.pages[i].params) == numbers[i]
    {
      PageParamsMeaning(s, params, numbers[i]);
    }
    if n == 0 {
      assert view.pages[1] in view.pages && Page(s, view.pages[1].params) == 0;
    }
  }
}
