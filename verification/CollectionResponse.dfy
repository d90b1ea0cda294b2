/** Collection responses: memo fields, a pagination object that remembers request parameters, and cloned queries. */
module CollectionResponse {
  import opened Wrappers
  import opened Filters
  import opened Pages

  class Pagination {
    const settings: Settings
    var parameters: QueryParams

    constructor (settings: Settings)
      ensures this.settings == settings && parameters == []
    {
      this.settings := settings;
      parameters := [];
    }

    method SetParametersFromRequest(request: QueryParams)
      modifies this
      ensures parameters == request
    {
      parameters := request;
    }
  }

  /** A query over a fixed result set. */
  class ResultQuery<T> {
    const rows: seq<T>
    var limit: Option<int>
    var offset: Option<int>

    constructor (rows: seq<T>)
      ensures this.rows == rows && limit == None && offset == None
    {
      this.rows := rows;
      limit, offset := None, None;
    }

    ghost predicate Unlimited()
      reads this
    {
      limit == None && offset == None
    }

    method Clone() returns (q: ResultQuery<T>)
      ensures fresh(q) && q.rows == rows && q.limit == limit && q.offset == offset
    {
      q := new ResultQuery<T>(rows);
      q.limit, q.offset := limit, offset;
    }

    method SetLimit(n: int) returns (r: Result<()>)
      modifies this`limit
      ensures r == if n >= 1 then Success(()) else Failure("The limit must be an integer >= 1")
      ensures limit == if n >= 1 then Some(n) else old(limit)
    {
      if n < 1 {
        return Failure("The limit must be an integer >= 1");
      }
      limit := Some(n);
      r := Success(());
    }

    method SetOffset(n: int) returns (r: Result<()>)
      modifies this`offset
      ensures r == if n >= 0 then Success(()) else Failure("The offset must be a positive integer")
      ensures offset == if n >= 0 then Some(n) else old(offset)
    {
      if n < 0 {
        return Failure("The offset must be a positive integer");
      }
      offset := Some(n);
      r := Success(());
    }

    /** The rows from the offset on, at most limit of them. */
    method Execute() returns (result: seq<T>)
      requires limit.Some? ==> limit.value >= 1
      requires offset.Some? ==> offset.value >= 0
      ensures result ==
        if limit.None? then rows[Min(offset.GetOr(0), |rows|)..] else Slice(rows, offset.GetOr(0), limit.value)
    {
      var from := Min(offset.GetOr(0), |rows|);
      var to := if limit.None? then |rows| else Min(offset.GetOr(0) + limit.value, |rows|);
      result := rows[from..to];
    }
  }

  datatype Call = MembersCall | TotalItemsCall | ViewCall

  datatype Output<T> =
    | MembersOutput(members: Result<seq<T>>)
    | TotalOutput(total: nat)
    | ViewOutput(view: Result<Option<View>>)

  /** What a call should return, given the parameters that the pagination holds, the request and the result set. */
  function Expected<T>(call: Call, settings: Settings, path: string, held: QueryParams, request: QueryParams,
                       rows: seq<T>): Output<T>
  {
    match call
    case MembersCall => MembersOutput(Members(settings, request, rows))
    case TotalItemsCall => TotalOutput(|rows|)
    case ViewCall => ViewOutput(ViewWith(settings, path, held, request, |rows|))
  }

  /** The first getMembers hands the request's parameters to the pagination. */
  function HeldAfter(calls: seq<Call>, start: QueryParams, request: QueryParams): QueryParams {
    if MembersCall in calls then request else start
  }

  /** After the first getMembers, every call returns what request and result set alone determine. */
  lemma {:induction false} AfterMembers<T>(calls: seq<Call>, i: nat, settings: Settings, path: string,
                                           start: QueryParams, request: QueryParams, rows: seq<T>)
    requires i < |calls| && calls[0] == MembersCall
    ensures Expected(calls[i], settings, path, HeldAfter(calls[..i], start, request), request, rows) ==
      match calls[i]
      case MembersCall => MembersOutput(Members(settings, request, rows))
      case TotalItemsCall => TotalOutput(|rows|)
      case ViewCall => ViewOutput(ViewOf(settings, path, request, |rows|))
  {
    if i > 0 {
      assert calls[..i][0] == MembersCall;
    }
  }

  class HydraCollectionResponse<T> {
    const pagination: Pagination
    const path: string
    const request: QueryParams
    const query: ResultQuery<T>
    var membersCache: Option<seq<T>>
    var totalItemsCache: Option<nat>

    constructor (pagination: Pagination, path: string, request: QueryParams, query: ResultQuery<T>)
      requires query.Unlimited()
      ensures this.pagination == pagination && this.path == path && this.request == request && this.query == query
      ensures Valid() && membersCache == None && totalItemsCache == None
    {
      this.pagination, this.path, this.request, this.query := pagination, path, request, query;
      membersCache, totalItemsCache := None, None;
    }

    /** The caches hold what the request and the result set say; the stored query has no limit or offset. */
    ghost predicate Valid()
      reads this, pagination, query
    {
      && query.Unlimited()
      && (membersCache.Some? ==> Members(pagination.settings, request, query.rows) == Success(membersCache.value))
      && (totalItemsCache.Some? ==> totalItemsCache.value == |query.rows|)
    }

    method ApplyPagination() returns (r: Result<ResultQuery<T>>)
      requires Valid()
      modifies pagination
      ensures Valid() && pagination.parameters == request
      ensures r.Success? <==> Members(pagination.settings, request, query.rows).Success?
      ensures r.Failure? ==> Members(pagination.settings, request, query.rows) == Failure(r.error)
      ensures r.Success? ==>
        && r.value.rows == query.rows
        && (IsEnabled(pagination.settings, request) ==>
              && fresh(r.value)
              && ItemsPerPage(pagination.settings, request).Success?
              && r.value.limit == Some(ItemsPerPage(pagination.settings, request).value)
              && r.value.offset == Some((Page(pagination.settings, request) - 1) * r.value.limit.value)
              && r.value.limit.value >= 1 && r.value.offset.value >= 0)
        && (!IsEnabled(pagination.settings, request) ==> r.value == query)
    {
      pagination.SetParametersFromRequest(request);
      if !IsEnabled(pagination.settings, pagination.parameters) {
        return Success(query);
      }
      var clone := query.Clone();
      var limit :- ItemsPerPage(pagination.settings, pagination.parameters);
      var _ :- clone.SetLimit(limit);
      var _ :- clone.SetOffset((Page(pagination.settings, pagination.parameters) - 1) * limit);
      r := Success(clone);
    }

    method GetMembers() returns (r: Result<seq<T>>)
      requires Valid()
      modifies pagination, this`membersCache
      ensures Valid()
      ensures old(membersCache).None? ==> pagination.parameters == request
      ensures old(membersCache).Some? ==> pagination.parameters == old(pagination.parameters)
      ensures r == Members(pagination.settings, request, query.rows)
    {
      if membersCache == None {
        var paginated := ApplyPagination();
        if paginated.Failure? {
          return Failure(paginated.error);
        }
        var result := paginated.value.Execute();
        membersCache := Some(result);
      }
      r := Success(membersCache.value);
    }

    method GetTotalItems() returns (n: nat)
      requires Valid()
      modifies this`totalItemsCache
      ensures Valid() && n == |query.rows|
    {
      if totalItemsCache == None {
        var result := query.Execute();
        totalItemsCache := Some(|result|);
      }
      n := totalItemsCache.value;
    }

    method GetView() returns (r: Result<Option<View>>)
      requires Valid()
      modifies this`totalItemsCache
      ensures Valid()
      ensures r == ViewWith(pagination.settings, path, pagination.parameters, request, |query.rows|)
    {
      var s, params := pagination.settings, pagination.parameters;
      if !IsEnabled(s, params) {
        return Success(None);
      }
      var total := GetTotalItems();
      var size :- ItemsPerPage(s, params);
      var lastPage, page := CeilDiv(total, size), Page(s, params);
      var first, last := PageLink(s, path, request, 1), PageLink(s, path, request, lastPage);
      var prev, next := None, None;
      if page > 1 {
        prev := Some(PageLink(s, path, request, page - 1));
      }
      if page < lastPage {
        next := Some(PageLink(s, path, request, page + 1));
      }
      var pages := GetPages(lastPage);
      r := Success(Some(View(first, last, prev, next, pages, page)));
    }

    /** The loop of getView over the page numbers. */
    method GetPages(lastPage: int) returns (pages: seq<Link>)
      ensures pages == PageLinks(pagination.settings, path, request, Range(1, lastPage))
    {
      var numbers := Range(1, lastPage);
      pages := [];
      for i := 0 to |numbers|
        invariant pages == PageLinks(pagination.settings, path, request, numbers[..i])
      {
        pages := pages + [PageLink(pagination.settings, path, request, numbers[i])];
      }
      assert numbers[..|numbers|] == numbers;
    }

    /**
     Any sequence of calls returns, call by call, what is expected: the members of the request's page, the
     total of the unpaginated query, and the view of the parameters that the pagination holds, which are
     the request's from the first getMembers on.
     */
    method Run(calls: seq<Call>) returns (outputs: seq<Output<T>>)
      requires Valid() && membersCache == None
      modifies this, pagination
      ensures Valid()
      ensures |outputs| == |calls|
      ensures pagination.parameters == HeldAfter(calls, old(pagination.parameters), request)
      ensures forall i :: 0 <= i < |calls| ==>
        var held := HeldAfter(calls[..i], old(pagination.parameters), request);
        outputs[i] == Expected(calls[i], pagination.settings, path, held, request, query.rows)
    {
      hide Valid, Members, ViewWith, Slice, ItemsPerPage, IsEnabled, Page;
      outputs := [];
      ghost var start := pagination.parameters;
      for i := 0 to |calls|
        invariant Valid() && |outputs| == i
        invariant pagination.parameters == HeldAfter(calls[..i], start, request)
        invariant MembersCall in calls[..i] || membersCache == None
        invariant forall k :: 0 <= k < i ==>
          var held := HeldAfter(calls[..k], start, request);
          outputs[k] == Expected(calls[k], pagination.settings, path, held, request, query.rows)
      {
        assert calls[..i + 1] == calls[..i] + [calls[i]];
        match calls[i] {
          case MembersCall =>
            var members := this.GetMembers();
            outputs := outputs + [MembersOutput(members)];
          case TotalItemsCall =>
            var total := this.GetTotalItems();
            outputs := outputs + [TotalOutput(total)];
          case ViewCall =>
            var view := this.GetView();
            outputs := outputs + [ViewOutput(view)];
        }
      }
      assert calls[..|calls|] == calls;
    }
  }
}
