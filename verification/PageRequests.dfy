/** What the pagination entries of a request ask for: whether, how many and which members, and which links. */
module PageRequests {
  import opened Wrappers
  import opened Php
  import opened OrderedMap
  import opened Filters
  import opened Pages

  predicate Absent(params: QueryParams, name: string) {
    forall e :: e in params ==> e.0 != name
  }

  lemma {:induction false} GivenIs(params: QueryParams, name: string, value: ParamValue)
    requires Distinct(params) && (name, value) in params
    ensures Lookup(params, name) == Some(value)
  {
    var i :| 0 <= i < |params| && params[i] == (name, value);
    LookupAt(params, i);
  }

  /** The values that PHP takes for false. */
  predicate IsOff(value: ParamValue) {
    value == Scalar("") || value == Scalar("0") || value == Assoc([])
  }

  /** Where clients may decide, a value given turns pagination off if false and on otherwise; else the server does. */
  lemma {:induction false} EnabledIs(s: Settings, params: QueryParams, value: ParamValue)
    requires Distinct(params)
    ensures !s.clientEnabled || Absent(params, s.enabledName) ==> (IsEnabled(s, params) <==> s.serverEnabled)
    ensures s.clientEnabled && (s.enabledName, value) in params ==> (IsEnabled(s, params) <==> !IsOff(value))
  {
    if (s.enabledName, value) in params {
      GivenIs(params, s.enabledName, value);
    }
  }

  /** The page given in decimal, or the first one. */
  lemma {:induction false} PageIs(s: Settings, params: QueryParams, k: int)
    requires Distinct(params)
    ensures Absent(params, s.pageName) ==> Page(s, params) == 1
    ensures (s.pageName, Scalar(Decimal(k))) in params ==> Page(s, params) == k
  {
    IntCastDecimal(k);
    hide Decimal, IntCast;
    if (s.pageName, Scalar(Decimal(k))) in params {
      GivenIs(params, s.pageName, Scalar(Decimal(k)));
    }
  }

  /** The size given in decimal where clients may give one, or the configured one; 0 stands for none. */
  lemma {:induction false} AskedSizeIs(s: Settings, params: QueryParams, n: int)
    requires Distinct(params)
    ensures !s.clientItemsPerPage || Absent(params, s.itemsPerPageName) ==>
      AskedItemsPerPage(s, params) == if s.itemsPerPage.Some? then s.itemsPerPage.value else 0
    ensures s.clientItemsPerPage && (s.itemsPerPageName, Scalar(Decimal(n))) in params ==>
      AskedItemsPerPage(s, params) == n
  {
    IntCastDecimal(n);
    hide Decimal, IntCast;
    if (s.itemsPerPageName, Scalar(Decimal(n))) in params {
      GivenIs(params, s.itemsPerPageName, Scalar(Decimal(n)));
    }
  }

  /** The page size is the smaller one of the maximum and the size asked for, each as far as it is not 0. */
  lemma {:induction false} SizeIs(s: Settings, params: QueryParams)
    ensures var asked, r := AskedItemsPerPage(s, params), ItemsPerPage(s, params);
      && (r.Failure? <==> asked == 0 && s.maximumItemsPerPage == 0)
      && (r.Success? ==>
            && (r.value == asked || r.value == s.maximumItemsPerPage)
            && (asked != 0 ==> r.value <= asked) && (s.maximumItemsPerPage != 0 ==> r.value <= s.maximumItemsPerPage)
            && r.value != 0)
  {
  }

  /** The members from first on, at most m of them. */
  predicate IsPart<T(==)>(rows: seq<T>, first: int, m: int, part: seq<T>) {
    && |part| <= m && (first < |rows| ==> |part| == m || first + |part| == |rows|) && (first >= |rows| ==> part == [])
    && forall i :: 0 <= i < |part| ==> 0 <= first + i < |rows| && part[i] == rows[first + i]
  }

  /**
   All members without pagination. With it a page of the page size m, page k starting behind (k - 1) * m
   members; a page size below 1, none at all, or a page below 1 is refused.
   */
  lemma {:induction false} MembersAre<T>(s: Settings, params: QueryParams, rows: seq<T>)
    ensures var r, size, page := Members(s, params, rows), ItemsPerPage(s, params), Page(s, params);
      && (!IsEnabled(s, params) ==> r == Success(rows))
      && (IsEnabled(s, params) ==> (r.Success? <==> size.Success? && size.value >= 1 && page >= 1))
      && (IsEnabled(s, params) && r.Success? ==> IsPart(rows, (page - 1) * size.value, size.value, r.value))
  {
    hide IsEnabled, ItemsPerPage, Page;
    if ItemsPerPage(s, params).Success? && ItemsPerPage(s, params).value >= 1 {
      var m, page := ItemsPerPage(s, params).value, Page(s, params);
      if page >= 1 {
        MulMonotone(0, page - 1, m);
        SliceLength(rows, (page - 1) * m, m);
      } else {
        MulMonotone(page - 1, -1, m);
      }
    }
  }

  /** The number of pages is n divided by the page size, rounded up. */
  lemma {:induction false} CeilDivIs(n: nat, m: int)
    requires m != 0
    ensures var last := CeilDiv(n, m);
      if m > 0 then (last - 1) * m < n <= last * m else last * m <= n < (last - 1) * m
  {
    if m > 0 {
      LastPageBounds(n, m);
    } else {
      var d := 0 - m;
      var q := n / d;
      assert n == d * q + n % d;
      assert (0 - q) * m == d * q && (0 - q - 1) * m == d * q + d;
    }
  }

  /** The link of a page keeps path and query and gives the page in decimal, at its place or at the end. */
  predicate LinksTo(s: Settings, path: string, request: QueryParams, k: int, link: Link) {
    && link.path == path
    && |link.params| == (if Absent(request, s.pageName) then |request| + 1 else |request|)
    && (forall i :: 0 <= i < |request| && request[i].0 != s.pageName ==> link.params[i] == request[i])
    && (forall i :: 0 <= i < |link.params| && (i < |request| ==> request[i].0 == s.pageName) ==>
          link.params[i] == (s.pageName, Scalar(Decimal(k))))
  }

  lemma {:induction false} PutAt<V>(m: seq<(string, V)>, key: string, value: V)
    requires Distinct(m)
    ensures |Put(m, key, value)| == if (forall e :: e in m ==> e.0 != key) then |m| + 1 else |m|
    ensures forall i :: 0 <= i < |m| && m[i].0 != key ==> Put(m, key, value)[i] == m[i]
    ensures forall i :: 0 <= i < |Put(m, key, value)| && (i < |m| ==> m[i].0 == key) ==>
      Put(m, key, value)[i] == (key, value)
  {
    if m != [] {
      var rest := m[1..];
      PutAt(rest, key, value);
      assert m == [m[0]] + rest;
    }
  }

  lemma {:induction false} PageLinkIs(s: Settings, path: string, request: QueryParams, k: int)
    requires Distinct(request)
    ensures LinksTo(s, path, request, k, PageLink(s, path, request, k))
  {
    PutAt(request, s.pageName, Scalar(Decimal(k)));
    hide Put, Decimal;
  }

  /**
   The view: none without pagination, and an error without a page size. Otherwise the first page, the last
   one, and the pages before and after the current one, where there are any.
   */
  lemma {:induction false} ViewIs(s: Settings, path: string, held: QueryParams, request: QueryParams, n: nat)
    requires Distinct(request)
    ensures var r, size, page := ViewWith(s, path, held, request, n), ItemsPerPage(s, held), Page(s, held);
      && (!IsEnabled(s, held) ==> r == Success(None))
      && (IsEnabled(s, held) ==> (r.Success? <==> size.Success?))
      && (IsEnabled(s, held) && size.Success? ==>
            && r.value.Some? && var view, last := r.value.value, CeilDiv(n, size.value);
            && view.page == page
            && LinksTo(s, path, request, 1, view.first) && LinksTo(s, path, request, last, view.last)
            && (view.prev.Some? <==> page > 1) && (view.next.Some? <==> page < last)
            && (view.prev.Some? ==> LinksTo(s, path, request, page - 1, view.prev.value))
            && (view.next.Some? ==> LinksTo(s, path, request, page + 1, view.next.value))
            && (last >= 1 ==> |view.pages| == last)
            && forall i :: 0 <= i < |view.pages| && last >= 1 ==> LinksTo(s, path, request, i + 1, view.pages[i]))
  {
    forall k
      ensures LinksTo(s, path, request, k, PageLink(s, path, request, k))
    {
      PageLinkIs(s, path, request, k);
    }
    hide IsEnabled, ItemsPerPage, Page, CeilDiv, PageLink, LinksTo;
  }
}
