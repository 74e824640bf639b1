/** The paginated collector `get_paginated_data` and its page fetcher
    `get_pages` (osf_pigeon/pigeon.py:262-322).

    The request `get_with_retry(url, retry_on=(429,)).json()` is the oracle
    `fetch`: it maps a URL to the decoded response, or to the error the call
    raises once its rate-limit retries are over. `get_pages` contains no
    `await`, so `asyncio.gather` runs the page tasks one after another in
    the order they were created; the collector is therefore a sequential
    loop over pages 2..n. A failing page does not stop the tasks after it
    (they are already scheduled), and the error of the lowest failing page
    is the one that propagates. */
module Pagination {
  import opened Common

  /** `total` and `per_page` as found under `links.meta` or top-level `meta`
      (None where the key is missing or null). */
  datatype Counts = Counts(total: Option<int>, perPage: Option<int>)

  /** The decoded JSON:API listing page: its `data` records, its `links.next`
      link, and its `links.meta` and `meta` objects when present. */
  datatype Response<R> = Response(data: seq<R>, next: Option<string>, linksMeta: Option<Counts>, meta: Option<Counts>)

  /** What `get_paginated_data` returns: the whole (transformed) first
      response when there is no next page, else the merged `data` lists. */
  datatype Collected<R> = Whole(response: Response<R>) | Merged(records: seq<R>)

  /** The result of a collection and the URLs it requested, in order. */
  datatype Run<R> = Run(result: Result<Collected<R>>, requests: seq<string>)

  /** `data.get('links', {}).get('next')` is truthy. */
  predicate IsPaginated<R>(resp: Response<R>): (b: bool)
    ensures resp.next.None? ==> !b
    ensures resp.next == Some("") ==> !b
    ensures resp.next.Some? && |resp.next.value| > 0 ==> b
  {
    resp.next.Some? && resp.next.value != ""
  }

  predicate TruthyInt(v: Option<int>) {
    v.Some? && v.value != 0
  }

  datatype CountKey = Total | PerPage

  function Pick(c: Counts, key: CountKey): Option<int> {
    match key
    case Total => c.total
    case PerPage => c.perPage
  }

  /** `data['links'].get('meta', {}).get(key) or data['meta'].get(key)`:
      the value under `links.meta` when truthy, else the one under
      top-level `meta`, whose absence is a KeyError. */
  function CountField<R>(resp: Response<R>, key: CountKey): (r: Result<Option<int>>)
    ensures resp.linksMeta.Some? && TruthyInt(Pick(resp.linksMeta.value, key)) ==> r == Ok(Pick(resp.linksMeta.value, key))
    ensures !(resp.linksMeta.Some? && TruthyInt(Pick(resp.linksMeta.value, key))) ==>
      r == if resp.meta.Some? then Ok(Pick(resp.meta.value, key)) else Err(KeyError("meta"))
  {
    var fromLinks := if resp.linksMeta.Some? then Pick(resp.linksMeta.value, key) else None;
    if TruthyInt(fromLinks) then Ok(fromLinks)
    else if resp.meta.None? then Err(KeyError("meta"))
    else Ok(Pick(resp.meta.value, key))
  }

  /** `math.ceil(t / p)` on exact rationals: the least n with n >= t / p. */
  function CeilDiv(t: int, p: int): (n: int)
    requires p != 0
    ensures p > 0 ==> (n - 1) * p < t <= n * p
    ensures p < 0 ==> n * p <= t < (n - 1) * p
  {
    if p > 0 then
      var q := (-t) / p;
      assert (-t) == q * p + (-t) % p;
      -q
    else
      var q := t / (-p);
      assert t == q * (-p) + t % (-p);
      -q
  }

  /** `pages = math.ceil(int(total) / int(per_page))`: int(None) is a
      TypeError and a zero page size a ZeroDivisionError. */
  function PageCount<R>(resp: Response<R>): (r: Result<int>)
    ensures r.Ok? ==> exists t: int, p: int :: CountField(resp, Total) == Ok(Some(t)) && CountField(resp, PerPage) == Ok(Some(p)) && p != 0 && r.value == CeilDiv(t, p)
    ensures CountField(resp, Total).Err? ==> r == Err(CountField(resp, Total).error)
    ensures CountField(resp, Total).Ok? && CountField(resp, PerPage).Err? ==> r == Err(CountField(resp, PerPage).error)
    ensures CountField(resp, Total) == Ok(None) && CountField(resp, PerPage).Ok? ==> r == Err(TypeError)
    ensures CountField(resp, Total).Ok? && CountField(resp, PerPage) == Ok(None) ==> r == Err(TypeError)
    ensures CountField(resp, Total).Ok? && CountField(resp, Total).value.Some? && CountField(resp, PerPage) == Ok(Some(0)) ==> r == Err(ZeroDivisionError)
  {
    match CountField(resp, Total)
    case Err(e) => Err(e)
    case Ok(total) =>
      match CountField(resp, PerPage)
      case Err(e) => Err(e)
      case Ok(perPage) =>
        if total.None? || perPage.None? then Err(TypeError)
        else if perPage.value == 0 then Err(ZeroDivisionError)
        else Ok(CeilDiv(total.value, perPage.value))
  }

  /** `f'{url}?page={page}'`. */
  function PageUrl(url: string, page: nat): string {
    url + "?page=" + Decimal(page)
  }

  /** Distinct page numbers are requested at distinct URLs. */
  lemma PageUrlInjective(url: string, j: nat, k: nat)
    requires PageUrl(url, j) == PageUrl(url, k)
    ensures j == k
  {
    var prefix := url + "?page=";
    assert Decimal(j) == PageUrl(url, j)[|prefix|..];
    assert Decimal(k) == PageUrl(url, k)[|prefix|..];
    DecimalInjective(j, k);
  }

  /** The number of extra pages `range(1, pages)` visits. */
  function Extra(pages: int): nat {
    if pages > 1 then pages - 1 else 0
  }

  /** The URLs of pages 2..pages, in task-creation order. */
  function ExtraPageUrls(url: string, pages: int): (urls: seq<string>)
    ensures |urls| == Extra(pages)
    ensures forall i :: 0 <= i < |urls| ==> urls[i] == PageUrl(url, i + 2)
  {
    seq(Extra(pages), i requires 0 <= i => PageUrl(url, i + 2))
  }

  /** The answers to the requests for pages 2..pages. */
  function PageFetches<R>(url: string, fetch: string -> Result<Response<R>>, pages: int): (outs: seq<Result<Response<R>>>)
    ensures |outs| == Extra(pages)
    ensures forall i :: 0 <= i < |outs| ==> outs[i] == fetch(PageUrl(url, i + 2))
  {
    seq(Extra(pages), i requires 0 <= i => fetch(PageUrl(url, i + 2)))
  }

  /** The error of the first failed answer, if any. */
  function FirstError<T>(outs: seq<Result<T>>): (e: Option<Error>)
    ensures e.None? <==> forall i :: 0 <= i < |outs| ==> outs[i].Ok?
    ensures e.Some? ==> Err(e.value) in outs
    ensures e.Some? ==> exists i :: LowestFailure(outs, i, e.value)
  {
    if outs == [] then None
    else
      var e := FirstError(outs[..|outs| - 1]);
      if e.Some? then
        LowestFailureExtends(outs[..|outs| - 1], outs, e.value);
        e
      else if outs[|outs| - 1].Err? then
        assert LowestFailure(outs, |outs| - 1, outs[|outs| - 1].error);
        Some(outs[|outs| - 1].error)
      else None
  }

  /** `outs[i]` is the lowest failing element, with error `e`. */
  predicate LowestFailure<T>(outs: seq<Result<T>>, i: int, e: Error) {
    0 <= i < |outs| && outs[i] == Err(e) && forall j :: 0 <= j < i ==> outs[j].Ok?
  }

  /** Appending to a sequence keeps its lowest failure. */
  lemma LowestFailureExtends<T>(init: seq<Result<T>>, outs: seq<Result<T>>, e: Error)
    requires |init| <= |outs| && init == outs[..|init|]
    requires exists i :: LowestFailure(init, i, e)
    ensures exists i :: LowestFailure(outs, i, e)
  {
    var i :| LowestFailure(init, i, e);
    forall j | 0 <= j <= i ensures outs[j] == init[j] {
    }
    assert LowestFailure(outs, i, e);
  }

  /** The `data` lists of successful answers, in order. */
  function DataOf<R>(outs: seq<Result<Response<R>>>): (ds: seq<seq<R>>)
    requires forall i :: 0 <= i < |outs| ==> outs[i].Ok?
    ensures |ds| == |outs|
    ensures forall i :: 0 <= i < |outs| ==> ds[i] == outs[i].value.data
  {
    seq(|outs|, i requires 0 <= i < |outs| => outs[i].value.data)
  }

  /** The concatenation of a list of pages, first page first. */
  function Flatten<R>(pages: seq<seq<R>>): seq<R> {
    if pages == [] then [] else Flatten(pages[..|pages| - 1]) + pages[|pages| - 1]
  }

  /** The sum of the page lengths. */
  function TotalLength<R>(pages: seq<seq<R>>): nat {
    if pages == [] then 0 else TotalLength(pages[..|pages| - 1]) + |pages[|pages| - 1]|
  }

  /** The optional `parse_json` callback. */
  function ApplyTransform<R>(resp: Response<R>, transform: Option<Response<R> -> Result<Response<R>>>): Result<Response<R>> {
    if transform.Some? then transform.value(resp) else Ok(resp)
  }

  /** What `get_paginated_data(url, parse_json)` does, as a function of the
      responses: the result and the requests, in order. */
  function CollectSpec<R>(url: string, fetch: string -> Result<Response<R>>, transform: Option<Response<R> -> Result<Response<R>>>): (r: Run<R>)
    ensures |r.requests| >= 1 && r.requests[0] == url
    ensures fetch(url).Err? ==> r == Run(Err(fetch(url).error), [url])
    ensures (r.result.Ok? && r.result.value.Whole?) <==>
      (fetch(url).Ok? && ApplyTransform(fetch(url).value, transform).Ok? && !IsPaginated(fetch(url).value))
    ensures r.result.Ok? && r.result.value.Whole? ==> r == Run(Ok(Whole(ApplyTransform(fetch(url).value, transform).value)), [url])
  {
    match fetch(url)
    case Err(e) => Run(Err(e), [url])
    case Ok(first) =>
      match ApplyTransform(first, transform)
      case Err(e) => Run(Err(e), [url])
      case Ok(data) =>
        if !IsPaginated(first) then Run(Ok(Whole(data)), [url])
        else
          match PageCount(data)
          case Err(e) => Run(Err(e), [url])
          case Ok(pages) =>
            var outs := PageFetches(url, fetch, pages);
            var requests := [url] + ExtraPageUrls(url, pages);
            match FirstError(outs)
            case Some(e) => Run(Err(e), requests)
            case None => Run(Ok(Merged(Flatten([data.data] + DataOf(outs)))), requests)
  }

  /** `get_pages(url, page, result, parse_json)`: request one page and store
      its `data` (transformed by `parse_json` when given) under `page`. The
      raw `data` is written before `parse_json` runs (pigeon.py:266-269); on
      a transform error the source's dict keeps that raw entry while the
      model returns only the error. No caller passes `parse_json`, so the
      difference cannot be observed. */
  method GetPages<R>(url: string, page: nat, result: map<int, seq<R>>, fetch: string -> Result<Response<R>>,
                     parseJson: Option<Response<R> -> Result<Response<R>>>)
    returns (updated: Result<map<int, seq<R>>>, requested: string)
    ensures requested == PageUrl(url, page)
    ensures fetch(requested).Err? ==> updated == Err(fetch(requested).error)
    ensures fetch(requested).Ok? ==> (match ApplyTransform(fetch(requested).value, parseJson)
      case Err(e) => updated == Err(e)
      case Ok(resp) => updated == Ok(result[page := resp.data]))
  {
    requested := PageUrl(url, page);
    var resp := fetch(requested);
    if resp.Err? {
      return Err(resp.error), requested;
    }
    var stored := result[page := resp.value.data];
    if parseJson.Some? {
      var parsed := parseJson.value(resp.value);
      if parsed.Err? {
        return Err(parsed.error), requested;
      }
      stored := stored[page := parsed.value.data];
      assert stored == result[page := parsed.value.data];
    }
    updated := Ok(stored);
  }

  lemma FlattenAppend<R>(pages: seq<seq<R>>, page: seq<R>)
    ensures Flatten(pages + [page]) == Flatten(pages) + page
  {
    assert (pages + [page])[..|pages|] == pages;
  }

  lemma FirstErrorAppend<T>(outs: seq<Result<T>>, out: Result<T>)
    ensures FirstError(outs + [out]) == if FirstError(outs).Some? then FirstError(outs) else if out.Err? then Some(out.error) else None
  {
    assert (outs + [out])[..|outs|] == outs;
  }

  /** Requesting page i + 1 after pages 2..i: one more URL, and the first
      error so far unless it is the first one. */
  lemma NextPage<R>(url: string, fetch: string -> Result<Response<R>>, i: nat)
    requires 1 <= i
    ensures ExtraPageUrls(url, i + 1) == ExtraPageUrls(url, i) + [PageUrl(url, i + 1)]
    ensures var out := fetch(PageUrl(url, i + 1)); var before := FirstError(PageFetches(url, fetch, i));
      FirstError(PageFetches(url, fetch, i + 1)) == if before.Some? then before else if out.Err? then Some(out.error) else None
  {
    assert PageFetches(url, fetch, i + 1) == PageFetches(url, fetch, i) + [fetch(PageUrl(url, i + 1))];
    FirstErrorAppend(PageFetches(url, fetch, i), fetch(PageUrl(url, i + 1)));
  }

  /** Pages 2..n were all answered, each stored under its number. */
  ghost predicate StoredUpTo<R>(url: string, fetch: string -> Result<Response<R>>, byPage: map<int, seq<R>>, n: int) {
    forall k :: 2 <= k <= n ==> k in byPage && fetch(PageUrl(url, k)).Ok? && byPage[k] == fetch(PageUrl(url, k)).value.data
  }

  /** Storing the answer for page n + 1 extends the stored pages by one. */
  lemma StoreNext<R>(url: string, fetch: string -> Result<Response<R>>, byPage: map<int, seq<R>>, n: nat)
    requires StoredUpTo(url, fetch, byPage, n) && fetch(PageUrl(url, n + 1)).Ok?
    ensures StoredUpTo(url, fetch, byPage[n + 1 := fetch(PageUrl(url, n + 1)).value.data], n + 1)
  {
  }

  /** The `for i in range(1, pages)` loop with the gathered `get_pages`
      tasks: pages 2..pages are requested in order into `byPage`, whose
      entry 1 is the first page's data. */
  method FetchRemainingPages<R>(url: string, fetch: string -> Result<Response<R>>, pages: int, first: seq<R>)
    returns (byPage: map<int, seq<R>>, failure: Option<Error>, requests: seq<string>)
    ensures requests == ExtraPageUrls(url, pages)
    ensures failure == FirstError(PageFetches(url, fetch, pages))
    ensures 1 in byPage && byPage[1] == first
    ensures failure.None? ==> StoredUpTo(url, fetch, byPage, pages)
  {
    byPage := map[1 := first];
    failure := None;
    requests := [];
    var i := 1;
    while i < pages
      invariant 1 <= i && (pages > 1 ==> i <= pages) && (pages <= 1 ==> i == 1)
      invariant requests == ExtraPageUrls(url, i)
      invariant failure == FirstError(PageFetches(url, fetch, i))
      invariant 1 in byPage && byPage[1] == first
      invariant failure.None? ==> StoredUpTo(url, fetch, byPage, i)
    {
      NextPage(url, fetch, i);
      var stored, requested := GetPages(url, i + 1, byPage, fetch, None);
      requests := requests + [requested];
      if stored.Err? {
        if failure.None? {
          failure := Some(stored.error);
        }
      } else {
        if failure.None? {
          StoreNext(url, fetch, byPage, i);
        }
        byPage := stored.value;
      }
      i := i + 1;
    }
    assert Extra(i) == Extra(pages);
  }

  /** Pages 1..n of `byPage`, in page order. */
  function InPageOrder<R>(byPage: map<int, seq<R>>, n: nat): (ps: seq<seq<R>>)
    requires forall k :: 1 <= k <= n ==> k in byPage
    ensures |ps| == n && forall i :: 0 <= i < n ==> ps[i] == byPage[i + 1]
  {
    seq(n, i requires 0 <= i < n => byPage[i + 1])
  }

  /** `for page in list(result.values()): pages_as_list += page`, the dict
      having been filled in ascending page order. */
  method ConcatPages<R>(byPage: map<int, seq<R>>, n: nat) returns (merged: seq<R>)
    requires forall k :: 1 <= k <= n ==> k in byPage
    ensures merged == Flatten(InPageOrder(byPage, n))
  {
    merged := [];
    var k := 1;
    while k <= n
      invariant 1 <= k <= n + 1
      invariant merged == Flatten(InPageOrder(byPage, k - 1))
    {
      assert InPageOrder(byPage, k) == InPageOrder(byPage, k - 1) + [byPage[k]];
      FlattenAppend(InPageOrder(byPage, k - 1), byPage[k]);
      merged := merged + byPage[k];
      k := k + 1;
    }
  }

  /** When every page was stored, the dict read in page order is the first
      page followed by the answers' data. */
  lemma PagesInOrder<R>(url: string, fetch: string -> Result<Response<R>>, pages: int, first: seq<R>, byPage: map<int, seq<R>>)
    requires 1 in byPage && byPage[1] == first
    requires FirstError(PageFetches(url, fetch, pages)).None?
    requires StoredUpTo(url, fetch, byPage, pages)
    ensures var n := if pages > 1 then pages else 1;
      && (forall k :: 1 <= k <= n ==> k in byPage)
      && InPageOrder(byPage, n) == [first] + DataOf(PageFetches(url, fetch, pages))
  {
    var n := if pages > 1 then pages else 1;
    var outs := PageFetches(url, fetch, pages);
    assert forall k :: 1 <= k <= n ==> k in byPage;
    var lhs, rhs := InPageOrder(byPage, n), [first] + DataOf(outs);
    assert |lhs| == |rhs|;
    forall i | 0 <= i < n
      ensures lhs[i] == rhs[i]
    {
      if i > 0 {
        assert rhs[i] == outs[i - 1].value.data;
      }
    }
  }

  /** `get_paginated_data(url, parse_json)`: request page 1; without a next
      link return it whole; otherwise request pages 2..n into a dict keyed by
      page and concatenate the dict's values in insertion (= page) order. */
  method GetPaginatedData<R>(url: string, fetch: string -> Result<Response<R>>, parseJson: Option<Response<R> -> Result<Response<R>>>)
    returns (result: Result<Collected<R>>, requests: seq<string>)
    ensures Run(result, requests) == CollectSpec(url, fetch, parseJson)
  {
    requests := [url];
    var firstResp := fetch(url);
    if firstResp.Err? {
      return Err(firstResp.error), requests;
    }
    var isPaginated := IsPaginated(firstResp.value);
    var data := firstResp.value;
    if parseJson.Some? {
      var parsed := parseJson.value(data);
      if parsed.Err? {
        return Err(parsed.error), requests;
      }
      data := parsed.value;
    }
    if !isPaginated {
      return Ok(Whole(data)), requests;
    }
    var count := PageCount(data);
    if count.Err? {
      return Err(count.error), requests;
    }
    var pages := count.value;
    var byPage, failure, extra := FetchRemainingPages(url, fetch, pages, data.data);
    requests := requests + extra;
    if failure.Some? {
      return Err(failure.value), requests;
    }
    var n := if pages > 1 then pages else 1;
    PagesInOrder(url, fetch, pages, data.data, byPage);
    var merged := ConcatPages(byPage, n);
    result := Ok(Merged(merged));
  }

  lemma {:induction false} FlattenConcat<R>(a: seq<seq<R>>, b: seq<seq<R>>)
    ensures Flatten(a + b) == Flatten(a) + Flatten(b)
  {
    if b != [] {
      var last := b[|b| - 1];
      assert a + b == (a + b[..|b| - 1]) + [last];
      FlattenAppend(a + b[..|b| - 1], last);
      FlattenConcat(a, b[..|b| - 1]);
      FlattenAppend(b[..|b| - 1], last);
      assert b == b[..|b| - 1] + [last];
    } else {
      assert a + b == a;
    }
  }

  lemma {:induction false} FlattenLength<R>(pages: seq<seq<R>>)
    ensures |Flatten(pages)| == TotalLength(pages)
  {
    if pages != [] {
      FlattenLength(pages[..|pages| - 1]);
    }
  }

  /** A listing without a next link costs exactly one request, and the
      result is the whole (transformed) first response, not its data list. */
  lemma NotPaginatedShortCircuits<R>(url: string, fetch: string -> Result<Response<R>>,
                                     transform: Option<Response<R> -> Result<Response<R>>>, first: Response<R>)
    requires fetch(url) == Ok(first) && !IsPaginated(first)
    ensures CollectSpec(url, fetch, transform).requests == [url]
    ensures ApplyTransform(first, transform).Ok? ==>
      CollectSpec(url, fetch, transform).result == Ok(Whole(ApplyTransform(first, transform).value))
  {
  }

  /** A paginated listing of n pages requests the first URL and then
      `url?page=k` for k = 2..n, once each and in ascending order; nothing
      more when n <= 1. */
  lemma PaginatedRequests<R>(url: string, fetch: string -> Result<Response<R>>,
                             transform: Option<Response<R> -> Result<Response<R>>>, first: Response<R>, data: Response<R>, pages: int)
    requires fetch(url) == Ok(first) && IsPaginated(first)
    requires ApplyTransform(first, transform) == Ok(data) && PageCount(data) == Ok(pages)
    ensures var reqs := CollectSpec(url, fetch, transform).requests;
      && |reqs| == (if pages > 1 then pages else 1)
      && reqs[0] == url
      && (forall k :: 2 <= k <= pages ==> reqs[k - 1] == PageUrl(url, k))
      && (forall i, j :: 1 <= i < j < |reqs| ==> reqs[i] != reqs[j])
  {
    var reqs := CollectSpec(url, fetch, transform).requests;
    assert reqs == [url] + ExtraPageUrls(url, pages);
    forall i, j | 1 <= i < j < |reqs|
      ensures reqs[i] != reqs[j]
    {
      if reqs[i] == reqs[j] {
        PageUrlInjective(url, i + 1, j + 1);
      }
    }
  }

  /** When every page arrives, the result is page 1's (transformed) data
      followed by the raw data of pages 2..n in ascending order, and its
      length is the sum of the page lengths. `parse_json` is not applied to
      pages 2..n. */
  lemma PaginatedMerge<R>(url: string, fetch: string -> Result<Response<R>>,
                          transform: Option<Response<R> -> Result<Response<R>>>, first: Response<R>, data: Response<R>, pages: int)
    requires fetch(url) == Ok(first) && IsPaginated(first)
    requires ApplyTransform(first, transform) == Ok(data) && PageCount(data) == Ok(pages)
    requires forall k :: 2 <= k <= pages ==> fetch(PageUrl(url, k)).Ok?
    ensures var rest := DataOf(PageFetches(url, fetch, pages));
      && CollectSpec(url, fetch, transform).result == Ok(Merged(data.data + Flatten(rest)))
      && |data.data + Flatten(rest)| == |data.data| + TotalLength(rest)
      && |rest| == Extra(pages)
      && forall k :: 2 <= k <= pages ==> rest[k - 2] == fetch(PageUrl(url, k)).value.data
  {
    var outs := PageFetches(url, fetch, pages);
    assert forall i :: 0 <= i < |outs| ==> outs[i].Ok? by {
      forall i | 0 <= i < |outs| ensures outs[i].Ok? {
        assert outs[i] == fetch(PageUrl(url, i + 2));
      }
    }
    var rest := DataOf(outs);
    FlattenConcat([data.data], rest);
    assert Flatten([data.data]) == data.data by {
      assert [data.data][..0] == [];
    }
    FlattenLength(rest);
  }

  /** A page that fails fails the whole collection: no partial result is
      returned, the error is one of the page errors, and every page request
      has still been made. */
  lemma FailedPageFailsAll<R>(url: string, fetch: string -> Result<Response<R>>,
                              transform: Option<Response<R> -> Result<Response<R>>>, first: Response<R>, data: Response<R>, pages: int, k: int)
    requires fetch(url) == Ok(first) && IsPaginated(first)
    requires ApplyTransform(first, transform) == Ok(data) && PageCount(data) == Ok(pages)
    requires 2 <= k <= pages && fetch(PageUrl(url, k)).Err?
    ensures var run := CollectSpec(url, fetch, transform);
      && run.result.Err?
      && Err(run.result.error) in PageFetches(url, fetch, pages)
      // the error of the lowest failing page, page i + 2
      && (exists i :: LowestFailure(PageFetches(url, fetch, pages), i, run.result.error))
      && run.requests == [url] + ExtraPageUrls(url, pages)
  {
    var outs := PageFetches(url, fetch, pages);
    assert outs[k - 2] == fetch(PageUrl(url, k));
  }

  /** The page count is the ceiling of total / per_page: for a positive page
      size, the least n with n * per_page >= total. */
  lemma PageCountIsCeiling<R>(resp: Response<R>, total: int, perPage: int)
    requires CountField(resp, Total) == Ok(Some(total)) && CountField(resp, PerPage) == Ok(Some(perPage))
    requires perPage > 0
    ensures PageCount(resp).Ok?
    ensures var n := PageCount(resp).value; (n - 1) * perPage < total <= n * perPage
  {
  }
}
