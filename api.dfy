/**
 * The `API` class of `api.js`: which requests count as "in flight", the
 * request and response interceptors that attach the CSRF header and move the
 * unsaved-changes counter, the token check of the constructor, the draining
 * of paginated results and the expansion of array parameters that precedes
 * query-string encoding.
 *
 * The HTTP transport is abstract: a request's settlement is a value, and
 * `getAllJSONResults` is given the responses its successive requests get.
 */
module Api {
  import opened Wrappers
  import opened JsValues
  import opened Ascii
  import Changes

  // ---------------------------------------------------------------------------
  // Which requests must resolve

  /** `/^(POST|PATCH|PUT|DELETE)$/i`: a mutating method, in any letter case. */
  predicate IsMutatingMethod(verb: string) {
    UpperString(verb) in {"POST", "PATCH", "PUT", "DELETE"}
  }

  /** `/^(GET|HEAD|OPTIONS|TRACE)$/i`: a method that needs no CSRF token. */
  predicate IsSafeMethod(verb: string) {
    UpperString(verb) in {"GET", "HEAD", "OPTIONS", "TRACE"}
  }

  /**
   * `API.requestMustResolve(config)`: a mutating request in any letter case,
   * or a read spelled exactly `GET` whose `critical` option is truthy.
   */
  function RequestMustResolve(verb: string, critical: JsValue): (r: bool)
    ensures r <==> EqualIgnoringCase(verb, "POST") || EqualIgnoringCase(verb, "PATCH")
                   || EqualIgnoringCase(verb, "PUT") || EqualIgnoringCase(verb, "DELETE")
                   || (verb == "GET" && Truthy(critical))
  {
    UpperStringEquals(verb, "POST");
    UpperStringEquals(verb, "PATCH");
    UpperStringEquals(verb, "PUT");
    UpperStringEquals(verb, "DELETE");
    IsMutatingMethod(verb) || (verb == "GET" && Truthy(critical))
  }

  /** The request interceptor sets a CSRF header for every method but the four safe ones. */
  function NeedsCsrfHeader(verb: string): (r: bool)
    ensures r <==> !(EqualIgnoringCase(verb, "GET") || EqualIgnoringCase(verb, "HEAD")
                     || EqualIgnoringCase(verb, "OPTIONS") || EqualIgnoringCase(verb, "TRACE"))
  {
    UpperStringEquals(verb, "GET");
    UpperStringEquals(verb, "HEAD");
    UpperStringEquals(verb, "OPTIONS");
    UpperStringEquals(verb, "TRACE");
    !IsSafeMethod(verb)
  }

  /** Only an exact upper-case `GET` makes a critical read count; other spellings do not. */
  lemma CriticalGetIsCaseSensitive(critical: JsValue)
    requires Truthy(critical)
    ensures RequestMustResolve("GET", critical)
    ensures !RequestMustResolve("get", critical) && !RequestMustResolve("Get", critical)
    ensures !RequestMustResolve("GET", Bool(false)) && !RequestMustResolve("GET", Undefined)
  {
    assert UpperString("get") == "GET" && UpperString("Get") == "GET";
  }

  /** Mutating methods count whatever their case and whatever `critical` says. */
  lemma MutatingIgnoresCase(critical: JsValue)
    ensures RequestMustResolve("post", critical) && RequestMustResolve("Patch", critical)
    ensures RequestMustResolve("put", critical) && RequestMustResolve("DeLeTe", critical)
  {
  }

  /** A request that must resolve and is not a critical read always carries the CSRF header. */
  lemma MustResolveImpliesCsrf(verb: string, critical: JsValue)
    requires RequestMustResolve(verb, critical) && verb != "GET"
    ensures NeedsCsrfHeader(verb)
  {
  }

  // ---------------------------------------------------------------------------
  // The constructor

  /** What the constructor returns (the HTTP client itself is not modelled). */
  datatype Client = Client(csrfToken: string)

  /** `new API(csrfToken)`: a missing, empty or non-string token throws. */
  function NewApi(csrfToken: JsValue): (r: Result<Client, Exception>)
    ensures r.Ok? <==> csrfToken.Str? && csrfToken.s != ""
    ensures r.Ok? ==> r.value.csrfToken == csrfToken.s
  {
    if !Truthy(csrfToken) || !IsString(csrfToken) then Err(Error("csrf token missing"))
    else Ok(Client(csrfToken.s))
  }

  // ---------------------------------------------------------------------------
  // The interceptors

  /** The request configuration the interceptors see; its headers are changed in place. */
  class RequestConfig {
    const verb: string
    const critical: JsValue
    var headers: map<string, JsValue>

    constructor(verb: string, critical: JsValue, headers: map<string, JsValue>)
      ensures this.verb == verb && this.critical == critical && this.headers == headers
    {
      this.verb := verb;
      this.critical := critical;
      this.headers := headers;
    }
  }

  /** `{'X-CSRFToken': csrfToken}`. */
  function CsrfHeader(csrfToken: string): JsValue {
    Obj(map["X-CSRFToken" := Str(csrfToken)])
  }

  /** How much the request interceptor raises the counter. */
  function RequestDelta(verb: string, critical: JsValue): int {
    if RequestMustResolve(verb, critical) then 1 else 0
  }

  /**
   * `API.requestInterceptors(config, csrfToken)`: raises the counter for a
   * request that must resolve and files the token under `headers[method]`
   * for a method that is not safe. It returns the same configuration.
   */
  method RequestInterceptor(config: RequestConfig, csrfToken: string, changes: Changes.Tracker) returns (r: RequestConfig)
    modifies config, changes`inFlightRequestCount
    ensures r == config
    ensures changes.inFlightRequestCount == old(changes.inFlightRequestCount) + RequestDelta(config.verb, config.critical)
    ensures config.headers == if NeedsCsrfHeader(config.verb)
                              then old(config.headers)[config.verb := CsrfHeader(csrfToken)]
                              else old(config.headers)
  {
    if RequestMustResolve(config.verb, config.critical) {
      changes.IncrementInFlight();
    }
    if NeedsCsrfHeader(config.verb) {
      config.headers := config.headers[config.verb := CsrfHeader(csrfToken)];
    }
    r := config;
  }

  /** How a request settles: a response carrying its configuration, or a rejection. */
  datatype Settlement = Fulfilled(config: RequestConfig, data: JsValue) | Rejected(reason: JsValue)

  /** How much settling moves the counter: only a fulfilled request that must resolve lowers it. */
  function SettleDelta(s: Settlement): int {
    match s
    case Fulfilled(config, _) => if RequestMustResolve(config.verb, config.critical) then -1 else 0
    case Rejected(_) => 0
  }

  /**
   * The response interceptor pair: `API.responseInterceptors` on success
   * lowers the counter for a request that must resolve; the rejection
   * handler only passes the rejection on.
   */
  method ResponseInterceptor(s: Settlement, changes: Changes.Tracker) returns (r: Settlement)
    modifies changes`inFlightRequestCount
    ensures r == s
    ensures changes.inFlightRequestCount == old(changes.inFlightRequestCount) + SettleDelta(s)
  {
    if s.Fulfilled? && RequestMustResolve(s.config.verb, s.config.critical) {
      changes.DecrementInFlight();
    }
    r := s;
  }

  /** A request that must resolve and succeeds leaves the counter where it was. */
  lemma FulfilledRoundTrip(config: RequestConfig, data: JsValue)
    ensures RequestDelta(config.verb, config.critical) + SettleDelta(Fulfilled(config, data)) == 0
  {
  }

  /** A request that must resolve and fails leaves the counter one higher. */
  lemma RejectedStaysInFlight(config: RequestConfig, reason: JsValue)
    requires RequestMustResolve(config.verb, config.critical)
    ensures RequestDelta(config.verb, config.critical) + SettleDelta(Rejected(reason)) == 1
  {
  }

  /** A client: a mutating request is intercepted and then rejected. */
  method FailedMutation(changes: Changes.Tracker, csrfToken: string, reason: JsValue)
    modifies changes`inFlightRequestCount
    ensures changes.inFlightRequestCount == old(changes.inFlightRequestCount) + 1
  {
    var config := new RequestConfig("post", Undefined, map[]);
    var sent := RequestInterceptor(config, csrfToken, changes);
    assert "X-CSRFToken" in sent.headers["post"].fields;
    var settled := ResponseInterceptor(Rejected(reason), changes);
  }

  // ---------------------------------------------------------------------------
  // Draining paginated results

  /** `Number.MAX_SAFE_INTEGER`, the page size asked for. */
  const MaxSafeInteger: int := 9007199254740991

  /** What one request of the drain gets: a response's `data`, or a rejection. */
  datatype Fetch = Response(data: JsValue) | Failed(reason: JsValue)

  /**
   * How draining ends without a result: something threw, a request was
   * rejected, or the transport has no response for a further request.
   */
  datatype DrainError = Thrown(exception: Exception) | Rejection(reason: JsValue) | Unanswered

  /** A response with the pagination shape: a defined `next` and an array `results`. */
  predicate IsPage(data: JsValue) {
    !IsNullish(data) && Prop(data, "next") != Undefined && Prop(data, "results").Arr?
  }

  predicate FollowsNext(f: Fetch) {
    f.Response? && IsPage(f.data) && Prop(f.data, "next") != Null
  }

  predicate IsLastPage(f: Fetch) {
    f.Response? && IsPage(f.data) && Prop(f.data, "next") == Null
  }

  /** The `results` of a page; nothing for anything else. */
  function PageResults(f: Fetch): seq<JsValue> {
    if f.Response? && IsPage(f.data) then Prop(f.data, "results").items else []
  }

  /** The `results` of the given pages, one after the other. */
  function AllResults(pages: seq<Fetch>): seq<JsValue> {
    if pages == [] then [] else PageResults(pages[0]) + AllResults(pages[1..])
  }

  /** The final value: `{data: {...data, results}}` for the last page and everything gathered. */
  function Drained(last: JsValue, results: seq<JsValue>): JsValue {
    Obj(map["data" := Obj(OwnProperties(last)["results" := Arr(results)])])
  }

  /** `{...config.params || {}, page_size: Number.MAX_SAFE_INTEGER}`. */
  function WithMaxPageSize(params: JsValue): JsValue {
    Obj((if Truthy(params) then OwnProperties(params) else map[])["page_size" := Num(MaxSafeInteger)])
  }

  /** Every request of the drain asks for the same parameters. */
  lemma WithMaxPageSizeIdempotent(params: JsValue)
    ensures WithMaxPageSize(WithMaxPageSize(params)) == WithMaxPageSize(params)
  {
  }

  /** The recursion of `getAllJSONResults`, over the responses its requests get. */
  function DrainPages(pages: seq<Fetch>, results: seq<JsValue>): Result<JsValue, DrainError>
    decreases |pages|
  {
    if pages == [] then Err(Unanswered)
    else match pages[0]
      case Failed(reason) => Err(Rejection(reason))
      case Response(data) =>
        if !IsPage(data) then Err(Thrown(TypeError("not a pagination page")))
        else
          var gathered := results + Prop(data, "results").items;
          if Prop(data, "next") == Null then Ok(Drained(data, gathered))
          else DrainPages(pages[1..], gathered)
  }

  /** Draining stops at the first page whose `next` is null, with every page's results in order. */
  lemma {:induction false} DrainReachesLastPage(pages: seq<Fetch>, results: seq<JsValue>, k: nat)
    requires k < |pages| && IsLastPage(pages[k])
    requires forall i :: 0 <= i < k ==> FollowsNext(pages[i])
    ensures DrainPages(pages, results) == Ok(Drained(pages[k].data, results + AllResults(pages[..k + 1])))
    decreases k
  {
    var gathered := results + PageResults(pages[0]);
    var prefix := pages[..k + 1];
    assert prefix[0] == pages[0];
    assert AllResults(prefix) == PageResults(pages[0]) + AllResults(prefix[1..]);
    if k == 0 {
      assert prefix[1..] == [];
      assert AllResults(prefix) == PageResults(pages[0]);
      assert DrainPages(pages, results) == Ok(Drained(pages[0].data, gathered));
    } else {
      DrainReachesLastPage(pages[1..], gathered, k - 1);
      assert pages[1..][..k] == prefix[1..];
      assert results + AllResults(prefix) == gathered + AllResults(prefix[1..]);
    }
  }

  /** A response without the pagination shape, reached by following `next`, raises a TypeError. */
  lemma {:induction false} DrainRejectsMalformedPage(pages: seq<Fetch>, results: seq<JsValue>, k: nat)
    requires k < |pages| && pages[k].Response? && !IsPage(pages[k].data)
    requires forall i :: 0 <= i < k ==> FollowsNext(pages[i])
    ensures DrainPages(pages, results).Err? && DrainPages(pages, results).error.Thrown?
    ensures DrainPages(pages, results).error.exception.TypeError?
    decreases k
  {
    if k > 0 {
      DrainRejectsMalformedPage(pages[1..], results + PageResults(pages[0]), k - 1);
    }
  }

  /** A successful drain always ended on a page whose `next` was null, after following all earlier ones. */
  lemma {:induction false} DrainOkHasLastPage(pages: seq<Fetch>, results: seq<JsValue>)
    requires DrainPages(pages, results).Ok?
    ensures exists k :: 0 <= k < |pages| && IsLastPage(pages[k]) && forall i :: 0 <= i < k ==> FollowsNext(pages[i])
    decreases |pages|
  {
    if !IsLastPage(pages[0]) {
      DrainOkHasLastPage(pages[1..], results + PageResults(pages[0]));
      var k :| 0 <= k < |pages[1..]| && IsLastPage(pages[1..][k]) && forall i :: 0 <= i < k ==> FollowsNext(pages[1..][i]);
      assert IsLastPage(pages[k + 1]);
      assert forall i :: 0 <= i < k + 1 ==> FollowsNext(pages[i]) by {
        forall i | 0 < i < k + 1 ensures FollowsNext(pages[i]) {
          assert pages[i] == pages[1..][i - 1];
        }
      }
    }
  }

  /**
   * `requested` is the drain's URLs so far: the first one, then the `next`
   * of each page whose `next` was followed, in order.
   */
  predicate RequestChain(url: JsValue, pages: seq<Fetch>, requested: seq<JsValue>) {
    && 0 < |requested| <= |pages| + 1
    && requested[0] == url
    && forall j :: 0 <= j < |requested| - 1 ==> FollowsNext(pages[j]) && requested[j + 1] == Prop(pages[j].data, "next")
  }

  lemma RequestChainExtend(url: JsValue, pages: seq<Fetch>, requested: seq<JsValue>)
    requires RequestChain(url, pages, requested) && |requested| <= |pages|
    requires FollowsNext(pages[|requested| - 1])
    ensures RequestChain(url, pages, requested + [Prop(pages[|requested| - 1].data, "next")])
  {
    var extended := requested + [Prop(pages[|requested| - 1].data, "next")];
    forall j | 0 <= j < |extended| - 1
      ensures FollowsNext(pages[j]) && extended[j + 1] == Prop(pages[j].data, "next")
    {
      if j < |requested| - 1 {
        assert extended[j + 1] == requested[j + 1];
      }
    }
  }

  /**
   * The chain ends where the drain ends: either every response was used up,
   * or the last URL requested got a response whose `next` is not followed.
   */
  predicate ChainStops(pages: seq<Fetch>, requested: seq<JsValue>) {
    0 < |requested| <= |pages| ==> !FollowsNext(pages[|requested| - 1])
  }

  /** The responses fix the URLs requested: two stopped chains from one URL are the same. */
  lemma RequestChainUnique(url: JsValue, pages: seq<Fetch>, a: seq<JsValue>, b: seq<JsValue>)
    requires RequestChain(url, pages, a) && ChainStops(pages, a)
    requires RequestChain(url, pages, b) && ChainStops(pages, b)
    ensures a == b
  {
    if |a| != |b| {
      // the shorter chain stopped at a page the longer one followed
      assert false;
    }
    forall j | 0 <= j < |a|
      ensures a[j] == b[j]
    {
      if j > 0 {
        assert a[j] == Prop(pages[j - 1].data, "next") == b[j];
      }
    }
  }

  /** The request options `getAllJSONResults` is given; it rewrites their `params` in place. */
  class RequestOptions {
    var params: JsValue

    constructor(params: JsValue)
      ensures this.params == params
    {
      this.params := params;
    }
  }

  /**
   * `api.getAllJSONResults(url, config, results)`: asks for the largest page
   * size, follows `next` until it is null and gathers every page's results.
   * `pages[i]` is what the `i`-th request gets; `requested` lists the URLs
   * asked for, the first one and then each `next` that was followed.
   */
  method GetAllJsonResults(url: JsValue, config: RequestOptions, results: seq<JsValue>, pages: seq<Fetch>)
    returns (r: Result<JsValue, DrainError>, requested: seq<JsValue>)
    modifies config
    ensures r == DrainPages(pages, results)
    ensures config.params == WithMaxPageSize(old(config.params))
    ensures RequestChain(url, pages, requested) && ChainStops(pages, requested)
    ensures r.Ok? ==> |requested| <= |pages| && IsLastPage(pages[|requested| - 1])
    ensures |requested| == |pages| + 1 <==> r == Err(Unanswered)
  {
    config.params := WithMaxPageSize(config.params);
    var gathered := results;
    var i := 0;
    requested := [url];
    while true
      invariant 0 <= i <= |pages|
      invariant DrainPages(pages[i..], gathered) == DrainPages(pages, results)
      invariant config.params == WithMaxPageSize(old(config.params))
      invariant |requested| == i + 1 && RequestChain(url, pages, requested)
      decreases |pages| - i
    {
      if i == |pages| {
        return Err(Unanswered), requested;
      }
      match pages[i]
      case Failed(reason) =>
        return Err(Rejection(reason)), requested;
      case Response(data) =>
        if !IsPage(data) {
          r := Err(Thrown(TypeError("not a pagination page")));
          return;
        }
        gathered := gathered + Prop(data, "results").items;
        if Prop(data, "next") == Null {
          return Ok(Drained(data, gathered)), requested;
        }
        assert pages[i..][1..] == pages[i + 1..];
        assert FollowsNext(pages[i]);
        RequestChainExtend(url, pages, requested);
        requested := requested + [Prop(data, "next")];
        WithMaxPageSizeIdempotent(old(config.params));
        config.params := WithMaxPageSize(config.params);
        i := i + 1;
    }
  }

  // ---------------------------------------------------------------------------
  // The params serializer, up to (not including) the form-urlencoded encoding

  /** The name/value pairs one parameter contributes: one per element of an array, else one. */
  function ParamPairs(key: string, param: JsValue): seq<(string, string)> {
    if param.Arr? then seq(|param.items|, i requires 0 <= i < |param.items| => (key, ToJsString(param.items[i])))
    else [(key, ToJsString(param))]
  }

  /** The pairs appended to the `URLSearchParams`, for the parameters' entries in order. */
  function ExpandParams(entries: seq<(string, JsValue)>): seq<(string, string)> {
    if entries == [] then [] else ParamPairs(entries[0].0, entries[0].1) + ExpandParams(entries[1..])
  }

  /** Expanding distributes over concatenation of the entries. */
  lemma {:induction false} ExpandParamsAppend(a: seq<(string, JsValue)>, b: seq<(string, JsValue)>)
    ensures ExpandParams(a + b) == ExpandParams(a) + ExpandParams(b)
    decreases |a|
  {
    if a == [] {
      assert a + b == b;
    } else {
      assert (a + b)[0] == a[0];
      assert (a + b)[1..] == a[1..] + b;
      ExpandParamsAppend(a[1..], b);
    }
  }

  /** Expanding one more entry appends that entry's pairs. */
  lemma ExpandParamsPrefix(entries: seq<(string, JsValue)>, i: nat)
    requires i < |entries|
    ensures ExpandParams(entries[..i + 1]) == ExpandParams(entries[..i]) + ParamPairs(entries[i].0, entries[i].1)
  {
    ExpandParamsAppend(entries[..i], [entries[i]]);
    assert entries[..i + 1] == entries[..i] + [entries[i]];
    assert [entries[i]][1..] == [];
  }

  /** Parameters holding no array are kept one pair each, in order. */
  lemma {:induction false} ExpandScalars(entries: seq<(string, JsValue)>)
    requires forall i :: 0 <= i < |entries| ==> !entries[i].1.Arr?
    ensures |ExpandParams(entries)| == |entries|
    ensures forall i :: 0 <= i < |entries| ==> ExpandParams(entries)[i] == (entries[i].0, ToJsString(entries[i].1))
  {
    if entries != [] {
      ExpandScalars(entries[1..]);
    }
  }

  /** An array parameter becomes one pair per element, repeating the key, in element order. */
  lemma ExpandArray(key: string, items: seq<JsValue>)
    ensures ExpandParams([(key, Arr(items))]) == seq(|items|, i requires 0 <= i < |items| => (key, ToJsString(items[i])))
  {
    assert [(key, Arr(items))][1..] == [];
  }

  /** `paramsSerializer(params)` up to `searchParams.toString()`: the pairs it appends, in order. */
  method SerializeParams(entries: seq<(string, JsValue)>) returns (pairs: seq<(string, string)>)
    ensures pairs == ExpandParams(entries)
  {
    pairs := [];
    var i := 0;
    while i < |entries|
      invariant 0 <= i <= |entries|
      invariant pairs == ExpandParams(entries[..i])
    {
      var (key, param) := entries[i];
      if param.Arr? {
        var j := 0;
        while j < |param.items|
          invariant 0 <= j <= |param.items|
          invariant pairs == ExpandParams(entries[..i]) + ParamPairs(key, param)[..j]
        {
          pairs := pairs + [(key, ToJsString(param.items[j]))];
          j := j + 1;
        }
        assert ParamPairs(key, param)[..j] == ParamPairs(key, param);
      } else {
        pairs := pairs + [(key, ToJsString(param))];
      }
      ExpandParamsPrefix(entries, i);
      i := i + 1;
    }
    assert entries[..i] == entries;
  }
}
