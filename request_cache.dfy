/**
  `RequestCache`: raw page bodies keyed by URL. The batch fetcher is the
  class's `fetch` function (one body per requested URL is what it is meant to
  return), the HTML parser its `parse` function, and every batch handed to the
  fetcher is logged in `calls`.
*/
module Cache {
  import opened Wrappers
  import opened Html

  /** `[x for x in urls if x not in cache]`: the URLs without a stored body, in input order, repeats kept. */
  function Missing(m: map<string, string>, urls: seq<string>): seq<string> {
    if urls == [] then []
    else (if urls[0] in m then [] else [urls[0]]) + Missing(m, urls[1..])
  }

  /** Exactly the uncached input URLs are missing, so nothing is missing when every input URL is cached. */
  lemma {:induction false} MissingSpec(m: map<string, string>, urls: seq<string>)
    ensures |Missing(m, urls)| <= |urls|
    ensures forall u :: u in Missing(m, urls) <==> u in urls && u !in m
    ensures Missing(m, urls) == [] <==> forall u :: u in urls ==> u in m
  {
    if urls != [] {
      MissingSpec(m, urls[1..]);
      assert forall u :: u in urls <==> u == urls[0] || u in urls[1..];
    }
  }

  /** Filtering keeps input order: the missing URLs of a concatenation are those of each part, in turn. */
  lemma {:induction false} MissingAppend(m: map<string, string>, a: seq<string>, b: seq<string>)
    ensures Missing(m, a + b) == Missing(m, a) + Missing(m, b)
  {
    if a != [] {
      var head := if a[0] in m then [] else [a[0]];
      assert (a + b)[0] == a[0] && (a + b)[1..] == a[1..] + b;
      calc {
        Missing(m, a + b);
        head + Missing(m, a[1..] + b);
        { MissingAppend(m, a[1..], b); }
        head + (Missing(m, a[1..]) + Missing(m, b));
        (head + Missing(m, a[1..])) + Missing(m, b);
      }
    } else {
      assert a + b == b;
    }
  }

  /**
    The `zip` loop of `getMany`: each request is stored with the response at
    the same position, stopping at the shorter list; of two equal requests the
    later one's response stays.
  */
  function StoreAll(m: map<string, string>, reqs: seq<string>, ress: seq<string>): map<string, string>
    decreases |reqs|
  {
    if reqs == [] || ress == [] then m
    else StoreAll(m[reqs[0] := ress[0]], reqs[1..], ress[1..])
  }

  /**
    With a response for every request, storing adds exactly the requested URLs,
    leaves every other entry as it was, and gives each requested URL the
    response paired with its last occurrence.
  */
  lemma {:induction false} StoreAllSpec(m: map<string, string>, reqs: seq<string>, ress: seq<string>)
    requires |ress| >= |reqs|
    ensures StoreAll(m, reqs, ress).Keys == m.Keys + set u | u in reqs
    ensures forall u :: u in m && u !in reqs ==> StoreAll(m, reqs, ress)[u] == m[u]
    ensures forall i :: 0 <= i < |reqs| && reqs[i] !in reqs[i + 1..] ==> StoreAll(m, reqs, ress)[reqs[i]] == ress[i]
    decreases |reqs|
  {
    if reqs != [] {
      StoreAllSpec(m[reqs[0] := ress[0]], reqs[1..], ress[1..]);
      var r := StoreAll(m, reqs, ress);
      forall i | 0 <= i < |reqs| && reqs[i] !in reqs[i + 1..]
        ensures r[reqs[i]] == ress[i]
      {
        if i > 0 {
          assert reqs[1..][i - 1] == reqs[i] && reqs[1..][i..] == reqs[i + 1..];
        } else {
          assert reqs[0] !in reqs[1..];
        }
      }
      assert forall u :: u in reqs <==> u == reqs[0] || u in reqs[1..];
    }
  }

  /**
    `[BeautifulSoup(self.cache[x]) for x in urls]`: one parsed page per URL, in
    input order; the first URL without a stored body raises `KeyError`.
  */
  function Docs(parse: string -> Element, m: map<string, string>, urls: seq<string>): (r: Result<seq<Element>>)
    ensures r.Success? <==> forall u :: u in urls ==> u in m
    ensures r.Success? ==> |r.value| == |urls|
    ensures r.Success? ==> forall i :: 0 <= i < |urls| ==> r.value[i] == parse(m[urls[i]])
    ensures r.Failure? ==> r.error.KeyError? && r.error.key in urls && r.error.key !in m
  {
    if urls == [] then Success([])
    else if urls[0] !in m then Failure(KeyError(urls[0]))
    else
      match Docs(parse, m, urls[1..])
      case Failure(e) => Failure(e)
      case Success(rest) =>
        assert forall i :: 1 <= i < |urls| ==> urls[i] == urls[1..][i - 1];
        Success([parse(m[urls[0]])] + rest)
  }

  /** The bodies `getMany` asks the fetcher for: none when nothing is missing. */
  function Responses(fetch: seq<string> -> seq<string>, missing: seq<string>): seq<string> {
    if |missing| > 0 then fetch(missing) else []
  }

  /** The batches `getMany` hands the fetcher: the missing URLs once, or nothing. */
  function ManyCalls(m: map<string, string>, urls: seq<string>): seq<seq<string>> {
    var missing := Missing(m, urls);
    if |missing| > 0 then [missing] else []
  }

  /** The store after `getMany(urls)` from `m`. */
  function ManyAfter(fetch: seq<string> -> seq<string>, m: map<string, string>, urls: seq<string>): map<string, string> {
    var missing := Missing(m, urls);
    StoreAll(m, missing, Responses(fetch, missing))
  }

  /** What `getMany(urls)` returns from `m`. */
  function ManyResult(fetch: seq<string> -> seq<string>, parse: string -> Element,
                      m: map<string, string>, urls: seq<string>): Result<seq<Element>> {
    Docs(parse, ManyAfter(fetch, m, urls), urls)
  }

  /**
    `getMany` with a fetcher that returns one body per requested URL: every
    input URL is cached afterwards and nothing cached before changes.
  */
  lemma GetManyStore(fetch: seq<string> -> seq<string>, m: map<string, string>, urls: seq<string>)
    requires |Responses(fetch, Missing(m, urls))| == |Missing(m, urls)|
    ensures forall u :: u in ManyAfter(fetch, m, urls) <==> u in m || u in urls
    ensures forall u :: u in m ==> u in ManyAfter(fetch, m, urls) && ManyAfter(fetch, m, urls)[u] == m[u]
  {
    var missing := Missing(m, urls);
    MissingSpec(m, urls);
    StoreAllSpec(m, missing, Responses(fetch, missing));
  }

  /**
    Each URL that `getMany` fetched holds the body the fetcher returned for
    its last occurrence in the batch.
  */
  lemma GetManyStoresFetched(fetch: seq<string> -> seq<string>, m: map<string, string>, urls: seq<string>, i: nat)
    requires |Responses(fetch, Missing(m, urls))| == |Missing(m, urls)|
    requires i < |Missing(m, urls)| && Missing(m, urls)[i] !in Missing(m, urls)[i + 1..]
    ensures Missing(m, urls)[i] in ManyAfter(fetch, m, urls)
    ensures ManyAfter(fetch, m, urls)[Missing(m, urls)[i]] == fetch(Missing(m, urls))[i]
  {
    var missing := Missing(m, urls);
    StoreAllSpec(m, missing, Responses(fetch, missing));
  }

  /**
    With a fetcher that returns one body per requested URL, `getMany` returns
    one page per input URL, in input order, each parsed from the body now
    stored for that URL.
  */
  lemma GetManyResult(fetch: seq<string> -> seq<string>, parse: string -> Element,
                      m: map<string, string>, urls: seq<string>)
    requires |Responses(fetch, Missing(m, urls))| == |Missing(m, urls)|
    ensures ManyResult(fetch, parse, m, urls).Success?
    ensures |ManyResult(fetch, parse, m, urls).value| == |urls|
    ensures forall i :: 0 <= i < |urls| ==> urls[i] in ManyAfter(fetch, m, urls)
    ensures forall i :: 0 <= i < |urls| ==>
              ManyResult(fetch, parse, m, urls).value[i] == parse(ManyAfter(fetch, m, urls)[urls[i]])
  {
    GetManyStore(fetch, m, urls);
  }

  /** With every URL already cached, `getMany` makes no fetch and leaves the store unchanged. */
  lemma GetManyAllCached(fetch: seq<string> -> seq<string>, m: map<string, string>, urls: seq<string>)
    requires forall u :: u in urls ==> u in m
    ensures ManyCalls(m, urls) == []
    ensures ManyAfter(fetch, m, urls) == m
  {
    MissingSpec(m, urls);
  }

  /** The store after `getOne(url)` from `m`: unchanged on a hit or when the fetcher returns nothing. */
  function OneAfter(fetch: seq<string> -> seq<string>, m: map<string, string>, url: string): map<string, string> {
    if url in m then m
    else if |fetch([url])| > 0 then m[url := fetch([url])[0]]
    else m
  }

  /** What `getOne(url)` returns from `m`; indexing an empty fetcher answer raises `IndexError`. */
  function OneResult(fetch: seq<string> -> seq<string>, parse: string -> Element,
                     m: map<string, string>, url: string): Result<Element> {
    if url in m then Success(parse(m[url]))
    else if |fetch([url])| > 0 then Success(parse(fetch([url])[0]))
    else Failure(IndexError("async_urlopen([url])[0]"))
  }

  /** The batch `getOne(url)` hands the fetcher: `[url]` on a miss, nothing on a hit. */
  function OneCalls(m: map<string, string>, url: string): seq<seq<string>> {
    if url in m then [] else [[url]]
  }

  /**
    Two `getOne` calls with the same URL fetch at most once, and the second
    returns what the first did from the store it left.
  */
  lemma GetOneTwice(fetch: seq<string> -> seq<string>, parse: string -> Element,
                    m: map<string, string>, url: string)
    requires OneResult(fetch, parse, m, url).Success?
    ensures OneCalls(OneAfter(fetch, m, url), url) == []
    ensures |OneCalls(m, url) + OneCalls(OneAfter(fetch, m, url), url)| <= 1
    ensures OneAfter(fetch, OneAfter(fetch, m, url), url) == OneAfter(fetch, m, url)
    ensures OneResult(fetch, parse, OneAfter(fetch, m, url), url) == OneResult(fetch, parse, m, url)
  {
  }

  class RequestCache {
    /** The batch fetcher: the page body for each requested URL. */
    const fetch: seq<string> -> seq<string>
    /** The HTML parser, from a body to the parsed page. */
    const parse: string -> Element
    /** The stored bodies, keyed by the exact request URL. */
    var cache: map<string, string>
    /** Every batch of URLs handed to the fetcher, oldest first. */
    ghost var calls: seq<seq<string>>

    /** Opening the store: `stored` is what earlier runs left in it. */
    constructor (fetch: seq<string> -> seq<string>, parse: string -> Element, stored: map<string, string>)
      ensures this.fetch == fetch && this.parse == parse
      ensures cache == stored && calls == []
    {
      this.fetch := fetch;
      this.parse := parse;
      cache := stored;
      calls := [];
    }

    /** `getOne`: a hit returns the stored body's page without fetching; a miss fetches `[url]` once and stores the body. */
    method GetOne(url: string) returns (r: Result<Element>)
      modifies this
      ensures old(url in cache) ==> cache == old(cache) && calls == old(calls) && r == Success(parse(cache[url]))
      ensures old(url !in cache) ==> calls == old(calls) + [[url]]
      ensures old(url !in cache) && |fetch([url])| > 0 ==>
                cache == old(cache)[url := fetch([url])[0]] && r == Success(parse(fetch([url])[0]))
      ensures cache == OneAfter(fetch, old(cache), url) && calls == old(calls) + OneCalls(old(cache), url)
      ensures r == OneResult(fetch, parse, old(cache), url)
    {
      if url !in cache {
        var responses := fetch([url]);
        calls := calls + [[url]];
        if |responses| == 0 {
          return Failure(IndexError("async_urlopen([url])[0]"));
        }
        cache := cache[url := responses[0]];
      }
      r := Success(parse(cache[url]));
    }

    /**
      `getMany`: one fetcher batch of exactly the uncached URLs (none when all
      are cached), their bodies stored, then one page per input URL.
    */
    method GetMany(urls: seq<string>) returns (r: Result<seq<Element>>)
      modifies this
      ensures calls == old(calls) + ManyCalls(old(cache), urls)
      ensures cache == ManyAfter(fetch, old(cache), urls)
      ensures r == Docs(parse, cache, urls)
    {
      var notCached := Missing(cache, urls);
      var responses := [];
      if |notCached| > 0 {
        responses := fetch(notCached);
        calls := calls + [notCached];
      }
      var i := 0;
      while i < |notCached| && i < |responses|
        invariant 0 <= i <= |notCached| && i <= |responses|
        invariant calls == old(calls) + ManyCalls(old(cache), urls)
        invariant StoreAll(cache, notCached[i..], responses[i..]) == StoreAll(old(cache), notCached, responses)
      {
        cache := cache[notCached[i] := responses[i]];
        i := i + 1;
      }
      r := Docs(parse, cache, urls);
    }
  }

  /** A client of the class: fetching the same URL twice makes at most one fetcher call. */
  method FetchTwice(rc: RequestCache, url: string) returns (first: Result<Element>, second: Result<Element>)
    requires |rc.fetch([url])| > 0
    modifies rc
    ensures first == second && first.Success?
    ensures rc.calls == old(rc.calls) + OneCalls(old(rc.cache), url)
  {
    first := rc.GetOne(url);
    second := rc.GetOne(url);
  }
}
