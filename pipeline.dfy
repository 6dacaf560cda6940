/**
  `get_events` and `_get_event_details`: the index page is read through the
  cache, each table's event pages are fetched in one `getMany` batch, and the
  cards are merged into the records, scheduled events before past ones.
*/
module Pipeline {
  import opened Wrappers
  import opened Html
  import opened Cache
  import opened EventsListPage
  import EventPage

  /** An index record with its `fight_card`: `None` when it has no event page or its page has no results table. */
  datatype MergedEvent = MergedEvent(record: IndexRecord, fightCard: Option<seq<EventPage.FightEntry>>)

  /** `[e['event_url'] for e in events if e['event_url'] is not None]` */
  function Urls(events: seq<IndexRecord>): (r: seq<string>)
    ensures |r| <= |events|
  {
    if events == [] then []
    else (if events[0].eventUrl.Some? then [events[0].eventUrl.value] else []) + Urls(events[1..])
  }

  lemma {:induction false} UrlsAppend(a: seq<IndexRecord>, b: seq<IndexRecord>)
    ensures Urls(a + b) == Urls(a) + Urls(b)
  {
    if a == [] {
      assert a + b == b;
    } else {
      var head := if a[0].eventUrl.Some? then [a[0].eventUrl.value] else [];
      assert (a + b)[0] == a[0] && (a + b)[1..] == a[1..] + b;
      calc {
        Urls(a + b);
        head + Urls(a[1..] + b);
        { UrlsAppend(a[1..], b); }
        head + (Urls(a[1..]) + Urls(b));
        (head + Urls(a[1..])) + Urls(b);
      }
    }
  }

  /**
    Where the document iterator stands when event `i` is reached: the number
    of earlier events that have a URL. For an event with a URL it is the
    position of that URL in the batch handed to `getMany`.
  */
  function UrlIndex(events: seq<IndexRecord>, i: nat): (k: nat)
    requires i < |events|
    ensures k <= |Urls(events)|
    ensures events[i].eventUrl.Some? ==> k < |Urls(events)| && Urls(events)[k] == events[i].eventUrl.value
  {
    UrlsAppend(events[..i], events[i..]);
    assert events[..i] + events[i..] == events;
    assert events[i..][0] == events[i];
    |Urls(events[..i])|
  }

  /** Past the first event, the iterator position moves by one exactly when the first event has a URL. */
  lemma UrlIndexStep(events: seq<IndexRecord>, i: nat)
    requires 0 < i < |events|
    ensures UrlIndex(events, i) == (if events[0].eventUrl.Some? then 1 else 0) + UrlIndex(events[1..], i - 1)
  {
    assert events[..i][0] == events[0];
    assert events[..i][1..] == events[1..][..i - 1];
  }

  /**
    The loop of `_get_event_details` as a function: event by event, a record
    without a URL gets no card, and a record with one takes the next page of
    `docs` and the card read from it; a page that fails to parse aborts.
  */
  function MergeCards(events: seq<IndexRecord>, docs: seq<Element>): Result<seq<MergedEvent>>
    requires |docs| == |Urls(events)|
  {
    if events == [] then Success([])
    else
      var e := events[0];
      if e.eventUrl.None? then
        match MergeCards(events[1..], docs)
        case Failure(err) => Failure(err)
        case Success(rest) => Success([MergedEvent(e, None)] + rest)
      else
        match EventPage.GetJson(e.text, docs[0])
        case Failure(err) => Failure(err)
        case Success(card) =>
          match MergeCards(events[1..], docs[1..])
          case Failure(err) => Failure(err)
          case Success(rest) => Success([MergedEvent(e, card)] + rest)
  }

  /**
    Merging keeps the length and order of the records; a record without a URL
    gets no card; the record that is the k-th to have a URL gets the card read
    from the k-th page. The merge succeeds exactly when every such page parses.
  */
  lemma {:induction false} MergeCardsSpec(events: seq<IndexRecord>, docs: seq<Element>)
    requires |docs| == |Urls(events)|
    ensures MergeCards(events, docs).Success? <==>
              forall i :: 0 <= i < |events| && events[i].eventUrl.Some? ==>
                EventPage.GetJson(events[i].text, docs[UrlIndex(events, i)]).Success?
    ensures MergeCards(events, docs).Success? ==>
              && |MergeCards(events, docs).value| == |events|
              && forall i :: 0 <= i < |events| ==>
                   && MergeCards(events, docs).value[i].record == events[i]
                   && (events[i].eventUrl.None? ==> MergeCards(events, docs).value[i].fightCard == None)
                   && (events[i].eventUrl.Some? ==>
                         EventPage.GetJson(events[i].text, docs[UrlIndex(events, i)])
                           == Success(MergeCards(events, docs).value[i].fightCard))
  {
    if events != [] {
      var e := events[0];
      var rest := events[1..];
      var restDocs := if e.eventUrl.Some? then docs[1..] else docs;
      MergeCardsSpec(rest, restDocs);
      assert UrlIndex(events, 0) == 0;
      forall i | 0 < i < |events|
        ensures events[i] == rest[i - 1]
        ensures events[i].eventUrl.Some? ==> docs[UrlIndex(events, i)] == restDocs[UrlIndex(rest, i - 1)]
      {
        UrlIndexStep(events, i);
      }
    }
  }

  /** One step of the merge: the first record, then the merge of the rest. */
  lemma MergeCardsUnfold(events: seq<IndexRecord>, docs: seq<Element>)
    requires |docs| == |Urls(events)| && events != []
    ensures events[0].eventUrl.None? ==>
              && |docs| == |Urls(events[1..])|
              && MergeCards(events, docs) == Prepend([MergedEvent(events[0], None)], MergeCards(events[1..], docs))
    ensures events[0].eventUrl.Some? ==>
              && 0 < |docs| && |docs[1..]| == |Urls(events[1..])|
              && var card := EventPage.GetJson(events[0].text, docs[0]);
                 && (card.Failure? ==> MergeCards(events, docs) == Failure(card.error))
                 && (card.Success? ==>
                       MergeCards(events, docs)
                         == Prepend([MergedEvent(events[0], card.value)], MergeCards(events[1..], docs[1..])))
  {
  }

  /** A table's merge that succeeds keeps the records in order and gives no card to a record without a URL. */
  lemma DetailsKeepRecords(fetch: seq<string> -> seq<string>, parse: string -> Element,
                           m: map<string, string>, events: seq<IndexRecord>)
    requires DetailsResult(fetch, parse, m, events).Success?
    ensures KeepsRecords(DetailsResult(fetch, parse, m, events).value, events)
  {
    MergeCardsSpec(events, ManyResult(fetch, parse, m, Urls(events)).value);
  }

  /** What `_get_event_details` returns from the store `m`. */
  function DetailsResult(fetch: seq<string> -> seq<string>, parse: string -> Element,
                         m: map<string, string>, events: seq<IndexRecord>): Result<seq<MergedEvent>>
  {
    match ManyResult(fetch, parse, m, Urls(events))
    case Failure(e) => Failure(e)
    case Success(docs) => MergeCards(events, docs)
  }

  /**
    With a fetcher that returns one body per requested URL, the card of every
    record with a URL is the card read from the page now stored for that URL.
  */
  lemma DetailsUseStoredPages(fetch: seq<string> -> seq<string>, parse: string -> Element,
                              m: map<string, string>, events: seq<IndexRecord>)
    requires |Responses(fetch, Missing(m, Urls(events)))| == |Missing(m, Urls(events))|
    ensures var after := ManyAfter(fetch, m, Urls(events));
            && (forall i :: 0 <= i < |events| && events[i].eventUrl.Some? ==> events[i].eventUrl.value in after)
            && (DetailsResult(fetch, parse, m, events).Success? <==>
                  forall i :: 0 <= i < |events| && events[i].eventUrl.Some? ==>
                    EventPage.GetJson(events[i].text, parse(after[events[i].eventUrl.value])).Success?)
            && (DetailsResult(fetch, parse, m, events).Success? ==>
                  && |DetailsResult(fetch, parse, m, events).value| == |events|
                  && forall i :: 0 <= i < |events| && events[i].eventUrl.Some? ==>
                       EventPage.GetJson(events[i].text, parse(after[events[i].eventUrl.value]))
                         == Success(DetailsResult(fetch, parse, m, events).value[i].fightCard))
  {
    var urls := Urls(events);
    GetManyResult(fetch, parse, m, urls);
    var docs := ManyResult(fetch, parse, m, urls).value;
    MergeCardsSpec(events, docs);
    forall i | 0 <= i < |events| && events[i].eventUrl.Some?
      ensures docs[UrlIndex(events, i)] == parse(ManyAfter(fetch, m, urls)[events[i].eventUrl.value])
    {
    }
  }

  /** `Success(merged + rest)` when `r` succeeds with `rest`; `r`'s error otherwise. */
  function Prepend(merged: seq<MergedEvent>, r: Result<seq<MergedEvent>>): Result<seq<MergedEvent>> {
    match r
    case Success(rest) => Success(merged + rest)
    case Failure(e) => Failure(e)
  }

  /**
    The loop of `_get_event_details`: a walk over the records that hands the
    next fetched page (`next(events_data)`) to each record with a URL and no
    card to the others.
  */
  method AttachCards(events: seq<IndexRecord>, docs: seq<Element>) returns (r: Result<seq<MergedEvent>>)
    requires |docs| == |Urls(events)|
    ensures r == MergeCards(events, docs)
  {
    var merged: seq<MergedEvent> := [];
    var i, k := 0, 0;
    assert events[i..] == events && docs[k..] == docs;
    assert MergeCards(events, docs).Success? ==> [] + MergeCards(events, docs).value == MergeCards(events, docs).value;
    while i < |events|
      invariant 0 <= i <= |events| && 0 <= k <= |docs|
      invariant k + |Urls(events[i..])| == |docs|
      invariant MergeCards(events, docs) == Prepend(merged, MergeCards(events[i..], docs[k..]))
    {
      var e := events[i];
      assert events[i..][0] == e && events[i..][1..] == events[i + 1..];
      MergeCardsUnfold(events[i..], docs[k..]);
      if e.eventUrl.Some? {
        assert docs[k..][0] == docs[k] && docs[k..][1..] == docs[k + 1..];
        var card := EventPage.GetJson(e.text, docs[k]);
        if card.Failure? {
          return Failure(card.error);
        }
        MergedAppend(merged, MergedEvent(e, card.value), MergeCards(events[i + 1..], docs[k + 1..]));
        merged := merged + [MergedEvent(e, card.value)];
        k := k + 1;
      } else {
        MergedAppend(merged, MergedEvent(e, None), MergeCards(events[i + 1..], docs[k..]));
        merged := merged + [MergedEvent(e, None)];
      }
      i := i + 1;
    }
    assert merged + [] == merged;
    r := Success(merged);
  }

  /**
    `_get_event_details`: one `getMany` batch for the records' URLs, then the
    cards attached record by record.
  */
  method GetEventDetails(request: RequestCache, events: seq<IndexRecord>) returns (r: Result<seq<MergedEvent>>)
    modifies request
    ensures request.cache == ManyAfter(request.fetch, old(request.cache), Urls(events))
    ensures request.calls == old(request.calls) + ManyCalls(old(request.cache), Urls(events))
    ensures r == DetailsResult(request.fetch, request.parse, old(request.cache), events)
  {
    var eventUrls := Urls(events);
    var fetched := request.GetMany(eventUrls);
    if fetched.Failure? {
      return Failure(fetched.error);
    }
    r := AttachCards(events, fetched.value);
  }

  lemma MergedAppend(merged: seq<MergedEvent>, x: MergedEvent, r: Result<seq<MergedEvent>>)
    ensures Prepend(merged, Prepend([x], r)) == Prepend(merged + [x], r)
  {
    if r.Success? {
      assert merged + ([x] + r.value) == (merged + [x]) + r.value;
    }
  }

  /** `get_events` as a function of the fetcher, the parser and what the store held before the run. */
  function EventsPipeline(fetch: seq<string> -> seq<string>, parse: string -> Element,
                          stored: map<string, string>): Result<seq<MergedEvent>>
  {
    match OneResult(fetch, parse, stored, EventsUrl)
    case Failure(e) => Failure(e)
    case Success(page) =>
      var m1 := OneAfter(fetch, stored, EventsUrl);
      match GetFutureEvents(page)
      case Failure(e) => Failure(e)
      case Success(future) =>
        match DetailsResult(fetch, parse, m1, future)
        case Failure(e) => Failure(e)
        case Success(futureResults) =>
          var m2 := ManyAfter(fetch, m1, Urls(future));
          match GetPastEvents(page)
          case Failure(e) => Failure(e)
          case Success(past) =>
            match DetailsResult(fetch, parse, m2, past)
            case Failure(e) => Failure(e)
            case Success(pastResults) => Success(futureResults + pastResults)
  }

  /**
    `get_events`: open the store, read the index page through it, then the
    scheduled events with their cards followed by the past events with theirs.
  */
  method GetEvents(fetch: seq<string> -> seq<string>, parse: string -> Element,
                   stored: map<string, string>) returns (r: Result<seq<MergedEvent>>)
    ensures r == EventsPipeline(fetch, parse, stored)
  {
    var request := new RequestCache(fetch, parse, stored);
    var page := request.GetOne(EventsUrl);
    if page.Failure? {
      return Failure(page.error);
    }
    var future := GetFutureEvents(page.value);
    if future.Failure? {
      return Failure(future.error);
    }
    var futureResults := GetEventDetails(request, future.value);
    if futureResults.Failure? {
      return Failure(futureResults.error);
    }
    var past := GetPastEvents(page.value);
    if past.Failure? {
      return Failure(past.error);
    }
    var pastResults := GetEventDetails(request, past.value);
    if pastResults.Failure? {
      return Failure(pastResults.error);
    }
    r := Success(futureResults.value + pastResults.value);
  }

  /** A run that succeeds has read both tables and merged the cards of each. */
  lemma PipelineParts(fetch: seq<string> -> seq<string>, parse: string -> Element, stored: map<string, string>)
    requires EventsPipeline(fetch, parse, stored).Success?
    ensures OneResult(fetch, parse, stored, EventsUrl).Success?
    ensures var page := OneResult(fetch, parse, stored, EventsUrl).value;
            var m1 := OneAfter(fetch, stored, EventsUrl);
            && GetFutureEvents(page).Success? && GetPastEvents(page).Success?
            && var future := GetFutureEvents(page).value;
               var m2 := ManyAfter(fetch, m1, Urls(future));
               var past := GetPastEvents(page).value;
               && DetailsResult(fetch, parse, m1, future).Success?
               && DetailsResult(fetch, parse, m2, past).Success?
               && EventsPipeline(fetch, parse, stored).value
                    == DetailsResult(fetch, parse, m1, future).value + DetailsResult(fetch, parse, m2, past).value
  {
  }

  /** `es` lists the records of `future` and then those of `past`, and gives no card to a record without a URL. */
  predicate FutureThenPastOrder(es: seq<MergedEvent>, future: seq<IndexRecord>, past: seq<IndexRecord>) {
    && |es| == |future| + |past|
    && (forall i :: 0 <= i < |future| ==> es[i].record == future[i])
    && (forall i :: 0 <= i < |past| ==> es[|future| + i].record == past[i])
    && (forall i :: 0 <= i < |es| && es[i].record.eventUrl.None? ==> es[i].fightCard == None)
  }

  /** Each table's merged records, in order, with no card where there is no URL. */
  predicate KeepsRecords(ms: seq<MergedEvent>, events: seq<IndexRecord>) {
    && |ms| == |events|
    && (forall i :: 0 <= i < |events| ==> ms[i].record == events[i])
    && (forall i :: 0 <= i < |events| && events[i].eventUrl.None? ==> ms[i].fightCard == None)
  }

  lemma ConcatKeepsOrder(fr: seq<MergedEvent>, pr: seq<MergedEvent>, future: seq<IndexRecord>, past: seq<IndexRecord>)
    requires KeepsRecords(fr, future) && KeepsRecords(pr, past)
    ensures FutureThenPastOrder(fr + pr, future, past)
  {
    var es := fr + pr;
    forall i | 0 <= i < |future| ensures es[i].record == future[i] {
      assert es[i] == fr[i];
    }
    forall i | 0 <= i < |past| ensures es[|future| + i].record == past[i] {
      assert es[|future| + i] == pr[i];
    }
    forall i | 0 <= i < |es| && es[i].record.eventUrl.None? ensures es[i].fightCard == None {
      if i < |fr| {
        assert es[i] == fr[i];
      } else {
        assert es[i] == pr[i - |fr|];
      }
    }
  }

  /**
    A run that succeeds lists the scheduled events' records, in table order,
    followed by the past events' records, in table order, and gives no card to
    any record without a URL.
  */
  lemma FutureThenPast(fetch: seq<string> -> seq<string>, parse: string -> Element, stored: map<string, string>)
    requires EventsPipeline(fetch, parse, stored).Success?
    ensures OneResult(fetch, parse, stored, EventsUrl).Success?
    ensures var page := OneResult(fetch, parse, stored, EventsUrl).value;
            && GetFutureEvents(page).Success? && GetPastEvents(page).Success?
            && FutureThenPastOrder(EventsPipeline(fetch, parse, stored).value,
                                   GetFutureEvents(page).value, GetPastEvents(page).value)
  {
    var page := OneResult(fetch, parse, stored, EventsUrl).value;
    var m1 := OneAfter(fetch, stored, EventsUrl);
    var future := GetFutureEvents(page).value;
    var m2 := ManyAfter(fetch, m1, Urls(future));
    var past := GetPastEvents(page).value;
    PipelineParts(fetch, parse, stored);
    DetailsKeepRecords(fetch, parse, m1, future);
    DetailsKeepRecords(fetch, parse, m2, past);
    ConcatKeepsOrder(DetailsResult(fetch, parse, m1, future).value, DetailsResult(fetch, parse, m2, past).value, future, past);
  }
}
