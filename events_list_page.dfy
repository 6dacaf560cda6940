/**
  `EventsListPage`: the scheduled-events and past-events tables of the index
  page, read into index records.
*/
module EventsListPage {
  import opened Wrappers
  import opened Html
  import opened Links

  const BaseUrl: string := "https://en.wikipedia.org"
  const EventsUrl: string := "https://en.wikipedia.org/wiki/List_of_UFC_events"

  const ScheduledEvents: Query := Query("table", Some("Scheduled_events"), None)
  const AnyTable: Query := ByTag("table")
  const Span: Query := ByTag("span")

  /** One row of an index table. Only past rows carry a sequence number. */
  datatype IndexRecord = IndexRecord(
    number: Option<string>,
    text: string,
    date: string,
    venue: string,
    location: string,
    eventUrl: Option<string>)

  /** `_parseDateSpan`: the second span of the date cell when it has more than one, else the cell itself. */
  function ParseDateSpan(dateTd: Element): (r: Element)
    ensures r != dateTd ==> r.tag == "span" && r in Descendants(dateTd)
    ensures |FindAll(dateTd, Span)| <= 1 ==> r == dateTd
  {
    var spans := FindAll(dateTd, Span);
    if |spans| > 1 then
      assert spans[1] in spans;
      spans[1]
    else dateTd
  }

  /** A date cell with two or more spans: the second span in document order holds the date. */
  lemma DateFromSecondSpan(dateTd: Element, i: nat, j: nat)
    requires i < j < |Descendants(dateTd)|
    requires Descendants(dateTd)[i].tag == "span" && Descendants(dateTd)[j].tag == "span"
    requires forall k :: 0 <= k < j && k != i ==> Descendants(dateTd)[k].tag != "span"
    ensures ParseDateSpan(dateTd) == Descendants(dateTd)[j]
  {
    SelectSecond(Descendants(dateTd), Span, i, j);
  }

  /** A date cell with at most one span: the cell itself holds the date. */
  lemma DateFromCell(dateTd: Element)
    requires forall k, l :: 0 <= k < l < |Descendants(dateTd)| && Descendants(dateTd)[k].tag == "span" ==>
               Descendants(dateTd)[l].tag != "span"
    ensures ParseDateSpan(dateTd) == dateTd
  {
    SelectAtMostOne(Descendants(dateTd), Span);
  }

  /** A site-relative link made absolute by prefixing the base URL; no link stays no link. */
  function AbsoluteUrl(link: Option<string>): (r: Option<string>)
    ensures r.Some? <==> link.Some?
    ensures r.Some? ==> |r.value| == |BaseUrl| + |link.value|
    ensures r.Some? ==> r.value[..|BaseUrl|] == BaseUrl && r.value[|BaseUrl|..] == link.value
  {
    match link
    case Some(href) => Some(BaseUrl + href)
    case None => None
  }

  /**
    `_parseFutureRow` on the row's cells: exactly four (event, date, venue,
    location), else the unpacking fails.
  */
  function FutureCells(tds: seq<Element>): (r: Result<IndexRecord>)
    ensures r.Success? <==> |tds| == 4
    ensures r.Failure? ==> r.error == ValueError(4, |tds|)
    ensures r.Success? ==>
              && r.value.number == None
              && r.value.text == TextAndLink(tds[0]).text
              && r.value.date == ParseDateSpan(tds[1]).text
              && r.value.venue == tds[2].text
              && r.value.location == tds[3].text
              && r.value.eventUrl == AbsoluteUrl(TextAndLink(tds[0]).link)
  {
    if |tds| != 4 then Failure(ValueError(4, |tds|))
    else
      var event, date, venue, location := tds[0], tds[1], tds[2], tds[3];
      var tl := TextAndLink(event);
      Success(IndexRecord(None, tl.text, ParseDateSpan(date).text, venue.text, location.text, AbsoluteUrl(tl.link)))
  }

  /**
    `_parsePastRow` on the row's cells: exactly six (number, event, date,
    venue, location, attendance), else the unpacking fails. Attendance is
    dropped.
  */
  function PastCells(tds: seq<Element>): (r: Result<IndexRecord>)
    ensures r.Success? <==> |tds| == 6
    ensures r.Failure? ==> r.error == ValueError(6, |tds|)
    ensures r.Success? ==> r.value.number == Some(tds[0].text)
  {
    if |tds| != 6 then Failure(ValueError(6, |tds|))
    else
      var num, event, date, venue, location := tds[0], tds[1], tds[2], tds[3], tds[4];
      var tl := TextAndLink(event);
      Success(IndexRecord(Some(num.text), tl.text, ParseDateSpan(date).text, venue.text, location.text, AbsoluteUrl(tl.link)))
  }

  /**
    The two row layouts agree on the shared columns: a past row reads like a
    future row made of its event, date, venue and location cells, plus its
    sequence number.
  */
  lemma PastRowExtendsFutureRow(tds: seq<Element>)
    requires |tds| == 6
    ensures FutureCells(tds[1..5]).Success?
    ensures PastCells(tds) == Success(FutureCells(tds[1..5]).value.(number := Some(tds[0].text)))
  {
  }

  function ParseFutureRow(row: Element): Result<IndexRecord> {
    FutureCells(FindAll(row, Cell))
  }

  function ParsePastRow(row: Element): Result<IndexRecord> {
    PastCells(FindAll(row, Cell))
  }

  /**
    The list comprehension of `_getJson` over `rows`: every row parsed in
    order; the first row that fails aborts with its error.
  */
  function MapRows(rows: seq<Element>, parser: Element -> Result<IndexRecord>): (r: Result<seq<IndexRecord>>)
    ensures r.Success? <==> forall i :: 0 <= i < |rows| ==> parser(rows[i]).Success?
    ensures r.Success? ==> |r.value| == |rows|
    ensures r.Success? ==> forall i :: 0 <= i < |rows| ==> parser(rows[i]) == Success(r.value[i])
    ensures r.Failure? ==> exists i :: 0 <= i < |rows| && parser(rows[i]) == Failure(r.error)
                                       && forall k :: 0 <= k < i ==> parser(rows[k]).Success?
  {
    if rows == [] then Success([])
    else
      match parser(rows[0])
      case Failure(e) => Failure(e)
      case Success(record) =>
        match MapRows(rows[1..], parser)
        case Failure(e) =>
          var i :| 0 <= i < |rows[1..]| && parser(rows[1..][i]) == Failure(e)
                   && forall k :: 0 <= k < i ==> parser(rows[1..][k]).Success?;
          assert parser(rows[i + 1]) == Failure(e);
          assert forall k :: 0 <= k < i + 1 ==> parser(rows[k]).Success? by {
            forall k | 0 <= k < i + 1 ensures parser(rows[k]).Success? {
              if k > 0 { assert rows[k] == rows[1..][k - 1]; }
            }
          }
          Failure(e)
        case Success(rest) =>
          assert forall i :: 1 <= i < |rows| ==> rows[i] == rows[1..][i - 1];
          Success([record] + rest)
  }

  /** `_getJson`: one record per row of the table after its header row. */
  function GetRows(table: Element, parser: Element -> Result<IndexRecord>): Result<seq<IndexRecord>> {
    MapRows(Tail(FindAll(table, Row)), parser)
  }

  /** `getFutureEvents`: the rows of the table whose id is `Scheduled_events`; a page without it fails. */
  function GetFutureEvents(data: Element): Result<seq<IndexRecord>> {
    match Find(data, ScheduledEvents)
    case None => Failure(AttributeError("findAll of a missing Scheduled_events table"))
    case Some(table) => GetRows(table, ParseFutureRow)
  }

  /** `getPastEvents`: the rows of the second table of the page; a page with fewer tables fails. */
  function GetPastEvents(data: Element): Result<seq<IndexRecord>> {
    var tables := FindAll(data, AnyTable);
    if |tables| < 2 then Failure(IndexError("tables[1]"))
    else GetRows(tables[1], ParsePastRow)
  }

  /**
    The scheduled-events table yields one record per row after the header, in
    order, when every such row has exactly four cells, and fails otherwise.
  */
  lemma FutureEventsRows(data: Element, table: Element)
    requires Find(data, ScheduledEvents) == Some(table)
    ensures var trs := FindAll(table, Row);
            && (GetFutureEvents(data).Success? <==> forall i :: 1 <= i < |trs| ==> |FindAll(trs[i], Cell)| == 4)
            && (GetFutureEvents(data).Success? ==>
                  && |GetFutureEvents(data).value| == |Tail(trs)|
                  && forall i :: 1 <= i < |trs| ==> FutureCells(FindAll(trs[i], Cell)) == Success(GetFutureEvents(data).value[i - 1]))
  {
    var trs := FindAll(table, Row);
    var rows := Tail(trs);
    assert forall i :: 1 <= i < |trs| ==> trs[i] == rows[i - 1];
    assert forall i :: 0 <= i < |rows| ==> rows[i] == trs[i + 1];
  }

  /**
    The second table yields one record per row after the header, in order,
    when every such row has exactly six cells, and fails otherwise.
  */
  lemma PastEventsRows(data: Element)
    requires |FindAll(data, AnyTable)| >= 2
    ensures var trs := FindAll(FindAll(data, AnyTable)[1], Row);
            && (GetPastEvents(data).Success? <==> forall i :: 1 <= i < |trs| ==> |FindAll(trs[i], Cell)| == 6)
            && (GetPastEvents(data).Success? ==>
                  && |GetPastEvents(data).value| == |Tail(trs)|
                  && forall i :: 1 <= i < |trs| ==> PastCells(FindAll(trs[i], Cell)) == Success(GetPastEvents(data).value[i - 1]))
  {
    var trs := FindAll(FindAll(data, AnyTable)[1], Row);
    var rows := Tail(trs);
    assert forall i :: 1 <= i < |trs| ==> trs[i] == rows[i - 1];
    assert forall i :: 0 <= i < |rows| ==> rows[i] == trs[i + 1];
  }

  /** A page without the `Scheduled_events` table fails: `findAll` is read on `None`. */
  lemma NoScheduledTable(data: Element)
    requires forall x :: x in Descendants(data) ==> !Matches(x, ScheduledEvents)
    ensures GetFutureEvents(data).Failure? && GetFutureEvents(data).error.AttributeError?
  {
    FindNone(data, ScheduledEvents);
  }

  /** A page with fewer than two tables fails: `tables[1]` is out of range. */
  lemma TooFewTables(data: Element)
    requires |FindAll(data, AnyTable)| < 2
    ensures GetPastEvents(data) == Failure(IndexError("tables[1]"))
  {
  }
}
