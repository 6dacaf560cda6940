/**
  `EventPage`: the results table of one event's detail page, read into a
  fight card.
*/
module EventPage {
  import opened Wrappers
  import opened Html
  import opened Links

  /** One fight of a card, as emitted for the page. */
  datatype FightEntry = FightEntry(winner: string, loser: string, result: string, weightClass: string)

  const FirstHeading: Query := Query("h1", Some("firstHeading"), None)
  const Headline: Query := Query("span", None, Some("mw-headline"))
  const ResultsTable: Query := Query("table", None, Some("toccolours"))

  /** The page's primary heading marks an aggregated yearly page (such as "2012 in UFC"). */
  predicate IsAggregated(headingText: string) {
    EndsWith(Lower(headingText), "in ufc")
  }

  /** A sub-heading whose text is exactly the event's title from the index page. */
  predicate IsHeadlineFor(x: Element, eventTitle: string) {
    Matches(x, Headline) && x.text == eventTitle
  }

  function Cells(row: Element): seq<Element> {
    FindAll(row, Cell)
  }

  /**
    `_getTable`: the results table of the page. On an aggregated page it is
    the first results table after the first sub-heading naming the event (none
    if no sub-heading names it); otherwise the first results table of the
    page. A page without its primary heading fails, as reading `.text` of
    `None` does.
  */
  function GetTable(eventTitle: string, doc: Element): (r: Result<Option<Element>>)
    ensures r.Failure? <==> Find(doc, FirstHeading).None?
    ensures r.Success? && r.value.Some? ==> Matches(r.value.value, ResultsTable) && r.value.value in Descendants(doc)
    ensures r.Success? && !IsAggregated(Find(doc, FirstHeading).value.text) ==> r.value == Find(doc, ResultsTable)
    ensures r.Success? && IsAggregated(Find(doc, FirstHeading).value.text)
            && (forall x :: x in Descendants(doc) ==> !IsHeadlineFor(x, eventTitle))
            ==> r.value == None
  {
    match Find(doc, FirstHeading)
    case None => Failure(AttributeError("text of a missing firstHeading"))
    case Some(heading) =>
      if IsAggregated(heading.text) then
        var all := Descendants(doc);
        match FirstFrom(all, 0, x => IsHeadlineFor(x, eventTitle))
        case None => Success(None)
        case Some(h) =>
          match FirstFrom(all, h + 1, x => Matches(x, ResultsTable))
          case None => Success(None)
          case Some(j) => Success(Some(all[j]))
      else
        var table := Find(doc, ResultsTable);
        assert table.Some? ==> table.value in FindAll(doc, ResultsTable);
        Success(table)
  }

  /**
    On an aggregated page, with `h` the first sub-heading naming the event and
    `j` the first results table after it, the table at `j` is chosen, whatever
    other headings and tables the page holds.
  */
  lemma AggregatedTableFollowsHeadline(eventTitle: string, doc: Element, h: nat, j: nat)
    requires Find(doc, FirstHeading).Some? && IsAggregated(Find(doc, FirstHeading).value.text)
    requires h < j < |Descendants(doc)|
    requires IsHeadlineFor(Descendants(doc)[h], eventTitle)
    requires forall k :: 0 <= k < h ==> !IsHeadlineFor(Descendants(doc)[k], eventTitle)
    requires Matches(Descendants(doc)[j], ResultsTable)
    requires forall k :: h < k < j ==> !Matches(Descendants(doc)[k], ResultsTable)
    ensures GetTable(eventTitle, doc) == Success(Some(Descendants(doc)[j]))
  {
    var all := Descendants(doc);
    assert FirstFrom(all, 0, x => IsHeadlineFor(x, eventTitle)) == Some(h);
    assert FirstFrom(all, h + 1, x => Matches(x, ResultsTable)) == Some(j);
  }

  /**
    On an aggregated page, when no `toccolours` table follows the first
    sub-heading naming the event, there is no table.
  */
  lemma NoTableAfterHeadline(eventTitle: string, doc: Element, h: nat)
    requires Find(doc, FirstHeading).Some? && IsAggregated(Find(doc, FirstHeading).value.text)
    requires h < |Descendants(doc)|
    requires IsHeadlineFor(Descendants(doc)[h], eventTitle)
    requires forall k :: 0 <= k < h ==> !IsHeadlineFor(Descendants(doc)[k], eventTitle)
    requires forall k :: h < k < |Descendants(doc)| ==> !Matches(Descendants(doc)[k], ResultsTable)
    ensures GetTable(eventTitle, doc) == Success(None)
  {
    var all := Descendants(doc);
    assert FirstFrom(all, 0, x => IsHeadlineFor(x, eventTitle)) == Some(h);
  }

  /**
    `_parseRow` on the row's `td` cells: a row without cells is skipped
    (`None`); a row of one to six cells fails to unpack; otherwise the first
    seven cells are weight, winner, draw marker, loser, result, rounds and
    time, and the winner and loser are read through `TextAndLink`.
  */
  function ParseCells(tds: seq<Element>): (r: Result<Option<FightEntry>>)
    ensures r == Success(None) <==> |tds| == 0
    ensures r.Failure? <==> 0 < |tds| < 7
    ensures r.Failure? ==> r.error == ValueError(7, |tds|)
    ensures |tds| >= 7 ==> r.Success? && r.value.Some?
    ensures |tds| >= 7 ==> r.value.value.winner == TextAndLink(tds[1]).text
    ensures |tds| >= 7 ==> r.value.value.loser == TextAndLink(tds[3]).text
    ensures |tds| >= 7 ==> r.value.value.result == tds[4].text
    ensures |tds| >= 7 ==> r.value.value.weightClass == tds[0].text
  {
    if |tds| == 0 then Success(None)
    else if |tds| < 7 then Failure(ValueError(7, |tds|))
    else
      var cells := tds[..7];
      var weight, winner, loser, result := cells[0], cells[1], cells[3], cells[4];
      Success(Some(FightEntry(TextAndLink(winner).text, TextAndLink(loser).text, result.text, weight.text)))
  }

  /** Cells beyond the seventh never change what a row yields. */
  lemma ExtraCellsIgnored(tds: seq<Element>, extra: seq<Element>)
    requires |tds| == 7
    ensures ParseCells(tds + extra) == ParseCells(tds)
  {
    assert (tds + extra)[..7] == tds;
  }

  function ParseRow(row: Element): Result<Option<FightEntry>> {
    ParseCells(Cells(row))
  }

  /** `map(_parseRow, rows)` with the skipped rows filtered out; the first failing row aborts. */
  function ParseRows(rows: seq<Element>): Result<seq<FightEntry>> {
    if rows == [] then Success([])
    else
      match ParseRow(rows[0])
      case Failure(e) => Failure(e)
      case Success(entry) =>
        match ParseRows(rows[1..])
        case Failure(e) => Failure(e)
        case Success(rest) => Success((if entry.Some? then [entry.value] else []) + rest)
  }

  /** The rows that hold at least one `td` cell, in order. */
  function DataRows(rows: seq<Element>): (r: seq<Element>)
    ensures (forall i :: 0 <= i < |rows| ==> |Cells(rows[i])| > 0) ==> r == rows
  {
    if rows == [] then []
    else (if |Cells(rows[0])| > 0 then [rows[0]] else []) + DataRows(rows[1..])
  }

  /** A row is well shaped when it is a separator (no cells) or has at least the seven expected cells. */
  predicate WellShaped(row: Element) {
    |Cells(row)| == 0 || |Cells(row)| >= 7
  }

  /** Reading rows succeeds exactly when every row is well shaped; a failure is an unpacking error. */
  lemma {:induction false} ParseRowsSucceeds(rows: seq<Element>)
    ensures ParseRows(rows).Success? <==> forall i :: 0 <= i < |rows| ==> WellShaped(rows[i])
    ensures ParseRows(rows).Failure? ==> ParseRows(rows).error.ValueError?
  {
    if rows != [] {
      ParseRowsSucceeds(rows[1..]);
      assert forall i :: 1 <= i < |rows| ==> rows[i] == rows[1..][i - 1];
    }
  }

  /** Rows that are read yield one entry per data row, in order, each the entry that row parses to. */
  lemma {:induction false} ParseRowsEntries(rows: seq<Element>)
    requires ParseRows(rows).Success?
    ensures |ParseRows(rows).value| == |DataRows(rows)|
    ensures forall i :: 0 <= i < |DataRows(rows)| ==>
              ParseRow(DataRows(rows)[i]) == Success(Some(ParseRows(rows).value[i]))
  {
    if rows != [] {
      var tail := rows[1..];
      ParseRowsEntries(tail);
      var all := ParseRows(rows).value;
      var rest := ParseRows(tail).value;
      if |Cells(rows[0])| > 0 {
        assert DataRows(rows) == [rows[0]] + DataRows(tail);
        assert all == [ParseRow(rows[0]).value.value] + rest;
        forall i | 0 <= i < |DataRows(rows)|
          ensures ParseRow(DataRows(rows)[i]) == Success(Some(all[i]))
        {
          if i > 0 {
            assert DataRows(rows)[i] == DataRows(tail)[i - 1];
            assert all[i] == rest[i - 1];
          }
        }
      } else {
        assert DataRows(rows) == DataRows(tail);
        assert all == rest;
      }
    }
  }

  /**
    `EventPage.getJson`: `None` when no results table is located; otherwise the
    entries of the table's rows after the first, separator rows dropped.
  */
  function GetJson(eventTitle: string, doc: Element): (r: Result<Option<seq<FightEntry>>>)
    ensures r == Success(None) <==> GetTable(eventTitle, doc) == Success(None)
    ensures GetTable(eventTitle, doc).Failure? ==> r == Failure(GetTable(eventTitle, doc).error)
  {
    match GetTable(eventTitle, doc)
    case Failure(e) => Failure(e)
    case Success(None) => Success(None)
    case Success(Some(table)) =>
      match ParseRows(Tail(FindAll(table, Row)))
      case Failure(e) => Failure(e)
      case Success(entries) => Success(Some(entries))
  }

  /** The rows of a located table's first `tr` onward decide the card: one entry per data row after the header. */
  lemma GetJsonCard(eventTitle: string, doc: Element, table: Element)
    requires GetTable(eventTitle, doc) == Success(Some(table))
    ensures var rows := Tail(FindAll(table, Row));
            && (GetJson(eventTitle, doc).Success? <==> forall i :: 0 <= i < |rows| ==> WellShaped(rows[i]))
            && (GetJson(eventTitle, doc).Success? ==>
                  && GetJson(eventTitle, doc).value.Some?
                  && |GetJson(eventTitle, doc).value.value| == |DataRows(rows)|
                  && forall i :: 0 <= i < |DataRows(rows)| ==>
                       ParseRow(DataRows(rows)[i]) == Success(Some(GetJson(eventTitle, doc).value.value[i])))
  {
    ParseRowsSucceeds(Tail(FindAll(table, Row)));
    if GetJson(eventTitle, doc).Success? {
      ParseRowsEntries(Tail(FindAll(table, Row)));
    }
  }

  /** A table of a header row and N rows of seven or more cells gives exactly N entries. */
  lemma FullRowsGiveOneEntryEach(eventTitle: string, doc: Element, table: Element)
    requires GetTable(eventTitle, doc) == Success(Some(table))
    requires |FindAll(table, Row)| > 0
    requires forall i :: 1 <= i < |FindAll(table, Row)| ==> |Cells(FindAll(table, Row)[i])| >= 7
    ensures GetJson(eventTitle, doc).Success? && GetJson(eventTitle, doc).value.Some?
    ensures |GetJson(eventTitle, doc).value.value| == |FindAll(table, Row)| - 1
  {
    var trs := FindAll(table, Row);
    var rows := Tail(trs);
    assert forall i :: 0 <= i < |rows| ==> rows[i] == trs[i + 1];
    GetJsonCard(eventTitle, doc, table);
  }

  /**
    The error case: the first row of one to six cells makes the whole card
    fail with that row's unpacking error.
  */
  lemma {:induction false} ShortRowFails(rows: seq<Element>, i: nat)
    requires i < |rows| && 0 < |Cells(rows[i])| < 7
    requires forall k :: 0 <= k < i ==> WellShaped(rows[k])
    ensures ParseRows(rows) == Failure(ValueError(7, |Cells(rows[i])|))
  {
    if i > 0 {
      assert forall k :: 0 <= k < i - 1 ==> rows[1..][k] == rows[k + 1];
      ShortRowFails(rows[1..], i - 1);
    }
  }
}
