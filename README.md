# UFC event timeline: fetch cache, table parsers and event merger

This project models, in Dafny, the core of `scripts/get_ufc_events.py`: the
script that builds a timeline of UFC events by reading the scheduled-events
and past-events tables of Wikipedia's "List of UFC events" page and the
results table of each event's own page.

- `Cache.RequestCache` is the URL-keyed store of raw page bodies. `GetOne`
  fetches on a miss and reuses the stored body on a hit; `GetMany` hands the
  fetcher one batch holding exactly the uncached URLs, stores the answers
  with the `zip` loop, and returns one parsed page per input URL. The batch
  fetcher (`fetch`) and the HTML parser (`parse`) are functions the object is
  built with. The ghost field `calls` logs every batch handed to the fetcher.
- `EventPage` locates the results table (aggregated yearly page or
  single-event page), skips the header row and the separator rows, and reads
  each data row into a `FightEntry`.
- `EventsListPage` reads the two index tables into `IndexRecord`s, with the
  date-span rule and absolute event URLs.
- `Links.TextAndLink` is the shared cell helper: an anchor wins over the
  cell's own text.
- `Pipeline` merges the fetched cards into the records (`AttachCards`,
  `GetEventDetails`) and puts the scheduled events before the past ones
  (`GetEvents`).

Pages are modelled by `Html.Element`, a tree of elements (tag, `id`,
classes, `href`, text, children). `find`/`findAll` search an element's
descendants in document order (the pre-order `Flatten`), and `find_next` is
the first match at a later position of the flattened page. Each Python
exception that can abort a run (`IndexError`, `KeyError`, `ValueError`,
`AttributeError`) becomes a `Failure` of `Wrappers.Result`.

Other revisions of this script in the repository add a parsed-result cache
keyed by a content fingerprint, a pass-through cache mode for the index page,
and padding of short result rows. The revision modelled here has none of
these, and the model follows it as written. It therefore caches the index page like
every other page, and a result row of one to six cells raises `ValueError`.

## Model

| member | source | states |
|---|---|---|
| `Html.FirstFrom` | scripts/get_ufc_events.py:90-91 | the index returned is the first one at or after the start whose element matches; `None` exactly when no later element matches (how `find_next` reads on the flattened page) |
| `Html.SelectFirst` | scripts/get_ufc_events.py:193 | a query's first result is the first element in document order that matches it, as `find` takes it |
| `Html.Tail` | scripts/get_ufc_events.py:76 | the slice after the header row holds every element after the first, in order, and is empty for an empty list |
| `Links.AnchorWins` | scripts/get_ufc_events.py:191-200 | when the cell contains an anchor, the first anchor in document order supplies both the text and the link (its `href`, possibly absent) |
| `Links.NoAnchorCellText` | scripts/get_ufc_events.py:191-200 | a cell without an anchor yields its own text and no link |
| `EventPage.GetTable` | scripts/get_ufc_events.py:80-95 | fails exactly when the page has no `h1#firstHeading`; any table found is a `toccolours` table of the page; on a page whose lower-cased heading does not end in "in ufc" it is the page's first `toccolours` table; on an aggregated page with no sub-heading equal to the title there is no table |
| `EventPage.AggregatedTableFollowsHeadline` | scripts/get_ufc_events.py:85-91 | on an aggregated page, the chosen table is the first `toccolours` table after the first `mw-headline` span whose text equals the event title, whatever other headings and tables the page holds |
| `EventPage.NoTableAfterHeadline` | scripts/get_ufc_events.py:88-91 | on an aggregated page, when no `toccolours` table follows the first sub-heading naming the event, there is no table |
| `EventPage.ParseCells` | scripts/get_ufc_events.py:97-121 | no cells gives no entry; one to six cells fail with `ValueError`; seven or more give winner and loser through the link helper, result from the fifth cell and weight class from the first |
| `EventPage.ExtraCellsIgnored` | scripts/get_ufc_events.py:106-108 | cells beyond the seventh never change what a row yields |
| `EventPage.ParseRowsSucceeds` | scripts/get_ufc_events.py:76-77 | reading the rows succeeds exactly when every row has no cells or at least seven; any failure is an unpacking error |
| `EventPage.ParseRowsEntries` | scripts/get_ufc_events.py:76-77 | rows that are read yield one entry per row with cells, in row order, each the entry that row parses to |
| `EventPage.ShortRowFails` | scripts/get_ufc_events.py:105-111 | the first row of one to six cells makes the whole card fail with that row's `ValueError(7, n)` |
| `EventPage.GetJson` | scripts/get_ufc_events.py:71-78 | the card is `None` exactly when no results table is located; a page without its heading fails with the table lookup's error |
| `EventPage.GetJsonCard` | scripts/get_ufc_events.py:72-77 | for a located table, the first `tr` is skipped and the rest decide the card: it succeeds exactly when every such row is well shaped, and then holds one entry per row with cells, in order |
| `EventPage.FullRowsGiveOneEntryEach` | scripts/get_ufc_events.py:75-77 | a table of a header row and N rows of at least seven cells gives exactly N entries |
| `EventsListPage.AbsoluteUrl` | scripts/get_ufc_events.py:162 | a link is made absolute by prefixing the base URL, and no link stays no link |
| `EventsListPage.ParseDateSpan` | scripts/get_ufc_events.py:152-154 | the date element is the cell itself or a span below it, and it is the cell whenever the cell holds at most one span |
| `EventsListPage.DateFromSecondSpan` | scripts/get_ufc_events.py:152-154 | a date cell with two or more spans takes its date from the second span in document order |
| `EventsListPage.DateFromCell` | scripts/get_ufc_events.py:152-154 | a date cell with at most one span takes its date from the cell itself |
| `EventsListPage.FutureCells` | scripts/get_ufc_events.py:156-170 | a scheduled row succeeds exactly with four cells, else `ValueError(4, n)`; the record has no number, the event cell's link text and absolute URL, the date read from the date cell's spans, and the venue and location texts |
| `EventsListPage.PastCells` | scripts/get_ufc_events.py:172-188 | a past row succeeds exactly with six cells, else `ValueError(6, n)`; its number is the first cell's text |
| `EventsListPage.PastRowExtendsFutureRow` | scripts/get_ufc_events.py:156-188 | a six-cell past row reads like a scheduled row made of its event, date, venue and location cells, plus its number |
| `EventsListPage.MapRows` | scripts/get_ufc_events.py:140-143 | the rows are read in order into one record each; the result succeeds exactly when every row does, and a failure is the error of the first failing row |
| `EventsListPage.FutureEventsRows` | scripts/get_ufc_events.py:134-143 | the `Scheduled_events` table yields one record per row after the header, in order, exactly when each such row has four cells |
| `EventsListPage.NoScheduledTable` | scripts/get_ufc_events.py:134-141 | a page without the `Scheduled_events` table fails with `AttributeError` |
| `EventsListPage.PastEventsRows` | scripts/get_ufc_events.py:128-143 | the page's second table yields one record per row after the header, in order, exactly when each such row has six cells |
| `EventsListPage.TooFewTables` | scripts/get_ufc_events.py:128-132 | a page with fewer than two tables fails with `IndexError` |
| `Cache.MissingSpec` | scripts/get_ufc_events.py:216 | the URLs selected for fetching are exactly the inputs not in the cache, and there are none when every input is cached |
| `Cache.MissingAppend` | scripts/get_ufc_events.py:216 | the selection keeps input order: the missing URLs of a concatenation are those of each part, in turn |
| `Cache.StoreAllSpec` | scripts/get_ufc_events.py:220-221 | with a response per request, the store gains exactly the requested URLs, keeps every other entry, and gives each URL the response at its last occurrence |
| `Cache.Docs` | scripts/get_ufc_events.py:223 | one parsed page per input URL, in input order, each parsed from that URL's stored body; a URL without a body fails with `KeyError` |
| `Cache.GetManyStore` | scripts/get_ufc_events.py:215-221 | with one body per requested URL, every input URL is stored afterwards and every entry stored before is unchanged |
| `Cache.GetManyStoresFetched` | scripts/get_ufc_events.py:218-221 | each fetched URL holds the body the fetcher returned for it |
| `Cache.GetManyResult` | scripts/get_ufc_events.py:220-223 | with one body per requested URL, `getMany` succeeds with one page per input URL, in input order |
| `Cache.GetManyAllCached` | scripts/get_ufc_events.py:216-219 | when every input URL is cached there is no fetch and the store is unchanged |
| `Cache.GetOneTwice` | scripts/get_ufc_events.py:208-213 | a second `getOne` of the same URL makes no fetch, leaves the store as the first left it and returns the same page |
| `Cache.RequestCache.constructor` | scripts/get_ufc_events.py:205-206 | the store starts with what earlier runs left in it, and no batch has been fetched |
| `Cache.RequestCache.GetOne` | scripts/get_ufc_events.py:208-213 | a hit returns the stored body's page with no fetch and no store change; a miss fetches `[url]` once and stores and returns its body; an empty answer fails with `IndexError` and stores nothing |
| `Cache.RequestCache.GetMany` | scripts/get_ufc_events.py:215-223 | the fetcher gets one batch of exactly the missing URLs, or none when nothing is missing; the `zip` loop leaves the store the missing URLs paired with the answers; the result is one page per input URL |
| `Cache.FetchTwice` | scripts/get_ufc_events.py:208-213 | two `getOne` calls with the same URL return the same page and log at most the single batch `[url]` |
| `Pipeline.UrlsAppend` | scripts/get_ufc_events.py:51-52 | the URL list of a concatenation is the URL lists of its parts, in turn |
| `Pipeline.UrlIndex` | scripts/get_ufc_events.py:51-56 | for a record with a URL, the iterator position on reaching it is that URL's position in the batch handed to `getMany` |
| `Pipeline.MergeCardsSpec` | scripts/get_ufc_events.py:46-60 | merging keeps the records' count and order, gives no card to a record without a URL, gives the k-th record with a URL the card read from the k-th page, and succeeds exactly when every such page parses |
| `Pipeline.DetailsKeepRecords` | scripts/get_ufc_events.py:46-60 | a table's merge that succeeds keeps its records in order and leaves those without a URL without a card |
| `Pipeline.DetailsUseStoredPages` | scripts/get_ufc_events.py:51-58 | with one body per requested URL, each record's card is the one read from the page stored under its own URL |
| `Pipeline.AttachCards` | scripts/get_ufc_events.py:53-58 | the loop over the records with the advancing document iterator computes the merge |
| `Pipeline.GetEventDetails` | scripts/get_ufc_events.py:46-60 | one `getMany` of the records' URLs, then the merge; the cache and fetch log change as that `getMany` does |
| `Pipeline.PipelineParts` | scripts/get_ufc_events.py:32-43 | a run that succeeds has read the index page and both tables and merged the cards of each |
| `Pipeline.FutureThenPast` | scripts/get_ufc_events.py:32-43 | a successful run lists the scheduled records in table order, then the past records in table order, with no card for any record without a URL |
| `Pipeline.GetEvents` | scripts/get_ufc_events.py:32-43 | the run returns what its functional description gives for the fetcher, parser and stored bodies |

## Left out

- HTML parsing (BeautifulSoup): a page body becomes a page through the
  `parse` function the cache is built with. An element's `.text` is an opaque
  field, not the concatenation of its descendants' text.
- Class matching: an element matches a class query when that class is one of
  its classes. The library's rule that also matches the whole class
  attribute string is not modelled.
- `str.lower()`: only ASCII letters are lower-cased; Unicode case mapping is
  not modelled.
- The network fetcher `async_urlopen`: it is the total function `fetch`. Its
  transport failures, its concurrency and the `NUM_PARALLEL_REQUESTS` bound
  are not modelled. A fetcher answer of the wrong length is modelled, through
  the `IndexError` and `KeyError` paths it leads to.
- Cache.RequestCache.GetOne: the default argument `url=EVENTS_URL` is not
  modelled; the URL is always passed, as the one caller (`get_events`) does.
- `shelve` persistence and `close()`: the store is an in-memory map,
  initialised from the bodies earlier runs left in it. Writing it back to
  disk and closing it are file I/O.
- `main`, the JSON output (including the `as_dict=False` branch of
  `getJson`), the `debug` writes to standard error and the logging setup:
  output and logging only.
- Pipeline.AttachCards: the script adds `fight_card` to the same dictionaries
  it was given; the model returns new `MergedEvent` records instead, since no
  other reference to those dictionaries is used.
