# Crypto news notifier: the retry loop, the market summary and the report body

The notifier (`main.py`) fetches crypto news and market prices, renders them as
an HTML e-mail and sends it every three hours. This project models the three
parts of that script with behaviour of their own and proves what they promise:

- **`make_api_request`**, the bounded retry loop around an HTTP GET
  (`api_request.dfy`, module `ApiRequest`). The GET itself is abstracted as
  `server: nat -> Attempt<T>`, the outcome of the n-th attempt (`Ok(body)` or
  `Fail` for any `RequestException`). The sleeps are recorded in a ghost list
  of delays. `retries <= 0` is modelled as written: the loop never runs and
  the function falls through to `None` (`FellThrough`).
- **`get_crypto_market_summary`** (`market_summary.dfy`, module
  `MarketSummary`). It sends one request through the retry loop with
  `MAX_RETRIES = 3` and walks `CRYPTO_SYMBOLS` in order against the decoded
  response (`map<string, Entry>`, each `Entry` with optional `usd` and
  `usd_24h_change`). It builds one upper-cased row per asset present and
  silently skips absent ones. If no row was built, it returns the
  "Crypto data unavailable" sentinel. If anything raised, it returns the
  "Market data error" sentinel instead of the whole list. That covers a
  re-raised request failure, a present entry without one of its two keys
  (`KeyError`) and the `None` fall-through (`in` on `None` raises `TypeError`).
- **`format_email_content`** (`email_report.dfy`, module `EmailReport`;
  `fragments.dfy`, module `Fragments`, holds the generic "append one fragment
  per element" fold and its lemmas). The HTML string is grown by appending:
  - the header;
  - one table row per summary entry, where a sentinel becomes one merged
    `colspan='3'` cell;
  - two news lists, each with one `<li>` per article or a fixed placeholder
    paragraph when the list is empty.

  Article fields are `Missing`, `Null` or `Text(s)`. A missing key gets the
  `.get` default (`'No title'`, `'#'`, `''`). A JSON null prints as `None`,
  because Python's f-string renders `None` that way.
  The calendar date and the `:,.2f` number rendering are parameters
  (`date: string`, `fmt: real -> string`); the document's structure around
  them is what is proved.

Each source function is a Dafny `method` with the source's loop and is proved
against a specification function: `ApiResponse` (via `FirstOk`), `Summary`
(via `PresentRows`) and `Report` (via `Joined`). The lemmas state the promised
properties of those functions.

The model follows the code as written, including behaviour that a summary
of the notifier might state differently:
- The two sentinel messages are `'Crypto data unavailable'` and
  `'Market data error'`.
- A single missing asset is omitted without a sentinel of its own.
- A present entry lacking a key yields the error sentinel.
- `retries <= 0` is accepted and yields `None` without any request.

## Model

| member | source | states |
|---|---|---|
| `ApiRequest.FirstOk` | main.py:62-66 | the index found is below the bound, succeeded, and every earlier attempt failed; none is found exactly when all attempts up to the bound failed |
| `ApiRequest.MakeApiRequest` | main.py:61-72 | retries <= 0: no GET, no sleep, None. All attempts fail: exactly `retries` GETs, `retries - 1` sleeps, then the failure is re-raised. First success at attempt k: that body is returned after k + 1 GETs and k sleeps. It never sleeps after its last GET, and every sleep lasts RETRY_DELAY |
| `ApiRequest.ApiResponse` | main.py:61-72 | definition of the loop's outcome: `FellThrough` (None) when retries <= 0; otherwise the body of the first successful attempt among the first `retries`, or `Raised` when all of them failed |
| `MarketSummary.Upper` | main.py:116 | same length; each lower-case letter becomes its own capital (`a` to `A`, ..., `z` to `Z`); no lower-case letter left; a character is an upper-case letter afterwards exactly when it was a letter; non-lower-case characters unchanged |
| `MarketSummary.RowFor` | main.py:113-119 | definition of the row built for a present asset: the upper-cased identifier as symbol, the entry's `usd` as price and its `usd_24h_change` as change, no message; only defined when both keys are present (otherwise the source raises KeyError) |
| `MarketSummary.PresentRows` | main.py:111-121 | definition of the rows the loop builds: for each listed identifier in order, `RowFor` of its entry when it is a key of the response, nothing when it is absent |
| `MarketSummary.Summary` | main.py:123-139 | the summary list is never empty, whatever the request did |
| `MarketSummary.GetCryptoMarketSummary` | main.py:103-139 | the returned list is the summary of the retry loop's outcome with MAX_RETRIES; if all three attempts fail it is exactly the error sentinel |
| `MarketSummary.PresentRowsAppend` | main.py:111-121 | rows for a concatenation of identifier lists are the rows of the first list followed by those of the second (rows keep identifier order) |
| `MarketSummary.PresentRowsEmptyIff` | main.py:111-123 | no row is built exactly when no listed asset is a key of the response |
| `MarketSummary.PresentRowsMembers` | main.py:111-121 | every built row is a plain row (no message); each present asset's row is built; every row is the row of some listed, present asset |
| `MarketSummary.PresentRowsCount` | main.py:111-121 | with distinct identifiers, the number of rows equals the number of listed assets present |
| `MarketSummary.PresentRowsOrder` | main.py:111-121 | for listed assets i < j both present, the row of i comes before the row of j |
| `MarketSummary.CryptoSymbolsDistinct` | main.py:56 | the configured identifiers are pairwise distinct |
| `MarketSummary.SummaryErrorIff` | main.py:109-139 | the result is exactly the error sentinel iff the request did not return a body or a present entry lacks 'usd' or 'usd_24h_change'; rows already built are discarded |
| `MarketSummary.SummaryUnavailableIff` | main.py:123-129 | for a well-formed body, the result is exactly the unavailable sentinel iff none of the configured assets is present |
| `MarketSummary.SummaryRows` | main.py:111-131 | for a well-formed body with at least one configured asset, the result holds one plain row per present asset, in configured order, with the upper-cased identifier as symbol, and no sentinel |
| `MarketSummary.ThreeOfFourAssets` | main.py:111-131 | a response with bitcoin, ethereum and solana but not celestia gives exactly the BITCOIN, ETHEREUM and SOLANA rows, in that order |
| `EmailReport.FieldText` | main.py:160-163 | definition of how `article.get(key, default)` prints in the f-string: a missing key gives the default, a JSON null gives `None`, a string gives itself |
| `EmailReport.Header` | main.py:143-149 | definition of the opening triple-quoted f-string, whitespace and newlines included, with the date in the `<h2>` and the table's header row last |
| `EmailReport.RowHtml` | main.py:151-154 | definition of one table row: an entry with a message becomes the merged cell `<tr><td colspan='3'>message</td></tr>`; otherwise three cells, the symbol, `$` and the price, and the change followed by `%` |
| `EmailReport.ItemHtml` | main.py:160-163 | definition of one news item: `<li><a href='url'>title</a><br><small>description</small></li>` with the defaults `#`, `No title` and the empty string |
| `EmailReport.Trailer` | main.py:155-177 | definition of everything after the last table row: `</table>`, then each news section as heading and `<ul>`, its items or placeholder paragraph, and the closing tags |
| `EmailReport.Report` | main.py:142-179 | definition of the returned document: the header, one row per summary entry in order, then the trailer |
| `EmailReport.AppendMarketRows` | main.py:150-154 | appends exactly one row per summary entry, in order |
| `EmailReport.AppendArticles` | main.py:159-163 | appends exactly one list item per article, in order, with the `.get` defaults |
| `EmailReport.AppendNewsBody` | main.py:158-165 | appends the article items, or the placeholder paragraph when the list is empty |
| `EmailReport.AppendTrailer` | main.py:155-177 | closes the table, then appends the crypto news section and the political news section, each as its heading, list body and closing tag |
| `EmailReport.FormatEmailContent` | main.py:142-179 | the returned HTML is the report: header, table rows, then the crypto and the political news sections |
| `Fragments.JoinedAppend` | main.py:150-154 | fragments of a concatenated list are the fragments of the first part followed by those of the second |
| `Fragments.JoinedAt` | main.py:159-163 | element i's fragment sits right after those of elements 0..i-1 and right before those of the later elements |
| `EmailReport.RowKinds` | main.py:151-154 | an entry with a message becomes the single merged cell holding that message; the row opens with `<tr><td colspan='3'>` iff the entry has a message and with `<tr><td>` iff it has none |
| `EmailReport.ReportRowAt` | main.py:143-155 | the document is the header, the rows of entries before i, entry i's row, the rows after it, then the news sections |
| `EmailReport.NewsBodyPlaceholderIff` | main.py:158-165 | a news section is its placeholder paragraph iff its list is empty, and opens with `<li>` iff the list is non-empty |
| `EmailReport.ItemDefaults` | main.py:160-163 | an article without title, url and description renders as a link to `#` titled `No title` with an empty description |
| `EmailReport.TwoArticlesNoPolitics` | main.py:157-177 | two crypto articles give exactly their two items; an empty political list gives `<p>No political news available.</p>` |
| `EmailReport.ThreeOfFourReport` | main.py:142-179 | prices for three of four assets and two crypto articles give a document with three table rows (celestia missing) followed by the news sections |

## Left out

- `get_crypto_news` and `get_political_news` (main.py:75-100) are thin wrappers over the news-API client, which is not part of this model. Their only logic is that an exception yields an empty list, and the formatter's empty-list case covers that.
- `send_email` (main.py:182-197): MIME assembly and SMTP delivery are network I/O.
- `generate_and_send_report` (main.py:200-211) only sequences the calls and logs exceptions. The fetch-then-format composition is shown by `EmailReport.ThreeOfFourReport`.
- `run_scheduler` (main.py:214-219) is an infinite loop driven by the `schedule` library and `time.sleep`, whose timing is not visible here.
- Startup (main.py:16-52) covers environment checks, `load_dotenv`, logging setup, client creation and `sys.exit`.
- Logging is diagnostic only and is not modelled.
- The request URL (main.py:106-107) and the per-attempt `timeout=10` are not modelled, because the GET is abstracted.
- `datetime.now()` and the `:,.2f` number rendering are parameters, not definitions.
- `ApiRequest.MakeApiRequest`: an exception other than `RequestException` would propagate at once without a retry. This case is not modelled. An attempt either succeeds or raises a `RequestException`.
- `ApiRequest.MakeApiRequest`: the sleeps are a ghost list of durations. Elapsed time is not modelled.
- `MarketSummary.GetCryptoMarketSummary`: the JSON body is assumed to be an object whose entries hold numbers or lack the key. A JSON null or a non-numeric price is not modelled. Such a value would fail later, in the `:,.2f` formatting.
- `MarketSummary.Upper` models `str.upper()` on ASCII only. The configured identifiers are ASCII.
- HTML escaping: the source escapes nothing, and neither does the model. Its structural lemmas hold whatever the cell and item texts contain.
