# WalletScrapper core, modelled in Dafny

WalletScrapper drives a headless browser over two crypto analytics sites.

- **Dexscreener `getTrades`** (`src/modules/dexscreener.js`, and the same flow as the
  stand-alone script `test.js`) does the following, in order:
  - launches a browser and asks for a project URL and an output name;
  - rejects names that are empty or use characters outside `[a-zA-Z0-9_-]`;
  - opens the page and clicks the first button whose text contains "Top Traders";
  - reads the project name (defaulting to "Unknown Project");
  - reads five labelled metrics. Each is the span after the first span whose trimmed text is the label, and defaults to "N/A";
  - walks the rows of the top-traders table. Rows without an explorer link are skipped. Repeated addresses are dropped, first occurrence wins. Rows whose balance cell reads "Unknown" are dropped too;
  - writes `{projectName, date, ...metrics, topTraders}` to `<name>.json`.

  Every error inside the `try` is logged, and `finally` closes the browser.
- **GMGN `getTokens(limit)` and `getTrades(token)`** (`src/modules/gmgn.js`) fetch a JSON
  ranking or leaderboard through the browser:
  - `getTokens` refuses a limit above the configured maximum before launching anything, and keeps `slice(0, limit)` of the addresses (the first `min(limit, n)` of `n` for a non-negative limit);
  - `getTrades` projects every leaderboard entry onto four fields.

  After the launch, every failure inside the `try` collapses to `[]`; a rejecting `browser.close()` in `finally` still rejects the call.

The model is organised as follows:

| module | what it holds |
|---|---|
| `JsStrings` | `String.prototype.trim`, `includes`, `split("/").pop()`, the `||` default, and the decimal rendering of integers |
| `Search` | `findIndex` / `querySelector` as a first-match search |
| `FileName` | the output-name check |
| `ControlLocator` | the button loop, as a method with a `while` loop; a button's text read may reject |
| `FieldExtractor` | `getValueAfterLabel`, the five metrics and the project name |
| `TableExtractor` | the row loop, as a method `CollectTraders`. It is proved equal to the functional scan `TopTraders`, which is in turn proved equal to a declarative description (`RowKept`, `KeptRecords`) |
| `TableScenarios` | row-level scenarios |
| `Dexscreener` | the whole flow, as a method `GetTrades` proved equal to the trace function `Scrape` |
| `Gmgn` | the two GMGN calls, as functions from the environment's answers to `Call(events, result)` |

The browser, the prompts, the file system and the clock are an environment of answers given up front (`Dexscreener.Env`, the `Fetch`, `launchError` and `closeError` parameters of `Gmgn`). Every awaited browser or file call that can reject has an answer: `None` when it succeeds, `Some(message)` when it rejects. A run is the trace of side effects it performs, in order.

## Behaviour worth knowing

- **Rank.** A record's rank is its raw row position plus one (`rank: index + 1` inside `rows.forEach`), not its position among the kept rows. Ranks therefore have gaps wherever a row is skipped (`TableScenarios.RankGapScenario`). When the only skipped rows come after the first kept one, the first record is still ranked 1 (`TableScenarios.DuplicateAndUnknownScenario`).
- **Name check.** The output name is checked after `launch` and `newPage`, but before the user agent is set and before any navigation (`Dexscreener.InvalidNameStopsBeforeNavigation`).
- **Dexscreener `launch` and `newPage`.** Both are awaited before the `try`, so a failure of either rejects the call. A failing `newPage` leaves the launched browser open (`Dexscreener.BrowserClosedLast`).
- **Rejections inside the `try`.** Every awaited call inside the `try` that rejects is caught, logged and ends the block. This covers `setUserAgent`, `goto`, `$$("button")`, a button's text read, `click`, the three page evaluations, `waitForSelector` and `writeFile`. The browser is then closed, and nothing is written after the failing call (`Dexscreener.WriteFollowsReadings`).
- **Closing.** A rejecting `browser.close()` in `finally` rejects the whole call, in Dexscreener and in GMGN alike, after the same steps (`Dexscreener.RejectsOnlyOutsideTry`, `Gmgn.CloseFailureKeepsSteps`).
- **Stated for a succeeding close.** `Gmgn.TokensArePrefix`, `Gmgn.NegativeLimitDropsTail`, `Gmgn.TradesAreProjection` and `Gmgn.MissingTransferEmptiesTrades` describe `getTokens` and `getTrades` when the close succeeds. `Gmgn.TokensFailuresCollapse` and `Gmgn.TradesFailuresCollapse` cover the rejected close.
- **GMGN launch.** `launch` is outside the `try`, so a failure to launch rejects rather than collapsing to `[]`.
- **Negative limit.** The guard is `limit > maxTokens`, so a negative limit passes it. `slice(0, limit)` then drops that many addresses from the end (`Gmgn.NegativeLimitDropsTail`).

## Model

| member | source | states |
|---|---|---|
| JsStrings.TrimStartShape | src/modules/dexscreener.js:54 | the start-trimmed text is a suffix, everything removed is white space, and it does not start with white space |
| JsStrings.TrimEndShape | src/modules/dexscreener.js:60 | the end-trimmed text is a prefix, everything removed is white space, and it does not end with white space |
| JsStrings.TrimShape | src/modules/dexscreener.js:61 | `trim` yields a contiguous slice with only white space on either side, and no white space at either of its own ends |
| JsStrings.TrimEmptyIff | src/modules/dexscreener.js:54 | a text trims to "" exactly when it is all white space, which is when the `||` default applies |
| JsStrings.TrimUnchanged | test.js:75 | a text with no white space at either end is its own trimmed text |
| JsStrings.TrimIdempotent | test.js:77 | trimming twice is trimming once |
| JsStrings.ContainsIff | src/modules/dexscreener.js:43 | `includes` holds exactly when the pattern occurs at some index |
| JsStrings.LastSegment | src/modules/dexscreener.js:86 | `split("/").pop()` is a suffix of the URL without '/', preceded by '/' unless it is the whole URL |
| JsStrings.NatToString | src/modules/gmgn.js:11 | the rendering is non-empty decimal digits with no leading zero |
| JsStrings.NatToStringRoundTrip | src/modules/gmgn.js:11 | reading the rendered digits back gives the number |
| Search.FindFirst | src/modules/dexscreener.js:60 | the result is the first index whose element meets the predicate, or none when no element does |
| FileName.HasForbiddenChar | src/modules/dexscreener.js:28 | the regular-expression test holds exactly when some character is outside `[a-zA-Z0-9_-]` |
| FileName.ValidFileName | test.js:43-45 | a name passes exactly when it is non-empty and every character is a letter, digit, '_' or '-', so it has no '/', '\\' or '.' |
| ControlLocator.LocateSpec | src/modules/dexscreener.js:41-51 | the loop ends on the first button whose text contains "Top Traders", all earlier texts read; it finds nothing exactly when every text was read and none contains it; otherwise a rejected read ends it, after only readable non-matching buttons |
| ControlLocator.LocateButton | src/modules/dexscreener.js:39-51 | the `for` loop with its early `break` and its awaited text reads ends exactly where `Locate` says, the first button it stops at |
| ControlLocator.ClickedButtonShowsLabel | test.js:54-66 | the clicked button's text has an occurrence of "Top Traders" and no earlier button's text (all read) has one; when every text is read and none has one, nothing is clicked |
| FieldExtractor.LabelIndexSpec | src/modules/dexscreener.js:60 | `findIndex` finds the first span whose trimmed text equals the label, and fails exactly when no span shows it |
| FieldExtractor.ValueAfterLabelSpec | test.js:73-80 | the value is never empty: "N/A" without the label; otherwise the trimmed next span, or "N/A" when that span is missing or blank |
| FieldExtractor.ValueAfterLabelSource | src/modules/dexscreener.js:58-62 | conversely, a value other than "N/A" is the trimmed span right after the first label span, and every value is already trimmed |
| FieldExtractor.OnlyInLastSpan | src/modules/dexscreener.js:61 | a label shown only by the last span reads "N/A", since there is no span after it |
| FieldExtractor.MetricsDefaultPerKey | src/modules/dexscreener.js:64-70 | all five keys are non-empty, and each key whose label is missing is "N/A" whatever the other labels do |
| FieldExtractor.PriceOnlyPage | test.js:82-88 | with spans ["Price USD", v] the USD price is v and the other four keys are "N/A", "Price" included |
| FieldExtractor.ProjectNameDefault | src/modules/dexscreener.js:53-55 | the name is never empty: the trimmed heading, or "Unknown Project" when there is no heading or it is blank |
| TableExtractor.LinkShape | src/modules/dexscreener.js:82-83 | a row has a link exactly when some anchor matches a Solscan or a BscScan pattern; the link is the first Solscan anchor, or else the first BscScan anchor |
| TableExtractor.SolscanPreferred | test.js:100 | a Solscan anchor anywhere in the row wins over any BscScan anchor |
| TableExtractor.CellTextAt | src/modules/dexscreener.js:93 | `cells[k]?.textContent?.trim()` is the trimmed text of cell k, and undefined past the last cell |
| TableExtractor.GetValuesFallbacks | src/modules/dexscreener.js:95-99 | the USD amount falls back from the primary span to the secondary one, tokens and txns are the first two count spans, and a missing cell gives three "" |
| TableExtractor.RecordFacts | src/modules/dexscreener.js:101-110 | a pushed record has rank index + 1 and the row's address (the last segment of its URL), and its balance is not "Unknown" when the row is not flagged |
| TableExtractor.Candidates | src/modules/dexscreener.js:81 | the loop looks at every row once (one candidate per row) |
| TableExtractor.CandidateFacts | test.js:99-111 | the candidate of row i is linked exactly when the row has a link, and then carries the row's address, the "Unknown" flag and record |
| TableExtractor.CandidatesWellRanked | src/modules/dexscreener.js:102-103 | every linked candidate's record is ranked by raw position plus one, carries the candidate's address and a known balance if unflagged |
| TableExtractor.ScanIsKeptRecords | src/modules/dexscreener.js:88-93 | after n rows `seen` holds every linked address so far, and `traders` is exactly the records of the kept candidates |
| TableExtractor.KeptRecordsFromKept | src/modules/dexscreener.js:101 | each kept record with rank r is the record of kept candidate r - 1 |
| TableExtractor.KeptRecordsIncreasing | src/modules/dexscreener.js:81 | kept records come in strictly increasing rank |
| TableExtractor.KeptRecordsComplete | src/modules/dexscreener.js:101-110 | every kept candidate has its record in the output |
| TableExtractor.RanksBoundLength | src/modules/dexscreener.js:102 | strictly increasing ranks within 1..b leave room for at most b records |
| TableExtractor.KeptRecordsBound | src/modules/dexscreener.js:81-111 | there are never more records than candidates looked at |
| TableExtractor.KeptRecordsDistinct | src/modules/dexscreener.js:88-89 | kept records have pairwise distinct addresses |
| TableExtractor.UnknownClaimsAddress | src/modules/dexscreener.js:89-93 | a flagged candidate first with its address claims it: no kept record carries that address |
| TableExtractor.KeptRecordsKnownBalance | src/modules/dexscreener.js:93 | no kept record has the balance "Unknown" |
| TableExtractor.TopTradersIsKeptRecords | src/modules/dexscreener.js:76-114 | the table extractor's output equals the declarative list of kept records |
| TableExtractor.RowKeptIsKept | test.js:100-111 | a row is kept exactly when it has a link, no earlier linked row has its address, and its balance is not "Unknown" |
| TableExtractor.TopTradersAreKeptRows | test.js:94-134 | each record of rank k is built from raw row k - 1, which is kept; every kept row has its record |
| TableExtractor.RanksFollowRows | src/modules/dexscreener.js:102 | ranks are within 1..rows and strictly increasing, so row order is kept; no more records than rows; each address is its URL's last segment |
| TableExtractor.AddressesDistinct | src/modules/dexscreener.js:88 | output addresses are pairwise distinct, and no linked row before a record's own row has that address (first occurrence wins) |
| TableExtractor.NoUnknownBalance | test.js:111 | no record has the balance "Unknown" |
| TableExtractor.UnlinkedRowsIgnored | src/modules/dexscreener.js:83 | a row without an explorer link yields no record |
| TableExtractor.DuplicateAndUnknownCandidates | src/modules/dexscreener.js:88-93 | linked candidates (a, a duplicate of a, a flagged new address) yield only a's record |
| TableExtractor.RankGapCandidates | src/modules/dexscreener.js:93 | a flagged candidate followed by a kept one with another address yields only the second one's record |
| TableExtractor.CollectTraders | test.js:94-134 | the row loop with its `seen` set returns exactly the functional scan `TopTraders` of the rows |
| TableScenarios.UnknownRowClaimsAddress | src/modules/dexscreener.js:88-93 | the first row linking to an address claims it even with an "Unknown" balance; that address never appears in the output |
| TableScenarios.DuplicateAndUnknownScenario | test.js:99-131 | three rows (a duplicate second one, an "Unknown" third one) give one record, ranked 1, from the first row |
| TableScenarios.RankGapScenario | test.js:121-122 | an "Unknown" row followed by a valid row gives the valid row's record, ranked 2, not 1 |
| Dexscreener.GetTrades | src/modules/dexscreener.js:16-140 | the method's side effects and outcome are exactly the trace `Scrape` |
| Dexscreener.TryBlock | src/modules/dexscreener.js:24-134 | the `try` block, with the button loop, performs exactly `TrySteps` over the page's readings. Each rejecting call (`setUserAgent`, `goto`, `$$`, a text read, one of the later calls) ends it with that error logged, and a missing button with the not-found error |
| Dexscreener.ReadAndSave | src/modules/dexscreener.js:44-133 | after the click, with the row loop: a rejection of the click, the name read, the metrics read, the table wait or the table read ends the block with that error. Otherwise the empty-table warning, the write of the page's output and the write's report, as `AfterClick` |
| Dexscreener.RejectsOnlyOutsideTry | src/modules/dexscreener.js:17-22 | the call rejects exactly when `launch` or `newPage` fails (after only those steps), or when `close` fails; every error inside the `try` is logged instead |
| Dexscreener.AfterClickShape | src/modules/dexscreener.js:53-133 | the steps after the click neither click, navigate nor close |
| Dexscreener.AfterGotoShape | src/modules/dexscreener.js:39-133 | after navigation there is no further navigation or close, and a click is only on the button the loop ended on, after a successful button query |
| Dexscreener.TryStepsNoClose | src/modules/dexscreener.js:24-134 | the `try` block itself never closes the browser |
| Dexscreener.BrowserClosedLast | src/modules/dexscreener.js:137-139 | the browser is closed last exactly when launch and page creation succeeded, and never earlier |
| Dexscreener.InvalidNameStopsBeforeNavigation | src/modules/dexscreener.js:28-30 | an invalid name is logged as "Invalid file name." and the browser closed, with no navigation, click or write |
| Dexscreener.NavigationNeedsValidName | test.js:43-50 | any navigation had a valid name and a user agent set, and goes to the URL given at the prompt |
| Dexscreener.SaveStepsShape | src/modules/dexscreener.js:129-133 | the save steps click nothing, do not close, and write exactly the given output to `<name>.json` |
| Dexscreener.ClickFollowsReadings | src/modules/dexscreener.js:39-45 | a click is on the button the loop ended on, after a valid name, the user agent, navigation and the button query succeeded |
| Dexscreener.WriteFollowsReadings | src/modules/dexscreener.js:28-132 | a write needs a valid name and every earlier awaited call to succeed (user agent, goto, button query, click, name and metric reads, table wait and read); it goes to `<name>.json` with the read output, after launch, page, goto, click, wait |
| Dexscreener.AfterClickWrites | src/modules/dexscreener.js:44-132 | a write after the click needs the click, the reads and the table wait to succeed, writes the given output to `<name>.json`, and comes after the table wait |
| Dexscreener.NoButtonFlow | src/modules/dexscreener.js:51 | when the loop finds no match, the flow logs "'Top Traders' button not found." right after navigating, then closes |
| Dexscreener.ClickFailureFlow | src/modules/dexscreener.js:44 | a rejected click is logged and the browser closed, with nothing read or written |
| Dexscreener.EmptyOutputFlow | src/modules/dexscreener.js:116-117 | an empty trader list is reported as "No top traders found." and then written anyway |
| Dexscreener.ClickIsFirstMatch | test.js:56-64 | the clicked button is the first in document order whose text contains "Top Traders", and every earlier text was read |
| Dexscreener.MissingButtonFails | test.js:66 | when every button text is read and none contains "Top Traders", the run is launch, page, goto, the not-found error, close |
| Dexscreener.UnreadableButtonStops | test.js:56-57 | a button whose text read rejects before any match ends the loop: its rejection is logged right after navigating, and nothing is clicked or written |
| Dexscreener.SavedOutput | test.js:149-153 | a written file is `<name>.json` for a valid name, holding the project name, the clock reading, the five metrics and the top traders of the page, written after the first matching button's click and the table wait |
| Dexscreener.EmptyTableStillSaved | test.js:136-137 | an empty table is reported, and the file is still written with the page's output |
| Gmgn.Addresses | src/modules/gmgn.js:30 | the map keeps one address per ranking entry, in order |
| Gmgn.LimitGuard | src/modules/gmgn.js:10-12 | no browser call happens exactly when `limit > maxTokens`, which rejects with the limit message; an equal limit gets through to the launch |
| Gmgn.LimitMessageQuotesMaximum | src/modules/gmgn.js:11 | the refusal message quotes the maximum, which reads back from its digits |
| Gmgn.TokensArePrefix | src/modules/gmgn.js:27-34 | for 0 <= limit <= max the tokens are the first min(limit, n) ranking addresses, in order |
| Gmgn.NegativeLimitDropsTail | src/modules/gmgn.js:34 | a negative limit passes the guard and drops that many addresses from the end |
| Gmgn.TokensFailuresCollapse | src/modules/gmgn.js:20-40 | past the guard and launch nothing inside the `try` rejects `getTokens`: it yields [] on any failure and closes the browser last; it rejects exactly when the close rejects, with the close's message |
| Gmgn.TokensLaunchFailurePropagates | src/modules/gmgn.js:15-18 | a launch failure rejects with its message and closes nothing |
| Gmgn.CloseFailureKeepsSteps | src/modules/gmgn.js:38-40 | a rejected close changes none of the browser calls made |
| Gmgn.ProjectAllDefined | src/modules/gmgn.js:61-66 | the projection succeeds exactly when every entry has a `native_transfer` |
| Gmgn.ProjectAllOneToOne | src/modules/gmgn.js:61-66 | one record per entry, in order, carrying `address`, `native_transfer.from_address`, `realized_profit` and `created_at` |
| Gmgn.TradesAreProjection | src/modules/gmgn.js:58-70 | with every `native_transfer` present, `getTrades` returns exactly the projected entries, one to one |
| Gmgn.MissingTransferEmptiesTrades | src/modules/gmgn.js:63 | one entry without `native_transfer` makes the whole result [] |
| Gmgn.TradesFailuresCollapse | src/modules/gmgn.js:46-76 | a launch failure rejects; past it only a rejected close rejects, with its message; otherwise `getTrades` yields [] on failure; it navigates when a page exists, and closes last |

## Left out

- Browser lifecycle details: the launch options, the user-agent string, the stealth plugin and the `goto` options are not modelled. Whether each call rejects is modelled, as an answer of the environment.
- The prompts, the awaited log helpers and the sleeps are taken to settle normally. Their promises have no rejection in the model.
- Anchors: one string stands for both the `href` attribute that `a[href*=…]` matches and the resolved `link.href` property whose last path segment becomes the address. A relative or otherwise non-normalised `href` attribute, whose resolved URL differs from it, is not modelled.
- Delays: the `setTimeout` sleeps, including the random one after navigation, are not modelled. They have no effect on the data.
- Console output: `logStep`, the colours, and the five-row `console.table` preview are not modelled. Only `logError` and `logSuccess` of the Dexscreener flow are events. In GMGN, the log calls are not modelled at all.
- `src/utils/logger.js` (the prompt and log helpers) and `getCoinsAddress.js` are not part of this model.
- The two prompts are answers of the environment, `projectUrl` and `jsonFileName`.
- The JSON text of the file: `JSON.stringify(output, null, 2)` is left out. A write event carries the `Output` value and the path.
- `new Date().toISOString()` is the clock reading `now`, a string of the environment.
- CSS selector semantics: the page is given as what the selectors return:
  - the button texts;
  - the heading text;
  - the span texts in document order;
  - per row, the anchor hrefs and the `div[class^='custom-']` cells, with their USD and count spans.

  `href*=` is modelled as substring containment on the href.
- Page changes over time: the page is one snapshot. The button texts are read before the click, and everything else after it, so a page that changes in between is not modelled.
- `waitForSelector` is modelled only as success or a failure message. Which element it waits for is not modelled.
- JSON values in GMGN are opaque (`Scalar`). Only the object structure the code walks through is modelled. The failures of `res.json()`, of a missing `json.data.rank` or of a non-array `json.data` are all one `Failed` answer.
- `maxTokens` comes from `src/config/config.js`, which is not part of this model. It is a parameter of `Gmgn.GetTokens`.
- `Gmgn.GetTokens` takes `limit` as an integer. A non-integer or non-numeric `limit` (JavaScript comparison and `slice` coercion) is not modelled.
- The second `fetch` of `window.location.href` in `getTrades` is modelled as a fetch of the page URL. The modelled URL is the one inside the `Goto` event.
- `Dexscreener.GetTrades` covers both `src/modules/dexscreener.js` and `test.js`. The two differ only in whether the log calls are awaited, and the model does not distinguish that.
- The empty `constructor` and `getCoinsAddress` of the Dexscreener class are placeholders with no behaviour.
- TableExtractor.CollectTraders: its contract is equality with the functional scan `TopTraders`. Deduplication, ordering, ranks and the "Unknown" filter are stated as lemmas about `TopTraders`, not in the method's `ensures`.
