# Gumtree sales-count Lambda: a Dafny model

The Lambda script `lambda_function.py` runs on a schedule. It downloads a
round-robin database (RRD) file and a plaintext log from S3. It reads a count
of items for sale from the first `h1` heading of a Gumtree search page. It
records that count in the RRD and appends a `timestamp|count` line to the log.
It then renders one chart per look-back window (hour, day, week, month, year),
uploads the seven files back to S3 and, when configured to, invalidates the
five charts in CloudFront.

This project models the deterministic core of that script and proves
properties of it:

- `Decimal` and `Scraper` turn the heading's text into a count.
  `get_item_count` keeps the digit characters, joins them and parses the
  result as a decimal number. A heading without digits makes `int('')` raise,
  a heading with more than 4300 digits exceeds `int`'s default digit limit,
  and a page without an `h1` makes `.text` raise. All three failures are
  explicit `Failure` outcomes.
- `Storage` models how `move_files` routes files between the bucket and
  `/tmp/`. A download reads `data/f`. An upload writes `site/images/f` for a
  file ending in `_graph.png` and `data/f` otherwise. `MoveFiles` is the loop
  itself, proved to issue exactly the calls that the `Transfers`
  specification describes.
- `CsvLog` models the log record `str(ts) + "|" + str(count) + "\n"`.
  `LogFile` is the local file that `update_csv` appends to in place. The
  lemmas show that the record splits back on `|` into its two values, and
  that an append adds exactly one line and changes nothing before it.
- `Periods` models the `periods` table, the graph file names, the literal
  upload list and the literal CloudFront invalidation batch.
- `Handler` models `handler` as a script of effects. Every S3 call, the page
  fetch, `rrdtool.update`, the log append, each `rrdtool.graph` and the
  invalidation is recorded, in order, as an `Effect`. A run returns that trace
  together with the response or the exception it ends with. The functions
  `AfterScrape` and `Invoke` specify the trace. The methods `HandleCount` and
  `Handle` build it step by step, with the source's loop over the periods in
  `RenderGraphs`, and are proved equal to the specification.
- `HandlerProperties` proves what a run does:
  - how many effects of each kind it makes, and in what order;
  - that the RRD sample and the log record carry the same observation;
  - that each chart is uploaded after it is rendered, and then invalidated;
  - that the `REFRESH_DISTRIBUTION` flag decides between the two success
    messages and the exception.

Inputs the script gets from outside are parameters of the model:

- the environment variables, as `Handler.Config`;
- the page's heading text, as `Option<string>`;
- the clock, as a natural-number timestamp;
- the invalidation id that CloudFront returns.

Three behaviours of the code are easy to misread, and the model follows the
code in each:

- The flag comparison is case-sensitive: only exactly `"true"` and exactly
  `"false"` are recognised. Any other value, `"True"` included, leaves
  `message` unbound, and the run raises after all seven uploads.
- Uploads pass no content type, so S3 stores the charts with its default.
- `get_item_count` never returns None. A heading without digits, a heading
  with more digits than `int` converts and a page without an `h1` all raise
  inside it. See Findings.

## Model

| member | source | states |
|---|---|---|
| `Decimal.DigitsOf` | lambda_function.py:53 | The filtered text holds only digits, is no longer than the heading, and is empty exactly when the heading has no digit |
| `Decimal.DigitsOfAppend` | lambda_function.py:53 | The filter keeps digits in their original order: filtering a concatenation concatenates the filtered parts |
| `Decimal.DigitsOfDigits` | lambda_function.py:53 | Text made only of digits passes the filter unchanged |
| `Decimal.ValueAppend` | lambda_function.py:53 | Joining digit strings is positional decimal: the left part is shifted one place per digit of the right part |
| `Decimal.Value` | lambda_function.py:53 | The decimal value of `k` digits is below `10^k` |
| `Decimal.NatToStringLength` | lambda_function.py:63 | A number below `10^k` is written with at most `k` digits |
| `Decimal.NatToString` | lambda_function.py:63 | `str(n)` is canonical decimal text: non-empty, all digits, no leading zero unless it is "0" |
| `Decimal.ValueOfNatToString` | lambda_function.py:63 | `int(str(n)) == n` |
| `Decimal.NatToStringOfValue` | lambda_function.py:63 | `str(int(ds)) == ds` for canonical decimal text, so `str` and `int` are inverse on canonical text |
| `Scraper.ExtractCount` | lambda_function.py:53 | Gives a count exactly when the heading has between 1 and 4300 digits, the count being the decimal value of its digits in order; without a digit the result is the `int('')` failure, never 0; with more than 4300 digits it is `int`'s digit-limit failure; a count it gives is short enough for `str` to write back |
| `Scraper.GetItemCount` | lambda_function.py:52-57 | A missing `h1` is the AttributeError failure; otherwise the heading's extraction; never None |
| `Scraper.GetItemCountIntended` | lambda_function.py:54-57 | The None-returning version: a count exactly when `get_item_count` returns one, and the same count |
| `Scraper.ExtractCountEmbedded` | lambda_function.py:53 | A number surrounded by digit-free text is read back exactly, unless it has more than 4300 digits |
| `Scraper.ExtractCountSplit` | lambda_function.py:53 | The count of `a + b` is the count of `a` shifted by the number of digits of `b`, plus the count of `b`, while the digits together stay within the limit; past it, the digit-limit failure |
| `Scraper.ThousandsSeparator` | lambda_function.py:53 | A count written with a thousands separator and trailing words ("1,234 results") reads as 1000 times the leading number plus the group, within the digit limit |
| `Storage.MoveFiles` | lambda_function.py:26-40 | Issues one call per file in list order: a download from `data/f` to `/tmp/f`, or an upload from `/tmp/f` routed by suffix; no call for any other direction |
| `Storage.UploadKey` | lambda_function.py:35-40 | An upload key starts with `site/images/` exactly when the name ends in `_graph.png`, starts with `data/` exactly when it does not, and ends with the file name |
| `Storage.DownloadKey` | lambda_function.py:32 | A download key is `data/` followed by the file name, which can be read back from it |
| `Storage.TransferOf` | lambda_function.py:30-40 | The call for one file is a download exactly for the "download" direction, uses the configured bucket and the file's `/tmp/` path, and has a key ending in the file name |
| `Storage.Transfers` | lambda_function.py:29-40 | One call per file for "download" or "upload", none for any other direction |
| `Storage.SameSuffixSamePrefix` | lambda_function.py:35 | Routing depends only on the last ten characters of the file name |
| `Storage.UploadKeyInjective` | lambda_function.py:37-40 | Different files never share an upload key |
| `Storage.UploadRestoresDownloadKey` | lambda_function.py:32-40 | The upload key equals the download key exactly when the file is not a graph |
| `Storage.DataFileRoundTrip` | lambda_function.py:32-40 | A data file is uploaded from the same local path and to the same key it was downloaded from |
| `Periods.GraphFile` | lambda_function.py:85 | Every `{period}_graph.png` is a graph file, so it routes to the images prefix |
| `Periods.TableDurations` | lambda_function.py:17-23 | Five windows: hour 3600, day 86400, week 604800, month 2592000, year 31536000 seconds |
| `Periods.UploadList` | lambda_function.py:106 | Seven files: the RRD file, the log, then five graph files |
| `Periods.UploadListCoversGraphs` | lambda_function.py:106 | Seven uploads: the RRD and log files, then each period's graph in table order, each routed to `site/images/` |
| `Periods.InvalidationItemsFromTable` | lambda_function.py:116-123 | The five invalidation paths are `/images/{period}_graph.png` for the periods in the order year, hour, day, month, week; `Quantity` is 5 |
| `Periods.InvalidationItemsDistinct` | lambda_function.py:117-123 | No path is invalidated twice |
| `Periods.ChartInvalidated` | lambda_function.py:116-123 | Every period's chart path is in the invalidation batch |
| `Periods.InvalidationMatchesTable` | lambda_function.py:116-123 | As a set, the batch is exactly the chart path of every period, with `Quantity` equal to its length |
| `Periods.UploadedChartKey` | lambda_function.py:37 | A chart's S3 key is its CloudFront path under the `site` folder |
| `Periods.InvalidationCoversUploadedCharts` | lambda_function.py:106-123 | Every uploaded chart's key is the `site` folder plus a path the batch invalidates |
| `CsvLog.RecordLine` | lambda_function.py:63 | A record line has no line break and exactly one pipe character, right after the timestamp's digits |
| `CsvLog.Record` | lambda_function.py:63 | What `update_csv` writes is a single line: it ends with a newline and holds no other |
| `CsvLog.ParseRecord` | lambda_function.py:63 | Only a line with exactly one pipe character parses as a record |
| `CsvLog.AppendRecord` | lambda_function.py:62-63 | The appended log keeps the old text as its prefix, grows, and ends with a newline |
| `CsvLog.RecordLineShape` | lambda_function.py:63 | A record line has no line break and splits on the pipe character into exactly `str(ts)` and `str(count)` |
| `CsvLog.RecordRoundTrip` | lambda_function.py:63 | Splitting a record on the pipe character gives back the timestamp and the count |
| `CsvLog.ParseRecordExact` | lambda_function.py:63 | Every line that parses is exactly the record of its values, so format and parse are inverse |
| `CsvLog.AppendAddsOneLine` | lambda_function.py:62-63 | On a log that is empty or newline-terminated, an append adds exactly one line, the record, after all earlier lines |
| `CsvLog.LogFile.constructor` | lambda_function.py:62 | The log file is `/tmp/` plus the configured name, holding the downloaded text |
| `CsvLog.LogFile.UpdateCsv` | lambda_function.py:60-64 | The file's text becomes the old text followed by one record |
| `Handler.AfterScrape` | lambda_function.py:75-144 | Once the count is known: no effect at all and the 500 response exactly when there is no count; with one, the RRD update comes first |
| `Handler.Invoke` | lambda_function.py:68-144 | Every run begins with the downloads and the fetch; it raises a scraping error exactly when `get_item_count` fails, and then makes no further effect |
| `Handler.InvokeIntended` | lambda_function.py:68-144 | With the None-returning scraper, every run begins with the downloads and the fetch, never raises a scraping error, and answers 500 exactly when there is no count |
| `Handler.RenderGraphs` | lambda_function.py:83-103 | The loop over the periods renders exactly the charts `GraphEffects` lists, in table order |
| `Handler.HandleCount` | lambda_function.py:75-144 | Builds, step by step, exactly the trace and outcome `AfterScrape` specifies |
| `Handler.Handle` | lambda_function.py:68-144 | Downloads, fetches, then raises on a failed scrape or continues as `HandleCount`; equals `Invoke` |
| `HandlerProperties.PreludeShape` | lambda_function.py:71-73 | Every run starts with the download of the RRD and the log from `data/` into `/tmp/`, then the page fetch |
| `HandlerProperties.UpdateTraceCounts` | lambda_function.py:75-127 | After a count: one RRD update, one log append, five charts, seven uploads, and one invalidation exactly when the flag is "true" |
| `HandlerProperties.EffectCounts` | lambda_function.py:71-127 | Per effect kind, how many a run makes: 2 downloads and 1 fetch always; without a count nothing else |
| `HandlerProperties.EffectOrder` | lambda_function.py:71-127 | The full order of a run with a count: downloads, fetch, RRD update, log append, charts hour..year, the seven uploads in list order, then the invalidation (18 effects) or nothing more (17) |
| `HandlerProperties.ChartsPublishedAfterRender` | lambda_function.py:83-123 | Each period's chart is uploaded, from the file its rendering wrote, seven steps later, to the key that the invalidation names |
| `HandlerProperties.ObservationConsistent` | lambda_function.py:77-80 | The RRD sample reads back as the count, and the log line is one record that parses as (timestamp, count) |
| `HandlerProperties.LogAfterRun` | lambda_function.py:60-80 | Replaying the run's appends leaves the log with exactly one record appended when a count was found, unchanged otherwise |
| `HandlerProperties.SuccessMessagesDistinct` | lambda_function.py:128-131 | The "invalidated" and "skipping" bodies differ for every id and flag |
| `HandlerProperties.OutcomeByFlag` | lambda_function.py:109-137 | With a count, the run answers 200 exactly when the flag is "true" or "false"; otherwise `message` is unbound and it raises |
| `HandlerProperties.FailureResponseUnreachable` | lambda_function.py:138-144 | As written, no run ever answers 500 |
| `HandlerProperties.NoDigitsHeadingRaises` | lambda_function.py:53-57 | A heading without digits makes the handler raise, where the intended handler answers 500 naming the URL |
| `HandlerProperties.IntendedFailureLeavesStorageAlone` | lambda_function.py:138-144 | With the intended scraper, a run without a count answers 500 with the URL in the body, and its only effects are the downloads and the fetch; with a count it runs exactly as written |

## Left out

- The HTTP request, its user-agent header and the BeautifulSoup parse (lines 46-52) are foreign code. The model starts from the `h1` heading text, or its absence.
- The S3 calls, `rrdtool.update`, `rrdtool.graph` and `create_invalidation` are recorded as effects and not executed. Their failures are not modelled; the script would propagate them.
- `Handler.Effect`: a `RenderGraph` records the output file, the period name and its length in seconds. It does not record the other `rrdtool.graph` arguments: size, title, watermark, DEF/LINE/GPRINT.
- The `CallerReference` (line 124) is derived from the floating-point clock and is not modelled. The invalidation id CloudFront returns is a parameter.
- `time.time()` is a natural-number parameter, already truncated as `int(...)` truncates it. A clock before 1970 is not modelled.
- The environment-variable reads (lines 9-14) are the fields of `Handler.Config`.
- The `print` calls and `main` (lines 147-152) have no effect on the result.
- `Scraper.ExtractCount`: only ASCII `0`-`9` count as digits. Python's `str.isdigit` also accepts other Unicode digits. Some of those, such as superscripts, would make `int` raise.
- The 4300-digit limit on `int` is Python's default. A limit changed with `sys.set_int_max_str_digits` is not modelled.
- `Decimal.NatToString`: `str` has the same 4300-digit limit, which the model does not apply. A count always fits it, as `Scraper.ExtractCount` shows. A timestamp is far below it.
- `Storage.Transfers`: its contract states the number of calls. What each call is follows from its definition through `TransferOf`, and `HandlerProperties.EffectOrder` states it for the uploads of a run.
- `CsvLog.LogFile` holds the log as text. File opening, closing and I/O errors are not modelled.
- Concurrency: one invocation at a time is assumed, as the script does.

## Findings

| source | as written | input that shows it | evidently intended | confidence | as-written member | corrected member |
|---|---|---|---|---|---|---|
| lambda_function.py:53-57 | `int('')` raises on a heading without digits, and a missing `h1` raises too, so `get_item_count` never returns None and the 500 response at lines 138-144 can never be produced | an `h1` whose text is "none" | no count gives None, so the handler answers 500 naming the URL without updating or uploading anything | high that the 500 branch is dead; medium on intent; not executed | `HandlerProperties.NoDigitsHeadingRaises` | `HandlerProperties.IntendedFailureLeavesStorageAlone` |
