# lighthouse-measure, modelled in Dafny

lighthouse-measure runs a Lighthouse performance audit against each URL in a user-managed list
and shows, per URL, the average of repeated runs. This project models its two pieces of logic:

- **The browser client** (`web/index.js`). The client keeps two collections in the page's
  storage: an ordered list of tracked URLs and an append-only log of measurement results. It
  has five operations:
  - adding a typed URL (trimmed, and rejected when it is empty, invalid or already tracked);
  - removing a URL, which also drops every log entry for it;
  - saving a result;
  - measuring every URL in turn, where one URL's failure does not stop the round;
  - the per-URL average: the entry count and the rounded mean of LCP, FCP and TBT.

  This is the class `Client.Store`. Its `urls` and `log` fields stand for the two stored
  collections. Its methods change them in the same way the source functions do.
- **Result normalisation on the server** (`measure.js`). The fixed Lighthouse option block is a
  constant. A report becomes the four metrics: the score times 100 and the three timings, each
  rounded with `Math.round`, and each 0 when the report lacks it.

Modules:

| module | file | models |
|---|---|---|
| `Wrappers` | Wrappers.dfy | `Option`, for figures a report may lack |
| `Rounding` | Rounding.dfy | `Math.round` on reals |
| `Text` | Text.dfy | `String.prototype.trim` |
| `Sequences` | Sequences.dfy | `Array.prototype.filter`, and the facts about it used by the client |
| `Measure` | Measure.dfy | measure.js: the options, the report, `Extract`, the result record |
| `MeasurementLog` | MeasurementLog.dfy | the log's filters, the sums and `calculateAverage` |
| `Client` | Client.dfy | web/index.js: `Store` with `AddUrl`, `RemoveUrl`, `SaveMeasurement`, `MeasureAll` |

Things the model takes as inputs:

- URL syntax checking (`new URL(text)` not throwing) is the function `Store.validUrl`. It is
  fixed when the store is built, and nothing is assumed about it.
- The server request made for each URL in `measureAll` is the sequence of outcomes given to
  `MeasureAll`. Entry `i` is `Ok(result)` or `Err(message)` for `urls[i]`.
- The audit report is the argument of `Extract`.
- The completion time `measuredAt` is an opaque string argument.

Behaviour of the code that is easy to expect otherwise, and that the model follows:

- `calculateAverage` averages only LCP, FCP and TBT (web/index.js:178-183). The score is not
  averaged, and `CalculateAverage` does not average it either.
- Rounding is `Math.round`, which rounds halves toward positive infinity, not away from zero.
  The two rules agree on the non-negative values that occur here. `Rounding.Round` is
  `Math.round`.
- The options are one fixed block that switches throttling off (measure.js:4, 17-25), and the
  result record is `{url, measuredAt, metrics}` (measure.js:59-63).
- `getUrls` and `getMeasurements` call `JSON.parse` with no guard (web/index.js:34-46), so corrupt
  stored data throws. Only absent or empty stored data gives `[]`, which is `Store.Fresh`.
- The server answers a request for `url` with the record that `measureUrl(url)` builds
  (server.js:19-28), and that record's `url` is the requested one (measure.js:59-60). The
  predicate `Client.EchoesUrls` states this for a round: a successful `outcomes[i]` carries
  `urls[i]`. The per-URL facts about a round hold under it.

## Model

| member | source | states |
|---|---|---|
| `Rounding.Round` | measure.js:49-56 | `Math.round(x)` is the integer `r` with `r - 1/2 <= x < r + 1/2` |
| `Rounding.RoundIsNearest` | measure.js:54-56 | that bound fixes the result: `Round(x) == n` exactly when `n - 1/2 <= x < n + 1/2` |
| `Rounding.RoundOfInteger` | measure.js:54-56 | an integral value comes back unchanged |
| `Rounding.RoundMonotonic` | measure.js:54-56 | rounding preserves order |
| `Rounding.HalvesRoundUp` | measure.js:49 | halves round toward positive infinity: 2.5 to 3, -2.5 to -2, -0.5 to 0 |
| `Rounding.MeanWithin` | web/index.js:179-181 | the rounded mean of `n > 0` integers lying in `lo..hi` lies in `lo..hi` |
| `Text.TrimStart` | web/index.js:57 | the result is a suffix of the input; it starts with a non-whitespace character; everything dropped is whitespace |
| `Text.TrimEnd` | web/index.js:57 | the result is a prefix of the input; it ends with a non-whitespace character; everything dropped is whitespace |
| `Text.Trim` | web/index.js:57 | the result is empty exactly when the input is all whitespace; otherwise it neither starts nor ends with whitespace |
| `Text.TrimIsSlice` | web/index.js:57 | the trimmed text is a contiguous slice of the input, and everything before and after it is whitespace |
| `Text.TrimLeavesTrimmed` | web/index.js:57 | text with no whitespace at either end is unchanged |
| `Text.TrimIdempotent` | web/index.js:57 | trimming twice is trimming once, so every added URL is its own trim |
| `Sequences.Filter` | web/index.js:86 | every kept element passes the test, and the result is no longer than the input |
| `Sequences.FilterCounts` | web/index.js:91 | each passing element is kept as often as it occurs, and no failing element is kept |
| `Sequences.FilterIsSubsequence` | web/index.js:91 | filtering keeps the relative order of what it keeps |
| `Sequences.FilterAppend` | web/index.js:172 | filtering a concatenation filters each part |
| `Sequences.FilterAll` | web/index.js:172 | a filter that every element passes returns its input |
| `Sequences.FilterFilter` | web/index.js:172 | filtering by `p` and then by a stronger `q` is filtering by `q` alone |
| `Sequences.FilterKeepsDistinct` | web/index.js:86 | filtering a duplicate-free sequence leaves it duplicate-free |
| `Sequences.Without` | web/index.js:86 | `urls.filter(u => u !== url)` contains no `url`; it contains every other element of the input and nothing else; it keeps the input's order (it is a subsequence of it) |
| `Sequences.WithoutKeepsDistinct` | web/index.js:84-87 | removing a URL keeps the URL list duplicate-free |
| `Sequences.AppendThenWithout` | web/index.js:76-86 | appending an absent element and then filtering it out gives back the original sequence, so adding a new URL and then removing it restores the URL list |
| `Sequences.FilterNone` | web/index.js:172 | a filter that no element passes returns nothing |
| `Measure.OptionsAreFixed` | measure.js:5-26 | performance only; desktop form factor; a non-mobile 1350x940 screen at scale 1 with emulation on; throttling method `provided`; all throttling values 0 and CPU multiplier 1 |
| `Measure.Extract` | measure.js:49-57 | a score in 0..1 gives a score in 0..100; each non-negative timing gives a non-negative number of milliseconds |
| `Measure.MeasurementResult` | measure.js:49-63 | the record carries the requested URL and the time unchanged, and the report's extracted metrics, whose score lies in 0..100 when the report's score lies in 0..1 and whose timings are non-negative when the report's are |
| `Measure.FiguresAreNearest` | measure.js:49-56 | each metric is within half a unit of its defaulted figure (for the score, of the score times 100) |
| `Measure.PerformanceScore` | measure.js:49 | `categories.performance?.score \|\| 0`: the report's score when it has one, 0 when the category or its score is missing |
| `Measure.NumericValue` | measure.js:54-56 | `audits[id]?.numericValue \|\| 0`: the audit's value when the report has one, 0 when the audit or its value is missing |
| `Measure.AbsentFiguresAreZero` | measure.js:49-56 | each missing figure becomes 0 on its own: a missing score gives score 0, and a missing LCP, FCP or TBT audit value gives 0 ms for that timing, whatever the other figures are |
| `Measure.WholeFiguresPassThrough` | measure.js:49-56 | whole-millisecond timings and a score that is a whole percentage come through exactly, whatever other audits the report holds |
| `MeasurementLog.ForUrl` | web/index.js:172 | `log.filter(m => m.url === url)`: no more entries than the log, and every one of them has the URL |
| `MeasurementLog.OtherThan` | web/index.js:91 | `log.filter(m => m.url !== url)`: no more entries than the log, and none of them has the URL |
| `MeasurementLog.SumOf` | web/index.js:179-181 | the `reduce` sum of one timing; the sum of non-negative timings is non-negative |
| `MeasurementLog.RoundedMean` | web/index.js:179-181 | `Math.round(sum / count)`: the result is within half a unit of the mean of one timing over the URL's entries, a half rounding up |
| `MeasurementLog.CalculateAverage` | web/index.js:170-184 | the count is the number of entries for the URL; the no-data value is returned exactly when no entry has that URL; an averaged result has a positive count |
| `MeasurementLog.ForUrlIsItsEntries` | web/index.js:172 | the entries averaged for a URL are exactly its log entries, each as often, in log order |
| `MeasurementLog.OtherThanKeepsTheRest` | web/index.js:90-92 | the cascade delete keeps every entry of every other URL, as often and in log order, and none of the removed URL |
| `MeasurementLog.RemovedUrlHasNoData` | web/index.js:90-92 | after the cascade delete, the removed URL's average is the no-data value |
| `MeasurementLog.RemovalKeepsOtherAverages` | web/index.js:90-92 | the cascade delete leaves every other URL's average unchanged |
| `MeasurementLog.AppendAccumulates` | web/index.js:160-164 | saving a result adds one to its URL's count and leaves every other URL's average unchanged |
| `MeasurementLog.AppendAddsCounts` | web/index.js:141-152 | appending a batch adds the batch's entries for a URL to that URL's count |
| `MeasurementLog.AppendOthersKeepsAverage` | web/index.js:141-152 | appending a batch with no entry for a URL leaves that URL's average unchanged |
| `MeasurementLog.ForUrlAppend` | web/index.js:172 | the entries for a URL in two log parts put together are the entries in the first part followed by those in the second |
| `MeasurementLog.ForUrlSingle` | web/index.js:172 | a one-entry log has that entry for its own URL and nothing for any other URL |
| `MeasurementLog.ForUrlNone` | web/index.js:172 | a log with no entry naming a URL has no entries for it |
| `MeasurementLog.CountIsOccurrences` | web/index.js:172-178 | the count equals the number of log positions holding an entry for the URL |
| `MeasurementLog.SumWithin` | web/index.js:179-181 | a sum of `n` values in `lo..hi` lies between `n*lo` and `n*hi` |
| `MeasurementLog.AverageWithin` | web/index.js:178-183 | each averaged timing lies between the smallest and largest value of that timing among the URL's entries |
| `MeasurementLog.AverageOfEqualValues` | web/index.js:178-183 | when all of a URL's entries agree on a timing, that timing's average is that value |
| `MeasurementLog.SingleEntryAverage` | web/index.js:170-184 | in any log, a URL with exactly one entry averages to exactly that entry's three timings, with count 1 |
| `MeasurementLog.SumsAgree` | web/index.js:179-181 | sequences that agree pointwise on one timing have the same sum of it |
| `MeasurementLog.FieldsAveragedIndependently` | web/index.js:179-183 | each timing's average depends only on that timing of the URL's entries, not on the other timings or the score |
| `MeasurementLog.TwoRunsExample` | web/index.js:170-184 | runs of 1000/500/50 ms and 1200/600/150 ms average to 1100/550/100 ms, count 2 |
| `Client.Successes` | web/index.js:141-147 | a round yields no more results than requests; which results, per URL, is stated by `SuccessesAreResults` and `ResultsForUrl` |
| `Client.SuccessesAreResults` | web/index.js:145-147 | the results of a round are exactly the results of its successful requests |
| `Client.Failures` | web/index.js:141-151 | a round yields no more failure reports than requests; which reports, per URL, is stated by `ErrorsAreReported`, `FailuresComeFromErrors` and `ReportsForUrl` |
| `Client.ErrorsAreReported` | web/index.js:149-151 | every failed request is reported with its own URL and error message |
| `Client.FailuresComeFromErrors` | web/index.js:149-151 | every failure report comes from a failed request, and names the URL of that request and its error |
| `Client.FailuresAppend` | web/index.js:141-152 | the failure reports of a round over two parts of the list are those of the first part followed by those of the second |
| `Client.SuccessesAppend` | web/index.js:141-152 | a failure stops nothing: later outcomes contribute their results as they would have anyway |
| `Client.NothingForOtherUrls` | web/index.js:141-152 | a round over a list that does not hold `url` yields no result and no failure report for `url` |
| `Client.FailuresAround` | web/index.js:141-152 | the failure reports of a round are those of the URLs before position `i`, then the report for `urls[i]` if it failed, then those of the URLs after it |
| `Client.ResultsForUrl` | web/index.js:141-147 | for distinct URLs the server echoes, the results for `urls[i]` are its own result when its request succeeded and nothing when it failed |
| `Client.ReportsForUrl` | web/index.js:141-151 | for distinct URLs the server echoes, the failure reports for `urls[i]` are one report with its error when its request failed and none when it succeeded |
| `Client.EveryUrlAccountedFor` | web/index.js:141-152 | the results and failure reports of a round together number as many as its URLs; for distinct URLs the server echoes, each URL has exactly one of the two |
| `Client.RoundEffectOnUrl` | web/index.js:141-152 | for distinct URLs the server echoes, a round adds one entry to the count of a URL whose request succeeded and leaves the average of a URL whose request failed unchanged |
| `Client.AllSucceeded` | web/index.js:141-152 | when every request succeeds, the round yields every result, in URL order |
| `Client.AllFailed` | web/index.js:149-151 | when every request fails, the log gains nothing |
| `Client.Store.Fresh` | web/index.js:34-46 | with nothing stored, both collections are empty and the invariant holds |
| `Client.Store.Load` | web/index.js:34-46 | the collections are what storage holds |
| `Client.Store.AddUrl` | web/index.js:56-82 | empty trimmed input, a failed URL check and a duplicate each leave the list unchanged, with their own outcome; otherwise the trimmed URL is appended after the earlier ones; the log is unchanged; the list stays duplicate-free and holds only trimmed, valid, non-empty URLs |
| `Client.Store.RemoveUrl` | web/index.js:84-96 | the list becomes the old list without the URL and the log the old log without its entries, each keeping its order (both are subsequences of the old ones); the URL's average is then the no-data value; the invariant is kept |
| `Client.Store.SaveMeasurement` | web/index.js:160-164 | the log grows by exactly the result, at the end; the URL list is unchanged |
| `Client.Store.MeasureAll` | web/index.js:133-158 | the URL list is unchanged; the log grows by exactly the successful results, in URL order; failures are reported in URL order; an empty list changes nothing; for a valid list the server echoes, each URL whose request succeeded has one more entry in its count and each URL whose request failed keeps its average |

## Left out

- server.js is not part of this model beyond the echo stated by `Client.EchoesUrls`. It is HTTP routing and static serving, plus a 400 reply when the request has no `url`.
- The browser launch and kill, and the `lighthouse(...)` call (measure.js:35-44, 64-67), are foreign I/O. The report is an input.
- `new URL(...)` is a foreign parser. It is the opaque function `Store.validUrl`.
- The `fetch` in the client's `measureUrl` (web/index.js:119-131) is not modelled. Its outcome per URL (`Ok`/`Err`) is an input. The model assumes the server's JSON reply is a `Measurement`.
- Storage JSON (de)serialisation is not modelled: the collections are fields. A corrupt stored value throws in `JSON.parse`; the model does not represent that failure.
- The DOM work is UI and is not modelled: `renderUrlList`, `renderResults`, `showStatus`, `hideStatus`, clearing the input, and the button state. Failure messages appear only as `FailureReport`s.
- `async`/`await` is not modelled. `MeasureAll` is a plain sequential loop, and URLs added or removed while a round awaits the server are not modelled.
- The `measuredAt` timestamp is an opaque string supplied by the caller; the clock is not modelled.
- Rounding.Round: computes on exact reals, not IEEE doubles. Floating-point effects of `score * 100`, of the division in the mean and of huge sums are not captured.
- Measure.Extract: a present figure of `NaN` or `0` is not distinguished from an absent one. Both give 0 via `|| 0`, and the model only has present reals.
- Text.Trim: works on Unicode scalar values rather than UTF-16 code units. All the characters it strips are in the Basic Multilingual Plane, so this does not change the result.
- Client.Store.Load: the stored collections are taken as they are. Hand-edited storage can hold duplicates or invalid URLs, so the invariant is not established here. The methods keep the invariant only when it held before.
- Client.Store.MeasureAll: only a failed request is modelled as an error. The same `try` (web/index.js:145-151) also catches an exception thrown by `saveMeasurement` or `renderResults`, for example a full storage quota; the model's save and render cannot fail.
- Client.Successes: its own contract only bounds the length. Which results a round yields is stated by `SuccessesAreResults`, `SuccessesAppend`, `ResultsForUrl` and `AllSucceeded`.
- Client.Failures: its own contract only bounds the length. Which reports a round yields is stated by `ErrorsAreReported`, `FailuresComeFromErrors`, `ReportsForUrl` and `EveryUrlAccountedFor`.
- Client.EveryUrlAccountedFor: the per-URL half holds only for distinct URLs the server echoes (`Client.EchoesUrls`). With a repeated URL, that URL gets one result or report per occurrence.
