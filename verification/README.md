# Verified models of operator-metering

Dafny models of the parts of the metering operator that are easy to get subtly
wrong, with proofs of what they promise over every input, every run and every
failure. `dafny verify dfyconfig.toml` checks the whole project.

| part | modules |
|---|---|
| test2json: line buffer, converter, pending results | `Bytes`, `Utf8`, `LineBuffers`, `LineLaws`, `Tokenizer`, `Converter`, `ConverterLaws`, `EventCuts`, `LineSyntax`, `LineActions`, `TestForest`, `ForestRuns` |
| Prometheus importer: ranges, import loop, batched inserts | `TimeRanges`, `Importer`, `ImporterLaws`, `QueriedMinutes`, `PartialStores`, `ImportedSamples`, `MetricStore`, `InsertText` |
| Reports: reconcile loop, data readiness | `Reports`, `ReportLaws`, `ReportSteps`, `DataReadiness` |
| Dependency resolver | `Dependencies`, `DependencyLaws`, `Reachability`, `CycleLaws`, `ResolutionLaws` |
| Hive partitions, column types | `Partitions`, `PartitionLaws`, `ColumnTypes` |
| shared | `Options`, `Sequences` |

Code that changes things step by step is modelled by classes and loops
(`LineBuffer`, `Converter`, `PrometheusImporter`, `Report`, `ResolverContext`,
`HiveTable`, …), each proved equal to a function on values; the laws are proved
about those functions.

## Conventions

- Bytes are numbers from 0 to 255; the masks of trimUTF8 are written as ranges.
- Times and durations are unbounded integers (nanoseconds), with the zero time on
  a whole minute.
- A lineBuffer returns its callbacks as a sequence. No callback touches the
  buffer that makes it, so this shows the same as calling them on the way.
- Standard library and cron functions are parameters: `lower` (decode a rune and
  test it with unicode.IsLower), `trimSpace`, the JSON decoders, and `next`: a
  later time on a whole second, or the zero time (`Ticks`); for cron expressions
  the least activation (`IsCron`), which @every schedules are not.
- Report times are whole seconds in the laws over runs: metav1.Time is written
  with second precision.
- A minute counts as queried if a range that holds it was answered and the answer
  handed to the store.
- Prometheus, Presto, Hive and the API server are given by scripts of outcomes
  that a theorem quantifies over. Prometheus answers with samples inside the
  range asked for; the importer is the only writer of its table.
- strings.ToUpper and strings.ToLower are modelled as far as their result can be
  ASCII.

## Where the code and its documentation differ

- `truncateToSecond` truncates to the minute (pkg/operator/prestostore/query.go:207-209).
- The first cap on the query range subtracts end from start and never shortens an
  interval (pkg/operator/prestostore/importer.go:150-157); the cap in
  ImportFromTimeRange does.
- The comment on lineBuffer says that whole lines that fit are passed to line;
  a benchmark line whose tab arrives before its newline is passed on in parts
  (`Tokenizer.CutsInvisibleIff` says exactly when this shows in the callbacks,
  `EventCuts.EventsInvisibleIff` when it shows in the events).
- The panic on a period that ends before it starts, which should never happen,
  happens for valid reports whose schedule has no further activation after a last
  report time, reportingStart or next report time
  (`ReportLaws.PanicsWhenExhausted`). A report without any of these is computed
  from the zero time instead and can generate an empty period there
  (`ReportLaws.NeverActiveUnstarted`).
- reportingEnd is not compared with the start of the period: moved back, or set
  before the first period of a report without reportingStart, it gives a period
  that runs backwards (`ReportLaws.ForwardIff`).
- Fifty queries in a row are reported as a cycle (`ResolutionLaws.FiftyInARow`).
- Inputs are resolved once per name over all queries, so that a given value can
  lose to a default and a reference can go unlisted (`Reachability`).
- The importer resumes behind the newest stored timestamp: a store that fails
  between two samples of the same time loses the second
  (`PartialStores.NothingLostUnlessTied`).
- The import status only records the first and last minute: after a restart with
  an empty table it can cover minutes that were never queried
  (`DataReadiness.WindowQueriedIff`).
- A sub-report that has never reported does not hold back the reports that depend
  on it (`Reports.UnmetReports`).

## Model

| member | source | states |
|---|---|---|
| Utf8.TrimUTF8 | gotools/test2json/internal/test2json/test2json.go:428-450 | the backward scan returns the cut `Trim`, a function of the last three bytes |
| Utf8.TrimKeepsCharacters | gotools/test2json/internal/test2json/test2json.go:423-450 | if `p + r` is valid UTF-8 (section 4 of RFC 3629), cutting `p` where trimUTF8 says leaves `p[..t]` and `p[t..] + r` valid |
| Utf8.TrimHoldsLittle | gotools/test2json/internal/test2json/test2json.go:428-450 | and what is held back holds no whole character |
| Utf8.FullBufferShrinksIff | gotools/test2json/internal/test2json/test2json.go:74-75 | a full buffer always hands on at least one byte, whatever it holds, if and only if its capacity is at least 4 |
| LineBuffers.LineBuffer.constructor | gotools/test2json/internal/test2json/test2json.go:332-343 | a new buffer of capacity at least 4 is empty and not mid-line |
| LineBuffers.LineBuffer.Write | gotools/test2json/internal/test2json/test2json.go:346-397 | the in-place buffer makes exactly the calls of `WriteTo` and is left with its rest; it ends, with free space |
| LineBuffers.LineBuffer.WriteRound | gotools/test2json/internal/test2json/test2json.go:348-395 | one round: copy what fits, scan, emit a fragment of a full buffer, slide |
| LineBuffers.LineBuffer.Fill | gotools/test2json/internal/test2json/test2json.go:349-351 | the copy takes exactly the bytes that fit, behind the bytes held |
| LineBuffers.LineBuffer.Slide | gotools/test2json/internal/test2json/test2json.go:392-395 | sliding keeps the bytes from the cursor on, in order |
| LineBuffers.LineBuffer.Flush | gotools/test2json/internal/test2json/test2json.go:400-406 | flush hands on the held bytes as one part and leaves mid alone |
| LineBuffers.ProcessLines | gotools/test2json/internal/test2json/test2json.go:354-379 | the inner loop makes the calls of `Scan` and stops at the first byte not handed on |
| LineBuffers.HoldFragment | gotools/test2json/internal/test2json/test2json.go:357-367 | where no line ends, a benchmark name is passed on with its tab, anything else waits |
| LineLaws.WriteConserves | gotools/test2json/internal/test2json/test2json.go:346-397 | the bytes of the calls followed by the held bytes are the held bytes before followed by the bytes written, for every input |
| LineLaws.WriteTrace | gotools/test2json/internal/test2json/test2json.go:328-343 | Line is called only with a whole line and only when no line is in progress; a Part leaves a line in progress unless it ends one; a write that ends a line leaves the buffer empty and not mid-line |
| LineLaws.WriteKeepsUtf8 | gotools/test2json/internal/test2json/test2json.go:336-337 | if held bytes, bytes written and bytes to come are valid UTF-8 together, every slice handed on is valid and the rest is valid with what is to come |
| Tokenizer.RoundIsFeed | gotools/test2json/internal/test2json/test2json.go:346-397 | a round of write equals feeding its bytes one at a time to the tokenizer `Token`, unless a short benchmark line ends in it |
| Tokenizer.WritesAreFeed | gotools/test2json/internal/test2json/test2json.go:346-397 | for any sequence of writes whose concatenation has no short benchmark line, calls and rest are those of the byte-at-a-time tokenizer on the concatenation |
| Tokenizer.CutsInvisibleIff | gotools/test2json/internal/test2json/test2json.go:346-397 | all ways to cut a stream into writes give the same calls if and only if no newline-terminated line that fits the buffer is a benchmark line |
| Converter.Converter.constructor | gotools/test2json/internal/test2json/test2json.go:103-122 | two empty buffers, no test, no pending result, no event |
| Converter.Converter.WriteOneEvent | gotools/test2json/internal/test2json/test2json.go:309-326 | the event is appended, with the current test name if it has none |
| Converter.Converter.WriteToOutput | gotools/test2json/internal/test2json/test2json.go:299-305 | each call of the output buffer becomes one output event under the current test name |
| Converter.Converter.FlushReports | gotools/test2json/internal/test2json/test2json.go:271-279 | the test name is cleared and the pending results from the given depth on are written, deepest first |
| Converter.Converter.HandleInputLine | gotools/test2json/internal/test2json/test2json.go:153-269 | every path of handleInputLine, against `HandleLine` over the classified line |
| Converter.Converter.HandleReport | gotools/test2json/internal/test2json/test2json.go:225-251 | a result line nested too deep is plain output; otherwise results at its level or deeper are flushed and it is pushed |
| Converter.Converter.HandleUpdate | gotools/test2json/internal/test2json/test2json.go:252-268 | an update flushes all results; a pause line is written before its event, the others after |
| Converter.ParseLine | gotools/test2json/internal/test2json/test2json.go:157-237 | what a line is taken for: final PASS or FAIL, update, result with its indentation and name, or plain output |
| LineActions.ReportRead | gotools/test2json/internal/test2json/test2json.go:188-237 | for pass, fail, skip and bench, every depth and every text, the line that go test prints is read back as that result at that depth, named by the trimmed text behind the colon up to the elapsed time |
| LineActions.ReportActionIsItsText | gotools/test2json/internal/test2json/test2json.go:202-237 | the action of every line taken for a result is the lower-cased text from byte 4 behind its indentation up to the first colon, its name what comes then |
| LineActions.UpdateRead | gotools/test2json/internal/test2json/test2json.go:175-222 | for run, pause and cont and every text, the line that go test prints is read back as that update, named by the trimmed text |
| LineActions.UpdateActionIsItsText | gotools/test2json/internal/test2json/test2json.go:175-220 | the action of every line taken for an update is its lower-cased text from byte 4 to the first space |
| LineActions.FinalRead | gotools/test2json/internal/test2json/test2json.go:154-165 | PASS and FAIL lines, and no others, are final |
| LineSyntax.CutsElapsed | gotools/test2json/internal/test2json/test2json.go:226-237 | the name ends before the first space and parenthesis |
| Converter.MatchMagic | gotools/test2json/internal/test2json/test2json.go:182-204 | the action of the first magic prefix |
| Converter.StripIndent | gotools/test2json/internal/test2json/test2json.go:194-197 | the indentation in steps of four spaces and the rest of the line |
| Converter.Converter.HandleCalls | gotools/test2json/internal/test2json/test2json.go:110-114 | the callbacks of the input buffer are handled in order: lines by handleInputLine, parts by the output buffer |
| Converter.Converter.Write | gotools/test2json/internal/test2json/test2json.go:124-128 | the whole stack of input buffer, converter and output buffer, against the functions on values |
| Converter.Converter.Close | gotools/test2json/internal/test2json/test2json.go:281-297 | both buffers are flushed and the summary event is written |
| ConverterLaws.LineAdvances | gotools/test2json/internal/test2json/test2json.go:153-269 | entered with the output buffer empty, handleInputLine forwards its line exactly once, under the test it makes current, and leaves the buffer empty |
| LineActions.LineEvents | gotools/test2json/internal/test2json/test2json.go:153-269 | what a line adds to the events, entered with an idle output buffer: the results that are done, deepest first, the whole line as output under the right test, and an update before it, or behind it for a pause |
| LineActions.SummaryIsVerdict | gotools/test2json/internal/test2json/test2json.go:154-173 | for any writes followed by Close the last event says what the last final line says, skip for a package without test files, and else fail |
| ConverterLaws.Attribution | gotools/test2json/internal/test2json/test2json.go:156-269 | over any proper call sequence: whenever handleInputLine is entered the output buffer is empty and not mid-line, and each byte is tagged with the test current for the line or fragment it came in |
| ConverterLaws.EveryByteOnceUnderItsTest | gotools/test2json/internal/test2json/test2json.go:59-60 | for any writes followed by Close, the bytes of the output events with their test names are the bytes of the calls with the test names told from the lines alone |
| ConverterLaws.OutputIsInput | gotools/test2json/internal/test2json/test2json.go:156-305 | for any writes followed by Close, the concatenation of all Output fields is the concatenation of all bytes written |
| ConverterLaws.ValidInValidOut | gotools/test2json/internal/test2json/test2json.go:74-81 | for valid UTF-8 input every slice of either buffer and every output event is valid UTF-8 by itself |
| ConverterLaws.EventsIgnoreCuts | gotools/test2json/internal/test2json/test2json.go:124-128 | without a short benchmark line, callbacks and events depend on the concatenated bytes alone and the callbacks are those of the tokenizer |
| EventCuts.LongLineTwice | gotools/test2json/internal/test2json/test2json.go:299-305 | a line that does not fit the output buffer gives the same events written whole or in two pieces |
| EventCuts.BenchmarkNames | gotools/test2json/internal/test2json/test2json.go:408-421 | Benchmark, and Benchmark followed by anything but a lower-case letter, is the name of a benchmark |
| EventCuts.OtherNames | gotools/test2json/internal/test2json/test2json.go:408-411 | no other name is |
| EventCuts.BenchmarkLines | gotools/test2json/internal/test2json/test2json.go:357-367 | a line is that of a benchmark if what stands before its first tab, without the spaces there, is such a name |
| EventCuts.EventsAreOf | gotools/test2json/internal/test2json/test2json.go:124-128 | if no benchmark line fits both buffers, the events are a function of the concatenated bytes, even where the callbacks are not |
| EventCuts.EventsInvisibleIff | gotools/test2json/internal/test2json/test2json.go:124-128 | all ways to cut a stream into writes give the same events if and only if no newline-terminated benchmark line fits both buffers |
| TestForest.ForestOf | gotools/test2json/internal/test2json/test2json.go:238-279 | any accepted run of result lines is the pre-order with depths of a forest whose spine is the stack and whose post-order is the emitted results followed by the stack drained deepest first |
| TestForest.ReportsPush | gotools/test2json/internal/test2json/test2json.go:188-251 | inside the converter, over any calls without an update or final line, pending results and events change only by the accepted result lines, as by pushes on that stack |
| TestForest.ResultsInPostOrder | gotools/test2json/internal/test2json/test2json.go:188-279 | over any calls without an update or final line, from an empty stack and with a flush at the end, the results are the post-order of the forest whose pre-order and depths are the accepted result lines, one per line; the entry at stack position k came from a line of indent k |
| ForestRuns.AllResultsInPostOrder | gotools/test2json/internal/test2json/test2json.go:153-279 | over all calls, updates and final lines included, from an empty stack: the results are the post-order of one forest whose pre-order and depths are the accepted result lines, without its spine while that is the stack; one result per line |
| TestForest.CloseDropsPending | gotools/test2json/internal/test2json/test2json.go:284-297 | Close adds one summary event; results still pending are not written |
| TimeRanges.GetTimeRangesChunked | pkg/operator/prestostore/query.go:159-205 | the chunking loop gives the ranges of `Ranges` from the truncated begin time, whenever it ends |
| TimeRanges.GoesOnForEver | pkg/operator/prestostore/query.go:165-202 | where the precondition of the loop fails, the next chunk is neither skipped nor the last and fails it again: the source does not end |
| TimeRanges.RangesAscend | pkg/operator/prestostore/query.go:159-205 | for steps of a minute or more: ranges are minute-aligned, each starts after all earlier ones end, none ends after the query, and only the last can start after its own end |
| TimeRanges.RangesExhaust | pkg/operator/prestostore/query.go:159-205 | all ranges but a last one cut to the end of the query are whole chunks, and they stop only at the cap, at the end of the query, or before a chunk that would be incomplete and may not be |
| TimeRanges.InvertedIff | pkg/operator/prestostore/query.go:168-202 | for steps of a minute or more, some range starts after its end if and only if incomplete chunks are allowed and the query ends before it begins, or the remainder of its length by chunk plus step exceeds the chunk and the cap admits one more range |
| TimeRanges.TimesRest | pkg/operator/prestostore/query.go:165-202 | the two counts in that condition are quotient and remainder |
| TimeRanges.MinuteStepsForward | pkg/operator/prestostore/query.go:168-202 | so with one-minute steps never |
| TimeRanges.InvertedRangeExample | pkg/operator/prestostore/query.go:169-174 | with a three-minute step the last range can start after its end |
| TimeRanges.MinuteStepsCover | pkg/operator/prestostore/query.go:159-209 | for one-minute steps: no range is longer than a chunk, at most maxTimeRanges when positive, and together they ask for every minute from the truncated begin to the last end exactly once, in order |
| TimeRanges.ReachesTheEnd | pkg/operator/prestostore/query.go:168-194 | uncapped with incomplete chunks, the last end is the last whole minute of the query or one minute short of it; there is no range exactly if the query does not leave its first minute |
| Importer.LastTimestamp | pkg/operator/prestostore/prometheusmetric.go:113-131 | the greatest timestamp in the table, none if it is empty |
| Importer.PrometheusImporter.constructor | pkg/operator/prestostore/importer.go:64-79 | a new importer does not know its last timestamp |
| Importer.PrometheusImporter.UpdateConfig | pkg/operator/prestostore/importer.go:81-90 | only the configuration changes |
| Importer.PrometheusImporter.ImportFromTimeRange | pkg/operator/prestostore/query.go:32-157 | the loop over the ranges with cancellation, failed queries and failed stores: table, queries made, processed ranges and success are those of `RunRanges` |
| Importer.PrometheusImporter.ImportFromLastTimestamp | pkg/operator/prestostore/importer.go:98-173 | start and end of the interval, the caps, and what becomes of lastTimestamp on success, on failure and when nothing was processed |
| ImporterLaws.EveryQueryIsFresh | pkg/operator/prestostore/importer.go:98-173 | over every run of imports, failures, cancellations, restarts and configuration changes: each query starts later than every timestamp then in the table, and the table is what the queries added |
| ImporterLaws.QueryRangeCap | pkg/operator/prestostore/importer.go:150-157 | an import spans at most MaxQueryRangeDuration if that is not zero, and nothing else shortens it |
| ImporterLaws.FreshIffMinuteStep | pkg/operator/prestostore/importer.go:126-131 | after a sample on a whole minute the next import starts later than it if and only if the step is at least a minute |
| ImporterLaws.NothingStoredTwice | pkg/operator/prestostore/importer.go:98-173 | no sample is stored twice over any run, if no single answer holds it twice |
| ImporterLaws.EveryMinuteOnce | pkg/operator/prestostore/importer.go:122-172 | with minute steps and successful imports, the minutes queried are those from the first start to lastTimestamp, each once, whatever the caps and clock readings |
| ImportedSamples.ImportTakesAll | pkg/operator/prestostore/query.go:84-143 | a successful import adds to the table exactly the samples on offer for its ranges, each as often as it was offered |
| ImportedSamples.StoredStays | pkg/operator/prestostore/query.go:84-143 | an import that fails later on has stored every sample on offer for the ranges up to which everything was stored |
| ImportedSamples.InsideByTime | pkg/operator/prestostore/query.go:115-120 | the samples of a sorted answer are stored in that order |
| ImportedSamples.FailureAdds | pkg/operator/prestostore/query.go:97-139 | a range that was not stored adds a prefix of its answer: as much as a failing store kept, and else nothing |
| ImportedSamples.ImportAsks | pkg/operator/prestostore/importer.go:143-157 | an import that would start in the future queries nothing; any other queries its configured chunks up to now, or as far as the cap on the query range goes |
| ImportedSamples.TakesUpFrom | pkg/operator/prestostore/importer.go:122-141 | the first range starts a step behind lastTimestamp, else behind the latest sample of the table, else at the configured start or the backfill, cut to the minute |
| PartialStores.NothingLostIff | pkg/operator/prestostore/query.go:115-135 | after an import that fails anywhere, with something in the table: every sample of the failing answer that was not stored is asked for again if and only if none or all of it was stored or the next sample is no earlier than the last stored plus a step, cut to the minute |
| PartialStores.NothingLostUnlessTied | pkg/operator/prestostore/importer.go:108-131 | for samples a step apart: if and only if the store did not stop between two samples with the same timestamp |
| PartialStores.TiedSampleLost | pkg/operator/prestostore/importer.go:126-131 | two series at one minute of which one was stored: the other is not asked for again |
| MetricStore.StoreMetrics | pkg/operator/prestostore/prometheusmetric.go:144-223 | the buffer loop executes exactly the statements of `Greedy` and returns its result |
| MetricStore.StoreOutcome | pkg/operator/prestostore/prometheusmetric.go:144-223 | every statement with its prefix fits the capacity; inserted rows are a prefix, all of them on success; a too-big error names the first row that cannot fit alone, with exactly the rows before it inserted; without cancellation and failing inserts, success if and only if every row fits alone |
| InsertText.StatementText | pkg/operator/prestostore/prometheusmetric.go:144-221 | each statement is INSERT INTO, the table and VALUES with the rows of its batch, separated by commas |
| InsertText.StoreExplained | pkg/operator/prestostore/prometheusmetric.go:158-221 | all statements made succeeded; a failed insert is the one after them; a store is cancelled at the first row at which the context is, and not otherwise |
| MetricStore.FewestInserts | pkg/operator/prestostore/prometheusmetric.go:158-221 | a successful store uses the least number of statements among all divisions of the rows into consecutive statements that fit |
| DataReadiness.ImportStatus.RecordImport | pkg/operator/datasources.go:235-253 | the stored window widens to the first start and last end processed, if the update is written |
| QueriedMinutes.SolidJoinIff | pkg/operator/datasources.go:241-253 | two gap-free stretches of queried minutes make one if and only if neither leaves a gap to the other |
| QueriedMinutes.ImportLeavesNoGapIff | pkg/operator/prestostore/importer.go:98-173 | from a gap-free history an import, successful or failing anywhere, leaves a gap-free one if and only if it takes up from a known last timestamp or sample, or there is nothing to take up from, or what it gets answered meets what was queried |
| QueriedMinutes.ResumingKeepsGapFree | pkg/operator/prestostore/importer.go:98-173 | such an import also leaves lastTimestamp and table leading back to what was queried |
| DataReadiness.ImportKeepsSource | pkg/operator/datasources.go:241-253 | an import that resumes, failed or not, its status written or not, keeps the window inside the queried minutes |
| DataReadiness.WindowQueriedIff | pkg/operator/datasources.go:241-253 | a window inside a gap-free stretch [lo, hi] of queried minutes, however far behind it, widened by a successful import [s, e], spans only queried minutes if and only if s <= hi + 1min and lo <= e + 1min |
| DataReadiness.GeneratesOnlyWhenReady | pkg/operator/reports.go:490-593 | a step of GenerationsAreBacked, read off the branches: a report that is not run immediately generates only for a period that is over and whose dependencies are met |
| DataReadiness.GenerationsAreBacked | pkg/operator/reports.go:517-545 | over every interleaving of minute-step imports, failed ones and lost status updates included, restarts, configuration changes and reconciles in which the imports resume, every minute of every generated period had been queried by each data source the report depends on |
| DataReadiness.CalmIsGuarded | pkg/operator/prestostore/importer.go:108-131 | imports resume in every run in which each import succeeds or its table holds a sample, and no importer with an empty table restarts |
| DataReadiness.UnqueriedWindowShows | pkg/operator/reports.go:517-545 | a window that spans a minute that was not queried lets a report generate a period that is not backed |
| DataReadiness.UnbackedGeneration | pkg/operator/prestostore/importer.go:108-141 | two successful imports without samples and a restart in between: a report is generated for minutes that were never queried |
| Reports.UnmetSources | pkg/operator/reports.go:517-545 | true exactly if some data source has no status or does not cover the period |
| Reports.UnmetReports | pkg/operator/reports.go:547-555 | true exactly if some sub-report has a last report time before the end of the period; one that never reported does not count |
| Reports.Report.constructor | pkg/apis/metering/v1/report.go:114-119 | a new report has an empty status |
| Reports.Report.RunReport | pkg/operator/reports.go:346-733 | the stored status and the generated period after a reconcile, for every combination of failing steps |
| Reports.Report.FinishRun | pkg/operator/reports.go:597-724 | from the Running condition to the final status: last report time, next report time, Finished or waiting |
| ReportLaws.PanicsIff | pkg/operator/reports.go:329-331 | the guard of the panic, over the four times a period can be computed from: a valid report panics if and only if its schedule names an activation that is earlier, in milliseconds, than that time |
| ReportLaws.PanicsWhenExhausted | pkg/operator/reports.go:293-331 | for the schedules of the cron library: if and only if there is no further activation within the five years it searches and the time asked about is not the zero time; nothing is recorded, so that it panics again |
| ReportLaws.NeverActivePanics | pkg/operator/reports.go:329-331 | a valid report with a start and a schedule that never activates, such as the thirtieth of February |
| ReportLaws.NeverActiveUnstarted | pkg/operator/reports.go:306-319 | without a start such a report does not panic: the empty period at the zero time is generated |
| ReportLaws.ForwardIff | pkg/operator/reports.go:293-340 | where it does not panic, the period of any scheduled report starts at the last report time, reportingStart, next report time or next activation, and runs forward if and only if there is a further activation and reportingEnd is unset or later than that start |
| ReportLaws.MovedBackRunsBackwards | pkg/operator/reports.go:333-337 | with reportingEnd moved before the last report time the next reconcile generates a backward period and records an earlier last report time |
| ReportLaws.ReconcileMoves | pkg/operator/reports.go:346-733 | the step of PeriodsTile: one reconcile generates nothing or the period from the last boundary to the next activation clamped to reportingEnd, and records nothing or its end, as Finished if that is reportingEnd |
| ReportLaws.PeriodsTile | pkg/operator/reports.go:213-340 | for every schedule, @every included, over every sequence of reconciles and end edits past the last report time: generated periods retry or continue the one before, each boundary is the activation after the one before it or an earlier end that was in force, and the period between two was generated with success |
| ReportLaws.NoActivationSkipped | pkg/operator/reports.go:213-340 | for cron schedules the boundaries ascend, each is an activation or an end that was in force, and no activation is skipped |
| ReportLaws.FinishedReport | pkg/operator/reports.go:684-693 | with a fixed end: once the last report time is the end the report is Finished, and the boundaries are the start, activation after activation, and the end; for cron schedules exactly the activations strictly between start and end plus the end |
| ReportLaws.Finishes | pkg/operator/reports.go:346-733 | from any point of a run, as many favourable reconciles as there are boundaries left finish the report |
| ReportSteps.ScheduledGeneratesIff | pkg/operator/reports.go:346-645 | a scheduled report generates a period if and only if it is not over, its spec makes sense, its table is there, there is a further activation, the clock has passed the end and all data is there unless it runs immediately, and the writes before succeed; it is the period from its starting time to the next activation or reportingEnd |
| ReportSteps.OnceGeneratesIff | pkg/operator/reports.go:344-366 | the same for a report without a schedule, for the period of its spec |
| ReportSteps.OnlySuccessIsRecorded | pkg/operator/reports.go:648-724 | a period is recorded if and only if its generation and the final write succeed; otherwise the last and next report time stay, and a failed generation is named by the condition |
| ReportSteps.SuccessLooksAhead | pkg/operator/reports.go:668-707 | after a success the report is finished if it has reached reportingEnd, and else its next report time is the activation after its last |
| ReportSteps.WritesAreNeeded | pkg/operator/reports.go:346-724 | if no write of its status succeeds, nothing of a report changes on record but a new table, with the start found for its first period |
| ReportSteps.TableIsRecorded | pkg/operator/reports.go:378-447 | the table of a report is on record once it has been found or made, and stays there |
| ReportSteps.ConditionExplains | pkg/operator/reports.go:360-724 | whatever condition a reconcile leaves behind tells what happened in it |
| ReportSteps.OnceRuns | pkg/operator/reports.go:213-240 | over every run a report without a schedule generates the period of its spec only, and once that has been recorded it is finished and nothing is generated again |
| ReportSteps.OnceForGood | pkg/operator/reports.go:220-224 | not even if its reportingEnd is moved |
| ReportLaws.FirstReconcileAnchors | pkg/operator/reports.go:306-319 | a report without reportingStart first generates a period from the next activation after the clock, or from the zero time if there is none, and records that start |
| ReportLaws.FirstReconcile | pkg/operator/reports.go:306-319 | a reconcile of such a report finds and records a start and does what it would have done had that been recorded before, or does nothing but set the condition |
| ReportLaws.UnstartedPeriodsTile | pkg/operator/reports.go:296-340 | over every run of a report without reportingStart from its empty status, either nothing is generated or the periods tile from the time the first one starts at, as long as reportingEnd is after that |
| Dependencies.ResolverContext.constructor | pkg/operator/reporting/dependencies.go:45-50 | empty accumulators |
| Dependencies.CheckGiven | pkg/operator/reporting/dependencies.go:101-119 | the first given value that no definition asks for, or else the last given value of each name |
| Dependencies.ResolverContext.Dependencies | pkg/operator/reporting/dependencies.go:95-200 | resolveDependencies on the shared accumulators; ends on every graph by remaining depth, call kind and remaining inputs |
| Dependencies.ResolverContext.Inputs | pkg/operator/reporting/dependencies.go:121-198 | the loop over the definitions: resolved names are skipped, given values win over defaults |
| Dependencies.ResolverContext.Input | pkg/operator/reporting/dependencies.go:137-197 | one input by its type, with its value recorded after what it refers to |
| Dependencies.ResolverContext.QueryNamed | pkg/operator/reporting/dependencies.go:202-219 | a query is listed after its own inputs are resolved without given values |
| Dependencies.ResolverContext.DataSourceNamed | pkg/operator/reporting/dependencies.go:221-240 | a data source is listed after the query of its view |
| Dependencies.ResolverContext.ReportNamed | pkg/operator/reporting/dependencies.go:242-257 | a report is listed after its query |
| DependencyLaws.ResolutionIsClosed | pkg/operator/reporting/dependencies.go:95-257 | on success the query of every listed report and view is listed, every defaulted input of every listed query is resolved, every recorded reference is listed, and no required input with a default is missing when rendering |
| DependencyLaws.NoFalseCycle | pkg/operator/reporting/dependencies.go:95-99 | a cycle is reported only if a chain of fifty queries can be followed |
| ResolutionLaws.FiftyInARow | pkg/operator/reporting/dependencies.go:95-99 | fifty queries in a row are reported as a cycle even if there is none |
| ResolutionLaws.ResolutionSucceeds | pkg/operator/reporting/dependencies.go:95-257 | resolution succeeds if all given values are asked for, all reachable inputs have a value and refer to what is there with its query, and there is no chain of fifty queries |
| ResolutionLaws.SuccessShows | pkg/operator/reporting/dependencies.go:95-257 | where no names clash, success shows all of that about given values and reachable inputs |
| ResolutionLaws.ErrorsAreReal | pkg/operator/reporting/dependencies.go:95-257 | every error is real: the first given value that is not asked for, a chain of fifty queries, or a reachable input of unknown type, without a value, or referring to what is not there |
| ResolutionLaws.ValueByType | pkg/operator/reporting/dependencies.go:137-197 | what an input of each named type is recorded as, in either case of letters; ReportingStart and ReportingEnd are times |
| ResolutionLaws.GivenIsLast | pkg/operator/reporting/dependencies.go:106-119 | of several values given for a name the last counts |
| ResolutionLaws.UnknownIsFirst | pkg/operator/reporting/dependencies.go:107-118 | the given value reported as unknown is the first that no definition asks for |
| CycleLaws.ResultIsRanked | pkg/operator/reporting/dependencies.go:202-219 | on success without clashing names the listed queries can be ranked so that each leads only to lower ones |
| CycleLaws.CyclesAreReported | pkg/operator/reporting/dependencies.go:95-99 | so a real cycle is always an error: if a reachable query leads back to itself over any number of queries, resolution does not succeed |
| Reachability.AllOnRecordIff | pkg/operator/reporting/dependencies.go:121-198 | on success every input that can be reached through given values and defaults is recorded with its own value if and only if no two of them share a name and differ in value |
| Reachability.ListsAreExact | pkg/operator/reporting/dependencies.go:95-257 | without such a clash a query, data source or report is listed if and only if a reachable input leads to it, and the recorded values are exactly those of the reachable inputs |
| Reachability.ReferencesAreListed | pkg/operator/reporting/dependencies.go:202-257 | and what every defaulted input of every listed query refers to is itself listed |
| Reachability.GivenValueWins | pkg/operator/reporting/dependencies.go:121-131 | for every input and kind: a given value is the one recorded if no input of that name with another value is reachable from the inputs before it, and, where those do not clash, only if |
| Reachability.GivenValueLoses | pkg/operator/reporting/dependencies.go:121-131 | a given value loses to the default of a query that an earlier input refers to |
| Reachability.MaskedReference | pkg/operator/reporting/dependencies.go:121-125 | inputs are resolved once per name: a listed query can refer to a data source that is not listed |
| Partitions.Index | pkg/operator/hivetables.go:433-450 | the IDs of the partitions and the last partition of each ID |
| Partitions.ListPartitions | pkg/operator/hivetables.go:457-468 | one looked-up partition for each ID of a set, in some order |
| Partitions.GetPartitionChanges | pkg/operator/hivetables.go:427-471 | removals, additions and updates by ID, each the last listed partition of its ID |
| Partitions.HiveTable.constructor | pkg/operator/hivetables.go:196-199 | columns, recorded partitions and Hive state as given |
| Partitions.HiveTable.DropPartition | pkg/operator/reporting/db.go:61-65 | drop if exists |
| Partitions.HiveTable.AddPartition | pkg/operator/reporting/db.go:51-59 | add if not exists |
| Partitions.HiveTable.DropAll | pkg/operator/hivetables.go:237-249 | the loop of drops up to the first failure |
| Partitions.HiveTable.AddAll | pkg/operator/hivetables.go:251-263 | the loop of adds up to the first failure |
| Partitions.HiveTable.Reconcile | pkg/operator/hivetables.go:196-272 | what Hive and the recorded partitions are after a failure at any drop, add or status update, and after success |
| PartitionLaws.JoinInjective | pkg/operator/hivetables.go:434-438 | IDs of values without dashes tell the values apart |
| PartitionLaws.NoDashesDistinct | pkg/operator/hivetables.go:434-438 | so partitions whose values have no dashes have distinct IDs |
| PartitionLaws.OneColumnDistinct | pkg/operator/hivetables.go:434-438 | and so do partitions by one column, dashes or not |
| PartitionLaws.KeyHolds | pkg/operator/hivetables.go:433-438 | a key holds the values of the spec in the order of the columns, and nothing for a column it does not name |
| PartitionLaws.DesiredIsLast | pkg/operator/hivetables.go:443-450 | the location desired for a key is the one listed last for it |
| PartitionLaws.ConvergesIff | pkg/operator/hivetables.go:196-272 | where the IDs tell the partitions apart, one full reconcile leaves exactly the desired partitions with the locations listed last if and only if each partition of Hive was recorded or already as desired |
| PartitionLaws.AttemptKeepsReady | pkg/operator/hivetables.go:237-270 | a failure at any drop, add or status update keeps that condition |
| PartitionLaws.RerunsConverge | pkg/operator/hivetables.go:196-272 | after any number of failed attempts with a spec, a successful one leaves exactly the desired partitions |
| PartitionLaws.SuccessReadyForAnything | pkg/operator/hivetables.go:265-267 | a step of RerunsConverge: after a success any next spec can be reached |
| PartitionLaws.Leak | pkg/operator/hivetables.go:233-263 | a case of ConvergesIff: a partition that is neither recorded nor desired is never dropped |
| PartitionLaws.FreshTableIff | pkg/operator/hivetables.go:433-450 | from an empty table the result is the desired one if and only if the IDs tell the desired partitions apart |
| PartitionLaws.DashesClash | pkg/operator/hivetables.go:434-438 | values with dashes can have the same ID |
| ColumnTypes.PrestoColumnsToHiveColumns | pkg/operator/reportingutil/util.go:110-120 | all columns converted in order, or the first that does not convert |
| ColumnTypes.TrimSpaceIs | pkg/operator/reportingutil/util.go:163-164 | trimming cuts off spaces only and leaves none at either end |
| ColumnTypes.PartsOfShape | pkg/operator/reportingutil/util.go:150-164 | the index, split and trim parser reads back the key and value of a bracketed type, without the spaces around them |
| ColumnTypes.PartsOfSpaced | pkg/operator/reportingutil/util.go:150-164 | any spaces around key and value make no difference to it |
| ColumnTypes.SpacedHive | pkg/operator/reportingutil/util.go:137-185 | nor to the conversion to Presto, in either case of letters |
| ColumnTypes.SpacedPresto | pkg/operator/reportingutil/util.go:206-253 | nor to the conversion to Hive |
| ColumnTypes.LabelsConvert | pkg/operator/prestostore/prometheusmetric.go:37-49 | so the labels column of the importer converts |
| ColumnTypes.CommonTypes | pkg/operator/reportingutil/util.go:122-205 | thirteen simple types stay what they are in both directions |
| ColumnTypes.OtherTypes | pkg/operator/reportingutil/util.go:122-205 | real becomes FLOAT, varchar becomes STRING, and string becomes VARCHAR |
| ColumnTypes.AnyCase | pkg/operator/reportingutil/util.go:122-205 | the case of letters does not matter |
| ColumnTypes.CanonicalRoundTrip | pkg/operator/reportingutil/util.go:122-255 | every type the conversion to Hive can give comes back from Presto unchanged |
| ColumnTypes.OutputIsCanonical | pkg/operator/reportingutil/util.go:188-255 | the conversion to Hive gives canonical types and keeps the column name |
| ColumnTypes.PrestoHivePrestoHive | pkg/operator/reportingutil/util.go:122-255 | for every Presto type string that converts, Presto to Hive to Presto to Hive gives the Hive column of the first step |
| ColumnTypes.HivePrestoHiveIff | pkg/operator/reportingutil/util.go:122-255 | a Hive column survives Hive to Presto to Hive if and only if its type is canonical |
| ColumnTypes.PanicsIff | pkg/operator/reportingutil/util.go:145-227 | the branches that lead to the slice expression, collected: either conversion panics exactly if the type is not simple and the first closing bracket of a map type comes before the first opening one, which is not the last character |
| ColumnTypes.SwappedBracketsPanic | pkg/operator/reportingutil/util.go:219-227 | such a type for the conversion to Hive |

## Left out

- Event timestamps, elapsed times and the package name of test2json events, and
  the JSON encoding with its replacement of invalid UTF-8.
- Converter.Converter.HandleInputLine: the action of a line is told by its magic
  prefix instead of lower-casing a slice of it; for the seven prefixes the result
  is the same.
- Importer.PrometheusImporter.ImportFromLastTimestamp: metric amounts, the sorting
  of a result by timestamp (an answer is given in the order in which it is stored)
  and the list of imported metrics; a failing store keeps an arbitrary prefix of
  the answer.
- DataReadiness.ImportStatus.RecordImport: the earliest and newest imported metric
  times and the requeue delay.
- Reports.Report.RunReport: condition messages, transition times, finalizers, the
  work queue, finding or creating the table beyond its success, and query rendering beyond its
  success.
- ReportLaws.UnstartedPeriodsTile: the zero time is stored as no time at all; a
  start at the zero time is left out.
- ReportLaws.PeriodsTile: times with fractions of a second, which the API server
  cuts off when it stores them.
- Dependencies.ResolverContext.Dependencies: namespaces, and the sorting of the
  result lists by name.
- Partitions.HiveTable.Reconcile: table creation, the SQL text of a partition
  spec, and AWS partitions, whose spec keys differ from the column names
  (pkg/operator/aws_usage_hive.go:33-34).
- The SQL text of a metric row: a row is a given string.
- On-demand imports and the store endpoint, which write to the same tables.
- Integer overflow of times and durations.
- HTTP handlers, CSV output, storage locations, Presto tables, clients, listers,
  leader election, logging and metrics: plumbing with no law of its own.
