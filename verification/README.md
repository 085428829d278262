# burnmon verification

This project models the parts of burnmon whose correctness is not obvious from
one function, and proves what they promise.  burnmon reads the transcripts of
coding agents, keeps their turns in a local store and shows what they cost.

Each file is one component, in the form the program gives it: loops that update
state are methods proved against a specification function, tables and objects
that change in place are classes, and rule tables are functions.  Protocols are
step relations, and their theorems range over all runs.

| files | component |
|---|---|
| `Watch.dfy`, `WatchShutdown.dfy`, `WatchArmed.dfy`, `Decode.dfy` | the recursive directory watcher: teardown and re-arm protocol, record walk |
| `Store.dfy`, `Ingest.dfy`, `Concurrent.dfy`, `IngestRuns.dfy`, `Exact.dfy`, `Outputs.dfy` | the event table, one ingest pass, any interleaving of passes, and what a caught-up transcript leaves |
| `Histories.dfy`, `Codex.dfy` | the Codex parser under reads cut anywhere and repeated |
| `Dedup.dfy`, `ClaudeReads.dfy`, `ClaudeCuts.dfy`, `ClaudeStored.dfy` | the Claude parser, the same |
| `ToolCalls.dfy`, `ToolRuns.dfy` | tool calls and their results, under cuts and under interleaved passes |
| `Runway.dfy`, `Expensive.dfy`, `ActiveTime.dfy`, `Sorting.dfy` | the fitted context runway, the 95th percentile, active time |
| `Harness.dfy`, `HarnessRules.dfy`, `Remote.dfy`, `Strings.dfy` | classing processes by their ancestors, matching git remotes |
| `History.dfy`, `HistoryRun.dfy` | the delta history between sampler and page |
| `Chart.dfy`, `Forest.dfy`, `Pricing.dfy`, `Totals.dfy` | the live page: chart, nested sessions, price books, lifetime totals |
| `Tallies.dfy`, `Built.dfy`, `Duplicates.dfy`, `Rollup.dfy` | from stored events to sessions to month, week and day buckets |
| `Forecast.dfy` | the weekly forecast and its write-once score book |
| `Schema.dfy` | the event that all of them share |

`dafny verify dfyconfig.toml` checks the whole project.

Automatic induction is switched off by `{:induction false}` wherever Dafny would
apply it to a lemma.  Dafny 4.11 assumes such an induction hypothesis for ill-typed
sequences too, and false can follow from it; every induction here is written out.

## What the model assumes

- Instants are integers, in nanoseconds from Go's zero time; 0 is the instant
  for which `IsZero` holds.  Tokens are unbounded integers, money and fits are
  reals.
- A transaction of the store is one step; reads of the file system, the clock
  and the kernel are parameters or steps of the environment.
- The ingest theorems assume of a transcript, as explicit predicates: it only
  grows by whole lines; its rows carry its stem as session id; every prune keeps
  it and prunes no path with its stem; a reset that takes rows of its session
  also takes its cursor, with no read of it in flight.  `ExactIngest` asks in
  addition that nobody else writes rows of its session and that a read returns
  the rows as they stand in the file, seen through a view: the columns that
  every read tells alike.  For the Codex adapter that is all but the model
  (`ReadsAsSeen`).
- No id in a Claude transcript is spelled like a key that stands for a missing one
  (`NamesApart`): "_row" or "_toolrow".  Its output token counts are not negative.
- In the history sync there is one clock; it does not go back, a tick's rows lie
  in a later millisecond than the tick before, and calls are answered in the
  order they were made, since bindings run one at a time.
- Close is called after AddRoot has returned for every root, as the program does
  it: roots are added at construction.

## What turned out false, and when it holds

- The rows stored for a Claude transcript depend on where its reads were cut, in
  three ways.  A line with neither requestId nor uuid is keyed by its place in the
  read (internal/adapter/claude/claude.go:305-312 and 350-359), so unless it stands
  first its key depends on the read, and turns are lost or stored twice
  (`KeysIgnoreReadsIff`); the adapter then does not keep the contract the cursor
  relies on either (`ContractKeptIff`).  Two usage lines of one request with the
  same, largest output are resolved to the last one by the adapter and to the first
  one by the store.  And a request whose tool call is read before its usage line is
  stored without tokens; when the usage counts no output, its input tokens are then
  never stored, not even by reading the whole file again (`ShadowedIsLost`,
  `LateUsageIsLost`).  `RowsIgnoreReadsIff` gives the exact condition, for request,
  time, model and tokens; title, directory, surface and tool counts are taken from
  what a read has seen and are not modelled.
- The comment at internal/adapter/codex/codex.go:203-209 says that the header scan
  gives the model a read of every line would.  A rollout that switches its model
  can be stored, and priced, under another model than one straight read gives
  (`SwitchedModelIsLost`; `ModelsIgnoreReadsIff` and `ModelsIgnoreReadsIffHeader`
  have the exact conditions, with or without an unterminated last line that only
  the header scan sees).  Keys and token counts never depend on the reads.
- The result stored for a tool call depends on the cuts if and only if the call is
  mentioned again after its result (`CutsDoNotMatterIff`).
- The comment on `canonicalRemote` (internal/pricing/gitremote.go:113-115) says that
  a trailing ".git" or slash never matters.  It does for "x.git/", since the slash
  is taken off after ".git" was looked for (`TrailingSlashIff`, `TrailingGitIff`).
- The comment at internal/live/live.go:333-338 says that no event up to now is
  dropped.  A turn at now is, when now is a slot boundary (`TurnAtNowChartedIff`).
- With a parent chain longer than the cap of 32, how processes are classed depends
  on the order in which the map of processes is walked (`ShellsDependOnOrder`),
  unless the cut makes no difference (`OrderFreeIff`, `NoHarmIff`).
- Sessions on a parent cycle are in no part of the live forest.  Of two running
  sessions with the same id, of two vendors, one is listed twice and the other not
  at all (`AllListedOnceIff`, `ShownIff`, `OneOfTwoShown`).
- The page can keep a row that lies before the window start by less than a
  millisecond (`BlurredRowIsKept`, `ExactlyTheWindowIff`).
- A stored turn without a time makes the start of a session another one than the
  earliest (`StartIsEarliestIff`).
- When the completion port fails while a read is outstanding, Close waits for ever
  (`FailedPortHangsIff`, `FailedPortCanHang`).

## Model

| member | source | states |
|---|---|---|
| `WatchProtocol.StepKeepsInv` | internal/watch/watch_windows.go:207-282 | every step of the reader, the closer and the kernel, taken one shared access at a time, keeps the protocol invariant; the rows below are read off it |
| `WatchShutdown.NoReadOnClosedHandle` | internal/watch/watch_windows.go:207-282 | in every reachable state, a read is issued only on an open handle with no other read outstanding on that root, and Close never closes a handle while the reader is between its test of `closed` and the end of its call |
| `WatchArmed.DeafIffRefused` | internal/watch/watch_windows.go:244-279 | in every run before Close: a root has no read outstanding, and none about to be issued by run, if and only if its last re-arm was refused; every other root has exactly one |
| `WatchArmed.EveryRootIsWatched` | internal/watch/watch_windows.go:271-279 | so while no re-arm is refused every root has its read outstanding whenever run waits for the port: after a success and after a failed completion alike the next read is issued |
| `WatchArmed.RunComesBack` | internal/watch/watch_windows.go:205-282 | run takes at most seven steps of its own for each packet it takes from the port, whatever the others do |
| `WatchArmed.RunMovesOn` | internal/watch/watch_windows.go:205-282 | and before Close it can always take its next one |
| `WatchShutdown.DrainingIsExact` | internal/watch/watch_windows.go:111-127 | the WaitGroup equals the number of closed roots whose last completion is not yet accounted for, leaving out the root Close has marked and not counted yet; so it is never negative and Done never meets a zero; `reading` tells exactly whether a read is outstanding |
| `WatchShutdown.ShutdownFindsNothingLeft` | internal/watch/watch_windows.go:378-413 | once Wait has returned, and whenever the reader takes the shutdown packet or the port is closed, all handles are closed, the kernel owns no read and no completion is queued or in hand |
| `WatchShutdown.ClosedOnlyDrains` | internal/watch/watch_windows.go:378-400 | once all roots are closed no step of anybody raises what is outstanding on any root |
| `WatchShutdown.NeverStuck` | internal/watch/watch_windows.go:378-413 | from the start of Close until it returns, with a port that has not failed, some party can move: the mutexes, the WaitGroup and the join cannot deadlock |
| `WatchShutdown.StepShrinks` | internal/watch/watch_windows.go:207-282 | after the last root is marked every step by any party lowers one measure |
| `WatchShutdown.CloseReturns` | internal/watch/watch_windows.go:378-413 | so once the last root is marked, under every schedule and with no fairness assumed, the run is bounded, and one that cannot be continued has Close returned, unless the port itself failed |
| `WatchShutdown.FailedPortHangsIff` | internal/watch/watch_windows.go:213-231 | once the port has failed and run has left, a run of Close that cannot be continued has returned if and only if no root had a read run had not taken note of; otherwise Close is in Wait for ever |
| `WatchShutdown.FailedPortCanHang` | internal/watch/watch_windows.go:378-402 | such a run exists: one root, a failing port, and Close waiting |
| `WatchShutdown.CloseCanFinish` | internal/watch/watch_windows.go:378-413 | runs to the end exist: a concrete one from the start to Close having returned |
| `WatchShutdown.GivesUpIff` | internal/watch/watch_windows.go:402-413 | Close gives up, without joining run, exactly when its packet could not be posted |
| `WatchDecode.Decode` | internal/watch/watch_windows.go:291-347 | the loop over the byte buffer computes the walk of the specification for every buffer and every 32-bit length, with no access out of range |
| `WatchDecode.WalkBuffer` | internal/watch/watch_windows.go:300-345 | the loop itself: each entry checked, collected and stepped over, and the walk ends |
| `WatchDecode.ReadEntry` | internal/watch/watch_windows.go:305-335 | one entry: the bounds checks and the fields read, or a stop |
| `WatchDecode.ReadsOnlyWhatWasWritten` | internal/watch/watch_windows.go:291-300 | the answer depends on the first min(n, length) bytes only: what an earlier read left behind is never taken for an entry |
| `WatchDecode.RoundTrip` | internal/watch/watch_windows.go:291-347 | on the encoding of any list of changes, with any padding and anything behind it, what comes out is the joined paths of exactly the entries whose action is 1, 3 or 5 and whose path ends in .jsonl in letters of either case, each once and in order, their names cut at the first NUL |
| `WatchDecode.UpToNulCuts` | internal/watch/watch_windows.go:315-316 | the name of an entry is its longest stretch before a NUL |
| `WatchDecode.LittleEndian` | internal/watch/watch_windows.go:308-316 | the fields of an entry are little-endian |
| `WatchDecode.TwoEntries` | internal/watch/watch_windows.go:303-343 | two entries as thirty literal bytes |
| `WatchDecode.WalkEndsAtDamage` | internal/watch/watch_windows.go:305-343 | on a corrupt buffer the walk ends where a header or name does not fit, and behind an entry whose next offset is below twelve or leads out |
| `WatchDecode.OnlyTranscripts` | internal/watch/watch_windows.go:330-345 | on any buffer whatever only .jsonl paths come out |
| `EventStore.Store.UpsertEvents` | internal/store/store.go:170-224 | applies the rows in order with the conflict rule "only a strictly larger output replaces" |
| `EventStore.Store.SetCursor` | internal/store/store.go:893-899 | writes the cursor it is given, larger or smaller, and nothing else |
| `EventStore.Store.DeletePath` | internal/store/store.go:943-955 | one stale path: its session's rows, unless its stem is empty, and its cursor |
| `EventStore.Store.DeleteEventsForOtherPaths` | internal/store/store.go:912-957 | drops exactly the cursors not kept and the rows of their stems, in whatever order they are visited |
| `EventStore.PrunedIff` | internal/store/store.go:912-957 | a row goes exactly when its session id is not empty and is the stem of a path that has a cursor and is not kept |
| `EventStore.BaseIs` | internal/store/store.go:1039-1044 | the base of a path is its last name, whatever separators follow |
| `EventStore.ExtensionIs` | internal/store/store.go:1039-1044 | and its stem ends before the last dot |
| `EventStore.UpsertGrows` | internal/store/store.go:180-223 | no key is ever lost and no output ever falls, and what was written is held |
| `EventStore.UpsertIdempotent` | internal/store/store.go:180-223 | applying the same rows again changes nothing |
| `EventStore.StoredIsFirstLargest` | internal/store/store.go:180-223 | one read of any rows from an empty table leaves, for every key met and no other, the first row that reaches the largest output |
| `IngestPass.Ingest` | internal/dataset/dataset.go:470-599 | a whole pass over its files, in 1,000-row batches, has the effect of reading, upserting and moving the cursor file by file; tool calls aside |
| `IngestPass.IngestOne` | internal/dataset/dataset.go:503-585 | one file: skipped, left alone on a read error, or read from the planned offset, upserted and its cursor moved; tool calls aside |
| `IngestPass.UpsertBatches` | internal/dataset/dataset.go:560-585 | cutting the rows into batches of 1,000 applies all of them in order |
| `IngestPass.PlanStarts` | internal/dataset/dataset.go:503-538 | the whole table: a file is skipped exactly when gone, trusted with a cursor, or with its cursor at the very end and nothing touched; read on from the cursor exactly when that lies in the file and the file did not shrink under a new time; else from byte 0 |
| `IngestPass.PassGrows` | internal/dataset/dataset.go:470-599 | whatever the disk answers, a pass loses no row and lowers no output |
| `ConcurrentIngest.PlanIsBegin` | internal/dataset/dataset.go:503-538 | the reads the plan chooses are the ones the interleaved model allows |
| `ConcurrentIngest.StepKeepsInv` | internal/dataset/dataset.go:503-585 | appends, concurrent passes, single batches, crashes, late cursor writes, two-transaction prunes and resets each keep the invariant of a kept transcript |
| `ConcurrentIngest.CursorIsSafe` | internal/dataset/dataset.go:503-585 | after every run of such steps, each row in the first cursor(p) bytes of p is in the store with at least its output |
| `IngestRuns.FileIsRun` | internal/dataset/dataset.go:503-585 | what the pass does with one file is a run Begin, Parse, Batch..., Finish of the interleaved model, so all its theorems hold of the real pass and of the cursor it writes |
| `IngestRuns.PassIsRun` | internal/dataset/dataset.go:470-599 | and so is the whole pass |
| `IngestRuns.FileIsCovered` | internal/dataset/dataset.go:529-585 | a file that is read ends up with its cursor behind the last whole line, stamped with the time and size seen before, and every row before it stored; a file that is not, and every other file, keeps its cursor |
| `OutputIngest.CaughtUpOutputs` | internal/dataset/dataset.go:503-585 | for every parser that keeps its contract, with the cursor at the end and nobody else writing rows of the session: whatever interleaved, its keys and outputs are those of one read of the whole file |
| `ExactIngest.Replay` | internal/store/store.go:180-223 | reading on from anywhere inside what was read already is the same as having read straight through |
| `ExactIngest.StoreIsOneStraightRead` | internal/dataset/dataset.go:529-585 | whatever was cut, batched, repeated, crashed or raced, p's rows are those of one read of a prefix of its rows from byte 0, in every column that each read tells alike, and every cursor lies within it |
| `ExactIngest.CaughtUpIsOneRead` | internal/dataset/dataset.go:529-585 | with the cursor at the end the rows are, in those columns, those of one read of the whole file: per key the first line in file order with the largest output; and a further full re-read changes nothing |
| `CodexReads.ScanHeader` | internal/adapter/codex/codex.go:210-242 | the scan of the header: what the lines that lie whole in the first 64 KB of the file, as it then is, make of model and sub-run; the last one may still lack its newline |
| `CodexReads.ModelIsLastNamed` | internal/adapter/codex/codex.go:405-442 | the model carried along is the last one that a line names outside sub-runs, which the last session_meta before it tells |
| `CodexReads.Parse` | internal/adapter/codex/codex.go:357-543 | the loop over the whole lines from a byte offset: one row per usage line, keyed by ordinal or by the byte the line starts at, with the last model named since the offset or else in the header; title, surface, directory and tool calls aside |
| `CodexReads.ReadOfPrefix` | internal/adapter/codex/codex.go:357-376 | what a read returned while the file was shorter can be told from the file as it is later: rows and header scan alike |
| `CodexReads.FallbackKeysApart` | internal/adapter/codex/codex.go:325-335 | the key of a line without an ordinal is no other line's, with an ordinal or without |
| `CodexReads.TurnRowIs` | internal/adapter/codex/codex.go:501-535 | column by column what a usage line becomes; its tokens are the input and output of the line |
| `CodexReads.ReadsAsSeen` | internal/adapter/codex/codex.go:342-348 | seen without the model, a read from any line returns exactly the rows of the lines from there on: what the exactness theorems ask of a parser |
| `CodexReads.KeepsContract` | internal/adapter/adapter.go:16-24 | and it keeps the contract of Parse that the ingest theorems assume |
| `CodexReads.OnlyModelsDepend` | internal/adapter/codex/codex.go:350-356 | under any cuts and repeats of the reads the stored keys, and every column but the model, are those of one straight read |
| `CodexReads.ModelsIgnoreReadsIff` | internal/adapter/codex/codex.go:199-209 | all columns are, under every history of reads, if and only if each line whose row is stored in the end gets from every read that meets it the model in force there |
| `CodexReads.ModelsIgnoreReadsIffHeader` | internal/adapter/codex/codex.go:199-209 | for a rollout whose one session_meta is its first line: if and only if, for each such line behind the first, the scanned header names its model as soon as the line is there and ever after |
| `CodexReads.SwitchedModelIsLost` | internal/adapter/codex/codex.go:203-209 | a rollout of four lines, two models and one turn each, whose first turn is stored under the second model |
| `ClaudeReads.CollectTurns` | internal/adapter/claude/claude.go:257-384 | the loop that fills the map of turns, their order and the keys of the tool counts: a usage line without a request id or uuid keyed by how many keys the read has met, one with tool calls by its place in the read |
| `ClaudeReads.LineAdds` | internal/adapter/claude/claude.go:346-364 | a line adds a turn exactly when it has a usage and a model that is neither empty nor "<synthetic>" |
| `ClaudeReads.ParseTurns` | internal/adapter/claude/claude.go:386-428 | with the loops behind it: the turns, of equal output the later line, then one row without tokens for every request whose tool calls met no usage line in the read, in any order |
| `ClaudeReads.FilledIs` | internal/adapter/claude/claude.go:365-408 | column by column what a usage line becomes; its tokens are the four counts of the line |
| `ClaudeDedup.DedupIsLargest` | internal/adapter/claude/claude.go:371-379 | within one read every request is returned once, by a line of largest output of its own |
| `ClaudeStored.ReadIntoIs` | internal/adapter/claude/claude.go:414-428 | in whatever order the rows without tokens come, the read has the same effect on the store |
| `ClaudeCuts.ContractKeptIff` | internal/adapter/adapter.go:16-24 | the adapter keeps the contract of Parse that the ingest theorems assume, for every start of a read, if and only if no usage line behind the first, and no line with tool calls behind the first line of the file, lacks a request id and uuid |
| `ClaudeStored.KeysIgnoreReadsIff` | internal/adapter/claude/claude.go:305-359 | which requests are stored is independent of how the reads were cut or repeated under the same condition and no other |
| `ClaudeStored.OutputsIgnoreReads` | internal/adapter/claude/claude.go:371-379 | under it, so is the output stored for each request |
| `ClaudeStored.RowsIgnoreReadsIff` | internal/adapter/claude/claude.go:305-428 | the stored requests, times, models and tokens are if and only if in addition no request has two different usage lines of equal, largest output, of which the adapter keeps the last and the store the first, and no request without any output has a line with tool calls before its first usage line |
| `ClaudeStored.ShadowedIsLost` | internal/adapter/claude/claude.go:414-428 | such a request is stored without tokens once a read ends between the two lines, and stays so however often the file is read again |
| `ClaudeStored.LateUsageIsLost` | internal/adapter/claude/claude.go:414-428 | two lines, a tool call and a usage of 1000 input tokens: one read stores them, after a read of the first line nothing ever does |
| `ToolCalls.Store.UpsertToolCalls` | internal/store/store.go:235-282 | applies the rows in order: a call row inserts or refreshes, a result row only fills the result of a call that is there |
| `ToolCalls.KnownStaysKnown` | internal/store/store.go:245-280 | a known result never becomes unknown again, whatever rows are replayed |
| `ToolCalls.OnlyCallsCreate` | internal/schema/event.go:57-82 | a call is in the table exactly if it was before or some call row has its key: a result alone creates nothing |
| `ToolCalls.DetailsAreLast` | internal/store/store.go:245-280 | the details stored for a call are those of its last call row |
| `ToolCalls.PathIsLastGiven` | internal/store/store.go:245-280 | the path is that of the last call row that gives one |
| `ToolCalls.ParseConsistent` | internal/adapter/claude/claude.go:229-331 | the list of pending calls and the map of them always name the same calls, a call used twice being listed twice |
| `ToolCalls.ReadMerges` | internal/adapter/claude/claude.go:430-450 | the effect of one read on a stored call depends only on what that read says about that call |
| `ToolCalls.CutsDoNotMatter` | internal/store/store.go:235-282 | for a call with at most one result and no later mention of the call after it: under any cuts and any overlapping re-reads it is stored exactly if used, with its result exactly if the stream has one |
| `ToolCalls.CutsDoNotMatterIff` | internal/adapter/claude/claude.go:282-331 | with at most one result, whether the call is stored and with which result is the same under every way to cut and repeat the reads if and only if the call is not mentioned again after its result |
| `ToolRuns.CallIsKnown` | internal/dataset/dataset.go:571-585 | for such a call, whatever passes, batches and crashes interleave: what is stored is true of the stream, tells all that stands before the cursor, and with the cursor at the end is exactly what the stream says |
| `ToolRuns.PassDoes` | internal/dataset/dataset.go:571-585 | a pass that runs to its end applies all rows it read and leaves the cursor behind the last block |
| `ToolRuns.CanCatchUp` | internal/dataset/dataset.go:503-585 | so a transcript can be written and read to its end: the hypotheses above are met |
| `Runway.DenominatorIs` | internal/insight/insight.go:259-276 | the denominator is n²(n²-1)/12, hence positive from two points on |
| `Runway.LinearFit` | internal/insight/insight.go:259-276 | the loop and the quotients solve the normal equations; with fewer than two points the line is flat |
| `Runway.NormalIsBest` | internal/insight/insight.go:259-276 | that line has the least squared error among all lines |
| `Runway.BestIsUnique` | internal/insight/insight.go:259-276 | and from two points on it is the only one |
| `Runway.AffineRecovered` | internal/insight/insight.go:259-276 | points on a line give back exactly that line |
| `Runway.LeastTurns` | internal/insight/insight.go:281-294 | for a rising line, turnsToTarget is the least whole number of turns at which the fit reaches target - 1e-9 times the slope |
| `Runway.TurnsMonotone` | internal/insight/insight.go:281-294 | a higher target never takes fewer turns |
| `Runway.ContextRunway` | internal/insight/insight.go:217-255 | no finding exactly when the window is unknown, there are fewer than two turns or the best line does not rise; otherwise the best line of the last ten turns and its two least turn counts, in order |
| `Runway.SampleIs` | internal/insight/insight.go:217-240 | the fit is over the last ten turns, each by its tokens other than output |
| `Runway.RunwayIs` | internal/insight/insight.go:241-255 | the counts of a finding are the least further turns at which the line is at 80 and 90 hundredths of the window |
| `ExpensiveTurns.Find` | internal/insight/insight.go:314-368 | the two loops flag the positions whose total exceeds the nearest-rank 95th percentile |
| `ExpensiveTurns.RankIs` | internal/insight/insight.go:324-330 | ceil(0.95 n) is n less a twentieth of n, and the clamps never act |
| `ExpensiveTurns.FlaggedIff` | internal/insight/insight.go:314-368 | a turn is flagged exactly when at least ceil(0.95 n) turns are strictly cheaper |
| `ExpensiveTurns.TotalsAre` | internal/insight/insight.go:314-321 | what is compared is all four classes of tokens of a turn |
| `ExpensiveTurns.AboveAscends` | internal/insight/insight.go:333-337 | the flagged positions come in order, each once |
| `ExpensiveTurns.FlaggedCostMore` | internal/insight/insight.go:333-337 | every flagged turn costs more than every turn not flagged |
| `ExpensiveTurns.AtMostOneInTwenty` | internal/insight/insight.go:314-337 | at most n - ceil(0.95 n) turns are flagged, none below twenty |
| `ExpensiveTurns.FlaggedIgnoresOrder` | internal/insight/insight.go:314-337 | the flagged totals, counted with repetition, do not depend on the order of the turns |
| `Sorting.SortSorts` | internal/insight/insight.go:322-323 | what the library sort is taken to return: sorted, with the same elements |
| `Sorting.SortedUnique` | internal/dataset/fromstore.go:239-252 | and that there is only one such list |
| `Harnesses.Resolver.Resolve` | internal/sysmon/process.go:15-51 | the recursive closure over the memo map computes the memo recursion of the specification and terminates for every parent map, cyclic ones included |
| `Harnesses.Resolver.ResolveAll` | internal/sysmon/process.go:53-57 | the loop over all processes, in any order of the map |
| `Harnesses.MemoIsPlainRecursion` | internal/sysmon/process.go:15-58 | when every chain of processes that ask fits the cap of 32, the result is plain recursion on the rule table for every process, so the order of the map does not matter |
| `Harnesses.OrderFreeIff` | internal/sysmon/process.go:15-58 | without cycles of processes that ask, for chains of any length: the result is the same in every order of the map if and only if, for every process another one reaches by asking 32 times, its parent makes no difference |
| `Harnesses.NoHarmIff` | internal/sysmon/process.go:16-27 | in the rule table that is so exactly when the parent comes out as Other, or as an unclassified node below which the process is called node itself |
| `Harnesses.ShellsDependOnOrder` | internal/sysmon/process.go:53-57 | 33 shells below claude: two orders of the map give two results |
| `Harnesses.ClassComesFromAnAncestor` | internal/sysmon/harness.go:63-136 | for every parent map and order a class other than Other comes from the process or an ancestor that has it by itself; the own-webview class only from an own process |
| `Harnesses.ParentIgnoredIff` | internal/sysmon/harness.go:63-136 | the class is independent of what the parent lookup returns if and only if a rule on command line or name applies |
| `HarnessRules.DirectIsFirstRule` | internal/sysmon/harness.go:68-106 | a process by itself is what the first rule of the list that applies says: needles in the command line, in any case and with slashes of either direction, then names, of which only the capitalised Claude is told by case |
| `HarnessRules.ClassifyIs` | internal/sysmon/harness.go:108-136 | where no rule applies: own webview, parent, unclassified node, other |
| `HarnessRules.SpellingIgnored` | internal/sysmon/harness.go:64-70 | the case of letters and the direction of slashes make no difference, but for the capitalised Claude |
| `Remotes.MatchesIffSublist` | internal/pricing/gitremote.go:130-140 | the substring test is true exactly when the pattern, made canonical, is not empty and its "/"-separated segments are a contiguous stretch of the remote's |
| `Remotes.TrailingSlashIff` | internal/pricing/gitremote.go:113-121 | a trailing slash makes no difference exactly when neither it nor ".git" is there already |
| `Remotes.TrailingGitIff` | internal/pricing/gitremote.go:113-121 | a trailing ".git" makes no difference exactly when there is none before it |
| `Remotes.SshMatchesLikeHttps` | internal/pricing/gitremote.go:100-111 | for every pattern: a project cloned over https matches exactly when it does cloned over ssh or the pattern stands at the scheme or right behind it; so both alike for every pattern that begins with neither "https:" nor "/" |
| `Remotes.CaseIgnored` | internal/pricing/gitremote.go:113-140 | the case of letters makes no difference to a match, but for the "git@" that is taken off only in small letters |
| `HistorySync.SysHistSince` | cmd/burnmon-dev/history_delta.go:39-54 | the system answer: full exactly in the four cases, then filtered by the window; otherwise what is newer than the cursor |
| `HistorySync.GroupsHistSince` | cmd/burnmon-dev/history_delta.go:60-69 | the groups answer, whose full form is the whole buffer |
| `HistorySync.PruneFront` | cmd/burnmon-dev/history_delta.go:76-87 | drops exactly the first n entries, and when it copies |
| `HistorySync.AppendAndPrune` | cmd/burnmon-dev/app.go:595-610 | appends a tick and drops exactly the entries before the cutoff at the front |
| `HistorySync.PruningIsCheap` | cmd/burnmon-dev/history_delta.go:71-87 | over any run of appends and prunes what is kept is what was appended less what was pruned, the dead prefix never outgrows it, and fewer entries are copied than dropped |
| `HistoryRun.StepKeepsInv` | cmd/burnmon-dev/page.html:2852-2874 | ticks, with or without rows, and calls asked, answered, applied, late or lost, overlapping at will, keep: the page holds an unbroken stretch of everything sampled, in whole ticks, and what an answer on its way will add goes on from inside it |
| `HistoryRun.Merges` | cmd/burnmon-dev/page.html:2712-2720 | full answer or delta, what the page holds after merging is an unbroken stretch up to the last row the answer saw: nothing skipped, and nothing twice even when the answer repeats rows an earlier one brought |
| `HistoryRun.AnswerIs` | cmd/burnmon-dev/history_delta.go:39-69 | what the server answers of either kind, and when it is full |
| `HistoryRun.SampleIs` | cmd/burnmon-dev/app.go:595-610 | a tick appends, and the buffer starts anew at the first row not older than the cutoff |
| `HistoryRun.LateIsDropped` | cmd/burnmon-dev/page.html:2852-2874 | an answer that comes after a later call's, or never, changes nothing the page holds |
| `HistoryRun.PageHoldsTheWindow` | cmd/burnmon-dev/page.html:2709-2731 | in any run, after any answer that is applied the page holds every row up to it not older than the window start, once and in order, and none from before its millisecond |
| `HistoryRun.ExactlyTheWindowIff` | cmd/burnmon-dev/page.html:2718-2731 | it is exactly what sending the whole window would give if and only if no row the page holds or is sent lies before the window start within the same millisecond |
| `HistoryRun.FullSysIsExact` | cmd/burnmon-dev/history_delta.go:39-48 | which a full answer for the system ring always is |
| `HistoryRun.BlurredRowIsKept` | cmd/burnmon-dev/history_delta.go:60-63 | a run of three steps after which the groups ring holds a row that is out of the window |
| `LiveChart.BuildChart` | internal/live/live.go:623-654 | the loop over the events fills each slot with the turns that land in it |
| `LiveChart.WindowEndCovers` | internal/live/live.go:333-344 | the window ends at or after now, less than one slot later, on a slot boundary |
| `LiveChart.SlotCovers` | internal/live/live.go:629-636 | a turn lands in a slot exactly when that slot covers its time, so in one at most |
| `LiveChart.ChartedIff` | internal/live/live.go:333-344 | for widths that divide the half hour, the charted turns are exactly those with a time from window start to now and strictly before the window end |
| `LiveChart.TurnAtNowChartedIff` | internal/live/live.go:333-344 | a turn of this very instant is charted if and only if now is no slot boundary |
| `LiveChart.ChartIsItsTurns` | internal/live/live.go:631-654 | session by session and token class by class the slots sum to exactly the charted turns, and so does their cost |
| `LiveChart.SlotHoldsItsTurns` | internal/live/live.go:629-652 | each slot holds, session by session and each class of tokens added up by itself, exactly the turns it covers |
| `LiveChart.SlotCostsItsTurns` | internal/live/live.go:629-652 | and costs what they do |
| `LiveChart.SessionShownIff` | internal/live/live.go:637-652 | a session shows in a slot exactly when one of its turns landed there |
| `SessionForest.Nest` | internal/live/live.go:321-331 | the loop puts each session under its running parent or on top, in order |
| `SessionForest.PlacedOnTop` | internal/live/live.go:321-331 | a session stays on top exactly when it names no parent, itself, or one that is not running |
| `SessionForest.PlacedUnder` | internal/live/live.go:321-331 | and goes under the one it names otherwise |
| `SessionForest.SessionKeys` | internal/live/live.go:815-828 | the recursive walk returns the listing of the specification and terminates for every parent map |
| `SessionForest.DepthBounded` | internal/live/live.go:815-828 | no chain from a top session is longer than the number of running sessions |
| `SessionForest.AnchoredCount` | internal/live/live.go:815-828 | a session whose chain ends is listed as often as the product of how often each session on its chain was built |
| `SessionForest.CyclesVanish` | internal/live/live.go:321-331 | a session on a parent cycle, or below one, is nowhere in the forest |
| `SessionForest.ListedOnceIff` | internal/live/live.go:321-331 | with unique ids a running session is listed once if its parent chain ends and never otherwise |
| `SessionForest.AllListedOnceIff` | internal/live/live.go:321-331 | every id is listed exactly once if and only if no id is built twice and every chain ends |
| `SessionForest.ShownIff` | internal/live/live.go:311-331 | a running session is in the forest if and only if its chain ends and no session of the same id, of another vendor, was built after it |
| `SessionForest.OneOfTwoShown` | internal/live/live.go:311-331 | so of two sessions of one id at most one is shown, and if the chain ends the last one built is |
| `SessionForest.AcyclicIsAnchored` | internal/live/live.go:321-331 | acyclic parent links make every chain end |
| `Pricing.SumCost` | internal/pricing/cost.go:179-252 | the loop behind each of the four cost sums adds the events of the vendor and no others |
| `Pricing.PriceVendor` | internal/pricing/cost.go:76-133 | which bases a vendor gets, with which labels and credits, each priced from its own book, and the headline |
| `Pricing.CostForEvents` | internal/pricing/cost.go:58-74 | grouping by vendor prices each vendor as over all the events |
| `Pricing.HeadlineIs` | internal/pricing/cost.go:104-133 | the headline: credits for Copilot, the subscription share when really calibrated, else the API list as upper bound, none without a book; and it is priced like the basis it is |
| `Pricing.AnthropicRates` | internal/pricing/cost.go:145-178 | tokens of one class of a listed model cost that class's rate in the book per million, on the list and in EventCost; of the subscription, output and input at their rates times the factor and cache traffic nothing |
| `Pricing.OpenAIRates` | internal/pricing/cost.go:207-252 | the same for OpenAI, from one book in bulk and another in EventCost, cache writes free |
| `Pricing.CopilotRates` | internal/pricing/cost.go:222-252 | the same for Copilot, cache writes charged |
| `Pricing.UnlistedIsFree` | internal/pricing/cost.go:145-252 | a model its vendor's book does not list costs nothing on any basis |
| `Pricing.EventLabels` | internal/pricing/cost.go:266-285 | the label of an event is the caption in the book EventCost uses; without an entry it is the model's name, free and marked |
| `Pricing.DollarsAreRates` | internal/pricing/cost.go:179-252 | so over any events the bill is, model by model and class by class, tokens times rate per million |
| `Pricing.GroupingCostsNothing` | internal/pricing/cost.go:58-74 | a vendor's own events cost what its share of all the events costs |
| `Pricing.BasisAdditive` | internal/pricing/cost.go:145-252 | for every vendor, basis and all books the price is linear in the tokens |
| `Pricing.HeadlineAdditive` | internal/pricing/cost.go:76-133 | so is the headline |
| `Pricing.UsdAdditive` | internal/pricing/cost.go:266-285 | and the dollars of EventCost, on every branch |
| `Pricing.SubAdditive` | internal/pricing/cost.go:266-285 | so is the per-event subscription cost, on every branch of EventCost |
| `SessionTotals.Totals` | internal/store/store.go:827-872 | the aggregating query returns one row per model of the session, with the sums, the count and the earliest time of its turns |
| `SessionTotals.TurnsAre` | internal/store/store.go:827-850 | whatever is counted, the turns grouped amount to those of the vendor and session among the stored rows, without the rows that only carry tool counts |
| `SessionTotals.AggregateThenPrice` | internal/live/live.go:684-713 | for every linear price, rows priced after aggregation cost what the turns cost one by one, in any order of the rows |
| `SessionTotals.Session.Apply` | internal/live/live.go:679-718 | overwrites the session's fields from its rows, leaves the start alone when the rows give none, and everything when there are no rows |
| `SessionTotals.TotalsAreTurnSums` | internal/live/live.go:664-712 | tokens, turn count and subscription cost equal the turn-by-turn ones |
| `SessionTotals.HeadlineIsTurnHeadline` | internal/live/live.go:684-713 | the headline of the rebuilt events is that of the turns: basis, label, dollars and credits |
| `SessionTotals.StartIsEarliest` | internal/live/live.go:692-717 | when every turn has a time the start is the earliest |
| `SessionTotals.StartIsEarliestIff` | internal/live/live.go:692-717 | whatever the order of the rows, the start the card ends up with is that of its earliest turn if and only if every turn has a time; only a card that showed no start can come out right otherwise, when the last row has none either |
| `SessionBuild.BuildSession` | internal/dataset/fromstore.go:54-232 | a session is built exactly when some event has a time and some event is a turn; its totals, class by class, are those of its turns, of its day cells together and of its model cells together |
| `SessionBuild.Accumulate` | internal/dataset/fromstore.go:93-175 | the loop fills both maps and all totals in one go, each class of tokens that of the turns |
| `SessionBuild.CellsHoldAll` | internal/dataset/fromstore.go:136-175 | whatever the cells are keyed by, together they hold every turn once |
| `SessionBuild.CellHoldsItsTurns` | internal/dataset/fromstore.go:136-175 | each cell holds calls, tokens, cost and subscription cost, each added up by itself, of exactly the turns of its key, and only keys that occur have one |
| `SessionBuild.DayCellIs` | internal/dataset/fromstore.go:136-175 | a day's cell: the turns of that local day, and those without a time on the UTC day of the first |
| `SessionBuild.ModelCellIs` | internal/dataset/fromstore.go:136-175 | a model's cell: the turns priced under its label |
| `SessionBuild.TotalsAre` | internal/dataset/fromstore.go:93-135 | the totals are the turns' figures, and the unpriced tokens those of the turns without a price |
| `SessionBuild.FirstTimeIs` | internal/dataset/fromstore.go:59-71 | the first stamp is the earliest time of any event that has one |
| `ActiveTime.ActiveTimeOfEvents` | internal/dataset/fromstore.go:258-267 | collects the stamps, sorts them and sums the gaps not above the cutoff |
| `ActiveTime.ActiveTimeOf` | internal/dataset/fromstore.go:239-252 | the loop over the gaps |
| `ActiveTime.ActiveWithinSpan` | internal/dataset/fromstore.go:239-252 | active time lies between 0 and last minus first |
| `ActiveTime.ActiveIsSpanIff` | internal/dataset/fromstore.go:239-252 | it is the whole span exactly when no positive gap exceeds the cutoff |
| `ActiveTime.LongGapSplits` | internal/dataset/fromstore.go:245-250 | a gap above the cutoff counts nothing: the stretches on both sides of it add up |
| `ActiveTime.ShortGapCounts` | internal/dataset/fromstore.go:245-250 | any other gap counts in full |
| `ActiveTime.StampsAre` | internal/dataset/fromstore.go:258-265 | what is sorted is the times of the events, each as often as it occurs, without those of no time |
| `ActiveTime.CutoffMonotone` | internal/dataset/fromstore.go:239-252 | it never falls when the cutoff rises |
| `ActiveTime.EventsMonotone` | internal/dataset/fromstore.go:258-267 | it never falls when any event is added |
| `ActiveTime.EventOrderDoesNotMatter` | internal/dataset/fromstore.go:258-267 | it does not depend on the order of the events |
| `Duplicates.DedupSessions` | internal/dataset/dataset.go:275-291 | the loop keeps one session for each conversation and counts the rest |
| `Duplicates.KeptIsLeast` | internal/dataset/dataset.go:262-291 | the one kept has the smallest id of its conversation |
| `Duplicates.OrderFreeIff` | internal/dataset/dataset.go:270-291 | what is kept is independent of the order if and only if no two different sessions of a conversation share its smallest id |
| `Rollup.Build` | internal/agg/agg.go:134-297 | the nested loops compute the three roll-ups and the kept sessions, without the splits and the final sort |
| `Rollup.RollSession` | internal/agg/agg.go:172-217 | one session on all three, with one seen-set for months and one for weeks |
| `Rollup.LastDayDecides` | internal/agg/agg.go:158-166 | looking at the last day decides whether the session is active in the window at all |
| `Rollup.KeptIff` | internal/agg/agg.go:151-221 | a session is kept exactly when it is dated and was active on a day at or after the cutoff |
| `Rollup.RollUpIsRight` | internal/agg/agg.go:151-216 | for any key of days: there is a bucket exactly where a kept session was active, and each bucket and each surface of it holds exactly the in-window cells that fall there, and sums to its surfaces |
| `Rollup.RollUpsAgree` | internal/agg/agg.go:172-217 | months, weeks and days hold the same calls, tokens and cost: those of the kept sessions' in-window days |
| `Rollup.SessionsCountedOnce` | internal/agg/agg.go:196-216 | a bucket counts each kept session once if it was active there |
| `Tallies.SumAdd` | internal/agg/agg.go:187-199 | adding to one cell of a map adds to the sum of the map |
| `Forecast.DailyTokenTotals` | internal/store/store.go:617-661 | the scan computes the totals per local day |
| `Forecast.TotalsAre` | internal/store/store.go:617-661 | each day is listed once and the days together hold every turn of the range |
| `Forecast.DayHolds` | internal/store/store.go:617-661 | each day holds exactly its own turns |
| `Forecast.ActualTokensForWeek` | internal/forecast/forecast.go:393-413 | the actual is the tokens of exactly the turns whose local day lies in the week, the last day's included, whatever the length of the days |
| `Forecast.PlanLine` | internal/forecast/forecast.go:258-278 | each day is the average over its last four occurrences that are present |
| `Forecast.PlanBetween` | internal/forecast/forecast.go:258-278 | which lies between the least and the largest of them, and is zero when there is none |
| `Forecast.AverageIs` | internal/forecast/forecast.go:258-278 | precisely: the quotient, cut off toward zero, of what the days one to four weeks before hold by how many of them hold anything |
| `Forecast.PlanDaysAre` | internal/forecast/forecast.go:336-357 | each of those days goes by all the turns stored for it, however far the scan goes back |
| `Forecast.PlanIs` | internal/forecast/forecast.go:336-357 | and the plan of a week is the sum of its seven days |
| `Forecast.ActualIs` | internal/forecast/forecast.go:393-413 | the actual is the tokens of the turns from one Monday to the next |
| `Forecast.ScoreBook.InsertForecastPlan` | internal/store/store.go:556-563 | writes a plan only for a week that has none |
| `Forecast.ScoreBook.RecordForecastActual` | internal/store/store.go:568-574 | writes an actual only where there is a plan and no actual |
| `Forecast.ScoreBook.EnsureScored` | internal/forecast/forecast.go:343-379 | one pass: the plan of this week if missing, then the actual of every ended week without one |
| `Forecast.ScoreBook.Locked` | internal/forecast/forecast.go:107-140 | the gate is locked exactly while no week has an actual |
| `Forecast.PlannedIff` | internal/forecast/forecast.go:343-357 | over any run of calls, at any times and with any stored events, a week is on the books exactly when some call fell in it |
| `Forecast.PlanWrittenOnce` | internal/forecast/forecast.go:336-357 | its plan is the one of the first such call, however many follow |
| `Forecast.ScoredIff` | internal/forecast/forecast.go:359-379 | it has an actual exactly when a call at or after its end followed a call in it |
| `Forecast.ActualWrittenOnce` | internal/forecast/forecast.go:359-379 | the actual is what the first such call saw, however many follow |
| `Forecast.EndedWeeksAreScored` | internal/forecast/forecast.go:359-379 | right after a call every week on the books that has ended has its actual |
| `Forecast.RepeatChangesNothing` | internal/forecast/forecast.go:336-379 | a second call at the same time changes nothing, whatever was stored since |
| `Forecast.StaysUnlocked` | internal/forecast/forecast.go:107-140 | once unlocked it never locks again |

## Left out

- Win32, PDH, WebView2, fsnotify, WSL, process handles, HTTP and device-code calls: foreign I/O. The kernel appears only as steps of the watcher, `filepath.Join` and UTF-16 decoding only as the parameter `full` of Decode.
- AddRoot running at the same time as Close, which the program never does.
- SQLite itself, its migrations, and the comparison of RFC 3339 texts in place of instants.
- The concrete JSON of the transcripts, titles, working directories, tool counts per turn and owner or client mapping: only the row algebra of the parsers is modelled.
- The codex collapse reset and the audit purge are one step that drops any rows and cursors, under the hypothesis above, not their queries.
- Volume names in paths, of which `filepath.Base` takes off a leading one.
- Lowering of letters outside ASCII, in remotes, process names and file names.
- Classify may look its parent up twice; the model looks it up once, which the memo makes the same. A nil parent lookup is not modelled.
- Floating-point rounding (`round4`, `round6f`), time zones and daylight saving: reals, and an abstract calendar whose days may have any length.
- The wording of findings, compaction and re-prefill rules in Analyze, and turn numbers, which count inside a window only.
- A server restart under a page that stays open, and a clock that goes back, in the history sync.
- The walk of ApplySessionTotals over the forest: one session's update and the walk are modelled each on its own, the sharing of session objects between parent and list is not.
- Session keys joined with "|" and day keys as texts: the model uses pairs and day numbers, so malformed day keys and separators inside names do not occur.
- Model, tool and token-class splits of a bucket, which go to a session's first active day; the sort of the kept sessions by start.
- The order in which CostForEvents lists vendors is a parameter; OpenAI's two price books are kept apart and never equated.
- The live line and the cost forecast, extrapolations over floats; the error band's value.
- PlanBetween: asks that the day totals are not negative, as token counts are.
- Ingest: leaves out the advance callback, and the tool call batches, which ToolRuns covers.
- IngestOne: leaves out the advance callback, and the tool call batches, which ToolRuns covers.
- StoreIsOneStraightRead: is for parsers that return a row per line, like Codex's; CaughtUpOutputs is for all.
- CaughtUpIsOneRead: is for parsers that return a row per line, like Codex's; CaughtUpOutputs is for all.
- Rollup.Build: leaves out the splits by model, tool and token class and the final sort.
- DrainingIsExact: leaves out the one root Close has marked and not counted yet, which it still holds.
- NeverStuck: is for a port that has not failed; FailedPortHangsIff is the other case.
- CloseReturns: is bounded from the end of the marking on; before it, a reader that keeps winning a root's mutex can delay Close, and no fairness of the mutex is modelled.
- Harnesses.OrderFreeIff: asks that no processes that ask form a cycle; ClassComesFromAnAncestor covers cycles.
- CutsDoNotMatterIff: is about whether a call is stored and its result; turn, tool, time and path of a call used twice are those of the use read last.
- Claude: title, surface, working directory and tool counts of a row, and the files of the cloud drop folder.
- Codex: title, surface and working directory, which a read carries along like the model.
- The page's test hooks (fake mode), a reload of the page, and a sample taken between an answer's reading of the clock and of the buffer.
- merge, history, export, reports and configuration: the same sums over again, or user interface.
