# Verification of the MCP server's protocols and algorithms

This project models the parts of the MCP server (`src/mcp_stdio`) in which something can go wrong
that a reader would not see at once: the lock protocol of the Zeppelin plugin, the Hive metadata
cache, the Spark event-log pipeline with its one-pass aggregations, the executor-log route, and the
tree, text, schema and parser algorithms. Code that updates fields or loops in place is a class or a
method with a loop, proved against a function; pure code is functions and lemmas; the asyncio
protocol is a state machine whose runs are all interleavings.

`dafny verify dfyconfig.toml` checks everything.

| file | what it models |
|---|---|
| `DiscoveryProtocol.dfy`, `DiscoveryProgress.dfy`, `DiscoveryResults.dfy`, `DiscoveryVerdicts.dfy` | discovery, notebook-scoped restart and `close` of the Zeppelin HTTP client over one `asyncio.Lock`, with timeouts and repeated cancellation: what every interleaving keeps, that every run can finish, and exactly how every call ends |
| `AwaitCleanup.dfy` | the `await_cleanup` join loop |
| `CookieHeader.dfy` | the quote-aware Cookie splitter |
| `HiveCache.dfy` | canonical keys and the TTL/LRU cache, with its loader outside the lock |
| `EventLog.dfy`, `ArchiveProcessor.dfy` | the archive processor that writes event logs, exactly which archives it accepts, and the reader that verifies what it wrote |
| `SparkEvents.dfy`, `EventFields.dfy` | the extractors of fixed event fields, and what they mean on the raw JSON keys |
| `TaskDistribution.dfy`, `StageMetrics.dfy`, `EventQuery.dfy`, `EventInspection.dfy`, `Counters.dfy` | the one-pass scans and their "collect, sort, take" specifications |
| `LogUrls.dfy`, `LogRoute.dfy`, `LogTail.dfy` | exactly which log URLs pass, identity pinning over a redirect chain; trimming to whole lines |
| `NotebookTree.dfy`, `Utf8.dfy`, `ConfigSchema.dfy`, `DescribeParser.dfy` | the notebook tree, UTF-8 truncation, the strict-schema search, the DESCRIBE parser |
| `Ordering.dfy`, `Strings.dfy`, `Wrappers.dfy` | Python's tuple order and stable sort, `str.split`, optional values |

## How to read the protocol

`DiscoveryProtocol.Step` takes one task from one suspension point to the next; between two
suspension points nothing else runs. A call's task, its lock acquisition, its preparation, its
binding query with the query's closer and cleanup, its PUT and its caller each have their own state,
so a schedule is any sequence of enabled events and `After` is the state it leads to.
The lock is modelled with its queue of waiter futures, including a waiter that was woken and then
cancelled. Cancellation may arrive at any suspension point any number of times, which is more than
asyncio allows, so what holds here holds there.

## Model

| member | source | states |
|---|---|---|
| DiscoveryProtocol.RunsKeepInv | src/mcp_stdio/plugins/zeppelin/http_client.py:224-340 | the invariant (calls in order, queue lists exactly the waiting acquisitions, only its head may be woken, at most one holder, shutdown bookkeeping) holds after every schedule of any number of calls |
| DiscoveryProtocol.MutualExclusion | src/mcp_stdio/plugins/zeppelin/http_client.py:262-291 | two calls inside the critical section are the same call, and it holds the lock, over all interleavings with timeouts, cancellations and close |
| DiscoveryProtocol.ReleaseExactlyOnce | src/mcp_stdio/plugins/zeppelin/http_client.py:252-260 | a call has released the lock once if it ended and its acquisition succeeded, never otherwise; no release finds the lock free |
| DiscoveryProtocol.FinishedRunsLeaveTheLockFree | src/mcp_stdio/plugins/zeppelin/http_client.py:252-291 | when all calls have ended, the lock is free and its queue empty: no run leaks it |
| DiscoveryProtocol.PutIsEntitled | src/mcp_stdio/plugins/zeppelin/http_client.py:729-752 | a step that starts a PUT is the holder's first, before its deadline, with neither close nor cancellation set, and the discovery of the same tenure returned exactly that setting as selected |
| DiscoveryProtocol.AtMostOnePut | src/mcp_stdio/plugins/zeppelin/http_client.py:715-771 | over every run a restart starts at most one PUT, and only when entitled; a discovery starts none |
| DiscoveryProtocol.SettledBeforeRelease | src/mcp_stdio/plugins/zeppelin/http_client.py:298-340 | only the holder's release frees the lock, and its preparation, binding query and query cleanup have settled by then |
| DiscoveryProtocol.FreeLockIsTaken | src/mcp_stdio/plugins/zeppelin/http_client.py:267-272 | no lost wakeup: while the lock is free and some acquisition is unfinished, an acquisition can take a step |
| DiscoveryProtocol.ReleaseNeverBlocks | src/mcp_stdio/plugins/zeppelin/http_client.py:252-260 | `_release_discovery_lock` can finish at once or after one step of its own cancelled acquisition; it never waits for the lock |
| DiscoveryProtocol.CloseJoinsEverything | src/mcp_stdio/plugins/zeppelin/http_client.py:852-872 | once close has joined, every call ever made has ended, the lock is free and no call can start again |
| DiscoveryProtocol.CallersOutliveTheirCalls | src/mcp_stdio/plugins/zeppelin/http_client.py:238-250 | a caller gets control back only after its task has ended and holds no lock |
| DiscoveryProgress.RunsAreBounded | src/mcp_stdio/plugins/zeppelin/http_client.py:262-340 | no livelock: under any schedule a run takes at most 25 steps of its own per call, however often it is interrupted |
| DiscoveryProgress.UnfinishedCallsGoOn | src/mcp_stdio/plugins/zeppelin/http_client.py:715-771 | no deadlock: in every reachable state with an unfinished call some step of a call, or of work it awaits, is enabled |
| DiscoveryProgress.RunsCanFinish | src/mcp_stdio/plugins/zeppelin/http_client.py:262-291 | every run extends, by such steps alone and within the bound, to one where all calls have ended and the lock is free |
| DiscoveryResults.NormalResultsAreEarned | src/mcp_stdio/plugins/zeppelin/http_client.py:273-281 | what a normal end implies: over every run the call held the lock, prepared and queried successfully and released once; a discovery sent no PUT, a restart one that succeeded, for a setting its own discovery selected (the converse is DiscoveryVerdicts.NormalExactlyWithoutSetback) |
| DiscoveryResults.DisturbedCallsReturnNoResult | src/mcp_stdio/plugins/zeppelin/http_client.py:753-757 | the step that turns a call to a normal end finds neither close nor its cancellation requested |
| DiscoveryVerdicts.ExitsAreEarned | src/mcp_stdio/plugins/zeppelin/http_client.py:262-340 | over every run, a call ends with exactly the exit that the events of the run have earned: cancelled, expired, in error or normal, read off the events without the protocol's state |
| DiscoveryVerdicts.NormalExactlyWithoutSetback | src/mcp_stdio/plugins/zeppelin/http_client.py:715-771 | an ended call ended normally if and only if no event of the run set it back |
| DiscoveryVerdicts.FirstSetbackDecides | src/mcp_stdio/plugins/zeppelin/http_client.py:715-771 | unless its task is cancelled, the first cancellation check, timeout, late deadline check, failed work, refusal or unselected setting decides how a call ends |
| DiscoveryVerdicts.InterruptsDecide | src/mcp_stdio/plugins/zeppelin/websocket_client.py:74-89 | a cancellation of the task at any suspension point makes the call end cancelled, whatever came before or comes after |
| DiscoveryVerdicts.UndisturbedDiscoverySucceeds | src/mcp_stdio/plugins/zeppelin/http_client.py:262-281 | a discovery that ended and met no interruption, timeout, close, caller cancellation, failed work, refusal or deadline ends normally with exactly the bindings its query came back with, and sent no PUT |
| DiscoveryVerdicts.UndisturbedRestartSucceeds | src/mcp_stdio/plugins/zeppelin/http_client.py:715-757 | so does a restart whose query came back with its setting selected, after one PUT, which succeeded |
| DiscoveryVerdicts.UnselectedRestartFails | src/mcp_stdio/plugins/zeppelin/http_client.py:736-737 | an otherwise undisturbed restart whose setting was not selected ends in error without a PUT |
| DiscoveryVerdicts.UndisturbedCallsCanSucceed | src/mcp_stdio/plugins/zeppelin/http_client.py:262-340 | from every run that left a call undisturbed so far, productive steps alone lead to its normal end |
| DiscoveryVerdicts.DisturbancesArrive | src/mcp_stdio/plugins/zeppelin/http_client.py:224-250 | cancellation can strike until a call has ended, a timeout exactly at the four timed waits, and calls start exactly until close is requested |
| AwaitCleanup.Join | src/mcp_stdio/plugins/zeppelin/websocket_client.py:74-89 | the join leaves only when the task is done, at the first such wake-up, raises the cancellation exactly if one arrived, and otherwise ends as the task did |
| CookieHeader.SplitHeader | src/mcp_stdio/plugins/zeppelin/http_client.py:151-170 | fails exactly on unbalanced quotes; otherwise the segments are balanced, hold no separator and join back to the header |
| CookieHeader.SplittingIsUnique | src/mcp_stdio/plugins/zeppelin/http_client.py:154-170 | a header has only one splitting into segments, so splitting inverts joining |
| CookieHeader.JoinedSegmentsAreBalanced | src/mcp_stdio/plugins/zeppelin/http_client.py:166-170 | every join of segments is accepted |
| HiveCache.MadeKeysAreCanonical | src/mcp_stdio/plugins/hive/cache.py:41-67 | every key that can be made is accepted as canonical and stands for itself |
| HiveCache.KeysAreCanonical | src/mcp_stdio/plugins/hive/cache.py:76-111 | an arbitrary value is accepted exactly when it encodes a key that can be made |
| HiveCache.KeysAcceptRequests | src/mcp_stdio/plugins/hive/cache.py:35-67 | a request has a key exactly when the tool is one of the three and has exactly its own arguments, all identifiers |
| HiveCache.KeysIdentifyRequests | src/mcp_stdio/plugins/hive/cache.py:35-67 | two requests share a key exactly when tool, DDL flag and, up to letter case, names agree |
| HiveCache.HiveMetadataCache.Get | src/mcp_stdio/plugins/hive/cache.py:186-196 | the new order and the answer of one lookup: expired entries go, hits move to the recent end |
| HiveCache.HiveMetadataCache.Put | src/mcp_stdio/plugins/hive/cache.py:198-215 | the new order after purge, store and eviction; keys stay distinct and the capacity is kept |
| HiveCache.HiveMetadataCache.Lookup | src/mcp_stdio/plugins/hive/cache.py:174-178 | a hit is the stored value in every field but the flag, which is set; a bad key or TTL 0 leaves the cache as it was |
| HiveCache.HiveMetadataCache.Complete | src/mcp_stdio/plugins/hive/cache.py:180-184 | a result that does not match its key is refused and not stored, TTL 0 never stores, and what is returned is the loader's in every field but the flag, which is clear |
| HiveCache.ResultsFulfilRequests | src/mcp_stdio/plugins/hive/cache.py:114-136 | a result matches a key exactly when it is of the requested kind, about the requested objects up to letter case, with a DDL text exactly if one was asked for |
| HiveCache.Purge | src/mcp_stdio/plugins/hive/cache.py:201-207 | exactly the unexpired entries remain, in order |
| HiveCache.RunsKeepWellformed | src/mcp_stdio/plugins/hive/cache.py:186-215 | after any interleaving of the steps of any calls: distinct keys, values that match their key, at most 256 entries |
| HiveCache.EntriesComeFromLoaders | src/mcp_stdio/plugins/hive/cache.py:167-184 | every entry was stored for its own key from a loader's result and expires TTL after that step |
| HiveCache.HitsAreTransparent | src/mcp_stdio/plugins/hive/cache.py:114-215 | every hit equals, in every field but the flag, what some loader returned for the same key strictly less than TTL ago |
| HiveCache.RecentKeysHit | src/mcp_stdio/plugins/hive/cache.py:186-215 | the LRU guarantee: an unexpired key is a hit whenever fewer than 256 distinct other keys were put or hit since its own last put or hit |
| HiveCache.CapacityIsKept | src/mcp_stdio/plugins/hive/cache.py:214-215 | at most 256 entries after any run, and the eviction loop has at most one entry to pop |
| EventLog.ScanMember | src/mcp_stdio/plugins/spark/files.py:167-249 | the byte-budgeted line loop succeeds exactly when the member scans and both its source and its output fit what is left |
| EventLog.StoreMembers | src/mcp_stdio/plugins/spark/files.py:165-267 | the member loop returns all files exactly when every member can be stored, attempts are distinct and both totals fit |
| ArchiveProcessor.ProcessArchive | src/mcp_stdio/plugins/spark/files.py:140-274 | for every archive: it returns files exactly if the archive is acceptable, and then exactly the files it must |
| ArchiveProcessor.AcceptanceIsExact | src/mcp_stdio/plugins/spark/files.py:159-274 | acceptance, if and only if: one to sixteen members with different names (one if an attempt is requested), each storable, no attempt twice, both totals within the budget, no leaking metadata; and the files in the order of their attempts |
| ArchiveProcessor.MembersAreStoredExactly | src/mcp_stdio/plugins/spark/files.py:166-267 | a member is stored if and only if its lines all decode to named events, print without leaking, give one spelled version and one fitting identity, and it is named application, underscore, attempt, with or without .inprogress; every field of its file is stated |
| ArchiveProcessor.LinesMean | src/mcp_stdio/plugins/spark/files.py:179-182 | the lines of a file are the only pieces that end in their only newline, the last perhaps without, and make it up |
| ArchiveProcessor.NoLineLeaks | src/mcp_stdio/plugins/spark/files.py:241-242 | no line of a returned file and no file's metadata holds a secret |
| EventLog.ReadVerified | src/mcp_stdio/plugins/spark/inspection_reader.py:151-226 | the reader succeeds exactly on verified files, and its visitor has then seen all events in order |
| EventLog.ReaderAcceptsConsistentFiles | src/mcp_stdio/plugins/spark/inspection_reader.py:157-226 | a written file is accepted if and only if its redacted events still agree with the recorded metadata, and then visited as exactly those events |
| EventLog.ProcessedFilesReadBack | src/mcp_stdio/plugins/spark/files.py:159-274 | round trip: provided redaction leaves the compared fields alone, each returned file is selected, accepted and visited as its member's redacted events in order |
| EventLog.ProcessedFilesAreBounded | src/mcp_stdio/plugins/spark/files.py:241-274 | output sizes sum to at most the budget, attempts are pairwise distinct and in order, a requested attempt is the only one |
| EventLog.LinesOfConcat | src/mcp_stdio/plugins/spark/files.py:232-247 | lines that each end in their only newline survive being written one after the other |
| SparkEvents.TaskValuesFit | src/mcp_stdio/plugins/spark/metrics_events.py:17-45 | every projected value, also a sum of two longs, fits an unsigned 64-bit array |
| EventFields.OutcomesMean | src/mcp_stdio/plugins/spark/metrics_events.py:48-52 | a task succeeded exactly if "Reason" in the object "Task End Reason" is the string "Success", and is unknown exactly if that is no text of 1 to 128 characters without control characters |
| EventFields.MeasurementsMean | src/mcp_stdio/plugins/spark/metrics_events.py:26-45 | each of the six values is the range-checked integer under its own JSON path, or the difference or sum of the two under theirs |
| EventFields.IdsMean | src/mcp_stdio/plugins/spark/inspection_events.py:27-51 | each identifier is read under its own JSON path, with the stated fallback paths |
| EventFields.DecimalsRead | src/mcp_stdio/plugins/spark/inspection_events.py:34-35 | reading the decimal text of a number gives the number |
| EventFields.LeadingZeroReads | src/mcp_stdio/plugins/spark/inspection_events.py:34-35 | a leading zero changes nothing |
| TaskDistribution.DistributionIsNearestRank | src/mcp_stdio/plugins/spark/metrics_events.py:55-66 | for every nonempty sample the indices are in range, min <= p50 <= p95 <= max, and the quantiles are the least samples with 50 and 95 percent at or below them |
| TaskDistribution.EmptySample | src/mcp_stdio/plugins/spark/metrics_events.py:59-65 | without samples there are no statistics, and every success lacks a value |
| TaskDistribution.NearestRankIsUnique | src/mcp_stdio/plugins/spark/metrics_events.py:63-64 | that description leaves one value |
| TaskDistribution.DistributionIgnoresOrder | src/mcp_stdio/plugins/spark/metrics_events.py:57-66 | permuting the sample changes nothing |
| TaskDistribution.CandidateHeap.Push | src/mcp_stdio/plugins/spark/metrics.py:186-187 | the heap order is kept and exactly the new element is added |
| TaskDistribution.CandidateHeap.Replace | src/mcp_stdio/plugins/spark/metrics.py:188-189 | the heap order is kept and exactly the root is exchanged |
| TaskDistribution.RootIsLowest | src/mcp_stdio/plugins/spark/metrics.py:188 | no element of a heap ranks below its root |
| TaskDistribution.FullHeapStep | src/mcp_stdio/plugins/spark/metrics.py:185-189 | a full heap stays the best `limit` candidates exactly by exchanging its root when the new key is greater |
| TaskDistribution.TaskScan.Visit | src/mcp_stdio/plugins/spark/metrics.py:162-189 | after each line the heap, the samples and the counts are those of the lines seen |
| TaskDistribution.ScanTaskDistribution | src/mcp_stdio/plugins/spark/metrics.py:155-229 | for every stream: outcome counts are the numbers of raw task ends of the attempt with each raw reason, distributions those of the raw measurements of the successful ones, and the top list is "collect, sort, take"; counts and distributions depend on neither limit nor ranking metric |
| TaskDistribution.CandidatesAreTheRankedTasks | src/mcp_stdio/plugins/spark/metrics.py:164-184 | the candidates are exactly the raw task ends of the attempt whose reason is "Success" and that have the metric, each at its line with its raw measurements and identifiers |
| TaskDistribution.TopTasksAreTheBest | src/mcp_stdio/plugins/spark/metrics.py:184-211 | min(limit, ranked) tasks, by score descending then line ascending, and every other candidate ranks after all of them |
| TaskDistribution.SmallerLimitsGivePrefixes | src/mcp_stdio/plugins/spark/metrics.py:186-199 | a smaller limit gives a prefix of the list for a larger one |
| TaskDistribution.RankedTasksAreSamples | src/mcp_stdio/plugins/spark/metrics.py:176-184 | the ranked count is the sample count of the metric and never more than the successes |
| StageMetrics.StageScan.Visit | src/mcp_stdio/plugins/spark/metrics.py:83-120 | after each line every group holds its own counts, totals and last stage events of the lines seen |
| StageMetrics.ScanStageMetrics | src/mcp_stdio/plugins/spark/metrics.py:77-152 | for every stream, filter and limit: the first groups in order, and every published field and the unassigned count as the raw events say |
| StageMetrics.KeysAreMentioned | src/mcp_stdio/plugins/spark/metrics.py:98-102 | a group exists exactly for each wanted stage attempt that the stream mentions, once |
| StageMetrics.GroupsAreNamed | src/mcp_stdio/plugins/spark/metrics.py:85-102 | on the raw events: a group exists exactly for each wanted attempt that a task end, submission or completion names under its own keys |
| StageMetrics.PublishedMetricsAreFacts | src/mcp_stdio/plugins/spark/metrics.py:103-144 | every published field on the raw events: counts by raw reason, the lines of the last stage events, their times and duration, and the sums, valid and missing counts of the raw measurements |
| StageMetrics.UnassignedAreCounted | src/mcp_stdio/plugins/spark/metrics.py:95-97 | the unassigned task ends are those that lack a stage ID or attempt ID |
| StageMetrics.TaskEndsAreConserved | src/mcp_stdio/plugins/spark/metrics.py:93-113 | unfiltered, the task ends of the stream are the unassigned ones plus those of all groups |
| StageMetrics.TotalsAreComplete | src/mcp_stdio/plugins/spark/metrics.py:34-46 | valid plus missing equals the successes in each total, and neither is negative |
| StageMetrics.FilterSelectsOneGroup | src/mcp_stdio/plugins/spark/metrics.py:98-102 | filtering to a stage attempt gives exactly its group of the unfiltered run, or nothing |
| StageMetrics.PublishedOrderIsStrict | src/mcp_stdio/plugins/spark/metrics.py:71-74 | the published order is strict: known durations first, longest first, then by IDs |
| StageMetrics.PublishedGroupsAreTheFirst | src/mcp_stdio/plugins/spark/metrics.py:124-148 | every omitted group comes after every published one |
| Counters.CountsAreMultiplicities | src/mcp_stdio/plugins/spark/inspection.py:34-38 | a counter holds each name once with its multiplicity, and its counts add up |
| Counters.MostFrequentComeFirst | src/mcp_stdio/plugins/spark/inspection.py:34-38 | a published count is greater than every omitted one, or equal with a smaller name |
| Counters.MostFrequentAreCounts | src/mcp_stdio/plugins/spark/inspection.py:34-38 | 32 names are published, or all if there are no more, each with its multiplicity |
| EventQuery.Query | src/mcp_stdio/plugins/spark/inspection.py:101-167 | the page for every stream, filter, cursor and limit: totals over all matches, entries and cursor behind `after_line` |
| EventQuery.HitsAreTheMatchingLines | src/mcp_stdio/plugins/spark/inspection.py:118-131 | the matches are exactly the lines whose raw events pass every filter, identifiers and reason read under their own keys, each once and in order |
| EventQuery.PageContinues | src/mcp_stdio/plugins/spark/inspection.py:134-165 | a page starts where its cursor stands and its next cursor stands behind it, or there is none because all was seen |
| EventQuery.PagesAreConsistent | src/mcp_stdio/plugins/spark/inspection.py:131-162 | every page reports the same totals: the matches, the task ends among them, and each published reason as often as it is reported |
| EventQuery.FollowPages | src/mcp_stdio/plugins/spark/inspection.py:150-167 | following the cursor from 0 terminates; the pages together are all matches once and in order, with the same totals on each, full but for the last |
| EventInspection.Admit | src/mcp_stdio/plugins/spark/inspection.py:230-234 | the append, sort and pop keep the twenty most urgent failures of everything seen |
| EventInspection.InspectScan.Visit | src/mcp_stdio/plugins/spark/inspection.py:199-242 | after each line all counters, signals and both lists are those of the lines seen |
| EventInspection.Inspect | src/mcp_stdio/plugins/spark/inspection.py:178-271 | the overview for every stream: every count is that of the raw events; evidence is the failures if there are any and the endings otherwise, with the exact omitted remainder |
| EventInspection.FailuresAreThePrioritized | src/mcp_stdio/plugins/spark/inspection.py:203-231 | the failures are exactly the raw events that are a failed job, a stage with a failure reason, a task with a readable reason other than "Success", or a removed executor, each once with its urgency |
| EventInspection.EndingsAreTheRest | src/mcp_stdio/plugins/spark/inspection.py:235-242 | the endings are exactly the raw ends of jobs, SQL executions and the application that are no failure, in order, the first twenty of them kept |
| EventInspection.OverviewCountsTheEvents | src/mcp_stdio/plugins/spark/inspection.py:199-229 | each signal, type and reason is counted once for each raw event of that kind |
| EventInspection.KeptFailuresAreTheMostUrgent | src/mcp_stdio/plugins/spark/inspection.py:230-234 | a failure is left out only for twenty kept ones that all come before it by priority and line |
| EventInspection.OverviewAddsUp | src/mcp_stdio/plugins/spark/inspection.py:254-269 | signals sum to the failure count and type counts to the event count |
| LogUrls.AllowedMeans | src/mcp_stdio/plugins/spark/executor_logs.py:177-186 | a backend is allowed if and only if its port is real, its host has no capitals, and a rule for its scheme and port names the host or, as a wildcard, everything behind its first label |
| LogUrls.GatewayPins | src/mcp_stdio/plugins/spark/executor_logs.py:206-234 | a URL that passes is on the gateway's HTTPS origin, names the pinned container, owner and stream, and has a backend on the allowlist that is the pinned one for its kind; no pin is replaced |
| LogUrls.GatewayIsExact | src/mcp_stdio/plugins/spark/executor_logs.py:206-234 | a target is followed if and only if it passes: origin, decoded path, query, backend, identity and pins, with exactly that URL and those pins |
| LogUrls.OpeningIsExact | src/mcp_stdio/plugins/spark/executor_logs.py:88-134 | an original URL opens a route if and only if it passes on the gateway with the pins it sets, or is a NodeManager's own log URL on the allowlist |
| LogUrls.SegmentsMean | src/mcp_stdio/plugins/spark/executor_logs.py:63-74 | decoding yields exactly the decoded parts of the path, and only if none is a dot name or hides a separator or a control character |
| LogUrls.BackendsMean | src/mcp_stdio/plugins/spark/executor_logs.py:158-175 | a gateway query yields a backend if and only if its keys are allowed and different, its start is a number, and scheme, host and port name that allowed backend |
| LogUrls.NodeHostsMean | src/mcp_stdio/plugins/spark/executor_logs.py:188-197 | a node ID yields a host if and only if it is that host, a colon and the digits of a real port |
| LogRoute.LogRoute.Initialize | src/mcp_stdio/plugins/spark/executor_logs.py:88-134 | a route is opened exactly if the original URL opens one, with that first URL and those pins |
| LogRoute.LogRoute.Redirect | src/mcp_stdio/plugins/spark/executor_logs.py:236-246 | a redirect is followed exactly when it is no login page and passes the gateway check, and only the history backend may become set |
| LogRoute.Receive | src/mcp_stdio/plugins/spark/executor_logs.py:439-537 | against any server: at most 4 GETs, no URL twice, every one pinned; content is found exactly when the server offers an acceptable chain from the route's URL |
| LogRoute.AcceptedContinues | src/mcp_stdio/plugins/spark/executor_logs.py:450-479 | server and start determine the chain: an accepted chain continues every other one from the same start |
| LogTail.TailLines | src/mcp_stdio/plugins/spark/executor_logs.py:706-717 | the longest suffix of whole lines within the byte limit, or the whole text when it fits |
| LogTail.TailIsUnique | src/mcp_stdio/plugins/spark/executor_logs.py:706-717 | there is only one such suffix |
| LogTail.TrimmingComposes | src/mcp_stdio/plugins/spark/executor_logs.py:706-717 | trimming to one limit and then to a smaller or equal one is trimming to the second |
| LogTail.TrimmingIsIdempotent | src/mcp_stdio/plugins/spark/executor_logs.py:706-717 | trimming a trimmed text changes nothing |
| LogTail.SplitJoin | src/mcp_stdio/plugins/spark/executor_logs.py:709-717 | the lines of a text, with their ends, join back to it |
| LogTail.LinesMean | src/mcp_stdio/plugins/spark/executor_logs.py:709-717 | the lines are the only pieces that make up the text and hold a line end nowhere but at their ends, a carriage return and line feed counting as one |
| LogTail.BoundedContent | src/mcp_stdio/plugins/spark/executor_logs.py:720-729 | the published text is that tail, and coverage and flag tell whether anything was cut |
| Utf8.DecodeInvertsEncode | src/mcp_stdio/plugins/zeppelin/models.py:127-133 | decoding inverts encoding for all strings of scalar values |
| Utf8.HeadIsExact | src/mcp_stdio/plugins/zeppelin/models.py:133 | the decoder takes exactly the encodings of scalar values: no overlong form, no surrogate, nothing past U+10FFFF |
| Utf8.CutDecodesToPrefix | src/mcp_stdio/plugins/zeppelin/models.py:133 | a byte cut of an encoding decodes, errors ignored, to the longest prefix whose encoding survived |
| Utf8.TruncateKeepsLongestPrefix | src/mcp_stdio/plugins/zeppelin/models.py:127-133 | the result is the longest prefix that fits, the flag says whether anything was cut, and lone surrogates are the only failure |
| NotebookTree.BuildNotebookTree | src/mcp_stdio/plugins/zeppelin/models.py:376-417 | the returned nodes for every input, as a function of the insertions in order |
| NotebookTree.InsertFacts | src/mcp_stdio/plugins/zeppelin/models.py:391-398 | an insertion sets one ID and adds at most one name to each directory on its way; everything else stays |
| NotebookTree.BuildHoldsTheInput | src/mcp_stdio/plugins/zeppelin/models.py:386-398 | the tree's IDs are the last-wins map of the normalised paths, and siblings appear in first-insertion order |
| NotebookTree.FlattenedTreesRebuild | src/mcp_stdio/plugins/zeppelin/models.py:376-417 | flattening a built tree in preorder and building again gives the same tree |
| NotebookTree.PathsGrowBySegments | src/mcp_stdio/plugins/zeppelin/models.py:400-416 | each child's path is its parent's with one segment more |
| NotebookTree.BuildIsLive | src/mcp_stdio/plugins/zeppelin/models.py:386-398 | sibling names are distinct, and every directory leads to an ID |
| NotebookTree.TreeShowsTheInput | src/mcp_stdio/plugins/zeppelin/models.py:376-417 | the returned tree has a node at exactly the prefixes of the listed paths, with its path, the last ID listed for it, and its children in first-listing order |
| NotebookTree.SegmentsRead | src/mcp_stdio/plugins/zeppelin/models.py:388 | how any path string reads: slashes separate, and what lies between them is a segment |
| ConfigSchema.ModelTypesAreMentioned | src/mcp_stdio/core/config.py:194-200 | the collected classes are exactly those that occur anywhere in the annotation |
| ConfigSchema.Search.Validate | src/mcp_stdio/core/config.py:203-221 | terminates on cyclic schemas; what it newly checked is strict and leads only to checked classes, and a rejection is a genuine field path to an offender |
| ConfigSchema.ValidateStrictModelSchema | src/mcp_stdio/core/config.py:203-221 | accepts if and only if every class reachable through field annotations is strict, whatever order sets are iterated in |
| DescribeParser.ParseDescribeRows | src/mcp_stdio/plugins/hive/parser.py:53-110 | the row loop parses what the section state machine parses, and fails when it fails |
| DescribeParser.ParseAcceptsDescriptions | src/mcp_stdio/plugins/hive/parser.py:62-110 | exact acceptance: rows parse to given columns if and only if, noise dropped, they read as those columns, one marker and those partition columns, numbered from one in each section |
| DescribeParser.NoiseRows | src/mcp_stdio/plugins/hive/parser.py:64-85 | a row is skipped exactly if its cells are empty or it is a "# col_name", "data_type" header, with or without "comment", between white space |
| DescribeParser.MarkerRows | src/mcp_stdio/plugins/hive/parser.py:72-80 | a row is the marker exactly if its name is "# Partition Information" between white space and the rest is empty |
| DescribeParser.ColumnRows | src/mcp_stdio/plugins/hive/parser.py:87-106 | a row gives a column exactly if it names one that is no comment line, gives its type, and has a comment cell of text or nothing |
| DescribeParser.StripMeans | src/mcp_stdio/plugins/hive/parser.py:36-37 | stripping yields the only core of a text between white space |
| DescribeParser.PrintedTablesParse | src/mcp_stdio/plugins/hive/parser.py:53-110 | round trip: a printed table with blank rows and well-formed headers inserted anywhere parses back |
| DescribeParser.ParsedTablesPrint | src/mcp_stdio/plugins/hive/parser.py:53-110 | whatever parses can be printed and parses to the same columns again |

## Assumed and abstracted

- JSON, UTF-8 and SHA-256 of the event log, and redaction, are the fields of `EventLog.Codec`. The one
  law assumed is `Lawful`: an encoded event holds no raw newline, and decoding it gives it back.
- Times are integers. Deadlines, clock readings and loader results are inputs of the steps.
- Error categories collapse to one failure value in the parsers, the archive processor and the route.
- URL splitting, percent-decoding, the container pattern and the login pattern are parameters of
  `LogRoute.Settings`; a rebuilt URL is its decoded segments.

## Left out

- DiscoveryProtocol.SettledBeforeRelease: says nothing about the PUT task, because `_finish_http_work` may deliberately abandon a transport that does not stop.
- DiscoveryProtocol.CloseJoinsEverything: covers discoveries, restarts and their lock, not the closing of the HTTP client itself, which is modelled nowhere.
- DiscoveryProgress.RunsCanFinish: takes the awaited preparation, query, cleanup and PUT to be able to end; real ones end by themselves or by their timeouts, which are not steps of this model.
- NotebookTree.BuildNotebookTree: the nested dictionaries are values and the descent along the segments is a recursion, so aliasing between dictionaries is not modelled.
- TaskDistribution.CandidateHeap: `heapq` is modelled by the textbook sift-up and sift-down; only the heap order, the root and the multiset of elements matter to the scan, and ties in the key cannot occur because lines differ.
- EventInspection.Inspect: evidence carries the event itself; the redacted, bounded text of `event_details` is not part of this model.
- LogRoute.Receive: the parsing of the log page, its redaction and the collected secrets are one flag of the answer.
- HiveCache.KeysAreCanonical: `str.casefold` is modelled on ASCII, which is all that a valid identifier holds.
- Handshakes of the protocol with threads: the cache's `RLock` sections are atomic steps.
- `_receive_bindings` and `_parse_bindings`: message and byte budgets of the binding query; only its outcome enters the protocol.
- The connection and abort flag of `_BindingQuery`: only whether its work, cleanup and closer have settled.
- The cookie values behind the splitter: names, quoting and the SimpleCookie check.
- Override precedence, secret references and the secret-annotation check of `core/config.py`: one-branch facts.
- `parse_show_create_rows`, result models and their size limits, identifier validation of inputs.
- File-system checks, manifest parsing, snapshot times, ZIP decoding, checkpoints and timeouts of the event-log code.
- Cache lookup by most recent download: it compares timestamps as strings, which is not always chronological.
- The DolphinScheduler plugin, tool adapters, server start-up, logging redaction and the SQL safety patterns.
