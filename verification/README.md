# Verified model of the SSE contract-test harness

The harness runs a suite of contract tests against a test service that wraps an SSE client. This project models the parts of
it that decide whether the outcome of a test run can be trusted, and proves what they promise.

- `MessageSorting.dfy`, `QueueMachine.dfy`: the queue that puts callbacks back in order. First as a class, whose `Accept` is
  proved equal to a function of the state; then as a system of goroutines with a lock, blocking sends made under the lock,
  a bounded channel and a consumer. The contract (`Settled`) says what is released and what waits, without saying how; one
  state only meets it, so arrival order, interleaving and channel size cannot matter. Concurrent calls with any counters,
  repeated ones included, always have the effect of some sequence of the same calls (`EveryRunIsSequential`), and every
  sequence of them can come about (`EverySequenceIsARun`).
- `SseClient.dfy`, `CallbackPipeline.dfy`, `ClientRuns.dfy`, `CallbackAddressing.dfy`: the callback handler, the decoding
  goroutine, the output channel and `AwaitMessage`; the whole path as one concurrent system, first with any reader and then
  with a test that calls `IgnoreErrorHere` and `AwaitMessage`; and the way from a callback URL to the message that the test
  reads.
- `TestScope.dfy`: the test runner as classes that thread panics through nested scopes, proved equal to a description of the
  test tree. `ScopeRules.dfy` says what that description comes to, one rule for each way in which a body can go.
  `TraceShape.dfy`, `ScopesInRuns.dfy`, `Outcomes.dfy`, `ErrorLog.dfy`, `Pruning.dfy`: what every run looks like,
  where each scope stands in it, what its results mean, how the errors logged relate to those recorded, and when
  running a selection of the tests is the same as selecting from the results of all of them.
- `Filters.dfy`, `LiteralPatterns.dfy`, `TestResults.dfy`: test name patterns, ids and results.
- `MockEndpoints.dfy`: the endpoint registry, the router, and the bounded queue of connections.
- `StreamServer.dfy`: chunked sending and the stream handler.
- `ErrorFormatting.dfy`: taking testify messages apart and laying them out again.
- `Text.dfy`, `Bytes.dfy`: the string functions and the byte strings that the others use.

## How to read the model

Blocking, timeouts and goroutine scheduling are nondeterministic steps: theorems about runs quantify over every list of
enabled steps. JSON decoding and the regexp engine are uninterpreted functions given as parameters. A cleanup is a token
in the trace of a run, and a test body is the list of things that the body does to its scope. Items that arrive while
`AwaitMessage` is blocked are a parameter of the call; `ArrivalsMayComeFirst` shows that they might as well have arrived
before it. `strconv.Atoi` is modelled with the range of a 64-bit int; counters and ids are otherwise unbounded. `sort.Slice`
stands as a sort by counter. Which of two equal counters comes first is left to it in Go, and no theorem depends on that: those
about repeated counters speak of counters only, of equal copies, or of two uses of the same sort. A loop that may not end is followed for a given number of rounds.

Where a property needs a condition, or the code differs from its documentation, the model follows the code:

- `Defer` is documented to call its function when the scope exits for any reason. A scope that is skipped returns before
  its cleanups. `CleanupsRunIff` says exactly when they are called, `SkippedScopeKeepsItsCleanup` gives a scope that
  leaves one uncalled.
- The queue keeps its order only for counters that are new. `ContractHoldsIff` says which sequences of calls keep it, and
  `AcceptKeepsContractIff` which single calls do. `RepeatedCallbackIsReleasedAgain` and `RepeatedCallbackBlocksTheQueue`
  show what becomes of others: a second copy can get stuck at the head of the deferred list, where it stays until the last
  counter moves back (`StuckCopyStaysUnlessReleasedAgain`), as a repeat of an earlier callback makes it do
  (`RepeatReleasesStuckCopy`). `ContractHoldsInRunsIff` says the same of concurrent calls as `ContractHoldsIff` of sequences.
- `reformatError` indexes past the end of a list when the whole message is "Received unexpected error:". `ReformatPanicsIff` says when,
  `ReformatCanPanic` gives such a text, `FormattingPanicIsRecorded` says what it does to the test.
- `--run` and `--skip` are documented to match the full path of a test (`docs/running.md`, line 21); the code matches component
  by component. `ReadingsAgreeIff` says for which patterns and ids the two are the same for whatever engine, `ReadingsDiffer` gives
  inputs on which they differ either way, and `LiteralReadingsAgreeIff` and `SinglePartAgreesIff` say exactly when they are the
  same for expressions without special characters.
- Filtering is exact unless a pattern to skip is the empty list, which the command line cannot produce
  (`RegexFiltersAreExactIff`, `CommandLineFiltersAreExact`).
- A run that is OK may have logged errors, from scopes that were skipped after a failure: `OKRunLogsAnErrorIff`,
  `FailureThenSkipIsOK`.
- `SendInChunks` needs a positive chunk size or nothing to send (`LoopEndsIff`).
- `AwaitMessage` returns an item's message and a nil error even for an item that carries an error: the caller sees a
  message whose kind is empty. Such an item also uses up a preceding `IgnoreErrorHere` without being ignored
  (`HarnessErrorReadsAsBlankMessage`). `NoBlankMessagesIff` says which runs are free of that.

## Model

| member | source | states |
|---|---|---|
| MessageSorting.MessageSortingQueue.Accept | framework/harness/message_sorting_queue.go:25-45 | after a call the lock-protected state is the one the specification function gives, for any counter at all |
| MessageSorting.MessageSortingQueue.Deferred | framework/harness/message_sorting_queue.go:47-55 | lists the messages that wait, in the order in which they wait |
| MessageSorting.SortByCounterSorts | framework/harness/message_sorting_queue.go:29 | the sort orders the deferred list by counter and loses or adds nothing, repeated counters included |
| MessageSorting.OneCall | framework/harness/message_sorting_queue.go:25-45 | in any state, for any counter, a call that is too early only joins the sorted list; any other is released at once, followed by exactly the deferred messages that continue it without a gap |
| MessageSorting.AcceptSettles | framework/harness/message_sorting_queue.go:25-45 | a call with a new counter from 1 up takes a queue that meets its contract to one that meets it with one message more |
| MessageSorting.AcceptAllSettles | framework/harness/message_sorting_queue.go:25-45 | after any callbacks with distinct counters, messages 1 to m are out in order for the largest m with all of 1 to m accepted, and the rest wait, strictly sorted and all beyond m+1 |
| MessageSorting.SettledUnique | framework/harness/message_sorting_queue.go:8-19 | what was accepted determines the whole state of a queue that meets its contract |
| MessageSorting.OrderIndependence | framework/harness/message_sorting_queue.go:25-45 | two arrival orders of the same callbacks leave the queue in the same state, with the same output |
| MessageSorting.PermutationComesOutSorted | framework/harness/message_sorting_queue.go:25-45 | callbacks 1 to n in any order all come out, by counter, and nothing is left waiting |
| MessageSorting.AcceptKeepsContractIff | framework/harness/message_sorting_queue.go:27-33 | a call keeps the contract if and only if its counter is past the last one released and not already waiting |
| MessageSorting.RepeatedCallbackIsReleasedAgain | framework/harness/message_sorting_queue.go:33-34 | callback 1 sent twice is released twice |
| MessageSorting.RepeatedCallbackBlocksTheQueue | framework/harness/message_sorting_queue.go:35-39 | callback 2 sent twice and then callback 1: the second copy of callback 2 is left at the head of the deferred list, behind the last counter |
| MessageSorting.ContractHoldsIff | framework/harness/message_sorting_queue.go:25-45 | a sequence of calls leaves the queue within its contract if and only if its counters are distinct and positive; after a bad call nothing brings the contract back |
| MessageSorting.StuckCopyStaysUnlessReleasedAgain | framework/harness/message_sorting_queue.go:27-39 | a stuck counter stays at the head, and nothing deferred is released, through every call with a counter past the last one released |
| MessageSorting.RepeatReleasesStuckCopy | framework/harness/message_sorting_queue.go:33-39 | a repeat of callback 1 moves the last counter back, and the stuck copy of callback 2 is released after it |
| QueueMachine.StepInv | framework/harness/message_sorting_queue.go:25-45 | every step of every goroutine keeps: released messages in order, deferred list sorted, no callback lost |
| QueueMachine.AlwaysInOrder | framework/harness/message_sorting_queue.go:25-45 | in every interleaving at every moment, consumed, buffered and in-hand messages are together exactly messages 1 to lastCounter in order |
| QueueMachine.StuckIff | framework/harness/message_sorting_queue.go:34-44 | the system can take no step only when every call has returned and the channel is empty, whatever the channel size: no deadlock |
| QueueMachine.RunIsBounded | framework/harness/message_sorting_queue.go:35-43 | a measure decreases with every step, so there is no endless run |
| QueueMachine.EveryRunIsSequential | framework/harness/message_sorting_queue.go:21-45 | for calls with any counters, in every interleaving at every moment, what is released is the beginning of what some sequence of the calls so far releases; a run with nothing left to do is in the very state that a sequence of all the calls leaves |
| QueueMachine.EverySequenceIsARun | framework/harness/message_sorting_queue.go:21-45 | conversely, each order of the calls is that of some run, which stops in the state that this order leaves, whatever the channel size |
| QueueMachine.CallersBlockIff | framework/harness/message_sorting_queue.go:21-23 | if the consumer does nothing, the callers are held up if and only if all calls have returned or the one with the lock finds the buffer full |
| QueueMachine.ContractHoldsInRunsIff | framework/harness/message_sorting_queue.go:25-45 | a finished run of concurrent calls leaves the queue within its contract if and only if their counters are distinct and positive |
| QueueMachine.EveryMaximalRunAgrees | framework/harness/message_sorting_queue.go:21-45 | every run ends within four steps a call, and then the consumer has received just what sequential calls would have released, with the same messages left waiting |
| SseClient.SSEClient.HandleCallback | ssetests/testapi_sse_client.go:111-135 | a callback whose path is a character and an int is handed to the sorting queue with 202; any other adds one error item, which says what was wrong, and gets 400; nothing else changes |
| SseClient.SSEClient.ConsumeCallbacks | ssetests/testapi_sse_client.go:259-274 | one output item for each message out of the queue, in order, index by index: the decoded message without an error, or a blank one with an error for malformed data |
| SseClient.ItemsOfAt | ssetests/testapi_sse_client.go:259-274 | the items that the run theorems speak of are, index by index, the decoded messages, or errors beside blank messages |
| SseClient.SSEClient.AwaitMessage | ssetests/testapi_sse_client.go:138-158 | reads, drops and returns what the specification function says, whichever select the deadline wins and whatever arrives while the call is blocked |
| SseClient.SSEClient.IgnoreErrorHere | ssetests/testapi_sse_client.go:203-205 | arms the suppression of one error and touches nothing that is queued |
| SseClient.EveryItemAccountedFor | ssetests/testapi_sse_client.go:138-158 | in every run returned and dropped items are together, in order, the items read, and with the channel all that arrived; an item is dropped exactly when it is an error and the first read after an IgnoreErrorHere; drops never exceed those calls |
| SseClient.ArrivalsMayComeFirst | ssetests/testapi_sse_client.go:141-157 | items that arrive during a call, also while it is blocked after a dropped error, have the effect of items that arrived before it |
| SseClient.HarnessErrorReadsAsBlankMessage | ssetests/testapi_sse_client.go:147-153 | with an error of the harness at the head of the channel, a call returns a blank message without an error, and uses up a pending suppression |
| CallbackPipeline.NoBlankMessagesIff | ssetests/testapi_sse_client.go:147-153 | a run with nothing left to do has put no error before the test as a blank message if and only if no handler rejected a request and every message that sequential sorting releases decodes |
| CallbackPipeline.StepInv | ssetests/testapi_sse_client.go:259-274 | every step of handlers, decoder and reader keeps one output item for each message taken from the queue, in order, and every handler error once |
| CallbackPipeline.AlwaysInOrder | ssetests/testapi_sse_client.go:111-135 | in every interleaving the queue-derived items read so far are the in-order images of the first callbacks by counter, with handler errors interleaved at will and none lost |
| CallbackPipeline.StuckIff | ssetests/testapi_sse_client.go:259-274 | with a reader the pipeline never deadlocks on its two bounded channels |
| CallbackPipeline.EveryMaximalRunDelivers | ssetests/testapi_sse_client.go:111-135 | every run ends, and then the test has read the images of all that sequential sorting releases, in order, and every handler error once |
| CallbackPipeline.EveryRunIsSequential | ssetests/testapi_sse_client.go:259-274 | for calls with any counters: the queue-derived items read are the images of the first messages that some sequence of the calls releases, and of all of them once nothing is left to do, with every handler error once |
| CallbackPipeline.EveryErrorOrderIsPossible | ssetests/testapi_sse_client.go:111-135 | the errors of concurrent handlers can be read in each order, in some run |
| CallbackPipeline.BlocksWithoutReaderIff | ssetests/testapi_sse_client.go:259-274 | if the test does not read, what holds up handlers and decoder is exactly a lack of work or a full output channel |
| ClientRuns.EveryRunIsASession | ssetests/testapi_sse_client.go:138-158 | a test that calls IgnoreErrorHere and AwaitMessage while the pipeline works on sees, in every interleaving, what a sequence of whole calls with arrivals in between sees |
| ClientRuns.EveryCallIsPossible | ssetests/testapi_sse_client.go:138-158 | conversely, in any state between calls, a call of AwaitMessage with any deadline can happen in one piece, with the result and effect of the specification function |
| ClientRuns.EveryRunReads | ssetests/testapi_sse_client.go:111-158 | for calls with any counters, at every moment: the messages returned are those of the items read, in order, less the errors that were to be ignored; the queue-derived items are in-order images of what a sequence of the calls releases |
| ClientRuns.TestGetsEverything | ssetests/testapi_sse_client.go:111-158 | with distinct counters and no rejected request, a test with nothing left to read has read the images of all that sequential sorting releases, in order, and has got their messages less the ignored errors, all of them if it never asked to ignore one |
| ClientRuns.TestGetsDecodedMessages | ssetests/testapi_sse_client.go:259-274 | with distinct counters, no rejected request, messages that all decode and no IgnoreErrorHere, the test has got exactly the decoded messages, index by index |
| CallbackAddressing.HandledIff | framework/harness/mock_endpoints.go:84-115 | the handler gets a request if and only if its path is the endpoint's own with a subpath and its body can be read |
| CallbackAddressing.RejectionsLaw | ssetests/testapi_sse_client.go:111-135 | each rejected request adds its error, in order, and no other request adds one |
| CallbackAddressing.AddressRoundTrip | ssetests/testapi_sse_client.go:125-131 | for every endpoint and counter, the path basePath/counter selects that endpoint and the handler recovers that counter |
| CallbackAddressing.AddressesDistinct | framework/harness/mock_endpoints.go:74-78 | callback paths coincide only for the same endpoint and the same counter |
| CallbackAddressing.BareURLIsRejected | ssetests/testapi_sse_client.go:125-134 | a post to the callback URL itself carries no counter and is rejected |
| CallbackAddressing.CallbacksAreReadInOrder | ssetests/testapi_sse_client.go:111-135 | from one list of posted requests: callbacks numbered 1 to n, each posted to its own path in any order, among any requests that are no callbacks, are read as n decoded items in the order of their numbers, and each request that the handler rejected as one error, in every run that has nothing left to do |
| TestScope.T.Errorf | framework/ldtest/test_scope.go:125-130 | adds one error to the scope, logs its reformatted text, and goes on, or panics when the text cannot be laid out |
| TestScope.T.RequireCapability | framework/ldtest/test_scope.go:180-185 | the scope is skipped, with the missing capability as the reason and by a panic of its own, if and only if the capability is missing |
| TestScope.T.Recover | framework/ldtest/test_scope.go:60-78 | a panic of the scope's own adds an error only if there is none yet; a stray panic always adds one |
| TestScope.T.Act | framework/ldtest/test_scope.go:89 | a body has the effects and the ending that the tree says, up to the command that leaves it |
| TestScope.T.RunBody | framework/ldtest/test_scope.go:59-90 | recovering a panic, recording the result, adding the failure and calling cleanups amount to what the tree says about the scope |
| TestScope.T.Run | framework/ldtest/test_scope.go:100-118 | a subtest adds what the tree says to results and trace, or only a start and a skip when the filter excludes it |
| TestScope.Run | framework/ldtest/test_scope.go:43-57 | a whole run returns the results and the trace of the tree |
| ScopeRules.EveryBodySplits | framework/ldtest/test_scope.go:59-90 | every body runs to its end or has a first command that leaves it, so the rules below cover all bodies |
| ScopeRules.CompletedRule | framework/ldtest/test_scope.go:79-86 | a body that runs to its end records the texts reported, in order, and fails if there are any |
| ScopeRules.FailNowRule | framework/ldtest/test_scope.go:67-70 | FailNow records the texts reported before it, and adds an error only if there are none |
| ScopeRules.PanicRule | framework/ldtest/test_scope.go:71-77 | a stray panic is recorded and logged after the texts reported before it |
| ScopeRules.LayoutPanicRule | framework/ldtest/test_scope.go:125-130 | a failure that cannot be laid out is recorded but not logged, and the index panic is recorded and logged after it |
| ScopeRules.SkipRules | framework/ldtest/test_scope.go:139-185 | Skip, SkipWithReason and a missing capability leave no result and no cleanup, whatever was reported, and give their reasons |
| ScopeRules.RequirementRule | framework/ldtest/test_scope.go:180-185 | a body that requires a missing capability does nothing and is skipped for it; with the capability it is the rest of the body |
| ScopeRules.FilteredRule | framework/ldtest/test_scope.go:104-107 | a subtest that the filter leaves out is started and skipped, and lists nothing |
| TraceShape.RunIsWellFormed | framework/ldtest/test_scope.go:59-118 | for every tree the trace is accepted by the bracket automaton: starts and ends nest, errors name the innermost open scope, a scope that finishes was recorded once with the same verdict, a skipped one was not, cleanups follow the record |
| TraceShape.StartsEqualEnds | framework/ldtest/test_scope.go:103-117 | as many scopes are started as are finished or skipped |
| TraceShape.ScopeRecords | framework/ldtest/test_scope.go:79-80 | the results are exactly those recorded in the trace, in order |
| TraceShape.CleanupsFollowTheRecord | framework/ldtest/test_scope.go:79-86 | after the record of a scope that is not skipped come its cleanups, each once, in reverse order, and nothing else; everything its subtests record or clean up comes before |
| TraceShape.CleanupsRunIff | framework/ldtest/test_scope.go:162-167 | a scope's registered cleanups are called, in reverse order, if and only if it is not skipped or has none |
| TraceShape.SkippedScopeKeepsItsCleanup | framework/ldtest/test_scope.go:62-64 | a scope that registers a cleanup and skips leaves it uncalled |
| ScopesInRuns.ScopeIsOnePiece | framework/ldtest/test_scope.go:100-118 | the trace of every scope that a run executes is one piece of the run's trace, for a subtest just between its start and its end |
| ScopesInRuns.EveryScopeCleansUp | framework/ldtest/test_scope.go:79-86 | in a run, the record of every executed scope that is not skipped is followed at once by all its cleanups in reverse order, and then by its end with the recorded verdict |
| ScopesInRuns.EverySkipIsBare | framework/ldtest/test_scope.go:62-64 | in a run, a subtest that skips leaves the events of its body and then its skip, with no record and no cleanup of its own |
| ErrorLog.ScopeLogs | framework/ldtest/test_scope.go:125-130 | what is logged for a scope: its recorded errors as they are laid out, less those whose layout panics, or if it is skipped the errors it had reported, none of which is recorded |
| ErrorLog.OKRunLogsAnErrorIff | framework/ldtest/test_scope.go:59-90 | a run that is OK has logged an error if and only if some scope that it executed reported a failure and was skipped after that |
| ErrorLog.FailureThenSkipIsOK | framework/ldtest/test_scope.go:62-64 | a run that fails an assertion and then skips is OK and lists no test, and has logged the failure |
| Outcomes.OKIff | framework/ldtest/result.go:18-20 | failures are the tests with errors, in order; a run is OK exactly when no listed scope has an error |
| Outcomes.ListedIff | framework/ldtest/test_scope.go:79-80 | a result is listed if and only if it is that of a scope that is run and not skipped, subtests of a skipped scope included |
| Outcomes.OwnResultComesLast | framework/ldtest/test_scope.go:59-90 | post-order: a scope's result follows those of everything below it; a skipped scope has none |
| Outcomes.ChildrenDoNotMatter | framework/ldtest/test_scope.go:107-117 | what subtests do never changes how their parent ends, its errors or its cleanups |
| Outcomes.FormattingPanicIsRecorded | framework/ldtest/test_scope.go:71-76 | a panic in the layout of a failure is recorded next to the failure and ends the test |
| Outcomes.MoreCapabilitiesMoreTests | framework/ldtest/test_scope.go:180-185 | the tests, and the failures, under fewer capabilities are a subsequence of those under more, with the same errors |
| Filters.Match | framework/ldtest/filter.go:24-38 | the scan computes component-wise matching, with or without parents |
| Filters.AnyMatch | framework/ldtest/filter.go:85-92 | true exactly when some pattern of the list matches |
| Filters.FilterMatch | framework/ldtest/filter.go:17-20 | true if and only if some pattern to run, if there are any, agrees with the id as far as both go, and no pattern to skip that is no longer than the id does |
| Filters.FilterAncestorClosed | framework/ldtest/filter.go:17-38 | whatever the expressions, a selected test has all its ancestors selected |
| Filters.SubtestsFollow | framework/ldtest/filter.go:24-38 | a pattern no longer than a test's id decides for the test and its subtests alike |
| Filters.RootSelectedIff | framework/ldtest/filter.go:17-38 | the root is selected if and only if no pattern to skip is empty |
| Filters.ReadingsAgreeIff | framework/ldtest/filter.go:24-46 | matching by components is matching of the full path for whatever regexp engine if and only if the pattern has one component and the test is not a subtest |
| Filters.ReadingsDiffer | framework/ldtest/filter.go:24-46 | pattern x leaves out a/x, whose full path it matches, and pattern a/b takes ax/b, whose full path it does not match |
| LiteralPatterns.LiteralFullPathIff | docs/running.md:21 | for expressions without special characters, any pattern and any id: the full path contains the pattern's text if and only if its parts line up with the path's parts somewhere |
| LiteralPatterns.LiteralReadingsAgreeIff | framework/ldtest/filter.go:24-46 | for such expressions, slash-free parts and names: the readings agree if and only if, where the components match, they line up somewhere, and where they do not, they do not line up further down |
| LiteralPatterns.SinglePartAgreesIff | framework/ldtest/filter.go:24-46 | for one such expression the readings agree if and only if the top name contains it or no name does |
| Filters.ParseTestIDPattern | framework/ldtest/filter.go:48-59 | one expression for each part between slashes, or an error as soon as one does not compile |
| Filters.PrintParsed | framework/ldtest/filter.go:40-59 | printing a parsed pattern returns the original text, for every text that parses |
| Filters.ParsePrintedIff | framework/ldtest/filter.go:40-59 | parsing a printed pattern returns it if and only if it is non-empty, its parts compile, and none contains a slash |
| Filters.PatternListFlag.Set | framework/ldtest/filter.go:72-79 | appends the parsed pattern or leaves the list alone, and never adds an empty pattern |
| Text.AtoiIff | ssetests/testapi_sse_client.go:126 | a text is read as an int if and only if it is an optional sign and digits, nothing else, whose value by places fits 64 bits |
| Text.TrimSpaceCuts | framework/ldtest/error_formatting.go:44 | trimming takes blanks and nothing else from both ends |
| TestResults.IDStringInjective | framework/ldtest/result.go:24-26 | ids with slash-free names print differently when they differ |
| TestResults.IDStringRecoverableIff | framework/ldtest/result.go:24-26 | an id can be read back from its text if and only if it is non-empty and its names have no slash |
| Pruning.PruningIsExactIff | framework/ldtest/test_scope.go:104-107 | a filtered run reports what the unfiltered run reports about selected ids, on every tree, if and only if the filter selects the root and is closed under ancestors |
| Pruning.RegexFiltersAreExactIff | framework/ldtest/filter.go:17-38 | filtering by patterns is exact on every tree if and only if no pattern to skip is empty |
| Pruning.CommandLineFiltersAreExact | framework/ldtest/filter.go:72-79 | filters parsed from text give exactly the tests and the failures of the unfiltered run restricted to selected ids, same errors, same order |
| Pruning.FilteredRunListsIff | framework/ldtest/filter.go:17-20 | a filtered run lists a test if and only if the unfiltered run lists it, a pattern to run agrees with its id, and no pattern to skip does |
| MockEndpoints.RouteIff | framework/harness/mock_endpoints.go:84-99 | a path leads to an endpoint id exactly when it is its base path followed by a subpath, which is what the handler sees |
| MockEndpoints.RouteToEndpoint | framework/harness/mock_endpoints.go:74-99 | routing undoes the path of every endpoint, for the bare path and for anything below it |
| MockEndpoints.MockEndpointsManager.NewMockEndpoint | framework/harness/mock_endpoints.go:59-82 | registers a new endpoint under an id that no endpoint ever had |
| MockEndpoints.MockEndpointsManager.ServeHTTP | framework/harness/mock_endpoints.go:84-154 | 404 exactly when no open endpoint is addressed; otherwise that endpoint alone gets the connection and its handler the subpath; the registry stays as it was |
| MockEndpoints.MockEndpointsManager.IdsDistinct | framework/harness/mock_endpoints.go:74-78 | ids are pairwise distinct, closed endpoints included |
| MockEndpoints.MockEndpointsManager.ReachesHandlerIffOpen | framework/harness/mock_endpoints.go:101-108 | in every registry state a request below an endpoint's path finds that endpoint if and only if it has not been closed |
| MockEndpoints.MockEndpointsManager.ReachedFromItsURLOnly | framework/harness/mock_endpoints.go:84-108 | whatever is reached was created, is open, and is reached by its own path |
| MockEndpoints.MockEndpoint.Close | framework/harness/mock_endpoints.go:181-191 | removes the endpoint and nothing else; closing again changes nothing |
| MockEndpoints.MockEndpoint.AwaitConnection | framework/harness/mock_endpoints.go:162-171 | takes the oldest queued connection, times out, or returns a zero value from a closed, drained channel; unless the channel is closed and drained, its effect is the operation that the run theorems use |
| MockEndpoints.LostOnlyWhenFull | framework/harness/mock_endpoints.go:142-151 | returned connections followed by queued ones are, in order, the arrivals that found room; the active connection is the last arrival |
| MockEndpoints.NothingLostIff | framework/harness/mock_endpoints.go:71 | no arrival is lost if and only if each finds fewer than 100 connections queued |
| StreamServer.StreamConnection.SendInChunks | ssetests/testapi_stream_server.go:84-97 | followed for any number of rounds, the loop has sent just the chunks of the data as far as it got, empty chunks without end for size zero, or has panicked in its first round for a negative size; once it is done, the bytes sent are the data |
| StreamServer.ChunksPartition | ssetests/testapi_stream_server.go:84-97 | the chunks concatenate to the data |
| StreamServer.ChunkSizes | ssetests/testapi_stream_server.go:86-95 | chunks are non-empty, all but the last are full and carry the delay, the last carries none |
| StreamServer.ChunkCount | ssetests/testapi_stream_server.go:86 | the number of chunks is the length over the size, rounded up |
| StreamServer.LoopEndsIff | ssetests/testapi_stream_server.go:86 | the loop that SendInChunks follows is done after some number of rounds if and only if the size is positive or there is no data |
| StreamServer.ChunkingIsInvisible | ssetests/testapi_stream_server.go:80-103 | any mix of whole and chunked sends puts the same bytes before the break |
| StreamServer.HandleStream | ssetests/testapi_stream_server.go:132-153 | the loop writes exactly what precedes the first nil chunk, or all there is, or what came before a cancellation; empty chunks never stop it |
| StreamServer.WrittenIsAPrefix | ssetests/testapi_stream_server.go:132-153 | in every interleaving at every moment the bytes written are those of a prefix of the chunks sent, and on a break exactly those before the first nil chunk |
| StreamServer.CancelledAfterIff | ssetests/testapi_stream_server.go:132-153 | some run is cancelled with exactly the first n chunks received and written if and only if n does not go past the first nil chunk |
| StreamServer.RunIsBounded | ssetests/testapi_stream_server.go:132-153 | every run of sender and handler ends |
| StreamServer.EveryMaximalRunWritesThePayload | ssetests/testapi_stream_server.go:80-153 | a run with nothing left to do has written the payload; the sender is stuck exactly when more chunks follow the break than the channel holds |
| ErrorFormatting.ParseTestifyFailureMessage | framework/ldtest/error_formatting.go:36-63 | the line-driven state machine splits the trimmed lines at the two marks: what stands beside each mark, then the lines below it |
| ErrorFormatting.NonBlankLaws | framework/ldtest/error_formatting.go:43-47 | the lines looked at are those of the text, trimmed, without the blank ones, in order |
| ErrorFormatting.FeedFollowsMarks | framework/ldtest/error_formatting.go:42-61 | one line more, by the lengths of the two lists alone, keeps the machine at the reference split |
| ErrorFormatting.ParsedIff | framework/ldtest/error_formatting.go:62 | parsing succeeds exactly when a trace mark is followed on a later line by an error mark |
| ErrorFormatting.ReformatError | framework/ldtest/error_formatting.go:11-34 | line by line, the text logged is the message ("Error: " in front of an unexpected error's own text), "Error trace:", and the trace above the test runner, indented; a bare unexpected error panics; without the two marks the text stays |
| ErrorFormatting.ReformattedReads | framework/ldtest/error_formatting.go:15-33 | for every text with both marks, the panic or the lines that are logged |
| ErrorFormatting.ReformatExample | framework/ldtest/error_formatting.go:11-34 | a failure with its trace and message on two lines is logged with the message first |
| ErrorFormatting.IndentedUpToRunner | framework/ldtest/error_formatting.go:25-32 | the trace that is kept ends before its first line in the test runner |
| ErrorFormatting.ReformatPanicsIff | framework/ldtest/error_formatting.go:19-21 | the layout panics if and only if the first error mark after the trace mark is on the last line and introduces an unexpected error with no text |
| ErrorFormatting.ReformatCanPanic | framework/ldtest/error_formatting.go:19-21 | a text of two lines on which it does |

## Left out

- HTTP, sockets, JSON encoding, contexts and timers: paths, bodies, decoding results and deadlines are parameters or steps.
- `MessageSortingQueue.Close`, and `MockEndpoint.Close` while a request is being served: the channels stay open during a run.
- Panics and further `Defer` calls inside cleanups, and bodies that call methods of an enclosing scope: a body acts on its own scope.
- Debug output of a scope, the console loggers and the printing of results and filters: formatting only.
- The text of a stack trace in the error for a stray panic: the error keeps the panic value alone.
- The branch of `AwaitMessage` for a closed output channel and the one of the stream handler for a closed data channel: nothing closes either.
- `RequireEvent`, `RequireSpecificEvents` and the other assertions on received messages, and the client configurers: they read one message or overwrite one structure.
- `framework/harness/harness.go`, `framework/harness/test_service.go`, the command line and the downloader: start-up and I/O.
- The suites in `ssetests/tests_*.go`: they are inputs and expectations for another program's SSE parser.
- MockEndpoints.MockEndpoint.AwaitConnection: a wait that neither a deadline nor an arrival ends is excluded; the wait is the step that ends it.
