# Copilot Chat Secretary — a verified model of its core

Copilot Chat Secretary is a VS Code extension. It watches a Copilot chat
while the chat works through entries of a document, and tells its clients
when a dialog has finished, been canceled or failed. This project models its
core in Dafny:

- **The transcript analyzer** (`CopilotChatAnalyzer`): a stateless
  classifier of the exported chat JSON. It covers:
  - the five-way dialog status, decided by the last request only;
  - the status-detail record;
  - the session id and session info;
  - response text with duplicate round texts removed;
  - tool-call counting;
  - MCP tool-call extraction, filtering, names and per-tool counts;
  - user-request extraction;
  - the conversation history.

  Modules `JsonValue`, `AnalyzerStatus`, `AnalyzerContent` and
  `AnalyzerMcp`. The untyped JSON is a `Json` datatype. Every analyzer
  operation that can throw on a `null` inside the transcript returns
  `Eval<T>` (`Returns` or `Throws`).
- **The dialog-session ledger** (`DialogSessionsServiceImpl`), module
  `Ledger`. It is a table keyed by session id, kept in `Map` insertion
  order. It supports:
  - an upsert with first-write-wins fields;
  - a listing sorted by `lastSeen`, most recent first;
  - pruning to the 100 most recent records on every save, with a delete
    attempt on each dropped record's archive file;
  - clearing.

  The class `DialogSessions` holds the table, the current session id, the
  persisted list and a ghost log of delete attempts.
- **The polling completion engine** (`ChatMonitor`) and its timing helpers,
  modules `Monitor` and `ChatUtils`. Class `ChatMonitor` has one method per
  handler. Each method is specified by a pure step function on a `Machine`
  value holding the whole state. The entry back-end's answer, the
  transcripts, the send outcome and the clock `now` (integer milliseconds)
  are inputs. Completion and error callbacks are recorded as a list of
  `Signal`s. Prompts sent to the chat are recorded in `sent`.
- **The chat-monitor tree view**, module `MonitorView`. Class
  `ChatMonitorTreeProvider` models the transition after each export and
  read:
  - change detection;
  - the status overwrite;
  - notifications, each recorded with the set of subscribers it reaches.

  It also has subscribe/unsubscribe, `getCurrentStatus`, start and dispose.
- **The opened-dialog view**, module `OpenedDialog`. It covers:
  - the per-turn response status;
  - message truncation, which collapses whitespace with the JavaScript `\s`
    set;
  - the provider that stores the conversation and the dialog status.
- **The two language-model tools**, `get_request` and `get_first_request`
  (module `McpTools`). Each is a chain of guards that ends in a success
  payload or an error text.
- **The external commands API** (module `CommandsApi`): the public session
  view, the current dialog, one session by id, and the history with its
  status filter and limit.
- **Localisation** (module `I18n`): `t(key, ...args)` with JavaScript
  `String.prototype.replace` semantics. Method `I18n.T` is the loop over the
  arguments. It is proved against the function `ApplyArgs`.

Shared helpers: module `Optional` (`Option`), module `Text` (decimal
rendering, substring search, join).

## Model

| member | source | states |
|---|---|---|
| AnalyzerStatus.GetRequestsCount | copilot-chat-analyzer/src/index.ts:101-106 | The count is positive exactly when `requests` is a non-empty array, and is then its length; anything else, `null` included, gives 0 |
| AnalyzerStatus.LastRequestStatus | copilot-chat-analyzer/src/index.ts:168-201 | Precedence on the last request, each outcome as an if-and-only-if: falsy → pending; `isCanceled === true` → canceled; truthy errorDetails → canceled when its code is "canceled", else failed; an empty `followups` array → completed; otherwise in progress; the `in` test on a truthy primitive throws |
| AnalyzerStatus.GetDialogStatus | copilot-chat-analyzer/src/index.ts:152-202 | A `null` transcript throws; no requests gives pending; otherwise the status is that of the last request |
| AnalyzerStatus.NoRequestsIsPending | copilot-chat-analyzer/src/index.ts:101-106 | A count of zero means pending (for a non-null transcript); a null transcript counts 0 requests yet its status throws |
| AnalyzerStatus.OnlyLastRequestMatters | copilot-chat-analyzer/src/index.ts:163-202 | Replacing every request before the last leaves the status unchanged |
| AnalyzerStatus.GetDialogStatusDetails | copilot-chat-analyzer/src/index.ts:204-241 | The details exist exactly when the status does; they carry that status and the text from the fixed table; with no requests every flag is false and there is no id; otherwise the flags are read off the last request: hasResult exactly when it has a non-null `result`, errorCode and errorMessage are those of `result.errorDetails`, and either one implies isFailed |
| AnalyzerStatus.DetailsAgreeWithStatus | copilot-chat-analyzer/src/index.ts:204-241 | The flags agree with the status: isCanceled forces canceled; failed carries isFailed; a cancellation by error code also carries isFailed; completed has followups and no flags |
| AnalyzerStatus.HasFollowupsIsPresenceOnly | copilot-chat-analyzer/src/index.ts:234 | A non-empty followups list is in progress yet reports hasFollowups |
| AnalyzerStatus.FirstSessionIndex | copilot-chat-analyzer/src/index.ts:118-123 | The first request whose `result.metadata.sessionId` is a non-empty string; none before it has one |
| AnalyzerStatus.GetSessionId | copilot-chat-analyzer/src/index.ts:113-126 | The id of the first request carrying one, or none; a returned id is never empty |
| AnalyzerStatus.GetSessionInfo | copilot-chat-analyzer/src/index.ts:131-150 | Throws exactly when the id throws; is null exactly when the id is; otherwise carries that id |
| AnalyzerStatus.SessionInfoFromSameRequest | copilot-chat-analyzer/src/index.ts:131-150 | With an id, agentId and modelId come from the first request whose metadata names that id, which is the request the id came from |
| AnalyzerContent.ItemParts | copilot-chat-analyzer/src/index.ts:452-460 | Throws exactly on a `null` item; keeps string items and string `.value`s in order |
| AnalyzerContent.ItemPartsAppend | copilot-chat-analyzer/src/index.ts:452-460 | The collection distributes over concatenation |
| AnalyzerContent.AddRoundTexts | copilot-chat-analyzer/src/index.ts:463-473 | Throws exactly on a `null` round; only appends to the parts collected so far |
| AnalyzerContent.RoundTextsAddNoDuplicates | copilot-chat-analyzer/src/index.ts:466-470 | Every appended round text differs from every part before it |
| AnalyzerContent.RoundTextsCovered | copilot-chat-analyzer/src/index.ts:466-470 | Every non-empty round text ends up among the parts |
| AnalyzerContent.RoundTextsFromRounds | copilot-chat-analyzer/src/index.ts:466-470 | Every appended part is the text of some round |
| AnalyzerContent.ResponseParts | copilot-chat-analyzer/src/index.ts:448-473 | Throws exactly on a null request, item or round; the `response[]` parts come first |
| AnalyzerContent.ResponsePartsDeduplicated | copilot-chat-analyzer/src/index.ts:448-476 | The round parts are distinct from all earlier parts, and every round text is present |
| AnalyzerContent.ExtractResponseText | copilot-chat-analyzer/src/index.ts:475 | The parts joined by a blank line |
| AnalyzerContent.RoundTextDeduplicated | copilot-chat-analyzer/src/index.ts:466-470 | A round text equal to the response text shows once; a different one is appended after a blank line |
| AnalyzerContent.SumToolCalls | copilot-chat-analyzer/src/index.ts:485-487 | Throws exactly on a null round |
| AnalyzerContent.SumToolCallsAppend | copilot-chat-analyzer/src/index.ts:485-487 | The count is additive over the rounds |
| AnalyzerContent.CountIsListedCalls | copilot-chat-analyzer/src/index.ts:481-488 | When every round lists its calls in an array, the count is the number of listed calls |
| AnalyzerContent.CountToolCalls | copilot-chat-analyzer/src/index.ts:481-488 | Throws exactly on a null request or round |
| AnalyzerContent.CountThrowsOnlyWithText | copilot-chat-analyzer/src/index.ts:503-504 | Counting fails only where collecting the text fails too |
| AnalyzerContent.ResponseOf | copilot-chat-analyzer/src/index.ts:502-514 | The entry for position i has index i, the request's responseId and timestamp, the joined text, the tool-call count, hasToolCalls exactly when the count is positive, and the id fallback `req-i` |
| AnalyzerContent.RoundToolCalls | copilot-chat-analyzer/src/index.ts:486 | `toolCalls?.length \|\| 0`: a missing or null list counts 0, an array counts its elements, and a negative count only comes from an object's own `length` |
| AnalyzerContent.GetAIResponses | copilot-chat-analyzer/src/index.ts:495-518 | One entry per request, entry k at index k; fails exactly when some request's text fails |
| AnalyzerContent.MessageText | copilot-chat-analyzer/src/index.ts:419-426 | A kept message text is never empty |
| AnalyzerContent.UserRequestsFrom | copilot-chat-analyzer/src/index.ts:418-439 | Throws exactly on a null request; never more entries than requests |
| AnalyzerContent.UserRequestsSound | copilot-chat-analyzer/src/index.ts:418-439 | Every entry sits at its request's own position, with that request's text, id fallbacks and timestamp |
| AnalyzerContent.UserRequestsOrdered | copilot-chat-analyzer/src/index.ts:418 | Entries keep transcript order |
| AnalyzerContent.UserRequestsComplete | copilot-chat-analyzer/src/index.ts:428-438 | Every request with a text has an entry |
| AnalyzerContent.GetUserRequests | copilot-chat-analyzer/src/index.ts:411-442 | A falsy transcript or a non-array `requests` gives no entries; otherwise the extraction over all requests |
| AnalyzerContent.FindIndex | copilot-chat-analyzer/src/index.ts:530 | `find` by index: the first matching response, none before it matches |
| AnalyzerContent.GetConversationHistory | copilot-chat-analyzer/src/index.ts:525-537 | As written: one turn per kept request; turn k has index k and is paired with the response whose index is k |
| AnalyzerContent.HistoryPairsByTurnPosition | copilot-chat-analyzer/src/index.ts:529-535 | As written, turn k always gets the response built from request k of the whole transcript, and the `\|\| null` fallback never fires |
| AnalyzerContent.HistoryMispairsAfterSkippedRequest | copilot-chat-analyzer/src/index.ts:525-537 | A request without text before "hi" makes the only turn show the first request's answer |
| AnalyzerContent.PairedHistory | copilot-chat-analyzer/src/index.ts:525-537 | Corrected pairing: the same turns and failures, each turn paired by its request's own position |
| AnalyzerContent.PairedHistoryMatchesRequest | copilot-chat-analyzer/src/index.ts:525-537 | Every turn carries the response built from the very request it shows |
| AnalyzerContent.PairingsAgreeWithoutGaps | copilot-chat-analyzer/src/index.ts:525-537 | When every request has a text, both pairings coincide |
| AnalyzerContent.UserIndicesAreDense | copilot-chat-analyzer/src/index.ts:418-439 | With no request skipped, the kept requests are numbered consecutively |
| AnalyzerMcp.CallOf | copilot-chat-analyzer/src/index.ts:260-272 | The record has truthy id and name, isError false unless the details say otherwise, the request's id and timestamp, and an MCP source |
| AnalyzerMcp.ItemCalls | copilot-chat-analyzer/src/index.ts:255-276 | Throws exactly on a null element; one call per MCP element |
| AnalyzerMcp.ItemCallsSound | copilot-chat-analyzer/src/index.ts:255-276 | Every extracted call is built from an MCP element of the request |
| AnalyzerMcp.RequestCalls | copilot-chat-analyzer/src/index.ts:250-277 | Throws exactly on a null request or a null element of a request's array `response` |
| AnalyzerMcp.RequestCallsAppend | copilot-chat-analyzer/src/index.ts:250-277 | Calls come request by request, in order |
| AnalyzerMcp.ExtractMcpToolCalls | copilot-chat-analyzer/src/index.ts:243-280 | A null transcript throws; no requests gives none; otherwise the calls of all requests |
| AnalyzerMcp.Includes | copilot-chat-analyzer/src/index.ts:292 | `includes` is substring search on strings and element search on arrays; anything else throws |
| AnalyzerMcp.Matches | copilot-chat-analyzer/src/index.ts:386 | Name first, then id, short-circuiting |
| AnalyzerMcp.FilterCalls | copilot-chat-analyzer/src/index.ts:384-387 | Fails exactly when some test throws; otherwise the matching calls, each once, in their original order |
| AnalyzerMcp.KeptAppend | copilot-chat-analyzer/src/index.ts:386 | Filtering a concatenation filters each part and concatenates the results |
| AnalyzerMcp.FilterCallsPreservesOrder | copilot-chat-analyzer/src/index.ts:384-387 | The filter over two runs of calls succeeds on each and keeps the calls of the first before those of the second |
| AnalyzerMcp.GetMcpToolCalls | copilot-chat-analyzer/src/index.ts:382-388 | The filter applied to the extracted calls |
| AnalyzerMcp.FilterOnStrings | copilot-chat-analyzer/src/index.ts:386 | With string names, matching is substring matching on name or id |
| AnalyzerMcp.AddKeysDistinct | copilot-chat-analyzer/src/index.ts:399-401 | Adding keys keeps them distinct; every call's key is in; only keys of calls are added |
| AnalyzerMcp.GetMcpToolNames | copilot-chat-analyzer/src/index.ts:395-404 | Each key `toolName \|\| toolId` once; exactly the keys of the calls |
| AnalyzerMcp.SuccessPlusErrors | copilot-chat-analyzer/src/index.ts:295-296 | Successful plus error calls is the total |
| AnalyzerMcp.MonitoringOf | copilot-chat-analyzer/src/index.ts:300-307 | successfulCalls + errorCalls == totalCalls == the number of calls listed |
| AnalyzerMcp.GroupAll | copilot-chat-analyzer/src/index.ts:310-318 | The groups' keys are the keys in order of first use; every call lands in one group |
| AnalyzerMcp.InsertCallContents | copilot-chat-analyzer/src/index.ts:311-317 | One call joins the group whose key equals its own under `Map` key equality, or opens a new group at the end; no other group changes |
| AnalyzerMcp.GroupAllContents | copilot-chat-analyzer/src/index.ts:310-318 | Each group keyed by a string, number, boolean or null holds exactly the calls with that key, in input order; a group keyed by an object or array holds the one call that opened it |
| AnalyzerMcp.MonitorGroups | copilot-chat-analyzer/src/index.ts:320-336 | One record per group, in order; their totals add up to the grouped calls |
| AnalyzerMcp.GetMcpToolMonitoring | copilot-chat-analyzer/src/index.ts:282-352 | A truthy name selects the filtered calls with their counts; otherwise the summary per key |
| AnalyzerMcp.SummaryAccountsForEveryCall | copilot-chat-analyzer/src/index.ts:309-350 | In the summary every call is counted in exactly one tool: the tools' totals add up to the overall total |
| AnalyzerMcp.SummaryToolsHoldCallsOfTheirKey | copilot-chat-analyzer/src/index.ts:309-350 | In the summary each tool with a primitive name lists exactly the extracted calls of that name, in order; an object-named tool lists one extracted call |
| Ledger.Find | src/services/dialogSessionsService.ts:131-133 | The position of the record with that id, or absence |
| Ledger.Lookup | src/services/dialogSessionsService.ts:131-133 | Exact-key lookup: none exactly when the id is absent |
| Ledger.PutLookup | src/services/dialogSessionsService.ts:100-115 | `Map.set`: the key now maps to the record; other keys are untouched |
| Ledger.Put | src/services/dialogSessionsService.ts:100-115 | `Map.set` on the ordered table: ids stay distinct; a new id is appended, a known one keeps the length |
| Ledger.LoadAll | src/services/dialogSessionsService.ts:27-39 | The loaded table has distinct ids |
| Ledger.LoadKeepsLastDuplicate | src/services/dialogSessionsService.ts:33-35 | A later duplicate in storage overwrites an earlier one |
| Ledger.LoadDistinctIsIdentity | src/services/dialogSessionsService.ts:27-39 | Loading a list with distinct ids gives that list |
| Ledger.Merge | src/services/dialogSessionsService.ts:100-111 | firstSeen kept; preview kept unless empty; lastSeen, count and status overwritten; a non-empty new path wins; agent and model kept |
| Ledger.Upsert | src/services/dialogSessionsService.ts:95-115 | An unknown id is appended unchanged; a known one keeps its place |
| Ledger.UpsertLookup | src/services/dialogSessionsService.ts:95-115 | After the upsert the id maps to the record or to the merge; other ids are unchanged |
| Ledger.RecordTwiceKeepsFirstSeen | src/services/dialogSessionsService.ts:100-111 | Recording twice keeps the first firstSeen and reports the second activity |
| Ledger.SortDesc | src/services/dialogSessionsService.ts:89-93 | A permutation sorted by lastSeen, most recent first |
| Ledger.SortDescDistinct | src/services/dialogSessionsService.ts:89-93 | Sorting keeps ids distinct |
| Ledger.Kept | src/services/dialogSessionsService.ts:46-51 | At most 100 records, sorted |
| Ledger.Dropped | src/services/dialogSessionsService.ts:52 | Kept and dropped together are the sorted table |
| Ledger.PruneSplitsTable | src/services/dialogSessionsService.ts:46-52 | Nothing is lost or invented by pruning |
| Ledger.PruneDropsOldest | src/services/dialogSessionsService.ts:46-52 | Every kept record is at least as recent as every dropped one |
| Ledger.RecordedSessionSurvivesWithinBound | src/services/dialogSessionsService.ts:95-122 | A recorded session survives the save when the table fits |
| Ledger.ArchivePaths | src/services/dialogSessionsService.ts:55-67 | Only non-empty paths of dropped records are deleted |
| Ledger.EveryDroppedPathDeleted | src/services/dialogSessionsService.ts:55-67 | Every dropped record with a path gets a delete attempt |
| Ledger.DialogSessions.constructor | src/services/dialogSessionsService.ts:27-39 | The table is the loaded storage; no current session |
| Ledger.DialogSessions.GetCurrentSessionId | src/services/dialogSessionsService.ts:81-83 | The current id |
| Ledger.DialogSessions.SetCurrentSessionId | src/services/dialogSessionsService.ts:85-87 | Sets the current id and nothing else |
| Ledger.DialogSessions.GetSessionHistory | src/services/dialogSessionsService.ts:89-93 | A sorted permutation of the table |
| Ledger.DialogSessions.GetSession | src/services/dialogSessionsService.ts:131-133 | A stored record with that id, or none exactly when absent |
| Ledger.DialogSessions.SaveToStorage | src/services/dialogSessionsService.ts:44-79 | The table becomes the kept records, which are persisted; the dropped paths are deleted; the current id stays |
| Ledger.DialogSessions.DeleteArchives | src/services/dialogSessionsService.ts:55-67 | One delete attempt per dropped non-empty path, in order; nothing else changes |
| Ledger.DialogSessions.Refill | src/services/dialogSessionsService.ts:70-73 | The table is rebuilt to hold exactly the kept records; nothing else changes |
| Ledger.DialogSessions.RecordSession | src/services/dialogSessionsService.ts:95-122 | Upsert, then the recorded id becomes current, then the save |
| Ledger.DialogSessions.ClearHistory | src/services/dialogSessionsService.ts:124-129 | Empty table, nothing current, empty list persisted, no file deleted |
| ChatUtils.GetRecommendedMcpConfig | src/services/chatUtils.ts:9-16 | 4, 45, 600 and true; the doubled pause is still below the maximum wait |
| ChatUtils.ShouldTriggerTimeout | src/services/chatUtils.ts:69-80 | The timeout fires exactly when at least the threshold (doubled during summarisation) has passed, in milliseconds |
| ChatUtils.IsMaxWaitTimeExceeded | src/services/chatUtils.ts:85-91 | Exceeded exactly when at least the maximum wait has passed since processing started, in milliseconds |
| ChatUtils.SummarizationOnlyDelays | src/services/chatUtils.ts:75-79 | Summarisation only delays: firing with it implies firing without it |
| ChatUtils.GetRemainingProcessingTime | src/services/chatUtils.ts:96-102 | Never negative; zero exactly when the maximum is exceeded; otherwise elapsed plus remaining is the maximum |
| ChatUtils.WrittenMinutesAndSeconds | src/services/chatUtils.ts:110-115 | As written, minutes and seconds add up to the rounded duration, but the seconds can reach 60 |
| ChatUtils.FormatTimeShowsSixtySeconds | src/services/chatUtils.ts:107-121 | 119.5 seconds prints "1м 60с" |
| ChatUtils.FormatTime | src/services/chatUtils.ts:107-121 | As written: on whole seconds, the breakdown into hours, minutes and seconds; the unit ends the text; below a minute it is seconds, and a seconds-only text means under an hour |
| ChatUtils.WrittenOnWholeSeconds | src/services/chatUtils.ts:110-115 | On whole seconds the as-written breakdown is the exact one: no 60 appears |
| ChatUtils.WholeBreakdown | src/services/chatUtils.ts:107-121 | Whole seconds split so that every field is in range and the parts add up |
| ChatUtils.CorrectedBreakdown | src/services/chatUtils.ts:107-121 | Corrected: seconds below 60; minutes and seconds add up to the rounded duration; minutes of an hour below 60 |
| ChatUtils.CorrectedAgreesBelowCarry | src/services/chatUtils.ts:110-115 | The correction changes nothing where no carry occurs |
| ChatUtils.CorrectedShowsTwoMinutes | src/services/chatUtils.ts:107-121 | 119.5 seconds prints "2м" |
| ChatUtils.CreateStatusMessage | src/services/chatUtils.ts:126-146 | "Остановлен" exactly when not monitoring; otherwise "Активен (" with the as-written formatTime of the elapsed seconds, followed by " - запись <row>" exactly when both the entry id and a non-zero row are given |
| ChatUtils.ActiveMessage | src/services/chatUtils.ts:135-139 | Starts with "Активен (" and ends with ")" |
| ChatUtils.StatusShowsSixtySeconds | src/services/chatUtils.ts:126-146 | Running for 119.5 seconds without an entry shows "Активен (1м 60с с последнего изменения)" |
| Monitor.CheckEntryProcessingStatus | src/services/chatMonitor.ts:64-83 | A missing entry or a failed request reads as unprocessed; otherwise the entry's flag |
| Monitor.AnalyzeChatStatus | src/services/chatExportService.ts:67-94 | A status exactly when the transcript is truthy and the analyzer does not throw; it is the analyzer's |
| Monitor.DetectSaveOperation | src/services/chatMonitor.ts:554-585 | True exactly when the analysis succeeds and some extracted call matching the save tool has a falsy isError |
| Monitor.MaxWait | src/services/chatMonitor.ts:401-415 | `maxWaitTime \|\| 600` |
| Monitor.ChatMonitor.constructor | src/services/chatMonitor.ts:41-50 | Stopped, no entry, counters at zero, times at now |
| Monitor.ChatMonitor.Start | src/services/chatMonitor.ts:136-157 | The start step |
| Monitor.ChatMonitor.Stop | src/services/chatMonitor.ts:159-173 | The stop step |
| Monitor.ChatMonitor.UpdateConfig | src/services/chatMonitor.ts:175-188 | The config step: restart when running |
| Monitor.ChatMonitor.StartProcessingEntry | src/services/chatMonitor.ts:85-118 | The step starting an entry |
| Monitor.ChatMonitor.Tick | src/services/chatMonitor.ts:190-246 | One `checkChatChanges` tick, keeping the machine valid |
| Monitor.ChatMonitor.HandleChatAnalysis | src/services/chatMonitor.ts:248-335 | The branch on the analysed status |
| Monitor.ChatMonitor.SendContinueMessage | src/services/chatMonitor.ts:590-611 | A successful send records the prompt and refreshes both times |
| Monitor.ChatMonitor.CheckChatChangesMarkdown | src/services/chatMonitor.ts:342-393 | The unreachable markdown step |
| Monitor.ChatMonitor.HandleChatTimeout | src/services/chatMonitor.ts:395-449 | The timeout step |
| Monitor.ChatMonitor.HandleMaxWaitTimeExceeded | src/services/chatMonitor.ts:451-470 | Stops and reports the row |
| Monitor.ChatMonitor.HandleContinueWaiting | src/services/chatMonitor.ts:472-499 | Refreshes the last change and clears summarisation |
| Monitor.ChatMonitor.IsActive | src/services/chatMonitor.ts:501-503 | Whether monitoring |
| Monitor.ChatMonitor.GetStatus | src/services/chatMonitor.ts:505-514 | The status line of the current state |
| Monitor.ChatMonitor.GetCurrentEntry | src/services/chatMonitor.ts:543-545 | The entry being processed, if any |
| Monitor.ChatMonitor.Dispose | src/services/chatMonitor.ts:613-615 | Stops |
| Monitor.StatusLine | src/services/chatMonitor.ts:505-514 | Stopped gives "Остановлен \| Статус чата: unknown"; running gives the active message, the row of the current entry exactly when it has an id and a non-zero row, then " \| Статус чата: unknown" |
| Monitor.StopIdempotent | src/services/chatMonitor.ts:159-173 | Stopping twice is stopping once; afterwards nothing runs |
| Monitor.StartIdempotent | src/services/chatMonitor.ts:136-157 | Starting a running engine changes nothing, even later |
| Monitor.UpdateConfigKeepsMonitoring | src/services/chatMonitor.ts:175-188 | The config is replaced, monitoring is as before, no signal; a running engine restarts its clock and counter |
| Monitor.CounterAfterTicks | src/services/chatMonitor.ts:196-203 | After k counted ticks the counter is k mod 3; the back-end is asked on every third tick |
| Monitor.TickKeepsValid | src/services/chatMonitor.ts:190-246 | A tick keeps timer and flag in step and the counter below 3 |
| Monitor.TickSignalsOnlyWhenStopping | src/services/chatMonitor.ts:190-335 | At most one signal per tick, and only when it stops the engine; a prompt only while running |
| Monitor.TickAdvancesCounter | src/services/chatMonitor.ts:196-222 | With an entry and checks on, the counter advances; a processed answer on the third tick stops with completion before any analysis |
| Monitor.TickIgnoresBackendBetweenChecks | src/services/chatMonitor.ts:196-222 | Between checks, the back-end's answer does not matter |
| Monitor.CanceledTranscriptStops | src/services/chatMonitor.ts:264-277 | A canceled last request stops with the cancellation error |
| Monitor.SavedCompletionFinishes | src/services/chatMonitor.ts:279-305 | Completed with a successful save call stops with completion |
| Monitor.UnsavedCompletionNudges | src/services/chatMonitor.ts:306-318 | Completed without a save keeps running and sends the continue prompt |
| Monitor.OtherStatusRefreshes | src/services/chatMonitor.ts:319-331 | Any other status refreshes the last change; no analysis changes nothing but progress |
| Monitor.TimeoutOutcomes | src/services/chatMonitor.ts:395-499 | No timeout: nothing; waiting entry past the maximum: stop with error; waiting within it: keep waiting; otherwise stop with completion |
| Monitor.DefaultMaxWait | src/services/chatMonitor.ts:401-415 | Without a maximum, 600 seconds apply |
| Monitor.MarkdownOutcomes | src/services/chatMonitor.ts:342-393 | No content: nothing; new content: stored with summarisation detection; same content: the timeout step |
| Monitor.StartProcessingOutcomes | src/services/chatMonitor.ts:85-118 | Entry and start time set; processed: completion without starting; failed send: error without starting; otherwise running |
| MonitorView.CompletionAudience | src/providers/chatMonitorTreeProvider.ts:388-398 | Exactly the subscribers with a completion callback |
| MonitorView.ErrorAudience | src/providers/chatMonitorTreeProvider.ts:400-410 | Exactly the subscribers with an error callback |
| MonitorView.Analyze | src/providers/chatMonitorTreeProvider.ts:276-290 | Status name, count and details when the analyzer does not throw |
| MonitorView.ChatMonitorTreeProvider.constructor | src/providers/chatMonitorTreeProvider.ts:53-79 | Status unknown, no content, monitoring with a timer, no subscribers |
| MonitorView.ChatMonitorTreeProvider.CheckChatStatus | src/providers/chatMonitorTreeProvider.ts:207-335 | The check step |
| MonitorView.ChatMonitorTreeProvider.Subscribe | src/providers/chatMonitorTreeProvider.ts:338-340 | Adds to the set, nothing else |
| MonitorView.ChatMonitorTreeProvider.Unsubscribe | src/providers/chatMonitorTreeProvider.ts:342-344 | Removes from the set, nothing else |
| MonitorView.ChatMonitorTreeProvider.GetCurrentStatus | src/providers/chatMonitorTreeProvider.ts:346-359 | The record without the raw content |
| MonitorView.ChatMonitorTreeProvider.StartMonitoring | src/providers/chatMonitorTreeProvider.ts:71-79 | Active with a new timer; a held timer is leaked |
| MonitorView.ChatMonitorTreeProvider.IsMonitoring | src/providers/chatMonitorTreeProvider.ts:373-375 | The active flag |
| MonitorView.ChatMonitorTreeProvider.Dispose | src/providers/chatMonitorTreeProvider.ts:412-419 | Inactive, no timer, no subscribers |
| MonitorView.ActivityIsChange | src/providers/chatMonitorTreeProvider.ts:235-245 | hasActivity exactly when the content differs; the content becomes the new text; the update time is kept when nothing changed |
| MonitorView.StatusOverwrittenOnEveryParse | src/providers/chatMonitorTreeProvider.ts:276-290 | Status, count and last id are overwritten on every parse |
| MonitorView.NotifiesOnlyOnChange | src/providers/chatMonitorTreeProvider.ts:292-307 | Notices exactly when status or content changed; completion exactly on a change to "completed" |
| MonitorView.ParseFailureIsUnknown | src/providers/chatMonitorTreeProvider.ts:259-269 | A parse failure gives unknown with count 0 and no notice |
| MonitorView.AnalyzerFailureIsUnknown | src/providers/chatMonitorTreeProvider.ts:308-315 | An analyzer failure gives unknown with count 0 and an error notice |
| MonitorView.ExportFailureIsUnknown | src/providers/chatMonitorTreeProvider.ts:221-228 | A failed export gives unknown without activity, content kept |
| MonitorView.DisposeAfterDoubleStart | src/providers/chatMonitorTreeProvider.ts:412-419 | Starting twice then disposing leaves one interval running |
| OpenedDialog.GetResponseStatus | src/providers/openedDialogTreeProvider.ts:177-205 | No response: in progress only for the last turn of a dialog in progress, else pending; error only for the last turn of a canceled or failed dialog; otherwise success for a non-empty message, pending for an empty one |
| OpenedDialog.OnlyLastTurnIsLive | src/providers/openedDialogTreeProvider.ts:177-205 | Earlier turns ignore the dialog status and are success or pending |
| OpenedDialog.Collapse | src/providers/openedDialogTreeProvider.ts:249 | Never longer; text that starts with a non-space keeps its first character |
| OpenedDialog.Trim | src/providers/openedDialogTreeProvider.ts:249 | Trimmed and never longer; empty exactly when the text is all whitespace; trimmed text is unchanged |
| OpenedDialog.Clean | src/providers/openedDialogTreeProvider.ts:249 | Single spaces only, trimmed, and never longer |
| OpenedDialog.CollapseIsTidy | src/providers/openedDialogTreeProvider.ts:249 | Collapsing leaves single spaces only |
| OpenedDialog.CollapseOfTidy | src/providers/openedDialogTreeProvider.ts:249 | Collapsing tidy text changes nothing |
| OpenedDialog.TrimOfTidy | src/providers/openedDialogTreeProvider.ts:249 | Trimming tidy text keeps it tidy and trimmed |
| OpenedDialog.CleanIdempotent | src/providers/openedDialogTreeProvider.ts:249 | Cleaning is idempotent |
| OpenedDialog.TruncateMessage | src/providers/openedDialogTreeProvider.ts:247-253 | Clean text within the limit is returned as is; longer text is its first `maxLength-3` characters and "..."; the result is within the limit for a limit of at least 3 |
| OpenedDialog.TruncateIdempotent | src/providers/openedDialogTreeProvider.ts:247-253 | Truncating twice is truncating once |
| OpenedDialog.OpenedDialogTreeProvider.constructor | src/providers/openedDialogTreeProvider.ts:58-59 | Empty conversation, pending |
| OpenedDialog.OpenedDialogTreeProvider.UpdateFromChatData | src/providers/openedDialogTreeProvider.ts:78-82 | The conversation is replaced by `getConversationHistory` as written (turn k carries the response whose index is k) and the status by the analyzer's; a throwing history changes nothing; a throwing status keeps the new conversation |
| OpenedDialog.OpenedDialogTreeProvider.GetConversationCount | src/providers/openedDialogTreeProvider.ts:255-257 | The conversation length |
| OpenedDialog.OpenedDialogTreeProvider.ResponseStatusOf | src/providers/openedDialogTreeProvider.ts:177-205 | The status rule on a stored turn |
| McpTools.TargetSession | src/mcp/GetRequestTool.ts:92-101 | A non-empty explicit id wins; else the current id; else none |
| McpTools.ResolveSession | src/mcp/GetRequestTool.ts:92-107 | A record exactly when a target exists and is known, and it is the target's; no target gives "No active dialog found" (the same guard as src/mcp/GetFirstRequestTool.ts:66-84) |
| McpTools.GetRequest | src/mcp/GetRequestTool.ts:74-146 | A missing or non-positive index fails before any lookup; then a session failure is passed on; a success answers the requested index, within the total, for the target session |
| McpTools.GetRequestAnswersNthRequest | src/mcp/GetRequestTool.ts:104-140 | Success exactly for a known, readable session and an index within range; the answer is the index-th request with a text, the total, and the timestamp with its fallback |
| McpTools.IndexBeyondEndReported | src/mcp/GetRequestTool.ts:123-128 | An index past the end names itself and the total |
| McpTools.ExplicitSessionWins | src/mcp/GetRequestTool.ts:92-94 | With an explicit id the current session does not matter |
| McpTools.GetFirstRequest | src/mcp/GetFirstRequestTool.ts:61-100 | Success exactly for a known session with a non-empty preview; the answer is its preview, firstSeen and count; a resolved session without one fails as unavailable |
| McpTools.ToolsAgreeOnSession | src/mcp/GetRequestTool.ts:92-107 | Both tools fail the same way on the session (src/mcp/GetFirstRequestTool.ts:66-84 repeats this guard) |
| McpTools.RecordedSessionIsAnswered | src/mcp/GetFirstRequestTool.ts:80-97 | A freshly recorded session is answered by its id |
| CommandsApi.ToResponse | src/api/commandsApi.ts:18-31 | The eight public fields copied |
| CommandsApi.ResponseHidesArchivePath | src/api/commandsApi.ts:18-31 | The archive path never shows |
| CommandsApi.GetSession | src/api/commandsApi.ts:107-116 | A record exactly for a non-empty known id, the view of the stored one |
| CommandsApi.GetCurrentDialog | src/api/commandsApi.ts:65-75 | A record only for the current id |
| CommandsApi.CurrentDialogIsSessionLookup | src/api/commandsApi.ts:65-75 | The current dialog is the lookup of the current id |
| CommandsApi.RecordedSessionIsCurrent | src/api/commandsApi.ts:65-75 | A just-recorded session is the current dialog |
| CommandsApi.SliceEnd | src/api/commandsApi.ts:95 | `slice(0, limit)`: min(limit, n) for a non-negative limit; a negative one counts back |
| CommandsApi.FilterByStatus | src/api/commandsApi.ts:89-92 | Keeps exactly the records with that status; all without a filter |
| CommandsApi.FilterKeepsOrder | src/api/commandsApi.ts:89-92 | Filtering keeps the order |
| CommandsApi.GetDialogHistory | src/api/commandsApi.ts:83-99 | Never more answers than records, nor than a non-negative limit; 100 at most by default |
| CommandsApi.HistoryIsFilteredPrefix | src/api/commandsApi.ts:83-99 | A prefix of the filtered sorted history, of the sliced length; all with the requested status |
| CommandsApi.HistoryMostRecentFirst | src/api/commandsApi.ts:87-98 | Most recent first |
| CommandsApi.HistoryComesFromLedger | src/api/commandsApi.ts:87-98 | Every answer is the view of a stored record |
| CommandsApi.DefaultLimitReturnsEverything | src/api/commandsApi.ts:84 | Within the ledger's bound, the default limit returns the whole filtered history |
| CommandsApi.UnfilteredHistoryCountsAll | src/api/commandsApi.ts:83-99 | Without a filter and with a limit at least the table size, one answer per stored record |
| I18n.Table | src/i18n.ts:9-12 | The two keys and their texts |
| I18n.ExpandWithoutDollar | src/i18n.ts:19 | A replacement without `$` goes in as it is |
| I18n.ReplaceFirst | src/i18n.ts:19 | No occurrence leaves the text unchanged; otherwise the text before the first occurrence and after it are kept around the replacement |
| I18n.ReplaceFirstOccurrence | src/i18n.ts:19 | Only the first occurrence is replaced |
| I18n.T | src/i18n.ts:14-23 | The loop computes the arguments applied in order to the base text |
| I18n.Translate | src/i18n.ts:14-23 | Without arguments, or for a base text without a brace, the base text itself |
| I18n.NoBraceNoChange | src/i18n.ts:18-20 | A text without a brace is left unchanged by any argument |
| I18n.TableMessagesIgnoreArguments | src/i18n.ts:9-23 | Both table messages come back as they are |
| I18n.UnknownKeyEchoed | src/i18n.ts:15 | A key missing from the table comes back as itself |
| I18n.SinglePlaceholderFilled | src/i18n.ts:18-20 | A single `{0}` is replaced by a plain argument |
| I18n.OnlyFirstOccurrenceFilled | src/i18n.ts:19 | `{0}{0}` with "a" gives "a{0}" |
| I18n.DollarAmpersandReinsertsPlaceholder | src/i18n.ts:19 | `$&` in an argument re-inserts the placeholder |
| I18n.LaterArgumentRewritesEarlierOne | src/i18n.ts:18-20 | An inserted `{1}` is taken by the next argument before the template's own |

## Left out

- VS Code host calls are not modelled, with one exception: their outcomes are inputs. Left out are:
  - the chat export and open commands;
  - file reads, writes and deletes;
  - `globalState`;
  - message boxes;
  - tree items, icons and labels;
  - logging.

  The ledger records a delete attempt and the persisted list, not the effects themselves.
- Timers are booleans, not handles. `setInterval` callbacks and asynchronous interleaving are not modelled: each handler runs as one atomic step, and whatever it awaits is an input.
- Three external services are oracles: the entry back-end (GraphQL), prompt sending and the export service. Their answers are inputs (`EntryLookup`, `SendResult`, `ReadOutcome`, transcripts as `Option<Json>`).
- The monitor's outer `catch` in `checkChatChanges` (src/services/chatMonitor.ts:230-245) is not modelled: the modelled body cannot throw. The same holds for the logging-only confirmation after a detected save.
- Monitor.ChatMonitor.CheckChatChangesMarkdown and Monitor.ChatMonitor.HandleChatTimeout are modelled but unreachable in the source. Their only call sits after an unconditional `return` (src/services/chatMonitor.ts:225-229).
- JSON numbers are integers. The success-rate percentages of `getMcpToolMonitoring` are left out because they are floating point: only the counts are modelled.
- AnalyzerContent.RoundToolCalls counts `true` as 1 and other non-numeric lengths as 0. It does not model JavaScript's string concatenation for string lengths.
- formatTime takes real seconds, because `createStatusMessage` passes fractional seconds. JavaScript's floating-point rounding is exact real arithmetic here.
- McpTools.GetRequest takes a whole-number index. A fractional index, which makes the source read a missing request and fail with an engine error, is not modelled.
- McpTools.GetRequest reduces the engine's exception texts to fixed messages, and `GetFirstRequest` has no modelled exception. As a result, the "Service temporarily unavailable" fallback of both tools is never produced.
- The tools' `formatSuccess`/`formatError` JSON serialisation and the `Tool.invoke` wrapper are not modelled. Results are the `ToolResult` values before serialisation.
- The chat-monitor tree provider's `getCurrentSessionId` is called by both tools and by `getCurrentDialog`, but the provider does not define it. The current session id is therefore an input.
- The `getStatus` API command is not modelled: it calls provider methods that do not exist (src/api/commandsApi.ts:45-59).
- Notification order within one broadcast is not modelled: subscribers are a set. A callback that throws is caught and changes nothing.
- Exception messages in the tree view's error notices are reduced to their fixed prefixes.
- MonitorView.ChatMonitorTreeProvider.constructor does not model the first check that starts immediately on creation. That check is a separate `CheckChatStatus` call.
- OpenedDialog.TruncateMessage: lengths count Unicode characters, not the UTF-16 code units of JavaScript's `length` and `substring`. Text outside the Basic Multilingual Plane is cut at a different place, and a surrogate pair is never split. The same holds for `length` on JSON strings.
- AnalyzerStatus.GetDialogStatusDetails: for a null or otherwise falsy last request the source's hasResult, hasFollowups and isCanceled are that falsy value itself, and the model gives false. The two agree under truthiness but not under strict equality.
- I18n.T takes any string key. The source's key type allows only the table's two keys.
- The two other tree providers and their own copy of message truncation are not part of this model, nor are the extension wiring and the build scripts.

## Findings

The extension's own operations (the status message, the status line and the opened-dialog view) follow the code as written, so they show both defects. Each corrected definition stands beside them with its intended property proved.

| source | as written | input that shows it | evidently intended | confidence | as-written member | corrected member |
|---|---|---|---|---|---|---|
| src/services/chatUtils.ts:110-115 | The minutes band is chosen on the unrounded duration, and the seconds are rounded after the modulo | 119.5 seconds prints "1м 60с" | The seconds carry into the minutes: "2м" | not executed | ChatUtils.FormatTimeShowsSixtySeconds | ChatUtils.CorrectedBreakdown |
| copilot-chat-analyzer/src/index.ts:529-535 | Turn k is paired with the response whose index is k, a position among the kept requests | Requests [no text, "hi"] show "hi" with the first request's answer | Each request is paired with the response of its own position (`request.index`) | not executed | AnalyzerContent.HistoryMispairsAfterSkippedRequest | AnalyzerContent.PairedHistoryMatchesRequest |
