# Cozmio: a verified model

Cozmio watches a desktop, suggests tasks, and hands confirmed tasks to agents through a relay. This
project models the parts of it that keep state: the relay's session store and its inference routing,
the desktop's event ledger, content store, agent memory, prompt assembly, action log, session registry
and confirmation protocol, the slice builder, and the wire framings between them. It proves what their
code and documentation promise, over all inputs and all runs. Nothing here was executed.

## How the model is built

Code that changes things step by step is a class whose methods are proved against functions on values;
what is promised is then proved about those functions. Code that several threads or tasks run at once is
a transition system: a `State`, the `Move`s that are possible in it, `Step`, and `Exec` (or `After`),
which runs any list of moves and skips the impossible ones, so that a statement about `Exec(ms)` for all
`ms` is a statement about every reachable state.

| file | what it holds |
|---|---|
| `SessionTypes`, `SessionProtocol` | the session store with each lock acquire, release and callback as a step |
| `SessionInvariants`, `SessionTheorems`, `SessionProgress` | what every step keeps, who receives what, freedom from deadlock and livelock |
| `SessionWrites` | what the concurrent store holds, from the writes under its lock, and which updates notify |
| `SessionManager`, `SessionHistory` | the session store as a class, one call at a time; what it holds and has handed out, from the list of calls |
| `Routing`, `RoutingProtocol`, `RoutingCommands` | worker registry and pending map as classes; callers, processor, readers and cancellations interleaved; the command channel |
| `Ledger`, `LedgerManager` | day files, the keyed table, rebuilding in any directory order; the facade and its failures, partial rebuilds included |
| `Utf8`, `TextLines`, `ContentStore` | UTF-8 (RFC 3629), lines, stored content and its resolver |
| `AgentMemory`, `AuditLog`, `MemoryHistory`, `Recall` | the memory table and its audit rows, some of which may be lost; every column from the list of calls; ranked recall and its feedback |
| `PromptContext`, `PromptText` | the prompt under its character budget, and what it is character by character |
| `ActionLog`, `TailReader` | the JSONL log, its full reader and its tail reader |
| `Framing` | worker and client frames, readers, streams |
| `Slices`, `SliceContents` | 15-minute context slices; what is in a slice, cleared, stored and listed |
| `SessionRegistry` | the recency-sorted executor session list |
| `Confirmation`, `ConfirmationProtocol` | pending task, token, expiry, and the commands that end it; the main loop's stores, confirmations and the other commands interleaved |
| `ConfirmationRace` | the same commands with their copy and their clearing of the pending slot as separate steps |
| `Options`, `Sequences`, `Text`, `Sorting` | options, lists without repetition and collecting loops, white space, stable sorting (`sort_by`) |

UUIDs are fresh values, clocks and file-system or network outcomes are parameters, hash-map iteration and
directory order are arbitrary sequences, JSON parsing and SHA-256 are arbitrary functions.

## Where the code does less than a reader may expect

Each of these is a lemma with the exact condition, a concrete run or input, or both.

- Rebuilding the projection equals the latest-wins table in every directory order exactly when, in each day
  file, the last row of an id is its last row overall (`Ledger.RebuildIffConsistent`); a row whose id moves
  to an earlier date can come back (`LedgerManager.TwoDatesDiffer`).
- A closed command channel makes `send_inference_request` return early and leaves its pending entry and
  the Busy mark behind (`RoutingProtocol.ClosedChannelStrands`, exactly which marks: `LeftBusy`).
- Overlapping callers share one Busy mark, so a caller's worker need not be Busy while it waits
  (`IdleWhileInFlight`); it is exactly when the caller's own mark or a later one stands uncleared
  (`BusyIffMarked`, `WaitingWorkerBusy`).
- A reply that comes between a caller's last look and the drop of its receiver is accepted and lost; a
  timed-out caller has a reply in its channel exactly then (`RoutingProtocol.LostReply`).
- The creation row in the audit table always says `active`, so it is the one row that can disagree with
  the memory table (`AuditLog.LastRowShowsLifecycle`). A call other than `supersede_memory` writes its row and its
  audit row in two statements; the use counts exceed the audit table by exactly the audit rows lost between
  them (`AuditLog.UsesReplay`).
- A mark that fails during prompt admission can reorder what is recalled next, but not change which memories
  are recalled (`Recall.RecallSetIsFixpoint`).
- The tail reader trims Unicode white space before parsing; the full reader leaves it to the JSON parser, which
  skips space, tab, carriage return and newline only. They differ on a line exactly when other white space
  borders it and what trimming leaves is a record (`TailReader.DifferIffForbidden`; one no-break space does it,
  `NoBreakSpaceHides`). No line that `log` writes is like that (`LoggedTail`). The tail reader fails when its
  cut falls inside a character (`TailReadable`).
- A frame length is cast to `u32`, so a frame is read back exactly when its length is within the limit
  (`Framing.FrameRoundTrip`).
- Two adjacent line ranges join to the covering range exactly when the second starts inside the text
  (`ContentStore.LineRangesJoin`).
- Window keys round toward zero, so a time before the epoch lies in its own slice only on a boundary
  (`Slices.InInterval`). An unreadable timestamp counts as the clock, which is read for each such event when it
  is grouped and again for the bounds: two slices overlap exactly when a window of unreadable events only opens,
  at the quarter of an hour of its earliest second reading, where another window opens (`SlicesDisjoint`,
  `StrayWindow`, `StrayTwins`).
- Cancelling by token clears the pending slot before comparing traces, so it drops another trace exactly when
  its token is good and that trace is pending (`ConfirmationProtocol.CancelEndsAnother`, `DroppedIff`,
  `CancelDropsAnother`), which needs a toast that could not be shown (`ShownCancelsOwn`).
- A pending confirmation stands beside a current task at some point of a run exactly when a confirmation stored
  its task while another suggestion was pending, or the main loop stored a suggestion and found a task
  (`CoexistIffMet`, `OverlapCoexists`, `SlippedInCoexists`); it finds one exactly when a confirmation stored it
  after the loop had emptied the slot (`TaskFoundIffSlippedIn`).
- The pending slot is copied and emptied by separate accesses: a trace ends twice exactly when one command
  copies it while another holds a copy and has not emptied the slot (`ConfirmationRace.EndsTwiceIffRaced`;
  window, toast and main loop run on different threads: `TwoConfirmations`, `ConfirmedAndCancelled`,
  `ConfirmedAndExpired`), and a suggestion is lost exactly when a command that never
  copied it empties the slot under it (`LostIff`, `SuggestionLost`).

## Model

| member | source | states |
|---|---|---|
| SessionTheorems.CopiesExact | cozmio/relay-engine/src/session.rs:178-185 | At every moment a subscriber holds each logged entry once if the replay has reached it plus once if the notifier has reached the subscriber, never otherwise |
| SessionTheorems.ReplayInOrder | cozmio/relay-engine/src/session.rs:238-257 | Once a subscribe has returned, its replay is the first part of the session's log, entry by entry and in order, then a terminal status if there was one |
| SessionTheorems.AtMostTwice | cozmio/relay-engine/src/session.rs:238-277 | In every interleaving no subscriber gets an entry more than twice, and twice only when the add overlapped its subscribe |
| SessionTheorems.FanOutComplete | cozmio/relay-engine/src/session.rs:164-288 | Once all calls have returned, a subscriber whose id no call unsubscribed, but for calls that had returned before it began to subscribe, holds every entry of its session's log and has been told of a terminal status |
| SessionTheorems.NothingInvented | cozmio/relay-engine/src/session.rs:238-288 | Every event a subscriber holds is an entry of its own session or a terminal status somebody set on it or it found on joining |
| SessionInvariants.ExecInv | cozmio/relay-engine/src/session.rs:144-288 | The lock, log, list, coverage and accounting invariants hold in every reachable state |
| SessionInvariants.StepKeeps | cozmio/relay-engine/src/session.rs:164-288 | Every single lock operation, write, snapshot and callback keeps all ten invariants |
| SessionProgress.LockOrder | cozmio/relay-engine/src/session.rs:238-250 | No call waits for the subscribers lock while holding the sessions lock, and callbacks run with no lock held |
| SessionProgress.NeverStuck | cozmio/relay-engine/src/session.rs:164-288 | While a call is unfinished some call can step, even with locks whose readers give way to waiting writers |
| SessionProgress.EveryStepCounts | cozmio/relay-engine/src/session.rs:164-288 | Each step brings the calls in flight strictly nearer to their returns, so no run of them is endless |
| SessionProgress.CanFinish | cozmio/relay-engine/src/session.rs:164-288 | From every reachable state all calls in flight can be run to their returns |
| SessionWrites.SessionsAreTheirWrites | cozmio/relay-engine/src/session.rs:144-192 | In every interleaving exactly the created sessions exist, with the status last written, else Pending, and the entries in the order of their writes |
| SessionWrites.NotifiesIffEnded | cozmio/relay-engine/src/session.rs:164-176 | A status update notifies exactly if its write changed the session's status to a terminal one |
| SessionManager.SessionManager.CreateSession | cozmio/relay-engine/src/session.rs:144-158 | A new session is pending with an empty log, everything else unchanged |
| SessionManager.SessionManager.UpdateStatus | cozmio/relay-engine/src/session.rs:164-176 | The status changes, and subscribers are told exactly when it newly becomes terminal |
| SessionManager.SessionManager.AddProgress | cozmio/relay-engine/src/session.rs:178-185 | The entry is appended if the session exists, and every listed subscriber is handed it |
| SessionManager.SessionManager.Subscribe | cozmio/relay-engine/src/session.rs:238-257 | The subscriber is listed, gets the backlog in order and a terminal status; an unknown session accepts nobody |
| SessionManager.SessionManager.Unsubscribe | cozmio/relay-engine/src/session.rs:260-265 | Exactly the subscribers with this id leave the session's list |
| SessionManager.SessionManager.Notify | cozmio/relay-engine/src/session.rs:268-288 | One callback per listed subscriber, in list order |
| SessionManager.ReceivedIsTheLog | cozmio/relay-engine/src/session.rs:144-277 | With calls run whole, a listed subscriber has received its session's log exactly once and in order and knows a terminal status; one that left holds a prefix |
| SessionManager.UnknownReachesNobody | cozmio/relay-engine/src/session.rs:178-185 | Progress for a session that does not exist changes nothing and reaches nobody |
| SessionHistory.SessionsAreTheirHistory | cozmio/relay-engine/src/session.rs:144-192 | After any run of whole calls exactly the created sessions exist, with their task and start, the status last set, else Pending, the log, the result and the time of the last change |
| SessionHistory.HandedIsHeard | cozmio/relay-engine/src/session.rs:164-288 | A subscriber is listed from its acceptance until it leaves, and has been handed just the backlog, each entry added meanwhile once and one notice for each change to a terminal status, in the order of the calls |
| SessionHistory.ListsAreInJoinOrder | cozmio/relay-engine/src/session.rs:238-288 | Each session's list, in which callbacks are made, is in the order of acceptance |
| Routing.WorkerRegistry.Register | cozmio/relay-engine/src/worker_registry.rs:91-116 | The worker is online under a new registration id, distinct from every id in use; an earlier registration and its Busy mark are replaced |
| Routing.WorkerRegistry.SelectWorker | cozmio/relay-engine/src/inference_router.rs:150-165 | An idle worker if there is any, else any that is not offline, an error exactly when there is none |
| Routing.StaleMeans | cozmio/relay-engine/src/inference_router.rs:207-209 | With truncated seconds, a request is stale exactly when a full second over the limit has passed |
| Routing.CancelEachSettles | cozmio/relay-engine/src/inference_router.rs:214-217 | A sweep over listed ids cancels each pending one once and touches no other request |
| Routing.InferenceRouter.Settle | cozmio/relay-engine/src/inference_router.rs:168-192 | A known entry is removed and its channel fed in one step; an unknown id changes nothing |
| Routing.InferenceRouter.HandleResponse | cozmio/relay-engine/src/inference_router.rs:168-176 | A response settles the request whose id it carries, and reports whether that was pending |
| Routing.InferenceRouter.CancelRequest | cozmio/relay-engine/src/inference_router.rs:179-192 | A cancellation settles the request with the cancellation notice |
| Routing.InferenceRouter.StaleRequests | cozmio/relay-engine/src/inference_router.rs:204-212 | Collects exactly the stale ids |
| Routing.InferenceRouter.CleanupStaleRequests | cozmio/relay-engine/src/inference_router.rs:200-218 | Exactly the requests that were not stale stay pending; each stale one is cancelled once |
| RoutingProtocol.ExecInv | cozmio/relay-engine/src/inference_router.rs:76-192 | Every reachable state has each request in a sound stage and each Busy worker held by a caller |
| RoutingProtocol.RemovedOnce | cozmio/relay-engine/src/inference_router.rs:97-192 | An inserted id leaves the pending map at most once, and exactly once when its caller has returned: by a response, a cancellation or its own caller, the last only after a timeout |
| RoutingProtocol.OneReply | cozmio/relay-engine/src/inference_router.rs:168-192 | At most one reply ever enters a request's channel and it names that request |
| RoutingProtocol.OwnReply | cozmio/relay-engine/src/inference_router.rs:128-146 | A caller returns the reply of its own request or a timeout; if it removed the entry itself no reply ever enters its channel |
| RoutingProtocol.LostReply | cozmio/relay-engine/src/inference_router.rs:128-146 | A timed-out caller has a reply in its channel exactly when a response or cancellation came after its last look and before its receiver was dropped |
| RoutingProtocol.ReplyOrigin | cozmio/relay-engine/src/main.rs:357-377 | A returned reply was decoded from a worker frame or is the cancellation notice |
| RoutingProtocol.HistoryGrows | cozmio/relay-engine/src/inference_router.rs:139-192 | No step rewrites who removed a request or what entered its channel; an entry disappears exactly when a remover is recorded |
| RoutingProtocol.PendingInFlight | cozmio/relay-engine/src/inference_router.rs:97-140 | Pending ids belong to callers in flight, on the worker they chose, or to callers a closed channel rejected |
| RoutingProtocol.BusyIsHeld | cozmio/relay-engine/src/worker_registry.rs:178-195 | A Busy worker has a caller between mark_busy and mark_idle, with overlapping requests, failed sends, disconnects and re-registration |
| RoutingProtocol.BusyStep | cozmio/relay-engine/src/worker_registry.rs:178-195 | A worker is Busy after a step exactly when the step marked it, or it was Busy and the step is none of those that clear it |
| RoutingProtocol.BusyIffMarked | cozmio/relay-engine/src/worker_registry.rs:178-195 | In every run a worker is Busy exactly when a caller marked it and nothing since has marked it idle, reverted it, registered it anew or disconnected it |
| RoutingProtocol.WaitingWorkerBusy | cozmio/relay-engine/src/inference_router.rs:106-137 | The worker of a caller between mark_busy and mark_idle is Busy exactly when the caller's own mark or a later one stands uncleared |
| RoutingProtocol.QuietIsClean | cozmio/relay-engine/src/inference_router.rs:106-140 | With no caller in flight and the channel open, nothing is pending and no worker is Busy |
| RoutingProtocol.LeftBehind | cozmio/relay-engine/src/inference_router.rs:118-121 | With no caller in flight, what is pending is exactly what rejected callers stored and nobody cancelled |
| RoutingProtocol.LeftBusy | cozmio/relay-engine/src/inference_router.rs:118-121 | With no caller in flight, a worker is Busy exactly when the last to mark it was a caller the closed channel rejected |
| RoutingProtocol.CallerCanMove | cozmio/relay-engine/src/inference_router.rs:53-147 | A caller in flight can always take its next step unless the command channel is full |
| RoutingProtocol.ProcessorCanMove | cozmio/relay-engine/src/main.rs:400-471 | When the channel is full the command processor can take a step |
| RoutingProtocol.ClosedChannelStrands | cozmio/relay-engine/src/inference_router.rs:118-121 | A run in which a closed channel leaves a pending entry and a Busy worker with nobody in flight |
| RoutingProtocol.IdleWhileInFlight | cozmio/relay-engine/src/inference_router.rs:106-137 | A run in which a worker is Idle while a caller still waits for it |
| RoutingProtocol.BusyKept | cozmio/relay-engine/src/worker_session.rs:171-259 | Disconnecting, registering and reverting a worker keep the rule that Busy workers are held |
| RoutingProtocol.FailedSendCleansUp | cozmio/relay-engine/src/main.rs:444-453 | After a failed send the request is no longer pending, its listening caller has the cancellation, and its worker is not Busy |
| RoutingCommands.FirstInFirstOut | cozmio/relay-engine/src/main.rs:66 | Commands are taken in the order in which they were sent; the channel holds those not taken yet |
| RoutingCommands.AtMostAHundred | cozmio/relay-engine/src/main.rs:66 | Never more than a hundred commands wait |
| RoutingCommands.CommandsAreTheirCallers | cozmio/relay-engine/src/inference_router.rs:109-121 | Each command waiting, being sent or being cleaned up after is that of a caller that sent it, for the worker this caller chose |
| RoutingCommands.PendingSince | cozmio/relay-engine/src/inference_router.rs:97-107 | A pending entry carries the time at which its caller stored it and the worker it had chosen |
| RoutingCommands.ChoiceOfWorker | cozmio/relay-engine/src/inference_router.rs:150-165 | A caller takes an idle worker whenever there is one as it looks, else one that is not offline, and gives up exactly when there is none |
| Ledger.RebuildIffConsistent | cozmio/src-tauri/src/ledger.rs:838-862 | Rebuilding gives every logged id its latest event in every directory order exactly when, in each file, an id's last row is its last row overall |
| Ledger.RebuildRestores | cozmio/src-tauri/src/ledger.rs:381-408 | From any table, a rebuild of such a log restores the latest event of each logged id and leaves other rows alone |
| Ledger.OneDayIsConsistent | cozmio/src-tauri/src/ledger.rs:140-182 | If all events of an id fall on the same date the condition holds |
| Ledger.RebuildAgain | cozmio/src-tauri/src/ledger.rs:838-862 | A second rebuild, in whatever order, changes nothing and returns the same count |
| Ledger.CountIsOrderFree | cozmio/src-tauri/src/ledger.rs:381-408 | The count is the number of well-formed lines of the whole log, blank and malformed lines skipped, in any order |
| Ledger.RebuiltLookup | cozmio/src-tauri/src/ledger.rs:256-291 | Insert-or-replace file by file leaves under an id the last row of the last listed file that has one |
| LedgerManager.LedgerManager.Append | cozmio/src-tauri/src/ledger.rs:140-162 | The event goes to the end of its day's file and no other file changes |
| LedgerManager.LedgerManager.RecordEvent | cozmio/src-tauri/src/ledger.rs:753-763 | Log first, table second; a failed append changes nothing, a failed ingest leaves the event in the log only |
| LedgerManager.LedgerManager.RecordEventWithContent | cozmio/src-tauri/src/ledger.rs:769-800 | Content is stored, then the event with its reference is recorded; without a store, or when the content cannot be stored, nothing happens; a failed append leaves the content only |
| LedgerManager.LedgerManager.RebuildFromJsonl | cozmio/src-tauri/src/ledger.rs:381-408 | Ingests exactly the well-formed lines of one file that come through, in order, and counts those; a missing file is empty, one that does not open gives no count |
| LedgerManager.LedgerManager.RebuildProjection | cozmio/src-tauri/src/ledger.rs:838-862 | Ingests every listed file that opens and returns the total of those |
| LedgerManager.MissesAreLocal | cozmio/src-tauri/src/ledger.rs:381-408 | A rebuild that misses files, lines or ingests harms only the ids of the missed lines, loses no row and invents none |
| LedgerManager.CountTellsMisses | cozmio/src-tauri/src/ledger.rs:381-408 | The count reaches the number of well-formed lines exactly when none of them was missed |
| LedgerManager.RebuildEqualsLog | cozmio/src-tauri/src/ledger.rs:753-862 | After any run, failed appends, ingests and partial rebuilds included, one whole rebuild makes the table exactly the latest-wins map of the log |
| LedgerManager.SameDayRebuilds | cozmio/src-tauri/src/ledger.rs:140-182 | If each id keeps to one calendar day, every rebuild after any run gives the latest-wins map and a second one changes nothing |
| LedgerManager.DateIsDay | cozmio/src-tauri/src/ledger.rs:171-182 | The file is that of the UTC day of the timestamp if its year is -262143 to 262142, and today's otherwise |
| LedgerManager.LatestIffUpToDate | cozmio/src-tauri/src/ledger.rs:753-862 | After any run the table is the latest-wins map of the log exactly when, for each id, the event last logged is the one last ingested by its record or a rebuild |
| LedgerManager.IncrementalIsLatest | cozmio/src-tauri/src/ledger.rs:753-763 | While no ingest fails and nothing is rebuilt, the incremental table is the latest-wins map of the log |
| LedgerManager.AfterOnlyLogged | cozmio/src-tauri/src/ledger.rs:753-862 | Nothing is ever in the table that was not logged |
| LedgerManager.TwoDatesDiffer | cozmio/src-tauri/src/ledger.rs:838-862 | A run in which one id has two dates and a rebuild brings the replaced event back |
| Utf8.TruncateToByteLimit | cozmio/src-tauri/src/distill_commands.rs:300-311 | The longest valid prefix within the limit, at most three bytes short of it; the flag says whether anything was removed |
| Utf8.BoundaryIsCut | cozmio/src-tauri/src/distill_commands.rs:306 | The one-byte boundary test holds exactly where valid text can be cut into two valid texts |
| Utf8.BoundaryNear | cozmio/src-tauri/src/distill_commands.rs:305-308 | A boundary lies at most three bytes below any position |
| Utf8.RangeValid | cozmio/src-tauri/src/ledger.rs:609-641 | A non-empty byte range of valid text is valid exactly when both ends are boundaries |
| Utf8.EncodedComesBack | cozmio/src-tauri/src/ledger.rs:636-641 | Every text's encoding, by the table of section 3 of RFC 3629, is valid and decodes to the text |
| Utf8.DecodedComesBack | cozmio/src-tauri/src/ledger.rs:636-641 | Valid bytes are the encoding of what they decode to, so exactly the encodings are valid |
| TextLines.LinesAppend | cozmio/src-tauri/src/ledger.rs:661-665 | Cutting a text after a newline cuts it between lines |
| TextLines.JoinLines | cozmio/src-tauri/src/ledger.rs:661-665 | Lines joined by newlines give the text back up to its last newline, unless a carriage return ends a line |
| TextLines.LineEnds | cozmio/src-tauri/src/ledger.rs:661-665 | A line is what stands before a newline, less one carriage return, or follows the last newline |
| TextLines.StartsAre | cozmio/src-tauri/src/logging.rs:226-237 | The lines begin, in their order, at the beginning and after each newline that something follows, and nowhere else |
| ContentStore.ContentStoreWriter.Store | cozmio/src-tauri/src/ledger.rs:475-522 | The content is under a new path, no other file changes, and the reference carries path, extension and digest |
| ContentStore.PathIs | cozmio/src-tauri/src/ledger.rs:484-505 | Text, transcripts and text/ types go to a .txt file in the month's directory, all others to a .bin file |
| ContentStore.PathsDiffer | cozmio/src-tauri/src/ledger.rs:484-505 | Different ids never share a file, whatever the types and times |
| ContentStore.EveryCallKept | cozmio/src-tauri/src/ledger.rs:475-522 | With distinct ids nothing is overwritten: each stored content is kept under its reference |
| ContentStore.StoreThenResolve | cozmio/src-tauri/src/ledger.rs:587-675 | Every reference ever handed out keeps resolving to exactly its text in every later state if that was UTF-8, and to an encoding error otherwise |
| ContentStore.TamperingIsNoticed | cozmio/src-tauri/src/ledger.rs:598-607 | Whatever later happens to the files, a reference resolves to nothing but the stored text, as long as the digest tells the two apart |
| ContentStore.WhyUnresolved | cozmio/src-tauri/src/ledger.rs:587-675 | Which of the six errors a reference gives, exactly when |
| ContentStore.LineRangeIs | cozmio/src-tauri/src/ledger.rs:643-667 | A line range is the lines from its start up to its end, those there are, joined by newlines |
| ContentStore.ByteRangeResolves | cozmio/src-tauri/src/ledger.rs:609-641 | A byte range of a stored text resolves, to those bytes, exactly when it lies within it and is empty or bounded by character boundaries |
| ContentStore.LineRangesJoin | cozmio/src-tauri/src/ledger.rs:643-667 | Ranges (a,b) and (b,c) joined by a newline are the range (a,c) exactly when b is inside the text |
| ContentStore.AllLinesResolve | cozmio/src-tauri/src/ledger.rs:643-667 | The range of all lines resolves to the text up to its last newline |
| Text.BlankIsTrimmedEmpty | cozmio/cozmio_memory/src/agent_memory.rs:596-601 | A text counts as empty exactly when trimming leaves nothing |
| AgentMemory.AgentMemoryStore.InsertOperationRow | cozmio/cozmio_memory/src/agent_memory.rs:497-539 | One audit row, always with lifecycle active, under the resulting or else the target id |
| AgentMemory.AgentMemoryStore.Insert | cozmio/cozmio_memory/src/agent_memory.rs:98-142 | A row with the next id and its audit row, a blank producer becoming legacy; a failed write leaves nothing, a failed audit insert leaves the row alone |
| AgentMemory.AgentMemoryStore.RememberMemory | cozmio/cozmio_memory/src/agent_memory.rs:144-181 | Refused, naming the first blank field or missing sources, with nothing changed; else a row and its audit row, with the same two failures |
| AgentMemory.AgentMemoryStore.RejectWithReason | cozmio/cozmio_memory/src/agent_memory.rs:214-230 | The named memory is rejected and logged; a blank producer or unknown id changes nothing; a failed audit insert leaves it rejected without a log row |
| AgentMemory.AgentMemoryStore.SupersedeMemory | cozmio/cozmio_memory/src/agent_memory.rs:232-291 | The new memory, its link and both audit rows appear together, or, whatever fails at whatever statement, nothing changes |
| AgentMemory.AgentMemoryStore.MarkUsed | cozmio/cozmio_memory/src/agent_memory.rs:293-305 | The use count goes up by one and is logged; an unknown id changes nothing; a failed audit insert leaves the count up without a log row |
| MemoryHistory.MemoriesAreTheirHistory | cozmio/cozmio_memory/src/agent_memory.rs:98-305 | After any run, failures included, each memory's body, layer, source refs, producer, expiry and link are those of the call that created it, and its lifecycle, count, last use and reason those of the calls that named it |
| MemoryHistory.ColumnsStay | cozmio/cozmio_memory/src/agent_memory.rs:98-305 | What was written at birth is unchanged after any later calls |
| MemoryHistory.RowsTell | cozmio/cozmio_memory/src/agent_memory.rs:98-305 | Each call that lands adds the audit rows that tell of it, field by field, unless their insert fails; one that does not land adds none |
| MemoryHistory.CompleteIsValid | cozmio/cozmio_memory/src/agent_memory.rs:596-615 | A write is accepted exactly when no field and no source ref is blank; else the first blank field is named, and missing source refs last |
| AuditLog.AuditReplays | cozmio/cozmio_memory/src/agent_memory.rs:98-305 | After any run whose audit inserts succeed, whatever else fails, each use count is the initial one plus the used rows, and each lifecycle is that of the last rejected or superseded row, else the initial one |
| AuditLog.UsesReplay | cozmio/cozmio_memory/src/agent_memory.rs:98-305 | After any run, failed audit inserts included, each use count is the initial one plus the used rows plus the uses whose row was lost |
| AuditLog.LifecycleReplays | cozmio/cozmio_memory/src/agent_memory.rs:98-305 | After any run each lifecycle is that of the memory's last retirement, and the audit table replays to another exactly when that row was lost and the last retirement it still shows, else the initial lifecycle, differs |
| AuditLog.LastRowShowsLifecycle | cozmio/cozmio_memory/src/agent_memory.rs:477-539 | Unless it was lost, the last audit row shows the table's lifecycle exactly when it is not the creation row of a memory created as something other than active |
| AuditLog.ActiveNeverReturns | cozmio/cozmio_memory/src/agent_memory.rs:214-291 | A memory that is not active at some point of a run is never active later |
| AuditLog.LifecycleMoves | cozmio/cozmio_memory/src/agent_memory.rs:214-291 | A call moves only the named memory's lifecycle, and only to rejected or superseded |
| AuditLog.LinksDecrease | cozmio/cozmio_memory/src/agent_memory.rs:232-291 | Links made by supersede_memory strictly decrease in id and lead only to retired memories |
| Recall.RecallActiveByText | cozmio/cozmio_memory/src/agent_memory.rs:307-322 | Returns the ids of the best-ranked active matching memories |
| Recall.AdmittedMemories | cozmio/src-tauri/src/prompt_context.rs:262-297 | Recalls and then marks exactly those memories used, in that order, each failed mark being passed over |
| Recall.RecallIsTop | cozmio/cozmio_memory/src/agent_memory.rs:307-322 | Only active matching memories are returned, and none left out ranks before one returned |
| Recall.RecallIsBest | cozmio/cozmio_memory/src/agent_memory.rs:307-322 | What is recalled is active, unexpired and matches; higher scores come first, then more uses, then lower ids, among the recalled and against those left out for want of room |
| Recall.RankingDistinct | cozmio/cozmio_memory/src/agent_memory.rs:314-319 | No memory is ranked twice |
| Recall.RankingSorted | cozmio/cozmio_memory/src/agent_memory.rs:314-319 | The ranking is by score, then use count, then id, and drops no candidate |
| Recall.RoundKeepsRanking | cozmio/src-tauri/src/prompt_context.rs:281-297 | Marking the recalled memories used leaves the whole ranking in the same order |
| Recall.RecallIsFixpoint | cozmio/src-tauri/src/prompt_context.rs:262-297 | After any number of rounds of recalling and marking, with no other write, failed mark or expiry, the same ids come back in the same order |
| Recall.RecallSetIsFixpoint | cozmio/src-tauri/src/prompt_context.rs:262-297 | Whichever marks fail in those rounds, the same set of ids comes back |
| PromptContext.FormatActionLogTail | cozmio/src-tauri/src/prompt_context.rs:178-203 | The title and at most six records, whole if they fit, clipped if more than the header fits, else nothing |
| PromptContext.BuildPopupContext | cozmio/src-tauri/src/prompt_context.rs:103-131 | The protected part, clipped, followed by what of the tail fits, clipped again |
| PromptContext.ClipTwice | cozmio/src-tauri/src/prompt_context.rs:507-513 | Clipping is idempotent and exceeds its limit by at most the three dots |
| PromptContext.ContextFits | cozmio/src-tauri/src/prompt_context.rs:119-131 | The context has at most 2403 characters for all inputs |
| PromptContext.ProtectedSurvives | cozmio/src-tauri/src/prompt_context.rs:119-131 | A protected part of at most 2400 characters comes through whole, newlines as spaces, however large the log |
| PromptContext.TailShown | cozmio/src-tauri/src/prompt_context.rs:119-203 | The log tail is shown right after it exactly when there is a record and the tail or more than its header fits |
| PromptContext.WholeTailShown | cozmio/src-tauri/src/prompt_context.rs:119-203 | A log that fits is shown in full |
| PromptText.ContextIs | cozmio/src-tauri/src/prompt_context.rs:103-203 | For a protected part of at most 2400 characters the whole context: the part, and behind it the title and the first six records in full, or cut at the 2400th character of the context with three dots, or nothing of them |
| PromptText.LongProtected | cozmio/src-tauri/src/prompt_context.rs:119-131 | A longer protected part is cut at 2400 characters and nothing follows but three dots |
| PromptText.NoProtected | cozmio/src-tauri/src/prompt_context.rs:119-203 | Without a protected part the context is the log; if too long, four dots end it |
| ActionLog.ActionLogger.GetRecent | cozmio/src-tauri/src/logging.rs:213-245 | The newest records among all lines that parse as they stand, or an error if a line is not UTF-8 |
| ActionLog.ActionLogger.GetRecentTail | cozmio/src-tauri/src/logging.rs:252-298 | The newest records among the trimmed lines of the last bytes, without the first of a cut file, or an error if those bytes are not UTF-8 |
| TailReader.TailIsSuffix | cozmio/src-tauri/src/logging.rs:266-283 | The lines the tail reader uses are whole lines of the file, all of them from some line on |
| TailReader.UsedLines | cozmio/src-tauri/src/logging.rs:263-283 | A line is used exactly when it begins after the cut, which lies maxTailBytes bytes before the end of the file, one at least; of a file no longer than that all lines are |
| TailReader.TailReadable | cozmio/src-tauri/src/logging.rs:275-277 | The tail of a readable file is readable exactly when the cut falls between characters |
| TailReader.LinesReadable | cozmio/src-tauri/src/logging.rs:230-238 | The lines of a readable text are readable one by one |
| TailReader.DifferIffForbidden | cozmio/src-tauri/src/logging.rs:230-291 | The readers differ on a line exactly when white space that JSON forbids borders it and what trimming leaves is a record, which the full reader then skips |
| TailReader.AgreeIffNoneHidden | cozmio/src-tauri/src/logging.rs:230-291 | Both readers parse the same records from some lines exactly when none of them is such a line |
| TailReader.NoBreakSpaceHides | cozmio/src-tauri/src/logging.rs:230-291 | For every record, its line behind one no-break space is a record to the tail reader and skipped by the full reader |
| TailReader.OtherWhiteHides | cozmio/src-tauri/src/logging.rs:230-291 | So does any white space but space, tab, newline and carriage return |
| TailReader.JsonPaddingIsHarmless | cozmio/src-tauri/src/logging.rs:230-291 | Padding with those four changes for neither reader what it makes of a line |
| TailReader.RecordsAreSuffix | cozmio/src-tauri/src/logging.rs:252-298 | Unless the tail holds such a line, the tail reader's records are a suffix of the full reader's |
| TailReader.TimestampsAgree | cozmio/src-tauri/src/logging.rs:239-298 | With enough records in the tail, both return the same timestamps exactly when no dropped record is newer than the last returned one |
| TailReader.LargestUnchanged | cozmio/src-tauri/src/logging.rs:239-244 | The n largest of a list stay the same under additions exactly when none exceeds the n-th |
| TailReader.AnswersAgree | cozmio/src-tauri/src/logging.rs:239-298 | If every dropped record is older than the returned ones, both readers return the same list |
| TailReader.IncreasingFileAgrees | cozmio/src-tauri/src/logging.rs:252-298 | Strictly increasing timestamps in the file and no such line in the tail: the same list |
| TailReader.NonDecreasingFileAgrees | cozmio/src-tauri/src/logging.rs:252-298 | Non-decreasing timestamps and no such line in the tail: the same sequence of timestamps |
| TailReader.LoggedComeBack | cozmio/src-tauri/src/logging.rs:199-245 | What was logged is read back: the newest records, newest first, equal times in logging order |
| TailReader.LoggedTail | cozmio/src-tauri/src/logging.rs:199-298 | In a file that log wrote there is no such line, wherever it is cut, and the tail reader parses the last of the logged records |
| TailReader.EnoughRecords | cozmio/src-tauri/src/logging.rs:199-298 | If the last so many logged lines and the newline before them fit into what is read, the tail has at least so many records |
| TailReader.TailIsNewest | cozmio/src-tauri/src/logging.rs:199-298 | With increasing times the tail reader then returns just the last so many records, newest first |
| TailReader.LoggedReadersAgree | cozmio/src-tauri/src/logging.rs:199-298 | On a logged file cut between characters, both readers return the same list for increasing times and the same times for non-decreasing ones |
| Framing.BytesRoundTrip | cozmio/cozmio-box-worker/src/protocol.rs:69-75 | Big-endian u32 encoding and decoding are inverse both ways |
| Framing.BuildRequest | cozmio/cozmio-box-worker/src/protocol.rs:69-75 | Length without the type byte, type, payload |
| Framing.SendRequestToStream | cozmio/relay-client/src/client.rs:141-155 | Length with the type byte, type, payload, appended to the stream |
| Framing.WireForm | cozmio/cozmio-box-worker/src/protocol.rs:69-75 | On the wire four bytes of length, the most significant first, modulo 2^32, then the type, then the payload; the client's length counts the type |
| Framing.ReadWorkerFrame | cozmio/cozmio-box-worker/src/worker.rs:251-280 | One frame or the first thing wrong with it, consuming exactly the frame |
| Framing.ReadClientFrame | cozmio/relay-engine/src/main.rs:482-507 | One client frame or the first thing wrong with it, an empty one included |
| Framing.Run | cozmio/cozmio-box-worker/src/worker.rs:146-167 | The loop yields every readable frame up to the first error |
| Framing.FrameRoundTrip | cozmio/relay-engine/src/worker_session.rs:302-326 | A frame followed by anything is read back as itself, leaving what followed, exactly when its length is at most 1,000,000; longer ones below four gigabytes are refused |
| Framing.AMillion | cozmio/cozmio-box-worker/src/worker.rs:251-280 | A length of 1,000,000 is read back, one of 1,000,001 is refused, by both readers |
| Framing.WhatIsWrong | cozmio/relay-engine/src/main.rs:482-507 | Which error bytes that are no frame give, exactly when |
| Framing.FramingsDiffer | cozmio/relay-engine/src/main.rs:918-924 | Neither reader ever returns a message framed by the other side |
| Framing.WholeStream | cozmio/cozmio-box-worker/src/worker.rs:146-167 | A concatenation of frames is read back as the same list with every byte consumed |
| Framing.CutStream | cozmio/cozmio-box-worker/src/worker.rs:146-280 | A stream cut anywhere yields exactly the wholly contained frames and then a short-read error |
| Framing.WholeIsMost | cozmio/cozmio-box-worker/src/worker.rs:251-280 | The number of wholly contained frames is the largest number that fits |
| Framing.StreamsDetermineMessages | cozmio/cozmio-box-worker/src/protocol.rs:69-75 | Two streams of frames with the same bytes carry the same messages |
| Slices.ComputeWindowBounds | cozmio/cozmio_memory/src/slice_builder.rs:164-189 | The bounds start at the least window key when the timestamps are read again, or now without any |
| Slices.GroupIntoWindows | cozmio/cozmio_memory/src/slice_builder.rs:67-79 | One group per distinct key, holding that key's events in order |
| Slices.SliceStore.BuildSlicesFromEvents | cozmio/cozmio_memory/src/slice_builder.rs:10-63 | Generated slices are replaced by one per window whose insert succeeds, and those are counted; without events nothing is cleared |
| Slices.BuildSliceFromWindow | cozmio/cozmio_memory/src/slice_builder.rs:118-161 | The slice of a window holds its event ids in order and starts at the least key read again; without events it starts now and is empty |
| Slices.SlicesHoldTheirEvents | cozmio/cozmio_memory/src/slice_builder.rs:54-161 | Slices built for some windows, whichever inserts failed, hold exactly the ids of those windows' events, each as often as it occurs |
| Slices.SlicesPartition | cozmio/cozmio_memory/src/slice_builder.rs:54-161 | The raw refs of all built slices together are the event ids, each as often as it occurs, and there is one slice per distinct key |
| Slices.InExactlyOneSlice | cozmio/cozmio_memory/src/slice_builder.rs:118-161 | Each event id is in its own window's slice and in no other |
| Slices.InInterval | cozmio/cozmio_memory/src/slice_builder.rs:113-115 | A time lies in its window's 900 seconds exactly when it is not negative or is a boundary |
| Slices.SliceStart | cozmio/cozmio_memory/src/slice_builder.rs:81-189 | A slice starts at its key, or, if all its events are unreadable, at the quarter of an hour of the earliest second clock reading |
| Slices.EventInItsSlice | cozmio/cozmio_memory/src/slice_builder.rs:164-189 | A readable event lies in its slice's interval exactly when its time is not negative or a boundary, however far the clock has moved on |
| Slices.SlicesDisjoint | cozmio/cozmio_memory/src/slice_builder.rs:81-189 | With one clock reading per unreadable event and phase, the slices are pairwise disjoint exactly when no window of unreadable events only opens where another one does |
| Slices.ReadableDisjoint | cozmio/cozmio_memory/src/slice_builder.rs:81-189 | With readable timestamps the slices are always disjoint |
| Slices.StrayWindow | cozmio/cozmio_memory/src/slice_builder.rs:164-189 | A batch of two events whose slices have the same interval |
| Slices.StrayTwins | cozmio/cozmio_memory/src/slice_builder.rs:81-189 | Two unreadable events grouped one second apart whose slices have the same interval |
| Slices.HashOrderIrrelevant | cozmio/cozmio_memory/src/slice_builder.rs:54-60 | At the same clock readings the same slices come out whatever order the hash map yields |
| Slices.RebuildReplaces | cozmio/cozmio_memory/src/slice_builder.rs:42-60 | Building again at the same clock readings replaces the generated slices by the same ones and touches no others |
| Slices.TopNIsOrderFree | cozmio/cozmio_memory/src/slice_builder.rs:339-343 | The most frequent items do not depend on the hash map's order |
| SliceContents.SliceIs | cozmio/cozmio_memory/src/slice_builder.rs:118-161 | A slice takes up 900 seconds, lists its events' ids in order, is described by its own events and marked as generated |
| SliceContents.KeptAre | cozmio/cozmio_memory/src/slice_builder.rs:36-43 | Clearing takes out every generated slice and leaves every other one |
| SliceContents.StoredAre | cozmio/cozmio_memory/src/slice_builder.rs:53-60 | Exactly the windows whose insert does not fail are stored, each once |
| SliceContents.TopNIs | cozmio/cozmio_memory/src/slice_builder.rs:339-343 | The most frequent items, most frequent first and equal ones by name, and none left out outranks one listed |
| SessionRegistry.Registry.Record | cozmio/src-tauri/src/executor_session_registry.rs:84-97 | A blank id is refused with nothing changed; else the session's entry is replaced and the vector sorted |
| SessionRegistry.Registry.UpdateStatus | cozmio/src-tauri/src/executor_session_registry.rs:99-123 | Found exactly when some entry has the id; then that entry changes and the vector is sorted |
| SessionRegistry.Registry.List | cozmio/src-tauri/src/executor_session_registry.rs:125-137 | Newest first and each session once, as many as the limit allows, and nothing left out is newer than anything returned |
| SessionRegistry.RecordKeeps | cozmio/src-tauri/src/executor_session_registry.rs:84-97 | Recording keeps order and unique ids, and the entries are the new one and the others unchanged |
| SessionRegistry.UpdateKeeps | cozmio/src-tauri/src/executor_session_registry.rs:99-123 | Updating sets the status, the time and a result that is not blank of the named entry, keeps order and unique ids and leaves every other entry unchanged |
| SessionRegistry.EntriesAreTheirHistory | cozmio/src-tauri/src/executor_session_registry.rs:84-123 | After any run each session has the one entry that its calls made, field by field, and no other session has any |
| SessionRegistry.RecordedComesLast | cozmio/src-tauri/src/executor_session_registry.rs:84-97 | Of sessions with one time of activity, the one just recorded comes last and the others stay as they were |
| SessionRegistry.ListIsMostRecent | cozmio/src-tauri/src/executor_session_registry.rs:125-137 | After any run a listing holds the most recently active sessions, each once |
| Confirmation.Desktop.ConsumePendingNotification | cozmio/src-tauri/src/notification_manager.rs:119-157 | A token is accepted once, for its own trace, within ten minutes; an expired one is thrown away |
| Confirmation.TokenAccepted | cozmio/src-tauri/src/notification_manager.rs:119-157 | A token is accepted exactly when it is the stored one, for its trace, at most ten minutes old, and never a second time |
| Confirmation.ConsumeDoes | cozmio/src-tauri/src/notification_manager.rs:119-157 | A refused token changes nothing, but an expired stored one is thrown away; an accepted one is used up and touches nothing else |
| Confirmation.Desktop.Dispatch | cozmio/src-tauri/src/commands.rs:239-250 | The trace becomes the current task, in error if the relay refuses it |
| Confirmation.DispatchingDoes | cozmio/src-tauri/src/commands.rs:239-250 | Dispatching stores the task as dispatching, or in error, ends its trace and no other, and leaves the other slots |
| Confirmation.DispatchMakesBusy | cozmio/src-tauri/src/commands.rs:1080-1095 | A dispatched task keeps the main loop waiting, one the relay refused does not |
| Confirmation.ActiveStates | cozmio/src-tauri/src/commands.rs:1080-1095 | The main loop waits for a task that is connecting, dispatching, running, waiting or interrupting |
| Confirmation.Desktop.ConfirmPendingTask | cozmio/src-tauri/src/commands.rs:183-482 | Both slots are emptied and the pending trace dispatched; without one nothing changes |
| Confirmation.Desktop.CancelPendingTask | cozmio/src-tauri/src/commands.rs:487-611 | Cancel and dismiss empty both slots and end the pending trace |
| Confirmation.CancellingDoes | cozmio/src-tauri/src/commands.rs:487-611 | Cancelling in the window empties the pending slot and voids any token, ends what was pending and nothing else |
| Confirmation.Desktop.ConfirmPendingTaskByToken | cozmio/src-tauri/src/commands.rs:613-760 | Only a valid token of the pending trace dispatches it |
| Confirmation.ConfirmingByTokenDoes | cozmio/src-tauri/src/commands.rs:613-760 | A good token dispatches the pending trace if it is its own; otherwise what is pending, current and ended stays as it was |
| Confirmation.Desktop.CancelPendingTaskByToken | cozmio/src-tauri/src/commands.rs:762-840 | A valid token empties the pending slot, cancelling its own trace or dropping another |
| Confirmation.CancellingByTokenDoes | cozmio/src-tauri/src/commands.rs:762-840 | A good token empties the pending slot and ends its trace, as cancelled if it is the token's own, else as dropped |
| Confirmation.Desktop.ExpireIfStale | cozmio/src-tauri/src/main_loop.rs:89-118 | A confirmation older than sixty seconds ends; its token stays behind |
| Confirmation.ExpiringDoes | cozmio/src-tauri/src/main_loop.rs:89-118 | After more than sixty seconds the pending slot and the current task are emptied, the trace ends and the token stays; before, nothing changes |
| Confirmation.Desktop.CreateConfirmation | cozmio/src-tauri/src/main_loop.rs:314-368 | The suggestion is pending, the current task is cleared, and the notification is its own if it could be shown |
| Confirmation.CreatingDoes | cozmio/src-tauri/src/main_loop.rs:314-368 | Storing a suggestion empties the current task, ends nothing, and replaces the stored token if its toast could be shown |
| ConfirmationProtocol.ExecInv | cozmio/src-tauri/src/commands.rs:183-840 | In every reachable state each trace is in one place, tokens are fresh or used once, and the slots agree |
| ConfirmationProtocol.OneOutcome | cozmio/src-tauri/src/main_loop.rs:66-368 | Every suggested trace is being stored, pending, being confirmed, or ended in exactly one way |
| ConfirmationProtocol.OutcomeIsFinal | cozmio/src-tauri/src/commands.rs:487-611 | How a trace ended never changes: never dispatched twice, and never after being cancelled, dismissed, expired or dropped |
| ConfirmationProtocol.TokenOnce | cozmio/src-tauri/src/notification_manager.rs:119-162 | No token is consumed twice |
| ConfirmationProtocol.TokenDispatchesItsOwn | cozmio/src-tauri/src/commands.rs:613-663 | A confirmation by token takes out a trace exactly when it is the pending one and the token, not yet expired, was made for it; what it took out is then dispatched |
| ConfirmationProtocol.WindowVoidsTokens | cozmio/src-tauri/src/commands.rs:183-611 | Once the window has confirmed, cancelled or dismissed what was pending, no token is good until another toast comes up |
| ConfirmationProtocol.WindowCommandsWait | cozmio/src-tauri/src/commands.rs:183-611 | A window command can begin exactly when whatever an earlier window confirmation took out has been dispatched |
| ConfirmationProtocol.DispatchedWasTaken | cozmio/src-tauri/src/commands.rs:183-660 | A trace comes to be dispatched only by a confirmation that took it out |
| ConfirmationProtocol.CoexistIffMet | cozmio/src-tauri/src/main_loop.rs:354-364 | A pending confirmation and a current task stand beside each other at no point of a run exactly when no confirmation in it finds another suggestion pending as it stores its task and the main loop finds no task as it stores a suggestion |
| ConfirmationProtocol.TaskFoundIffSlippedIn | cozmio/src-tauri/src/main_loop.rs:354-364 | About to store a suggestion, the main loop finds a task exactly when a confirmation stored it after the loop had emptied the slot |
| ConfirmationProtocol.AtomicNoCoexistence | cozmio/src-tauri/src/commands.rs:183-250 | With confirmations finished before the main loop begins to store the next suggestion they never coexist |
| ConfirmationProtocol.OverlapCoexists | cozmio/src-tauri/src/commands.rs:183-250 | A run in which they do coexist, a suggestion having been stored during the inference |
| ConfirmationProtocol.SlippedInCoexists | cozmio/src-tauri/src/main_loop.rs:354-364 | A run in which they coexist although no confirmation ever found a suggestion pending |
| ConfirmationProtocol.CurrentWasDispatched | cozmio/src-tauri/src/commands.rs:239-250 | The current task, if any, is one that was dispatched and ended in no other way |
| ConfirmationProtocol.CancelEndsAnother | cozmio/src-tauri/src/commands.rs:762-840 | A cancellation by token ends a trace it does not name exactly when its token is good and that trace is pending |
| ConfirmationProtocol.DroppedIff | cozmio/src-tauri/src/commands.rs:762-840 | Over any run a trace is dropped exactly when a good token of another trace cancelled while it was pending |
| ConfirmationProtocol.ShownCancelsOwn | cozmio/src-tauri/src/main_loop.rs:314-368 | If every toast could be shown, a cancellation by token never ends another trace |
| ConfirmationProtocol.CancelDropsAnother | cozmio/src-tauri/src/commands.rs:781-791 | A run in which an old token drops a confirmation it does not name |
| ConfirmationRace.ExecInv | cozmio/src-tauri/src/commands.rs:183-840 | In every interleaving of copies, clearings and endings, a pending trace has not been cleared by anyone who copied it, and it is ended once by each command that copied it and has ended |
| ConfirmationRace.AloneIsWhole | cozmio/src-tauri/src/commands.rs:183-840 | With nothing in between, a command's copy, clearing and ending do to both slots and to every trace what the whole call does |
| ConfirmationRace.ThreadsExclude | cozmio/src-tauri/src/main.rs:340-403 | In no run do two window commands overlap, nor two expiries, and no suggestion is stored during an expiry |
| ConfirmationRace.EndsTwiceIffRaced | cozmio/src-tauri/src/commands.rs:184-224 | A trace ends twice only if a command copied the slot while another held a copy and had not emptied it; once all have returned, exactly then |
| ConfirmationRace.LostIff | cozmio/src-tauri/src/commands.rs:184-224 | A suggestion is lost exactly when a command that never copied it emptied the slot under it |
| ConfirmationRace.WhatBecomesOfATrace | cozmio/src-tauri/src/commands.rs:183-840 | Once all commands have returned, a trace neither pending nor lost has ended once without a race, more often with one |
| ConfirmationRace.TwoConfirmations | cozmio/src-tauri/src/commands.rs:184-660 | A run in which a confirmation in the window and one by toast dispatch one suggestion twice |
| ConfirmationRace.ConfirmedAndCancelled | cozmio/src-tauri/src/commands.rs:487-660 | A run in which a suggestion is dispatched by toast and cancelled in the window |
| ConfirmationRace.ConfirmedAndExpired | cozmio/src-tauri/src/main_loop.rs:86-113 | A run in which a confirmation by token falls between the expiry branch's read and its clearing, and the trace is both dispatched and expired |
| ConfirmationRace.SuggestionLost | cozmio/src-tauri/src/commands.rs:487-660 | A run in which a slow confirmation by toast empties the slot under the next suggestion |

## Left out

- Sockets, protobuf, tokio, SQLite, Tauri, Win32 toasts and file-system errors other than the failures named in the model: I/O becomes byte sequences, maps and outcome parameters.
- Worker heartbeats and liveness by timeout: the monitor refreshes the timestamp itself; a disconnect may happen at any time instead.
- Progress of worker streams: a reader holds the stream lock across a blocking read, so only safety of routing is stated, besides the steps a caller or the processor can take.
- `route_inference` names an undeclared variable; it is modelled as the three-argument call to `send_inference_request`.
- Process ids, interrupt marks and the read-only getters of the session store.
- `record_operation`, foreign-key checks on a caller's `supersedes_id`, i64 overflow of use counts, and expiry as text: expiry times are ordered instants.
- Tokenizing and lower-casing of recall queries: recall is proved for every score function.
- Torn lines of the ledger and the log, and content files written in part: a crash falls between whole writes; malformed lines may be present.
- Ledger rows are kept as events: the two columns stored as JSON are taken to be read back as written.
- The projection's queries: filters and sorts over the table.
- Dates chrono cannot represent as slice bounds, and clocks that go backwards.
- How the protected prompt lines and compacted records are formatted.
- Ranking by full text and vectors, schema migrations, the updater, the relay demo, the web front end.
- Routing.WorkerRegistry.Register: the counter and the map are separate locks in the code; one call is one step here, so insertion order of concurrent registrations is not modelled.
- TailReader.AnswersAgree: goes one way only, because equal records among the dropped ones can leave the list unchanged by accident; the exact condition is given for timestamps.
- ConfirmationProtocol.ExecInv: a confirmation's copying and emptying of the pending slot is one step, the main loop's reading and emptying of an expired one too; what happens when such accesses interleave is stated in `ConfirmationRace`. The relay status, which nothing in the model reads, is emptied together with the current task.
- ConfirmationProtocol.OneOutcome: holds for those steps; how often a trace can end when copying and emptying interleave is `ConfirmationRace.EndsTwiceIffRaced`.
- ConfirmationRace.ExecInv: the current task and the relay status are left to `ConfirmationProtocol`; storing a suggestion is one step, and so is emptying the pending slot together with the notification.
- Framing.Run: the relay answers one client request per connection, an empty frame included, and then closes it; reading a whole stream of client frames states what the format allows.
- SessionInvariants.ExecInv: a created session id is one no call has mentioned before.
