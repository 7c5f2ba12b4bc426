# Verified model of the agent runtime

A Dafny model of the parts of the operations agent that carry hard invariants: the engine that
edits one block of a remote file, the filters on streamed text, the concurrent protocols around
executions, sessions and chat, the building and compression of model context, the import of host
configuration, and the bounded histories and views of output. Each file models one component and
proves what its callers rely on. `dafny verify dfyconfig.toml` checks the whole project.

Loops and in-place updates of the source are methods and classes, each proved against a
specification function; the properties are lemmas about those functions. Protocols between
goroutines are state machines whose steps are the sections between lock operations (a store call is
one step); their theorems hold for every sequence of steps. Where the source branches on map order,
the model makes an arbitrary choice. Where a property one would expect is false of the source, a
lemma gives the input on which it fails and another says exactly when it holds.

| file | component |
|---|---|
| `ByteText.dfy`, `FileLines.dfy` | byte strings, awk records, files as lines with their terminators |
| `TextEditLocator.dfy`, `TextEditSplice.dfy`, `TextEditReview.dfy` | locating a block in one pass, splicing it, the diff that is reviewed |
| `OutputGuard.dfy`, `StreamRedactor.dfy` | filters that must not depend on how a stream is cut |
| `HostSemaphores.dfy`, `ToolScopes.dfy`, `ApprovalRuns.dfy` | acquisition, tool scopes and sessions, approvals against executions and tasks |
| `ChatEventHub.dfy`, `ChatQueue.dfy` | event fan-out with replay, the message queue and the loop that drives a session |
| `ModelTurns.dfy`, `ModelContext.dfy` | turns as model messages, selection, cutting and rebuilding context |
| `HostGraph.dfy`, `ConfigurationImport.dfy`, `ConfigurationStore.dfy` | ProxyJump resolution against import validation, merging of a package, the transaction that writes it |
| `ShellHistory.dfy`, `OutputViews.dfy` | bounded terminal history and paging, UTF-8 safe views |

## Model

| member | source | states |
|---|---|---|
| ByteText.RecordsVersusSplit | internal/service/files.go:426-490 | awk's records are the LF-separated parts, except that a final LF opens no further record |
| FileLines.ParseRoundTrip | internal/service/files.go:426-490 | reading a file as BOM, lines and terminators loses no byte |
| FileLines.ParseRender | internal/service/files.go:426-490 | a well-formed list of lines written out is read back as itself |
| TextEditLocator.LocateBlock | internal/service/files.go:426-490 | for every file and block the one-pass ring-buffer program answers what a naive search does: the number of positions where the block occurs (overlaps included) and, when it is one, the five numbers computed from prefix sums of line lengths, with BOM, CRLF and an unterminated last line |
| TextEditLocator.LocateInRecords | internal/service/files.go:450-489 | the loop over records with its ring of slots keeps exactly the search result of the lines seen so far |
| TextEditLocator.ReadRecord | internal/service/files.go:438-446 | the offsets, content end and terminator of one record are those of the line it comes from, BOM and CR included |
| TextEditLocator.CompareWindow | internal/service/files.go:454-458 | walking the ring from its oldest slot compares the block with the last lines read |
| TextEditLocator.CheckWindow | internal/service/files.go:453-477 | a full ring adds one to the count exactly when the block stands at its window, and keeps the numbers of the only match |
| TextEditLocator.MatchNumbers | internal/service/files.go:459-475 | the numbers recorded at a match are those the prefix sums give |
| TextEditLocator.FirstEol | internal/service/files.go:469-475 | the terminator is the first one in the block |
| TextEditLocator.ExactUnlessNumeric | internal/service/files.go:454-458 | awk compares number-like strings as numbers: the match is byte for byte on every file if and only if no line of the block looks like a number |
| TextEditLocator.NonNumericBlocksMatchExactly | internal/service/files.go:454-458 | for such blocks the positions found are exactly the byte-for-byte ones |
| TextEditLocator.LeadingZeroIsReplaced | internal/service/files.go:454-458 | the block `1` matches a line `01`, which it does not equal |
| TextEditSplice.RunChange | internal/service/files.go:262-342 | running locate, checks, head, replacement and tail yields the specified outcome, refusals included |
| TextEditSplice.PrintNewLines | internal/service/files.go:492-499 | the replacement program prints the new records joined by the chosen terminator |
| TextEditSplice.WrittenIffUnique | internal/service/files.go:289-317 | a file is written exactly when the block occurs once; otherwise the outcome is a conflict with the number of occurrences |
| TextEditSplice.ReplacementRewritesTheBlock | internal/service/files.go:289-317 | replacing a unique block gives the document with only these lines changed: every other line keeps content and terminator, the new lines use the block's terminator, BOM and final-newline state stay |
| TextEditSplice.DeletionRemovesTheBlock | internal/service/files.go:289-317 | deleting a unique block leaves the bytes before and after it, with the terminator before an unterminated block dropped |
| TextEditSplice.DeletionKeepsFinalNewlineExactly | internal/service/files.go:289-317 | a run that deletes a unique block keeps the final-newline state if and only if the block is not an unterminated end that follows an empty line other than the first, and not a whole terminated file |
| TextEditSplice.DeletionCanAddFinalNewline | internal/service/files.go:463-476 | the run that deletes `b` from a file `a`, empty line, `b` without final newline leaves a final newline |
| TextEditSplice.DeletionReadsBackExactly | internal/service/files.go:289-317 | what a deletion writes, read again, is the document without these lines if and only if more than a bare BOM is left and the line that becomes the first of a file without BOM does not start with the bytes of one |
| TextEditSplice.UndoRestores | internal/service/files.go:289-317 | applying the reverse edit restores the original bytes if and only if the block stood there byte for byte with one terminator throughout |
| TextEditReview.BuildTextEdit | internal/service/files.go:350-400 | an edit is refused exactly for a NUL, a CR without LF, or two texts with the same lines; otherwise its texts have the lines of the two given and the diff is the specified one |
| TextEditReview.NormalizeSpelled | internal/service/files.go:413-424 | parts without CR, LF or NUL, with LF or CRLF between them in any mixture and with or without a BOM in front, are normalised to the parts joined by LF, less one final LF |
| TextEditReview.NormalizeExactly | internal/service/files.go:413-424 | a text is refused exactly for a NUL, a CR not before LF, or being empty where that is forbidden; what is returned has its lines |
| TextEditReview.BuildChange | internal/service/files.go:363-399 | the counters of common first and last lines and the appended body give the specified diff and counts |
| TextEditReview.CountPrefix | internal/service/files.go:371-374 | the loop counts the common first lines |
| TextEditReview.CountSuffix | internal/service/files.go:375-378 | and the common last ones behind them |
| TextEditReview.FixedPoints | internal/service/files.go:413-424 | a text is left alone by normalisation exactly when it is an approved block without NUL |
| TextEditReview.DiffIsFaithful | internal/service/files.go:363-399 | context and minus lines spell the old lines, context and plus lines the new ones, and the counts count them |
| TextEditReview.DiffIsTrimmed | internal/service/files.go:371-380 | the changed parts share neither first nor last line |
| TextEditReview.DiffDeterminesEdit | internal/service/files.go:350-400 | two edits with the same reviewed diff are the same edit to the same path, for paths without a line feed |
| TextEditReview.OwnOutputAccepted | internal/service/files.go:402-411 | validation accepts what was built if and only if both texts are fixed points of normalisation |
| TextEditReview.TrailingBlankLineRefused | internal/service/files.go:402-424 | a block ending in a blank line is built and then refused |
| TextEditReview.ReviewedLinesAreWritten | internal/service/files.go:402-411 | for a validated edit the plus side of the reviewed diff is what the splice writes in place of the minus side |
| OutputGuard.AssistantOutputGuard.Write | internal/agent/runtime.go:66-87 | one write moves the guard and outputs as specified |
| OutputGuard.AssistantOutputGuard.Finish | internal/agent/runtime.go:89-96 | the end of the stream releases what is pending, unless blocked |
| OutputGuard.KeptSuffix | internal/agent/runtime.go:107-122 | the loop finds the longest suffix that can still become a marker |
| OutputGuard.MarkerIndexIsEarliest | internal/agent/runtime.go:98-105 | the index is that of the earliest marker, negative if there is none |
| OutputGuard.NoBracketInside | internal/agent/context.go:17-18 | an opening bracket after the start of a marker lies beyond it |
| OutputGuard.ChunkingIsIrrelevant | internal/agent/runtime.go:61-122 | however a text is cut, all outputs together are the text before its earliest marker, the whole text if it has none, and the guard is blocked exactly when it has one |
| OutputGuard.PendingIsNecessary | internal/agent/runtime.go:66-87 | no more is held back than needed: whatever is pending, some continuation makes it the start of the earliest marker |
| OutputGuard.ShownStaysVisible | internal/agent/runtime.go:66-87 | what was shown is a prefix of what is visible of any continuation |
| StreamRedaction.StreamRedactor.Write | internal/security/redact.go:59-81 | a write consumes every complete line and keeps the rest |
| StreamRedaction.StreamRedactor.Flush | internal/security/redact.go:83-92 | flushing redacts the unterminated rest as a line |
| StreamRedaction.StreamRedactor.RedactOne | internal/security/redact.go:94-116 | one line is redacted and moves the private-key state as specified |
| StreamRedaction.TerminatorExactly | internal/security/redact.go:94-116 | what follows a mark is the line's own terminator, CRLF taken together |
| StreamRedaction.AllLinesSpell | internal/security/redact.go:59-92 | the lines of a text, terminators included, spell the text |
| StreamRedaction.LinesSeenIffUnsplit | internal/security/redact.go:59-92 | the stream sees the lines of the whole text if and only if no chunk boundary separates a CR from its LF |
| StreamRedaction.StreamIsFold | internal/security/redact.go:59-116 | for such chunkings the outputs are one left-to-right pass of line redaction over the whole text |
| StreamRedaction.OutputIsWholeIffUnsplit | internal/security/redact.go:59-116 | and only for such: the outputs are that pass under every set of redaction rules if and only if no chunk boundary separates a CR from its LF |
| StreamRedaction.KeyBlockIsOneMark | internal/security/redact.go:94-116 | a private-key block, finished or not, contributes one mark and the terminator of its first line |
| StreamRedaction.SplitCrLfLosesALf | internal/security/redact.go:94-116 | cutting any BEGIN line of a private key between its CR and its LF swallows the LF |
| HostSemaphores.UniqueSortedHosts | internal/service/service.go:2833-2843 | the hosts to lock are the given ones without the empty id, without duplicates, in ascending order |
| HostSemaphores.StepKeepsValid | internal/service/service.go:2833-2883 | every arrival, acquisition, cancellation, rollback and release keeps the invariant of callers and semaphores |
| HostSemaphores.ReachableStates | internal/service/service.go:2833-2883 | in every reachable state each semaphore counts its holders and stays within capacity, and a caller that returned holds nothing |
| HostSemaphores.NoDeadlock | internal/service/service.go:2833-2883 | while anyone is inside, some caller can take, release or roll back without anyone being cancelled |
| HostSemaphores.StepUsesWork | internal/service/service.go:2859-2883 | every step of a caller uses up work and no other caller's |
| HostSemaphores.RunsAreBounded | internal/service/service.go:2859-2883 | so without new arrivals every run is finite |
| HostSemaphores.EveryoneCanReturn | internal/service/service.go:2833-2883 | from every reachable state all callers can finish, leaving every semaphore empty |
| HostSemaphores.RunningHoldsItsHosts | internal/service/service.go:2833-2883 | in every reachable state a caller whose operation runs holds the global slot, one slot of each host it arrived with, and no other |
| HostSemaphores.HostIsNotOverrun | internal/service/service.go:2846-2857 | so at most the configured number of operations, two by default, run on a host at once |
| HostSemaphores.ServiceIsNotOverrun | internal/service/service.go:130-139 | and at most the configured number, eight by default, at all |
| HostSemaphores.OutcomeIsHonest | internal/service/service.go:2859-2882 | a caller that returned reports cancellation exactly if its wait was cancelled, and otherwise its operation ran to its end |
| ToolScopes.StepKeepsValid | internal/agent/runtime.go:726-831 | every step of sessions, tools, cancellation and steering keeps the invariant of scopes, sessions and pending goroutines |
| ToolScopes.ReachableScopes | internal/agent/tool_execution_scope.go:54-105 | in every interleaving the idle callback runs at most once per scope, only after the model ended, and a scope is registered or cancelled |
| ToolScopes.CancelSessionReachesActiveTools | internal/agent/runtime.go:770-790 | once a call of CancelSession has returned, the scope of every tool active at its snapshot is cancelled, whatever ran in between |
| ToolScopes.QuiescentStates | internal/agent/runtime.go:726-831 | with no goroutine between locks, idle ended scopes are cancelled and unregistered, and steering that met a cancel function of a session still active was delivered |
| ToolScopes.IdleCallbackWasDue | internal/agent/tool_execution_scope.go:60-105 | in every interleaving an idle callback that ran was started by a goroutine that, at an earlier step of the same run, ended the model or the last call of that scope and saw there both the model ended and no call active; at that step every call started in the scope had as many ends as starts behind it |
| ToolScopes.CountsAreExact | internal/agent/tool_execution_scope.go:54-72 | in every run the count a scope holds for a call, 0 if none, is the number of its starts less the number of its ends |
| ToolScopes.ActiveExactly | internal/agent/tool_execution_scope.go:54-96 | so a call is active exactly while it has more starts than ends |
| ToolScopes.NothingUnasked | internal/agent/runtime.go:770-821 | in every run a scope is cancelled only by its idle callback or by a CancelSession of its session, and a cancel function called for steering was registered for a session that was steered |
| ToolScopes.EveryoneCanReturn | internal/agent/runtime.go:726-831 | from every reachable state all goroutines between locks can go on to their end |
| ToolScopes.EarlySteerIsDelivered | internal/agent/runtime.go:794-821 | a steer requested before a cancel function is registered is delivered to it: from the registration on it has been called or a goroutine is about to, also after the session has ended |
| ToolScopes.LateSteerIsDelivered | internal/agent/runtime.go:794-821 | a steer requested afterwards is delivered to the cancel function registered last, likewise |
| ToolScopes.ToolExecutionScope.Finished | internal/agent/tool_execution_scope.go:60-72 | the lock section does to the scope what the step does, and reports idleness exactly when the step spawns the closing |
| ToolScopes.ToolExecutionScope.ModelFinished | internal/agent/tool_execution_scope.go:74-82 | likewise for the end of the model |
| ToolScopes.ToolExecutionScope.CloseIdle | internal/agent/tool_execution_scope.go:98-105 | the first caller alone runs the callback |
| ToolScopes.ToolExecutionScope.Started | internal/agent/tool_execution_scope.go:54-58 | a call is counted as in the step |
| ToolScopes.AgentSessions.BeginSession | internal/agent/runtime.go:726-748 | the session maps change as in the step; a busy session is refused |
| ToolScopes.AgentSessions.EndSession | internal/agent/runtime.go:750-759 | the session leaves the map and its scope is what remains to be ended |
| ToolScopes.AgentSessions.RemoveToolScope | internal/agent/runtime.go:761-768 | unregistering drops the session's entry with its last scope |
| ToolScopes.AgentSessions.RegisterSteerCancel | internal/agent/runtime.go:810-821 | registration reports a steer requested before it |
| ToolScopes.AgentSessions.SteerSession | internal/agent/runtime.go:794-808 | the request is noted and the cancel function known so far is returned |
| ApprovalRuns.StepKeepsValid | internal/service/service.go:1609-1792 | every step of approval, start, rejection, cancellation, tracking and shutdown keeps the invariant of runs and tasks |
| ApprovalRuns.ExecutedAtMostOnce | internal/service/service.go:1629-1711 | over every interleaving an approval is decided at most once and its run launched at most once, only if approved with the recorded digest |
| ApprovalRuns.SubmittedIsPending | internal/service/service.go:2415-2432 | a submitted command is pending with nothing launched, and its request and recorded digest never change |
| ApprovalRuns.StartExactly | internal/service/service.go:1672-1688 | an approved run that is to start is launched and registered, unless the service shuts down or the run carries a mark, which is used up: then it is refused |
| ApprovalRuns.ExecutionRunsToItsEnd | internal/service/service.go:1691-1711 | a launched execution can always run to its end, which clears the maps of its run |
| ApprovalRuns.DecisionIsFinal | internal/service/service.go:1768-1792 | a decided approval keeps its status |
| ApprovalRuns.DeadExactly | internal/service/service.go:1672-1727 | a condition readable off the approval, the two cancellation maps and the closed flag holds if and only if no continuation gives the run an execution with a live context |
| ApprovalRuns.RefusedExactly | internal/service/service.go:1672-1727 | likewise, exactly when no continuation executes the run at all: in particular a run cancelled before it registers |
| ApprovalRuns.CancelledTaskStaysDead | internal/service/service.go:2579-2620 | once CancelTask is through with the approval it found recorded, that run never has a live execution again |
| ApprovalRuns.CancelTaskFinishes | internal/service/service.go:2605-2617 | and from every state it gets through by at most four steps of its own |
| ApprovalRuns.CancelTaskTakesUp | internal/service/service.go:2579-2616 | CancelTask accepts a task in the map exactly in the three statuses named there; it then leaves as cancelled and a recorded approval is what the call goes on with; any other task, and every run, stays as it is |
| ApprovalRuns.CancelTaskKillsItsRun | internal/service/service.go:2579-2616 | in every reachable state and every interleaving behind it, a CancelTask that meets a recorded approval is never stuck, makes at most four further steps of its own, and when it is through the run of that approval is dead and has no live execution ever after |
| ApprovalRuns.CancelTaskAlone | internal/service/service.go:2607-2616 | undisturbed it rejects an approval that is pending, and otherwise calls the registered cancel function or leaves a mark |
| ApprovalRuns.RecordingLasts | internal/service/service.go:2432-2444 | an approval recorded while the task is there is the one a later CancelTask meets, whatever happens in between |
| ApprovalRuns.StopKillsItsRun | internal/service/execution_events.go:232-268 | stopping an approved run finds its cancel function or leaves the run dead, and calling the function leaves it dead |
| ApprovalRuns.NothingStartsAfterShutdown | internal/service/service.go:213-219 | after shutdown every approval, also one submitted later, has been launched exactly as often as before it: never, if it was not there |
| ApprovalRuns.EveryTaskLeavesOnce | internal/service/service.go:2415-2531 | in every reachable state a task is in the map and never left it, or has left it exactly once |
| ApprovalRuns.GoneTaskIsFrozen | internal/service/service.go:2419-2435 | after it left, no stream callback, poll or late answer changes its status, approval or output |
| ApprovalRuns.TaskStepExactly | internal/service/service.go:2415-2535 | each step changes of a task's status, output, approval and presence exactly what is said here, and nothing when it is gone |
| ApprovalRuns.OutputIsStreamed | internal/service/service.go:2416-2431 | a task's output is all that was streamed to it while it was in the map, in order |
| ApprovalRuns.LateRejectHelpsOnlyPending | internal/service/service.go:2438-2445 | the rejection of an approval that arrives after its task is gone makes the run dead if and only if the approval was still pending or the run was dead already |
| ApprovalRuns.CancelledTaskMayStillExecute | internal/service/service.go:2438-2445 | a run of steps in which a cancelled task's command executes uncancelled, because the operator approved before the late rejection |
| ApprovalRuns.ExecutionRegistry.StartApprovedExecution | internal/service/service.go:1672-1688 | the lock section registers, refuses or consumes the mark as the step does, for this run and no other |
| ApprovalRuns.ExecutionRegistry.CancelApprovedExecution | internal/service/service.go:1713-1727 | a registered run's cancel function is found, an unregistered run is marked |
| ApprovalRuns.ExecutionRegistry.ExecutionEnded | internal/service/service.go:1695-1700 | the end of an execution clears both maps for this run and no other |
| ChatEvents.IdsHaveNoGaps | internal/httpapi/chat_events.go:35-67 | in every reachable hub the ids of an epoch are 1..n in order and only its last event can be terminal, exactly when it is done |
| ChatEvents.StepKeepsValid | internal/httpapi/chat_events.go:35-115 | publishing, subscribing, unsubscribing, deleting and receiving keep the invariant of epochs and subscribers |
| ChatEvents.SubscriberSeesEverythingAbove | internal/httpapi/chat_events.go:35-102 | a subscriber that names a published id gets, by replay and channel together, the events above it in order: all of them while registered or closed normally, else a prefix without gaps |
| ChatEvents.StreamIsExactWhen | internal/httpapi/chat_events.go:69-102 | for a subscriber not dropped this holds if and only if the id was published or nothing has been sent since |
| ChatEvents.ChannelsCloseOnce | internal/httpapi/chat_events.go:35-115 | no channel is closed twice or overfilled; a registered one is open and waits in the epoch its session points to |
| ChatEvents.UnsubscribeIsItsOwn | internal/httpapi/chat_events.go:91-101 | a cleanup, however late, removes its own subscriber only |
| ChatEvents.LateEventStartsOver | internal/httpapi/chat_events.go:35-43 | an event after the terminal one opens a new epoch whose ids restart, and a client resuming from the old id is not replayed it |
| ChatEvents.PublishExactly | internal/httpapi/chat_events.go:35-67 | an event gets the next id of the session's open epoch, or 1 in a new one, the session's name if it has none, and ends the epoch exactly for the four terminal types |
| ChatEvents.EveryoneIsReached | internal/httpapi/chat_events.go:51-65 | a subscriber of that epoch with fewer than 128 unreceived events is sent it and closed only if it is terminal; one with a full buffer is closed and dropped; no other channel changes |
| ChatEvents.SubscribeExactly | internal/httpapi/chat_events.go:69-102 | a subscriber is refused exactly for a done session, and otherwise registered under an unused id with an open empty channel |
| ChatEvents.ReplayIsExact | internal/httpapi/chat_events.go:77-82 | what it is replayed are the epoch's events above the id it named, none missing |
| ChatEvents.DeleteExactly | internal/httpapi/chat_events.go:104-115 | deleting forgets the session and closes its registered channels alone |
| ChatEvents.ChatEventHub.Publish | internal/httpapi/chat_events.go:35-67 | publishing, subscribers in any order, does what the step does |
| ChatEvents.ChatEventHub.PublishTo | internal/httpapi/chat_events.go:44-66 | the part behind finding the session |
| ChatEvents.ChatEventHub.SendEach | internal/httpapi/chat_events.go:51-58 | each channel gets the event or is closed and dropped for being full; it is never sent to when closed |
| ChatEvents.ChatEventHub.CloseEach | internal/httpapi/chat_events.go:59-65 | each given channel is closed once; none was closed before |
| ChatEvents.ChatEventHub.Subscribe | internal/httpapi/chat_events.go:69-102 | replay is what lies above the id; a new id was never used; a done session gives no channel |
| ChatEvents.Replay | internal/httpapi/chat_events.go:77-82 | the loop collects exactly the events above the id |
| ChatEvents.ChatEventHub.Unsubscribe | internal/httpapi/chat_events.go:93-101 | the cleanup does what the step does |
| ChatEvents.ChatEventHub.Delete | internal/httpapi/chat_events.go:104-115 | deleting closes exactly the registered channels |
| ChatQueue.InsertAtPosition | internal/httpapi/chat_queue.go:78-103 | the message stands at the returned position and the others keep their order |
| ChatQueue.InsertKeepsClasses | internal/httpapi/chat_queue.go:88-101 | it comes last in its own class and leaves the other class alone |
| ChatQueue.PositionExactly | internal/httpapi/chat_queue.go:84-101 | a steering message stands right behind the steering ones at the front, another at the end |
| ChatQueue.EnqueuedExactly | internal/httpapi/chat_queue.go:65-104 | a message is refused exactly by a session that does not accept or holds twenty; otherwise text and mode are trimmed, the mode defaults to follow-up, and what is answered has no attachment data |
| ChatQueue.TrimExactly | internal/httpapi/chat_queue.go:75-82 | trimming removes exactly the Unicode white space at both ends |
| ChatQueue.ChatMessageQueue.Enqueue | internal/httpapi/chat_queue.go:65-104 | refusals, defaults, insertion and position are as specified |
| ChatQueue.ChatMessageQueue.Begin | internal/httpapi/chat_queue.go:50-63 | a session begins if it is named and not active |
| ChatQueue.ChatMessageQueue.Clear | internal/httpapi/chat_queue.go:138-154 | clearing empties and closes the session and counts what it discards |
| ChatQueue.ChatMessageQueue.Finish | internal/httpapi/chat_queue.go:125-136 | finishing forgets the session |
| ChatQueue.SteeringPosition | internal/httpapi/chat_queue.go:88-94 | the scan stops behind the leading steering messages |
| ChatQueue.ShiftIn | internal/httpapi/chat_queue.go:95-98 | the shift in place opens exactly one gap and fills it |
| ChatQueue.ChatMessageQueue.NextAfter | internal/httpapi/chat_queue.go:106-123 | the first message is taken, or the session stops accepting |
| ChatQueue.NothingIsLost | internal/httpapi/chat_queue.go:50-154 | in every reachable state at most twenty messages wait, steering ones first, and each class of accepted messages is, in order, what was delivered, cleared, and waits or waited when the session was finished |
| ChatQueue.StepKeepsValid | internal/httpapi/chat_queue.go:50-154 | every step of driver, enqueuers and cancellers keeps the invariant |
| ChatQueue.FinalEventStrandsNothing | internal/httpapi/server.go:1711-1768 | when the driver has left its last turn for its final event, every accepted message was delivered or cleared and none is accepted before a new begin |
| ChatQueue.ExitDropsWhatWaits | internal/httpapi/server.go:1698-1772 | a session that ends drops exactly what waits at that moment: nothing after a final event, and everything not yet taken or cleared when the stream could not start or the turn panicked |
| ChatQueue.DroppedOnlyByEarlyExit | internal/httpapi/server.go:1698-1772 | in a run without such an early exit no message is ever dropped |
| ChatQueue.EarlyExitLosesAMessage | internal/httpapi/server.go:1770-1772 | a run in which a message is accepted before the stream fails to start, and is lost without an event |
| ChatQueue.QueueDrainsInOrder | internal/httpapi/server.go:1711-1768 | left to itself the driver delivers what waits in queue order and then stops |
| ChatQueue.SessionTellsItsStory | internal/httpapi/server.go:1711-1768 | over every interleaving of a session from its begin on, the events published for it, announcements apart, are two for each delivered message (how the turn before it ended, then that it is started) and at the end done, a model error or nothing |
| ChatQueue.TurnMoves | internal/httpapi/server.go:1727-1762 | after a turn the first waiting message is taken, or accepting ends; a failed turn closes the session and discards what waits |
| ChatQueue.LastEventStays | internal/httpapi/server.go:1820-1829 | with no announcement outstanding, nothing is published after the final event until a new begin |
| ChatQueue.AnnouncementCanBeOvertaken | internal/httpapi/server.go:1820-1829 | a run in which a message is announced after it was delivered and the final event published |
| ModelTurns.PrepareTurnMessages | internal/agent/context.go:227-326 | the loop with its batches and open texts yields the specified messages and counts the turn's tool records |
| ModelTurns.Flush | internal/agent/context.go:263-294 | flushing a batch appends one assistant message with its calls and then the results |
| ModelTurns.TurnIsWellFormed | internal/agent/context.go:227-326 | every turn becomes a non-empty transcript in which each assistant message with calls is followed at once by exactly its results, same ids, same order |
| ModelTurns.SegmentsPartition | internal/agent/context.go:292-314 | the records of a turn are its segments laid end to end, each what was said between two batches of tools followed by one batch |
| ModelTurns.TurnIsItsSegments | internal/agent/context.go:227-326 | the loop over records is a rendering of the segments one by one: their messages depend on the segment and the number of tools before it alone |
| ModelTurns.TurnIsFaithful | internal/agent/context.go:227-326 | the tool messages are the turn's tool records in order, the assistant texts its kept texts, each once, in order, and the reasoning that of its segments, for anthropic with each signed thought's own metadata |
| ModelTurns.KeptExactly | internal/agent/context.go:292-314 | a record is kept unless it is empty when trimmed or carries an internal marker, as text or as plain or signed reasoning by its role and metadata |
| ModelTurns.ToolIsExactly | internal/agent/context.go:266-290 | each tool record gives a call and a result with its own trimmed call id or the generated one, its name or `unknown`, and its arguments if they are valid JSON, else an empty object |
| ModelTurns.OneMessageHoldsTheReasoning | internal/agent/context.go:240-262 | for other providers than anthropic the kept texts and reasoning of a segment reach exactly one assistant message, standing before the segment's results: reasoning that was signed first, then plain, each in order |
| ModelTurns.ReasoningIsKept | internal/agent/context.go:240-262 | for them every kept reasoning record reaches the model exactly once |
| ModelTurns.PlainReasoningReachesExactly | internal/agent/context.go:240-262 | for anthropic the plain reasoning of a segment reaches its messages, all of it and in order, if and only if no signed thought stands in the segment; otherwise none of it does |
| ModelTurns.AnthropicDropsNothingExactly | internal/agent/context.go:240-262 | so anthropic is shown the same reasoning as any other provider if and only if no segment of the turn holds both kinds |
| ModelTurns.TurnIsRenamed | internal/agent/context.go:271-284 | under another turn index the messages are the same except that ids generated from the index are those generated from the other |
| ModelTurns.RenamedAreNoLarger | internal/agent/context.go:271-284 | under an earlier index they are no larger |
| ModelTurns.BytesExactly | internal/agent/context.go:387-397 | the bytes of a turn's messages are those of texts, reasoning, results, and of each call's id, name and arguments |
| ModelTurns.IndexShowsExactly | internal/agent/context.go:271-284 | they are the same under two indexes if and only if every tool record of the turn has a call id of its own |
| ModelContext.GroupStoredModelTurns | internal/agent/context.go:212-225 | the loop yields the turns, and laid end to end they are the records of the five conversation roles from the first user record on, in order, each turn opening with its only user record |
| ModelContext.GroupingConserves | internal/agent/context.go:212-225 | no record of the five roles behind the first user record is lost, moved or invented by grouping, and there are no turns exactly if there is no user record |
| ModelContext.SummaryShownExactly | internal/agent/context.go:138-152 | with a saved summary and boundary only the records behind the first one with the boundary's id are shown; if none has it, all records and no summary |
| ModelContext.PreparedExactly | internal/agent/context.go:227-234 | one turn more adds nothing if its user said and attached nothing, or failed with no further record; otherwise its trimmed text, its attachments and its messages under its own index |
| ModelContext.InputIsLaidOut | internal/agent/context.go:187-196 | the input is the summary if one is shown, then for each selected turn the user's message and the turn's, then the request |
| ModelContext.TotalAdds | internal/agent/context.go:387-401 | the size of a list of turns is the sum of theirs |
| ModelContext.ImageBytesOfOne | internal/agent/context.go:398-400 | an image counts four bytes for every three, rounded up |
| ModelContext.ModelTurnBoundaryID | internal/agent/context.go:328-335 | the last id in the turn, the user record's if no other has one |
| ModelContext.GroupOfSuffix | internal/agent/context.go:212-225 | grouping the records behind a prefix gives the turns behind the prefix's turns |
| ModelContext.SelectTurns | internal/agent/context.go:161-171 | the loop finds where the selected suffix starts |
| ModelContext.StartIsLongestFit | internal/agent/context.go:161-171 | it is the longest suffix within the byte budget |
| ModelContext.BuildModelContext | internal/agent/context.go:136-209 | the built messages and the recorded boundary are as specified |
| ModelContext.FindBoundary | internal/agent/context.go:139-145 | the first record with the saved id |
| ModelContext.PrepareTurns | internal/agent/context.go:154-160 | unusable turns are skipped, the others prepared under their index |
| ModelContext.SplitContextForSummary | internal/agent/context_summarization.go:265-294 | collecting the user positions yields the specified cut |
| ModelContext.SplitExactly | internal/agent/context_summarization.go:265-294 | the suffix starts at the user message that leaves exactly the retained ones behind it, and there is no cut exactly if no user message is older |
| ModelContext.CutPointsAgree | internal/agent/context_summarization.go:265-294 | there is a cut exactly when a boundary is recorded, and it puts in the source the old summary and the turns through the boundary, in the suffix the preserved turns and all behind them |
| ModelContext.ManualCut | internal/agent/runtime.go:923-935 | so for a manual compression |
| ModelContext.AutomaticCut | internal/agent/context.go:78-122 | so during a query, with control-plane messages in either form and the model's own work behind the request |
| ModelContext.BoundaryCutsTurns | internal/agent/context.go:328-335 | the record named by a turn's boundary is where the turns prepared after it begin |
| ModelContext.RebuildShowsPreservedTurns | internal/agent/context.go:136-171 | with unique ids, the next build with the saved boundary is the summary, the preserved turns and the request: the turns behind the boundary prepared from index 0 instead of a positive one, each with the same user text, attachments, texts, reasoning, calls and results up to the ids generated from its index |
| ModelContext.RebuildIsExact | internal/agent/context.go:136-171 | word for word if and only if every tool record of the preserved turns has a call id of its own |
| ModelContext.PreparedIndexShowsExactly | internal/agent/context.go:154-160 | turns prepared under two first indexes are equal if and only if no tool record of a usable turn lacks its call id |
| ModelContext.SummaryCoversExactlyTheBudget | internal/agent/context.go:161-175 | what the summary replaces is what it was made from if and only if all turns fitted the budget; turns beyond it are dropped unsummarised |
| HostGraph.ResolveSSHConnection | internal/service/ssh.go:37-67 | the loop returns the specified jumps, the farthest at index 0, or the specified error |
| HostGraph.ResolvesExactlyRoutes | internal/service/ssh.go:37-67 | it succeeds exactly when there is a route of at most four distinct jumps with usable proxies, and returns it |
| HostGraph.ValidateConfigurationHostGraph | internal/service/configuration.go:291-357 | accepts exactly when the walk from every host, in any order, finds no problem |
| HostGraph.ValidateHost | internal/service/configuration.go:311-355 | the loop from one host finds the specified problem or none |
| HostGraph.ImportedHostsAreCheckedExactly | internal/service/configuration.go:311-355 | for an imported host the check reports exactly the resolver's outcome |
| HostGraph.AcceptedHostsResolve | internal/service/configuration.go:291-357 | after an accepted import every imported host resolves, and so does every host that did before |
| HostGraph.UntouchedHostsPass | internal/service/configuration.go:311-355 | a host from which no imported host or proxy is met is never refused, however broken its own route is |
| HostGraph.AcceptedExactlyWhenAllResolve | internal/service/configuration.go:291-357 | where every host resolved before, an import is accepted if and only if every host resolves after it |
| HostGraph.NamesAreHarmlessExactly | internal/store/store.go:705-710 | the store also finds hosts by name: whichever row it returns, resolution is as by id if and only if no reference on the route is another host's name |
| HostGraph.AcceptedNameCanDivertARoute | internal/store/store.go:705-710 | an accepted graph in which a name equal to a referenced id diverts the route |
| ConfigurationImport.ResolveConfigurationIDs | internal/service/configuration.go:236-276 | the loop over maps and sets accepts exactly the acceptable lists and returns the specified targets |
| ConfigurationImport.IndexExisting | internal/service/configuration.go:237-242 | the maps hold exactly the existing ids and names |
| ConfigurationImport.AcceptableExactly | internal/service/configuration.go:236-276 | acceptable means valid entries, no name of an entry that is not replaced, and distinct ids, names and targets |
| ConfigurationImport.TargetMapInjective | internal/service/configuration.go:236-276 | different entries replace different ones |
| ConfigurationImport.NamesStayUnique | internal/service/configuration.go:236-276 | among the entries an import is checked against, names are unique again after every single upsert |
| ConfigurationImport.ReferencesRefusedExactly | internal/service/configuration.go:278-289 | a package is refused for its references exactly when one names nothing imported or there, or leads from a host to itself |
| ConfigurationImport.ReadableExactly | internal/service/configuration.go:97-166 | a package is readable exactly when both lists are acceptable, every reference is empty, to an entry of the package or to an existing one, and no host's jump is the entry it replaces |
| ConfigurationImport.ReferencesAfterImport | internal/service/configuration.go:148-168 | in the merged graph every imported host refers to entries that are there; every other host is unchanged and refers to entries that are there exactly when they were there before or are imported; nothing dangles that did not before |
| ConfigurationImport.ImportedHostLeads | internal/service/configuration.go:148-166 | in the merged graph the entry at an imported host's target has its name, and as jump and proxy nothing, the target of the package's entry with that id, or else the existing entry with that id |
| ConfigurationImport.NoReferenceIsGivenUp | internal/service/configuration.go:278-289 | no reference becomes empty that was not, where ids are not empty |
| ConfigurationImport.ImportedProxyIsThere | internal/service/configuration.go:120-138 | the entry at an imported proxy's target is that proxy |
| ConfigurationImport.TargetExactly | internal/service/configuration.go:236-276 | an entry replaces the one with its id, else the one with its name, else none, and conflicts exactly if these are two |
| ConfigurationImport.ImportConfiguration | internal/service/configuration.go:97-168 | accepts exactly readable packages whose merged graph passes, and returns that graph |
| ConfigurationImport.PrepareAll | internal/service/configuration.go:148-166 | all hosts are remapped in order, or one is refused |
| ConfigurationImport.ImportKeepsHostsReachable | internal/service/configuration.go:120-168 | after a successful import every imported host and every host that resolved before resolves |
| ConfigurationImport.HostNamesStayUnique | internal/service/configuration.go:140-166 | no two hosts of the merged graph share a name, if none did before |
| ConfigurationImport.ProxyNamesStayUnique | internal/service/configuration.go:113-138 | nor two proxies |
| ConfigurationStore.Store.ApplyConfiguration | internal/store/configuration.go:91-169 | proxies, then hosts are upserted and references checked; after an error, which is the specified one, both tables are as before |
| ConfigurationStore.FailureExactly | internal/store/configuration.go:98-161 | the error is that of the proxies, else that of the hosts, else a reference to nothing in either table after the merge |
| ConfigurationStore.UpsertHosts | internal/store/configuration.go:106-121 | the loop refuses the id of a workspace's host and a name another row has, and otherwise leaves the merged table |
| ConfigurationStore.UpsertsGoThroughExactly | internal/store/configuration.go:98-121 | the upserts of an acceptable list, against a table that also holds rows the list was not checked against, all go through and leave names unique if and only if no target is such a row and no name is such a row's |
| ConfigurationStore.ImportIsWrittenExactly | internal/store/configuration.go:91-169 | a readable package is written if and only if no imported host replaces a workspace's host or takes its name; then the tables hold the checked graph beside the workspaces' hosts, with names unique; the constraint on proxies and the check of references never fail |
| ConfigurationStore.WorkspaceNameIsRefused | internal/service/workspace.go:1955-1967 | an import that passes every check of its own and is refused by the database, because a workspace's host, hidden from the snapshot, has the name |
| ShellHistory.MemoryShellHistory.Append | internal/service/shell_history.go:116-136 | refuses or appends and trims as specified, with the byte count exact |
| ShellHistory.TrimIsLongestFit | internal/service/shell_history.go:131-134 | what is retained is the longest suffix within both limits, or the last event |
| ShellHistory.SizesExactly | internal/service/shell_history.go:190-206 | an event counts 96 bytes and its texts for memory, and what is shown of it for output if it is output |
| ShellHistory.BatchingIsIrrelevant | internal/service/shell_history.go:116-136 | after any list of calls it depends only on what was accepted, not on the batches |
| ShellHistory.MemoryShellHistory.ListPage | internal/service/shell_history.go:138-160 | the loop returns the specified page and whether there is more |
| ShellHistory.PageRespectsLimits | internal/service/shell_history.go:138-160 | a page keeps both limits, one oversized output apart, and ends only where the next event would break one |
| ShellHistory.PagesCoverEverything | internal/service/shell_history.go:138-160 | with increasing sequences, following the pages yields each retained event after the cursor once, in order |
| OutputViews.CutsAtBoundaries | internal/agent/tools.go:901-921 | valid text can be cut into valid parts exactly where a character starts |
| OutputViews.ValidExactly | internal/agent/tools.go:901-921 | text is valid UTF-8 if and only if it is some sequence of Unicode scalar values each written as section 3 of RFC 3629 says |
| OutputViews.ValidUTF8Prefix | internal/agent/tools.go:901-910 | the loop cuts at the last boundary within the limit |
| OutputViews.PrefixIsLongestValid | internal/agent/tools.go:901-910 | for valid text that is the longest valid prefix within the limit, at most three bytes short of it |
| OutputViews.ValidUTF8Suffix | internal/agent/tools.go:912-921 | the loop cuts at the first boundary within the limit |
| OutputViews.SuffixIsLongestValid | internal/agent/tools.go:912-921 | likewise the longest valid suffix |
| OutputViews.ViewsAreSound | internal/agent/tools.go:923-936 | every view of valid text is valid, within the limit, and a prefix, a suffix, or a prefix and a later suffix without overlap |
| OutputViews.SelectOutputView | internal/agent/tools.go:923-936 | the view that is specified |
| OutputViews.ViewAcceptedExactly | internal/agent/tools.go:879-899 | a view needs a limit of at most 4 MiB, is both ends by default, and a limit of zero forbids one |
| OutputViews.SelectExecResultOutput | internal/agent/tools.go:938-962 | errors, texts, exact omitted counts, totals and view name |
| OutputViews.PageProgressesExactly | internal/agent/tools.go:803-836 | a head page is empty exactly when the first character does not fit |
| OutputViews.PagesCoverTheStream | internal/agent/tools.go:803-836 | following the next offsets ends and the pages concatenate to the rest of the stream |

## Left out

- Locating and splicing: the temporary file, ownership and mode, validators, the SHA-256 recheck and base64 transport around the splice; a target is absent or a byte string.
- Locating and splicing: which strings awk takes for numbers is a parameter (a partial map to reals, so awk's NaN and infinities are not in it); awk is taken to read records split at LF and to count bytes, as the script's locale setting asks.
- Filters: the regular expressions of the redactor are parameters; the model keeps the state they drive.
- HostSemaphores: a select between a free slot and a cancelled context is an arbitrary choice; contexts and channels are not modelled further, and the class of semaphores is a map from resource to count.
- ToolScopes: deadlines of tool contexts, and the model's own cancel function, which has no later reader.
- ToolScopes.AgentSessions.RegisterSteerCancel: a cancel function that is absent (nil) is not modelled, because requesting it is a no-op.
- ApprovalRuns: store calls succeed and are atomic; errors of the store, the decryption and decoding of a request, audit records, notifications and the persisted snapshots of tasks, which the source writes outside the lock, are not modelled.
- ApprovalRuns: the synchronous Approve path, which registers no cancel function.
- ApprovalRuns: shutdown counts as cancelling every registered context at once; the source hangs each execution's context on the service's one just after the lock section that registers it (internal/service/service.go:1690), so one registered a moment before shutdown is cancelled a moment later.
- ApprovalRuns: the digest is an arbitrary function; nothing proved needs it injective.
- ChatEvents: event ids are unbounded (the source's are 64 bits wide); session ids are taken after TrimSpace; SSE framing and heartbeats.
- ChatQueue: ids of messages come from the caller; request decoding and the stream to the requesting browser; that the agent's turn can panic is an arbitrary choice at every turn.
- ModelTurns: trimming, the marker test, JSON validity and the compaction of tool results are parameters.
- ModelContext: image encoding, statistics, token estimates and triggers of compression, and the generation of the summary text; the model's input is assumed to begin with the agent's instruction as a system message, as the agent framework puts it.
- HostGraph: the fields of a host that only travel into the connection, and the digest of the binding; whether a proxy URL suits SSH is a parameter.
- ConfigurationImport, ConfigurationStore: model providers, credentials and the field checks of single entries; the id pattern and the rules for names are one predicate.
- ShellHistory: the persistent history (SQL), waiting for new output, and coalescing of events before they are shown.
- OutputViews: lower-casing and trimming of the view name is a parameter; the structured fields of a history record.
- OutputViews.PagesCoverTheStream: needs pages of at least four bytes; with fewer a page can be empty, as PageProgressesExactly says, and the tools ask for at least 1024.
- Code against documentation: the edit tools are described (internal/agent/tools.go:275, 1981) as replacing one exact block; TextEditLocator.ExactUnlessNumeric says when they do. The model follows the code.
- HTTP routing, authentication, WebSocket and SSE framing, the SSH transport, PTYs, the model clients, MCP, the command line and the UI: plumbing or foreign code.
- Settings, field validators and error classification: long switches with facts about single branches only.
