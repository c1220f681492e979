# A model of the IDA Nexus broker

IDA Nexus lets several clients share one IDA database process. Its server keeps books under
locks on leases, requests, operations and shutdown; its runtime interrupts the one operation
running at a time, protects that interrupt from the submitted program, and fans database
events out; clients and server exchange values and event streams byte by byte; and a launch
has to leave a crashed database no worse than it found it. This project models these parts and
proves what they keep, for every input, every interleaving and every run.

| file | what it models |
|---|---|
| `Basics.dfy` | optional values and bytes |
| `OperationInterrupt.dfy`, `InterruptOutcome.dfy`, `RewriteText.dfy`, `AstWalk.dfy` | a language of submitted programs, what an interrupt at any primitive step does to a run, and the rewrite that keeps `except` clauses from consuming it; which programs then end in the interrupt; what the rewrite adds to a program's text; and the same rewrite as the in-place walk over a syntax tree |
| `ServerState.dfy` | each critical section of the server as a function on its fields, and the server object whose methods carry them out |
| `ServerProtocol.dfy` | every interleaving of those sections by request threads, lease cleanups, the watchdog, requested shutdown and the background analysis; the counters and the backend lock |
| `ServerCancels.dfy`, `ServerExpiry.dfy`, `ServerShutdown.dfy`, `ServerTenancy.dfy`, `ServerAnswers.dfy` | operation keys and cancellation, idle expiry, shutdown, for whom the server is kept running, and what callers were told, each as an invariant of every step |
| `ServerRuns.dfy`, `ServerDecisions.dfy` | the main results, over whole runs; and when exactly the server opens, starts, runs, expires, drains or accepts |
| `EventHook.dfy` | the analysis barrier with its callbacks, and the change hook as subscribers come and go |
| `RuntimeInterrupt.dfy` | generations, timeouts and cancels of the runtime's single active operation |
| `DeadlineScheduler.dfy`, `Heap.dfy` | the binary heap with lazy deletion, against a map from token to timer |
| `ChangeFanout.dfy` | the bounded fan-out of database events |
| `EventStream.dfy` | the event stream, from the server's writer to the clients' line parsers |
| `ChunkedBody.dfy`, `ContentLength.dfy` | the chunked body reader and the Content-Length test |
| `RemoteCodec.dfy` | the tagged value codec, its remote copy, and base64 |
| `EditDistance.dfy` | the rolling-row edit distance behind "did you mean" |
| `LaunchCleanup.dfy` | classifying, backing up and discarding database files around a launch |

Code that changes state is a class or method here, proved against a function of the old state;
the lemmas are about those functions. Locked blocks are atomic steps. In the protocol a thread
id is used once, and a step that is not possible is `Stuck`. `History` fields of the protocol
only record what happened, for the properties to speak about; no step reads them except that
ids are fresh. Time, failures, what workers and backends do, and what a user program computes
are inputs.

Some properties hold of the code only with a condition, which is stated with its proof. A
rewritten program can still lose its interrupt to an abrupt `finally` or a context manager
(`InterruptOutcome`). One slice of the background analysis may begin after an operation
announced itself, if the background already held the backend (`ServerRuns.NoSliceOvertakes`).
The native cancel flag can be set with no operation active, until the operation lock is let
go (`RuntimeInterrupt.NativeFlagIsOwn`). The two decoders of the codec differ on dictionaries
with keys that are not strings (`RemoteCodec.DecodersAgreeExactly`), which never arrive:
arguments and results both travel as JSON text. And `_monitor_lease` has no case for comment
lines; it needs none, since they set no field.

Critical sections of a single branch are methods here too, each computing its function of the
old state, but have no row below: `DoneWaiting`, `DoneRunning`, `DiscardOperation` and
`BeginRequestedShutdown` (ida_nexus/_server.py:527-530, 552-568, 617-622),
`UncountSubscriber` (ida_nexus/_server.py:758-760), `LeaveCall`, `ClearCancelled` and
`Target` (ida_nexus/_runtime.py:621-624, 589, 756-761).

## Model

| member | source | states |
|---|---|---|
| OperationInterrupt.RewritePreservesMeaning | ida_nexus/_runtime.py:209-237 | for every program and store, a run without an interrupt ends after the rewrite with the same outcome and store, or runs out of fuel alike |
| OperationInterrupt.RewrittenProgramIsNotIntercepted | ida_nexus/_runtime.py:209-237 | wherever interrupts are injected, no submitted `except` body receives one, the program ends in an interrupt only if one was delivered, and always if none was lost on the way |
| InterruptOutcome.KeptProgramEndsInItsInterrupt | ida_nexus/_runtime.py:209-237 | if every `finally` of the program and of what it calls completes normally by its text, and no context manager suppresses or fails, the rewritten program ends in the interrupt if and only if one was delivered, wherever that is |
| InterruptOutcome.FinalizerDecides | ida_nexus/_runtime.py:209-237 | whatever the finalizer, an interrupted `try` ends in the interrupt if and only if its finalizer ends normally or is interrupted itself |
| InterruptOutcome.ExitDecides | ida_nexus/_runtime.py:209-237 | whatever the context manager, an interrupted `with` ends in the interrupt if and only if its exit neither fails nor suppresses, or is interrupted itself |
| InterruptOutcome.FinallyCanReplace | ida_nexus/_runtime.py:209-237 | the rewritten `try: step finally: return 0`, interrupted in its body, returns 0 |
| InterruptOutcome.WithCanSuppress | ida_nexus/_runtime.py:209-237 | a rewritten `with` whose manager suppresses exceptions, interrupted in its body, ends normally |
| OperationInterrupt.OriginalProgramCanSwallow | ida_nexus/_runtime.py:653-668 | the unrewritten `try: step except: pass` swallows an interrupt that its rewritten form lets through |
| RewriteText.OnlyClausesAreAdded | ida_nexus/_runtime.py:209-237 | every `try` that has clauses gets exactly one re-raising clause, in front, and without those clauses the program is what was submitted |
| OperationInterrupt.EscapesStmt | ida_nexus/_runtime.py:209-237 | the same from any point of a run on, inside any handler, with the counts of interrupts delivered, caught and lost |
| OperationInterrupt.PreservesStmt | ida_nexus/_runtime.py:209-237 | runs of a statement and of its rewritten form agree from states that differ only in the step count |
| AstWalk.Module.ProtectOperationInterrupt | ida_nexus/_runtime.py:209-237 | the breadth-first walk that inserts clauses in place leaves each root denoting the protected form of what it denoted |
| AstWalk.UnfoldProtected | ida_nexus/_runtime.py:209-237 | a node that was walked, and below it everything, denotes the protected form of what it denoted |
| AstWalk.ClausesProtected | ida_nexus/_runtime.py:209-237 | the submitted clauses follow the inserted one in their order, their bodies protected |
| ServerState.NexusHTTPServer.LeaseOpened | ida_nexus/_server.py:385-408 | the lease opened and its deadlines, or nothing changed and refusal |
| ServerState.NexusHTTPServer.DetachLease | ida_nexus/_server.py:410-438 | the lease gone, its cleanup counted as a request, shutdown armed or committed for the last one, and what the caller is told |
| ServerState.NexusHTTPServer.WatchLeases | ida_nexus/_server.py:331-383 | exactly the due leases become expiring; it drains exactly when idle and due; otherwise it sleeps a second, or until a deadline that comes sooner, and not past one |
| ServerState.NexusHTTPServer.RequestStarted | ida_nexus/_server.py:463-478 | admission or refusal, and the counts after it |
| ServerState.NexusHTTPServer.RequestFinished | ida_nexus/_server.py:480-493 | the counts after it and the idle deadline re-armed when the last one leaves |
| ServerState.NexusHTTPServer.AnnounceOperation | ida_nexus/_server.py:495-513 | the key pending and the operation waiting, or a duplicate refused with nothing changed |
| ServerState.NexusHTTPServer.CheckAndRun | ida_nexus/_server.py:533-550 | detached leases and cancelled keys are refused, otherwise the running fields name the operation |
| ServerState.NexusHTTPServer.CancelOperation | ida_nexus/_server.py:570-586 | the key cancelled if pending, and whether the backend is told to stop |
| ServerState.NexusHTTPServer.RequestShutdownOf | ida_nexus/_server.py:588-615 | the three refusals in order, or shutdown requested |
| ServerState.NexusHTTPServer.Published | ida_nexus/_server.py:193-199 | the startup deadline armed if there is no lease and no shutdown request |
| ServerProtocol.StepKeepsAccounting | ida_nexus/_server.py:385-493 | every step keeps the counters equal to what they count |
| ServerProtocol.CountedIsPositive | ida_nexus/_server.py:480-486 | a request or cleanup that has not finished keeps the counters it will decrement above zero |
| ServerProtocol.StepKeepsBackend | ida_nexus/_server.py:238-280 | every step keeps the backend lock with one holder, and the running fields naming the operation in its body |
| ServerCancels.StepKeepsCancels | ida_nexus/_server.py:495-586 | every step keeps pending keys those of operations in flight, distinct, cancelled ones pending, and no doomed operation begun |
| ServerCancels.CancelHitsItsTarget | ida_nexus/_server.py:570-586 | the backend is told to stop exactly when the operation named is in its body and so holds the backend |
| ServerCancels.BodyBegins | ida_nexus/_server.py:533-551 | a body begins only for an open lease and a key that is not cancelled, by the thread that holds the backend and is then named |
| ServerExpiry.StepKeepsExpiry | ida_nexus/_server.py:337-350 | every step keeps deadlines absent while requests are in flight, right when idle, and expiry no sooner than due |
| ServerExpiry.RetiredStays | ida_nexus/_server.py:463-493 | no step starts a request of a lease that is expiring or gone, or changes that lease |
| ServerShutdown.StepKeepsShutdown | ida_nexus/_server.py:410-438 | every step keeps the shutdown deadline armed when and only when it should be, and every commitment to shut down |
| ServerShutdown.OnlyTheCaller | ida_nexus/_server.py:603-613 | when the count of requests is one, no thread but the caller has a request or cleanup under way |
| ServerShutdown.IdleMeansIdle | ida_nexus/_server.py:352-363 | when the watchdog drains, there is no lease, no request and no cleanup |
| ServerTenancy.StepStaysTenanted | ida_nexus/_server.py:410-438 | every step keeps every lease on the terms it was opened with and, without a lease, the shutdown deadline at the time the server was left plus what was allowed then |
| ServerAnswers.StepStaysAnswered | ida_nexus/_server.py:570-615 | every step keeps cancelled keys those of operations whose cancellation was acknowledged in time or whose body has begun, and shutdown replies those of accepted requests |
| ServerRuns.RunKeepsInvariant | ida_nexus/_server.py:331-622 | all of these invariants hold in every reachable state of every interleaving |
| ServerRuns.RunOnlyGoesOn | ida_nexus/_server.py:331-622 | what a later state of a run may not undo: detached leases stay gone, flags stay set, and while shutting down only cleanups begin |
| ServerRuns.CountersAreExact | ida_nexus/_server.py:410-493 | active leases, active requests, each lease's requests and the foreground waiters are the sizes of the sets they count, so the `> 0` guards hide nothing |
| ServerRuns.KeysAreExact | ida_nexus/_server.py:495-568 | a key is pending if and only if an operation in flight has it; keys are distinct; cancelled keys are pending |
| ServerRuns.AtMostOneBody | ida_nexus/_server.py:238-280 | at most one operation body or analysis slice at a time, and the running fields name exactly the body's thread |
| ServerRuns.NoSliceOvertakes | ida_nexus/_server.py:238-280 | while an operation that announced itself contends for the backend the background analysis does not get it; at most one slice begins, and only if the background had already taken the backend for it |
| ServerRuns.SliceCanFollowAnnouncement | ida_nexus/_server.py:238-280 | a run in which that one slice begins after the announcement |
| ServerRuns.DetachedLeaseRunsNothing | ida_nexus/_server.py:533-551 | once a lease is detached no body of its operations begins |
| ServerRuns.CancelledNeverRuns | ida_nexus/_server.py:570-586 | an acknowledged cancel of an operation whose body has not begun means it never does |
| ServerRuns.CancellationIsExact | ida_nexus/_server.py:570-586 | in every reachable state a cancel stops the running operation if and only if it is the one named, and it then holds the backend |
| ServerRuns.IdleDrainIsFinal | ida_nexus/_server.py:352-383 | after a drain by the watchdog no lease, request or cleanup is outstanding, then or ever after |
| ServerRuns.DeadlinesAreRight | ida_nexus/_server.py:463-493 | a lease with a request in flight has no deadline and is not expiring; an idle one is due its timeout after its last request finished |
| ServerRuns.ExpiryIsFinal | ida_nexus/_server.py:337-350 | an expiring lease has had its timeout since its last request, has none in flight then or later, and its deadline is not re-armed |
| ServerRuns.PromiseIsKept | ida_nexus/_server.py:410-438 | after a reply that shutdown is pending no lease is open and no request starts, ever |
| ServerRuns.ArmedWhenUnused | ida_nexus/_server.py:193-199 | after publication the shutdown deadline is armed if and only if there is no lease |
| ServerRuns.AcceptedShutdownIsQuiet | ida_nexus/_server.py:588-615 | an accepted shutdown request came from the only lease and the only request in flight, and no operation body begins or runs afterwards |
| ServerDecisions.OpensExactly | ida_nexus/_server.py:385-408 | a lease is opened exactly when the server is not shutting down, and with what was asked for |
| ServerDecisions.StartsExactly | ida_nexus/_server.py:463-478 | a request starts exactly when the server is not shutting down and its lease is open and not expiring; otherwise the refusal says which |
| ServerDecisions.ExpiresExactly | ida_nexus/_server.py:337-350 | a pass of the watchdog marks a lease expiring exactly when no request of it is in flight and the idle timeout it was opened with has passed since its last one |
| ServerDecisions.AnnouncesExactly | ida_nexus/_server.py:495-513 | an operation is announced unless one with its key is in flight |
| ServerDecisions.ChecksExactly | ida_nexus/_server.py:533-551 | an operation that has the backend runs its body exactly when its lease is open and no cancellation of it was acknowledged |
| ServerDecisions.DoomedWasCancelled | ida_nexus/_server.py:570-586 | a cancellation was acknowledged only if a request asked for it with the operation in flight and its body not begun |
| ServerDecisions.DeadlineIsAllowance | ida_nexus/_server.py:410-438 | while a published server has no lease its shutdown deadline is when it was left plus the allowance |
| ServerDecisions.KeptForItsKeepalive | ida_nexus/_server.py:430-431 | a server left by its last lease is due for shutdown the keepalive that this lease was opened with after the detach, until another is opened |
| ServerDecisions.DrainsExactly | ida_nexus/_server.py:352-363 | a pass of the watchdog drains exactly when there is no lease, nothing is in flight, and the allowance since the server was left has passed |
| ServerDecisions.PromisesExactly | ida_nexus/_server.py:410-438 | a detach is told that shutdown is committed exactly when it is the last of a managed server and has no keepalive, or comes after such a commitment |
| ServerDecisions.AcceptsExactly | ida_nexus/_server.py:588-615 | a shutdown request is accepted exactly when the server is managed and without a GUI, the caller's lease is the only one and nothing else is in flight; otherwise the refusal says which |
| ServerDecisions.AcceptedRequestDrains | ida_nexus/_server.py:617-622 | once the reply to an accepted request was sent the server drains |
| ServerDecisions.SavesAsAsked | ida_nexus/_server.py:614-615 | what an accepted request said of saving stands |
| AnalysisBarrier.AnalysisState.MarkComplete | ida_nexus/_runtime.py:60-79 | the new status, and the callbacks handed out when the barrier first settles |
| AnalysisBarrier.AnalysisState.AddCompletionCallback | ida_nexus/_runtime.py:81-89 | the callback kept for later or handed back to run now |
| AnalysisBarrier.CallbacksRunOnce | ida_nexus/_runtime.py:60-89 | over every sequence of calls each registered callback runs exactly once if the barrier was settled, and otherwise not at all |
| AnalysisBarrier.StatusOnlyAdvances | ida_nexus/_runtime.py:60-79 | the status only moves from running to disabled to complete |
| AnalysisBarrier.StatusIsWhatWasMarked | ida_nexus/_runtime.py:60-79 | the status is complete exactly if it was ever marked so, disabled exactly if only that, and otherwise running |
| EventHook.NexusHooks.CountSubscriber | ida_nexus/_server.py:728-734 | one more subscriber, or refusal while shutting down |
| EventHook.NexusHooks.EnableDecided | ida_nexus/_server.py:752-754 | the hook installed if wanted and the backend did not fail |
| EventHook.NexusHooks.DisableDecided | ida_nexus/_server.py:766-768 | the hook removed if idle and the backend did not fail |
| EventHook.StepKeepsInvariant | ida_nexus/_server.py:728-768 | every step keeps somebody on the way to installing a hook that is wanted, or to removing one that is idle, unless the backend failed |
| EventHook.SettledHook | ida_nexus/_server.py:728-768 | with no call under way and no backend failure the hook is installed only if analysis is complete and a subscriber remains, and always if both hold and the server is not shutting down |
| EventHook.HookAfterAnalysis | ida_nexus/_server.py:742-755 | at every point of every run an installed hook means that analysis is complete |
| RuntimeState.IDARuntime.InterruptActive | ida_nexus/_runtime.py:498-523 | what an interrupt aimed at a generation changes, whether it is accepted and whether injected |
| RuntimeState.IDARuntime.DispatchNative | ida_nexus/_runtime.py:531-542 | the native flag set later only for the operation that accepted that same interrupt |
| RuntimeState.IDARuntime.BeginOperation | ida_nexus/_runtime.py:574-582 | a new generation with clean fields |
| RuntimeState.IDARuntime.EnterCall | ida_nexus/_runtime.py:609-613 | the thread registered, and the interrupt that came before it |
| RuntimeState.IDARuntime.FinishOperation | ida_nexus/_runtime.py:717-724 | no operation active |
| RuntimeInterrupt.RunKeepsInvariant | ida_nexus/_runtime.py:498-546 | the guarded fields agree with where the operation is, and each accepted interrupt has met one of its fates, in every reachable state |
| RuntimeInterrupt.InterruptsSettle | ida_nexus/_runtime.py:574-624 | an accepted interrupt keeps the body from starting, is injected while its thread is registered (never into an analysis), or came after the body; the native flag is clear while the operation lock is free |
| RuntimeInterrupt.NativeFlagIsOwn | ida_nexus/_runtime.py:694-724 | a set native flag belongs to an interrupt that the generation last begun accepted, so no operation runs under its predecessor's; with no operation active it is set only between the reset of the fields and the last clearing |
| RuntimeInterrupt.NativeFlagOutlivesFields | ida_nexus/_runtime.py:715-724 | a run that reaches that window with the flag set |
| RuntimeInterrupt.AcceptsAtMostOne | ida_nexus/_runtime.py:507-513 | a generation accepts one interrupt and keeps it |
| RuntimeInterrupt.AimIsExact | ida_nexus/_runtime.py:498-523 | an interrupt aimed at a generation that is not active, or has taken one, changes nothing |
| RuntimeInterrupt.InterruptIsTaken | ida_nexus/_runtime.py:498-546 | an interrupt aimed at the active operation, if it is the first, is taken whatever the operation's kind: recorded, the event set, injected exactly during the call of what is no analysis, the native flag set at once or left to the GUI; any other only spends its attempt |
| RuntimeInterrupt.CancelAims | ida_nexus/_runtime.py:756-771 | a cancel aims at the active operation and its kind, and at nothing if none is active |
| RuntimeInterrupt.DispatchIsExact | ida_nexus/_runtime.py:525-546 | the native cancel that a GUI runs later sets the flag if and only if the operation it was aimed at is in its call and accepted that very interrupt; it changes nothing else |
| Heap.Push | ida_nexus/_runtime.py:154-169 | a heap with the entry added |
| Heap.Pop | ida_nexus/_runtime.py:176-206 | the least entry and a heap of the others |
| DeadlineScheduler.Scheduler.Schedule | ida_nexus/_runtime.py:154-169 | a fresh token pending with its deadline and callback |
| DeadlineScheduler.Scheduler.Cancel | ida_nexus/_runtime.py:171-174 | the token no longer pending, its heap entry left behind |
| DeadlineScheduler.Scheduler.Look | ida_nexus/_runtime.py:176-206 | it fires the least pending timer once due, otherwise sleeps exactly until then, or until notified if nothing is pending |
| DeadlineScheduler.FiringsAreDue | ida_nexus/_runtime.py:176-206 | in every history a firing was scheduled with that callback, its deadline has passed, and nothing fired it or found it to cancel before |
| DeadlineScheduler.FiringsAreLeast | ida_nexus/_runtime.py:176-206 | whatever fires is the least timer then pending |
| DeadlineScheduler.TokensAreFresh | ida_nexus/_runtime.py:154-169 | no token is handed out twice |
| ChangeFanout.ChangeState.Subscribe | ida_nexus/_runtime.py:393-397 | a subscriber whose events begin after what was recorded so far; the history goes on by its subscription |
| ChangeFanout.ChangeState.Record | ida_nexus/_runtime.py:399-423 | the next revision in the log, queued for every subscriber with room and overflowing the others; the history goes on by it |
| ChangeFanout.ChangeState.Wait | ida_nexus/_runtime.py:425-437 | the oldest queued event, an overflow, or nothing; the history goes on by that outcome |
| ChangeFanout.DeliveredIsGapFree | ida_nexus/_runtime.py:385-437 | over every history of subscribing, recording and waiting, what a subscriber was handed is the log without a gap from its subscription on; it has fallen behind if and only if it lacks more than 4096 events |
| ChangeFanout.NothingAfterOverflow | ida_nexus/_runtime.py:425-437 | over every history, nothing is delivered to a subscriber after it fell behind |
| ChangeFanout.WaitsExactly | ida_nexus/_runtime.py:425-437 | over every history a wait times out if the subscriber lacks nothing, hands it the next event of the log while it lacks at most 4096, and otherwise says that it fell behind |
| EventStream.StreamEvents | ida_nexus/_server.py:781-803 | the bytes written are the rendered frames of heartbeats and events in order |
| EventStream.FramesSpelled | ida_nexus/_server.py:797-802 | the frames that the server writes, spelled out |
| EventStream.Subscription.Next | ida_nexus/handle.py:124-190 | the loop computes the scan of what is still to arrive and closes on anything but an event |
| EventStream.PrefixIsDelivered | ida_nexus/handle.py:124-190 | of a stream cut after any byte the client yields exactly the payloads of the frames wholly received, in order |
| EventStream.BlockIsRead | ida_nexus/handle.py:150-190 | of any block of lines, ended either way, comments and unknown fields are passed over, the last name counts, values lose the blanks before them, and the data lines are joined |
| EventStream.JoinedByLineFeeds | ida_nexus/handle.py:163-190 | data lines are joined with a line feed between each two |
| EventStream.StreamIsDelivered | ida_nexus/_server.py:781-803 | of what the server writes, cut anywhere, the client is handed a prefix of the events, all if nothing is cut |
| EventStream.MonitorLease | ida_nexus/handle.py:508-540 | the monitor's loop computes whether an expiry was announced |
| EventStream.BlockIsWatched | ida_nexus/handle.py:508-540 | the monitor reads any block of lines as the iterator does, and announces an expiry exactly if its last name and its data do |
| EventStream.ExpiryIsReported | ida_nexus/_server.py:702-719 | of a lease stream cut after any byte an expiry is reported if and only if its frame was wholly received |
| ChunkedBody.BodyReader.ReadLineBounded | ida_nexus/_http.py:338-344 | a whole line within the limit, or refusal and the connection to be closed |
| ChunkedBody.BodyReader.ReadChunked | ida_nexus/_http.py:346-397 | the loop computes the parse of the input, consumes exactly what it used, and closes the connection on a rejection |
| ChunkedBody.LegalIsAccepted | ida_nexus/_http.py:346-397 | every legal encoding, with any size spelling, extensions and trailers, is read as its payload and consumed exactly |
| ChunkedBody.AcceptedIsLegal | ida_nexus/_http.py:346-397 | whatever is accepted is a legal encoding of the body returned |
| ChunkedBody.PlainBodyIsRead | ida_nexus/_http.py:346-397 | chunks sent with their lengths written in base sixteen are read as their concatenation, and exactly they are consumed |
| ChunkedBody.HexIsItsSize | ida_nexus/_http.py:353-360 | every number written in base sixteen is a size of that value |
| ChunkedBody.SizeIsItsHex | ida_nexus/_http.py:353-360 | every size is its value written in base sixteen, but for leading zeros and the case of letters |
| ChunkedBody.SizeLineIsSpelled | ida_nexus/_http.py:353 | every size line is its size between blanks, and an extension |
| ChunkedBody.FieldLineMeans | ida_nexus/_http.py:371-383 | a trailer field is a name of token characters, a colon, and anything |
| ChunkedBody.BodyWithinLimit | ida_nexus/_http.py:384-397 | no input yields more than the limit |
| ChunkedBody.ExtensionsAreIgnored | ida_nexus/_http.py:353-358 | blanks around a size, an extension after it, and how the line ends do not change it |
| ChunkedBody.SpellingOfSize | ida_nexus/_http.py:353-360 | neither leading zeros nor the case of letters changes a size |
| ContentLength.ReadIsNumeric | ida_nexus/_http.py:142-155 | the test on digit strings accepts exactly the numbers within the limit, with their value |
| ContentLength.WrittenLengthIsRead | ida_nexus/_http.py:142-155 | a length written in base ten between blanks is read as itself up to 4194304 and refused beyond |
| ContentLength.GreaterIsNumeric | ida_nexus/_http.py:149-152 | string order on digit strings of one length is the order of numbers |
| Base64.RoundTrip | ida_nexus/_remote.py:176-203 | decoding the base64 of bytes gives them back |
| Base64.LettersAreTheAlphabet | ida_nexus/_remote.py:176-203 | the letters are those of the standard alphabet in its order |
| Base64.EncodesBigEndian | ida_nexus/_remote.py:176-203 | three bytes at a time are written as one number, the first byte the highest, and what is left over is padded |
| RemoteCodec.EncodesExactlySupported | ida_nexus/_remote.py:176-203 | a value is encoded if and only if it is built of supported parts with string keys |
| RemoteCodec.RoundTrip | ida_nexus/_remote.py:204-248 | decoding what was encoded gives the value back, whatever it nests and even if its keys are reserved tags |
| RemoteCodec.EncodingIsInjective | ida_nexus/_remote.py:176-203 | no two values share an encoding |
| RemoteCodec.EncodedIsOnWire | ida_nexus/_remote.py:176-203 | an encoding is plain JSON in which a reserved tag is only the sole key of a wrapper |
| RemoteCodec.PlainKeepsItsShape | ida_nexus/_remote.py:192-200 | a dictionary without reserved keys is encoded with its own keys, in order, each of its values encoded |
| RemoteCodec.StrayTagsAreRefused | ida_nexus/_remote.py:204-248 | a reserved key beside others, or over something of the wrong form, is refused |
| RemoteCodec.ResultIsChecked | ida_nexus/_remote.py:251-263 | a result is only read from exactly a version that equals one and a value that decodes |
| RemoteCodec.EncodersAgree | ida_nexus/_remote.py:127-153 | the remote encoder is the client's, errors included |
| RemoteCodec.DecodersAgree | ida_nexus/_remote.py:85-125 | on whatever JSON can carry the remote decoder is the client's, errors included |
| RemoteCodec.DecodersAgreeExactly | ida_nexus/_remote.py:85-125 | on every value the client decodes exactly what the remote decodes and has only string keys, and where the remote decodes they agree if and only if it does |
| RemoteCodec.DecodedIsSupported | ida_nexus/_remote.py:204-248 | what the client decodes is a value that may be sent |
| RemoteCodec.CallRoundTrip | ida_nexus/_remote.py:251-263 | an argument survives the way out and a result the way back in its envelope |
| EditDistance.Compute | ida_nexus/_suggest.py:517-536 | the result is the least cost of a script of insertions, deletions, substitutions and adjacent swaps that edits no part twice: some script attains it and none is cheaper |
| EditDistance.DistanceIsUnique | ida_nexus/_suggest.py:517-536 | there is one such least cost |
| EditDistance.DistanceIsSymmetric | ida_nexus/_suggest.py:517-536 | it does not matter which word is edited |
| EditDistance.ZeroMeansEqual | ida_nexus/_suggest.py:517-536 | it is zero for equal words only |
| EditDistance.DistanceBounds | ida_nexus/_suggest.py:517-536 | it is at most the longer length and at least the difference of the lengths |
| EditDistance.IsTypo | ida_nexus/_suggest.py:511-514 | a typo is a word of four letters or more that a script of at most a quarter of its length turns into the candidate |
| LaunchCleanup.ProbeDatabaseState | ida_nexus/database_state.py:301-363 | the state reported, or an error while reading the header |
| LaunchCleanup.ProbeListsComponents | ida_nexus/database_state.py:301-363 | the components listed are those that exist; packed and missing mean none does; crashed and unpacked list `.id0` first |
| LaunchCleanup.ProbeReadsImages | ida_nexus/database_state.py:338-363 | a readable `.id0` is crashed exactly if its bytes are such an image with a one for the dirty byte, unpacked exactly with a zero, and otherwise unknown; what the lock and the filesystem make of it otherwise |
| LaunchCleanup.BackupUnpackedDatabase | ida_nexus/database_state.py:274-298 | it succeeds if and only if nothing fails and every component is a regular file, and then holds all of each; otherwise nothing but the new backup changed |
| LaunchCleanup.DiscardFailedLaunchExtraction | ida_nexus/database_state.py:383-407 | components are removed last first until one cannot be, and none if the state does not allow it |
| LaunchCleanup.Id0GoesLast | ida_nexus/database_state.py:383-407 | at every point of the removal a missing `.id0` means that no component is left |
| LaunchCleanup.Prepare | ida_nexus/_resolver.py:455-499 | over a dirty image with a packed file, or for a fresh database, it only goes on with a full new backup; over a clean one, or without either, with none; and the refusals before |
| LaunchCleanup.Launch | ida_nexus/_resolver.py:455-524 | its own steps delete components only if none existed before or all of every one is in a backup, only after a worker that certainly ended without opening the database, never over a clean image or after a launcher on Windows that exited with 0, and always where a packed database alone was there before |

## Left out

- `except*` and exception groups, generators, `async` code and nested function definitions: submitted functions are a table of bodies that a call runs.
- Submitted code that rebinds or deletes the global name by which the inserted clause finds the interrupt: the clause is taken to match the interrupt always.
- Imported library code, which the rewrite never sees: every procedure a program calls is rewritten here.
- How CPython delivers an asynchronous exception: an interrupt may come before any primitive step, and never inside one.
- IDA's SDK, `execute_sync`, ctypes and the GUI state around an operation: the runtime's steps only say when they run and what flags they set.
- Sockets, HTTP headers, authentication, compression, the Transfer-Encoding header and JSON text: JSON text of an object is an opaque line that begins with `{` and ends with `}`.
- `heapq` and `base64` are library code; they are modelled here by what they compute, on sequences.
- `_finish_lease_close` calling `cancel_active` after it let go of the lock: it can hit a successor, so exact targeting is claimed for `_cancel_operation` only.
- Server and runtime composed end to end: `release_session` enters the runtime without the backend lock, so the two sets of cancellation results stand separately.
- The reuse of a lease id, and `stop()` or a second `start()` called from outside: clients choose fresh random ids, and a reused one would break the per-lease count.
- The growth of the handler thread pool, registry record reaping and the startup guard's timing against a peer: they promise nothing that does not rest on timing outside the code.
- Waiting on the activity condition: the watchdog may pass at any time, so how long it sleeps is stated for one pass and its progress is not.
- The weak set of event subscribers: subscribers are an explicit set that only grows, and the order in which one event reaches them is arbitrary.
- Who else writes the database's files during a launch: between the launch's own steps only the worker does, and it does not touch backups.
- OperationInterrupt.RewrittenProgramIsNotIntercepted: excepts the two cases that the code cannot prevent, an abrupt `finally` and a context manager that replaces the exception; both are counted as lost, and InterruptOutcome says when they can occur.
- InterruptOutcome.KeptProgramEndsInItsInterrupt: does not hold in the other direction, since an abrupt `finally` that no interrupted run reaches does no harm; FinalizerDecides and ExitDecides are exact for one `try` and one `with`.
- EventHook.SettledHook: says nothing once a call of the backend failed, since the flag and the hook may then differ.
- ChangeFanout.ChangeState.Wait: the timeout itself is not modelled; an empty queue may time out at once.
- `_overlap`, `_split_compounds`, the scoring of suggestions, option validation, the manager, the reference search and the plugin: single branches and ranking tables.
