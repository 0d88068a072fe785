# Verified models of debugpy

Dafny models of the parts of debugpy that are hard to get right by reading: the DAP message channel and its byte
framing, the answering of requests, the suspend/resume notifications of pydevd, its filter caches and command queues,
the path translation, and the adapter's session protocol. `dafny verify dfyconfig.toml` checks the whole project.

Each component is modelled the same way. A value `State` holds its fields; a function for each section that runs under
its lock says what that section does; a class has the same fields and updates them in place, in the order of the source,
and each of its methods is proved to do what the function says. Where threads are involved, a step relation interleaves
those sections in every way, an invariant is proved to be kept by every step, and the theorems are about every state of
every run (`Behavior(states, steps)`).

| files | component |
|---|---|
| `Channel`, `ChannelObject`, `ChannelRuns`, `ChannelInvariants`, `ChannelTheorems`, `ChannelHistories` | `JsonMessageChannel`, `OutgoingRequest`, `Response._parse`: any number of senders, closers, `on_response()` and `wait_for_response()` callers, the parser thread and the handler threads |
| `Framing`, `FramingHeaders`, `FramingObject` | `JsonIOStream` over streams that split reads and writes arbitrarily |
| `RequestHandling`, `RespondRace` | `Request._handle` for every behaviour of the handler, `respond()` called concurrently, and errors that pass through delegating adapters |
| `Notifications` | `AbstractSingleNotificationBehavior` and its subclass, with timers that fire late or more than once, and the direct calls around slow evaluations |
| `FilterCaches`, `FilterRaces` | the three nested filter caches of `PyDB` and the setters that clear them; lookups that race with a setter |
| `CommandDrain`, `CommandThreads`, `CommandPass`, `CommandSteps`, `CommandQueues` | internal commands, posted by other threads while one thread drains the queues, and asked anew at each drain whether they can be executed |
| `CaseResolver`, `CaseResolverTheorems` | the real case of a path, with the directory cache |
| `PathMapping` | client/server path mapping with its caches |
| `Connections` | the registry of debug servers under its lock |
| `DeferredEvents`, `DeferredEventsRuns` | events held back until launch or attach has been answered |
| `Getopt` | the GNU-style option parser |
| `Basics` | shared definitions |

Threads that may interfere inside a method (partial reads, posts by others, the moment at which a client is lost) are
nondeterministic choices, or a field that holds what the environment will do and that nothing is assumed about.

## Where the code differs from what is said about it

The models follow the code; the members named say what it does.

- `close()` is documented to stop request and event handlers (messaging.py:1128-1132). It stops none: the skip at
  line 1454 compares bound methods with plain functions. `CloseStopsNothing`, `EventRunsAfterClose`.
- Outstanding requests are answered only when the parser loop ends with `NoMoreMessages`; after any other exception they
  stay unanswered. `RequestLifecycle`, `DiedParserAnswersNothing`, `DiedWithPendingRequest`.
- `_read_line` loops forever if the input ends inside a line (outcome `Spins` of `ReadJson`). `SpinsExactlyWhen` says for
  which inputs, `OneByteSpins` gives the smallest ones.
- `write_json` does not check the size that `read_json` insists on: `FrameRoundTrip` and `StreamRoundTrip` say what the
  reader makes of bodies of every size.
- `respond()` asserts that there is no response yet, but checks, writes and sets the field in no common lock section, so
  that two threads can answer one request twice. `TwoAnswersExactlyOnOverlap`, `TwoAnswers`.
- A `MessageHandlingError` whose reason begins with "Invalid message: " changes class and reason on its way through an
  adapter. `ErrorSurvives`, `ErrorSurvivesHops`.
- The key of the exclude-filter cache lacks the module that the verdict depends on. `KeyIsEnoughExactly` gives the exact
  condition, and `WrongVerdict` a verdict that the cache gets wrong without it.
- The retry after a cache miss in `_resolve_listing_parts` runs where only `FileNotFoundError` is caught, so that a
  `PermissionError` escapes. `CachedEqualsUncached` gives the exact condition, `StaleMissRaises` a case.
- A `configurationDone` that the server rejects in turn, and no other one, is itself never answered
  (`RejectedConfiguration`, `NeverAnswered`, `RejectedRun`): the handler returns None, on which `_handle` raises
  (`RaisesExactlyWhen`), or raises itself.
- The text of that rejection is used as a format string. With a brace in it that is not doubled, formatting raises before
  the launch or attach is failed, and the finally clause answers it with success. `RejectedConfiguration`,
  `BracesMakeItSucceed`.
- `_clear_caches` clears the filter caches before it recomputes the flags that say which filters are on, and holds no
  lock: a lookup in between leaves a wrong entry until the next clearing. `WrongExactlyWhen`, `WrongWithoutSpanning`.
- Leaving a single-mode `notify_thread_suspended()` block raises `KeyError` if `on_thread_resume` was called for the thread
  meanwhile, by a nested block or by the timer of an evaluation, and `on_thread_suspend` was not called after that.
  `ExitRaisesExactlyWhen`, `NestedRun`, `LateUnblockRun`.
- If `can_be_executed_by` raises during a drain, all commands taken so far from that queue, and those chosen from earlier
  queues, are neither executed nor put back. `ProcessInternalCommands`, `FailureLosesCommands`, `LosingRun`.
- The option parser swallows a lone "-", which other versions of getopt take for an argument.
  `LoneDashVanishes`. Its documentation mentions POSIXLY_CORRECT, which the code does not look at.

## Model

| member | source | states |
|---|---|---|
| `ChannelObject.JsonMessageChannel.EnqueueHandlers` | src/debugpy/common/messaging.py:1388-1415 | The section extends the queue, wakes every sleeper, and starts a handler thread exactly when the queue is not empty and none is registered. |
| `ChannelObject.JsonMessageChannel.TakeSeq` | src/debugpy/common/messaging.py:1214-1216 | The first section of a send hands out the next number and nothing else. |
| `ChannelObject.JsonMessageChannel.Register` | src/debugpy/common/messaging.py:1222-1247 | A request enters _sent_requests, last in order, with the handlers that on_before_send gave it, before the write. |
| `ChannelObject.JsonMessageChannel.PopRequest` | src/debugpy/common/messaging.py:929-938 | The first section of Response._parse removes the entry, and says whether there was one. |
| `ChannelObject.JsonMessageChannel.EnqueueResponseHandlers` | src/debugpy/common/messaging.py:807-836 | If there is a response, all handlers go to the queue in one item and the request holds none; otherwise nothing happens. |
| `ChannelObject.JsonMessageChannel.Answer` | src/debugpy/common/messaging.py:940-945 | The second section sets the response and enqueues the handlers. |
| `ChannelObject.JsonMessageChannel.OnResponse` | src/debugpy/common/messaging.py:785-805 | The handler joins the list, which is enqueued at once if the response is there. |
| `ChannelObject.JsonMessageChannel.AnswerAll` | src/debugpy/common/messaging.py:1302-1317 | The loop over the snapshot answers each request in turn with NoMoreMessages. |
| `ChannelObject.JsonMessageChannel.EndParsing` | src/debugpy/common/messaging.py:1298-1323 | The closing section is Shutdown as a whole, and leaves no outstanding request: the assertion in the source cannot fail. |
| `ChannelObject.JsonMessageChannel.TakeBatch` | src/debugpy/common/messaging.py:1436-1447 | The handler thread takes the whole queue, and deregisters itself exactly when it saw the channel closed and took nothing. |
| `ChannelObject.JsonMessageChannel.Close` | src/debugpy/common/messaging.py:1125-1137 | close() sets the flag and touches neither the queue nor the sleepers. |
| `Channel.AnswerAllInOrder` | src/debugpy/common/messaging.py:1302-1317 | The loop empties _sent_requests and enqueues, behind what was there, one response for each entry, in dictionary order, with its handlers. |
| `ChannelInvariants.StepKeeps` | src/debugpy/common/messaging.py:1199-1463 | Every lock section of every thread keeps the invariant: sequence numbers, request states, the handler thread, Disconnect, sleepers, waiters, response handlers. |
| `ChannelInvariants.InvHolds` | src/debugpy/common/messaging.py:1098-1463 | The invariant holds in every state of every interleaving from a new channel. |
| `ChannelTheorems.RequestLifecycle` | src/debugpy/common/messaging.py:911-952 | In every interleaving, numbers on the wire are distinct; each request is in exactly one of pending, popped, answered; after NoMoreMessages every request whose send returned is answered. |
| `ChannelHistories.ReceivedIsTheResponse` | src/debugpy/common/messaging.py:929-945 | A response received for a pending request is the one that this request gets and keeps: in every later state the parser is about to set it, or it is set. |
| `ChannelHistories.AnsweredWhenParserMovesOn` | src/debugpy/common/messaging.py:940-952 | It is set as soon as the parser is anywhere else. |
| `ChannelHistories.ResponseComesFrom` | src/debugpy/common/messaging.py:911-945 | Every response of every request was received for it while it was pending, or is the NoMoreMessages of the end of the stream, which found it pending. |
| `ChannelHistories.ExchangeRun` | src/debugpy/common/messaging.py:911-952 | A run in which request, on_response and response meet, for every response. |
| `ChannelHistories.RecordsAreExact` | src/debugpy/common/messaging.py:1199-1247 | In every state, the wire holds the messages of the send steps that went through, in their order; the next number counts the sends begun; the handlers of each request are those given to it, in order. |
| `ChannelHistories.StepEnqueues` | src/debugpy/common/messaging.py:807-952 | Each step of every run extends the queue by exactly: the message it parsed; the response it set, with the handlers its request held; at the end one NoMoreMessages for each pending request in order, then Disconnect; a late handler with the response; otherwise nothing. |
| `ChannelHistories.WaitReturnsExactlyWhen` | src/debugpy/common/messaging.py:764-783 | A look of wait_for_response() at its request returns if and only if the response is there, and sleeps otherwise. |
| `ChannelHistories.WorkerSleepsExactlyWhen` | src/debugpy/common/messaging.py:1422-1447 | The handler thread sleeps if and only if it saw an open channel and finds nothing, and quits if and only if it saw a closed one and finds nothing. |
| `ChannelHistories.ClosedExactlyWhen` | src/debugpy/common/messaging.py:1298-1323 | The channel is closed if and only if close() was called or the parser came to the end of the stream. |
| `ChannelTheorems.ResponseSetOnce` | src/debugpy/common/messaging.py:943-945 | From any state to any later one, a response that is set stays the same. |
| `ChannelTheorems.UnknownResponseChangesNothing` | src/debugpy/common/messaging.py:929-952 | A response with an unknown or used request_seq changes no request and no entry, in neither of its sections. |
| `ChannelTheorems.DiedParserAnswersNothing` | src/debugpy/common/messaging.py:1292-1323 | If the parser leaves its loop by any other exception, what was pending never gets a response. |
| `ChannelTheorems.DiedWithPendingRequest` | src/debugpy/common/messaging.py:1292-1323 | A run in which a request whose send returned is pending when the parser dies. |
| `ChannelTheorems.HandlersRunOnceInOrder` | src/debugpy/common/messaging.py:1388-1463 | Never two handler threads, one while the queue is not empty; handlers run once each in enqueue order; when no thread is left all have run, also those that on_response enqueued after close(). |
| `ChannelTheorems.HistoriesGrow` | src/debugpy/common/messaging.py:1388-1463 | What was enqueued and what was run only ever grow at the end. |
| `ChannelTheorems.DisconnectOnceAndLast` | src/debugpy/common/messaging.py:1298-1323 | Disconnect is enqueued exactly once, when the parser finishes, after everything the parser enqueues; only on_response items follow. |
| `ChannelTheorems.NoLostWakeup` | src/debugpy/common/messaging.py:1422-1434 | A handler thread sleeps with no notification on its way only on an empty queue before Disconnect; a wait_for_response() call only while its request has no response. |
| `ChannelTheorems.ResponseHandlersEnqueuedOnce` | src/debugpy/common/messaging.py:777-836 | Every handler given to on_response is enqueued exactly once, in registration order, with the response of its request, in whichever order registration and arrival happen. |
| `ChannelTheorems.WorkerProgress` | src/debugpy/common/messaging.py:1417-1447 | After the parser has finished, and as long as each handler it runs returns, the handler thread always has an enabled step, and each one brings it nearer to quitting. |
| `ChannelTheorems.RunWorker` | src/debugpy/common/messaging.py:1417-1463 | Left alone after the end of the stream, with handlers that return, it quits having run everything. |
| `ChannelTheorems.EndStepIsShutdown` | src/debugpy/common/messaging.py:1292-1323 | The step of the interleaved model that ends the parser does to the channel what the object does. |
| `ChannelTheorems.CloseStopsNothing` | src/debugpy/common/messaging.py:1125-1137 | Between a moment when the channel is closed and the end of the handler thread, a request or event handler runs if and only if a request or event was enqueued beyond those already run; everything enqueued is run, contrary to the documentation of close(). |
| `ChannelTheorems.EventRunsAfterClose` | src/debugpy/common/messaging.py:1449-1455 | A run in which an event handler runs after close(), through the test that should have skipped it. |
| `Framing.LengthRoundTrip` | src/debugpy/common/messaging.py:228-232 | int() reads back the printed length, with the blank that follows the colon. |
| `Framing.FrameHeaders` | src/debugpy/common/messaging.py:206-226 | The header block of a written message is read back as its Content-Length alone. |
| `FramingHeaders.HeadersExactly` | src/debugpy/common/messaging.py:206-226 | For every block of header lines, in any order and with repeated keys, each key gets the value of its last line, and exactly the block is consumed. |
| `FramingHeaders.MessageExactly` | src/debugpy/common/messaging.py:228-253 | With any headers, the last Content-Length decides: absent, not a number or out of range, the length is invalid; too little data, the stream has ended; otherwise the body and what follows it. |
| `FramingHeaders.BodyWithHeaders` | src/debugpy/common/messaging.py:206-253 | A body with any other headers before and after its Content-Length is read as that body. |
| `FramingHeaders.TruncatedBody` | src/debugpy/common/messaging.py:238-248 | A stream that ends inside a body is the end of the stream, never a shorter body. |
| `FramingHeaders.ShortFrame` | src/debugpy/common/messaging.py:292-300 | The frame of a short body, byte by byte. |
| `FramingHeaders.GroupedExactly` | src/debugpy/common/messaging.py:228-232 | int() takes digits with single underscores between them, and nothing else, for the number without the underscores. |
| `FramingHeaders.OtherBytesRejected` | src/debugpy/common/messaging.py:228-232 | A length with any byte that is no digit, sign, blank or underscore is rejected. |
| `FramingHeaders.SignedNumbers` | src/debugpy/common/messaging.py:228-232 | int() honours signs, so that a negative length is rejected and a positive sign is not. |
| `Framing.FrameRoundTrip` | src/debugpy/common/messaging.py:228-253 | A written body is read back and exactly its bytes are consumed, whatever follows, if and only if it is at most 0xFFFFFF bytes long; otherwise the length is rejected. |
| `Framing.StreamRoundTrip` | src/debugpy/common/messaging.py:206-300 | Any sequence of bodies is read back in order, then the end of the stream, up to the first body that is too long. |
| `Framing.FramingInjective` | src/debugpy/common/messaging.py:292-300 | Two different sequences of acceptable bodies never have the same bytes. |
| `Framing.SpinsExactlyWhen` | src/debugpy/common/messaging.py:164-226 | read_json never returns if and only if the input is not empty, has no empty line, and does not end with CR LF. |
| `Framing.OneByteSpins` | src/debugpy/common/messaging.py:164-175 | An input of one byte, whichever, is such an input. |
| `FramingObject.ReadOneLine` | src/debugpy/common/messaging.py:164-175 | For every fragmentation, the line is what precedes the first CR LF, also when it contains bare LFs; at the end of input it is the end, and inside a line the loop spins. |
| `FramingObject.ReadHeaderBlock` | src/debugpy/common/messaging.py:206-226 | For every fragmentation, the headers up to the empty line, later ones replacing earlier ones of the same name. |
| `FramingObject.ReadBody` | src/debugpy/common/messaging.py:238-253 | For every fragmentation, exactly as many bytes as announced, or NoMoreMessages. |
| `FramingObject.ReadJson` | src/debugpy/common/messaging.py:206-253 | One message: the same outcome and the same bytes left unread as the specification, for every fragmentation. |
| `FramingObject.ReadAllMessages` | src/debugpy/common/messaging.py:1292-1300 | Repeated reads return what ReadStream says, or an initial part of it if the connection breaks. |
| `FramingObject.WriteJson` | src/debugpy/common/messaging.py:268-305 | For every pattern of partial writes, exactly the frame is written, or an initial part of it and an error; nothing on a closed stream. |
| `RequestHandling.IncomingRequest.Reply` | src/debugpy/common/messaging.py:673-687 | respond() fails on a second answer and on a failed write, and then changes nothing. |
| `RequestHandling.IncomingRequest.HandleRequest` | src/debugpy/common/messaging.py:697-742 | _handle, branch by branch, for every behaviour of the handler. |
| `RequestHandling.AnsweredAtMostOnce` | src/debugpy/common/messaging.py:697-742 | For every handler at most one answer is sent; if _handle returns normally there was exactly one, or NO_RESPONSE and none, or the channel had closed. |
| `RequestHandling.SendsExactly` | src/debugpy/common/messaging.py:697-742 | What is sent, for every handler: its first attempt that gets through; otherwise, if no exception of respond() escaped, the value it returns or the error about this request that it raises, if that gets through; otherwise nothing. |
| `RequestHandling.ForeignErrorRaises` | src/debugpy/common/messaging.py:713-722 | An error about another message is not sent for this request. |
| `RequestHandling.RaisesExactlyWhen` | src/debugpy/common/messaging.py:697-749 | _handle raises if and only if an exception escapes, the error is about another message, the result contradicts the answer already given, there is no answer at all, or the last write breaks. |
| `RespondRace.TwoAnswersExactlyOnOverlap` | src/debugpy/common/messaging.py:673-687 | In every interleaving of respond() calls on one request, whatever writes fail, more than one answer was sent if and only if two calls overlapped and the writes of both went through. |
| `RespondRace.TwoAnswers` | src/debugpy/common/messaging.py:673-687 | An interleaving of two calls that sends two answers. |
| `RequestHandling.WrappedErrorAnswers` | src/debugpy/adapter/components.py:88-104 | Whatever MessageHandlingError a component handler raises, the wrapper makes it apply to the request with its class and reason; whatever the handler did before and whatever becomes of the write, it is the answer exactly if there was none and the write succeeds, and _handle raises exactly if there was another one or the write breaks. |
| `RequestHandling.TextSurvives` | src/debugpy/common/messaging.py:917-926 | The text of a failure response is the same after parsing and printing, always. |
| `RequestHandling.ErrorSurvives` | src/debugpy/common/messaging.py:1066-1083 | Class and reason survive one hop if and only if the error is an InvalidMessageError or its reason does not begin with its prefix. |
| `RequestHandling.HopAnswers` | src/debugpy/common/messaging.py:1280-1290 | delegate() makes the received error apply to the request being handled, which is answered once, with the same text. |
| `RequestHandling.RelayKeeps` | src/debugpy/common/messaging.py:1059-1063 | After any number of delegating hops the text is unchanged, and the error applies to the last request. |
| `RequestHandling.ErrorSurvivesHops` | src/debugpy/common/messaging.py:1049-1083 | Class and reason survive any number of hops exactly when they survive one. |
| `Notifications.SingleNotification.Increment` | src/debugpy/_vendored/pydevd/pydevd.py:399-401 | A suspend request gets the next stamp. |
| `Notifications.SingleNotification.Pause` | src/debugpy/_vendored/pydevd/pydevd.py:403-413 | The flag is set, and the timer gets the current stamp. |
| `Notifications.SingleNotification.TimerFires` | src/debugpy/_vendored/pydevd/pydevd.py:415-423 | A suspend with that stamp is sent exactly if some thread is suspended and the stamp is newer than the last one sent. |
| `Notifications.SingleNotification.ThreadSuspends` | src/debugpy/_vendored/pydevd/pydevd.py:425-450 | The thread is recorded, the flag cleared, and a suspend sent exactly if the reason allows it and none was sent for this request. |
| `Notifications.SingleNotification.ThreadResumes` | src/debugpy/_vendored/pydevd/pydevd.py:452-465 | The thread is removed, or KeyError; a resume is sent exactly if the last suspend has none. |
| `Notifications.StepKeeps` | src/debugpy/_vendored/pydevd/pydevd.py:383-473 | Every increment, pause, late timer, mode change, entry, exit, and direct resume or suspend around an evaluation keeps the invariants on stamps, log and dictionary. |
| `Notifications.InvHolds` | src/debugpy/_vendored/pydevd/pydevd.py:383-518 | They hold in every state of every run. |
| `Notifications.ClientNeverLeftStopped` | src/debugpy/_vendored/pydevd/pydevd.py:383-473 | last_resume <= last_suspend <= current request; they differ exactly when the last notification was a suspend; never when no thread is suspended. |
| `Notifications.OneSuspendPerRequest` | src/debugpy/_vendored/pydevd/pydevd.py:399-450 | Suspend stamps strictly increase and never exceed the current request; each resume directly follows the suspend with its stamp. |
| `Notifications.LogIsExact` | src/debugpy/_vendored/pydevd/pydevd.py:399-465 | Which step of a run adds which notification to the log, with which stamp and thread, and that no other step adds any. |
| `Notifications.StopIsReported` | src/debugpy/_vendored/pydevd/pydevd.py:436-450 | After a thread has stopped for a reason of its own, as at a breakpoint, the log holds a suspend for the current request; if the stop added one, it names the thread. |
| `Notifications.RequestsCounted` | src/debugpy/_vendored/pydevd/pydevd.py:399-434 | The current request is the number of those made, and the flag is set exactly from a pause to the next stop. |
| `Notifications.DictionaryOrder` | src/debugpy/_vendored/pydevd/pydevd.py:431-456 | The dictionary keeps the order in which threads came into it, which the timer depends on. |
| `Notifications.PauseIsReported` | src/debugpy/_vendored/pydevd/pydevd.py:403-423 | When the timer of a pause fires with some thread suspended, a suspend at least as recent has been sent. |
| `Notifications.SuspendedExactlyWhen` | src/debugpy/_vendored/pydevd/pydevd.py:425-473 | A thread is in the dictionary if and only if the last call for it was on_thread_suspend, whether by a block or by an evaluation that unblocks and blocks threads. |
| `Notifications.ResumeRaisesExactlyWhen` | src/debugpy/_vendored/pydevd/_pydevd_bundle/pydevd_vars.py:322-344 | on_thread_resume raises KeyError if and only if the last call for the thread was not on_thread_suspend; nothing else raises; the thread is not in the dictionary afterwards. |
| `Notifications.ExitRaisesExactlyWhen` | src/debugpy/_vendored/pydevd/pydevd.py:467-518 | However the mode flips meanwhile, leaving a block raises KeyError if and only if it was entered in single mode and the last call for its thread since then was on_thread_resume; a block entered in the other mode changes nothing. |
| `Notifications.NestedRun` | src/debugpy/_vendored/pydevd/pydevd.py:467-518 | The shortest run of blocks that raises: two nested single-mode blocks. |
| `Notifications.LateUnblockRun` | src/debugpy/_vendored/pydevd/_pydevd_bundle/pydevd_vars.py:325-328 | A run that raises without nesting: the timer of an evaluation fires late. |
| `Notifications.NestedWithoutError` | src/debugpy/_vendored/pydevd/_pydevd_bundle/pydevd_vars.py:340-344 | A run with nesting that does not raise, because an evaluation blocks the thread again. |
| `Notifications.NoErrorsWhenCalm` | src/debugpy/_vendored/pydevd/pydevd.py:467-518 | There is never a KeyError if no thread has two single-mode blocks open at once, and threads are unblocked inside such a block only and blocked again before they leave it. |
| `FilterCaches.PyDb.LookUpScope` | src/debugpy/_vendored/pydevd/pydevd.py:1258-1319 | The answer, cached or not, is the decision under the current settings: never for the debugger's files and annotation functions, by file type for code without a file, otherwise for mapped sources and files under the project roots; and the caches stay right. |
| `FilterCaches.PyDb.LookUpExclude` | src/debugpy/_vendored/pydevd/pydevd.py:1350-1372 | The verdict is that of the frame, or on a hit the kept one, which is that of some frame with the same key under the current settings; it is the frame's own if the keys suffice for the frames in use. |
| `FilterCaches.PyDb.LookUpFilter` | src/debugpy/_vendored/pydevd/pydevd.py:1374-1442 | Likewise for the decision that combines plugins, filters and project scope, on top of the other two caches. |
| `FilterCaches.PyDb.FindVerdict` | src/debugpy/_vendored/pydevd/_pydevd_bundle/pydevd_filtering.py:315-328 | The verdict, exclude or include, of the first filter that applies to the file or module; none if and only if no filter applies. |
| `FilterCaches.MatchesIs` | src/debugpy/_vendored/pydevd/_pydevd_bundle/pydevd_filtering.py:315-328 | A path filter applies by its pattern, a module filter to the module and what is in it, not to modules whose names merely begin alike. |
| `FilterCaches.SkippedExactlyWhen` | src/debugpy/_vendored/pydevd/pydevd.py:1374-1442 | A frame is skipped if and only if no plugin needs it, and a filter that applies says so, or it is the debugger's own and there are filters, or no filter applies and it is outside the project while libraries are filtered or the check is forced. |
| `FilterCaches.PyDb.ClearCaches` | src/debugpy/_vendored/pydevd/pydevd.py:1324-1340 | Afterwards caches and flags agree with the settings. |
| `FilterCaches.PyDb.SetProjectRoots` | src/debugpy/_vendored/pydevd/pydevd.py:1462-1464 | After the change every cached entry is right for the new roots. |
| `FilterCaches.PyDb.SetExcludeFilters` | src/debugpy/_vendored/pydevd/_pydevd_bundle/pydevd_filtering.py:330-340 | After the change caches and flags, require_module among them, are right for the new filters. |
| `FilterCaches.PyDb.SetUseLibrariesFilter` | src/debugpy/_vendored/pydevd/pydevd.py:1470-1472 | After the change caches and flags are right. |
| `FilterCaches.PyDb.SetSourceMapping` | src/debugpy/_vendored/pydevd/_pydevd_bundle/pydevd_source_mapping.py:42-83 | A source that another file maps is refused, and then nothing changes; otherwise the sources of the file are replaced and every cached entry is right for the new ones. |
| `FilterCaches.RemappedExactly` | src/debugpy/_vendored/pydevd/_pydevd_bundle/pydevd_source_mapping.py:42-83 | Afterwards a source is mapped if and only if it is one of the new ones or another file maps it, and to that file. |
| `FilterCaches.PyDb.SetPatterns` | src/debugpy/_vendored/pydevd/pydevd.py:1342-1348 | After the change every cached entry is right for the new file types. |
| `FilterCaches.KeyIsEnoughExactly` | src/debugpy/_vendored/pydevd/pydevd.py:1357-1370 | One cached verdict is right for two frames with the same exclude key under all settings if and only if their modules are equal or the file is the debugger's own: the key lacks the module. |
| `FilterCaches.WrongVerdict` | src/debugpy/_vendored/pydevd/pydevd.py:1357-1370 | The cache object gives a frame of module "b" the verdict of module "a". |
| `FilterRaces.FlagsMatter` | src/debugpy/_vendored/pydevd/pydevd.py:1393-1442 | Between setters the decision by the flags is the decision under the settings. |
| `FilterRaces.StoresWhatWasDecided` | src/debugpy/_vendored/pydevd/pydevd.py:1388-1442 | A lookup that misses decides by what it reads then; its store keeps that decision whatever happened in between, and nothing else makes an entry. |
| `FilterRaces.WrongExactlyWhen` | src/debugpy/_vendored/pydevd/pydevd.py:1324-1442 | With lookups and setters in different threads, in every interleaving, an entry is wrong if and only if it was decided differently before the last change, and its lookup spanned the change and the clearing or the change came after the clearing. |
| `FilterRaces.EntryStays` | src/debugpy/_vendored/pydevd/pydevd.py:1388-1442 | Such an entry stays until the next clearing, if no lookup for it is under way. |
| `FilterRaces.WrongWithoutSpanning` | src/debugpy/_vendored/pydevd/pydevd.py:1330-1335 | A run of set_exclude_filters with a whole lookup between the clearing and the flags: the entry is wrong although the lookup overlaps neither the change nor the clearing. |
| `CommandDrain.PostedWhereExecutable` | src/debugpy/_vendored/pydevd/pydevd.py:1598-1610 | A command of post_method_as_internal_command goes to the queue of a thread that can execute it, always. |
| `CommandThreads.WaitsForThread` | src/debugpy/_vendored/pydevd/_pydevd_bundle/pydevd_comm.py:558-560 | A command for a thread is executed by a thread if and only if its id is that thread's, or ends in a bar and that thread's; others put it back. |
| `CommandThreads.MethodWaits` | src/debugpy/_vendored/pydevd/pydevd.py:1605-1610 | A method posted for "*" is executed by any thread, every other one by its thread only. |
| `CommandThreads.WaitsForStack` | src/debugpy/_vendored/pydevd/_pydevd_bundle/pydevd_comm.py:680-705 | A stack request is put back if and only if there is no message yet and the deadline has not come. |
| `CommandThreads.QueueOfId` | src/debugpy/_vendored/pydevd/pydevd.py:1598-1603 | A frame id stands for the queue of the thread after its last bar, every other id for its own. |
| `CommandDrain.LogSplits` | src/debugpy/_vendored/pydevd/pydevd.py:1850-1862 | If no evaluation raises, the commands taken from a queue are those executed and those postponed, interleaved, each in queue order; whatever the evaluations say and whenever they change. |
| `CommandDrain.AllButStacksFixed` | src/debugpy/_vendored/pydevd/_pydevd_bundle/pydevd_comm.py:558-588 | All commands but those that wait for a stack give the same answer at every evaluation. |
| `CommandQueues.PyDb.PostInternalCommand` | src/debugpy/_vendored/pydevd/pydevd.py:1612-1619 | The command is last in its queue, and no other queue changes. |
| `CommandQueues.PyDb.RequestStack` | src/debugpy/_vendored/pydevd/_pydevd_bundle/pydevd_api.py:229-239 | A stack request is executed at once, or posted for any thread, or raises and is neither, as its first evaluation says. |
| `CommandQueues.PyDb.TakeAll` | src/debugpy/_vendored/pydevd/pydevd.py:1846-1862 | With posts between any two gets and an arbitrary answer at each evaluation, the loop ends with the queue empty, having split all it saw in order; or with the first evaluation that raises. |
| `CommandQueues.PyDb.AddBack` | src/debugpy/_vendored/pydevd/pydevd.py:1863-1866 | The postponed commands return in their order, merged with what is posted meanwhile. |
| `CommandQueues.PyDb.Drain` | src/debugpy/_vendored/pydevd/pydevd.py:1843-1866 | One queue: everything it held until found empty was evaluated in order, what was executable is returned in order, and the rest and late posts remain; or an evaluation raised, and what was taken is gone. |
| `CommandQueues.PyDb.ProcessInternalCommands` | src/debugpy/_vendored/pydevd/pydevd.py:1829-1880 | One pass ends and, whatever is posted meanwhile and whatever each evaluation answers, evaluates first and in order what every visited queue held, executes exactly what was found executable, in that order, and conserves the commands of every queue; without posts it is exactly Pass; if an evaluation raises, the commands lost are exactly those chosen before and those taken from that queue. |
| `CommandQueues.FailureLosesCommands` | src/debugpy/_vendored/pydevd/pydevd.py:1857-1862 | An evaluation that raises always loses commands. |
| `CommandQueues.EscapingPass` | src/debugpy/_vendored/pydevd/pydevd.py:1843-1862 | A pass over a command for any thread and a stack request that raises ends with the exception. |
| `CommandQueues.LosingRun` | src/debugpy/_vendored/pydevd/pydevd.py:1843-1866 | The queue object loses both commands. |
| `CommandQueues.DueCommandsExecuted` | src/debugpy/_vendored/pydevd/pydevd.py:1850-1878 | A command that waits for a stack and is evaluated after its deadline is executed by that pass. |
| `CommandPass.PassTakes` | src/debugpy/_vendored/pydevd/pydevd.py:1843-1866 | Without posts, a visited queue of commands with fixed answers gives up exactly the executable ones, in order, and keeps the others in order, even if visited twice. |
| `CommandPass.PassSkips` | src/debugpy/_vendored/pydevd/pydevd.py:1843-1866 | A queue that is not visited keeps what it has. |
| `CommandPass.VisitsByDefault` | src/debugpy/_vendored/pydevd/pydevd.py:1832-1841 | Without thread ids the current thread's queue is visited first and the one for any thread second; only the latter before the debugger is ready. |
| `CommandPass.VisitsTheGiven` | src/debugpy/_vendored/pydevd/pydevd.py:1843-1844 | Given ids, their queues are visited in that order. |
| `CommandPass.PutBackThenExecuted` | src/debugpy/_vendored/pydevd/_pydevd_bundle/pydevd_comm.py:680-705 | A stack request that one pass puts back and the next executes: why commands are put back at all. |
| `CaseResolver.ListdirCache.LookUp` | src/debugpy/_vendored/pydevd/pydevd_file_utils.py:152-168 | One part: the join cache, else the listing cache, else the directory, with the caches filled as the source does. |
| `CaseResolver.ListdirCache.ResolveListing` | src/debugpy/_vendored/pydevd/pydevd_file_utils.py:144-168 | The loop over the parts. |
| `CaseResolver.ListdirCache.ResolveListingParts` | src/debugpy/_vendored/pydevd/pydevd_file_utils.py:170-195 | Clear and retry once on a miss; give up on another error of the first attempt. |
| `CaseResolverTheorems.RealCaseUnique` | src/debugpy/_vendored/pydevd/pydevd_file_utils.py:144-168 | Two real-case paths that agree in lower case are equal, so a cached join is the only right one. |
| `CaseResolverTheorems.FoundExactlyWhen` | src/debugpy/_vendored/pydevd/pydevd_file_utils.py:144-168 | The cache-free resolver finds a path if and only if it goes on from the start by names that their directories list and that are the parts in lower case. |
| `CaseResolverTheorems.DeniedExactlyWhen` | src/debugpy/_vendored/pydevd/pydevd_file_utils.py:144-168 | It is denied if and only if some of the parts lead to a directory that may not be listed, and parts remain. |
| `CaseResolverTheorems.ResolveCachedSound` | src/debugpy/_vendored/pydevd/pydevd_file_utils.py:144-168 | With a sound cache the cached loop keeps it sound, and every answer but a miss is the cache-free one; with current listings also a miss. |
| `CaseResolverTheorems.ResolvePartsSound` | src/debugpy/_vendored/pydevd/pydevd_file_utils.py:170-195 | With clear-and-retry the result is the cache-free one, up to the one exception. |
| `CaseResolverTheorems.CachedEqualsUncached` | src/debugpy/_vendored/pydevd/pydevd_file_utils.py:144-195 | For every history of calls on a growing file system the result is the cache-free one, except that OSError escapes exactly when the way leads to a directory that may not be listed and the cache holds a listing on that way which lacks the next name. |
| `CaseResolverTheorems.ResolvedExactlyWhen` | src/debugpy/_vendored/pydevd/pydevd_file_utils.py:144-195 | So, for every history on a growing file system, the answer is a path if and only if that path is such a one. |
| `CaseResolverTheorems.MissesExactlyWhenStale` | src/debugpy/_vendored/pydevd/pydevd_file_utils.py:144-180 | On a way that ends in a denied listing, the first attempt misses if and only if some directory on it has a cached listing without the next name, and no cached join for it. |
| `CaseResolverTheorems.StaleMissRaises` | src/debugpy/_vendored/pydevd/pydevd_file_utils.py:174-180 | A history in which an OSError escapes. |
| `PathMapping.BuildEntries` | src/debugpy/_vendored/pydevd/pydevd_file_utils.py:748-775 | The loop that prepares the prefixes: all with a final slash first, then those without. |
| `PathMapping.PathMapper.MapToClient` | src/debugpy/_vendored/pydevd/pydevd_file_utils.py:838-896 | The cached translation equals the uncached one after every history. |
| `PathMapping.PathMapper.MapToServer` | src/debugpy/_vendored/pydevd/pydevd_file_utils.py:784-836 | Likewise, although the answer is stored under the name with rewritten separators. |
| `PathMapping.EntriesApart` | src/debugpy/_vendored/pydevd/pydevd_file_utils.py:653-779 | Of mappings with incomparable client roots, two prefixes are comparable only if they are the two versions of one mapping, slash first. |
| `PathMapping.SameEntry` | src/debugpy/_vendored/pydevd/pydevd_file_utils.py:795-806 | The client name of a server file is found back under the prefix it came from. |
| `PathMapping.RoundTrip` | src/debugpy/_vendored/pydevd/pydevd_file_utils.py:784-896 | Server to client to server is the identity on every name under a mapped root, for every list of mappings with pairwise incomparable client roots. |
| `PathMapping.RoundTripSameFile` | src/debugpy/_vendored/pydevd/pydevd_file_utils.py:784-896 | On a server that may ignore case: what comes back is a name of the same file, for every such list of mappings. |
| `PathMapping.EntriesRoundTrip` | src/debugpy/_vendored/pydevd/pydevd_file_utils.py:784-896 | It is the normalized server prefix followed by the rest of the real-case name. |
| `PathMapping.MappedName` | src/debugpy/_vendored/pydevd/pydevd_file_utils.py:845-880 | The client gets its own prefix as configured and the rest of the real-case name, with its own separators, by the first prefix that the normalized name starts with; and the name is marked as mapped. |
| `PathMapping.UnmappedName` | src/debugpy/_vendored/pydevd/pydevd_file_utils.py:845-880 | Without one it gets the real-case name, marked as not mapped. |
| `PathMapping.OneNamePerFile` | src/debugpy/_vendored/pydevd/pydevd_file_utils.py:838-880 | On a server that ignores case, one name however the file is spelt. |
| `PathMapping.FirstMappingWins` | src/debugpy/_vendored/pydevd/pydevd_file_utils.py:748-779 | Of mappings that apply with their slash, the first in the list is used. |
| `PathMapping.MappedToServer` | src/debugpy/_vendored/pydevd/pydevd_file_utils.py:784-817 | A name under a client prefix, case permitting, goes to the server with the server's prefix and separators, as an absolute path. |
| `PathMapping.UnmappedToServer` | src/debugpy/_vendored/pydevd/pydevd_file_utils.py:784-836 | One under none goes with the server's separators, absolute if there is such a file. |
| `PathMapping.PrefixesOf` | src/debugpy/_vendored/pydevd/pydevd_file_utils.py:748-779 | The prefixes of a mapping of absolute paths: with a final slash, and also without unless both sides have one; in normal case for comparison. |
| `PathMapping.RelativeFixed` | src/debugpy/_vendored/pydevd/pydevd_file_utils.py:653-670 | A relative side is replaced by its real path. |
| `Connections.ServerRegistry.RegisterConnection` | src/debugpy/adapter/servers.py:88-107 | Appended exactly if not disconnected already and no connection of that PID is there that is not being replaced. |
| `Connections.ServerRegistry.DisconnectConnection` | src/debugpy/adapter/servers.py:189-199 | Marked, and removed through the server or directly. |
| `Connections.ServerRegistry.RemoveConnection` | src/debugpy/adapter/servers.py:388-390 | Removed, or ValueError if it is not in the list. |
| `Connections.ServerRegistry.AttachToSession` | src/debugpy/adapter/servers.py:201-211 | Attached exactly if it was not; ValueError otherwise. |
| `Connections.ServerRegistry.DetachFromSession` | src/debugpy/adapter/servers.py:359-364 | Handlers and server field go back to the connection. |
| `Connections.StepKeeps` | src/debugpy/adapter/servers.py:63-391 | Every section of every thread keeps the registry's invariant. |
| `Connections.InvHolds` | src/debugpy/adapter/servers.py:63-391 | It holds in every interleaving. |
| `Connections.RemoveFinds` | src/debugpy/adapter/servers.py:366-391 | Where list.remove is called unconditionally, the connection is in the list. |
| `Connections.ConnectionLifecycle` | src/debugpy/adapter/servers.py:88-211 | In every interleaving: at most one connection per PID that is not being replaced; connect order; appended at most once; in the list exactly between append and removal; no ValueError. |
| `Connections.RegisteredExactlyWhen` | src/debugpy/adapter/servers.py:88-107 | In every interleaving: appended, last, if and only if not disconnected already and no listed connection of the same PID is to stay. |
| `Connections.Subprocess` | src/debugpy/adapter/servers.py:88-107 | A run in which a process and its subprocess are both listed. |
| `Connections.AttachedExactlyWhen` | src/debugpy/adapter/servers.py:201-211 | A session gets a connection if and only if no other has it, and then handlers point to the new server; otherwise nothing changes. |
| `Connections.DetachFrees` | src/debugpy/adapter/servers.py:359-364 | Detaching leaves a connection without server, its handlers its own, its place in the list kept. |
| `Connections.DetachedCanAttach` | src/debugpy/adapter/servers.py:201-211 | It can be attached to another session at once. |
| `Connections.MarksExactly` | src/debugpy/adapter/servers.py:68-82 | What the other steps record: the PID, that a process is to be replaced, what a session found. |
| `Connections.CallbackRemovesForGood` | src/debugpy/adapter/servers.py:189-199 | Once its disconnect callback has run, a connection is in no later list, whether it was registered, attached or still connecting. |
| `Connections.OnlyCallbackRemoves` | src/debugpy/adapter/servers.py:189-199 | No other step takes a connection out of the list. |
| `Connections.RemovedForGood` | src/debugpy/adapter/servers.py:189-199 | A removed connection never returns. |
| `Connections.OldestMatch` | src/debugpy/adapter/servers.py:421-450 | A look of wait_for_connection at the list finds the oldest match. |
| `DeferredEvents.Client.Reply` | src/debugpy/common/messaging.py:673-687 | A response is written and recorded at most once, and not on a lost stream. |
| `DeferredEvents.Client.HandleEvent` | src/debugpy/adapter/clients.py:115-124 | Deferred while there is a list, otherwise written. |
| `DeferredEvents.Client.PropagateDeferredEvents` | src/debugpy/adapter/clients.py:126-132 | All deferred events in order, or as many as the stream takes; the list is dropped only in the first case. |
| `DeferredEvents.Client.HandleInitialize` | src/debugpy/adapter/clients.py:147-156 | Accepted once. |
| `DeferredEvents.Client.HandleStart` | src/debugpy/adapter/clients.py:206-282 | The start handler on all its ways out. |
| `DeferredEvents.Client.HandleConfigurationDone` | src/debugpy/adapter/clients.py:581-614 | The handler with its nested try and finally, in turn and out of turn. |
| `DeferredEventsRuns.StepKeeps` | src/debugpy/adapter/clients.py:115-282 | Every handler keeps the invariants on deferral, wire, requests and start. |
| `DeferredEventsRuns.InvHolds` | src/debugpy/adapter/clients.py:115-614 | They hold in every run, for every moment at which the client may be lost. |
| `DeferredEventsRuns.EventsInOrder` | src/debugpy/adapter/clients.py:115-132 | Delivered events are an initial part of those handled, each once, in order; while the client is there, all of them or, as long as they are deferred, none. |
| `DeferredEventsRuns.NothingBeforeStart` | src/debugpy/adapter/clients.py:253-282 | Every event on the wire comes after a response that says that a launch or attach succeeded. |
| `DeferredEventsRuns.DeferralEndsWithStart` | src/debugpy/adapter/clients.py:589-614 | Deferral is over exactly when a start request succeeded whose debuggee was not already gone. |
| `DeferredEventsRuns.FailedStartDeliversNone` | src/debugpy/adapter/clients.py:253-282 | As long as no start request has succeeded, nothing was delivered. |
| `DeferredEventsRuns.AnsweredOnce` | src/debugpy/adapter/clients.py:581-614 | No request is answered twice, even when configurationDone is sent out of turn. |
| `DeferredEventsRuns.StepWrites` | src/debugpy/adapter/clients.py:115-614 | While the client takes messages, each handler writes exactly these: which request is answered, with success or failure, which events follow, and in which order. |
| `DeferredEventsRuns.StepFields` | src/debugpy/adapter/clients.py:147-614 | What each handler does to the other fields, whatever the client takes. |
| `DeferredEventsRuns.RejectedConfiguration` | src/debugpy/adapter/clients.py:589-614 | A configurationDone is left without an answer if and only if it comes in turn and the server rejects it. If every brace in the text of the rejection is doubled, the start request then fails and nothing is delivered; if not, the start request is answered with success and everything deferred is delivered. |
| `DeferredEventsRuns.NeverAnswered` | src/debugpy/adapter/clients.py:581-614 | Such a request is not answered in any later state of any run. |
| `DeferredEventsRuns.RejectedRun` | src/debugpy/adapter/clients.py:589-614 | A run that gets there, for every text. |
| `DeferredEventsRuns.BracesMakeItSucceed` | src/debugpy/common/messaging.py:501-518 | A run in which a rejection with braces makes the launch succeed. |
| `Getopt.FindShort` | src/debugpy/_vendored/pydevd/_pydev_bundle/_pydev_getopt.py:124-128 | The loop finds the first declaration of the letter. |
| `Getopt.ParseShorts` | src/debugpy/_vendored/pydevd/_pydev_bundle/_pydev_getopt.py:109-121 | The loop over a cluster of short options. |
| `Getopt.Parse` | src/debugpy/_vendored/pydevd/_pydev_bundle/_pydev_getopt.py:17-61 | The main loop, with "+" and "--", is Scan. |
| `Getopt.LongHasArgsValid` | src/debugpy/_vendored/pydevd/_pydev_bundle/_pydev_getopt.py:87-106 | An accepted abbreviation stands for a declared name, with the right need of an argument. |
| `Getopt.LongHasArgsRejects` | src/debugpy/_vendored/pydevd/_pydev_bundle/_pydev_getopt.py:87-106 | A long option is rejected exactly if it begins no declared name, or several without being one itself. |
| `Getopt.ShortHasArgExactly` | src/debugpy/_vendored/pydevd/_pydev_bundle/_pydev_getopt.py:124-128 | A letter is accepted exactly if it is declared and is not a colon; its first declaration decides about the argument. |
| `Getopt.ScanValid` | src/debugpy/_vendored/pydevd/_pydev_bundle/_pydev_getopt.py:17-121 | Every returned option is declared, under its full name, with an argument only if it takes one. |
| `Getopt.FullNameLong` | src/debugpy/_vendored/pydevd/_pydev_bundle/_pydev_getopt.py:64-81 | A long option under its full name takes the next argument if it needs one, and its absence is an error. |
| `Getopt.AttachedLong` | src/debugpy/_vendored/pydevd/_pydev_bundle/_pydev_getopt.py:64-81 | --name=value has all that follows the first "=" for its value; if the option takes none, only an empty one is accepted. |
| `Getopt.AttachedLongParses` | src/debugpy/_vendored/pydevd/_pydev_bundle/_pydev_getopt.py:17-61 | In an argument list it is one option, and the rest is parsed as if alone. |
| `Getopt.AbbreviationStandsForName` | src/debugpy/_vendored/pydevd/_pydev_bundle/_pydev_getopt.py:87-106 | A beginning of one declared name only is that name. |
| `Getopt.ClusterExactly` | src/debugpy/_vendored/pydevd/_pydev_bundle/_pydev_getopt.py:109-121 | A cluster is its first letter, if that takes no argument, and the others; the argument is the rest of the cluster, or else the next one, and its absence is an error. |
| `Getopt.AttachedShortParses` | src/debugpy/_vendored/pydevd/_pydev_bundle/_pydev_getopt.py:109-121 | -ovalue is one option with that value. |
| `Getopt.ProgramArguments` | src/debugpy/_vendored/pydevd/_pydev_bundle/_pydev_getopt.py:38-61 | What is no option, with and without "+", and after "--". |
| `Getopt.PlusSwitches` | src/debugpy/_vendored/pydevd/_pydev_bundle/_pydev_getopt.py:38-42 | A leading "+" is no option but this switch. |
| `Getopt.LoneDashVanishes` | src/debugpy/_vendored/pydevd/_pydev_bundle/_pydev_getopt.py:46-58 | Dropping a lone "-" that is reached as an argument changes nothing. |
| `Getopt.PrintParses` | src/debugpy/_vendored/pydevd/_pydev_bundle/_pydev_getopt.py:17-121 | Every list of such options, printed with "--" and any arguments, parses to itself. |
| `Getopt.ParsePrintParse` | src/debugpy/_vendored/pydevd/_pydev_bundle/_pydev_getopt.py:17-128 | Parse, print canonically, parse again: the same result, for every accepted argument list. |

## Left out

- JSON and UTF-8: bodies are opaque bytes, messages are values; the encoder, the decoder and `MessageDict` with its validators are library code or work on single values.
- Sockets, stdio, subprocesses, signals, logging and pretty-printing: they have no effect on the modelled state.
- Exceptions that end the process (`os._exit` in the parser's catch-all, for a raising handler, and in `Session.finalize`): in the channel model they have no step, so it says what holds until then; the runs of `DeferredEventsRuns` go on after a handler that raises, `NeverAnswered` included, and so cover more than the process can do.
- `on_before_send` appears only as the response handlers it may register; other things it could do under the lock are not modelled.
- ChannelTheorems.WorkerProgress: presumes that every handler returns, which nothing in the channel ensures.
- ChannelTheorems.RunWorker: the same, and nothing else takes a step meanwhile.
- Framing.LengthRoundTrip: does not model the limit of 4300 digits in Python's int(), which lies far above the accepted lengths.
- FramingObject.ReadJson: does not return from a stream that ends inside a line; the model reports the endless loop as an outcome instead.
- FilterCaches.PyDb.LookUpExclude: takes glob matching and file types as fixed functions, and excludes the file types of "<string>" code, which depend on the call stack.
- FilterCaches.PyDb.LookUpFilter: the same for plugins and project roots; no setter runs during a lookup, which is the subject of FilterRaces.
- FilterRaces.WrongExactlyWhen: takes a decision to read the settings at one moment, and one cache, cleared at one moment.
- FilterCaches.PyDb.SetSourceMapping: file names are taken as normalized, and a source occurs once in a mapping; a repeated one would make the next change raise KeyError.
- The skip caches of tracing and sys.monitoring that `_clear_caches` also clears: their contents are not part of this model.
- CaseResolver.ListdirCache.ResolveListing: paths are a root and names, so that `os.path.join` and the string form of keys are not modelled; neither are the long-name conversion of "~" and the log messages.
- PathMapping.PathMapper.MapToClient: does not model source-reference numbers and their tables, nor the switch to other functions when there are no mappings at all; real case and absolute paths are fixed functions.
- PathMapping.PathMapper.MapToServer: takes what exists on the disk as fixed; a file that appears after an untranslated name was cached makes the cached answer differ from a new one.
- PathMapping.RoundTrip: assumes a case-preserving server on which the name is already absolute and in its real case, a client normcase that works character by character, and absolute mapped roots.
- PathMapping.RoundTripSameFile: the same but for the case: a server normcase that works character by character and keeps lengths, and a real case that differs from the name in case only; so short Windows names are not covered.
- Liveness of `wait_for_connection` and `wait_until_disconnected`: two waiters share one event that each clears; only what a look at the list finds is stated.
- Connections.ServerRegistry.RemoveConnection: does not model the wait for a replacement process that comes before the removal, nor what `Session.finalize` does after it.
- DeferredEvents.Client.HandleStart: takes the body of launch and attach, and what the server answers, as an outcome; a failure response that is written after the session lock is released is part of the same step.
- DeferredEvents.Client.Write: once a write to the client has failed, later ones fail too.
- CommandQueues.PyDb.ProcessInternalCommands: ends with the list of commands to execute; what the commands do, and the bookkeeping of live threads before the drain, are not modelled. Posts by other threads are finitely many, without which a drain need not end.
- The loop of a suspended thread over its own queue (pydevd.py:2235-2270): one command at a time, with the same test.
- Stepping, breakpoints, plugins, sys.monitoring, the launcher, the command line and injection into processes: they depend on the interpreter or on code outside the modelled files.
