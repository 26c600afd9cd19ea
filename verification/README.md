# Verification of cudatrace

`cudatrace` is preloaded into a CUDA program. On the traced side every hooked call pushes a span on a per-thread
stack, prints it, and may open a function-graph window. A forked tracer follows every thread's system calls through
`ptrace`, keeps maps of the program's file descriptors, and hands a single kernel function-graph capture slot from
thread to thread. Both sides append to the same per-thread log; the tracer learns span depth and open windows only
from messages in two non-blocking pipes.

The modules follow that structure.

- `Tracefs`: the kernel's control files as a record, and the controller that drives one capture; any open, write or
  read may fail, as an oracle decides.
- `EventLoop`, `PtraceLoop`: one turn of the wait loop as a function of its state, and the loop itself with its maps,
  queue and slot updated in place, tied to that function.
- `SlotProofs`, `QueueProofs`, `Isolation`: what holds of the slot, the queue and the captured texts after every
  prefix of every run.
- `Windows`, `WindowLoss`: the window counter, the message protocol and the tracer's table of labels, as one system of
  two processes; and what the tracer knows when messages get lost.
- `CapturedCalls`: the traced threads and the event loop joined: which system calls get a file and with which label.
- `Spans`, `Scopes`, `FusedLog`: the span stack and its printer; hooked calls with windows, spans and the re-entrancy
  guard; the file that threads and tracer write together.
- `FdTables`, `PrintedCalls`: the path map and the hidden set against a kernel descriptor table, and the event loop
  beside that table: which system calls get a line.
- `Json`, `RemoteMemory`, `Words`, `Flags`, `Reindent`, `Macros`, `Prototypes`, with `Text` and `Common` below them:
  printers, readers and text loops, each proved against a reader or an independent characterisation.

What is kept outside: the order of kernel events, which accesses fail, which messages are lost, the contents of the
target's memory, whether a call is internal to the tracer, and elapsed times are parameters of the model.

Some properties one would expect do not hold in general. What decides each of them is proved:

- The documentation promises one file for each system call in a window (README.md:78). `CapturedCalls.FileWrittenIff`
  says exactly which calls get one, whatever control accesses fail and whatever messages are lost: the thread told of a
  window, it was not run while queued, and the accesses of its turn (`Tracefs.BeginSucceedsIff`) and those that read the
  text out (`Tracefs.EndSucceedsIff`) succeeded. `CapturedCalls.CallWithoutFile` shows calls in a window without a file.
- After lost window messages a label can be wrong (`Windows.LossMislabels`). As long as labels identify windows, the
  tracer's depth and labels of a thread are right if and only if the entry of every window it has open got through and
  it is as deep as it last told (`WindowLoss.RightIff`).
- A line is printed for exactly the calls that are not the tracer's own business as long as the hidden set is right, and
  that is so at every point of a run if and only if no call creates or releases a file of the tracer in a way the tracer
  does not follow (`PrintedCalls.LoopHidesIff`). A close that fails but has released its descriptor is such a call
  (`FdTables.ReleasedFdHidesUserFile`); the path map has its own condition (`FdTables.PathsStep`, `FdTables.PartialStep`).
- Tracing stays on without an owner if and only if switching it off fails twice (`Isolation.TracingLeaksIff`).
- The waiting flags match the queue unless a queued thread is set running by something other than the queue
  (`QueueProofs.AgreementStep`); the tracer itself does that when the creation of a thread is reported after the
  thread was queued at its first system call (`QueueProofs.LateSpawnWakesQueued`, reached by the run of
  `QueueProofs.ChildIsQueuedFirst`).
- Counters saturate: `Scopes.GuardRestores`, `Windows.DepthReportedIff`, `Windows.FreshLabel`.
- The saturating cursor of the string reader would double bytes of a string that fills whole chunks up to the last of
  all 2^64 addresses (`RemoteMemory.ChunksDoNotMatter`); user memory ends below that, and there the reader is always
  right (`RemoteMemory.UserMemoryIsReadRight`).

## Model

| member | source | states |
|---|---|---|
| `SlotProofs.NoLostWakeup` | src/hook/ptrace.rs:747-921 | After every prefix of every run, whatever fails, dies or cannot be read: each thread that stopped and was not resumed is queued, a non-empty queue has an active capture whose thread is not queued, nobody is queued twice. So every stopped thread that is not queued has been resumed. |
| `SlotProofs.StepKeeps` | src/hook/ptrace.rs:747-921 | One loop turn keeps the slot invariant: capturing flag exactly for the active capture's thread, which is inside the call the capture is about; waiting threads are queued and inside a call. |
| `SlotProofs.ResumePassesOn` | src/hook/ptrace.rs:1400-1439 | Passing the slot on leaves a suffix of the queue; everyone before it was resumed, a new capture belongs to the last one popped, and nobody waits beside an empty slot. |
| `SlotProofs.ServeKeeps` | src/hook/ptrace.rs:1416-1434 | A popped thread is resumed whether or not its capture begins, and only it can hold the slot afterwards. |
| `SlotProofs.EnterKeeps` | src/hook/ptrace.rs:795-837 | An entry stop keeps the slot invariant in all three outcomes; the thread is resumed unless it is queued. |
| `SlotProofs.LeaveKeeps` | src/hook/ptrace.rs:838-892 | An exit stop keeps the slot invariant, with or without a capture to finish. |
| `SlotProofs.GoneKeeps` | src/hook/ptrace.rs:760-787 | The death of any thread, capturing or queued, keeps the slot invariant. |
| `SlotProofs.HaltedHandle` | src/hook/ptrace.rs:748-921 | Every stop but an entry stop, and every report of a new thread, ends with the stopped threads resumed. |
| `QueueProofs.QueueShape` | src/hook/ptrace.rs:760-892 | How any turn changes queue and slot: threads leave only at the front and only when a capture finishes, at least one then; a newcomer goes to the back. |
| `QueueProofs.BoundedWaiting` | src/hook/ptrace.rs:1400-1439 | A thread with k threads ahead of it is out of the queue and running at some point of any run in which k+1 captures finish. |
| `QueueProofs.MovesForward` | src/hook/ptrace.rs:1412-1438 | Each finished capture moves a thread that stays queued at least one place forward; nothing moves it back. |
| `QueueProofs.NeverOvertaken` | src/hook/ptrace.rs:815-837 | Of two queued threads the earlier stays ahead for as long as it is queued, unless the later one dies. |
| `QueueProofs.SlotGoesToTheQueue` | src/hook/ptrace.rs:815-837 | While anyone is queued the slot changes hands only when a capture finishes, and then to a queued thread past which nobody is left behind. |
| `QueueProofs.HeadTakesSlot` | src/hook/ptrace.rs:1412-1438 | The head of the queue gets the slot if it still wants it and tracing can begin; nobody else is popped. |
| `QueueProofs.AgreementStep` | src/hook/ptrace.rs:798-871 | Waiting flags agree with the queue after a turn if and only if the turn is not a readable system-call stop of a queued thread. |
| `QueueProofs.LateSpawnWakesQueued` | src/hook/ptrace.rs:894-908 | A thread queued at its first call before its creation is reported is set running by that report: it makes the call uncaptured and stays behind in the queue. |
| `QueueProofs.ChildIsQueuedFirst` | src/hook/ptrace.rs:815-837 | A run from the start of tracing that queues a child before its creation is reported. |
| `QueueProofs.RunAgreement` | src/hook/ptrace.rs:798-871 | In every run in which only the queue wakes queued threads, being queued and having the waiting flag are the same. |
| `QueueProofs.HeldStep` | src/hook/ptrace.rs:832-891 | If exactly the queued threads are left stopped before a turn, then after it too, if and only if the event reports no queued thread: a thread that has to wait stays stopped, any other thread that stopped is resumed. |
| `QueueProofs.StoppedIsQueued` | src/hook/ptrace.rs:832-891 | Over every run in which only the queue wakes queued threads, the threads left stopped are exactly the queued ones. |
| `QueueProofs.GoneForgets` | src/hook/ptrace.rs:760-787 | After a thread's exit event no map, queue or capture mentions it. |
| `Isolation.CapturesAreIsolated` | src/hook/ptrace.rs:1204-1284 | In every run each text handed out is exactly its thread's events since the capture began that pass the graph filter in force; tracing is on only for the active capture's thread, unless a write of tracing_on=0 has failed. |
| `Isolation.CapturesAreFiltered` | src/hook/ptrace.rs:1215-1217 | Where the filter file is there and no access fails, every text handed out in a run was recorded below the kernel entry function of its call. |
| `Isolation.TracingLeaksIff` | src/hook/ptrace.rs:1249-1259 | Finishing a capture leaves tracing on if and only if the write of tracing_on=0 fails at the end and again in the reset. |
| `Isolation.ShutdownSwitchesOff` | src/hook/ptrace.rs:926-937 | After the loop tracing is off unless switching it off failed, and the last text is exact too. |
| `Isolation.ShutdownRestores` | src/hook/ptrace.rs:926-937 | Where the filter file is there and no access fails, the code after the loop leaves tracing off, no thread selected, no graph filter, no tracer and an empty trace. |
| `CapturedCalls.EachCallInWindowHasItsFile` | README.md:77-80 | If no control access fails, the thread is as deep as it last told and it stayed stopped while queued, a returning call has exactly one new file if it was made inside a window by the program itself, and none otherwise; the file is about that call. Losses on other threads and earlier losses of its own do not matter. |
| `CapturedCalls.FileWrittenIff` | src/hook/ptrace.rs:795-892 | Whatever fails and whatever is lost: a returning call has one file more if and only if its thread told of a window, the call is the program's own, it was not run while queued, and the accesses of its turn for the slot and of the read-out succeeded; the file is about that call and holds exactly the thread's events. |
| `CapturedCalls.CallWithoutFile` | src/hook/ptrace.rs:1218-1223 | A call in a window whose capture could not begin, or of whose window the message was lost, returns without a file. |
| `CapturedCalls.FilesAreLabelled` | src/hook/ptrace.rs:1172-1284 | Whatever control accesses fail and whatever else is lost: if the thread is as deep as it last told and the entries of its open windows got through, a file of its call is labelled with the innermost window it really has open. |
| `CapturedCalls.LeaveServes` | src/hook/ptrace.rs:872-888 | A returning call has its file if and only if it is being captured and the text can be read out. |
| `CapturedCalls.RunLinks` | src/hook/ptrace.rs:757-758 | Over every interleaving of window moves, lost messages, kernel events and loop turns the tracer knows of each thread exactly what got through, and each call to be captured waits for its turn or has had it, captured if and only if the turn's accesses succeeded. |
| `Tracefs.BeginArms` | src/hook/fgraph.rs:28-36 | A capture that begins records its thread alone from an empty buffer; one that does not begin leaves tracing on only if it was on and could not be switched off. |
| `Tracefs.BeginSucceedsIff` | src/hook/fgraph.rs:28-36 | A capture begins if and only if six accesses succeed, counted past those spent on the graph filter, whose own failures do not matter. |
| `Tracefs.BeginRunsFiltered` | src/hook/fgraph.rs:28-36 | Which graph filter a capture runs with under every pattern of failures: the one it asks for if the file is there and setting it succeeds, the old one only if the file is missing or could never be opened, none otherwise. |
| `Tracefs.FilterInForce` | src/hook/fgraph.rs:111-124 | The same for any setting of the filter. |
| `Tracefs.EndYieldsBuffer` | src/hook/fgraph.rs:38-46 | A text is handed out only with tracing off, and it is the buffer the capture left; thread filter and buffer are empty then, and the graph filter is cleared if its file can be opened. |
| `Tracefs.EndSucceedsIff` | src/hook/fgraph.rs:38-46 | The text is handed out if and only if four accesses succeed; a failing graph filter does not matter, a failing clear after the read does. |
| `Tracefs.ResetSwitchesOff` | src/hook/fgraph.rs:48-54 | A successful reset leaves tracing off, no thread filter, no tracer, no trace, and no graph filter if its file can be opened; a failing one leaves tracing on only if switching off failed. |
| `Tracefs.RecordKeepsArmed` | src/hook/fgraph.rs:28-36 | No event of another thread reaches the buffer while a capture is armed. |
| `Tracefs.TraceFsController.WriteControl` | src/hook/fgraph.rs:91-109 | Open with truncation, then write: the record after success, a failed open and a failed write. |
| `Tracefs.TraceFsController.BestEffortSetGraphFunction` | src/hook/fgraph.rs:111-124 | The filter is cleared, set, and cleared again if setting failed; failures are not reported. |
| `Tracefs.TraceFsController.BeginCapture` | src/hook/fgraph.rs:28-36 | The ordered writes with early return take the record to what the specification begins with. |
| `Tracefs.TraceFsController.EndCaptureAndRead` | src/hook/fgraph.rs:38-46 | Switching off, reading and clearing in order, as specified, under every pattern of failures. |
| `Tracefs.TraceFsController.ResetState` | src/hook/fgraph.rs:48-54 | The reset, as specified, under every pattern of failures. |
| `PtraceLoop.Tracer.RunLoop` | src/hook/ptrace.rs:747-937 | The loop in place ends in the state the step function reaches over the same events, then shuts down. |
| `PtraceLoop.Tracer.HandleEvent` | src/hook/ptrace.rs:757-921 | One turn: both pipes drained, then the event, as the step function has it. |
| `PtraceLoop.Tracer.EntryStop` | src/hook/ptrace.rs:795-837 | The entry branch on the maps, the queue and the slot. |
| `PtraceLoop.Tracer.ExitStop` | src/hook/ptrace.rs:838-892 | The exit branch: line, descriptor maps, state, capture, queue. |
| `PtraceLoop.Tracer.ThreadExited` | src/hook/ptrace.rs:760-787 | The thread's capture is finished, it is forgotten everywhere, and the slot is passed on. |
| `PtraceLoop.Tracer.MaybeResumeWaiting` | src/hook/ptrace.rs:1400-1439 | The queue loop pops, skips stale entries, resumes and stops as specified. |
| `PtraceLoop.Tracer.BeginFgraphCapture` | src/hook/ptrace.rs:1204-1234 | The slot is taken only when tracing began, under the label on top of the thread's window. |
| `PtraceLoop.Tracer.FinishActiveCapture` | src/hook/ptrace.rs:1236-1284 | The slot is free whatever fails; a file is added only with a text, and tracefs is reset otherwise. |
| `PtraceLoop.Tracer.ApplyWindowUpdate` | src/hook/ptrace.rs:1143-1170 | One window message applied to the table in place. |
| `Windows.LosslessRunRefines` | src/hook/mod.rs:17-58 | Over every interleaving of entries, exits and drains on any number of threads, once the pipe is drained the tracer holds exactly each thread's open windows. |
| `Windows.StepRefines` | src/hook/ptrace.rs:1143-1170 | Every delivered move keeps the refinement. |
| `Windows.DeliveredResync` | src/hook/ptrace.rs:1143-1170 | One delivered message makes the depth right and, if it is an entry, the innermost label; it leaves the labels below as they were. Which losses of a run make them wrong is `WindowLoss.RightIff`. |
| `Windows.DepthReportedIff` | src/hook/ptrace.rs:486-507 | A delivered message reports the nesting exactly if and only if it fits 32 bits. |
| `WindowLoss.LossyRunKnows` | src/hook/ptrace.rs:1143-1170 | Over every run with any messages lost: the stored depth is the nesting last told, so it is right if the thread's latest message got through; if also the entry of each window still open got through, depth and labels are exactly the thread's own. |
| `WindowLoss.RightIff` | src/hook/ptrace.rs:1143-1170 | For names of up to 96 bytes without NUL and unsaturated counters the converse too: depth and labels are right if and only if the entries of all open windows got through and the thread is as deep as it last told. |
| `WindowLoss.AfterFollows` | src/hook/mod.rs:31-58 | One move, heard or lost, keeps what the tracer knows in step with what got through, for every thread. |
| `Windows.LossyRunSane` | src/hook/ptrace.rs:1143-1170 | Under any loss a stored depth is at least 1 and at least the number of labels. |
| `Windows.AnyMessagesKeepSane` | src/hook/ptrace.rs:1143-1170 | The same for any message sequence at all. |
| `Windows.LostEntryIsUnheard` | src/hook/ptrace.rs:509-535 | One lost entry: the thread is in a window the tracer knows nothing of. |
| `Windows.LossMislabels` | src/hook/ptrace.rs:1143-1170 | After a lost entry an inner window that was left keeps naming the thread's outer one. |
| `Windows.BatchesDoNotMatter` | src/hook/ptrace.rs:1114-1141 | Where the drains cut the message stream makes no difference. |
| `Windows.ShortNamesSurvive` | src/hook/ptrace.rs:247-263 | A name comes back unchanged if and only if it has at most 96 bytes and no NUL. |
| `Windows.NameField.SetFunc` | src/hook/ptrace.rs:248-253 | The field holds the clipped name and zeros behind it. |
| `Windows.NameField.FuncName` | src/hook/ptrace.rs:255-262 | The name read is the part before the first NUL. |
| `Windows.RunCountsOpened` | src/hook/mod.rs:17-24 | The labels issued in a run are exactly those counted by the per-function counters. |
| `Windows.FreshLabel` | src/hook/mod.rs:17-24 | An entry gets a label never used before in the run, on any thread, if and only if its function's counter has not saturated. |
| `Spans.PerformRenders` | src/graph.rs:30-147 | From any stack that can arise, performing a forest of calls prints its recursive rendering, after the line the enclosing span still owes, publishes its depths, and gives the stack back. |
| `Spans.FileRendersCalls` | src/graph.rs:30-147 | A thread's complete file is the rendering of its calls. |
| `Spans.ParseInvertsRender` | src/graph.rs:30-147 | Lazy and eager logs parse back to the forest. |
| `Spans.LazyExpandsToEager` | src/graph.rs:120-146 | Writing each leaf line out as open and close turns the lazy log into the eager one. |
| `Spans.LateOpenUnreachable` | src/graph.rs:120-128 | A span that closes never still has its opening line to print. |
| `Spans.TextShowsShape` | src/graph.rs:156-176 | Depth and kind of a line can be read off its text, whatever arguments and results contain. |
| `Spans.TextShowsContent` | src/graph.rs:156-176 | Function, arguments, result and time stand in the text at their places and in this order. |
| `Spans.SpanStack.Enter` | src/graph.rs:30-99 | Push, parent marking and owed lines in place; the frame invariant is kept. |
| `Spans.SpanStack.Exit` | src/graph.rs:101-147 | Pop and closing lines in place; the frame invariant is kept. |
| `Scopes.CallsBalance` | src/hook/mod.rs:60-105 | Whatever is enabled, matched, nested or guarded, hooked calls produce the spans of the visible forest and the expected window messages, and restore span stack, window depth and guard counter. |
| `Scopes.BlockedCallsAreInvisible` | src/hook/mod.rs:75-88 | Under a guard no hooked call leaves a frame, a line, a window or a message. |
| `Scopes.ThreadFile` | src/hook/mod.rs:60-105 | A thread that starts idle ends idle with the rendering of its visible calls as its file. |
| `Scopes.GuardRestores` | src/reentry.rs:12-41 | Dropping a guard undoes entering it if and only if the counter was below its maximum. |
| `Scopes.HookThread.Perform` | src/hook/mod.rs:65-105 | A hooked call on the thread-local cells in place, as specified. |
| `Scopes.HookThread.EnterWindowIfMatched` | src/hook/mod.rs:31-45 | Depth counter and message of a matched entry; nothing otherwise. |
| `Scopes.HookThread.ExitWindowIfNeeded` | src/hook/mod.rs:47-58 | Depth counter and message of an exit; nothing if the entry did not match. |
| `FusedLog.FileIsFused` | src/hook/ptrace.rs:2501-2508 | If no depth message is lost, in every interleaving of a thread's hook writes, other threads and the turns of the event loop, with internal and suppressed calls, the file is well nested and each system-call line is indented by the braces open there. |
| `FusedLog.CallLineRightIff` | src/hook/ptrace.rs:847-862 | Under loss a line is indented rightly if and only if the tracer's depth is the stack height, which holds whenever the latest hook's message got through; internal and suppressed calls and all other events print nothing. |
| `FusedLog.TurnPrints` | src/hook/ptrace.rs:838-862 | What a turn of the event loop adds to the thread's file. |
| `FusedLog.RunKeeps` | src/graph.rs:75-147 | In every run what is written and what a hook still has to write nests, with as many open braces as the stack is high. |
| `FdTables.RunAgrees` | src/hook/ptrace.rs:2346-2410 | Over every run in which no call releases or creates descriptors behind the tracer's back, both maps equal the kernel table. |
| `PrintedCalls.EachForeignCallIsPrinted` | src/hook/ptrace.rs:838-870 | Over every run of the event loop, whatever descriptors other calls create and release, a returning call gets exactly one line, with its result and the thread's drained depth, if and only if it is not the tracer's own code, file or pipe; nothing else prints. No call may touch the tracer's files behind its back. |
| `PrintedCalls.LoopHidesIff` | src/hook/ptrace.rs:864-865 | The loop's hidden set is right at every point of a run if and only if no call touches the tracer's files behind its back. |
| `PrintedCalls.LoopPathsNeverLie` | src/hook/ptrace.rs:864-865 | No path in the loop's map is wrong as long as no known descriptor is released behind the tracer's back. |
| `PrintedCalls.TurnFollows` | src/hook/ptrace.rs:747-921 | After a turn a thread's depth is the one last told, and only its own readable stops begin and end its calls. |
| `PrintedCalls.OnlyReturnsPrint` | src/hook/ptrace.rs:747-921 | No event but the return of a call touches the descriptor maps or prints. |
| `FdTables.PathsStep` | src/hook/ptrace.rs:2346-2373 | One call keeps the path map equal to the kernel table if and only if it releases and creates no descriptor behind the tracer's back, as a failing close can and socket, pipe or fcntl do. |
| `FdTables.HiddenStep` | src/hook/ptrace.rs:2375-2410 | One call keeps the hidden set equal to the tracer's own live descriptors if and only if it releases and creates none of those behind the tracer's back; other descriptors may come and go. |
| `FdTables.RunHidesIff` | src/hook/ptrace.rs:2375-2410 | Over every run the hidden set is right after each call if and only if no call touches one of the tracer's files behind its back. |
| `FdTables.PartialStep` | src/hook/ptrace.rs:2346-2373 | Over one call no path in the map becomes wrong if and only if no descriptor with a known path is released behind the tracer's back. |
| `FdTables.SuppressesExactly` | src/hook/ptrace.rs:1925-1933 | While the hidden set is right a line is dropped exactly for calls on the tracer's own files and for opening them. |
| `FdTables.SubjectIff` | src/hook/ptrace.rs:2460-2468 | The descriptor looked up for a call is the one it works on: the low 32 bits, signed, of its first argument, for a mapping of its fifth. |
| `FdTables.OutputPathIff` | src/hook/ptrace.rs:2437-2450 | A path is an output path if and only if, without the marks of deletion, it has the configured path or its last component in it, followed by ".tid-". |
| `FdTables.ThreadFilesAreOutput` | src/hook/ptrace.rs:2437-2450 | The per-thread files of the tracer are output paths, wherever they are and also after they were deleted. |
| `FdTables.OtherFilesAreNot` | src/hook/ptrace.rs:2437-2450 | A path without ".tid-" in it is none. |
| `FdTables.ReleasedFdHidesUserFile` | src/hook/ptrace.rs:2385-2389 | Two calls after which a user's file is hidden. |
| `FdTables.SeedAgrees` | src/hook/ptrace.rs:2412-2435 | A seed that reads every link makes the maps agree from the start, the bootstrap descriptors being the pipe ends the target keeps. |
| `FdTables.PartialSeedNeverLies` | src/hook/ptrace.rs:2412-2435 | Whatever the seed missed and whatever other calls create, no path in the map is ever wrong as long as no known descriptor is released behind the tracer's back. |
| `FdTables.FdTracker.constructor` | src/hook/ptrace.rs:722-735 | Bootstrap descriptors and the /proc seed in place. |
| `FdTables.FdTracker.UpdateFdPaths` | src/hook/ptrace.rs:2346-2373 | The path map in place, as specified. |
| `FdTables.FdTracker.UpdateHiddenFds` | src/hook/ptrace.rs:2375-2410 | The hidden set in place, as specified. |
| `FdTables.FdTracker.DuplicateFd` | src/hook/ptrace.rs:2470-2476 | The target takes the source's path, or none if the source is unknown. |
| `Json.ObjectRoundTrip` | src/decode/ioctl_json.rs:6-51 | For any fields whose raw texts are JSON, the printed text is JSON by section 4 of RFC 8259 and reads back as an object with the same keys in the same order, each value denoting what its field was given: the same characters, truth value or number, or what the raw text says. |
| `Json.QuoteRoundTrip` | src/decode/ioctl_json.rs:54-70 | A quoted string reads back, by section 7 of RFC 8259, as the original characters, whatever follows it. |
| `Json.QuotePlain` | src/decode/ioctl_json.rs:54-70 | A string of printable characters without quotes and backslashes is printed as it is, between quotes. |
| `Json.ValueThen` | src/decode/ioctl_json.rs:39-42 | What a raw value means does not change when a comma or brace follows it. |
| `Json.JsonQuote` | src/decode/ioctl_json.rs:54-70 | The loop's text is the quoted form the round trip is about. |
| `Json.JsonObject.Push` | src/decode/ioctl_json.rs:14-37 | A field call appends one member. |
| `Json.JsonObject.PushFieldKey` | src/decode/ioctl_json.rs:44-51 | Comma except before the first key, the quoted key, a colon. |
| `Json.JsonObject.Finish` | src/decode/ioctl_json.rs:39-42 | The finished text is the object of all members pushed. |
| `Json.SignedIsNumber` | src/decode/ioctl_json.rs:24-32 | Integers print as JSON numbers. |
| `Text.DecimalReadsBack` | src/decode/ioctl_json.rs:24-32 | Decimal digits denote the number printed. |
| `Text.SignedReadsBack` | src/decode/ioctl_json.rs:24-27 | A signed decimal denotes the number printed, sign included. |
| `RemoteMemory.ChunksDoNotMatter` | src/hook/ptrace.rs:1562-1597 | For any chunk size the loop collects exactly the bytes before the first NUL, unreadable byte or limit, and knows which, if and only if the string does not fill whole chunks up to the last address. |
| `RemoteMemory.UserMemoryIsReadRight` | src/hook/ptrace.rs:1562-1597 | In memory that ends below the last address, as user memory does, the loop is right for every string and every chunk size. |
| `RemoteMemory.CStringUnique` | src/hook/ptrace.rs:1562-1597 | The specification's string is the only one with those properties, byte by byte. |
| `RemoteMemory.TopOfMemoryIsReadTwice` | src/hook/ptrace.rs:1589 | Were all 2^64 addresses readable, a string that starts one chunk below the top would be read with a byte too many. |
| `RemoteMemory.ReadRemoteCstring` | src/hook/ptrace.rs:1562-1597 | Null pointer exactly for address 0; unreadable if the first byte is; otherwise the bytes up to the first NUL, unreadable byte or 4096, if the cursor does not stick. |
| `RemoteMemory.PreviewRoundTrip` | src/hook/ptrace.rs:1622-1638 | A quoted preview reads back as its bytes, and the quote that ends it is the first one not escaped. |
| `RemoteMemory.PrintableIsPlain` | src/hook/ptrace.rs:1622-1638 | Printable bytes are shown as they are. |
| `RemoteMemory.BytesToAsciiPreview` | src/hook/ptrace.rs:1622-1638 | The loop's text is the escaped form the round trip is about. |
| `RemoteMemory.FormatBufferPreview` | src/hook/ptrace.rs:1640-1668 | No preview exactly if nothing was returned or requested; only the mark if nothing may be shown; unreadable if the first byte is; otherwise the escaped readable bytes up to the limit, marked exactly when fewer are shown than returned and than requested. |
| `Flags.ClaimsConserve` | src/hook/ptrace.rs:1860-1876 | For every word and table, named masks and remainder make up the word and share no bit. |
| `Flags.RemainderNamesNothing` | src/hook/ptrace.rs:1866-1871 | No non-zero mask of the table is wholly inside the remainder. |
| `Flags.NamedIfUntouched` | src/hook/ptrace.rs:1866-1871 | A mask nobody before it overlaps is named exactly when the word contains it. |
| `Flags.NotNamedIfTaken` | src/hook/ptrace.rs:1866-1871 | A mask inside one already claimed is not named. |
| `Flags.NameFlags` | src/hook/ptrace.rs:1866-1871 | The loop's pieces and remainder are those of the specification. |
| `Flags.OpenFlagsExact` | src/hook/ptrace.rs:1678-1721 | Open flags: every bit is shown exactly once and no named flag hides in the trailing number. |
| `Flags.AccessModeComesFirst` | src/hook/ptrace.rs:1680-1685 | Which name the two lowest bits have, and that it comes first. |
| `Flags.OverlappingOpenFlags` | src/hook/ptrace.rs:1687-1713 | Exactly when O_TMPFILE, O_SYNC, O_DSYNC and O_DIRECTORY are named, although they overlap. |
| `Flags.FormatOpenFlags` | src/hook/ptrace.rs:1678-1721 | Access mode, O_TMPFILE first, the table, the remainder, as specified. |
| `Flags.MapFlagsExact` | src/hook/ptrace.rs:1765-1812 | Mapping flags likewise, and a non-zero word never yields an empty list. |
| `Flags.MapTypeComesFirst` | src/hook/ptrace.rs:1773-1779 | Which name the four lowest bits have, and that it comes first. |
| `Flags.FormatMmapFlags` | src/hook/ptrace.rs:1765-1812 | Map type, table and remainder, as specified. |
| `Reindent.NestedTraceIsPretty` | src/hook/ptrace.rs:1286-1330 | On a nested trace each closing brace has its opener's indentation and what is between is one deeper. |
| `Reindent.BalancedTraceIsPretty` | src/hook/ptrace.rs:1286-1330 | Every trace all of whose closing braces close a block and all of whose blocks are closed is such a nested trace. |
| `Reindent.DepthIsBalanceAboveLowest` | src/hook/ptrace.rs:1315-1325 | On any trace the running indentation is the brace balance above its lowest point. |
| `Reindent.OutputLines` | src/hook/ptrace.rs:1286-1330 | The kept bodies come out in order and unchanged, one per line, behind tabs only. |
| `Reindent.SanitizeIdempotent` | src/hook/ptrace.rs:1286-1330 | Sanitizing twice changes nothing when no body contains a bar or starts with a hash or the dashes. |
| `Reindent.SanitizeFgraphTraceOutput` | src/hook/ptrace.rs:1286-1330 | The loop's text is the layout of the kept bodies, or the input when nothing is kept. |
| `Reindent.BodyOf` | src/hook/ptrace.rs:1290-1313 | A line is dropped if it starts, white space aside, with a hash or the dashes or has an arrow in it; of any other line what stands alone behind its first bar, or on the whole line without a bar, is kept if it is not empty. |
| `Reindent.BodyIff` | src/hook/ptrace.rs:1290-1313 | The same for the specification, in both directions. |
| `Reindent.SanitizedIsKept` | src/hook/ptrace.rs:1286-1330 | Every output line is tabs and what is kept of an input line, and what is kept of any input line is in the output; with nothing kept the text comes back. |
| `Reindent.BodiesInOrder` | src/hook/ptrace.rs:1289-1313 | What is kept of consecutive lines comes in their order. |
| `Reindent.LineByLine` | src/hook/ptrace.rs:1289 | A text is read line by line, with or without carriage returns. |
| `Macros.StrippedBalances` | build.rs:292-322 | Removing macro calls keeps the balance of parentheses and ends with no call left or a first one never closed. |
| `Macros.ClosingIsFirstZero` | build.rs:297-312 | The parenthesis found is where the balance first drops to zero; none is found only if it never does. |
| `Macros.StrippedAddsNothing` | build.rs:292-322 | No character appears that was not there. |
| `Macros.StrippedCuts` | build.rs:292-322 | The first call is cut out with its arguments, and nothing else is. |
| `Macros.StrippedPlain` | build.rs:292-322 | A text without a call stays as it is. |
| `Macros.RemoveMacroInvocation` | build.rs:292-322 | The loop terminates with the stripped text. |
| `Prototypes.SanitizedSplitsBack` | build.rs:267-290 | Reading a sanitized parameter list again finds exactly the parameters it declares. |
| `Prototypes.DeclaresPieces` | build.rs:267-290 | Each piece between commas is declared as it is cleaned, in order, unless nothing is left of it. |
| `Prototypes.CleanedPlain` | build.rs:274-287 | A parameter without macro and default value keeps its words, single-spaced; a lone void is dropped. |
| `Prototypes.CleanedDefault` | build.rs:281-283 | A default value is cut off with its equals sign. |
| `Prototypes.CleanedMacro` | build.rs:280 | A macro call is cut out with its arguments, wherever it stands. |
| `Prototypes.SpreadCollapses` | build.rs:324-326 | Whatever white space is between words, collapsing leaves one blank. |
| `Prototypes.SanitizeParams` | build.rs:267-290 | The loop's text is the joined list of cleaned parameters. |
| `Prototypes.ExtractParamName` | build.rs:345-371 | The identifier a parameter ends with, or none if there is none. |
| `Prototypes.NameIsUnique` | build.rs:345-371 | A parameter ends with at most one identifier. |
| `Prototypes.ParseParamNames` | build.rs:328-343 | One name for each parameter found, in order; failure only if one has no name. |
| `Prototypes.ParseMissingPrototypes` | build.rs:199-265 | Strictly ascending names, none hooked by hand; each wrapper comes from the first prototype of its name, and each such prototype with named parameters has its wrapper. |
| `Prototypes.PrototypeReads` | build.rs:207-249 | A line with a return type, a name and a parameter list in parentheses is read as just these, whatever the parameters contain, if the name has the prefix, and not at all if it has not. |
| `Prototypes.WrapperPassesItsParams` | build.rs:256-261 | Each wrapper has the prefix and passes on, in order, the name of every parameter its own list declares. |
| `Prototypes.SortedAscends` | build.rs:263 | Sorting keeps the wrappers and makes distinct names strictly ascend. |

## Left out

- Windows.LosslessRunRefines: assumes fewer than 2^32 nested windows per thread; `Windows.DepthReportedIff` shows that the bound is where a message stops being exact.
- FusedLog.FileIsFused: assumes that the calls made by hooks are classified as internal, that registers are readable at the thread's stops and that a thread inside a system call takes no step; line texts and time stamps are not in it.
- CapturedCalls.EachCallInWindowHasItsFile: counts files handed to the file system; a failing write of the file itself, and two files with the same name, are not modelled.
- CapturedCalls.FileWrittenIff: a thread the tracer has seen enter a call takes no step until its exit stop is seen, so registers are readable at both stops; fewer than 2^32 nested windows per thread.
- CapturedCalls.FilesAreLabelled: the condition for the innermost label alone is sufficient, not necessary: an entry that got through makes it right whatever is below (`Windows.DeliveredResync`); exact is the condition for the whole state of the thread.
- PrintedCalls.EachForeignCallIsPrinted: calls take effect in the order of their exit stops, and every exit stop is seen with readable registers.
- QueueProofs.BoundedWaiting: progress is counted in finished captures; a captured system call that blocks forever on a held thread is not excluded.
- FdTables.RunHidesIff: one descriptor table and calls in kernel order; tables split by fork and racing close and open are outside it.
- FdTables.SeedAgrees: the ends of the tracer's pipes that the target closes while it is attached to (src/hook/ptrace.rs:633-635) count as files of the target if the seed still lists them.
- Json.JsonQuote: characters are Unicode scalar values; UTF-8 encoding is not modelled.
- Flags.FormatOpenFlags: the pieces are modelled, not the joined text and hexadecimal digits around them.
- Flags.FormatMmapFlags: likewise.
- WindowLoss.LossyRunKnows: fewer than 2^32 nested windows per thread, as in Windows.LosslessRunRefines.
- The remaining flag printers (dup3, protection, access mode, the *at flags) are instances of `Flags.NameFlags` with other tables.
- Raw `ptrace`, `waitpid`, `fork`, pipes, symbol lookup and `process_vm_readv`: events and parameters of the model.
- The per-thread log writer, its open files and left-hand metadata; the text of system-call lines.
- File names of function-graph files beyond the label they carry, and the header lines.
- Start-up: attaching, option setting, the readiness handshake, validation of tracefs and the buffer size.
- The stack scan that tells the tracer's own calls from the program's: an input.
- Teardown of thread-local storage, where hooks are disabled.
- Hook bodies, ioctl decoders and their tables, configuration parsing, the logger.
- Rendering of C source and cargo output in build.rs; the sort is a specification function for the library's sort.
- Overflow of the kernel's ring buffer and lossy decoding of bytes that are not UTF-8.
