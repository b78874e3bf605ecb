# Verification of ssnet

ssnet is a reactor: event loops run handlers and queued tasks, a server spreads connections over
loops, a connection buffers its output, timers sit in an ordered set behind one timerfd. This project
models the four parts whose state must stay consistent over every run, and proves it.

- `LoopSpec`, `LoopLaws`, `EventLoop`: the task queue and the eventfd. `LoopSpec` is a step system for one loop
  thread and any number of other threads; a run of steps is one interleaving. `EventLoop` is the loop's
  own code as a class. Other threads run between any two of its atomic actions, and `Valid` says that
  what happened is a run of `LoopSpec`.
- `ServerSpec`, `ServerProof`, `ServerSafety`, `ServerLaws`, `TcpServer`: the hand-off of a closing connection from its
  owner loop to the base loop and back. Every loop in this world is a `LoopSpec` loop. The proof counts,
  for each connection, the tokens (tasks that must still run) in queues, batches and call stacks.
- `Composition`: one connection of `ConnSpec` inside the world of `ServerSpec`. Each of its calls is a short
  run of the world, and over joint runs each connection makes exactly one hand-off.
- `Polling`, `ConnSpec`, `ConnStreams`, `TcpConnection`: a connection, its channel and the kernel's interest table.
  `ConnSpec` states each call as a function of the state, with arbitrary kernel answers and arbitrary
  callback scripts; the class refines it method by method, on real buffers.
- `TimerSpec`, `TimerProof`, `TimerLaws`, `TimerQueue`: the timer queue. The class works on heap objects whose key
  changes; its methods refine the steps of `TimerSpec`, and a whole `handleRead` is a legal run of it.
- `Bytes`, `BufferSpec`, `Buffer`: the byte buffer with its array, its two indices and its integer codec.

Each class has a function `View` (the abstract state) and each of its methods equates the new view with a
specification function of the old one. What is then proved over whole runs is proved about those functions.
What such a function answers is proved a second time in plain numbers, bytes and event bits, from the
parameters of the call: the bytes of each integer type, what a read delivers and a write takes, the mask of
each change, the key of a restarted timer. `ConnStreams`, `LoopLaws` and `TimerLaws` do this for whole runs.
`hide` clauses only leave definitions out of single proofs.

## Assumptions

- Assertions are active: the build sets its release flags to `-O3` without `NDEBUG`
  (CMakeLists.txt:19-20), and two assertions contain the erase they check. An assertion that would fail is
  an `ok` field that turns false, and where a class method is proved, a precondition or a proved fact.
- `TcpServer::stop` is not called, and `removeConnection` is only called by the close callback.
- `shutdown` and `forceClose` are called in the connection's loop thread; a cross-thread `send` is a task
  with a copy of the data, and the caller keeps the connection alive.
- System calls are parameters: `write` returns -1 or at most what it was given, `readv` fills its first
  vector before its second, `epoll_ctl` fails only on a wrong table entry. The kernel reports events of
  registered channels only. The eventfd counter is unbounded.
- One clock serves both the timestamps and the timerfd. It does not go back, and it stands still within one
  step of `TimerSpec`: between the read of the timerfd and the read of the clock in `handleRead`, and between
  the read of the clock and the setting of the timerfd when it is armed.
- A readv takes as many of the arrived bytes as there is room for.
- Callbacks are sequences of calls on the object's own interface, arbitrary in length and content.

## Where the code does less than its comments say

- `queueInLoop` made by the loop thread writes no wakeup before `loop()`, nor while the local vector of `doTask`
  dies, because the working flag is down again by then (src/net/EventLoop.cpp:141-155). The second case is an
  ordinary one: when the last reference to a closed connection is its connectionDestroyed task,
  `~TcpConnection` runs `~Channel` there, which queues the closing of the descriptor (src/net/Channel.cpp:21-35);
  the loop then polls with that task queued and nothing due to wake it (`DyingTaskExample`).
  `SleepsExactlyOnColdPushes` is the exact condition: when nothing is due to wake a loop that polls, its queue
  holds precisely what its own thread pushed in these two places since the last swap.
  `FirstPollSleepsIffColdPush` decides the first poll.
- `shutdown` is documented (src/net/TcpConnection.h:35) to send everything and then close. It half-closes
  exactly when the output buffer is empty at the call (`ShutdownHalfClosesExactly`, `LostShutdownExample`); the
  later half-close is commented out (src/net/TcpConnection.cpp:181-183).
- `readFd` reports an error for a retry that delivered bytes; `ResultTellsTruthIff` says exactly when.
- A cancel can make a later `handleRead` hand `deleteTimer` a timer that is not in the set, which its `ok` field
  records. If the timer still exists, the assertion fails; if it is freed, the lookup reads freed memory first,
  and what follows is undefined. `SafeCancelExactly`: this can never happen after a cancel if and only if it
  names a timer of the set and, outside a batch, not one whose cancel is waiting already.
  `CancelFailsExactly` decides every cancel in every run that follows: an unsafe one does no harm exactly if it
  passes its own check and its timer is inserted before the next `handleRead`, as when a callback cancels a
  timer whose `addTimerInLoop` is still queued. `PurgeFailsExactly` does the same for one `handleRead`, in
  whatever order it visits the deferred cancels. `SelfCancelExample` is a one-shot timer that cancels itself.
- A hang-up without POLLIN that comes with POLLPRI or POLLRDHUP and is then read as end-of-stream closes a
  connection twice (`EventFailsExactly`, `ClashExample`). The channel never asks for POLLRDHUP
  (src/net/Channel.cpp:12), so only POLLPRI can bring it about; the theorems hold for all event sets.
- `connectionDestroyed` never takes its own closing branch on a server's connection
  (`DestroyRunsOnceOnClosed`).

## Model

| member | source | states |
|---|---|---|
| LoopSpec.NoLostWakeup | src/net/EventLoop.cpp:83-91 | in every interleaving a loop that polls, or is about to, with tasks queued has a positive eventfd or a pusher between its push and its write, if the loop thread queued nothing before `loop` or while a batch died |
| LoopSpec.SleepsExactlyOnColdPushes | src/net/EventLoop.cpp:83-91 | in every interleaving without exception: if nothing is due to wake a loop that polls, or is about to, its queue holds precisely what the loop thread pushed before `loop` or while a batch died, since the last swap |
| LoopSpec.DyingTaskExample | src/net/EventLoop.cpp:141-155 | a run that pushes nothing before `loop` and polls with a task that a destructor queued and nothing due to end the poll |
| LoopSpec.FirstPollSleepsIffColdPush | src/net/EventLoop.cpp:88 | with no help from other threads, the first poll is entered with a queued task and nothing due to end it if and only if the loop thread queued before `loop` |
| LoopSpec.ColdPushExample | src/net/EventLoop.cpp:83-91 | the smallest such run |
| LoopSpec.QuitNotLost | src/net/EventLoop.cpp:69-73 | in every interleaving a polling loop with the exit flag set has a positive eventfd or a quitter between its flag and its write |
| LoopSpec.TasksConserved | src/net/EventLoop.cpp:53-67 | pushes are executed tasks, then the rest of the batch, then the queue; when the loop has returned, no batch is part-run |
| LoopSpec.InvKept | src/net/EventLoop.cpp:141-155 | every atomic action, pushes while a batch dies included, keeps the interleaving invariant: the working flag covers the run phase, and whoever empties the eventfd does so before the swap |
| LoopSpec.InvAlongRun | src/net/EventLoop.cpp:53-91 | the interleaving invariant holds in every reachable state |
| LoopSpec.BatchGoalFixed | src/net/EventLoop.cpp:150-152 | what a batch will have executed in the end is fixed at the swap, whatever its tasks and other threads push |
| LoopSpec.BatchFinishedBeforePoll | src/net/EventLoop.cpp:141-155 | every task queued at the swap has started before the loop polls again |
| LoopSpec.ExitedStays | src/net/EventLoop.cpp:66 | a loop that has returned stays so |
| LoopLaws.RunAddsUp | src/net/EventLoop.cpp:53-155 | in every interleaving: the tasks handed to queueInLoop, in push order, are those started, each once, then those that wait; the eventfd holds the writes since its last read; a thread owes a write exactly from its push or quit on; the guard ends the loop iff there was a quit |
| LoopLaws.OwnPushExactly | src/net/EventLoop.cpp:83-91 | in every reachable state a push by the loop thread joins the queue and owes a wakeup exactly while a batch runs |
| EventLoops.EventLoop.Run | src/net/EventLoop.cpp:53-67 | with interference everywhere, a returned loop has seen the exit flag and has executed all pushes but those still queued; a loop left at poll with eventfd 0 and no pusher due to write it has exactly the pushes in its queue that wake nobody, and with the exit flag it has a positive eventfd or a quitter due to write it |
| EventLoops.EventLoop.Pass | src/net/EventLoop.cpp:58-64 | a pass starts every task that was queued when it began, in order |
| EventLoops.EventLoop.CheckGuard | src/net/EventLoop.cpp:57 | the loop goes on only if the exit flag was down, and has returned otherwise |
| EventLoops.EventLoop.DoTask | src/net/EventLoop.cpp:141-155 | the executed history gains at least all tasks queued at the call, the working flag is down again, and the batch has died, with whatever its destructors queue |
| EventLoops.EventLoop.DropBatch | src/net/EventLoop.cpp:144-155 | the vector dies after the flag is down; destructors may queue and quit, and nothing is executed |
| EventLoops.EventLoop.SwapTasks | src/net/EventLoop.cpp:144-148 | the batch is the whole queue and the queue is empty |
| EventLoops.EventLoop.RunBatch | src/net/EventLoop.cpp:150-152 | exactly the swapped tasks are executed, in order, while tasks and other threads push and wake |
| EventLoops.EventLoop.RunTask | src/net/EventLoop.cpp:150-152 | one task of the batch is executed; its own calls change neither batch nor history |
| EventLoops.EventLoop.QueueInLoop | src/net/EventLoop.cpp:83-91 | the task is queued behind what was queued, and the wakeup is written if a batch is running, as one legal piece of the run |
| EventLoops.EventLoop.PushTask | src/net/EventLoop.cpp:84-88 | the push, after which the loop thread owes a wakeup exactly if the working flag is up |
| EventLoops.EventLoop.Wakeup | src/net/EventLoop.cpp:127-132 | one is added to the eventfd |
| EventLoops.EventLoop.Quit | src/net/EventLoop.cpp:69-73 | the flag is set, from the loop thread |
| EventLoops.EventLoop.OtherPushes | src/net/EventLoop.cpp:83-91 | the push half of another thread's `queueInLoop`: the task is at the back of the queue and the thread owes a write for it |
| EventLoops.EventLoop.OtherWakes | src/net/EventLoop.cpp:127-132 | the eventfd half: one is added and the thread owes nothing |
| EventLoops.EventLoop.OtherQuits | src/net/EventLoop.cpp:69-73 | the flag half of another thread's `quit`: the flag is set and the thread owes a write for it |
| EventLoops.EventLoop.HandleRead | src/net/EventLoop.cpp:134-139 | reading resets the eventfd and handles the wakeup channel |
| ServerSafety.ActiveConnectionsAreAlive | src/net/TcpServer.cpp:47-69 | in every interleaving of the base loop and any owner loops: a connection in a loop's activeChannels is kept alive by the hand-off itself, one not handled yet is open, and no assertion (handleClose, connectionEstablished, the erase) has failed |
| ServerSafety.HeldUntilFinished | src/net/TcpServer.cpp:56-69 | from insertion until connectionDestroyed has run, a connection is in `_connFlags`, with at most one removal under way, or else exactly one destroy task for it is pending or running |
| ServerSafety.NothingLeaks | src/net/TcpServer.cpp:47-69 | when every loop is quiet, a connection is in `_connFlags` iff it is open, and otherwise it is destroyed and unreferenced |
| ServerSafety.DestroyedForGood | src/net/TcpServer.cpp:64-69 | an unreferenced connection has been destroyed, is disconnected with both callbacks made, is in no activeChannels, and stays so for the rest of every run; references are shared pointers |
| ServerSafety.NeverRevives | src/net/TcpServer.cpp:60-69 | no step makes a reference to an unreferenced connection |
| ServerSafety.LifeIsMonotone | src/net/TcpConnection.cpp:136-201 | the up callback comes first and once, the down callback at most once after it, and the status only moves forward, across all threads |
| ServerSafety.DestroyRunsOnceOnClosed | src/net/TcpConnection.cpp:144-155 | connectionDestroyed runs in the owner loop, at most once, on a closed connection, and changes none of its fields |
| ServerSafety.CallsNeverStick | src/net/EventLoop.cpp:75-91 | a thread inside a hand-off can always take its next micro step |
| ServerSafety.QueuedHandOffWakes | src/net/EventLoop.cpp:83-91 | a loop polling with an Establish, Remove or Destroy task queued has a positive eventfd, or some thread's very next step writes it |
| ServerSafety.StepKept | src/net/TcpServer.cpp:47-69 | every step of every thread keeps the token invariant: each connection has exactly one of: a pending open, rest, a pending removal, a pending destroy, or is finished |
| ServerSafety.RunKept | src/net/TcpServer.cpp:47-69 | the token invariant holds in every reachable world |
| ServerProof.AcceptConns | src/net/TcpServer.cpp:47-58 | a new connection gets one opening token and is in the set |
| ServerProof.OpenConns | src/net/TcpConnection.cpp:136-142 | connectionEstablished finds its connection in state Connecting, in its owner loop |
| ServerProof.CloseConns | src/net/TcpServer.cpp:60-62 | closing an open connection creates exactly one removal token |
| ServerProof.EraseConns | src/net/TcpServer.cpp:64-69 | the erase runs in the base loop, finds the connection, and turns the removal token into one destroy token |
| ServerProof.FinishConns | src/net/TcpConnection.cpp:144-155 | connectionDestroyed finds a disconnected connection that is no longer in the set and uses up the destroy token |
| ServerLaws.AcceptReaches | src/net/TcpServer.cpp:56-57 | a new connection is in the set; then it is up, if the base loop owns it, or its establishment is at the back of its owner's queue |
| ServerLaws.CloseReaches | src/net/TcpServer.cpp:60-62 | a closed connection is erased by its own thread if that is the base loop's; otherwise its removal is at the back of the base loop's queue |
| ServerLaws.EraseReaches | src/net/TcpServer.cpp:64-69 | only this connection leaves the set, and its destruction is at the back of its owner's queue |
| TcpServers.TcpServer.NewConnection | src/net/TcpServer.cpp:47-58 | the new connection is added to the set before its owner loop hears of it, and the base loop enters connectionEstablished itself or posts it to the owner; the state is ServerSpec's |
| TcpServers.TcpServer.CloseActive | src/net/TcpConnection.cpp:193-201 | an active connection that closes was open, hands itself to the base loop and stays referenced |
| TcpServers.TcpServer.RemoveConnection | src/net/TcpServer.cpp:60-62 | the removal is entered at once in the base loop and posted to it otherwise |
| TcpServers.TcpServer.RunInLoop | src/net/EventLoop.cpp:75-81 | the task runs in place in the target's thread and is pushed otherwise |
| TcpServers.TcpServer.RemoveConnectionInLoop | src/net/TcpServer.cpp:64-69 | the erase finds the connection, removes only it, and the connection stays referenced by the destroy task |
| TcpServers.TcpServer.ReadyIsOpen | src/net/Channel.cpp:37-48 | a channel that waits for its handler belongs to an open connection of the set |
| ConnSpec.OutputConserved | src/net/TcpConnection.cpp:101-134 | after every run, kernel-accepted bytes followed by the output buffer are all accepted payloads in order; every write-complete callback was queued when nothing accepted was unwritten; a connection is in the kernel table iff it is open, and asks for {IN, PRI}, and for OUT iff its output buffer is non-empty; no assertion failed |
| ConnSpec.NotedExactlyWhenDrained | src/net/TcpConnection.cpp:112-118 | if a write-complete callback is set, it is queued by the direct write that takes a whole payload and by the drain that takes the last byte, and by no other; nothing is outstanding then |
| ConnSpec.EventFailsExactly | src/net/Channel.cpp:37-48 | an event fails an assertion iff it is a hang-up without IN, with PRI or RDHUP, then read as end-of-stream; of the events that epoll can report, iff it is HUP and PRI without IN |
| ConnSpec.ClashExample | src/net/Channel.cpp:37-48 | a run from a new connection that fails so |
| ConnSpec.HangupKeeps | src/net/Channel.cpp:38-40 | after the close handler the connection is closed iff the event was an unreadable hang-up, and in order |
| ConnSpec.EventKeeps | src/net/Channel.cpp:37-48 | every other event keeps the connection invariant |
| ConnSpec.LifeMovesForward | src/net/TcpConnection.cpp:136-201 | over every run the status only moves forward, Disconnected freezes the output, the streams only grow, up comes first, down last and once |
| ConnSpec.HandedOffExactlyOnce | src/net/TcpConnection.cpp:193-201 | over every run in which connectionDestroyed is only run on closed connections, the close callback has been made once by a closed connection and never by another; `Composition.OneHandOff` shows that the server's runs are such |
| ConnSpec.ForceCloseCloses | src/net/TcpConnection.cpp:43-56 | after forceClose on an open connection, in every continuation, it is closed or a queued task closes it when run |
| ConnSpec.ShutdownHalfClosesExactly | src/net/TcpConnection.cpp:58-70 | after shutdown, in every continuation, the socket is half-closed iff the output buffer was empty at the call |
| ConnSpec.LostShutdownExample | src/net/TcpConnection.cpp:181-183 | a run in which the last byte is drained after shutdown and the socket is never half-closed |
| ConnSpec.EchoIsPrefix | src/net/TcpConnection.cpp:85-91 | with the echo callback, in every reachable state: received is written, then output buffer, then input buffer, so the output is a prefix of the input |
| ConnSpec.EchoAnswersEachRead | src/net/TcpConnection.cpp:157-168 | each echo callback on a connected connection leaves no input behind, not even bytes of an earlier silent retry; the bytes that readv delivered are received |
| ConnSpec.CallKeeps | src/net/TcpConnection.cpp:43-201 | every safe call keeps the connection invariant |
| ConnSpec.RunKeeps | src/net/TcpConnection.cpp:43-201 | the invariant holds after every safe run |
| ConnSpec.SendKeeps | src/net/TcpConnection.cpp:101-134 | sendInLoop keeps the streams, the interest mask and the status consistent for every write result |
| ConnSpec.SendEffect | src/net/TcpConnection.cpp:108-133 | a payload is cut into a written part and a buffered part, with nothing lost, repeated or reordered; SendTakesExactly says where it is cut |
| ConnSpec.SendTakesExactly | src/net/TcpConnection.cpp:101-134 | with nothing outstanding exactly the bytes that write counted are written and exactly the others are buffered; with output outstanding, or when write fails, the whole payload is buffered |
| ConnSpec.SendGivesUp | src/net/TcpConnection.cpp:103-106 | a disconnected connection drops a payload and changes nothing |
| ConnSpec.DrainTakesExactly | src/net/TcpConnection.cpp:170-191 | exactly the bytes that write took leave the front of the output buffer, and none do without write interest |
| ConnSpec.DeferredIsSent | src/net/TcpConnection.cpp:76-80 | a send from another thread on a connected connection has its payload accepted when its task runs |
| ConnSpec.CallAnswers | src/net/TcpConnection.cpp:136-155 | establishing makes the up callback and asks for IN and PRI; destroying a connected connection and a queued close of an open one disconnect it and take it out of the kernel table; each whatever the callbacks do |
| ConnSpec.ReadAnswers | src/net/TcpConnection.cpp:157-168 | delivered bytes join the input and go to the message callback; end-of-stream closes with one down and one close callback; an error changes nothing but the input that the retry delivered |
| ConnSpec.ReadKeeps | src/net/TcpConnection.cpp:157-168 | the read handler keeps the invariant iff it does not read end-of-stream on a closed connection |
| ConnSpec.WriteKeeps | src/net/TcpConnection.cpp:170-191 | the drain handler keeps the invariant for every write result |
| ConnSpec.CloseKeeps | src/net/TcpConnection.cpp:193-201 | closing an open connection disconnects it and keeps the invariant through the down callback |
| ConnStreams.StreamsAreDeeds | src/net/TcpConnection.cpp:72-191 | over every run from a new connection: what the kernel took is what each write result counts off the bytes it was offered; what was accepted is the payloads handed to sendInLoop; what was received is what readv delivered; what user code took is what it asked for; the payloads that sends from other threads promised are those handed to sendInLoop, in order, and then those that wait |
| ConnStreams.RunGrows | src/net/TcpConnection.cpp:72-191 | the same from any state |
| ConnStreams.CallGrows | src/net/TcpConnection.cpp:43-201 | the same for one call with all its callbacks, with the system calls of an event in the order close, read, write |
| ConnStreams.NoSendAfterShutdown | src/net/TcpConnection.cpp:43-83 | after shutdown or forceClose on a connected connection, in every continuation, only payloads that other threads were promised before are still accepted, in order; a closing connection that has none left waiting has accepted all of them |
| TcpConnections.TcpConnection.SendInLoop | src/net/TcpConnection.cpp:101-134 | on the real buffers and channel, the new state is the specified one: the bytes that write counted are written, the others are behind what was buffered; the input buffer is untouched |
| TcpConnections.TcpConnection.Send | src/net/TcpConnection.cpp:72-83 | true iff Connected, and then the whole payload is accepted; otherwise nothing changes |
| TcpConnections.TcpConnection.SendInput | src/net/TcpConnection.cpp:85-91 | a sent input buffer is accepted whole and emptied, an unsent one is kept |
| TcpConnections.TcpConnection.SendFromOtherThread | src/net/TcpConnection.cpp:76-79 | true iff Connected, and then a copy of the data is behind the queued ones; otherwise the queue is unchanged |
| TcpConnections.TcpConnection.RunDeferredSend | src/net/TcpConnection.cpp:97-99 | the oldest deferred payload leaves the queue and is accepted, unless the connection is disconnected |
| TcpConnections.TcpConnection.Shutdown | src/net/TcpConnection.cpp:58-63 | Connected becomes Disconnecting, with a half-close iff not writing |
| TcpConnections.TcpConnection.ShutdownInLoop | src/net/TcpConnection.cpp:65-70 | half-closes iff the channel is not writing |
| TcpConnections.TcpConnection.ForceClose | src/net/TcpConnection.cpp:43-49 | an open connection becomes Disconnecting and has a close task queued |
| TcpConnections.TcpConnection.ForceCloseInLoop | src/net/TcpConnection.cpp:51-56 | closes the connection unless it is already closed |
| TcpConnections.TcpConnection.ConnectionEstablished | src/net/TcpConnection.cpp:136-142 | Connected, reading, up callback made |
| TcpConnections.TcpConnection.ConnectionDestroyed | src/net/TcpConnection.cpp:144-155 | closes a Connected connection and leaves any other alone |
| TcpConnections.TcpConnection.HandleRead | src/net/TcpConnection.cpp:157-168 | message callback on bytes, close on end-of-stream, nothing on errors; bytes of a retry are stored; of what has arrived it takes what there is room for |
| TcpConnections.TcpConnection.ReadInput | src/net/TcpConnection.cpp:159 | what readFd took is in the input buffer and counted as received |
| TcpConnections.TcpConnection.HandleWrite | src/net/TcpConnection.cpp:170-191 | exactly the bytes that write took leave the front of the output buffer; an emptied buffer ends write interest |
| TcpConnections.TcpConnection.HandleClose | src/net/TcpConnection.cpp:193-201 | Disconnected and out of the kernel table, down callback to its end, then close callback |
| TcpConnections.TcpConnection.HandleEvent | src/net/Channel.cpp:37-48 | close, error, read, write handlers in this order, without a failed assertion for any event but the clash; no other descriptor's entry changes |
| TcpConnections.TcpConnection.OnHangup | src/net/Channel.cpp:38-40 | the close handler runs iff the hang-up is not readable |
| TcpConnections.TcpConnection.OnReadable | src/net/Channel.cpp:44-45 | the read handler runs iff IN, PRI or RDHUP was reported |
| TcpConnections.HandleBoth | src/net/EventLoop.cpp:61-63 | two connections that share a poller are handled one after the other, and neither one's handlers touch the other |
| TcpConnections.TcpConnection.Callback | src/net/TcpConnection.cpp:199 | any sequence of re-entrant calls keeps the invariant and has the specified effect |
| TcpConnections.TcpConnection.constructor | src/net/TcpConnection.cpp:24-36 | a new connection is Connecting, with empty buffers and no kernel entry |
| Composition.CallRefines | src/net/TcpConnection.cpp:43-201 | every safe call of a connection is a run of the server's world: user steps and at most one handleClose, with one close callback for each; no other connection changes, and connectionDestroyed only comes on a closed one |
| Composition.OneHandOff | src/net/TcpServer.cpp:47-69 | in every joint run of the server's threads and one connection, from its acceptance on, the close callback has been made exactly once if it is closed and not at all otherwise |
| Composition.MoveKeeps | src/net/TcpServer.cpp:47-69 | each joint step keeps both invariants and the world's view of the connection |
| Composition.AcceptCouples | src/net/TcpServer.cpp:51-57 | a connection that has just been accepted is a new connection object |
| Composition.DestroyRefines | src/net/TcpConnection.cpp:144-155 | a connectionDestroyed task of the world finds its connection object disconnected |
| Composition.ClosingEvent | src/net/Channel.cpp:37-48 | an event that closes makes one down callback and one close callback, whatever its callbacks do |
| Polling.ChangeAgrees | src/net/EPollPoller.cpp:59-72 | an enable or disable fails updateChannel's assertion exactly when it leaves an idle channel idle, and otherwise keeps entry, flag and mask in agreement |
| Polling.ChangesExactly | src/net/Channel.h:32-55 | enabling reading adds IN and PRI, writing OUT, disabling takes them away; the kernel entry is the new mask, or none for an empty one |
| Polling.TableAgreesIffSensible | src/net/EPollPoller.cpp:59-92 | for every run of enables and disables: no assertion fails iff no disable is made on an idle channel, and then the table agrees at the end |
| Polling.EPollPoller.UpdateChannel | src/net/EPollPoller.cpp:59-72 | the channel's entry and flag change as specified, and no other descriptor's entry does |
| Polling.EPollPoller.RemoveChannel | src/net/EPollPoller.cpp:74-80 | the entry goes, once, and no other one |
| Polling.EPollPoller.Ctl | src/net/EPollPoller.cpp:82-92 | one epoll_ctl on the table, touching one descriptor |
| Polling.Channel.EnableReading | src/net/Channel.h:32-35 | read bits are set and the table follows |
| Polling.Channel.DisableReading | src/net/Channel.h:37-40 | read bits are cleared and the table follows |
| Polling.Channel.EnableWriting | src/net/Channel.h:42-45 | write bits are set and the table follows |
| Polling.Channel.DisableWriting | src/net/Channel.h:47-50 | write bits are cleared and the table follows |
| Polling.Channel.DisableAll | src/net/Channel.h:52-55 | the channel leaves the table |
| TimerProof.NoTimerStranded | src/net/Timer.cpp:19-28 | outside handleRead, a non-empty set has a fired timerfd or one armed for a future deadline no later than the earliest expiration, up to the 100 microsecond floor |
| TimerProof.TimersConserved | src/net/Timer.cpp:97-165 | every id handed out is in exactly one of: waiting, the set, the running batch, freed, elsewhere; the set is sorted by expiration, then by id; no deferred cancel will miss |
| TimerProof.FreedForGood | src/net/Timer.cpp:115-118 | a freed timer is never again in the set, a batch or waiting |
| TimerProof.FiringDiscipline | src/net/Timer.cpp:120-141 | over every run: a callback runs only at a batch time at or past its expiration, a one-shot timer at most once, runs of one repeating timer at least its interval, in whole microseconds, apart |
| TimerProof.CancelledNeverFires | src/net/Timer.cpp:97-103 | a timer of the set that is cancelled never runs again, though a callback's cancel leaves it in the set until the next handleRead |
| TimerProof.CancelFailsExactly | src/net/Timer.cpp:97-127 | for every cancel and every run after it whose later cancels are safe: deleteTimer is only handed timers of the set iff the cancel is safe, or it passes its own check and its timer is inserted before the next handleRead |
| TimerProof.SafeCancelExactly | src/net/Timer.cpp:97-103 | a cancel names a timer of the set (and, outside a batch, one not already being cancelled) iff no run of safe steps after it ever hands deleteTimer a timer outside the set |
| TimerProof.PurgeFailsExactly | src/net/Timer.cpp:124-127 | deleting the deferred cancels one by one, in any order, meets a timer outside the set iff one of them names it, and else frees exactly those |
| TimerProof.LostRunsExactly | src/net/Timer.cpp:124-127 | a deferred cancel whose timer is gone is handed to deleteTimer at the next handleRead and not before |
| TimerProof.PendingRunsExactly | src/net/Timer.cpp:91-103 | a deferred cancel whose timer is not inserted yet does harm iff a handleRead comes before the insertion |
| TimerProof.SelfCancelExample | src/net/Timer.cpp:151-160 | a run from a new queue in which a timer's callback cancels it and the next handleRead is handed the freed timer |
| TimerProof.CancelInBatchIsFatal | src/net/Timer.cpp:151-160 | cancelling a timer of the running batch or a freed one from a callback makes the next handleRead hand over a freed timer in every continuation |
| TimerProof.StepKept | src/net/Timer.cpp:91-165 | every safe step keeps ownership, alarm, log and cancel invariants |
| TimerProof.RunKept | src/net/Timer.cpp:91-165 | the invariants hold after every safe run |
| TimerProof.ReinsertKeeps | src/net/Timer.cpp:151-160 | reset leaves a strictly sorted set that gained exactly the restarted timers |
| TimerProof.RunLog | src/net/Timer.cpp:135-136 | the timer that runs next is due, and has rested its interval since each earlier run |
| TimerProof.EndLog | src/net/Timer.cpp:151-165 | restarting with the batch time keeps every pair of runs an interval apart |
| TimerLaws.FiresOnSchedule | src/net/Timer.cpp:80-165 | over every safe run after addTimer: the timer's first run is for the expiration it was given, each later one is due its interval, in whole microseconds, after the batch time of the run before |
| TimerLaws.RunEveryKeepsPace | src/net/EventLoop.cpp:103-107 | over every safe run after runEvery the n-th run of the timer is at least n intervals, in whole microseconds, after the call |
| TimerLaws.RepeatingNeverLost | src/net/Timer.cpp:80-165 | from its creation on, a timer with an interval above zero that is not cancelled waits to be inserted or, once it was inserted, is in the set or in the running batch |
| TimerLaws.RepeatingStays | src/net/Timer.cpp:120-165 | the same for a timer that is in the set already |
| TimerLaws.RepeatingGoesBack | src/net/Timer.cpp:151-160 | such a timer of the batch is in the set after reset, keyed by the batch time plus its interval times a million, rounded down |
| TimerLaws.EndExactly | src/net/Timer.cpp:151-165 | reset in full: the timers that go back and their keys, the timers that are freed, and that the others stay; the set is sorted and the timerfd armed for its head, at least 100 microseconds ahead |
| TimerLaws.AddTimerExactly | src/net/Timer.cpp:80-95 | addTimer and addTimerInLoop: the set gains one timer with the given expiration and interval, and the timerfd is armed for it iff it expires before every other timer |
| TimerLaws.CancelExactly | src/net/Timer.cpp:97-103 | a cancel outside a batch takes exactly its timer out of the set and frees it; in a callback it is only noted |
| TimerLaws.BeginExactly | src/net/Timer.cpp:120-131 | handleRead's first half: cancelled timers are freed, the batch is what is due by the clock, sorted, and the rest stays |
| TimerLaws.AlarmRings | src/net/Timer.cpp:19-28 | a timerfd armed for an expiration has fired exactly from that time on, and not within 100 microseconds |
| TimerSpec.ExpiredExactly | src/net/Timer.cpp:143-149 | the split at the sentinel takes precisely the timers with expiration at most now, in order, because the sentinel's id is above every id in the set |
| TimerSpec.DeleteAllExactly | src/net/Timer.cpp:124-127 | the loop of deletes succeeds iff every id is in the set, and then removes and frees all of them and nothing else, in whatever order |
| TimerSpec.DueExactly | src/net/Timer.cpp:120-131 | what handleRead takes is exactly the timers that are due and not cancelled, in their order in the set |
| TimerSpec.LowerBoundSplits | src/net/Timer.cpp:145 | everything below a key with a fresh id is due, everything else is not |
| TimerSpec.InsertOrdered | src/net/Timer.cpp:111 | inserting a timer with a new id keeps the set strictly sorted |
| TimerSpec.InsertMembers | src/net/Timer.cpp:111 | and adds exactly that timer |
| TimerSpec.InsertHead | src/net/Timer.cpp:105-113 | a newcomer that insertTimer reports as earliest leads the set; after any other the earliest expiration is what it was |
| TimerSpec.OrderedPairs | src/net/Timer.cpp:57-62 | a sorted set is pairwise ordered by expiration, then by creation |
| TimerQueues.Before | src/net/Timer.cpp:57-62 | the comparator on heap objects is the order on their values |
| TimerQueues.InsertAt | src/net/Timer.cpp:111 | inserting at the lower bound is set insertion |
| TimerQueues.WithoutAt | src/net/Timer.cpp:116 | erasing at a timer's position erases its id |
| TimerQueues.Timer.constructor | src/net/Timer.h:57-62 | takes the next id and bumps the counter |
| TimerQueues.Timer.Restart | src/net/Timer.h:72-78 | a timer with an interval above zero gets now plus its interval in whole microseconds, another one the invalid time |
| TimerQueues.TimerQueue.Create | src/net/Timer.cpp:80-85 | a new timer with a fresh id, the given expiration and the given interval waits for its insertion |
| TimerQueues.TimerQueue.AddTimerInLoop | src/net/Timer.cpp:91-95 | inserted, and the timerfd armed for it iff it expires before every other timer |
| TimerQueues.TimerQueue.Place | src/net/Timer.cpp:91-95 | the same on the set and the timerfd alone |
| TimerQueues.TimerQueue.InsertTimer | src/net/Timer.cpp:105-113 | the set of objects gains exactly this one, in order, and the result says whether it expires before every other |
| TimerQueues.TimerQueue.LowerBoundOf | src/net/Timer.cpp:145 | the first position not below the key |
| TimerQueues.TimerQueue.ResetTimerfd | src/net/Timer.cpp:44-55 | armed for the expiration but at least 100 microseconds ahead, and no longer fired |
| TimerQueues.TimerQueue.CancelInLoop | src/net/Timer.cpp:97-103 | any cancel in a callback is deferred, and outside a batch the timer is erased and freed; the queue stays in order iff the cancel is safe |
| TimerQueues.TimerQueue.DeleteTimer | src/net/Timer.cpp:115-118 | the erase finds the object, removes only it, and it is freed |
| TimerQueues.TimerQueue.PurgeCanceled | src/net/Timer.cpp:124-127 | all deferred cancels are erased and freed, in any order |
| TimerQueues.TimerQueue.GetExpired | src/net/Timer.cpp:143-149 | a prefix of the set up to the sentinel leaves it, and the sentinel uses up an id |
| TimerQueues.TimerQueue.BeginRead | src/net/Timer.cpp:120-131 | read, purge and extraction as one step of TimerSpec, for any order of the deferred cancels; the batch is what was due |
| TimerQueues.TimerQueue.RunTimer | src/net/Timer.cpp:135-136 | the next timer of the batch is logged as run at the batch's time |
| TimerQueues.TimerQueue.RunBatch | src/net/Timer.cpp:133-137 | every timer of the batch runs once, in order, whatever the callbacks do |
| TimerQueues.TimerQueue.ResetOne | src/net/Timer.cpp:153-160 | one object of the batch gets its new key outside the set and goes back in order, or is freed |
| TimerQueues.TimerQueue.Reset | src/net/Timer.cpp:151-165 | the set gains the restarted timers, the others are freed, no other object changes, and the timerfd is armed for the new earliest |
| TimerQueues.TimerQueue.EndRead | src/net/Timer.cpp:139-141 | reset and the end of the batch as one step of TimerSpec |
| TimerQueues.TimerQueue.HandleRead | src/net/Timer.cpp:120-141 | the whole call, with arbitrary callbacks, is a legal safe run of TimerSpec and fires exactly the timers that were due and not cancelled, in order |
| TimerLaws.FiringsAreDue | src/net/Timer.cpp:120-137 | what a handleRead fires, spelled out: each timer due by the clock and not cancelled, once, with its own id, expiration and interval, in order of expiration and then of id |
| TimerQueues.TimerQueue.constructor | src/net/Timer.cpp:64-71 | an empty queue |
| BufferSpec.BufferIsQueue | src/net/Buffer.h:38-60 | over every run of append, retrieve, retrieveAll and readFd the readable slice is the plain byte queue; a read adds the bytes that the first readv delivered or, if it failed, the retry |
| BufferSpec.ReadAddsDelivered | src/net/Buffer.cpp:9-51 | readFd adds exactly the delivered bytes behind the readable ones, and its result is the first count or -1 |
| BufferSpec.RoomExactly | src/net/Buffer.cpp:10-20 | a readv is offered the writable bytes, and a 65536 byte spill area if those are fewer |
| BufferSpec.RetrieveExactly | src/net/Buffer.h:38-54 | exactly the front bytes go; the reader advances, or rewinds when nothing is left |
| BufferSpec.EnsureExactly | src/net/Buffer.h:198-220 | nothing happens if the bytes fit behind; the contents move to the front if they then fit; otherwise the buffer grows to the larger of twice its size and what is needed |
| BufferSpec.GrowthBounds | src/net/Buffer.h:198-220 | reallocations copy no more bytes in total than the capacity that was added; capacity never exceeds the larger of the initial size and twice the largest readable length |
| BufferSpec.GrowthOfOne | src/net/Buffer.h:198-220 | one operation pays for its copying with new capacity, and grows to at most twice what it then holds |
| BufferSpec.ResultTellsTruthIff | src/net/Buffer.cpp:20-50 | readFd's result is positive exactly when bytes arrived, unless the first readv failed and the retry delivered bytes |
| BufferSpec.SilentRetryExample | src/net/Buffer.cpp:26-33 | such a call |
| BufferSpec.TypedBufferIsTypedQueue | src/net/Buffer.h:62-183 | any interleaving of typed appends and matching typed reads behaves as the queue of the values, and leaves the encoding of what is pending |
| BufferSpec.ListRoundTrip | src/net/Buffer.h:62-183 | reading the types of an appended list returns the list and leaves later bytes untouched |
| BufferSpec.OldestItemReads | src/net/Buffer.h:145-183 | a typed read returns the oldest pending value and removes only its bytes |
| BufferSpec.Ensure | src/net/Buffer.h:198-220 | there is room for len bytes and the readable bytes are the same |
| BufferSpec.Taken | src/net/Buffer.cpp:10-20 | what readv takes fits the room offered, is a prefix of what arrived, and is all of it if that fits |
| BufferSpec.Absorb | src/net/Buffer.cpp:27-47 | bytes that arrived in place and in the spill area follow the readable ones |
| Bytes.DecodeEncode | src/net/Buffer.h:100-142 | decoding inverts encoding on every value of the eight types |
| Bytes.EncodeDecode | src/net/Buffer.h:62-98 | encoding inverts decoding on every byte string of the type's size |
| Bytes.Ranges | src/net/Buffer.h:62-98 | the value range of each of the eight types, in numbers |
| Bytes.Wire8And16 | src/net/Buffer.h:62-78 | the bytes of each 8- and 16-bit value: the number modulo 256, and the quotient by 256 before it, two's complement for negative ones |
| Bytes.Wire32 | src/net/Buffer.h:80-88 | the four bytes of each 32-bit value, most significant first |
| Bytes.Wire64 | src/net/Buffer.h:90-98 | the eight bytes of each 64-bit value, most significant first |
| Bytes.ValueOfBigEndian | src/net/Buffer.h:71 | network order denotes the number |
| BufferImpl.CopyForward | src/net/Buffer.h:205 | the ascending copy is right for overlapping ranges that move forward in one array |
| BufferImpl.Buffer.constructor | src/net/Buffer.h:20-23 | empty, with the given size |
| BufferImpl.Buffer.EnsureWritableBytes | src/net/Buffer.h:198-220 | nothing, in-place compaction or reallocation as specified |
| BufferImpl.Buffer.Append | src/net/Buffer.h:56-60 | the bytes follow the readable ones |
| BufferImpl.Buffer.Retrieve | src/net/Buffer.h:48-54 | the front bytes go; an emptied buffer rewinds both indices |
| BufferImpl.Buffer.RetrieveAll | src/net/Buffer.h:38-40 | empty and rewound |
| BufferImpl.Buffer.RetrieveAllAsString | src/net/Buffer.h:42-46 | returns what was readable and empties |
| BufferImpl.Buffer.Readv | src/net/Buffer.cpp:10-20 | the kernel fills the writable part first and the spill area second, and touches no readable byte |
| BufferImpl.Buffer.Accept | src/net/Buffer.cpp:28-33 | counted in place, and the spilled rest appended |
| BufferImpl.Buffer.ReadFd | src/net/Buffer.cpp:9-51 | the bytes that the first readv delivered, or else the retry, follow the readable ones; the result is the first count or -1 |
| BufferImpl.Buffer.AppendInt | src/net/Buffer.h:62-98 | the value's encoding, whose bytes `Bytes.Wire8And16`, `Wire32` and `Wire64` give, is behind what was readable |
| BufferImpl.Buffer.PeekInt | src/net/Buffer.h:100-142 | the value whose encoding is at the front, without removing it |
| BufferImpl.Buffer.ReadInt | src/net/Buffer.h:145-183 | what was readable was the encoding of the result, and the rest is left |

## Left out

- Run: `EventLoops.EventLoop.Run` makes at most `passes` passes, since a loop that nobody stops does not end; `LoopSpec` covers runs of every length.
- NoLostWakeup: excludes pushes by the loop thread before `loop` and while a batch dies, for which it is false; `SleepsExactlyOnColdPushes` has no exclusion.
- OutputConserved: excludes the one event set of `EventFailsExactly`.
- CallRefines: sends from other threads are seen by the world only when they run.
- CancelFromCallback: the script of a callback names timers by id, and a cancel of one that is not in the set is not made; `CancelInLoop` and `TimerSpec` have such cancels.
- Quit: `EventLoops.EventLoop.Quit` is the loop thread's call; other threads' calls are `OtherQuits` and `OtherWakes`.
- TcpServers.TcpServer.Elsewhere: what threads do outside the server's own code is taken from `ServerSpec`, on values; the loops of a server are not objects of class `EventLoop`.
- `TcpServer::start`, `stop`, thread pools and the choice of the owner loop (any choice is allowed); `Acceptor`, `Connector`, `TcpClient`, `EndPoint`, `ISocket`, `TcpSocket`, `Logger`.
- The end of life of a connection is the single fact that no shared pointer to it is left. The task that `~Channel` queues is a task like any other that a destructor queues while a batch dies; what it does (it closes the descriptor, which `~TcpSocket` also does, through a plain pointer to the dead channel) is not modelled.
- The timers' own channel, and the poller's event vector with its resizing.
- `peekInt16` calls itself and never returns; reading a signed 16-bit value is modelled as `readInt16` through `readUint16`.
- Wrap-around of timer ids and of `size_t`; floating-point intervals are reals truncated to whole microseconds.
- Several timer queues that share the id counter while in use: `TimerSpec` has them (ids taken elsewhere), the class takes the counter's value at construction.
- Poll timeouts other than as a return of poll that reports nothing.
