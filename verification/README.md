# A verified model of the reactor and its proxies

The repository is a small event-driven network library in C++ (one `EventLoop` per thread, non-blocking
`TcpConnection`s over a growable `Buffer`, a `TimerQueue` on a timerfd) with two proxies on top: a layer-4
balancer that picks backends round-robin among the healthy ones, and an HTTP proxy that routes by path and
rewrites the `Host` line. This project models the parts of it that hold state over time and proves what they
keep, over every run: every answer of the kernel, every way TCP cuts a stream, every interleaving of threads,
every script a callback may follow.

The code changes objects in place, so each stateful class of the C++ code is a Dafny class. What its methods do is
stated by functions on values, every method is proved against its function, and the theorems are about those
functions and about runs of them.

| file | what it models |
|---|---|
| `TimerQueue.dfy`, `TimerQueueClass.dfy` | `TimerQueue`: two ordered indexes over heap timers, the timerfd, callbacks that re-enter |
| `TimerAlarm.dfy` | when the timerfd is armed and for when, and for when timers are set |
| `Buffer.dfy` | `Buffer`: one block, two indexes, refined to a byte queue |
| `Connection.dfy`, `TcpConnection.dfy` | `TcpConnection`: states, partial writes, write interest, high-water mark |
| `HttpText.dfy` | `parseHeader`, `parsePath`, `modifyRequestForBackend` on a stream that is still arriving |
| `Relay.dfy`, `ProxyHandler.dfy` | `LoadBalancerHandler` and `HttpProxyHandler`: two connections wired to each other |
| `RelayRouting.dfy` | which clients get a backend, when, and where: the routing table, the port check, the first phase, the one dial |
| `RelayEndings.dfy` | what becomes of one side of a relay when the other ends or is shut down |
| `RelayPauses.dfy` | which paused sides of a relay are resumed, and by what |
| `IdleTimer.dfy` | the idle timeout of `LoadBalancerHandler`, on the timer queue |
| `EventLoop.dfy` | the task queue, the eventfd and `quit()` as a protocol between any number of threads, and the class |
| `LoadBalancer.dfy` | `LoadBalancer`: round robin under health churn |

The kernel is an oracle in every module: a write takes any prefix, would block, or fails; a read delivers any
bytes, the end of the stream, or an error; `operator new` returns any address that is not in use, so also one that
was freed; the clock never goes back.

## What the proofs found

The code is modelled as it is. Where it does not do what one would expect, the exact condition is proved.

- A timer cancelled between `addTimer` and the posted `addTimerInLoop` fires all the same. A cancellation
  deletes a living timer exactly when its insertion has run and it is not in the batch that is firing
  (`Timers.CancelWorksOnceInserted`, `Timers.CancelBeforeInsertionIsLost`).
- A timer cancelled by an earlier callback of the same batch still runs in that batch, and never again
  (`Timers.CancelWhileFiringIsFinal`); any timer that is in the index when a callback cancels it, also one that a
  callback of the same batch added, runs no more (`Timers.CancelFromCallbackIsFinal`).
- `quit()` called by a queued task can be left waiting in the poll: it does not write the eventfd on the loop thread,
  and `quit_` is not looked at between the drain and the poll, so the request is seen at the next event or when
  `epoll_wait` gives up after 10 seconds. It happens exactly when no wakeup is outstanding
  (`EventLoops.QuitCanBeSleptThrough`). A `quit()` is forgotten altogether exactly when it comes before `loop()`
  (`EventLoops.QuitIsLostExactlyBeforeLoop`).
- A client that back-pressure has paused has its reading turned on again in some continuation exactly while both
  connections are open (`RelayPauses.PauseEndsExactly`). So when the backend dies while its client is paused, in either
  proxy, EPOLLIN is never requested for the client again; runs of 64 KiB reads that get there are given
  (`RelayPauses.L4PauseIsReached`, `RelayPauses.HttpPauseIsReached`).
- `shutdown()` only changes the state, and neither proxy closes a client connection: not after a timeout, not after a
  404, not when the backend closes. In every run of either, a client connection ends only by its own faults
  (`RelayEndings.OnlyFaultsEndTheClient`). A client that was shut down takes nothing more to send
  (`RelayEndings.ShutForGood`), but a client that timed out is still read and all it sends is still forwarded
  (`RelayEndings.TimedOutIsStillForwarded`).
- What the balancer passes on from one side to the other is thus a refusal to send, not a close
  (`RelayEndings.L4RefusalTravels`), and not even that when the posted dial runs after its client has died: exactly
  when a dead client may still get an open backend is proved (`RelayEndings.DeadClientDialsExactly`).
- In the HTTP proxy no close callback is set on the backend. Nothing that happens to the backend changes the state of
  the client connection (`RelayEndings.HttpClientNeverHears`), and from a backend's death on everything the client
  sends is kept and nothing is forwarded (`RelayEndings.HttpBackendDeathIsUnheard`), although the comment at
  `src/app/http_proxy_handler.cpp:257-261` says that the client is shut down: a connection callback is called on
  connecting only.
- When the backend speaks before the client, the client's first message cancels the wrong timer, and the forgotten
  one shuts an active client connection down 60 seconds after the backend's message. That is the only way it can
  happen (`IdleTimers.OrphanedExactlyBy`, `IdleTimers.ForgottenTimerFires`, `IdleTimers.OnlyTheIdleTimeOut`). For the
  same reason an idle timer can outlive its client connection, whose `onClose` then cancels the wrong one too
  (`IdleTimers.CloseForgetsExactly`, `IdleTimers.OutlivingTimerFires`).
- Rewriting what has arrived and forwarding the rest unchanged equals rewriting the whole request exactly when the
  host line is complete in what has arrived (`HttpText.RewriteIffComplete`); the proxy's guard implies that.
- The search for `Host: ` is literal. The line that is rewritten is that of the `Host` field (section 7.2 of RFC 9110;
  here a `Host: ` at the start of a line) exactly when no `Host: ` occurs before it
  (`HttpText.RewritesTheHostFieldIff`); `X-Forwarded-Host: ` is an occurrence (`HttpText.ForwardedHostIsRewritten`).
- The comment at `src/net/event_loop.cpp:143` says edge-triggered; the code requests level-triggered events, and the
  model follows the code. `calling_pending_functors_` is not initialised by the constructor; the model starts it false.

## Model

| member | source | states |
|---|---|---|
| Timers.TimersAreSafe | src/net/timer_queue.cpp:88-175 | After any run of additions, cancellations and firings, with callbacks that add and cancel and with addresses reused: `timers_` and `activeTimers_` hold the same living timers, each under its current expiration; every living timer is in exactly one of a posted insertion and the indexes; each deleted timer was deleted once; no dead timer was ever used |
| Timers.RunBatchKeepsSafe | src/net/timer_queue.cpp:114-119 | While a batch fires, its timers belong to the batch and to nothing else, whatever the callbacks do |
| Timers.RecycleKeepsSafe | src/net/timer_queue.cpp:142-154 | `reset` gives every timer of the batch back to the indexes or deletes it, and leaves none over |
| Timers.InsertEffect | src/net/timer_queue.cpp:165-175 | The ordered set stays sorted and gains exactly the new entry, which is first exactly when it is less than the old first |
| Timers.EraseEffect | src/net/timer_queue.cpp:99 | The ordered set stays sorted and loses exactly the erased entry |
| Timers.DueIsExact | src/net/timer_queue.cpp:124-133 | The sentinel cuts the index so that exactly the entries due by then come out, in order, and the rest stay |
| Timers.HowMuchTimeFromNow | src/net/timer_queue.cpp:22-34 | The timespec is normalised, never zero, and stands for the later of the expiration and 100 microseconds from now |
| TimerAlarms.NoLostAlarm | src/net/timer_queue.cpp:88-106 | Between any two events, a waiting timer means an armed timerfd, with a deadline no later than the earliest expiration or 100 microseconds after arming; for every expiration, also past or negative ones |
| TimerAlarms.RearmGuards | src/net/timer_queue.cpp:156-162 | The end of `reset` restores the alarm although it arms only for positive expirations |
| TimerAlarms.AlarmIsExact | src/net/timer_queue.cpp:48-58 | Over any run without cancellations the timerfd is armed for exactly the earliest expiration, or 100 microseconds after the arming if that is later |
| TimerAlarms.AddArmsExactly | src/net/timer_queue.cpp:88-93 | An insertion arms the timerfd exactly when the new timer expires before all others, then for it, and counted from the current time; otherwise it leaves the alarm alone |
| TimerAlarms.OthersNeverArm | src/net/timer_queue.cpp:77-106 | No other operation outside a firing arms or disarms the timerfd |
| TimerAlarms.FireArmsExactly | src/net/timer_queue.cpp:108-163 | A firing reads an expiration that has come, and ends with the timerfd armed, from that moment, for exactly the first timer left, if that expires at a positive time |
| TimerAlarms.AlarmOverRuns | src/net/timer_queue.cpp:48-58 | The two as one statement about every event after every run: whatever changes the alarm outside a firing is an insertion, and arms it at the current clock for max(earliest expiration, clock + 100) |
| TimerAlarms.AddedForItsTime | src/net/timer_queue.cpp:77-93 | A new timer is inserted for the time and the interval it was created with, and repeats exactly when the interval is positive |
| TimerAlarms.RepeatsOnTime | src/net/timer_queue.cpp:142-154 | A repeating timer that fires and is not cancelled in the batch is in the index again, for exactly one interval after the firing |
| TimerAlarms.QuietBetweenEvents | src/net/timer_queue.cpp:108-122 | Between events no batch is firing |
| Timers.Micros | src/net/timestamp.h:44-48 | Seconds become whole microseconds, the rest cut off towards zero |
| Timers.FiringIsExact | src/net/timer_queue.cpp:108-154 | One firing runs exactly the due timers, once each, in order of expiration, also those cancelled by an earlier callback of the batch; a fired timer remains exactly when it repeats and no callback of the batch cancelled its id |
| Timers.CancelWorksOnceInserted | src/net/timer_queue.cpp:95-106 | Between events and from any callback, cancelling a living timer deletes it if and only if its insertion has run and it is not in the batch that is firing |
| Timers.CancelIsFinal | src/net/timer_queue.cpp:95-106 | The record of a timer cancelled between events is frozen over any continuation |
| Timers.CancelWhileFiringIsFinal | src/net/timer_queue.cpp:114-119 | A timer that is in the index when a firing starts and that a callback of it cancels runs once more exactly when it is in the batch, and then never again |
| Timers.CancelMidBatchIsFinal | src/net/timer_queue.cpp:95-122 | In any state in the middle of a batch: cancelling a timer that is in the index freezes its record through the rest of the callback, of the batch, of `reset` and of any run |
| Timers.CancelFromCallbackIsFinal | src/net/timer_queue.cpp:95-122 | The same over whole firings, at any point of any callback, also for a timer that a callback of the same batch added |
| Timers.CancelBeforeInsertionIsLost | src/net/timer_queue.cpp:77-86 | A cancellation that overtakes the posted insertion has no effect: the timer is inserted and fires |
| Timers.StaleCancel | src/net/timer_queue.cpp:95-106 | Between events and from any callback: an id that names no indexed timer changes neither index nor any timer, and what it leaves in the set of cancelled ids suppresses the repeat of no other timer, also when its address is in use again |
| Timers.NeverAgain | src/net/timer.cpp:7-13 | The record of a deleted timer never changes, whoever lives at its address |
| Timers.RateBound | src/net/timer_queue.cpp:108-154 | No timer runs early; consecutive runs are an interval apart; one that has run N times was first due at least (N - 1) intervals ago |
| TimerQueues.TimerQueue.AddTimer | src/net/timer_queue.cpp:77-82 | A new timer with a new sequence number, its insertion posted; the state stays safe |
| TimerQueues.TimerQueue.AddTimerInLoop | src/net/timer_queue.cpp:88-93 | Does what the model's insertion says, and keeps the queue safe |
| TimerQueues.TimerQueue.CancelInLoop | src/net/timer_queue.cpp:95-106 | Does what the model's cancellation says, dereferencing only living timers |
| TimerQueues.TimerQueue.GetExpired | src/net/timer_queue.cpp:124-140 | Takes out the due entries; afterwards they belong to the batch |
| TimerQueues.TimerQueue.Reset | src/net/timer_queue.cpp:142-163 | Restarts or deletes every timer of the batch and arms for the earliest |
| TimerQueues.TimerQueue.Insert | src/net/timer_queue.cpp:165-175 | Both indexes gain the timer; the answer says whether the earliest changed |
| TimerQueues.TimerQueue.Restart | src/net/timer.cpp:7-13 | A repeating timer moves to one interval from now |
| TimerQueues.TimerQueue.ResetTimerfd | src/net/timer_queue.cpp:48-58 | Arms the timerfd for the expiration, or for 100 microseconds from now if that is later |
| TimerQueues.TimerQueue.ReadTimerfd | src/net/timer_queue.cpp:39-46 | Consumes an expiration, if there has been one |
| TimerQueues.TimerQueue.HandleRead | src/net/timer_queue.cpp:108-122 | The whole firing, with callbacks that add, cancel and take time, refines the model's and never touches a dead timer |
| Buffers.Buffer.constructor | src/net/buffer.cpp:8-20 | An empty queue with the prepend area in front |
| Buffers.Buffer.Retrieve | src/net/buffer.cpp:43-52 | Drops a prefix of the queue, all of it when asked for more |
| Buffers.Buffer.RetrieveUntil | src/net/buffer.cpp:55-59 | Drops the bytes up to a position |
| Buffers.Buffer.RetrieveAll | src/net/buffer.cpp:60-63 | Empties the queue |
| Buffers.Buffer.RetrieveAsString | src/net/buffer.cpp:68-72 | What is returned, followed by what stays, is what was held |
| Buffers.Buffer.RetrieveAllAsString | src/net/buffer.cpp:64-66 | Returns the whole queue and empties it |
| Buffers.Buffer.PeekAsString | src/net/buffer.cpp:73-75 | A prefix of the queue, which stays as it is |
| Buffers.Buffer.MakeSpace | src/net/buffer.cpp:102-115 | Makes room without losing a byte; the in-place copy always moves strictly to the left, because the reader is beyond the prepend area in that branch; growing never cuts the block, and the block stays within its bound |
| Buffers.Buffer.EnsureWritableBytes | src/net/buffer.cpp:76-81 | There is room, and the queue is unchanged |
| Buffers.Buffer.Append | src/net/buffer.cpp:82-89 | Concatenates at the back |
| Buffers.Buffer.Prepend | src/net/buffer.cpp:90-95 | Concatenates at the front |
| Buffers.Buffer.ReadFd | src/net/buffer.cpp:117-150 | However the bytes split between the block and the 65536-byte spill area, they are appended in order; an error changes nothing |
| Buffers.Perform | src/net/buffer.cpp:43-150 | Each operation moves the byte queue and its peak as the queue's own definition says |
| Buffers.Pump | src/net/buffer.cpp:43-150 | Over any schedule of appends, prepends, reads and retrievals: what was taken, what is held and the peak are those of the byte queue, and the block is at least initial + 8 and at most max(initial + 8, 2 * peak + 7) bytes |
| Buffers.PeakIsHighest | src/net/buffer.cpp:21-23 | That peak is the length of the longest queue of the run |
| Buffers.FirstInFirstOut | src/net/buffer.cpp:43-86 | Without prepends, what came out followed by what is held is what went in |
| Buffers.NothingLost | src/net/buffer.cpp:43-95 | With prepends, no byte is lost or made up |
| Connections.SendEffect | src/net/tcp_connection.cpp:142-216 | `sendInLoop` appends the message to what the kernel took and what waits, if the connection is open before and after, and nothing otherwise; write interest stays on exactly while bytes wait |
| Connections.SendReports | src/net/tcp_connection.cpp:142-216 | The high-water callback is called exactly on an upward crossing, write-complete exactly when nothing is left, the close callbacks exactly when the connection dies |
| Connections.SendExactly | src/net/tcp_connection.cpp:142-216 | A send ends the connection exactly when it is open, nothing waits and the kernel fails the direct write; then nothing is queued, the kernel has taken nothing, and both close callbacks are called. Otherwise the kernel has taken as many bytes as it said, if it was asked at all |
| Connections.FlushEffect | src/net/tcp_connection.cpp:308-343 | `handleWrite` moves a prefix of the output queue to the kernel and loses nothing; completion is reported exactly when the queue empties |
| Connections.FlushExactly | src/net/tcp_connection.cpp:308-343 | A flush of an open connection writes exactly what the kernel takes before it first takes nothing, and ends the connection exactly when the kernel fails with something left to write |
| Connections.LifeMovesForward | src/net/tcp_connection.cpp:76-132 | Over any life the state only moves forward, write interest equals a non-empty queue while open, and after the death no byte reaches the kernel |
| Connections.LifeIsReported | src/net/tcp_connection.cpp:102-132 | Over any life `onClose` is called once if the connection dies and never otherwise, and the mark is reported once for each upward crossing |
| Connections.LifeKeepsTheStream | src/net/tcp_connection.cpp:142-344 | Over any life, kernel plus queue hold a prefix of everything sent, and all of it while the connection is open |
| Connections.NothingAfterShutdown | src/net/tcp_connection.cpp:209-224 | After `shutdown()` or a close, `send` takes nothing more |
| Connections.ShutdownClosesNothing | src/net/tcp_connection.cpp:218-232 | A connection that was shut down stays so, for ever, until a fault of its own ends it |
| TcpConnections.TcpConnection.SendInLoop | src/net/tcp_connection.cpp:142-216 | On the real buffers: the new state and the callbacks are those of the model; after a failed direct write the connection is closed and nothing is queued |
| TcpConnections.TcpConnection.HandleWrite | src/net/tcp_connection.cpp:307-343 | The write loop refines the model's flush, for every list of kernel answers |
| TcpConnections.TcpConnection.CompleteConnect | src/net/tcp_connection.cpp:289-302 | The EPOLLOUT that completes a connect |
| TcpConnections.TcpConnection.ConnectDestroyed | src/net/tcp_connection.cpp:102-132 | Cleans up and reports exactly on the way out of an open state |
| TcpConnections.TcpConnection.ConnectEstablished | src/net/tcp_connection.cpp:76-80 | Open and reading |
| TcpConnections.TcpConnection.ConnectEstablishedAsClient | src/net/tcp_connection.cpp:89-96 | Connecting, with write interest |
| TcpConnections.TcpConnection.StartRead | src/net/tcp_connection.cpp:51-59 | Turns reading on, unless the connection is closing or closed |
| TcpConnections.TcpConnection.StopRead | src/net/tcp_connection.cpp:61-69 | Turns reading off, unless the connection is closing or closed |
| TcpConnections.TcpConnection.ShutdownInLoop | src/net/tcp_connection.cpp:218-224 | Only an open connection starts to close |
| TcpConnections.TcpConnection.ReadSome | src/net/tcp_connection.cpp:239-246 | One read appends what the kernel delivered |
| HttpText.FindFirst | src/app/http_proxy_handler.cpp:275-290 | The search returns the first match, and npos exactly when there is none |
| HttpText.HeaderStable | src/app/http_proxy_handler.cpp:273-285 | Once a header is found in the bytes so far, no continuation changes it |
| HttpText.PathStable | src/app/http_proxy_handler.cpp:287-298 | Once a path is found in the bytes so far, no continuation changes it |
| HttpText.PathIsSecondWord | src/app/http_proxy_handler.cpp:287-298 | The path of every request that begins with a word, a space, a word and a space is the second word |
| HttpText.SplitAtSpaces | src/app/http_proxy_handler.cpp:287-298 | Every request with two spaces has that shape |
| HttpText.NoPathYet | src/app/http_proxy_handler.cpp:287-298 | With fewer spaces the path is empty |
| HttpText.HostParsedMeansComplete | src/app/http_proxy_handler.cpp:25-30 | The guard of `onMessage` implies that the host line is complete |
| HttpText.NothingToRewrite | src/app/http_proxy_handler.cpp:300-319 | A request without a complete host line is left as it is |
| HttpText.RewriteIffComplete | src/app/http_proxy_handler.cpp:300-319 | Rewriting a prefix and forwarding the rest equals rewriting the stream, for all continuations and addresses, if and only if the host line is complete in the prefix |
| HttpText.RewriteTooEarly | src/app/http_proxy_handler.cpp:300-319 | Otherwise gives a continuation and an address for which the two differ |
| HttpText.SplitAtHost | src/app/http_proxy_handler.cpp:305-311 | Every request with a complete host line is some text, the first host line, and the rest |
| HttpText.RewriteChangesOneLine | src/app/http_proxy_handler.cpp:300-319 | Only the value of the first host line changes; every byte before and after stays |
| HttpText.RewriteRoundTrip | src/app/http_proxy_handler.cpp:273-319 | The header read from the rewritten request is the address; a later rewrite wins; rewriting to the value already there changes nothing |
| HttpText.RewritesTheHostFieldIff | src/app/http_proxy_handler.cpp:300-319 | For every request: the rewriting is that of the Host field's line, for all addresses, if and only if no `Host: ` occurs before that field |
| HttpText.ForwardedHostIsRewritten | src/app/http_proxy_handler.cpp:305-311 | A request in which another field is rewritten and the Host field is not |
| Relays.L4RelaysTheStream | src/app/load_balancer_handler.cpp:42-62 | In every reachable state: the backend has been given a prefix of the client's stream, all of it while open; bytes from before the backend answered wait in order; and the same from backend to client |
| Relays.HttpRelaysTheRewrittenStream | src/app/http_proxy_handler.cpp:18-55 | In every reachable state: the address is the route of the path of the whole stream, and an open backend has been given exactly the whole client stream with its first host line rewritten |
| Relays.SegmentationDoesNotMatter | src/app/http_proxy_handler.cpp:20-33 | Two clients that sent the same bytes, cut and interleaved in any two ways, are routed to the same address once a backend is dialled; of what their backends are given one is a prefix of the other, and they are equal while both are open |
| Relays.OneNotFound | src/app/http_proxy_handler.cpp:73-95 | A client without a backend has been given nothing, or one 404, and that only when the path of its stream has no route |
| Relays.BackpressureNeverStalls | src/app/load_balancer_handler.cpp:138-148 | While both connections are open: a paused side has a peer with bytes to write and write interest on, and a side whose peer holds the mark or more is paused; for the backend also while the client is shutting down |
| Relays.StepKeepsInv | src/app/http_proxy_handler.cpp:167-271 | Every event, with every answer of the kernel, keeps the invariant behind these results, for both handlers |
| RelayRoutings.RouteOrder | src/app/http_proxy_handler.cpp:74-95 | The exact path wins, then `/`; the 404 is for paths with neither |
| RelayRoutings.UsableAddress | src/app/http_proxy_handler.cpp:100-112 | The port is what follows the first colon; an address without a colon or whose port is no number is given up on |
| RelayRoutings.StoiAcceptsExactly | src/app/http_proxy_handler.cpp:107-112 | A port is accepted if and only if it is blanks, a sign or none, and a number, in the range of a 32-bit int, with anything behind |
| RelayRoutings.DigitsAreANumber | src/app/http_proxy_handler.cpp:107-112 | Every string of digits is leading zeros and a number |
| RelayRoutings.FirstPhase | src/app/http_proxy_handler.cpp:18-33 | In every state in which the HTTP proxy waits, a read gets the client a backend exactly when what has arrived routes to a usable address and the dial succeeds; it gets it the 404, and shuts it down, when there is no route; otherwise the client goes on waiting |
| RelayRoutings.StreamDecides | src/app/http_proxy_handler.cpp:18-120 | Over any run without faults and failed dials, however the stream is cut: the client has a backend if and only if its stream has a host and a path with a usable route, it has been told 404 if they have none, and otherwise it is open and has been told nothing |
| RelayRoutings.BackendConnects | src/app/http_proxy_handler.cpp:235-256 | In every reachable state of either proxy, when the connect completes: bytes that came early are handed over whole, and end the backend exactly when the kernel fails that write; without any, nothing is written and only the backend changes |
| RelayRoutings.BalancerDialsOnce | src/app/load_balancer_handler.cpp:19-40 | Over any run of the balancer: the client has a backend if and only if one was chosen and the first dial has succeeded; without a healthy backend, or when the dial failed, it is shut down and never gets one |
| RelayPauses.DrainingResumes | src/app/load_balancer_handler.cpp:138-148 | A paused side is read again after any series of writable events of the other that is as long as its queue, in each of which the kernel takes a byte or more; for the client while both connections are open, for the backend also while the client is shutting down |
| RelayPauses.PauseEndsExactly | src/app/http_proxy_handler.cpp:175-204 | In every reachable state of either proxy in which the client is paused: its reading is turned on again in some continuation if and only if both connections are open |
| RelayPauses.BackendPauseEndsExactly | src/app/http_proxy_handler.cpp:189-201 | In every reachable state in which a backend that has connected is paused: its reading is turned on again in some continuation if and only if it is open and the client is not dead |
| RelayPauses.PauseIsReached | src/app/load_balancer_handler.cpp:138-162 | From any run that opens a relay, by any reads that add up to the mark, and the backend's death: a client that is paused for good |
| RelayPauses.L4PauseIsReached | src/app/load_balancer_handler.cpp:96-163 | Such a run of the balancer, from accept on, with reads of 64 KiB |
| RelayPauses.HttpPauseIsReached | src/app/http_proxy_handler.cpp:69-263 | Such a run of the HTTP proxy, for any request with a route |
| RelayEndings.OnlyFaultsEndTheClient | src/net/tcp_connection.cpp:218-232 | From every reachable state of either proxy, over every continuation: without a fault of its own (error, end of stream, failed read or write) the client connection is dead afterwards if and only if it was before; an error, the end of the stream or a failed read ends it |
| RelayEndings.OnlyFaultsEndTheBackend | src/net/tcp_connection.cpp:235-271 | From every reachable state of either proxy with an open backend, over every continuation: without a fault of its own the backend is dead afterwards if and only if it was before; an error, the end of the stream or a failed read leaves it dead, unless its client died first and let it go, and in the balancer its client then refuses to send |
| RelayEndings.BackendDies | src/app/load_balancer_handler.cpp:159-163 | At once, whatever kills an open backend leaves it dead; the client connection is as it was, except that the balancer shuts it down |
| RelayEndings.ClientDies | src/app/load_balancer_handler.cpp:64-75 | At once, whatever kills a client connection lets its backend go as it was, except that the balancer shuts an open one down |
| RelayEndings.ShutForGood | src/net/tcp_connection.cpp:209-224 | A client connection that was shut down is not opened again, is given nothing more, and is not read again if it was paused |
| RelayEndings.TimedOutIsStillForwarded | src/app/load_balancer_handler.cpp:77-87 | After a timeout of the balancer, all that the client sends is still handed to the backend, the client connection stays half shut, and it is given nothing |
| RelayEndings.L4RefusalTravels | src/app/load_balancer_handler.cpp:64-75 | In every reachable state of the balancer a dead backend leaves its client refusing to send, and a dead client its backend, unless the backend was dialled when the client was already dead |
| RelayEndings.DeadClientDialsExactly | src/app/load_balancer_handler.cpp:36-38 | In every reachable state of the balancer with a dead client: some continuation has an open backend if and only if the dial is still posted, or it ran after the client's death and that backend has not died |
| RelayEndings.LateDialIsReached | src/app/load_balancer_handler.cpp:36-38 | A run that leaves a dial posted for a dead client |
| RelayEndings.HttpClientNeverHears | src/app/http_proxy_handler.cpp:167-263 | In the HTTP proxy, over any run of a client with a backend, the state of the client connection changes only by its own faults, so by no death of the backend of any kind |
| RelayEndings.HttpBackendDeathIsUnheard | src/app/http_proxy_handler.cpp:36-54 | From every reachable state of the HTTP proxy with a dead backend, over every continuation: the backend is given nothing more, every byte the client sends stays in its input buffer, and the client connection keeps its state until it faults itself |
| RelayEndings.HttpDeathIsReached | src/app/http_proxy_handler.cpp:69-165 | For every request with a route, a run that reaches a dead backend |
| ProxyHandlers.ProxyHandler.OnMessage | src/app/http_proxy_handler.cpp:18-55 | On real connections: onMessage of either handler refines the model's |
| ProxyHandlers.ProxyHandler.StartForwarding | src/app/http_proxy_handler.cpp:69-120 | Routes, answers 404, gives up on a bad address, or dials |
| ProxyHandlers.ProxyHandler.CreateBackendConnection | src/app/load_balancer_handler.cpp:96-123 | The new backend connection, connecting, with the callbacks wired |
| ProxyHandlers.ProxyHandler.OnBackendUp | src/app/http_proxy_handler.cpp:235-256 | Bytes that came early go out once, rewritten by the HTTP proxy and as they are by the balancer |
| ProxyHandlers.ProxyHandler.OnBackendMessage | src/app/load_balancer_handler.cpp:127-136 | The response goes to the client while it is open |
| ProxyHandlers.ProxyHandler.ReportBack | src/app/load_balancer_handler.cpp:138-162 | What the backend's callbacks do to the client connection |
| ProxyHandlers.ProxyHandler.ReportFront | src/app/load_balancer_handler.cpp:142-148 | What the client connection's callbacks do to the backend |
| ProxyHandlers.ProxyHandler.OnFrontClosed | src/app/load_balancer_handler.cpp:71-74 | The backend is shut down and let go by the balancer, let go by the HTTP proxy |
| ProxyHandlers.ProxyHandler.HandleReadFront | src/net/tcp_connection.cpp:235-271 | The read loop of the client connection is a run of the model, ended by the first read that brings no bytes |
| ProxyHandlers.ProxyHandler.HandleReadBack | src/net/tcp_connection.cpp:235-271 | The read loop of the backend connection is a run of the model |
| ProxyHandlers.ProxyHandler.HandleWriteBack | src/net/tcp_connection.cpp:273-344 | The EPOLLOUT of the backend, connecting or open |
| ProxyHandlers.Serve | src/app/load_balancer_handler.cpp:19-163 | The objects, driven by any events from accept on, end in a state of the model that the theorems above speak of; events whose reads fit one readFd are exactly the model's run |
| ProxyHandlers.PausingRunsFit | src/net/buffer.cpp:117-130 | The runs that pause a client for good are such runs of the objects |
| IdleTimers.OrphanedExactlyBy | src/app/load_balancer_handler.cpp:42-55 | A message leaves a running idle timer that the handler has forgotten if and only if it is the client's first and an idle timer is already running |
| IdleTimers.BackendFirst | src/app/load_balancer_handler.cpp:127-129 | When the backend speaks first, a client message that comes next does that |
| IdleTimers.OnlyTheIdleTimeOut | src/app/load_balancer_handler.cpp:84-94 | Unless that happens, over any run and whatever else uses the queue, the only idle timer that can run is the current one, and only after 60 seconds without a message |
| IdleTimers.ForgottenTimerFires | src/app/load_balancer_handler.cpp:42-55 | When it happens, the forgotten timer runs by the first firing 60 seconds after the backend's message, whatever either side sends meanwhile |
| IdleTimers.MessageEffect | src/app/load_balancer_handler.cpp:89-94 | A message starts exactly one timer and ends exactly the one it replaces |
| IdleTimers.InitialTimerEnds | src/app/load_balancer_handler.cpp:42-46 | The client's first message ends the initial timer, if it is still running: it never runs, over any continuation |
| IdleTimers.InitialTimerEndsWithClose | src/app/load_balancer_handler.cpp:64-67 | So does the close of a client that never sent anything |
| IdleTimers.CloseForgetsExactly | src/app/load_balancer_handler.cpp:64-69 | An idle timer outlives its client connection if and only if one had been forgotten before, or the client never sent anything and a timer that the backend's messages started is running |
| IdleTimers.OutlivingTimerFires | src/app/load_balancer_handler.cpp:64-69 | It then runs by the first firing after its deadline, whatever else uses the queue |
| EventLoops.NoLostWakeup | src/net/event_loop.cpp:45-73 | In every interleaving of any number of threads: a polling loop with a queued task has a readable eventfd or a poster between its push and its wakeup |
| EventLoops.PollCanReturn | src/net/event_loop.cpp:86-88 | So the poll can return now, or as soon as that poster goes on |
| EventLoops.QueueIsFifo | src/net/event_loop.cpp:45-73 | Tasks started, the rest of the batch and the queue are exactly what was queued, in lock order |
| EventLoops.DirectExactlyOutsideTheDrain | src/net/event_loop.cpp:45-57 | On the loop thread a task runs at once exactly when no queued task is running, so tasks do not nest |
| EventLoops.DrainIsASnapshot | src/net/event_loop.cpp:59-73 | Until the next swap, whatever is posted, the drain runs only what was queued at the swap |
| EventLoops.EveryPostWakes | src/net/event_loop.cpp:45-57 | In every interleaving: a task that is not run at once is queued last, and its poster goes on to write the eventfd, also when the queue was not empty; so does a thread that quits the loop from outside |
| EventLoops.OneReadAnswersAll | src/net/event_loop.cpp:129-136 | After the wakeup handler, whatever runs, no poll reports the eventfd until it is written again, however often it had been written before |
| EventLoops.WakeupIsRead | src/net/event_loop.cpp:86-110 | In every interleaving: a round of events that reported the eventfd has read it before the loop goes on |
| EventLoops.QuitWakesThePoll | src/net/event_loop.cpp:113-118 | A quit after line 80 that did not come from a queued task of the round leaves the poll with a wakeup present or coming |
| EventLoops.QuitCanBeSleptThrough | src/net/event_loop.cpp:80-118 | Some continuation is in the poll with the request unseen and no wakeup coming if and only if the caller is a queued task and no wakeup was outstanding |
| EventLoops.QuitFromATaskSleeps | src/net/event_loop.cpp:80-118 | A schedule from the start in which that happens |
| EventLoops.QuitIsLostExactlyBeforeLoop | src/net/event_loop.cpp:74-118 | For every thread and state: after a quit, every continuation without another quit keeps the loop from stopping if and only if `loop()` has not been called yet |
| EventLoops.EventLoop.RunInLoop | src/net/event_loop.cpp:45-57 | The whole of runInLoop, with whatever other threads do between the lock and the write of the eventfd: a run of the protocol that runs the task at once on the loop thread outside the drain, and queues and wakes otherwise |
| EventLoops.EventLoop.DoPendingFunctors | src/net/event_loop.cpp:59-73 | With any interference, the drain is a run of the protocol, ends at the poll, and has run exactly what was queued at the swap |
| EventLoops.EventLoop.Quit | src/net/event_loop.cpp:113-118 | The whole of quit, with whatever other threads do between the store and the write: a run of the protocol that writes the eventfd exactly from another thread |
| EventLoops.EventLoop.Wakeup | src/net/event_loop.cpp:120-127 | One write to the eventfd |
| EventLoops.EventLoop.HandleWakeup | src/net/event_loop.cpp:129-136 | One read empties the eventfd |
| LoadBalancing.BoundedWait | src/app/load_balancer.cpp:15-58 | A backend that stays healthy while at most n are, with A additions and R removals around it, is chosen within (n - 1) + A + R * (n - 2) + 1 calls |
| LoadBalancing.WaitAfterPick | src/app/load_balancer.cpp:26-35 | The distance from the cursor falls by one with every call, and is 0 exactly for the backend that is next |
| LoadBalancing.WaitAfterErase | src/app/load_balancer.cpp:15-24 | A removal does not raise the distance of another backend, unless that backend was next |
| LoadBalancing.WaitAfterAppend | src/app/load_balancer.cpp:37-47 | An addition raises a distance by at most one |
| LoadBalancing.PickRotates | src/app/load_balancer.cpp:26-35 | In the order in which the healthy backends would be served from now on: a call answers its head and moves that to its end |
| LoadBalancing.RemovalOrder | src/app/load_balancer.cpp:15-58 | Removed or reported down, a backend leaves the order of the others as it was, but when it stood before the cursor in the list, the one that was to be next is served last |
| LoadBalancing.OrderWithoutIs | src/app/load_balancer.cpp:15-24 | That order is the old one without the backend |
| LoadBalancing.UpJoinsTheOrder | src/app/load_balancer.cpp:37-47 | A backend that comes up joins the order where the list wraps around |
| LoadBalancing.OtherwiseTheOrderStays | src/app/load_balancer.cpp:9-58 | Every other operation leaves the order |
| LoadBalancing.KnownAre | src/app/load_balancer.cpp:9-24 | The known backends are exactly those added and not removed since; health updates do not change them |
| LoadBalancing.ExactCount | src/app/load_balancer.cpp:26-35 | Over any run in which nobody joins or leaves the healthy list, how often a backend is chosen, exactly, from the number of calls and its distance |
| LoadBalancing.FairShare | src/app/load_balancer.cpp:9-58 | Over any such run, which may add backends and repeat health results, each of n healthy backends is chosen floor(k/n) or ceil(k/n) times in k calls |
| LoadBalancing.QuietStep | src/app/load_balancer.cpp:9-58 | An operation that leaves the length of the healthy list leaves the list and, unless it is a call, the cursor |
| LoadBalancing.Step | src/app/load_balancer.cpp:9-58 | Every operation keeps the healthy entries distinct and the cursor in range |
| LoadBalancing.LoadBalancer.Add | src/app/load_balancer.cpp:9-13 | The set grows; the healthy list does not |
| LoadBalancing.LoadBalancer.Remove | src/app/load_balancer.cpp:15-24 | The address is in neither collection afterwards, and the cursor is in range |
| LoadBalancing.LoadBalancer.GetNextBackend | src/app/load_balancer.cpp:26-35 | Returns the backend at the cursor and advances it, or nothing when none is healthy |
| LoadBalancing.LoadBalancer.UpdateHealthStatus | src/app/load_balancer.cpp:37-58 | Afterwards the address is in the healthy list exactly when it was reported healthy, at its end when it is new, and the cursor moves only when it would be out of range |

## Left out

- Sockets, epoll, timerfd and eventfd system calls, logging, threads, Acceptor and Server: plumbing; their answers are parameters of the model.
- HealthChecker::probe: almost only system calls; its effect is an arbitrary health update, so a late probe may also re-add a removed backend.
- RouteTable, the thread pool and InetAddress: would only add easy members; the routing table is a map.
- Object lifetimes: raw captures of a connection, and what happens to a backend connection after its last shared_ptr is reset while it is open, where the destructor asserts. The model keeps the object and gives it no more events.
- A connect that fails: the source removes a channel that still has events and asserts, so the run ends there.
- The destructor of TimerQueue, and a callback that deletes the queue.
- Close callback exactly once: error and read may be dispatched in one pass, so only `onClose` of the handler is claimed to be called once.
- A bound on the output queue of the mark plus one read: the read loop goes on until EAGAIN after reading is turned off, so it does not hold.
- The wall clock against CLOCK_MONOTONIC, and floating-point intervals: intervals are reals, time is in integer microseconds on one clock.
- Overflow of `size_t`, of the eventfd counter and of the sequence counter: unbounded integers; sequence numbers are counted per queue.
- Order of a callback within the call that makes it: callbacks run when the call has changed its own connection. In `sendInLoop` the high-water callback runs just before write interest is enabled on the same connection; the callbacks of the relays touch only the other connection.
- Deferred stopRead, startRead, send and high-water callbacks: the relays are modelled for work started by epoll events, where `runInLoop` runs at once. Inside the task queue these calls are queued.
- Buffers.Buffer.PeekAsString: bytes beyond the readable ones, which the source hands out when asked for more than it holds, are not specified beyond their number.
- Buffers.Buffer.RetrieveAsString: as for PeekAsString.
- Buffers.Pump: a prepend longer than the room in front, on which the source asserts, is cut to that room.
- Timers of LoadBalancerHandler in the relay: there a timeout is an event that may come at any time; the idle timer alone is modelled on the queue.
- TcpConnections.TcpConnection.HandleWrite: a write of 0 bytes leaves errno as it was; it is taken as one that would block, and the failing alternative is another answer of the kernel.
- EventLoops.EventLoop.DoPendingFunctors: what other threads do between two functors is counted with the functor before.
- Liveness of threads: that a poster between push and wakeup goes on, and that epoll_wait returns when it can.
