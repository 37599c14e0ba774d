# Verification model of the targeting system

This project models, in Dafny 4.11, the parts of the system whose behaviour is
hardest to see from the code: the active-object runtime on the Pi, the sensor
and servo state machines on top of it, the streaming pipeline that carries
detections to the app, and the app's tracker with the detector's box geometry.
`dafny verify dfyconfig.toml` checks all of it.

The four parts, and the files that hold them:

- **Runtime** - `Runtime` is a step system over threads, locks, bounded queues
  and condition variables, in which a queue's critical sections are single
  instructions on its buffer, head, tail and size; its results hold for every
  schedule. `EventQueue`, `Ring`, `EventBus`, `Uart` and `Fsm` are the data
  structures its threads work on, updated in place.
- **Devices** - `ReadCycle` is the read/retry protocol seen from outside, with its
  one-shot timer; `Distance` and `Gps` are two objects with nested state handlers,
  each proved to implement it step for step. Their handlers, and those of `Servo`
  and `Scheduler`, are handlers of `Fsm` and are shown to meet the conditions of
  its theorems. `Ubx` is the GPS checksum and its configuration frames. `Sweep`
  and `Servo` are the serpentine scan and the PWM arithmetic. `Scheduler` and
  `Wiring` are the rotation and the routing.
- **Streaming** - `Framing` (lines in a byte stream), `UnixSocket` and
  `IpcClient` (its two ends), `WebSocket` (the drop-oldest ring and its
  sessions), `Pipeline` (all of them composed) and `Lifecycle` (FFmpeg and the
  detector).
- **Tracker and geometry** - `Boxes`, `Sorting` and `Matching` (overlap,
  smoothing, the stable sort, greedy assignment), `Tracker` (the mutable tracker
  over whole runs), `Letterbox`.

Objects whose methods update fields in C, Python or Kotlin are classes here;
each of their methods is proved equal to one step of a specification function,
and what is promised of the object is proved about runs of that function.
System calls, timers, the kernel and foreign libraries appear as parameters
that may take any value. Floating point is replaced by exact numbers.

## What the code does otherwise than expected

Where a property turned out not to hold of the code, the code is modelled as it
is. Each item names a lemma with a concrete run or input, and the lemma that says
exactly when it happens.

- When the camera's FFmpeg dies, streaming stays marked active, and an app that
  connects is told the stream is ready while nothing is published. Run:
  `Lifecycle.ReadyWithNothingPublished`; exactly when: `Lifecycle.ReadyIsPublishedIff`.
- A STOP that fails to be sent is not tried again, so the detector can hear two
  STARTs in a row. Run: `Lifecycle.TwoStarts`; exactly when:
  `Lifecycle.HearsTwoStartsIff`.
- The old FIFO is unlinked before mkfifo is tried. When the first succeeds and the
  second fails, the camera's path is taken for a file from then on. Run:
  `Lifecycle.CameraBecomesFile`; exactly when: `Lifecycle.StaysCameraIff`.
- A hang-up of the detector is reported before the lines still buffered are looked
  at, and these are never forwarded. Run: `Pipeline.HangupLosesLine`; exactly when:
  `Pipeline.HangupLosesIff`.
- A NUL byte before the next newline stops the detector's stream for good. Run:
  `Framing.StalledStream`; exactly when: `Framing.StallsForGoodIff`, and for the
  newlines left in a drained buffer `Framing.NewlineLeftIff`.
- A line too long for the caller's buffer is cut, and what follows it is moved down
  by the cut length, which brings the terminator into the stream: nothing received
  later comes out again (`UnixSocket.CutEndsStream`). Input: `UnixSocket.CutLine`;
  exactly when: `UnixSocket.TakenWholeIff`.
- The writeable callback does not ask whose socket is writeable, so an evicted
  socket can be handed a message of the new session. Run:
  `WebSocket.EvictedSocketReceives`; exactly when: `WebSocket.DeliveriesStayOwn`,
  and for the detector's lines `Pipeline.HandedAwayIff`.
- Entering run, the scheduler publishes slot 0 without looking whether it has a
  subscriber: a START before anybody registered there uses an event that is not
  there. Case: `Scheduler.StartBeforeSubscribers`; exactly when:
  `Scheduler.SendKeeps`.
- A locked servo marks a new target as seen before it has moved there, so a target
  whose transfer fails is not tried again until another one comes. Run:
  `Servo.LockMissesTarget`; exactly when: `Servo.LockFollows`.
- An extreme aspect ratio resizes a side of the frame to nothing. Input:
  `Letterbox.ThinFrameVanishes`; exactly when: `Letterbox.NothingVanishesIff`.
- Scaling position and length up separately can overshoot a frame by a pixel.
  Input, for every width it happens in: `Letterbox.TooFar`; exactly when:
  `Letterbox.RescaleFitsIff`. The camera's widths are not among them.
- Smoothing with truncation stays one pixel short of a target approached from
  below. Input: `Boxes.EmaStaysShort`; exactly when: `Boxes.EmaFixedIff`.

## Model

| member | source | states |
|---|---|---|
| Runtime.OperationSafe | src/util/event_bus/event_bus.c:97-110 | every operation a thread can start takes locks in rank order (bus, uart or target before queue or log), touches a queue only under its mutex and in the order of the critical sections, and ends holding nothing |
| Runtime.ReachableInv | src/util/queue/queue.c:39-88 | every interleaving of any number of threads, statement by statement, keeps mutual exclusion, the lock order, and for every queue what its lock holder knows at the point it has reached |
| Runtime.SectionKeepsQueue | src/util/queue/queue.c:46-61 | a statement of a critical section keeps the queue's books, since its thread is the only holder of the mutex |
| Runtime.UnlockedPushesCollide | src/util/queue/queue.c:55-57 | without the mutex the same statements, interleaved, lose an event |
| Runtime.PushSection | src/util/queue/queue.c:54-60 | the statements of an insertion add up to the queue's single push, and signal the consumer |
| Runtime.PopSection | src/util/queue/queue.c:80-83 | those of an extraction take the oldest element and no other |
| Runtime.SomeoneAdvances | src/hal/uart/hal_uart.c:108-123 | whoever is blocked on a lock waits, perhaps through other holders, for a thread that can run |
| Runtime.StuckMeansQuiet | src/util/queue/queue.c:74-85 | if no operation in progress can move, no lock is held and everyone inside an operation sleeps on an empty queue: there is no deadlock |
| Runtime.NoLostWakeup | src/util/queue/queue.c:46-85 | in every interleaving, whenever a consumer sleeps unsignalled though its queue holds something, or has stored something not yet counted, some thread holds that queue's mutex with its signal still to come; while the mutex is free the sleeper's queue is empty and all that was stored is handled |
| Runtime.AdvanceShrinks | src/util/queue/queue.c:46-61 | each instruction executed uses up work, even one that wakes a consumer |
| Runtime.OperationsComplete | src/util/event_bus/event_bus.c:88-113 | from every reachable state the operations in progress can all be run to their end, within a bound |
| Runtime.Delivery | src/util/active_object/active_object.c:16-25 | in every interleaving: whenever a queue's mutex is free, events handled, then the one in hand, then the occupied window of the ring are the accepted pushes in push order, and head, tail and size agree; at all times what is handled precedes END, and after the loop exits it is all that was accepted before END |
| Runtime.HistoryGrows | src/util/active_object/active_object.c:54-74 | a queue's history grows only by the events stored under its mutex, each into a free slot; a refused push leaves no trace, and nothing is handled after the loop has exited |
| Ring.WindowPush | src/util/queue/queue.c:55-57 | writing the first free slot of a circular buffer appends to what it holds |
| Ring.WindowPop | src/util/queue/queue.c:81-83 | advancing the head removes the oldest element |
| EventQueue.Queue.Init | src/util/queue/queue.c:6-37 | each outcome of initialisation: no buffer when the allocation fails, a buffer given back but still pointed to when a primitive cannot be created, an empty queue on success |
| EventQueue.Queue.Push | src/util/queue/queue.c:39-64 | appends, or is refused exactly when full and changes nothing |
| EventQueue.Queue.TryPop | src/util/queue/queue.c:66-88 | takes the oldest element, or leaves an empty queue alone |
| EventBus.MatchingExact | src/util/event_bus/event_bus.c:99-108 | publishing reaches exactly the subscribers of the pair, each once |
| EventBus.Bus.Subscribe | src/util/event_bus/event_bus.c:44-86 | the four outcomes, and the table with the new subscription last |
| EventBus.Bus.Publish | src/util/event_bus/event_bus.c:88-113 | posts to every matching subscription in table order, and succeeds exactly when there was one |
| EventBus.Bus.Delete | src/util/event_bus/event_bus.c:115-128 | empties the table |
| Uart.Device.AllocateSlot | src/hal/uart/hal_uart.c:77-89 | takes a free slot and no other, and fails only when all are used |
| Uart.Device.Submit | src/hal/uart/hal_uart.c:232-278 | the outcomes in the code's order; only a submission the kernel accepts takes a slot; every failure gives it back |
| Uart.Device.Complete | src/hal/uart/hal_uart.c:110-119 | runs the callback its own operation was submitted with, if it succeeded, and frees the slot |
| Uart.SubmitAccounted | src/hal/uart/hal_uart.c:246-277 | in flight plus completed stays equal to accepted, no operation in two places |
| Uart.CompleteAccounted | src/hal/uart/hal_uart.c:110-119 | a completion moves its operation from in flight to completed, once |
| Fsm.NestedTransition | src/util/fsm/fsm.c:37-53 | a transition whose ENTRY handlers transition again terminates, its calls alternate EXIT of the current state and ENTRY of the next, and it ends in the innermost target |
| Fsm.BracketedAlternates | src/util/fsm/fsm.c:44-50 | call by call: each EXIT goes to the state the previous ENTRY entered, and the last ENTRY is the final state's |
| Fsm.SendBrackets | src/util/fsm/fsm.c:24-53 | an event's own call comes first, and the transitions it leads to bracket theirs |
| Fsm.TransitionAsSends | src/util/fsm/fsm.c:37-53 | a transition is EXIT sent, the state set, ENTRY sent |
| Fsm.Machine.constructor | src/util/fsm/fsm.c:6-22 | the initial state receives INIT |
| Fsm.Machine.SendEvent | src/util/fsm/fsm.c:24-35 | the handler runs on the current state and may transition |
| Fsm.Machine.TransitionTo | src/util/fsm/fsm.c:37-53 | the in-place transition is the specified one, nesting included |
| ReadCycle.StepGuarantee | src/ddl/distance/distance_fsm.c:217-294 | one event of any kind, or the timer running out, keeps all guarantees of the protocol |
| ReadCycle.AnyRun | src/ddl/distance/distance_fsm.c:146-166 | for any event sequence, stale and duplicate ones and expiries of the one-shot timer included: at most three read entries a READ, retry 0 in idle and below 3 in read, the timer armed only in read and there until it has run out since the last entry, `valid` tells how the last cycle ended, the published frame is the last accepted one, consecutive accepted frames differ in sensor time |
| ReadCycle.OnlyAcceptable | src/ddl/distance/distance_fsm.c:92-120 | nothing is accepted that the validity check refuses |
| Distance.ReadCommandChecksum | src/ddl/distance/distance_fsm.c:51-58 | the fixed request carries the checksum of its own bytes |
| Distance.Checksum | src/ddl/distance/distance_fsm.c:60-72 | the 8-bit running sum is the sum of the bytes modulo 256 |
| Distance.IsFrameValid | src/ddl/distance/distance_fsm.c:92-120 | accepts exactly this module's fresh responses with a correct checksum |
| Distance.HandlersSettle | src/ddl/distance/distance_fsm.c:175-294 | the state handlers never transition on EXIT, and on ENTRY only from update, to a state of lower rank: the conditions of the nested-transition theorem |
| Distance.SendObeys | src/ddl/distance/distance_fsm.c:217-294 | every event, nested transitions included, is one step of the read/retry protocol with its UART and timer commands; error is never left |
| Distance.DistanceObject.constructor | src/ddl/distance/distance_fsm.c:175-200 | INIT ends in idle, or in error when there is no timer |
| Distance.DistanceObject.SendEvent | src/ddl/distance/distance_fsm.c:217-294 | the object's methods take it where the state machine's `Send` of the handlers does, and it rests where the protocol says |
| Distance.DistanceObject.OnTimerExpired | src/ddl/distance/distance_fsm.c:161-166 | the one-shot timer running out disarms it and posts one TIMEOUT, an input of the protocol like any other |
| Distance.DistanceObject.TransitionTo | src/util/fsm/fsm.c:37-53 | the in-place transition through the real handlers is the specified nested one |
| Distance.DistanceObject.UpdateDistanceFrame | src/ddl/distance/distance_fsm.c:122-144 | the shifted 24-bit distance decodes to metres, with the frame's other fields |
| Distance.DistanceObject.RetryHandler | src/ddl/distance/distance_fsm.c:146-159 | retries below the limit, otherwise gives up and invalidates |
| Distance.ObjectGuarantees | src/ddl/distance/distance_fsm.c:92-294 | every object after any events rests with the protocol's guarantees and publishes only what it decoded from its last accepted frame |
| Bytes.Signed32 | src/ddl/gps/gps_fsm.c:188-191 | the two's complement reading, congruent to the unsigned one |
| Ubx.UbxChecksum | src/ddl/gps/gps_fsm.c:154-168 | for any length, the running sums equal the sum and the position-weighted sum modulo 256 |
| Ubx.TwoByteCorruption | src/ddl/gps/gps_fsm.c:154-168 | exactly which corruptions of two bytes go undetected |
| Ubx.SingleByteDetected | src/ddl/gps/gps_fsm.c:154-168 | any single-byte change is detected |
| Ubx.SwapDetected | src/ddl/gps/gps_fsm.c:154-168 | exactly which exchanges are detected; those of different neighbours always |
| Ubx.BuildConfigFrame | src/ddl/gps/gps_fsm.c:275-293 | every configuration frame fits its 24-byte buffer, carries its step and verifies |
| Ubx.ConfigFits | src/ddl/gps/gps_fsm.c:137-152 | the sequence has eight steps, each within the payload limit |
| Gps.ReadCommandWellFormed | src/ddl/gps/gps_fsm.c:127-135 | the fixed poll request is a well-formed frame |
| Gps.IsFrameValid | src/ddl/gps/gps_fsm.c:193-230 | accepts exactly the fresh, well-formed navigation solutions |
| Gps.HandlersSettle | src/ddl/gps/gps_fsm.c:328-465 | the state handlers meet the conditions of the nested-transition theorem, update ranking above the others |
| Gps.SendObeys | src/ddl/gps/gps_fsm.c:375-465 | once configured, every event, nested transitions included, is one step of the read/retry protocol with its commands |
| Gps.ConfiguringObeys | src/ddl/gps/gps_fsm.c:328-373 | while configuring, only a completed step counts, and the eighth leads to idle |
| Gps.GpsObject.constructor | src/ddl/gps/gps_fsm.c:328-349 | INIT sends the first configuration step, or ends in error |
| Gps.GpsObject.SendCurrentStep | src/ddl/gps/gps_fsm.c:257-297 | the frame sent is that of the current step |
| Gps.GpsObject.SendEvent | src/ddl/gps/gps_fsm.c:328-465 | the object's methods take it where the state machine's `Send` of the handlers does; the events after configuration are the inputs of the protocol it rests by |
| Gps.GpsObject.OnTimerExpired | src/ddl/gps/gps_fsm.c:314-319 | the one-shot timer running out disarms it and posts one TIMEOUT |
| Gps.GpsObject.TransitionTo | src/util/fsm/fsm.c:37-53 | the in-place transition through the real handlers is the specified nested one |
| Gps.ObjectGuarantees | src/ddl/gps/gps_fsm.c:193-465 | idle is reached after exactly eight completed steps, sent in order; then the protocol's guarantees hold, and every accepted frame is a well-formed solution |
| Sweep.StopNext | src/ddl/servo/servo_fsm.c:237-263 | one call leads from a stop of the serpentine to the next, and from the last home |
| Sweep.SweepVisitsAll | src/ddl/servo/servo_fsm.c:237-263 | for any grid, columns*rows calls from home visit every cell exactly once and return home |
| Sweep.ServoGrid | src/ddl/servo/servo_fsm.c:237-263 | the servos' rectangle is the 35 by 19 instance |
| Sweep.NextCloser | src/ddl/servo/servo_fsm.c:237-263 | from any angles in range a call stays in range and comes home or strictly closer to it |
| Sweep.ComesHome | src/ddl/servo/servo_fsm.c:237-263 | home is reached within 1008 calls from anywhere |
| Servo.CountsRange | src/ddl/servo/servo_fsm.c:172-197 | every commanded count lies between 102 and 512 |
| Servo.CountsMonotone | src/ddl/servo/servo_fsm.c:187-197 | a larger angle never gets a smaller count |
| Servo.ReadBackError | src/ddl/servo/servo_fsm.c:187-215 | read-back errs by at most half a count, 225/1024 of a degree |
| Servo.PackLossless | src/ddl/servo/servo_fsm.c:133-163 | packing and unpacking is lossless exactly for counts below 4096 |
| Servo.HandlersSettle | src/ddl/servo/servo_fsm.c:328-517 | no state handler transitions on ENTRY or EXIT |
| Servo.SendKeeps | src/ddl/servo/servo_fsm.c:371-517 | every event in every state: the next state, the scan stop with its read-back, the jump to the target, and nothing else moved; angles stay commandable, every count written is faithful, and in noise scan the timer is armed until it has run out |
| Servo.LockFollows | src/ddl/servo/servo_fsm.c:495-508 | over any number of DIRECTIONS, each with its own transfers, a locked servo commands a new target once, and is on it exactly if both channels took it then |
| Servo.LockMissesTarget | src/ddl/servo/servo_fsm.c:495-508 | a lock that is never on its target |
| Servo.ServoObject.constructor | src/ddl/servo/servo_fsm.c:328-354 | set-up in order, the first failure leading to error |
| Servo.ServoObject.SetBothAngles | src/ddl/servo/servo_fsm.c:217-234 | angles are published only once both channels took them, and each count written is that of an unclamped angle |
| Servo.ServoObject.ScanOperation | src/ddl/servo/servo_fsm.c:237-263 | the in-place scan step is the specified one |
| Servo.ServoObject.SetTarget | src/ddl/servo/servo_fsm.c:304-326 | only angles in the swept rectangle are taken, each with a new sequence number |
| Servo.ServoObject.TransitionTo | src/ddl/servo/servo_fsm.c:371-513 | the in-place transition through the real handlers is the specified one |
| Servo.ServoObject.SendEvent | src/ddl/servo/servo_fsm.c:371-517 | the object's methods take it where the state machine's `Send` of the handlers does |
| Servo.ServoObject.OnTimerExpired | src/ddl/servo/servo_fsm.c:53-58 | the one-shot timer running out disarms it, and in noise scan is remembered |
| Servo.ReachableComesHome | src/ddl/servo/servo_fsm.c:417-456 | wherever a run has left the registers, at most 1008 successful calls bring the sweep home |
| Scheduler.FairShare | src/app/scheduler/scheduler_fsm.c:92-116 | a slot has been published as often as it has had turns, less those before it became occupied |
| Scheduler.Balanced | src/app/scheduler/scheduler_fsm.c:105-116 | no two slots occupied since run was entered are ever more than one publication apart |
| Scheduler.HandlersSettle | src/app/scheduler/scheduler_fsm.c:25-124 | no state handler transitions on ENTRY or EXIT |
| Scheduler.SendKeeps | src/app/scheduler/scheduler_fsm.c:63-124 | every event leads to the right state and keeps tick, timer and publications in step with the rotation; a missing event is used exactly by a START while slot 0 is empty |
| Scheduler.StartBeforeSubscribers | src/app/scheduler/scheduler_fsm.c:92-99 | a START that uses one |
| Scheduler.SchedulerObject.Subscribe | src/app/scheduler/scheduler.c:27-49 | a slot is given away once, whatever state the scheduler is in |
| Scheduler.SchedulerObject.SendEvent | src/app/scheduler/scheduler_fsm.c:63-124 | the object's methods take it where the state machine's `Send` of the handlers does; something is published exactly on a turn whose slot is occupied, as the bus answers for that slot |
| Scheduler.PublishedFairly | src/app/scheduler/scheduler_fsm.c:85-124 | what a running scheduler object has published: each slot once at each of its turns since it became occupied; floor((k-s)/6)+1 times after k ticks if slot s was occupied at the entry and k >= s |
| Wiring.InitLayer | src/ddl/ddl.c:95-118 | start-up subscribes the events of each module before the first that fails, in order, and returns that module's status, or success when none fails |
| Wiring.Start | src/app/app.c:51-84 | start-up returns the status of the first step that fails, the broadcaster's configuration included, or success, and leaves the table of the modules before it; on success that of the running application |
| Wiring.RegisterSlots | src/app/app.c:86-112 | the five slots are filled as listed |
| Wiring.Routing | src/ddl/ddl.c:120-129 | an event published for an object reaches only that object's queue, and does exactly when a module of that object subscribed to it |
| Wiring.SlotRouting | src/app/app.c:95-112 | every slot's event is served by its own object only, although event numbers coincide |
| Wiring.PublicationsArrive | src/app/scheduler/scheduler_fsm.c:95-114 | whatever the wired scheduler publishes succeeds and is posted to the named object's queue |
| Framing.CallsConserve | pi-streaming/unix_socket.c:208-276 | for any stream and any split of it, the lines taken out with their newlines and then the buffer are the bytes received |
| Framing.ReadsOneWay | pi-streaming/unix_socket.c:248-275 | a byte stream has only one reading as lines and a rest no line can be taken from; any other reading has fewer lines |
| Framing.ChunkingIndependent | pi-streaming/unix_socket.c:208-276 | drained readers of the same bytes, whatever these are, agree on lines and rest however the bytes arrived; an undrained one has a prefix |
| Framing.NulStalls | pi-streaming/unix_socket.c:248-253 | a NUL before the first newline blocks every later line, whatever arrives |
| Framing.StallsForGoodIff | pi-streaming/unix_socket.c:248-253 | no bytes that may still arrive bring out another line exactly when a NUL precedes the next newline |
| Framing.NewlineLeftIff | pi-streaming/unix_socket.c:248-253 | a drained reader still buffers a newline exactly when a NUL stands before one |
| Framing.StalledStream | pi-streaming/unix_socket.c:248-253 | such a stream |
| Framing.NulEnds | pi-streaming/unix_socket.c:248-253 | once a NUL is buffered only what stands before it can come out |
| Framing.IdleTakes | pi-streaming/unix_socket.c:208-276 | calls that receive nothing take out the lines complete before the first NUL, one a call |
| Framing.ReadsWhatWasSent | pi-streaming/ipc_client.py:202-203 | if the bytes received are a prefix of what was framed, the lines taken out are the first ones sent |
| UnixSocket.Connection.FindNewline | pi-streaming/unix_socket.c:248-253 | finds the newline the specification takes, or none |
| UnixSocket.Connection.ShiftDown | pi-streaming/unix_socket.c:266-273 | moving the buffer down in place keeps exactly the bytes moved |
| UnixSocket.Connection.RecvMessage | pi-streaming/unix_socket.c:208-276 | takes one line out as specified, cutting one too long for the caller, or leaves the buffer with what arrived; -1 exactly when the connection is gone, whatever is buffered |
| UnixSocket.TakenIsCall | pi-streaming/unix_socket.c:255-275 | for a line that fits the caller's buffer the call is one of the reader's |
| UnixSocket.TakenWholeIff | pi-streaming/unix_socket.c:255-275 | no byte is lost or added exactly when the line fits; otherwise the terminator ends up behind the received bytes |
| UnixSocket.CutEndsStream | pi-streaming/unix_socket.c:255-275 | after a line too long, only lines received by then still come out |
| UnixSocket.CutLine | pi-streaming/unix_socket.c:257-273 | such a line |
| UnixSocket.SendAll | pi-streaming/unix_socket.c:34-59 | whatever partial sends occur, a prefix goes out, and success means all of it did |
| IpcClient.Client.WaitForCommand | pi-streaming/ipc_client.py:121-160 | returns the first line that parses; no readable byte is lost between lines refused, the command and the buffer; bytes that do not decode end the connection |
| WebSocket.StepBooks | pi-streaming/websocket_server.c:257-291 | every event keeps the books: at most 256 queued, written messages as queued but for truncation, dropped ones pushed out by 256 newer ones, nothing without a client |
| WebSocket.SessionBooks | pi-streaming/websocket_server.c:257-291 | in any run: queued in all = written + dropped + in the ring, the ring is the last of them, written ones keep queueing order |
| WebSocket.SessionsSeparate | pi-streaming/websocket_server.c:48-108 | when the client changes, no message of the old session is carried over |
| WebSocket.IntactIff | pi-streaming/websocket_server.c:118-126 | a message is written whole exactly when it fits the limit less the padding |
| WebSocket.DeliveriesStayOwn | pi-streaming/websocket_server.c:110-146 | exactly when a session's messages keep going to its own socket |
| WebSocket.EvictedSocketReceives | pi-streaming/websocket_server.c:110-146 | a run in which they do not |
| WebSocket.CallbacksAlternate | pi-streaming/websocket_server.c:37-108 | for any order of connects, evictions and late closes the callbacks strictly alternate exactly when no socket is established while registered; the last one tells whether a client is connected |
| WebSocket.WsServer.constructor | pi-streaming/websocket_server.c:175-229 | an empty ring of 256 and no client |
| WebSocket.WsServer.Established | pi-streaming/websocket_server.c:37-88 | eviction, then registration, with the callbacks fired |
| WebSocket.WsServer.Closed | pi-streaming/websocket_server.c:90-108 | only the registered socket's close ends the session |
| WebSocket.WsServer.Writeable | pi-streaming/websocket_server.c:110-146 | hands over and removes the oldest message; while messages wait, the client has a writeable callback to come |
| WebSocket.WsServer.Enqueue | pi-streaming/websocket_server.c:270-285 | a full ring drops its oldest message, and no other, to make room |
| WebSocket.WsServer.QueueMessage | pi-streaming/websocket_server.c:257-291 | refused without a client or when too large; otherwise queued last |
| Pipeline.Flow | pi-streaming/main.c:211-259 | over any run the application's flag and the server's client agree |
| Pipeline.Reading | pi-streaming/main.c:446-460 | over any run no byte of the detector, up to its hang-up, is lost between lines and buffer |
| Pipeline.Records | pi-streaming/main.c:262-272 | for a client connected throughout, the detector's messages queued are exactly the non-empty lines taken out, in order |
| Pipeline.WrittenOrDropped | pi-streaming/websocket_server.c:110-146 | those that left the ring split into the ones written, intact and in order, and the ones dropped |
| Pipeline.HandedSplit | pi-streaming/websocket_server.c:110-146 | the written ones split into those handed to the app's socket and those handed to others |
| Pipeline.HandedAwayIff | pi-streaming/websocket_server.c:110-146 | in a session no detector's message goes to another socket exactly when no other socket becomes writeable while one is the oldest waiting |
| Pipeline.EndToEnd | pi-streaming/main.c:262-272 | the lines taken out are the first the detector sent; the non-empty ones are those that left the ring and those in it; those that left were written, intact, or dropped; those written went in order to the app's socket or to another one, the latter never exactly when no other socket becomes writeable at the wrong moment |
| Pipeline.HangupLosesIff | pi-streaming/unix_socket.c:230-237 | over any run up to the hang-up: the lines lost are those complete before the first NUL received less those taken out; calls receiving nothing would have taken out just these, and no later event does |
| Pipeline.HangupLosesLine | pi-streaming/unix_socket.c:230-237 | a run that loses one |
| Pipeline.Forwarder.ForwardDetection | pi-streaming/main.c:262-272 | queues the line exactly when the app is connected |
| Pipeline.Forwarder.Poll | pi-streaming/main.c:452-460 | one turn of the receive loop, on the real buffer and ring, is one step of the pipeline for a line that fits the message buffer, or the hang-up; a longer line is forwarded as far as it fitted and leaves what the cut leaves |
| Pipeline.Forwarder.OnClosed | pi-streaming/main.c:240-245 | a close clears the flag only if it ended the session |
| Lifecycle.StepGood | pi-streaming/main.c:95-259 | every event keeps: streaming only with the detector (and the app, for a file), FFmpeg only while streaming, the detector told to start exactly while streaming |
| Lifecycle.TryGood | pi-streaming/main.c:119-162 | one try at FFmpeg leaves nothing running that is not verified |
| Lifecycle.TriesGood | pi-streaming/main.c:116-167 | however the four tries turn out, success means a live FFmpeg, and failure a STOP tried and nothing running |
| Lifecycle.AtMostOneFfmpeg | pi-streaming/process_manager.c:118-124 | in every run at most one FFmpeg is alive, the managed one, and only while streaming |
| Lifecycle.StartsSeparated | pi-streaming/main.c:95-259 | in every run no two STARTs are delivered without a STOP tried between them |
| Lifecycle.HearsTwoStartsIff | pi-streaming/main.c:253-254 | in every run a START reaches a detector that has heard one and no STOP since exactly when a STOP failed to be sent to it while started and nothing was delivered after |
| Lifecycle.TwoStarts | pi-streaming/main.c:253-254 | a run in which that STOP fails to be sent |
| Lifecycle.ReadyIff | pi-streaming/main.c:225-236 | stream_ready is sent exactly when an app connects and streaming is then active |
| Lifecycle.ReadyIsPublishedIff | pi-streaming/main.c:97-209 | exactly when FFmpeg is then publishing: verified by a camera start, unchecked for a file, and not looked at again while streaming is marked active |
| Lifecycle.ReadyWithNothingPublished | pi-streaming/main.c:501-508 | a run in which a dead camera stream is announced |
| Lifecycle.StaysCameraIff | pi-streaming/main.c:107-115 | a camera stays a camera unless a connect with the detector there tries to start it, unlink succeeds and mkfifo fails |
| Lifecycle.CameraBecomesFile | pi-streaming/main.c:107-115 | a run in which it does, and the app is served the path as a file |
| Lifecycle.TickNotices | pi-streaming/main.c:507-524 | in every run of a file that is not looped, a turn of the main loop leaves it streaming exactly if FFmpeg is alive, and otherwise tries one STOP |
| Lifecycle.ProcessManager.StartFfmpeg | pi-streaming/process_manager.c:118-246 | forks only when nothing is managed |
| Lifecycle.ProcessManager.StopFfmpeg | pi-streaming/process_manager.c:248-286 | however slowly it exits, the managed process is gone and forgotten |
| Lifecycle.ProcessManager.CheckProcesses | pi-streaming/process_manager.c:294-316 | a process that exited by itself is forgotten |
| Lifecycle.Application.constructor | pi-streaming/main.c:414-428 | a camera is started as soon as the detector has connected |
| Lifecycle.Application.StartCameraStream | pi-streaming/main.c:95-168 | the retry loop is the specified sequence of tries |
| Lifecycle.Application.StartFileStream | pi-streaming/main.c:173-209 | START, then FFmpeg, with STOP when it cannot be forked |
| Lifecycle.Application.OnAndroidConnect | pi-streaming/main.c:212-237 | starts the stream if needed and announces it |
| Lifecycle.Application.OnAndroidDisconnect | pi-streaming/main.c:240-259 | stops a file, keeps a camera |
| Lifecycle.Application.OnDetectorLost | pi-streaming/main.c:469-482 | stops FFmpeg with the detector |
| Lifecycle.Application.CheckPlayback | pi-streaming/main.c:507-524 | the end-of-playback check |
| Boxes.IoUIsProportion | SnipeItApp/MySnipeIt-master/app/src/main/java/com/example/mysnipeit/data/network/RaspberryPiClient.kt:595-603 | overlap is symmetric, between 0 and 1, 0 exactly for disjoint boxes and 1 exactly for equal ones |
| Boxes.NoOverflow | SnipeItApp/MySnipeIt-master/app/src/main/java/com/example/mysnipeit/data/network/RaspberryPiClient.kt:595-603 | inside 1920x1080 no intermediate value leaves 32 bits |
| Boxes.EmaBetween | SnipeItApp/MySnipeIt-master/app/src/main/java/com/example/mysnipeit/data/network/RaspberryPiClient.kt:605-606 | a smoothed coordinate lies between the old and the new one |
| Boxes.EmaFixedIff | SnipeItApp/MySnipeIt-master/app/src/main/java/com/example/mysnipeit/data/network/RaspberryPiClient.kt:605-606 | it stands still exactly on the target or one below it |
| Boxes.EmaStaysShort | SnipeItApp/MySnipeIt-master/app/src/main/java/com/example/mysnipeit/data/network/RaspberryPiClient.kt:605-606 | a pixel that stays one short |
| Boxes.EmaSettles | SnipeItApp/MySnipeIt-master/app/src/main/java/com/example/mysnipeit/data/network/RaspberryPiClient.kt:605-606 | it gets there geometrically: each batch leaves at most three tenths of the distance from above, and of the distance less nine sevenths from below |
| Boxes.EmaArrives | SnipeItApp/MySnipeIt-master/app/src/main/java/com/example/mysnipeit/data/network/RaspberryPiClient.kt:605-606 | it has arrived, on the detection or one short of it, once three tenths to the number of batches are small against the distance |
| Boxes.SevenBatchesDo | SnipeItApp/MySnipeIt-master/app/src/main/java/com/example/mysnipeit/data/network/RaspberryPiClient.kt:605-606 | anywhere in the video, seven batches do |
| Boxes.SmoothInFrame | SnipeItApp/MySnipeIt-master/app/src/main/java/com/example/mysnipeit/data/network/RaspberryPiClient.kt:608-614 | smoothing two boxes in a frame gives a box in it |
| Sorting.SortIsStable | SnipeItApp/MySnipeIt-master/app/src/main/java/com/example/mysnipeit/data/network/RaspberryPiClient.kt:640 | sorting permutes, orders best first and keeps ties in order |
| Matching.GreedyOneToOne | SnipeItApp/MySnipeIt-master/app/src/main/java/com/example/mysnipeit/data/network/RaspberryPiClient.kt:642-657 | the claimed pairs are one-to-one |
| Matching.NoBlockingPair | SnipeItApp/MySnipeIt-master/app/src/main/java/com/example/mysnipeit/data/network/RaspberryPiClient.kt:642-657 | every unchosen candidate shares a side with a chosen pair of no smaller weight |
| Matching.HalfOptimal | SnipeItApp/MySnipeIt-master/app/src/main/java/com/example/mysnipeit/data/network/RaspberryPiClient.kt:640-657 | the weight chosen is at least half that of any one-to-one choice |
| Matching.HalfIsTight | SnipeItApp/MySnipeIt-master/app/src/main/java/com/example/mysnipeit/data/network/RaspberryPiClient.kt:640-657 | one half cannot be improved |
| Tracker.ChosenOneToOne | SnipeItApp/MySnipeIt-master/app/src/main/java/com/example/mysnipeit/data/network/RaspberryPiClient.kt:629-657 | the tracker's pairs are one-to-one and each overlaps by at least 0.3 as the boxes were before smoothing |
| Tracker.UnchosenIsBlocked | SnipeItApp/MySnipeIt-master/app/src/main/java/com/example/mysnipeit/data/network/RaspberryPiClient.kt:629-657 | a pair over the threshold and not chosen lost a side to one that overlaps no less |
| Tracker.MatchingIsHalfOptimal | SnipeItApp/MySnipeIt-master/app/src/main/java/com/example/mysnipeit/data/network/RaspberryPiClient.kt:629-657 | total overlap is at least half that of any one-to-one matching |
| Tracker.BatchKeepsIds | SnipeItApp/MySnipeIt-master/app/src/main/java/com/example/mysnipeit/data/network/RaspberryPiClient.kt:659-676 | ids stay unique, ordered and below the counter |
| Tracker.NeverReused | SnipeItApp/MySnipeIt-master/app/src/main/java/com/example/mysnipeit/data/network/RaspberryPiClient.kt:662 | an id given out and gone never comes back before a reset |
| Tracker.EachDetectionIsHeld | SnipeItApp/MySnipeIt-master/app/src/main/java/com/example/mysnipeit/data/network/RaspberryPiClient.kt:645-670 | each detection is held, after the batch, by exactly one track, stamped now |
| Tracker.HoldersDiffer | SnipeItApp/MySnipeIt-master/app/src/main/java/com/example/mysnipeit/data/network/RaspberryPiClient.kt:645-670 | different detections are held by different tracks |
| Tracker.NothingElse | SnipeItApp/MySnipeIt-master/app/src/main/java/com/example/mysnipeit/data/network/RaspberryPiClient.kt:672-676 | every other track is an old one, unchanged; none is older than 600 ms |
| Tracker.BatchSize | SnipeItApp/MySnipeIt-master/app/src/main/java/com/example/mysnipeit/data/network/RaspberryPiClient.kt:626-687 | size = old + incoming - matched - lapsed |
| Tracker.SmoothedBetween | SnipeItApp/MySnipeIt-master/app/src/main/java/com/example/mysnipeit/data/network/RaspberryPiClient.kt:608-614 | each coordinate of a refreshed track lies between old and new, its confidence seven tenths of the way, its id kept |
| Tracker.RunInFrame | SnipeItApp/MySnipeIt-master/app/src/main/java/com/example/mysnipeit/data/network/RaspberryPiClient.kt:626-687 | fed boxes inside the video, all tracks stay inside it over any run |
| Tracker.TargetTracker.CollectCandidates | SnipeItApp/MySnipeIt-master/app/src/main/java/com/example/mysnipeit/data/network/RaspberryPiClient.kt:631-639 | the nested loops collect the specified candidates |
| Tracker.TargetTracker.Assign | SnipeItApp/MySnipeIt-master/app/src/main/java/com/example/mysnipeit/data/network/RaspberryPiClient.kt:642-657 | claiming and smoothing in place does what the greedy choice says |
| Tracker.TargetTracker.AddUnmatched | SnipeItApp/MySnipeIt-master/app/src/main/java/com/example/mysnipeit/data/network/RaspberryPiClient.kt:659-670 | unmatched detections become new tracks with consecutive ids |
| Tracker.TargetTracker.DropExpired | SnipeItApp/MySnipeIt-master/app/src/main/java/com/example/mysnipeit/data/network/RaspberryPiClient.kt:672-676 | exactly the tracks past the timeout go |
| Tracker.TargetTracker.MatchAndSmooth | SnipeItApp/MySnipeIt-master/app/src/main/java/com/example/mysnipeit/data/network/RaspberryPiClient.kt:626-687 | the mutable tracker goes through one specified batch |
| Tracker.TargetTracker.Reset | SnipeItApp/MySnipeIt-master/app/src/main/java/com/example/mysnipeit/data/network/RaspberryPiClient.kt:526-529 | disconnecting starts afresh |
| Tracker.DrainLatest | SnipeItApp/MySnipeIt-master/app/src/main/java/com/example/mysnipeit/data/network/RaspberryPiClient.kt:556-569 | of a burst only the last batch is kept |
| Letterbox.FitsCanvas | pi-streaming/person_streamer.py:227-236 | for every frame and canvas size the resized image fits, fills one direction and is centred to the pixel |
| Letterbox.NothingVanishesIff | pi-streaming/person_streamer.py:227-230 | exactly which frame shapes keep both sides |
| Letterbox.ThinFrameVanishes | pi-streaming/person_streamer.py:229 | a frame that does not |
| Letterbox.MapBackError | pi-streaming/person_streamer.py:296-309 | taking back a point the resize placed errs by at most 1/(2*scale)+1/2 pixel |
| Letterbox.BoxRoundTrip | pi-streaming/person_streamer.py:227-312 | a region the model finds exactly comes back in its place and size, each corner within that error |
| Letterbox.ToFrameInFrame | pi-streaming/person_streamer.py:296-312 | whatever the model puts out, the box lies inside the frame |
| Letterbox.Detect | pi-streaming/person_streamer.py:285-314 | the outputs over the threshold, each inside the frame, in descending order of score with ties in the model's order |
| Letterbox.RescaleFitsIff | pi-streaming/person_streamer.py:420-423 | scaled up 1.5 times with ties to even, every box stays inside the scaled frame exactly when its width is a multiple of four |
| Letterbox.TooFar | pi-streaming/person_streamer.py:496-499 | the box that overshoots in every other width |
| Letterbox.RescaledInFrame | pi-streaming/person_streamer.py:496-499 | every box in 1280x720 is scaled to one inside 1920x1080 |

## Left out

- UnixSocket.Connection.RecvMessage: for a line too long, requires that what is moved down lies inside the buffer; the C code has no meaning beyond it.
- Pipeline.Forwarder.Poll: does not model the ten-message batch limit or the servicing between batches; the order of polls and socket events is arbitrary instead.
- Floating-point rounding: overlap, smoothing, PWM and letterbox arithmetic are exact here.
- Liveness that needs a post to succeed: a full queue refuses a timer event, so only safety and per-cycle bounds are proved.
- Uart.Device.Submit: does not model that a failed io_uring submission leaves its prepared entry in the ring to go out later with a slot already freed; a completion is assumed to carry the slot of a live submission.
- Lifecycle.Application.OnAndroidConnect: does not model the nested servicing of the socket inside the connect callback; events are handled one at a time.
- Lifecycle.ProcessManager.StopFfmpeg: counts a process sent SIGKILL as gone at once, and does not model process ids being reused by other programs.
- Wiring.Start: of the broadcaster's configuration models only its status.
- Distance.DistanceObject.SendEvent and Gps.GpsObject.SendEvent: take the receive buffer as fixed while an event is handled, although a stale FRAME_RECEIVED may be handled while a read into the same buffer is in flight.
- Scheduler.SchedulerObject.SendEvent: ends the program's story where the missing event of slot 0 is used; what a null dereference does is not modelled.
- mediaMTX's own process, which has the same start and stop code as FFmpeg's.
- Torn reads of the shared sensor frame and the broadcaster's copy of it.
- The temperature and humidity sensor's bit timing, the HAL's set-up, termios, GPIO and I2C transfers.
- JSON text, configuration files, logging, the neural network, video and the whole user interface.
- The tracker's reset racing its pacer, and the staleness timer.
