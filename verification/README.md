# Yao: the event bus, the job dispatcher and four data paths, modelled and proved in Dafny

The project models the parts of Yao whose correctness depends on order, interleaving or exact arithmetic.

- **The in-process event bus** (`event/`). One handler's worker pool is a transition system over two channels used as
  semaphores, a wait group and the deferred calls of each worker (`PoolModel`); one queue is its channel, its two flags
  and its consumer (`QueueModel`). A *cell* is one pool with every queue bound to it and every reply channel
  (`CellModel`); the theorems about it (`CellTheorems`, `CellDrain`) hold for every interleaving of calls, consumers,
  workers, panics, cancellations, releases and aborts. Three more modules tell these results in plain terms: which step
  of a run a Call's answer comes from (`CellAnswers`), how many handlers a pool really reaches (`PoolCapacity`), and how
  many events a queue takes (`QueueCapacity`). The *bus* is any number of cells with the registry and the
  thread that runs Stop (`Shutdown`, `ShutdownSafety`). A handler is any finite number of slices of work, each of which
  may write its reply, return or panic. The queue registry is refined to a machine per ID (`Registry`), the lifecycle
  is proved over every history (`Lifecycle`), listeners and subscribers have their own transition systems
  (`Listeners`, `ListenerSafety`, `Subscribers`), `Routing` relates handler prefixes to listener patterns, and
  `QueueRouting` says which handler an event reaches.
- **The same bus as code.** The classes `WorkerPool`, `EventQueue`, `QueueManager`, `Service`, `ListenerManager`,
  `SubManager` and `EventBus` keep the fields the Go types keep. Every method is one statement or one critical section
  that other goroutines can interleave with, or a whole uninterrupted call; its postcondition is the step, or the run,
  that it takes in the models.
- **The job dispatcher** (`job/worker.go`): submit goroutines, the work queue, the channel of job channels, one
  dispatcher, the workers and Stop (`JobDispatch`, and the class in `JobManagers`).
- **Flat records to a forest** (`helper/array.go`): the three loops of `Tree` over heap nodes, for every order in
  which the map can be traversed (`ArrayTree`, `ForestTheorems`, and `ForestRecords` in terms of the records alone).
- **Chunked uploads** (`attachment/`): Content-Range parsing, the chunk branch of `Upload` over one shared table, and
  what sequences of chunks leave behind, alone and interleaved, and what each chunk is answered (`ContentRange`,
  `ChunkUpload`, `ChunkTheorems`, `ChunkReplies`).
- **JSON paths** (`assert/helpers.go`) and the **job status roll-up** (`job/data.go`): `JsonPath`, `JsonAnswers`,
  `StatusRollup`. `Strconv` has the decimal numbers of paths, headers and generated IDs.

## What turned out false of the code

Each of these is kept as the code has it, with the exact condition under which the property does hold.

- The reservation bounds Push handlers by MaxWorkers - ReservedWorkers only if ReservedWorkers < MaxWorkers; the clamp
  to one Push slot breaks it otherwise (`PoolModel.ReservationHoldsIff`).
- Stop panics when a listener was registered after Start, because its channel is nil; it panics exactly then
  (`ListenerSafety.LateRegistrationPanics`, `ListenerSafety.PanicsIff`, `ListenerManagers.ListenerManager.Stop`).
- Subscribing one channel twice makes sends on, and second closes of, a closed channel reachable; a state is safe
  exactly when every channel still to be closed is open and to be closed once (`Subscribers.SafeIffApart`).
- Stopping the job manager can leave the dispatcher at a send to a worker that has gone, and its request with it, for
  good (`JobDispatch.StopCanStrandARequest`, `JobDispatch.StuckForGood`). The selects may still take work after quit is
  closed, so one queued request, or one submit goroutine, is enough: no run without a new submission strands anything
  exactly when Stop is called with no submit goroutine, no queued request and none in the dispatcher's hands
  (`JobDispatch.StopIsSafeIff`).
- Chunks are indexed in arrival order. A middle chunk sent twice leaves a wrong file behind a row that says uploaded
  (`ChunkTheorems.RetriedChunkCorrupts`). For an upload that sends the first chunk first, and not again after the last,
  every content of a given length is rebuilt exactly when, up to the first sending of the last chunk, the chunks arrive
  in order and once each, the first re-sent at will; what is sent after that changes nothing
  (`ChunkTheorems.RebuiltIffInOrder`, and `ChunkTheorems.ArrivalLaw` for what another order leaves behind).
- The rounding sum of the chunk count can overflow 64 bits; in-order uploads are rebuilt exactly when it does not
  (`ChunkTheorems.ReassemblyIff`).
- A dot joins two JSON paths, whatever the second one is, exactly when the first has no unclosed bracket
  (`JsonPath.DotJoinsIff`).
- A handler prefix with a dot in it can never be reached (`Routing.RoutingAgreesIff`).
- Push and Call look up the handler of the event's prefix, but an event that names a queue is handled by the pool that
  the queue was created with: by another prefix's (`QueueRouting.ForeignHandler`), or by one that a registration has
  replaced since (`QueueRouting.ReplacedHandler`). It reaches the pool that getHandler answered exactly when it names no
  queue, or a live one created for its prefix with neither a registration of that prefix while the service ran nor a
  start that took effect between the two lookups (`QueueRouting.OwnPoolIff`); and the handler, exactly when there was no
  registration of that prefix between them (`QueueRouting.OwnHandlerIff`).
- Stop is said to wait for events in flight, yet it may call Shutdown while a worker is inside Handle: one that a direct
  Push started late (`ShutdownRuns.LatePushInHandle`), or one in a pool that a registration has replaced
  (`ShutdownRuns.ReplacedPoolInHandle`). Such a worker was not counted in a snapshotted pool when Stop began, and its
  event belongs to no queue that abortAll took (`ShutdownRuns.StillInHandle`).
- Reload claims to reload configuration; it never changes anything (`Lifecycle.AfterKeepsPools`).
- A job whose executions are some completed and the rest cancelled is rolled up to "running"
  (`StatusRollup.StatusIff`), although a comment in the code says "cancelled"; that branch is never taken.

## Model

| member | source | states |
|---|---|---|
| PoolModel.TokensConserved | event/worker.go:44-79 | over every run, panics and cancellations included, each semaphore holds one token per live holder within its capacity, the wait group counts the live workers, no event enters Handle twice, and a done channel is closed once and only after both tokens and the count are back |
| PoolModel.HandlersBounded | event/worker.go:29-39 | at most as many Push handlers run at once as semPush has slots, and at most MaxWorkers handlers in all |
| PoolModel.ReservationHoldsIff | event/worker.go:29-39 | the bound MaxWorkers - ReservedWorkers on Push handlers holds in every reachable state exactly when fewer than all workers are reserved |
| PoolCapacity.PushCapacityExact | event/worker.go:29-39 | no run has more Push handlers at once than MaxWorkers - ReservedWorkers, or MaxWorkers if nothing is reserved, or one if at least all are; and some run has exactly that many |
| PoolCapacity.CallCapacityExact | event/worker.go:29-39 | no run has more than MaxWorkers handlers at once, and some run has that many, all Calls |
| PoolCapacity.CancelledReturns | event/worker.go:47-62 | a waiting dispatch whose context is done can return the error by steps of its own, leaving semTotal as it is and semPush without its token |
| PoolModel.ReservedSlotIsComingBack | event/worker.go:66-75 | a full semTotal that fewer than ReservedWorkers Calls occupy hides a Push worker that has left its handler, has given semPush back and can return its semTotal token at once |
| PoolModel.StepKeepsInv | event/worker.go:44-89 | every channel operation, deferred call and handler slice keeps tokens, phases and logs in agreement |
| PoolModel.NeverStuck | event/worker.go:44-79 | with at least one worker, an unfinished dispatch never leaves the pool without an enabled step of its own |
| PoolModel.PoolDrains | event/worker.go:44-94 | a run of the pool's own steps is bounded, and one that cannot go on has finished every dispatch, emptied both semaphores and brought the wait group to zero |
| WorkerPools.WorkerPool.constructor | event/worker.go:29-39 | a new pool is the empty one with MaxWorkers slots for all and MaxWorkers - ReservedWorkers, but at least one, for Pushes |
| WorkerPools.WorkerPool.Dispatch | event/worker.go:44-47 | a call of dispatch starts at the semPush select for a Push and at the semTotal select for a Call |
| WorkerPools.WorkerPool.SelectPush | event/worker.go:47-53 | the select takes one of its ready cases as the model's step, and blocks exactly when neither is ready |
| WorkerPools.WorkerPool.SelectTotal | event/worker.go:55-62 | likewise on semTotal; a cancelled Push goes on to give its semPush token back |
| WorkerPools.WorkerPool.GiveBack | event/worker.go:58-61 | the receive from semPush on the cancelled branch never blocks |
| WorkerPools.WorkerPool.Go | event/worker.go:64-66 | the worker is counted before it exists |
| WorkerPools.WorkerPool.Enter | event/worker.go:66-75 | the worker's defer statements and its entry into Handle are one step of the model |
| WorkerPools.WorkerPool.Handle | event/worker.go:75-75 | the handler works on, returns or panics, and leaves every deferred call to be run |
| WorkerPools.WorkerPool.RunDeferred | event/worker.go:67-73 | the deferred call on top is run, never blocks, and is the model's next step; recoverPanic with nothing to recover is no step |
| WorkerPools.WorkerPool.Unwind | event/worker.go:67-73 | after a return or a panic the worker recovers, gives back semPush, then semTotal, leaves the wait group and closes its done channel, in this order |
| WorkerPools.AllDue | event/worker.go:67-73 | popping the deferred calls last in, first out yields this order for a Push and for a Call, panicking or not |
| QueueModel.EnqueueKeepsInv | event/queue.go:32-46 | an item is accepted exactly when the queue is open and has room, and then goes behind all accepted before it |
| QueueCapacity.ReplyInNumbers | event/queue.go:32-46 | over every history of a buffered queue, the next event is answered released exactly if release or abort came before, and is otherwise accepted exactly while fewer than its capacity of the accepted events are still to be received |
| QueueCapacity.ReplyUnbuffered | event/queue.go:40-45 | an unbuffered queue that is open accepts exactly when every accepted event was received and the consumer waits |
| QueueCapacity.FillsUp | event/queue.go:40-45 | a new queue accepts exactly as many events as its capacity before the consumer receives, and then answers full |
| QueueModel.CloseKeepsInv | event/queue.go:49-75 | release and abort, in any order and repeated, close the channel once |
| QueueModel.FifoConservation | event/queue.go:78-106 | for a queue that was not aborted, handled ++ in flight ++ pending is the accepted sequence without the Calls that dispatch refused |
| EventQueues.EventQueue.Enqueue | event/queue.go:32-46 | the method is the model's Enqueue; released once released, otherwise accepted exactly when the buffer holds fewer events than its capacity or, unbuffered, the consumer waits |
| EventQueues.EventQueue.Release | event/queue.go:49-58 | the method is the model's Release, and never closes twice |
| EventQueues.EventQueue.Abort | event/queue.go:62-75 | the method is the model's Abort, after release too, and touches neither the pending items nor the one in progress |
| EventQueues.EventQueue.Next | event/queue.go:78-80 | the consumer's receive takes the oldest item, ends on a closed empty channel, and otherwise blocks |
| EventQueues.EventQueue.CheckAborted | event/queue.go:81-86 | the aborted check discards the item or lets it through to dispatch |
| EventQueues.EventQueue.Finish | event/queue.go:96-104 | the item ends as handled, or, if it is a Call, as refused |
| EventQueues.EventQueue.Join | event/queue.go:78-106 | the consumer loop of a closed queue always ends, with the channel drained and every accepted item settled in order as foretold |
| EventQueues.OutlookFates | event/queue.go:78-106 | foretold means: an aborted queue discards everything but an item already inside dispatch, a released one drops nothing but refused Calls |
| CellTheorems.QueueConserves | event/queue.go:78-106 | in every reachable state of a queue that was not aborted, handled ++ in flight ++ pending is the accepted sequence without refused Calls whose context is done |
| CellTheorems.HandlesInOrder | event/queue.go:78-106 | a queue's events enter Handle in the order in which they were accepted: the handled ones, then the one in progress, and nothing else |
| CellTheorems.OneAtATime | event/queue.go:78-106 | at most one event of a queue object is between dispatch and the close of its done channel |
| CellTheorems.HandledAtMostOnce | event/bus.go:56-74 | every Push or Call leads to at most one entry into Handle, and a rejected one to none |
| CellTheorems.ChannelSafe | event/queue.go:32-75 | in every interleaving the channel is closed exactly when released holds, and is never sent on or closed again after that |
| CellTheorems.AbortLimitsStarts | event/queue.go:62-86 | after abort's critical section at most one more event of the queue enters Handle, and none unless the consumer was past its check |
| CellTheorems.CallTakesFirstOwnValue | event/bus.go:103-126 | what a Call takes is the first value placed in its own channel, about its own event, and a dispatch error only if dispatch refused it |
| CellAnswers.AnswerIsFirstSend | event/bus.go:103-126 | over every run from an empty cell, what a reply channel holds first is a given value exactly when some step is the first to send for its event and sends just that: the handler's own write, the panic error of its recover, or the error of its refused dispatch; and what the Call takes is this |
| CellAnswers.CallIsToldTheTruth | event/worker.go:75-89 | a Call that takes a value takes what its handler wrote, before any other write and before any panic; one that takes ErrHandlerPanic has a handler that panicked and had written nothing before |
| CellTheorems.UnhandledAnswers | event/queue.go:83-104 | a refused queued Call is answered with the dispatch error, a discarded one never |
| CellSafety.KeepsCore | event/queue.go:78-106 | every step of every goroutine keeps queues, consumers, tasks and channels linked |
| CellOrder.KeepsOrder | event/queue.go:78-106 | every step keeps the order of handled events |
| CellReplies.KeepsReplies | event/worker.go:81-89 | every step keeps reply channels to values their own event justifies |
| CellDrain.NeverStuck | event/queue.go:78-106 | with at least one worker, pool and queues that are not at rest can move without any caller |
| CellDrain.CellDrains | event/queue.go:78-106 | a run without callers is bounded, and at its end every dispatch is finished, every queue empty and every token back |
| CellDrain.ReleaseDrains | event/queue.go:48-58 | from the moment a queue is released and not aborted, every run left to itself ends with its consumer gone and every accepted event handled in order, but for refused Calls |
| ShutdownSafety.ShutdownAfterDrain | event/service.go:147-164 | when Stop calls Shutdown, every queue abortAll took is aborted, drained, without a consumer or an unfinished dispatch, and every worker counted in a snapshotted pool is through |
| ShutdownRuns.StillInHandle | event/service.go:118-164 | a worker inside Handle when Stop calls Shutdown was not counted in a snapshotted pool when Stop began, and its event belongs to no queue that abortAll took |
| ShutdownRuns.LatePushInHandle | event/bus.go:63-76 | a run in which a direct Push that passed getHandler before Stop is handled while Stop calls Shutdown |
| ShutdownRuns.ReplacedPoolInHandle | event/service.go:88-94 | a run in which a handler of a replaced pool is still running while Stop calls Shutdown |
| ShutdownSafety.JoinedStaysSilent | event/queue.go:192-208 | no event of a joined queue enters Handle again, whatever happens later |
| ShutdownSafety.NothingHandledAfterShutdown | event/service.go:147-164 | once Stop calls Shutdown no event of a taken queue is ever handled, through any continuation |
| ShutdownSafety.StepInv | event/service.go:125-173 | every step of Stop and of everything beside it keeps what Stop has aborted, joined and waited for |
| ShutdownSafety.StopNeverStuck | event/service.go:125-173 | while Stop runs, it can take its next step, or the very pool whose queue it joins or whose workers it waits for can move without a caller |
| ShutdownSafety.StopFinishes | event/service.go:125-173 | a run of Stop's steps and of steps that need no caller is bounded, and one that cannot be extended has brought Stop to its end |
| Registry.GetRefinesPerIdMachine | event/queue.go:145-157 | over every history get answers NotFound exactly for IDs never created, Released exactly for created ones that are not live, and otherwise the object of the create the ID is live since; create fails exactly on a live ID |
| Registry.PerIdMachine | event/queue.go:123-208 | each operation moves an ID only along Never, Live, Released, Live |
| Registry.TablesMatch | event/queue.go:109-208 | the two maps are functions of the history |
| QueueManagers.QueueManager.Create | event/queue.go:123-140 | a new empty queue object under the ID, or ErrQueueExists and nothing changed |
| QueueManagers.QueueManager.Find | event/queue.go:145-157 | the method is the registry's Get |
| QueueManagers.QueueManager.Retire | event/queue.go:160-189 | release and abortOne unlist a live queue and release or abort it; all other queues stay as they are |
| QueueManagers.QueueManager.AbortAll | event/queue.go:192-208 | afterwards nothing is listed and every taken queue is aborted, drained and without a consumer, its items settled as foretold |
| Lifecycle.HandlerAlwaysHasPool | event/service.go:201-214 | over every history getHandler answers NotStarted, NoHandler or the latest registration exactly as the history says, and never without a pool made for this very registration |
| Lifecycle.RunningSince | event/service.go:76-116 | a running service has pools made by the Start that started it or by a later registration of their prefix |
| Lifecycle.AfterKeepsPools | event/service.go:177-191 | every operation keeps the pools matched to the registrations, and Reload changes nothing |
| Services.Service.Register | event/service.go:76-94 | the method is the model's Register: while started its prefix gets a new, empty pool that no other prefix shares and no other pool changes; otherwise no pool does |
| Services.Service.Start | event/service.go:98-116 | the method is the model's Start: a new, empty pool for every registration, none shared, or ErrAlreadyStart and every pool as it was |
| Services.Service.BeginStop | event/service.go:125-145 | the flag is down and the snapshot has a pool for every handler |
| Services.Service.Reload | event/service.go:177-191 | the method is the model's Reload, and leaves every pool in place |
| Services.Service.GetHandler | event/service.go:201-214 | the registration with its own pool, exactly when started and registered |
| EventBuses.EventBus.Register | event/service.go:76-94 | a registration keeps the bus valid and touches no pool but its prefix's |
| EventBuses.EventBus.Start | event/service.go:98-116 | new, empty pools for every registration and running listeners, or ErrAlreadyStart and neither changed; the bus stays valid |
| EventBuses.EventBus.Deliver | event/bus.go:31-126 | Push and Call announce every routable event under a new ID to the listeners and to exactly the subscribers that can take it, then touch exactly one queue, or one pool, or neither, with the registry's and the queue's own errors; an event without a handler leaves no trace |
| EventBuses.EventBus.ToQueue | event/bus.go:56-65 | the queue branch gives the registry's error or the queue's reply and changes no other queue |
| EventBuses.EventBus.QueueCreate | event/bus.go:130-147 | a queue of the registered capacity under the given ID or the one generated from the prefix and the next number; ErrQueueExists exactly when that very ID is live; or no registration; and errors change no queue |
| EventBuses.GeneratedIdsDiffer | event/bus.go:136-141 | two generated IDs are equal exactly for the same prefix and the same number, so a generated one can only meet an ID that a caller chose |
| QueueRouting.OwnPoolIff | event/bus.go:33-74 | over every history of lifecycle and registry, a routable event reaches the pool getHandler answered exactly when it names no queue, or a live one created for its prefix and that prefix's pool was not replaced between the two lookups |
| QueueRouting.OwnHandlerIff | event/bus.go:33-74 | and the handler of the registration getHandler answered exactly when that prefix was not registered again between them |
| QueueRouting.TargetServesItsRegistration | event/service.go:76-116 | the pool getHandler answers was made for the latest registration of the prefix |
| QueueRouting.ForeignHandler | event/bus.go:56-65 | a history and an event that is handled under another prefix |
| QueueRouting.ReplacedHandler | event/service.go:88-94 | a history in which a prefix is registered again after its queue was created, and the old handler gets the event |
| Routing.RoutingAgreesIff | event/listener.go:125-134 | the pattern p.* matches exactly the dotted event types routed to prefix p if and only if p has no dot |
| Routing.RoutedTo | event/bus.go:21-26 | for a dot-free p, starting with p. means having a dot and p for prefix |
| Routing.PrefixHasNoDot | event/bus.go:21-26 | no event type is routed to a prefix with a dot |
| Routing.PatternMeans | event/listener.go:125-134 | a pattern matches an event type exactly if it is *, or the type itself, or p.* for some p with p. in front of the type |
| Listeners.KeepsInv | event/listener.go:54-119 | every step of notify, stop, register and the consumers keeps buffers, channels and offers in agreement |
| ListenerSafety.DeliveredInOrder | event/listener.go:67-103 | what a listener was given, is being given and has buffered is a subsequence of its wanted notifications, none twice and none before one that had returned when it began |
| ListenerSafety.NothingMissed | event/listener.go:82-103 | once notify has returned, a wanted event is with the listener or was dropped by it, and not both |
| ListenerSafety.DropsOnlyWhenFull | event/listener.go:97-101 | a listener with a channel drops exactly when its buffer is full, or unbuffered without a taker |
| ListenerSafety.PanicsIff | event/listener.go:82-119 | no send meets a closed channel, none is closed twice, and a step panics exactly when stop comes to an entry registered after start |
| ListenerSafety.LateRegistrationPanics | event/listener.go:106-114 | the run start, register, stop panics |
| ListenerSafety.OnTimeIsSafe | event/listener.go:33-34 | with registrations only before start no run panics |
| ListenerSafety.LateEntryEndsStop | event/listener.go:112-114 | with a late registration stop never gets past it |
| ListenerSafety.DeliveredBeforeShutdown | event/listener.go:115-118 | a listener's Shutdown comes after everything its buffer took was delivered |
| ListenerSafety.SilentAfterShutdown | event/listener.go:115-118 | and until the next start nothing more is delivered |
| ListenerSafety.StopNeverStuck | event/listener.go:106-119 | while stop waits, it or the consumer it waits for can move |
| ListenerManagers.ListenerManager.Start | event/listener.go:54-64 | the loop gives every entry an open channel and a consumer |
| ListenerManagers.ListenerManager.Notify | event/listener.go:82-103 | the loop is a run of the model that offers the event, in registration order and once, to exactly the entries whose pattern is *, the type itself or p.* with p. in front of it, and whose filter lets it through |
| ListenerManagers.ListenerManager.Stop | event/listener.go:106-119 | stop panics exactly when an entry is late, and otherwise returns with every channel closed, every consumer gone and every buffer delivered |
| Subscribers.SubscriberSafety | event/sub.go:39-112 | in every interleaving of subscribe, notify, unsubscribe and clear, if each subscription brings a channel of its own that nobody else closes, no send meets a closed channel and each channel is closed at most once |
| Subscribers.SafeIffApart | event/sub.go:57-112 | notify calls under way or not, no later run that brings its own channels panics exactly when every channel still to be closed is open and to be closed for one subscription |
| Subscribers.SubscribingTwiceIsUnsafe | event/sub.go:39-55 | subscribing a channel that is already subscribed makes a state unsafe |
| SubManagers.SubManager.Subscribe | event/sub.go:39-55 | the entry is there under a new ID |
| SubManagers.SubManager.Unsubscribe | event/sub.go:59-71 | the entry is gone at once and its channel is then closed: a run of the model |
| SubManagers.SubManager.Notify | event/sub.go:76-95 | the event reaches exactly the subscribers whose pattern matches it, whose filter, if any, lets it through, and whose channel is open and has room, in any order: a run of the model |
| SubManagers.SubManager.Clear | event/sub.go:98-112 | every entry is gone at once and each channel is then closed: a run of the model |
| JobDispatch.OnePlaceEach | job/worker.go:138-186 | over every run each submitted request is at exactly one of submit goroutine, queue, dispatcher, worker, finished, withdrawn, dropped |
| JobDispatch.ProcessedOnceInOrder | job/worker.go:170-186 | each request is processed at most once, and processing starts in work-queue order |
| JobDispatch.RegisteringNeverBlocks | job/worker.go:216-220 | a worker has one registration outstanding, so its send on the pool channel finds room |
| JobDispatch.RejectsExactlyWhenFull | job/worker.go:138-147 | over every run the work queue holds at most four requests for each worker, and a new one is turned away exactly when it holds that many |
| JobDispatch.QueueFills | job/worker.go:77-85 | and some run has it hold any number up to that |
| JobDispatch.StopIsSafeIff | job/worker.go:105-135 | before Stop, no run without a new submission ends with the dispatcher at a send to a worker that has left if and only if there is no submit goroutine, no queued request and none in the dispatcher's hands |
| JobDispatch.SendHasReceiver | job/worker.go:176-178 | the dispatcher's send has a ready receiver exactly when that worker has not stopped, so always before Stop |
| JobDispatch.StuckForGood | job/worker.go:176-178 | a dispatcher whose receiver has stopped stays there in every run, and its request is never started |
| JobDispatch.StopCanStrandARequest | job/worker.go:105-135 | a run in which Stop brings this about |
| JobDispatch.NeverStuck | job/worker.go:138-231 | before Stop, an open request means that the manager can move by itself |
| JobDispatch.Drains | job/worker.go:138-231 | before Stop, runs without callers are bounded and end with every request finished or withdrawn |
| JobDispatch.KeepsInv | job/worker.go:138-231 | every channel operation keeps registrations, order and work in agreement |
| JobManagers.WorkerManager.constructor | job/worker.go:77-102 | one registering worker for each ID, empty channels |
| JobManagers.WorkerManager.SubmitJob | job/worker.go:138-167 | turned away exactly when the work queue holds four requests for each worker |
| JobManagers.WorkerManager.SubmitterTurn | job/worker.go:157-164 | the submit select takes a ready case, and blocks exactly when neither is |
| JobManagers.WorkerManager.DispatcherTurn | job/worker.go:170-186 | the dispatcher's operation is a step of the model, and it blocks exactly when none is enabled |
| JobManagers.WorkerManager.WorkerTurn | job/worker.go:216-231 | a worker's operation is a step of the model; only a waiting worker can have to wait |
| JobManagers.WorkerManager.Stop | job/worker.go:105-135 | the dispatcher's and every worker's quit are closed once |
| JobManagers.WorkerManager.RunToRest | job/worker.go:157-231 | the goroutines' loops, any that can move taking its turn and cancelled submitters free to withdraw, come to rest, and then every request has been processed or withdrawn |
| ArrayTree.Tree | helper/array.go:198-247 | the forest of fresh nodes has the root keys in input order and each key once in its parent's list, for every map order |
| ArrayTree.Link | helper/array.go:213-229 | the second loop, in any order, puts each linked key once into its parent's list and nothing else anywhere |
| ArrayTree.AppendChild | helper/array.go:223-228 | an append changes one children list only |
| ForestTheorems.ForestIsComplete | helper/array.go:198-247 | a record occurs at exactly one place if its parent chain ends at a root and nowhere otherwise; with parent fields everywhere, nowhere means that its chain enters a cycle |
| ForestTheorems.ForestIsSound | helper/array.go:198-247 | whatever an index path leads to is a record |
| ForestTheorems.RootOrCycle | helper/array.go:213-229 | a parent chain ends at a root or enters a cycle, never both |
| ForestTheorems.OccursOnce | helper/array.go:213-246 | two index paths to the same key are equal |
| ForestTheorems.TopLevel | helper/array.go:231-245 | the top level holds exactly the keys whose parent is empty or unknown |
| ForestTheorems.RootKeysExact | helper/array.go:231-245 | which keys are listed at the top, by records |
| ForestRecords.ChildrenByRecords | helper/array.go:213-229 | with distinct keys a record is among the children of another, and then once, exactly if its formatted parent is the other's key and is not the empty value |
| ForestRecords.RootsByRecords | helper/array.go:231-245 | a record is on top, and then once, exactly if it has a parent field that is the empty value or no record's key |
| ForestRecords.RootsInInputOrder | helper/array.go:231-245 | the top level keeps the order of the records |
| ForestRecords.LastRecordWins | helper/array.go:202-211 | of several records with one key the last is kept |
| ContentRange.HeaderRoundTrip | attachment/fileheader.go:79-121 | the header of bytes s to e of t is read back as (s, e, t) exactly when t fits 64 bits, and is complete exactly when e + 1 = t |
| ContentRange.ParsersAgree | attachment/fileheader.go:36-121 | the two parsers agree on every header GetChunkInfo accepts, well-formed or not |
| ContentRange.PositionsNotNegative | attachment/fileheader.go:104-120 | start and end are never negative, so the first chunk's size is never zero |
| ContentRange.SlashesMatter | attachment/fileheader.go:36-99 | a header without exactly one slash reads as three zeros with no error, and is never complete |
| ContentRange.DashesMatter | attachment/fileheader.go:36-108 | with one slash an unreadable total is an error, and a range without exactly one dash reads as three zeros |
| ContentRange.NumbersMatter | attachment/fileheader.go:36-121 | with one of each the three numbers are read as they stand, any unreadable one is an error, and only the end and the total decide whether the header is complete |
| ChunkUpload.Manager.Upload | attachment/manager.go:389-502 | the chunk branch does to its own file's state what the model says and touches no other file's |
| ChunkUpload.Manager.MergeChunks | attachment/local/storage.go:108-143 | pieces are joined in index order up to the first missing one, and dropped only when none is |
| ChunkUpload.Manager.SaveFileToDatabase | attachment/manager.go:1178-1251 | a record that exists keeps its metadata, another is created |
| ChunkTheorems.UploadAll | attachment/manager.go:389-502 | under any interleaving every file ends as if its own chunks had been the only ones |
| ChunkTheorems.ArrivalLaw | attachment/manager.go:414-499 | for any arrivals between the first chunk and the last, the stored file is the chunks in arrival order, and too few arrivals leave the upload open |
| ChunkTheorems.RebuiltIffInOrder | attachment/manager.go:414-442 | among uploads that send the first chunk first and not again after the last, every content of the length is rebuilt exactly when, up to the first sending of the last chunk, the chunks arrive in order and once each, the first re-sent at will |
| ChunkTheorems.ClosedForGood | attachment/manager.go:414-418 | once the last chunk has found enough arrivals, later chunks change nothing |
| ChunkTheorems.RetriedChunkCorrupts | attachment/manager.go:422-442 | three chunks with the middle one sent twice leave a wrong file, a closed upload and a row that says all is there |
| ChunkTheorems.ReassemblyIff | attachment/manager.go:389-502 | an in-order upload, the first chunk re-sent at will, stores the content exactly when the 64-bit rounding sum does not overflow, and then closes the upload and its row |
| ChunkTheorems.InterleavedReassembly | attachment/manager.go:389-502 | the same among any other traffic |
| ChunkTheorems.UploadAmongOthers | attachment/manager.go:389-502 | on the server's own state, after any traffic whose calls for a new file are an in-order upload, the stored file is the content |
| ChunkTheorems.TotalChunksExact | attachment/manager.go:398-399 | the chunk count is the ceiling while the sum fits, and not positive otherwise |
| ChunkReplies.ReplyToChunk | attachment/manager.go:414-499 | chunks with any metadata and any sizes: each later one is answered with the first one's metadata and its place in order of arrival times the first one's size, a repeated first one with its own and zero; the row keeps the first metadata |
| ChunkReplies.ReplyToLast | attachment/manager.go:466-499 | the last chunk is answered with the first one's total and metadata as uploaded and marks the row so, or with a missing piece and the upload still open |
| ChunkReplies.Refusals | attachment/manager.go:390-418 | invalid chunk info exactly for an unreadable header, chunk data not found exactly for a later chunk of an upload nobody opened, and then nothing changes |
| JsonPath.ParsePathSegments | assert/helpers.go:111-146 | the scanner computes the segments of the path |
| JsonPath.ExtractPath | assert/helpers.go:69-108 | the loop walks the segments |
| JsonPath.DotJoinsIff | assert/helpers.go:111-146 | the segments of p.q are those of p and those of q, for every q, exactly when p has no unclosed bracket |
| JsonPath.ExtractJoin | assert/helpers.go:69-146 | extracting p.q is extracting q from what p extracts |
| JsonAnswers.ExtractIndex | assert/helpers.go:79-96 | the path [n] on an array extracts the element numbered n from zero, and nil beyond its end |
| JsonAnswers.ExtractBadIndex | assert/helpers.go:81-94 | an index that is negative or no 64-bit number extracts nil from anything |
| JsonAnswers.ExtractIndexElsewhere | assert/helpers.go:86-89 | an index extracts nil from anything but an array |
| JsonAnswers.ExtractField | assert/helpers.go:97-104 | a field path extracts that field of an object, nil if it has none, and nil from anything else |
| JsonAnswers.ExtractNothing | assert/helpers.go:74-77 | the empty path, or dots alone, extract the value itself |
| JsonAnswers.DropsOpenBracket | assert/helpers.go:111-146 | a bracket that is never closed is dropped, and what follows it is read on as if after a dot |
| JsonAnswers.SignedNumbers | assert/helpers.go:81-84 | an index with a minus sign is the negative number and one with a plus sign the number itself, each within 64 bits |
| JsonPath.PrintParse | assert/helpers.go:111-146 | printing any list of field and index segments and parsing the path gives the list back |
| StatusRollup.UpdateJobProgress | job/data.go:1251-1308 | the counting loop computes the roll-up; no update without an ID or executions |
| StatusRollup.StatusIff | job/data.go:1293-1308 | each status in closed form over the executions; cancelled means that all are |
| StatusRollup.OrderIrrelevant | job/data.go:1267-1308 | status and progress depend only on the multiset of executions |
| StatusRollup.AverageWithin | job/data.go:1290-1291 | the average stays within whatever bounds all executions keep |
| StatusRollup.AverageRoundsTowardZero | job/data.go:1290-1291 | the average times the number of executions is less than that number away from the sum, on the side of zero |

## Left out

- EventBuses.EventBus.Deliver: ends where dispatch or the wait for the reply begins; what follows is in the cell model.
- Services.Service.Start: the pools only; the listeners' part of the same critical section is joined to it in `EventBuses.EventBus.Start`.
- ChunkUpload.Manager.Upload: gzip and image compression are off, and storage and the database do not fail except for a missing piece. One call at a time; chunks of the same file sent concurrently race on the entry's counter and are not modelled, chunks of different files are independent.
- ChunkTheorems.InterleavedReassembly: file IDs of different uploads are distinct.
- ArrayTree.Tree: keys and parents are the strings the code formats them to; the other fields are carried along unseen, and records that bring a children field of their own are not modelled.
- StatusRollup.UpdateJobProgress: the progress sum is an unbounded integer, and the database write is its result.
- Lifecycle.HandlerAlwaysHasPool: Reset, which only tests use, is not among the operations.
- Start and Stop running concurrently with each other; the model has one Stop at a time and no Start during it.
- Handlers that Push or Call from inside Handle: a handler is a finite number of slices, so the slots that nested Calls wait for are not modelled.
- Queues released before Stop: abortAll does not see them, and neither do the results about what it took.
- Seriality across queue objects: an ID can be created again while its old object drains, and results are per object.
- Callbacks (filters, listeners, handlers) are arbitrary and end; their effects, payloads, sessions and authorisation are not modelled.
- Contexts are a flag that may become set; deadlines, sleeps and every other kind of timing are left out.
- The Go memory model below single channel operations and critical sections, and the fairness of select and of mutexes.
- A negative MaxWorkers or buffer size, at which Go's make panics.
- Execution bodies and cancellation of jobs: processing a request is a step between its start and its end.
- Storage drivers other than the local one, file paths, logging, HTTP, gRPC and the database beyond one row per file.
- JSON numbers and their formatting: a scalar carries whatever it is.
