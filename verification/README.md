# Verified model of the data pipeline

A Dafny model of a multi-feeder, multi-consumer pipeline: feeders push messages into input queues, one
broadcaster thread copies every input queue to every output queue, consumers drain their output queue
into files, a thread pool runs all nodes, and a TCP node polls a changing list of clients. The proofs
cover all runs: all interleavings of critical sections, all operation traces, all poll answers.

| File | What it is |
|---|---|
| `Channels.dfy` | The common specification: one append-only log, one cursor per consumer, the items not yet broadcast. |
| `Queue.dfy` | The queue object, one method per critical section, and growth of a vector of queues. |
| `Registry.dfy` | Names and queue ids: registration, removal, reset, and the "empty" slot. |
| `ManagerSpec.dfy` | The data manager at the level of whole operations, and what every trace of them delivers. |
| `DataManager.dfy` | The data manager on the heap; each method does to the channel what the specification says. |
| `Consumer.dfy` | The consumer's drain loop among the operations of all other threads. |
| `BroadcastSteps.dfy` | The running pipeline as a step system over its mutexes, with every interleaving. |
| `BroadcastRequests.dfy` | What a schedule asks for there is what happens: pushes and pops, item by item and client by client. |
| `BroadcastPasses.dfy` | Delivery across passes while no stop is requested. |
| `BroadcastProgress.dfy` | What threads can still do there: stops, freedom from deadlock, ends of pushes and pops. |
| `ThreadPool.dfy` | The pool as a condition-variable protocol, and the pool object whose methods are its steps. |
| `Framework.dfy` | Job order, flags and the order of a stop, on top of the pool. |
| `FeederThreshold.dfy` | How many threads are needed before an input node is served. |
| `FrameworkShutdown.dfy` | When a stop is sure to return, and what has been done then. |
| `Proxy.dfy` | The proxy and framework objects that submit jobs and clear flags. |
| `Reception.dfy` | What a consumer has, and what it is bound to take, of what was pushed. |
| `Pipeline.dfy` | The framework and the queues' threads in one step system, and whether a stop can return. |
| `PipelineDelivery.dfy` | What a consumer of the running pipeline can have. |
| `PipelineStop.dfy` | What consumers have received when a stop returns, and how long it can take. |
| `TcpServer.dfy` | The poll loop over a shrinking list, removal of hung-up clients, and the byte filter. |
| `EndToEnd.dfy` | From the bytes a TCP node reads to the file a consumer writes. |

`dafny verify dfyconfig.toml` checks the whole project.

How the parts fit: `BroadcastSteps` (any interleaving of critical sections, queues registered first) and
`DataManager` (whole operations, registration at any time) both refine `Channels`. Ordering and
exactly-once delivery are proved of the channel once and inherited by both. The methods of the classes
are proved against the specification functions, and the theorems are about those functions. `Framework`
lets a long-running job return once its flag is cleared; `Pipeline` puts the threads of `BroadcastSteps` in
the place of these jobs and proves that this changes nothing about what can and what must happen.

Hypotheses, as the original meets them:

- There is one broadcaster thread (src/dataFramework.cpp:51).
- In `BroadcastSteps` all queues are registered before the broadcaster starts.
- The order of pushes is the order in which an input queue's mutex is taken.
- A schedule is any sequence of steps; a step that is not enabled changes nothing, so no fairness is assumed.
- One thread calls `run` and then `stop` of the framework, and `run` has returned when `stop` is called.
- A TCP node has at most 50 clients, its descriptors are distinct, and one thread runs it at a time.

Findings where the code does less than one might expect, each with its exact condition and a lemma that
shows it happen:

- After `remFeeder`, the next registration can share a queue with a feeder that is still there. In whatever
  registry, a newcomer does so exactly as follows (`RegisterSharesQueueIff`): when it gets a new id, if that id,
  the map's size, is in use; when it takes the "empty" slot, if that slot was shared already; never when it is
  refused. When one feeder leaves and one joins, that is when another feeder leads to the queue whose id is the
  number of names but one; if names and queues corresponded one to one before, that is unless the feeder that left
  had the last queue (`RemoveThenRegister`). `SharedQueueTrace` and `SharedSlotTrace` are such traces. A comment in
  the original (src/dataManager.cpp:128) says that a slot becomes free when a feeder leaves, but `remFeeder`
  leaves no "empty" entry.
- There is one input queue for each registered name and one for each name removed since the last reset
  (`QueuesOfRun`), so the configured maximum is kept exactly as long as there is room for the names that left
  (`MaximumKeptIff`). A single feeder that keeps reconnecting makes the vector grow without bound
  (`ReconnectingGrows`).
- Stopping the pool completes the queued jobs exactly when the queue is empty at that moment
  (`StopDrainsIff`; `StopLeavesJob` is a schedule that leaves a job behind).
- An input node can be served before a stop exactly when there are more threads than long-running jobs, which are the
  broadcaster and the consumers whose file opens (`NodeThresholdIff`, `RoundsThresholdIff`, `PipelineThresholdIff`).
- Stopping the framework is sure to be able to return exactly when every long-running job had set its
  flag before (`ShutdownIff`, `PipelineStopsIff`), because `run` sets the flag to true on entry. With at least
  one worker a stop can come too early (`EarlyStopIsReachable`).
- A stop can leave pushed items in the input queues. What had been pushed when the request landed is all at the
  consumers or in their output queues when the broadcaster has returned, exactly when the last pass was then not
  yet through with the input queue, or the queue was empty or just being copied (`CompleteAfterStop`, and
  `StopDelivers` for the whole pipeline); `StopLosesData` is a schedule with a loss.
- A stop can also leave items in the output queues, where nobody reads them any more: when stop has returned,
  reception is over (`ReceptionIsFinal`). The end-to-end test of the original (test/test.cpp:50-82) looks for every item in
  every consumer's file. In every state of a stop that found all flags set, a consumer is sure to have received all that had been
  pushed into an input queue by then exactly when (`StopReceivesIff`): all of it is at the consumer or in its output
  queue, and either none of it is left in the output queue or some pop of that queue has begun and not ended; or the
  last of it is just being put into the output queue while a begun pop waits for the queue's mutex. In
  `StopLeavesUnread` the last pass brings an item to the output queue after the last pop.
- A client that hung up with bytes unread is removed without reading them, because the hang-up test comes first
  (src/tcp.cpp:122-125): no byte is read from it in that round or any later one, until its descriptor is accepted again
  (`HungupLosesBytes`).
- A poll pass handles every client exactly when nobody, except possibly the last in the list, has hung up
  (`AllHandledIff`), and removes all H hung-up clients exactly when there are none or none is among the last
  H - 1 of the list (`AllRemovedIff`). In the list of two clients of which the first hung up, the second is
  left for the next pass (`SecondIsDeferred`). At least half of the clients are handled (`PassArithmetic`) and
  at most half of the hung-up ones stay (`PassRemovesHalf`), a bound that is met (`AllHungup`).

## Model

| member | source | states |
|---|---|---|
| Channels.PushedIsLoggedOrPending | src/dataManager.cpp:76-101 | over every run, the values pushed into an input queue are the values the log took from it followed by the pending ones: nothing lost, doubled or reordered on the way in |
| Channels.ReceivedIsWindow | src/dataManager.cpp:103-119 | over every run, a consumer has received one gapless window of the log |
| Channels.ReceivedAndRest | src/dataManager.cpp:103-119 | over every run, what a consumer has received, then what its output queue still holds, is the log from where the consumer started |
| Channels.ConsumersAgree | src/dataManager.cpp:76-88 | two consumers received the same value at every log position both windows cover |
| Channels.Monotone | src/dataManager.cpp:76-119 | the log only grows and no cursor moves back |
| Channels.OnlyReadsMove | src/dataManager.cpp:103-119 | only a read of an output queue moves its cursor |
| Channels.NoOutputNoLog | src/dataManager.cpp:83 | without an output queue nothing is taken from the input queues |
| Channels.FlushViews | src/queue.cpp:47-56 | one broadcast hands every output queue the same batch, and an empty batch changes nothing |
| Channels.PassViews | src/dataManager.cpp:76-88 | a pass gives every output queue all pending items, queue by queue, and empties the input queues |
| Queue.Q.constructor | include/queue.hpp:13-15 | a new queue is empty |
| Queue.Q.MoveFrom | include/queue.hpp:22-25 | the new queue has the contents of the other; nothing is promised of the other |
| Queue.Q.MoveAssign | include/queue.hpp:28-34 | the contents move over, and assigning a queue to itself keeps them |
| Queue.Q.Push | src/queue.cpp:5-17 | the item joins at the end |
| Queue.Q.Pop | src/queue.cpp:19-36 | the first item leaves (the non-blocking form, on a non-empty queue) |
| Queue.Q.Empty | src/queue.cpp:71-75 | says whether there are no items |
| Queue.Q.Copy | src/queue.cpp:38-44 | the other queue gains this one's contents, which stay here |
| Queue.Q.CopyAll | src/queue.cpp:47-56 | each queue gains the contents as often as its id is listed, and this queue ends empty |
| Queue.Q.MoveTo | src/queue.cpp:58-64 | all items go to the end of the vector, in order, and the queue ends empty |
| Queue.EmplaceBack | src/dataManager.cpp:127 | growth of the vector, with or without reallocation, changes no contents and keeps the queues distinct |
| Registry.AlwaysSafe | src/dataManager.cpp:121-183 | on every trace, removals included, every id is below the number of queues and there are no more names than the maximum or than queues |
| Registry.BijectionWithoutRemoval | src/dataManager.cpp:37-45 | with no removal since the last reset, names and queues correspond one to one and the maximum is kept |
| Registry.RegisterKeepsBijection | src/dataManager.cpp:121-146 | each outcome of a registration, the inherited "empty" slot included, keeps the correspondence |
| Registry.RegisterKeepsOthers | src/dataManager.cpp:131-135 | a registration moves nobody else's name, except that it may use up the "empty" slot |
| Registry.RemoveKeepsOthers | src/dataManager.cpp:148-157 | a removal takes exactly the one name away: every other name keeps its id, and no queue goes |
| Registry.NameKeepsId | src/dataManager.cpp:121-157 | on every trace a name leads to the same queue from its registration to its removal or a reset, whatever the others do |
| Registry.RefusedIff | src/dataManager.cpp:121-146 | a registration is refused exactly for a name that is registered already and in a full registry without the free slot; else the name gets the map's size as its id and a new queue, or the slot's queue |
| Registry.NamesGetQueuesInOrder | src/dataManager.cpp:121-146 | distinct names up to the maximum get queues of their own, numbered in the order of registration |
| Registry.RegisterSharesQueueIff | src/dataManager.cpp:121-146 | in whatever registry, a newcomer shares a queue exactly when its new id, the map's size, is in use, or the slot it takes was shared already; if no two names shared a queue before, none do afterwards unless it does |
| Registry.RemoveThenRegister | src/dataManager.cpp:148-157 | in whatever registry, after a removal and a registration, of another name or of the same one again, the newcomer shares a queue exactly when another name has the id that is the number of names but one; from a one-to-one registry names stay distinct in their queues exactly when the last queue was left |
| Registry.SharedQueueTrace | src/dataManager.cpp:121-157 | a trace of four operations after which two feeders share a queue |
| Registry.SharedSlotTrace | src/dataManager.cpp:131-135 | a trace after which a newcomer that takes the free slot shares a queue |
| Registry.QueuesOfRun | src/dataManager.cpp:121-157 | on every trace there is one queue for each name and one for each name removed since the last reset |
| Registry.MaximumKeptIff | src/dataManager.cpp:125-127 | on every trace the queues are within the maximum exactly as long as there is room for the names that left |
| Registry.RemovalOutgrowsMaximum | src/dataManager.cpp:125-127 | whenever a feeder leaves and one joins, the same or another, there is one queue more |
| Registry.ReconnectingGrows | src/dataManager.cpp:121-157 | after every trace, k reconnections of one feeder add k queues |
| ManagerSpec.DeliveryFromFeeders | src/dataManager.cpp:76-101 | under every interleaving of whole operations, pushes under the names of an input queue are in the log or pending, once and in order |
| ManagerSpec.DeliveryToConsumers | src/dataManager.cpp:103-119 | what the pops of a consumer returned, then its queue, is the log from its start |
| ManagerSpec.NamesLeadToQueues | src/dataManager.cpp:93-119 | on every trace a registered name leads to a queue that exists |
| ManagerSpec.ConsumersAlwaysBijective | src/dataManager.cpp:159-183 | consumer names and output queues always correspond one to one, within the maximum |
| ManagerSpec.InputQueuesOfRun | src/dataManager.cpp:121-157 | after every trace there is one input queue for each feeder that is registered and one for each that left; that decides whether the maximum is kept |
| ManagerSpec.PassEffect | src/dataManager.cpp:76-88 | a pass moves all pending items to every output queue; without output queues it changes nothing |
| ManagerSpec.PushEffect | src/dataManager.cpp:93-101 | a push adds its item to the queue of its name and changes nothing else; under an unknown name it changes nothing |
| ManagerSpec.PopEffect | src/dataManager.cpp:103-119 | a pop hands out all that the queue of its name holds and changes no other queue; under an unknown name it hands out and changes nothing |
| ManagerSpec.RemovalKeepsPushes | src/dataManager.cpp:148-157 | after a removal the pushes of every other feeder go where they went before, and those of the removed one are dropped |
| ManagerSpec.FeederKeepsQueue | src/dataManager.cpp:121-157 | as long as a feeder is registered its pushes enter one and the same queue, whatever operations others perform |
| ManagerSpec.RegistrationEffect | src/dataManager.cpp:121-183 | the three outcomes of a registration on names and queues |
| ManagerSpec.RemovedFeederStillDelivered | src/dataManager.cpp:148-157 | whatever operations but a reset follow, pending data of a removed feeder is before every consumer at the latest after the next pass, in order; and nothing else is if the pass follows at once |
| ManagerSpec.NewConsumerStart | src/dataManager.cpp:159-183 | a new queue starts at the end of the log, a taken-over slot keeps its unread items, a refusal changes nothing |
| ManagerSpec.BacklogGoesToFirstConsumer | src/dataManager.cpp:83 | everything pushed before any consumer existed is the first batch of the first consumer |
| ManagerSpec.ChannelOfRun | src/dataManager.cpp:37-183 | the queues after any trace are those of the channel after the corresponding events since the last reset |
| ManagerSpec.RegistriesOfRun | src/dataManager.cpp:121-183 | the registries after any trace depend only on its registrations, removals and resets |
| ManagerSpec.HistoryOfRun | src/dataManager.cpp:93-119 | pushes and pops by name are the channel's pushes and reads |
| DataManagement.DataManager.constructor | include/dataManager.hpp:42-45 | a manager without queues or names |
| DataManagement.DataManager.Reset | src/dataManager.cpp:37-45 | all queues and names are dropped |
| DataManagement.DataManager.ManageBroadcast | src/dataManager.cpp:76-88 | as a loop over queue objects: each output queue grows by all input contents in order and all inputs end empty, or nothing changes when there is no output |
| DataManagement.DataManager.BroadcastOne | src/dataManager.cpp:82-87 | the body of that loop is one flush of the channel |
| DataManagement.DataManager.Push | src/dataManager.cpp:93-101 | a known name's queue gains the item, an unknown name's item is dropped |
| DataManagement.DataManager.Pop | src/dataManager.cpp:103-119 | the caller's vector gains the whole output queue, which ends empty; reports whether there was anything |
| DataManagement.DataManager.SetFeeder | src/dataManager.cpp:121-146 | the three outcomes of a registration on maps and queue objects, and the returned flag |
| DataManagement.DataManager.RemFeeder | src/dataManager.cpp:148-157 | the name goes and its queue stays |
| DataManagement.DataManager.SetConsumer | src/dataManager.cpp:159-183 | the same three outcomes on the output side |
| DataManagement.DataManager.Run | src/dataManager.cpp:47-60 | among arbitrary operations of other threads: a pass per round, at least one, until the first round with a stop request; an earlier request is lost |
| DataManagement.RoundsAreOps | src/dataManager.cpp:47-60 | the loop among other threads is one more interleaving of whole operations |
| Consumers.Consumer.constructor | include/consumer.hpp:14-18 | registers the consumer under its name |
| Consumers.Consumer.Drain | include/consumer.hpp:32-37 | one pop and the writing of exactly that batch; the buffer is empty before and after |
| Consumers.Consumer.Run | include/consumer.hpp:24-43 | the file is the concatenation of all popped batches and nothing popped is left unwritten; a stop before the first loop test, or a file that does not open, means nothing is popped |
| Consumers.Consumer.Stop | include/consumer.hpp:45-48 | clears the flag |
| Consumers.WrittenIsWindow | include/consumer.hpp:31-39 | the file is exactly the part of the log the consumer's cursor moved over, whatever the other threads do |
| Consumers.RegisteredOfRun | src/dataManager.cpp:159-183 | after every trace a registered consumer has a queue of its own, as that result needs |
| BroadcastSteps.InvAlways | src/queue.cpp:47-64 | after every schedule of critical sections the invariant indexed by the broadcaster's position holds |
| BroadcastSteps.LocksStep | src/queue.cpp:47-64 | every step keeps mutual exclusion: the owner of a mutex is the one thread in its critical section |
| BroadcastSteps.PushKeepsData | src/queue.cpp:5-10 | a push keeps the queues in step with the log; it cannot fall between a copy and its clear |
| BroadcastSteps.FlushKeepsData | src/queue.cpp:48-49 | locking the source commits its batch to the log |
| BroadcastSteps.CopyKeepsData | src/queue.cpp:50-54 | one destination of the copy gains the batch while others still lack it |
| BroadcastSteps.ClearKeepsData | src/queue.cpp:55-56 | clearing the source after the last destination keeps everything in step |
| BroadcastSteps.MoveKeepsData | src/queue.cpp:58-64 | a consumer may take its queue at any moment, also between two destinations of one batch |
| BroadcastSteps.TotalOrder | src/queue.cpp:47-56 | after every schedule there is one log that each consumer's stream and queue equal, or equal up to the batch in flight |
| BroadcastSteps.ExactlyOnce | src/queue.cpp:47-56 | after every schedule, for each input and consumer: what arrived from the input, then what it holds, is what was pushed, adjusted only for a destination already served |
| BroadcastSteps.StreamsComparable | src/dataManager.cpp:76-88 | of two consumers' received streams one is a prefix of the other |
| BroadcastSteps.RefinesChannel | src/dataManager.cpp:76-119 | every schedule is a legal run of the channel and consumers receive what its reads return |
| BroadcastRequests.RequestsArePushes | src/queue.cpp:5-17 | for every schedule, input queue and item: the requests in the schedule to push the item there are as many as the pushes of it into that queue and the clients inside such a push |
| BroadcastRequests.LandedIsPushed | src/queue.cpp:5-17 | what was pushed into an input queue, in order, with the client of each item |
| BroadcastRequests.ClientOrder | src/dataManager.cpp:93-101 | what a client asked to push into a queue is, in the order of its requests, what it pushed there and what it is about to push |
| BroadcastRequests.PopsAsAsked | src/dataManager.cpp:103-119 | when the consumer of an output queue receives something, that is the whole queue, and the client was last asked to pop this queue |
| BroadcastRequests.PushAlone | src/queue.cpp:5-17 | an undisturbed push adds its item to the end of the queue it names and changes nothing else |
| BroadcastRequests.PopAlone | src/queue.cpp:58-64 | an undisturbed pop hands over all of the queue it names and changes nothing else |
| BroadcastProgress.CompleteAfterStop | src/dataManager.cpp:47-60 | whatever happens between a stop request and the broadcaster's return, what had been pushed into an input queue by then is all delivered exactly when the last pass was not yet through with the queue, or it was empty or just being copied; without later pushes that decides whether the queue ends empty |
| BroadcastProgress.PassedStays | src/dataManager.cpp:82-87 | once the last pass is through with a queue nothing of it is delivered any more |
| BroadcastProgress.StopLosesData | src/dataManager.cpp:47-60 | a schedule in which an item pushed before the stop request is never delivered |
| BroadcastProgress.CasterIsBounded | src/dataManager.cpp:47-60 | after a stop request the broadcaster takes boundedly many steps, whatever the other threads do |
| BroadcastProgress.CasterLeftBound | src/dataManager.cpp:76-88 | that bound is at most n(2m + 4) + 1 for n input and m output queues |
| BroadcastProgress.CasterCanFinish | src/dataManager.cpp:47-60 | and from every such state it can come to its end, with at most one step of another thread before each of its own |
| BroadcastSteps.PassDelivers | src/dataManager.cpp:76-88 | everything pushed when a pass began is with every consumer or in its queue when the pass ends |
| BroadcastPasses.PassesDeliver | src/dataManager.cpp:47-60 | in every state of the running broadcaster: after at least 2(n(2m + 4) + 1) of its steps, on every schedule without a stop request, all that had been pushed into any input queue is with every consumer or in its output queue |
| BroadcastPasses.CasterCanRun | src/dataManager.cpp:47-60 | and it can take any number of steps, with at most one of another thread before each |
| BroadcastPasses.CanDeliver | src/dataManager.cpp:47-60 | so such a schedule exists |
| BroadcastProgress.HolderCanStep | src/queue.cpp:47-64 | while a mutex is held, some holder is not blocked and its step brings the release of all nearer |
| BroadcastProgress.HoldersFinish | src/queue.cpp:47-64 | deadlock freedom: the holders alone can free every mutex within clients + 2 outputs + 1 steps |
| BroadcastProgress.ClientCanRest | src/queue.cpp:5-64 | from every reachable state a client can finish the push or pop it has begun, within a bound |
| ThreadPools.InvAlways | src/threadPool.cpp:3-48 | no lost wakeup, an announced stop and job conservation hold after every schedule |
| ThreadPools.WakeupStep | src/threadPool.cpp:11-36 | every step keeps: a sleeping worker means enough notifications or awake workers for all jobs, or a notification to all to come |
| ThreadPools.NotifyWakesOne | src/threadPool.cpp:29-36 | a notification wakes exactly one sleeping worker, if there is one |
| ThreadPools.WorkersFollowLoop | src/threadPool.cpp:11-27 | a worker sleeps, exits or takes the front job only from the top of its loop, wakes only by a notification or for no reason, and comes back only when its job returns |
| ThreadPools.NobodyOversleeps | src/threadPool.cpp:29-36 | if all workers sleep, each queued job has a notification still to come |
| ThreadPools.DispatchedOnceEach | src/threadPool.cpp:3-26 | dispatched jobs are a prefix of the queued ones, each running or completed; those dispatched and not completed are as many as workers run a job, and no more than the threads that were started |
| ThreadPools.SubmittedIsDispatchedOrQueued | src/threadPool.cpp:14-34 | the jobs that a schedule submits are, in order, those dispatched and those still queued |
| ThreadPools.HeadIsDispatchable | src/threadPool.cpp:11-27 | the head of the queue is at most two steps from dispatch, without a spurious wakeup |
| ThreadPools.ShutdownIsBounded | src/threadPool.cpp:11-48 | once the flag is set nothing is dispatched, no worker starts waiting and, pushes aside, a bounded number of steps is left |
| ThreadPools.ShutdownIsNotStuck | src/threadPool.cpp:38-48 | until all workers have exited some worker or the notification to all can go on |
| ThreadPools.StopDrainsIff | src/threadPool.cpp:17-20 | after a stop exactly the dispatched jobs are completed: all queued ones exactly when the queue was empty |
| ThreadPools.StopLeavesJob | src/threadPool.cpp:17-20 | a schedule of a stop that leaves a job behind |
| ThreadPools.ThreadPool.constructor | include/threadPool.hpp:13-15 | a pool without workers or jobs |
| ThreadPools.ThreadPool.Start | src/threadPool.cpp:3-9 | all workers begin awake |
| ThreadPools.ThreadPool.PushJob | src/threadPool.cpp:30-34 | the job joins the queue and its notification is owed |
| ThreadPools.ThreadPool.Notify | src/threadPool.cpp:35 | one sleeping worker wakes, if any |
| ThreadPools.ThreadPool.QueueJob | src/threadPool.cpp:29-36 | a push and then its notification |
| ThreadPools.ThreadPool.LockAndTake | src/threadPool.cpp:14-23 | sleep, return or take the front job; the flag is tested before the queue |
| ThreadPools.ThreadPool.JobReturns | src/threadPool.cpp:25-26 | the worker goes back to its loop |
| ThreadPools.ThreadPool.SetTerminate | src/threadPool.cpp:39-42 | the flag is set and the notification to all is owed |
| ThreadPools.ThreadPool.WakeEveryone | src/threadPool.cpp:43 | no worker is left asleep |
| Frameworks.InvAlways | src/dataFramework.cpp:41-64 | after every schedule: where each thread is, the order of the queue, the flags, and which workers long-running jobs hold |
| Frameworks.QueueStep | src/dataFramework.cpp:48-55 | every step keeps the queue order: the broadcaster, the output nodes in list order, then the input nodes in list order, round by round |
| Frameworks.InputJobsInOrder | src/proxy.cpp:45-58 | on every run the p-th job after the initial ones, queued or dispatched, is that of input node p modulo their number |
| Frameworks.QueuedInRounds | src/dataFramework.cpp:41-45 | between two rounds the queue has seen the initial jobs and whole rounds, each node once in each |
| Frameworks.LongJobs | src/dataFramework.cpp:48-55 | the long-running jobs are the broadcaster and the consumers whose file opens |
| Frameworks.OneNotificationOwed | src/threadPool.cpp:29-36 | one thread submits at a time and notifies before it goes on |
| Frameworks.LongDispatched | src/dataFramework.cpp:51-52 | no more long-running jobs are dispatched than the initial list has, and all of them before anything after that list |
| Frameworks.DispatchHead | src/threadPool.cpp:11-27 | before the pool's flag is set, one worker that is not held suffices to dispatch the head within two steps |
| FeederThreshold.LongJobsHoldFewWorkers | src/dataFramework.cpp:51-52 | before a stop each dispatched long-running job holds one worker, and never more workers than there are such jobs |
| FeederThreshold.FeedersStarve | src/dataFramework.cpp:41-55 | with at most as many threads as long-running jobs no input node's job is dispatched before a stop |
| FeederThreshold.QueueIsServed | src/proxy.cpp:45-58 | with more threads every queued job can be dispatched, within two steps each |
| FeederThreshold.ThresholdIff | src/dataFramework.cpp:41-55 | an input node can be served before a stop exactly when there are input nodes and more threads than long-running jobs |
| FeederThreshold.NodeThresholdIff | src/dataFramework.cpp:41-55 | each input node can be served before a stop exactly when there are more threads than the broadcaster and the consumers whose file opens |
| FeederThreshold.RoundsThresholdIff | src/proxy.cpp:45-58 | the same holds of any number of jobs of input nodes, one after the other |
| FrameworkShutdown.ShutdownIsBounded | src/dataFramework.cpp:57-64 | after a stop that found all flags set, every schedule does a bounded amount of work, spurious wakeups aside |
| FrameworkShutdown.ShutdownIsNotStuck | src/dataFramework.cpp:57-64 | and until stop returns some thread can go on, where a long-running job may return once its flag is cleared |
| FrameworkShutdown.FinishFrom | src/dataFramework.cpp:57-64 | from every state of such a stop it can return, within that bound, if long-running jobs return as said |
| FrameworkShutdown.FinishedMeansDone | src/threadPool.cpp:38-48 | when stop has returned all workers have exited and every dispatched job is completed |
| FrameworkShutdown.EarlyStopCanHang | src/dataManager.cpp:48-50 | a stop before some long-running job set its flag has a schedule that leaves a worker running with its flag set |
| FrameworkShutdown.StuckForever | src/dataFramework.cpp:57-64 | and from there stop never returns |
| FrameworkShutdown.ShutdownIff | src/dataFramework.cpp:57-64 | a stop is sure to be able to return exactly when every long-running job had set its flag, or there are no workers |
| FrameworkShutdown.EarlyStopIsReachable | src/dataFramework.cpp:48-64 | with at least one worker, a stop right after run can come too early |
| FrameworkShutdown.AllCanEnter | src/dataFramework.cpp:48-55 | with more threads than long-running jobs all of them can have set their flag before stop is called |
| Pipeline.InvAlways | src/dataFramework.cpp:48-64 | with real broadcaster, consumer and pushing threads inside the jobs, the invariants of both systems hold after every run, with one and the same flag |
| Pipeline.RunsOfBoth | src/dataFramework.cpp:48-64 | every run of the whole is a run of the framework and a run of the queues' threads, so delivery order, threshold and shutdown results hold of it |
| Pipeline.CanLeaveLoop | src/dataManager.cpp:47-60 | a broadcaster or consumer whose flag is cleared can get to the end of its loop while the framework stands still |
| Pipeline.Simulates | src/dataFramework.cpp:41-64 | whatever the framework can do with jobs that return once their flag is cleared, it can do with the real threads |
| Pipeline.PipelineThresholdIff | src/dataFramework.cpp:41-55 | with the real threads, too, any number of jobs of input nodes can be served before a stop exactly when there are more threads than the broadcaster and the consumers whose file opens |
| PipelineDelivery.CanReceiveAll | include/consumer.hpp:31-39 | in every state of the running pipeline a consumer whose flag is set can receive all that has been pushed into any input queue |
| Pipeline.PipelineStopsIff | src/dataFramework.cpp:57-64 | a stop of the whole is sure to be able to return exactly when every long-running job had set its flag, or there are no workers |
| Pipeline.FinishedMeansDone | src/threadPool.cpp:38-48 | when stop has returned, a broadcaster that had started has come to its end |
| Pipeline.StopDelivers | src/dataFramework.cpp:57-64 | from the clearing of the broadcaster's flag to the return of stop: what had been pushed is all at the consumer or in its output queue exactly under the condition of CompleteAfterStop |
| Reception.HasAllIff | src/queue.cpp:47-64 | a consumer has received all that was pushed into an input queue exactly when all of it has arrived and none waits in the output queue |
| Reception.SureStep | src/dataManager.cpp:103-119 | no step of any thread undoes that a consumer has, or is bound to take, given items: a begun pop takes all that is in the queue |
| Reception.CanMiss | src/dataManager.cpp:103-119 | without the condition all begun pops can end while the consumer lacks something of what was pushed |
| PipelineStop.ReceptionIsFinal | src/dataFramework.cpp:57-64 | when stop has returned, no consumer receives anything more, whatever happens |
| PipelineStop.StopReceivesIff | src/dataFramework.cpp:57-64 | in every state of a stop that found all flags set: on every way to its return a consumer receives all that had been pushed into an input queue by then, exactly under a condition on that state |
| PipelineStop.StopLeavesUnread | include/consumer.hpp:31-39 | a stop, all flags being set, that returns with an item in an output queue that no consumer received |
| PipelineStop.StopIsBounded | src/dataFramework.cpp:57-64 | once stop has cleared the flags, framework, broadcaster and clients together do a bounded amount of work on every schedule; each spurious wakeup adds one step and each new push two |
| PipelineStop.StopIsNotStuck | src/dataFramework.cpp:57-64 | until stop returns a step other than a spurious wakeup, a new push or a new pop is enabled |
| Proxies.Proxy.AddNode | src/proxy.cpp:16-39 | a node of a known type registers as feeder, consumer or not at all, and joins the list at the end; for another type nothing changes and the call fails |
| Proxies.Proxy.Run | src/proxy.cpp:45-58 | one submission per node in list order, and failure for an empty list |
| Proxies.Proxy.Stop | src/proxy.cpp:60-68 | clears every node's flag |
| Proxies.DataFramework.Run | src/dataFramework.cpp:48-55 | starts the workers, queues exactly the initial jobs of the setup, and then the main thread exists |
| Proxies.DataFramework.RunJobs | src/dataFramework.cpp:41-45 | queues the input nodes' jobs once per round, until the first round in which the flag was cleared, and never if it was cleared before |
| Proxies.RoundOfNodes | src/proxy.cpp:52-55 | the jobs of the input proxy's nodes are a round of the step system |
| Proxies.DataFramework.ClearFlags | src/dataFramework.cpp:58-60 | clears the framework's, the broadcaster's and every node's flag |
| TcpServers.PassArithmetic | src/tcp.cpp:116-135 | with n clients, h handled and r removed: h + r is n or n + 1, at least half are handled, r or r - 1 are deferred |
| TcpServers.PassRemovesHalf | src/tcp.cpp:116-135 | a pass keeps every live client in order and leaves at most half of the hung-up ones |
| TcpServers.AllHandledIff | src/tcp.cpp:120-121 | a pass handles every client exactly when nobody, except possibly the last one, has hung up |
| TcpServers.AllRemovedIff | src/tcp.cpp:120-125 | a pass removes all H hung-up clients exactly when there are none, or none among the last H - 1 of the list |
| TcpServers.SecondIsDeferred | src/tcp.cpp:120-125 | a list of two of which the first has hung up: the second is not handled |
| TcpServers.AllHungup | src/tcp.cpp:122-125 | of n clients that all hung up, n/2 rounded down survive the pass, so the bound is met |
| TcpServers.HungupsVanish | src/tcp.cpp:116-135 | k passes divide the number of hung-up clients by 2^k; all are gone once 2^k exceeds their number, and no live one ever is |
| TcpServers.StripDropsNuls | src/tcp.cpp:101-105 | the filtered text has no NUL, every other character as often as the bytes, and is the bytes if these have no NUL |
| TcpServers.StripConcat | src/tcp.cpp:101-105 | and filtering the parts of the bytes one after the other filters the whole, so the order is kept |
| TcpServers.OneMessagePerRead | src/tcp.cpp:98-112 | a read leads to one message: the filtered bytes, an empty one after a failure, none at the end of the stream |
| TcpServers.EventBits | src/tcp.cpp:90-96 | which bits of a poll answer mean a hang-up and which one data |
| TcpServers.WhatIsRead | src/tcp.cpp:120-130 | in a round a client's bytes are read exactly when it is handled, its data bit is set and none of the hang-up bits, and the read succeeds |
| TcpServers.AcceptedIsClient | src/tcp.cpp:46-65 | a client that was accepted is connected after the round, unless it has hung up |
| TcpServers.OneMoreRound | src/tcp.cpp:35-39 | a round accepts first and then polls; its bytes follow those of the rounds before |
| TcpServers.ChunkingDoesNotMatter | src/tcp.cpp:98-112 | over any rounds, the messages pushed for a client are, end to end, the bytes read from it without the NULs and nothing else dropped, however reads split them |
| TcpServers.HungupLosesBytes | src/tcp.cpp:122-125 | when a pass handles a hung-up client, no byte is read from it in that round or a later one, until its descriptor is accepted again |
| EndToEnd.TextOfRounds | src/tcp.cpp:98-112 | over any rounds, all messages of a server, end to end, are all bytes it read without the NULs and nothing else dropped |
| EndToEnd.FreshServer | src/dataManager.cpp:121-146 | a server that gets a new queue in a manager that no feeder has left has that queue to itself |
| EndToEnd.OwnPushes | src/dataManager.cpp:93-101 | as long as no other name leads to that queue, what enters it is what the server pushes |
| EndToEnd.UndisturbedKeepsQueue | src/dataManager.cpp:121-157 | and no other name does as long as no feeder leaves |
| EndToEnd.ServerPushes | src/tcp.cpp:98-135 | in any mixture of the server's rounds with operations of others, what is pushed under its name are the texts of its messages |
| EndToEnd.FileHoldsBytesRead | include/consumer.hpp:24-43 | for any mixture of the server's rounds with operations of others in which its queue stays its own: what a consumer's file holds from that queue, after what the log held of it before the consumer's loop, is a prefix of the bytes the server read without the NULs |
| TcpServers.QuietPassIsNoPass | src/tcp.cpp:120-121 | skipping the loop when poll reports nothing changes no result |
| TcpServers.TcpServer.constructor | include/tcp.hpp:26-31 | registers the feeder, with no clients |
| TcpServers.TcpServer.AcceptConnectionReq | src/tcp.cpp:46-65 | a new descriptor joins the list, however long it is, and a negative answer changes nothing |
| TcpServers.TcpServer.RemConnectedClient | src/tcp.cpp:71-75 | every entry with this descriptor goes |
| TcpServers.TcpServer.FdToPollFdArray | src/tcp.cpp:169-180 | the snapshot lists the clients in order with the requested events |
| TcpServers.TcpServer.PollFds | src/tcp.cpp:83-88 | the snapshot carries the kernel's answers and the number of entries with an event is returned |
| TcpServers.TcpServer.ReadRxData | src/tcp.cpp:98-112 | one message is pushed, without a NUL, with every other character as often as it was read, and unchanged if no NUL was read; nothing at the end of the stream, an empty message after a failed read |
| TcpServers.TcpServer.CheckRx | src/tcp.cpp:116-135 | the list after the loop and the pushed messages are those of the first h clients, each handled once |
| TcpServers.TcpServer.Run | src/tcp.cpp:35-39 | a connection may be accepted, then one pass |
| TcpServers.TcpServer.RunRounds | src/tcp.cpp:35-39 | over any number of runs the list is that of the rounds and all their messages are pushed in order |

## Left out

- Sockets, accept, poll and read themselves, address lookup, UDP receive and send: foreign calls; accept, poll and read answers are inputs.
- A poll that fails, and several threads in one TCP node at a time.
- TcpServers.TcpServer.CheckRx: requires at most 50 clients; with more the snapshot array of fixed size is too short, and what the original then does is undefined.
- TcpServers.TcpServer.FdToPollFdArray: requires that the clients fit into the array, for the same reason.
- TcpServers.TcpServer.PollFds: requires that the clients fit into the array, for the same reason.
- TcpServers.TcpServer.Run: requires that an accepted client is at most the 50th, for the same reason.
- TcpServers.TcpServer.RunRounds: requires that in every round, for the same reason; the loop over the runs stands for the pool that makes them.
- JSON topology parsing, file checks, mode and node type lookups: one-branch lookups.
- Logging, file opening beyond success or failure, sleeps, and the queue sizes read for log lines.
- Queue.Q.Pop: only the non-blocking form on a non-empty queue; the blocking one waits without a condition and then reads the front of a queue that may be empty.
- The queue's pause, restart and front, which nothing calls.
- The Map mode, whose function is empty; the commented-out or undefined setConf, remConsumer, addHandler and remNode.
- The UDP sender as an output node beyond its job returning: it never registers as a consumer.
- Creation and deletion of the manager's single instance, and the C++ memory model: steps are sequentially consistent.
- Joining a thread is a wait for its end; the pool's thread vector is not emptied after a stop.
- Queue.Q.MoveFrom: says nothing about the source queue, because the language leaves a moved-from deque unspecified.
- DataManagement.DataManager.Run: without a stop request it covers the first rounds of an endless loop, as many as batches are given.
- Consumers.Consumer.Run: without a stop request it covers the first rounds of an endless loop, as many as batches are given.
- Proxies.DataFramework.RunJobs: without a stop it covers the first rounds of an endless loop, as many as flags are given.
- Pipeline.Simulates: the thread that pushes for an input node is not tied to the worker that runs the node's job; it may push at any time. A consumer's output queue may be any.
- EndToEnd.FileHoldsBytesRead: the server must begin with a queue that nothing was pushed into and no other name may come to lead to it; a shared queue would hold the items of both.
- PipelineStop.StopIsBounded: before stop has cleared the flags there is no bound without fairness; the broadcaster may go on with its passes as long as the stopping thread does not move.
- Pipeline.StopDelivers: speaks of what had been pushed when the flag was cleared; of later pushes into a queue that the last pass still comes to, some may be delivered.
- Notifications on a queue's condition variable: only the blocking pop waits for them.
