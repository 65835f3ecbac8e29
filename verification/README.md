# Concurrency, control flow and lookup: a verified model

The project models the task machinery of an event-processing framework and proves what it promises.

* **Serial task queues** (`SerialTaskQueue.dfy`, `SerialTaskQueueRuns.dfy`, `SerialTaskQueueHistory.dfy`,
  `SerialTaskQueuePause.dfy`, `SerialTaskQueueObject.dfy`): a FIFO, a pause counter, a token for the chosen task and a
  spin flag, used by any number of threads. Every atomic access is one step of a transition system; a class gives the
  member functions as one thread sees them.
* **Chains of queues** (`SerialTaskQueueChain.dfy`, `ChainProgress.dfy`, `ChainOrder.dfy`, `ChainCalls.dfy`,
  `ChainDeadlock.dfy`): an action holds all queues of its chain by pausing them one after the other, runs, and resumes
  them.
* **Limited task queues** (`LimitedTaskQueue.dfy`, `LimitedTaskQueueCalls.dfy`, `LimitedTaskQueueProgress.dfy`): the
  same action is offered to N serial queues and claimed once.
* **Waiting task lists** (`WaitingTaskList.dfy`, `WaitingTaskListSteps.dfy`, `WaitingTaskListRuns.dfy`,
  `WaitingTaskListProgress.dfy`, `WaitingTaskListHistory.dfy`, `WaitingTaskListPreset.dfy`, `WaitingTaskListLate.dfy`,
  `WaitingTaskListCache.dfy`, `WaitingTaskListObject.dfy`): a lock-free list of tasks that wait for a result, reused in
  cycles, first with all calls acting concurrently, then as a linked structure changed in place.
* **Waiting tasks and their holders** (`WaitingTaskHolder.dfy`, `WaitingTaskTally.dfy`, `HolderObjects.dfy`): the
  reference count and the exception slot, first with all holders acting concurrently, then as objects.
* **Pipelines** (`ChainFirst.dfy`, `ChainFirstRuns.dfy`, `ChainFirstProgress.dfy`): declared chains become nested tasks;
  their runs are compared with a left-to-right interpreter.
* **Decision graphs** (`DecisionGraph.dfy`, `DecisionSteps.dfy`, `DecisionCallbacks.dfy`, `DecisionSoundness.dfy`,
  `DecisionAnswers.dfy`, `DecisionEnds.dfy`, `DecisionSilence.dfy`, `DecisionSharing.dfy`, `DecisionForest.dfy`,
  `DecisionNodes.dfy`): And and Or nodes exchange requests and decisions by re-entrant callbacks and decide early. What
  is decided, and who answers, on all acyclic graphs; on forests also who is asked.
* **Type names** (`TypeDemangler.dfy`, `RemoveParameter.dfy`, `TypeNames.dfy`): rewriting loops over strings, and what
  they mean for names of types.
* **Product indices** (`ProductResolverIndexHelper.dfy`): an index with a default per group of keys.

Concurrency is sequentially consistent interleaving: a system state, one step per atomic access, arbitrarily many
activities, and theorems about every reachable state. History fields record what happened and steer nothing; the
theorems about whole runs read what happened off the calls and the states instead. `task_group::run` adds a runner that
may start at any later time, and the concurrent queue is an atomic FIFO.

## Where the code and its comments disagree

The model follows the code. Each of these is a lemma with a concrete run or input, next to the exact condition or the
weaker property that does hold.

* `pause()` says that no further task is started once the running one finishes. A pick that has read the counter before
  may still start one (`PauseLetsAPassedPickStart`, `PauseIsTightIffNothingArmed`, `PausedStartsAreCharged`).
* An And node whose two children are the same node takes both callbacks for its left child's. When that node says GO it
  sends SKIP exactly if it is in progress at the second one, and otherwise nothing (`AndOfOneNodeSkips`, `OneNodeTwice`,
  `RightIffNothingMisheard`).
* With shared nodes a root can be left without an answer: because its left child called before it was asked, or because
  a node nobody wants told a shared child off twice (`SharingCanLeaveARootSilent`, `OwnLeftChildrenDoNotSuffice`,
  `RootAfterItsLeftChild`). These are the only reasons (`SilentMeansStuck`), and where sharing is on the right only,
  next to trees, they do not occur (`EndedRunsAnswer`).
* The holder overload of `add` stores to its node once more after linking it, possibly after the node was given up, or
  deleted if it did not come from the cache (`SecondStoreCanComeLate`, `SecondStoreIsLateIff`).
* The call that removes the space before `[` removes only one (`BracketCallNormalisesIff`).
* The loop of `removeParameter` does not end on a name with an argument that is never closed (`UnclosedNeverEnds`,
  `EndsIffAlwaysClosed`).

## Model

| member | source | states |
|---|---|---|
| SerialTaskQueueProtocol.MoveKeepsInv | src/Concurrency/src/SerialTaskQueue.cc:40-110 | every atomic step of push, resume, pick, spawn and the runner loop, and every pause, keeps the whole protocol invariant: one holder of the spin flag, one holder of the chosen token, no lost wakeup, tasks conserved in order |
| SerialTaskQueueHistory.SerialHistory | src/Concurrency/src/SerialTaskQueue.cc:40-55 | in every run tasks are executed in the order of the calls that pushed them, one at a time, each in its own group, also after the loop has handed the token to another group; executed, chosen and queued tasks are all that were pushed |
| SerialTaskQueueHistory.OwnGroupStays | src/Concurrency/src/SerialTaskQueue.cc:42-54 | a runner that has picked a task executes it itself exactly if the task is of its group, and otherwise gives it to a new runner; a caller of push or resume always does |
| SerialTaskQueueHistory.LastResumeLooks | src/Concurrency/src/SerialTaskQueue.cc:57-66 | a resume adds a look at the queue exactly if it was the last one due |
| SerialTaskQueueHistory.RestMeansAllExecuted | src/Concurrency/src/SerialTaskQueue.cc:93-110 | no lost wakeup: when a run with as many resumes as pauses has come to rest, every task pushed in it has been executed, in order |
| SerialTaskQueueProtocol.ProductiveStepDecreases | src/Concurrency/src/SerialTaskQueue.cc:89-110 | each step other than a futile turn of the spin loop brings the queue nearer to rest |
| SerialTaskQueueProtocol.HelpingStepExists | src/Concurrency/src/SerialTaskQueue.cc:96-98 | while anything is under way some activity can make such a step, so the spin loop never waits for nobody |
| SerialTaskQueueHistory.MaximalRunExecutesAll | src/Concurrency/src/SerialTaskQueue.cc:84-110 | whatever productive steps are taken after a run, they are boundedly many, and when none is left and every pause has been resumed, every task pushed has been executed |
| SerialTaskQueuePause.PausedStartsAreCharged | src/Concurrency/Concurrency/SerialTaskQueue.h:91-100 | each task started while the queue stays paused is matched by a pick that had passed the pause test already |
| SerialTaskQueuePause.PauseIsTightIffNothingArmed | src/Concurrency/Concurrency/SerialTaskQueue.h:91-100 | while the queue stays paused no task can start if and only if no activity had passed the pause test: exactly when the promise of the header holds |
| SerialTaskQueuePause.PauseLetsAPassedPickStart | src/Concurrency/src/SerialTaskQueue.cc:89-105 | a reachable state where the promise of the header fails: the queue is paused while a task runs, and a second one still starts |
| SerialTaskQueues.StepByStepIsPickAlone | src/Concurrency/src/SerialTaskQueue.cc:89-110 | without interference the sequence of accesses of a pick has the effect of one conditional pop |
| SerialTaskQueues.SerialTaskQueue.Pause | src/Concurrency/Concurrency/SerialTaskQueue.h:100 | the counter goes up, and the result says whether the queue was running before |
| SerialTaskQueues.SerialTaskQueue.Resume | src/Concurrency/src/SerialTaskQueue.cc:57-66 | the counter goes down and at 0, only then, a task is picked and spawned |
| SerialTaskQueues.SerialTaskQueue.PushTask | src/Concurrency/src/SerialTaskQueue.cc:68-82 | the task goes to the end of the FIFO; at most one task is picked and spawned |
| SerialTaskQueues.SerialTaskQueue.FinishedTask | src/Concurrency/src/SerialTaskQueue.cc:84-87 | the token is given up and the next task picked |
| SerialTaskQueues.SerialTaskQueue.PickNextTask | src/Concurrency/src/SerialTaskQueue.cc:89-110 | nothing happens when paused, taken or empty; otherwise the head is popped and the token taken |
| SerialTaskQueues.SerialTaskQueue.RunTasks | src/Concurrency/src/SerialTaskQueue.cc:42-54 | the runner executes tasks of its own group only, in FIFO order, hands the first one of another group on, and stops otherwise only when paused or empty; nothing is lost or reordered |
| SerialTaskQueueChain.MoveKeepsInv | src/Concurrency/Concurrency/SerialTaskQueueChain.h:75-113 | every step of any number of chains over shared queues keeps: each action is in exactly one place, with its own group in every queue, and each pause and each outstanding count is owned by an action |
| SerialTaskQueueChain.QuiescentMeansComplete | src/Concurrency/Concurrency/SerialTaskQueueChain.h:75-114 | chains with distinct queues in one common order cannot get stuck: when nothing is under way every queue is empty and unpaused, nothing is outstanding and every action has left |
| SerialTaskQueueChain.EmptyFrom | src/Concurrency/Concurrency/SerialTaskQueueChain.h:86-98 | the heart of it: the greatest non-empty queue cannot be paused, because whoever paused it would wait in a greater one |
| SerialTaskQueueChain.PausesAreAccountedFor | src/Concurrency/Concurrency/SerialTaskQueueChain.h:101-114 | each pause count is the number of actions that paused the queue and have not resumed it, for throwing actions too |
| ChainDeadlock.OppositeOrdersGetStuck | src/Concurrency/Concurrency/SerialTaskQueueChain.h:86-98 | the common order is needed: two chains over the same two queues in opposite orders can come to rest with both queues paused and neither action run |
| ChainProgress.ProductiveMoveDecreases | src/Concurrency/Concurrency/SerialTaskQueueChain.h:85-113 | every step other than a new call or a futile spin lowers one rank of the whole system |
| ChainProgress.ProductiveMoveExists | src/Concurrency/Concurrency/SerialTaskQueueChain.h:85-113 | while anything is under way such a step can be made |
| ChainProgress.MaximalRunCompletes | src/Concurrency/Concurrency/SerialTaskQueueChain.h:75-114 | any run of productive steps is bounded, and when none is left every action has run, every queue is empty and unpaused |
| ChainOrder.MoveKeepsOrder | src/Concurrency/Concurrency/SerialTaskQueueChain.h:75-113 | every step keeps the order in which actions of a chain pass from queue to queue |
| ChainOrder.ActionsRunInPushOrder | src/Concurrency/Concurrency/SerialTaskQueueChain.h:75-113 | the actions of one chain run in the order of their push to its first queue, each at most once, and never two at a time |
| ChainCalls.StartedInPushOrder | src/Concurrency/Concurrency/SerialTaskQueueChain.h:75-113 | in every run, read off the phases of the actions: those of one chain begin to run in the order of their push, each at most once, and once if it is running or over |
| ChainCalls.RestMeansStartedOnce | src/Concurrency/Concurrency/SerialTaskQueueChain.h:75-114 | when a run has come to rest every action has been started in it exactly once |
| ChainCalls.MaximalRunStartsAll | src/Concurrency/Concurrency/SerialTaskQueueChain.h:75-114 | after the last push every schedule ends, and then every action has been started exactly once since the beginning |
| ChainCalls.RunsInItsGroup | src/Concurrency/Concurrency/SerialTaskQueueChain.h:75-98 | the actions are those of the calls of push, and whatever queue carries one, it runs in a thread of the group it was pushed with |
| ChainCalls.ActingHoldsTheChain | src/Concurrency/Concurrency/SerialTaskQueueChain.h:86-113 | while an action runs, it does so in the last queue of its chain and in its group, and all other queues of the chain are paused |
| LimitedTaskQueue.MoveKeepsInv | src/Concurrency/Concurrency/LimitedTaskQueue.h:57-139 | every step of pushes, wrappers, Resumer copies, moves, assignments and destructions keeps the invariant |
| LimitedTaskQueue.ClaimedOnceInCallOrder | src/Concurrency/Concurrency/LimitedTaskQueue.h:115-139 | no action is claimed twice or run by two activities, and the actions pushed by one thread are claimed in the order of its calls |
| LimitedTaskQueue.AtMostNExecuting | src/Concurrency/Concurrency/LimitedTaskQueue.h:114-139 | at most N of the arbitrarily many activities of the N queues execute wrappers at once, because each queue lets one activity run |
| LimitedTaskQueue.AtMostNRunning | src/Concurrency/Concurrency/LimitedTaskQueue.h:114-139 | so at most N actions run at once |
| LimitedTaskQueueCalls.StartedAtMostOnce | src/Concurrency/Concurrency/LimitedTaskQueue.h:115-139 | in every run, read off the threads: each action is called at most once, and while it is being called its queue has been paused for it and a Resumer made for it, once each, if and only if it was pushed by pushAndPause |
| LimitedTaskQueueCalls.RestMeansStartedOrWaiting | src/Concurrency/Concurrency/LimitedTaskQueue.h:114-139 | when a run has come to rest, an action has not been called exactly when its wrapper waits in every queue, and then all N queues are paused; otherwise it has been called once, with its pause and its Resumer if it asked for them |
| LimitedTaskQueueCalls.RunsInItsGroup | src/Concurrency/Concurrency/LimitedTaskQueue.h:104-139 | the actions are those of the calls, and every wrapper, in every queue, runs in a thread of the group of its action |
| LimitedTaskQueueCalls.ResumersPassOn | src/Concurrency/Concurrency/LimitedTaskQueue.h:57-97 | who owes a resume after a copy, a move, an assignment or a resume |
| LimitedTaskQueueCalls.ResumersPay | src/Concurrency/Concurrency/LimitedTaskQueue.h:57-97 | a copy pauses the queue once more, an assignment or resume pays what was owed, and a move does neither |
| LimitedTaskQueueCalls.RestMeansAllStarted | src/Concurrency/Concurrency/LimitedTaskQueue.h:57-97 | pauses belong to live Resumers: when they are gone and all is at rest every action has been called exactly once |
| LimitedTaskQueueCalls.StartedSomewhere | src/Concurrency/Concurrency/LimitedTaskQueue.h:115-139 | an action that counts as called was running in some state on the way |
| LimitedTaskQueueProgress.ProductiveMoveDecreases | src/Concurrency/Concurrency/LimitedTaskQueue.h:114-139 | spreading, queue accesses other than futile spins, wrapper operations and releases of Resumers all lower one rank |
| LimitedTaskQueueProgress.ProductiveMoveExists | src/Concurrency/Concurrency/LimitedTaskQueue.h:57-139 | while anything is under way or a Resumer is live one of them is possible; in particular a resume is always balanced |
| LimitedTaskQueueProgress.MaximalRunCompletes | src/Concurrency/Concurrency/LimitedTaskQueue.h:57-139 | so every schedule is bounded, and when none is left every action has been called exactly once since the beginning and no queue is paused |
| WaitingTaskListSteps.MoveKeepsInv | src/Concurrency/src/WaitingTaskList.cc:53-216 | every access of both adds, announce, doneWaiting, presetTaskAsFailed and reset keeps the invariant of the lock-free list: proper disjoint lists, each added task in one place, each failure told that of its cycle |
| WaitingTaskListPreset.PresetTellsTheList | src/Concurrency/src/WaitingTaskList.cc:163-175 | once presetTaskAsFailed is over, whatever else has happened meanwhile, the tasks of all nodes that were in the list when it looked have been given the failure |
| WaitingTaskListPreset.FinishWithPresetTells | src/Concurrency/src/WaitingTaskList.cc:163-216 | so have those in the list when it was called |
| WaitingTaskListPreset.NobodyToldWhileWaiting | src/Concurrency/src/WaitingTaskList.cc:163-210 | without it no task is given a failure while the list it was added to still waits |
| WaitingTaskListHistory.ReleasedWithTheEnd | src/Concurrency/src/WaitingTaskList.cc:92-161 | over any number of cycles each task added is released at most once, not before doneWaiting, and has by then been given the exception with which the calls end its cycle, and never anything else |
| WaitingTaskListHistory.EveryTaskReleasedWithTheEnd | src/Concurrency/src/WaitingTaskList.cc:177-216 | no lost task: after doneWaiting and when nothing is under way, every task added by any call has been released exactly once, with the exception of its cycle |
| WaitingTaskListRuns.ListsAreDisjoint | src/Concurrency/src/WaitingTaskList.cc:138-142 | the live list and the detached segments are proper lists without a node in common, and a self-linked node has an adder about to link it |
| WaitingTaskListRuns.NoTouchAfterRelease | src/Concurrency/src/WaitingTaskList.cc:181-209 | no access to a node after the announce that walks it has given it up, except the second store of the holder overload |
| WaitingTaskListRuns.SecondStoreCanComeLate | src/Concurrency/src/WaitingTaskList.cc:111-112 | that store can come after the node has been given up, and without a cache after it has been deleted: a run in which it does |
| WaitingTaskListLate.PointerAddsNeverTouchLate | src/Concurrency/src/WaitingTaskList.cc:125-161 | runs that add tasks by pointer only never touch a node that has been given up |
| WaitingTaskListLate.SecondStoreIsLateIff | src/Concurrency/src/WaitingTaskList.cc:111-112 | exactly when it can come late: a run in which the node is given up before the store exists if and only if the node has been given up or detached already, or the list is still waiting or some other activity is on its way to an announce |
| WaitingTaskListCache.CacheGrowsToTheLargestCycle | src/Concurrency/src/WaitingTaskList.cc:53-83 | within a cycle no two adds share a slot, the cache never shrinks, and after a reset a cycle of no more adds than the last one takes every node from the cache |
| WaitingTaskListRuns.HelpingStepExists | src/Concurrency/src/WaitingTaskList.cc:187-189 | while a call is under way some call can make a step: the spin of announce waits only for an adder that can move |
| WaitingTaskListProgress.ProductiveStepDrops | src/Concurrency/src/WaitingTaskList.cc:92-216 | every step that changes anything lowers one rank of the whole list |
| WaitingTaskListHistory.MaximalRunReleasesWithTheEnd | src/Concurrency/src/WaitingTaskList.cc:177-216 | so after the last call every schedule is bounded, all calls return, and once doneWaiting has been called every task added is released exactly once, with the exception of its cycle |
| WaitingTaskListObject.WaitingTaskList.CreateNode | src/Concurrency/src/WaitingTaskList.cc:72-90 | a node not in the list, from the cache as long as it lasts, and then new |
| WaitingTaskListObject.WaitingTaskList.Add | src/Concurrency/src/WaitingTaskList.cc:125-161 | the node goes to the front of the list; after doneWaiting the task is told and released at once instead |
| WaitingTaskListObject.WaitingTaskList.Announce | src/Concurrency/src/WaitingTaskList.cc:177-210 | the linked list is emptied and its tasks released from the front, each told the failure first |
| WaitingTaskListObject.WaitingTaskList.PresetTaskAsFailed | src/Concurrency/src/WaitingTaskList.cc:163-175 | the tasks in the list are told and stay in it |
| WaitingTaskListObject.WaitingTaskList.DoneWaiting | src/Concurrency/src/WaitingTaskList.cc:212-216 | everything in the list is released with the exception given |
| WaitingTaskListObject.WaitingTaskList.Reset | src/Concurrency/src/WaitingTaskList.cc:53-70 | the list waits again, and the cache has grown to the number of nodes of the last cycle |
| WaitingTaskListObject.WaitingTaskList.FillCache | src/Concurrency/src/WaitingTaskList.cc:37-43 | the slots of a cache are distinct nodes marked as its own |
| WaitingTaskListObject.ReleaseAllReleases | src/Concurrency/src/WaitingTaskList.cc:177-210 | a release of the list takes from each task as many references as it has nodes, tells it the failure if it has one, and spawns it exactly if these were its last |
| WaitingTaskListObject.PresetFailureStays | src/Concurrency/src/WaitingTaskList.cc:163-175 | a task in the list keeps the preset failure, or the one it had before, whatever exception doneWaiting gives later |
| WaitingTaskProtocol.MoveKeepsInv | src/Concurrency/Concurrency/WaitingTaskHolder.h:39-117 | every step of any history of holders, arena holders and list nodes keeps count, exception slot and conversions consistent |
| WaitingTaskProtocol.SpawnedExactlyAtLastRelease | src/Concurrency/Concurrency/WaitingTaskHolder.h:94-110 | the count is the number of live holders and nodes; the task is spawned once, exactly when the last is gone |
| WaitingTaskProtocol.ExecuteSeesFirstFailure | src/Concurrency/Concurrency/WaitingTask.h:68-85 | no setter is mid-write when the task executes, so the unchecked read gives the failure reported first, or none; it executes once |
| WaitingTaskProtocol.CheckedReadIsStable | src/Concurrency/Concurrency/WaitingTask.h:51-56 | the checked read gives nothing or the first failure and never changes its mind |
| WaitingTaskProtocol.StepKeepsCounted | src/Concurrency/src/WaitingTaskWithArenaHolder.cc:111-116 | also when a conversion ignores the result of its decrement, because the new holder keeps the count positive |
| WaitingTaskTally.CountIsTheCalls | src/Concurrency/Concurrency/WaitingTaskHolder.h:39-117 | when nothing is under way the count is the number of references the calls took less those they gave back, and the task has been spawned exactly if all have been given back |
| WaitingTaskTally.ExecuteSeesAGivenFailure | src/Concurrency/Concurrency/WaitingTask.h:68-85 | the task sees a failure exactly if some call handed one in, and then one of those; each is reported as often as handed in |
| WaitingTaskTally.HoldersAreTheCalls | src/Concurrency/Concurrency/WaitingTaskHolder.h:39-117 | copies, moves, swaps, conversions and releases change the holders they name and no others |
| WaitingTaskTally.MaximalRunCounts | src/Concurrency/Concurrency/WaitingTaskHolder.h:94-110 | after the last call every schedule of accesses ends, with that count |
| WaitingTaskHolders.WaitingTask.DependentTaskFailed | src/Concurrency/Concurrency/WaitingTask.h:68-74 | the first failure is kept |
| WaitingTaskHolders.WaitingTask.Decrement | src/Concurrency/Concurrency/TaskBase.h:42 | one reference less; the last one spawns |
| WaitingTaskHolders.WaitingTaskHolder.DoneWaiting | src/Concurrency/Concurrency/WaitingTaskHolder.h:94-110 | reports, lets go before the decrement, and spawns the task exactly if this was the last holder |
| WaitingTaskHolders.WaitingTaskHolder.ReleaseNoDecrement | src/Concurrency/Concurrency/WaitingTaskHolder.h:113-117 | the reference passes to a list node, uncounted |
| WaitingTaskHolders.WaitingTaskHolder.CopyAssign | src/Concurrency/Concurrency/WaitingTaskHolder.h:57-62 | one holder more of the new task, one less of the old one, which may be spawned; self-assignment changes nothing |
| WaitingTaskHolders.WaitingTaskHolder.MoveAssign | src/Concurrency/Concurrency/WaitingTaskHolder.h:64-69 | the reference moves, the old one is dropped, self-move changes nothing |
| ChainFirstRuns.MoveKeepsInv | src/Concurrency/Concurrency/chain_first.h:47-83 | every copy, release, throw and start keeps: one live task at a time, each owning the holder of the next |
| ChainFirstRuns.LastTaskBuilds | src/Concurrency/Concurrency/chain_first.h:161-228 | lastTask makes exactly one task per enabled stage, each holding the next, and hands out one holder of the first |
| ChainFirstRuns.FalseConditionIsOmission | src/Concurrency/Concurrency/chain_first.h:219-228 | an ifThen with a false condition builds exactly what the chain without it builds |
| ChainFirstRuns.LastTaskRunsTheChain | src/Concurrency/Concurrency/chain_first.h:161-191 | for every order of holder copies, releases and throws the calls made are an initial part of those of the left-to-right interpreter, which is given, for each task, the first failure that the releases and throws of the run report to it; they are all of them when all is quiet, and the final task gets the chain's result |
| ChainFirstRuns.RunLastRunsTheChain | src/Concurrency/Concurrency/chain_first.h:169-240 | the same for runLast, whose first stage is called with no exception and is told nothing |
| ChainFirstRuns.CallsByKind | src/Concurrency/Concurrency/chain_first.h:51-79 | what a stage calls when it starts: with a failure an automatic one nothing, an explicit one exactly its exception functor with that failure, and a two-argument one its functor with it; without one each calls its functor once, with none |
| ChainFirstRuns.FunctorGetsHolder | src/Concurrency/Concurrency/chain_first.h:51-79 | a functor that is called gets a holder of the next task, which stays held until it lets go; a stage that calls none passes the failure on and lets go itself |
| ChainFirstRuns.HoldersOfUserCode | src/Concurrency/Concurrency/chain_first.h:47-79 | user code has as many holders of a task as it has been given and has copied, less those it has let go |
| ChainFirstProgress.PipelinesComplete | src/Concurrency/Concurrency/chain_first.h:47-191 | a run is no longer than its copies allow, and when nothing but a copy is possible the whole chain has run: the calls are all those of the interpreter, and the final task has been called |
| ChainFirstRuns.StartsAfterAllHolders | src/Concurrency/Concurrency/chain_first.h:186-199 | a stage starts only after every holder of its task is gone and all earlier stages are over |
| ChainFirstRuns.SlotIsHandedOn | src/Concurrency/Concurrency/chain_first.h:51-79 | what a finished stage has given the next task: its own exception unchanged if it is to forward it, otherwise the first failure that user code reports by a holder or by throwing |
| ChainFirstRuns.InterpreterLeads | src/Concurrency/Concurrency/chain_first.h:51-79 | stage by stage: a skipped stage forwards the exception unchanged, an explicit one after its handler, others what user code reports first |
| DecisionSteps.EventBySteps | src/ControlFlow/src/DecisionNodeBase.cc:26-36 | the nested, re-entrant calls of an event do what a stack of single calls does: what every step keeps, the event keeps |
| DecisionCallbacks.StepKeepsInv | src/ControlFlow/src/BinaryDecisionNode.cc:12-53 | every request and every callback, on any acyclic graph, keeps: who has called whom back, what is stored, whom a composite waits for |
| DecisionCallbacks.OneDecisionEach | src/ControlFlow/src/DecisionNodeBase.cc:26-36 | on any acyclic graph, for any leaf decisions, EXCEPTION included, and in any order, a node sends at most one decision and calls each requestor back with it exactly once per edge |
| DecisionCallbacks.RequestSameDecisions | src/ControlFlow/src/DecisionNodeBase.cc:6-25 | a request, of either kind, sends no decision and stores none |
| DecisionSoundness.DecisionsAreAnswers | src/ControlFlow/src/BinaryDecisionNode.cc:12-42 | on every graph, failures and sharing included: exactly what each node has sent, by cases on its kind, on what its children have sent and on where it was when they called; a node to whom nothing of this applies has sent nothing |
| DecisionSoundness.DecisionsFollow | src/ControlFlow/src/BinaryDecisionNode.cc:12-42 | so every decision sent follows from those its children have sent, by whichever of the three ways |
| DecisionSoundness.OneNodeTwice | src/ControlFlow/src/BinaryDecisionNode.cc:16-25 | a composite with one node as both children: what it sends, by where it was at the two callbacks; an And of a node that says GO sends SKIP exactly if it is in progress at the second one, and else nothing |
| DecisionSoundness.RightIffNothingMisheard | src/ControlFlow/src/BinaryDecisionNode.cc:16-25 | without exceptions all decisions sent in a run are the boolean meanings of their nodes if and only if no And was in progress when a GO of one and the same node reached it for the second time |
| DecisionSoundness.DecisionsAreMeanings | src/ControlFlow/src/BinaryDecisionNode.cc:12-42 | where no And has one node as both children every decision sent in any run is the boolean meaning |
| DecisionSoundness.DecisionsAreVerdicts | src/ControlFlow/src/BinaryDecisionNode.cc:12-42 | without exceptions a node that decides decides for one value, computed from the graph alone |
| DecisionSoundness.DecisionsNeverDiffer | src/ControlFlow/src/BinaryDecisionNode.cc:12-42 | so the order of requests and completions can decide whether a node answers but not what |
| DecisionSharing.AndOfOneNodeSkips | src/ControlFlow/src/BinaryDecisionNode.cc:16-25 | a run in which And(x, x) sends SKIP although x has sent GO |
| DecisionAnswers.SilentMeansStuck | src/ControlFlow/src/BinaryDecisionNode.cc:23-53 | on any graph, when a run is at its end and a node that was asked is silent, the chain of those waited for leads to a composite whose left child called before it was asked, or that waits for a child told off by all its requestors |
| DecisionAnswers.EndedRunsAnswer | src/ControlFlow/src/BinaryDecisionNode.cc:23-53 | on graphs shared on the right only, with trees to the left of shared nodes, every run that cannot go on has exactly one decision from every root and from every node asked, and without exceptions it is the boolean meaning |
| DecisionSilence.AnswersWhenRightCalls | src/ControlFlow/src/BinaryDecisionNode.cc:23-41 | on any graph a composite whose left child has called and whose right child has not answers, in whatever follows, if and only if its right child calls it back |
| DecisionSilence.EarlyMeansSilent | src/ControlFlow/src/BinaryDecisionNode.cc:23-34 | a composite that has its right child to itself and hears its left child before it is asked never sends anything and never asks its right child |
| DecisionSilence.RootAfterItsLeftChild | src/ControlFlow/src/StartDecisionGraph.cc:7-11 | for every composite that only the start node asks and that has its right child to itself: if the leaf on its left is requested before it, some run to the end leaves it silent, so the order of the roots matters |
| DecisionSharing.SharingCanLeaveARootSilent | src/ControlFlow/src/BinaryDecisionNode.cc:23-34 | a small shared graph and a complete run with a root that sends nothing |
| DecisionSharing.OwnLeftChildrenDoNotSuffice | src/ControlFlow/src/BinaryDecisionNode.cc:29-31 | that every left child has one requestor is not enough: a complete run in which a node that nobody wants tells its shared right child off twice, so that a root of its own is never run |
| DecisionEnds.EveryRunEnds | src/ControlFlow/src/StartDecisionGraph.cc:7-11 | on any graph a run has at most one event per root and per node |
| DecisionEnds.RunCanEnd | src/ControlFlow/src/StartDecisionGraph.cc:7-11 | and every run can be continued to its end |
| DecisionForest.RequestFills | src/ControlFlow/src/DecisionNodeBase.cc:6-25 | asking a node of a forest settles everything below it: the left spine is asked for an answer, or all of it told to stand down |
| DecisionForest.CallBackFills | src/ControlFlow/src/BinaryDecisionNode.cc:23-41 | calling back restores the invariant of the whole forest, however far the callbacks run up and requests run down |
| DecisionForest.RoutesEvaluate | src/ControlFlow/src/BinaryDecisionNode.cc:26-42 | the code's early and full decisions give, along every path, the value of left-to-right evaluation, which is defined by cases on the kind of node alone: a failure or a deciding value on the left ends it, otherwise the right child decides, failures included |
| DecisionForest.NothingNeedlessNothingWrong | src/ControlFlow/src/BinaryDecisionNode.cc:26-33 | at every moment of every run no node has been asked for what that evaluation does not need, nor told to stand down when it does, and nothing but its value has been sent |
| DecisionForest.EndedRunsAreComplete | src/ControlFlow/src/BinaryDecisionNode.cc:26-53 | every run that cannot go on has asked each node exactly once, for an answer exactly if left-to-right evaluation needs it, and each needed node has sent exactly its value, EXCEPTION included |
| DecisionForest.EndedRunsFinishEveryRoot | src/ControlFlow/src/StartDecisionGraph.cc:7-24 | then the finished count is the number of roots and each root has sent the value of its tree |
| DecisionNodes.Nodes.RequestDecisionAsync | src/ControlFlow/src/DecisionNodeBase.cc:6-25 | changes the fields of the nodes exactly as the function the theorems are about |
| DecisionNodes.Nodes.SendDecisionToRequestorsAsync | src/ControlFlow/src/DecisionNodeBase.cc:26-36 | so does the loop over the requestors with its re-entrant callbacks |
| DecisionNodes.Nodes.DecisionFromNodeAsync | src/ControlFlow/src/BinaryDecisionNode.cc:12-42 | so does the callback of a composite |
| DecisionNodes.Nodes.MakeDecisionAsync | src/ControlFlow/src/BinaryDecisionNode.cc:44-53 | so does the passing on of a request |
| DecisionNodes.Nodes.RequestNextRoot | src/ControlFlow/src/StartDecisionGraph.cc:7-11 | a turn of startAsync is the event of the runs |
| TypeDemangler.ReplaceString | src/Base/src/TypeDemangler.cc:85-92 | the loop ends, and leaves what rewriting the first occurrence again and again, never moving back, leaves |
| TypeDemangler.KeptShrinks | src/Base/src/TypeDemangler.cc:89-91 | why it ends although the string may grow: the characters not yet rewritten become fewer |
| TypeDemangler.NormalisingLeavesNone | src/Base/src/TypeDemangler.cc:85-92 | nothing is left to replace whenever writing the replacement cannot complete an occurrence to its left |
| TypeDemangler.CallsNormalise | src/Base/src/TypeDemangler.cc:109-131 | that holds of every pair typeDemangle passes, except of the one for a space before a square bracket |
| TypeDemangler.BracketCallNormalisesIff | src/Base/src/TypeDemangler.cc:110-111 | which leaves one exactly if the name had two spaces before a square bracket |
| TypeDemangler.CloseCallSeparates | src/Base/src/TypeDemangler.cc:124-125 | the call for two closing brackets puts one space between each two of them and changes nothing else |
| TypeDemangler.CallsInOnePass | src/Base/src/TypeDemangler.cc:109-131 | what each of the seven calls makes of any name, as one pass from left to right: each occurrence replaced, or, where the replacement begins the pattern, everything that follows it again and again dropped |
| TypeDemangler.CallsMayBeMade | src/Base/src/TypeDemangler.cc:86 | no pair has its first string inside its second |
| RemoveParameter.Remove | src/Base/src/TypeDemangler.cc:36-59 | both loops, on every input on which they end, with the cut the functions describe |
| RemoveParameter.EndsIffAlwaysClosed | src/Base/src/TypeDemangler.cc:40-58 | the outer loop ends if and only if no string on the way has a first occurrence of the prefix whose bracket is not closed |
| RemoveParameter.UnclosedNeverEnds | src/Base/src/TypeDemangler.cc:40-58 | inputs on which it does not: the prefix with no closing bracket after it, which every turn leaves as it is |
| RemoveParameter.BalancedIsAlwaysClosed | src/Base/src/TypeDemangler.cc:40-58 | on balanced names it always ends |
| RemoveParameter.ArgumentIsClosed | src/Base/src/TypeDemangler.cc:41-55 | the scan always finds the bracket that closes the argument, at the depth where it was opened |
| RemoveParameter.RemovedIsClean | src/Base/src/TypeDemangler.cc:36-59 | the result is balanced, a subsequence of the name, and free of the prefix |
| TypeNames.RemovingIsStripping | src/Base/src/TypeDemangler.cc:116-121 | on the printed name of any type, nested to any depth, removeParameter leaves exactly the printed name of the type without the arguments to strip, spaces between closing brackets included |
| TypeNames.CutIsType | src/Base/src/TypeDemangler.cc:41-55 | a single removal, at any occurrence of the prefix, leaves the name of a type that strips to the same |
| TypeNames.NothingToStrip | src/Base/src/TypeDemangler.cc:40 | when the prefix does not occur there is nothing to strip |
| TypeNames.PrintIsBalanced | src/Base/src/TypeDemangler.cc:36-59 | printed names are balanced, so both loops end on them |
| ProductResolverIndexHelpers.ProductResolverIndexHelper.Insert | src/ProductHandling/src/ProductResolverIndexHelper.cc:4-13 | an existing key is refused and changes nothing; a new one gets the size as its index |
| ProductResolverIndexHelpers.ProductResolverIndexHelper.Finalize | src/ProductHandling/src/ProductResolverIndexHelper.cc:15-37 | the visit in key order finds, for every group, the process that comes first in the order, unlisted ones last, then by name; all other entries stay |
| ProductResolverIndexHelpers.ProductResolverIndexHelper.GetIndex | src/ProductHandling/src/ProductResolverIndexHelper.cc:39-45 | the entry, or the uninitialized index |
| ProductResolverIndexHelpers.UninitializedMeansAbsent | src/ProductHandling/src/ProductResolverIndexHelper.cc:39-45 | after fewer than 2^32 insertions, finalized or not, the uninitialized index is returned exactly for keys without an entry; any other index is that of an inserted key of the same group |
| ProductResolverIndexHelpers.FinalizedIsUnique | src/ProductHandling/src/ProductResolverIndexHelper.cc:15-37 | the specification of finalize determines its result |
| ProductResolverIndexHelpers.FinalizeIsIdempotent | src/ProductHandling/src/ProductResolverIndexHelper.cc:15-37 | finalizing again with the same order changes nothing |
| ProductResolverIndexHelpers.IndicesAreDense | src/ProductHandling/src/ProductResolverIndexHelper.cc:4-13 | distinct inserted keys are numbered 0 to n-1 in order of insertion |
| ProductResolverIndexHelpers.EmptyNameLeadsToDefault | src/ProductHandling/src/ProductResolverIndexHelper.cc:15-37 | after finalize a key without a process name has the number of an inserted key if and only if that key's process is preferred to all others of its group |

## Left out

- `SerialTaskQueue` destructor and move constructor, and the move operations of chains: they assume that nobody uses the object.
- The spin loop as a loop: in the transition system a failed compare-exchange is a step that changes nothing; the class has no interference, so there it succeeds at once.
- Fairness of the scheduler: progress is stated as the existence of a step that helps, or for runs that go on until no productive step is left.
- Weak memory and counter wrap-around: counts are unbounded and accesses sequentially consistent.
- The thread library: arenas, thread counts, stack sizes and where an enqueued task runs; an arena holder differs from a plain one only in its kind.
- `SerialTaskQueueChain` and `LimitedTaskQueue` as objects: their loops and updates are the steps of transition systems on values, so aliasing between objects is not captured.
- The `WaitingTaskList` object keeps its tasks as numbered values, and the loop that waits for a node to be linked does not occur in it, because one thread never meets an unlinked node.
- QuiescentMeansComplete: requires each chain to list distinct queues in one common order; OppositeOrdersGetStuck shows that chains in opposite orders can wait for each other.
- EndedRunsAreComplete: for forests; for shared graphs EndedRunsAnswer says who answers, not who is asked how often.
- A leaf that decides inside its request: here a leaf asked for its decision always makes it in a task of its own, later.
- EveryTaskReleasedWithTheEnd: one doneWaiting per cycle and no reset while a call still uses the list, as the header demands.
- Copying an empty `WaitingTaskHolder`, and functors that release the very holder object they are passed by reference.
- Pipeline functors of the two-argument form that throw: handling that is theirs by contract.
- EveryRunEnds: a single transition; `resetForNewTransition` does not clear the counters of composites, so a second one is not modelled.
- RemovingIsStripping: names of templates and types without brackets or commas in them, so no members of templates and no function types.
- Remove: requires that the loop ends, which EndsIffAlwaysClosed characterises; on other names the code does not return.
- `constBeforeIdentifier`, the regular expressions of `reformatter` and the demangling call itself.
- ProductResolverIndexHelpers.IndicesAreDense: for at most 2^32 keys, where indices do not wrap.
- `cms::Exception` texts, `TypeIDBase`, tokens and key types: keys are numbers in their order.
- `ThreadSafeAddOnlyContainer`, `ThreadSafeOutputFileStream`, `TransitionRecordProvider`, `ProductResolverIndexHelpersBuilder`, `FinalWaitingTask`: smaller versions of what is here, or thin wrappers.
