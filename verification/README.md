# Verification of the agner actor runtime

agner is an actor runtime for C++20 coroutines. This project models its four concurrent or stateful
mechanisms and the two schedulers, and proves that they do what they are for:

- the lock-free work-stealing deque, at the grain of single loads, stores and compare-and-swaps, for
  one owner and any number of stealers, with buffers that grow while stealers still hold old ones; and
  the multi-threaded scheduler that moves coroutine handles between such deques;
- the supervisor's restart engine: four strategies, three policies, the restart intensity window,
  group restarts, administration calls, and the exceptions it can fail with;
- an actor's mailbox with selective receive and timeouts, and calls between generic servers;
- the registry with its links and monitors;
- the single-threaded scheduler's event loop.

Each mechanism is a state machine given by functions on a state, with an invariant that every step
keeps and theorems about whole runs of any length. Beside it stands a class with the fields and the
methods, loops included, of the C++ object; every method is proved to do to the fields exactly what
the state machine's step does, also when it fails. For the deque and the multi-threaded scheduler, any
number of steps of other threads come between two accesses of a method. The object of the
multi-threaded scheduler makes its accesses to the shared queues by taking the state machine's step
(`Access`), so for this object only the rest is a result: in which order its methods make them, where
each ends, and with what.

| file | what it models |
|---|---|
| `CircularBuffer.dfy` | the ring buffer: masking, loads, stores, growth |
| `ChaseLevDeque.dfy` | the deque as a state machine over its atomic accesses, and its linearizability |
| `WorkStealingDeque.dfy` | the deque as an object, with other threads running between accesses |
| `MtScheduler.dfy`, `MtSchedulerObject.dfy` | how handles move between injection queue, deques and workers |
| `Supervisor.dfy` | the supervisor's operations on its state, and the shape every state has |
| `SupervisorIntensity.dfy` | the restart window over whole runs |
| `SupervisorGroups.dfy` | group restarts from beginning to end, and shutdown |
| `SupervisorOrder.dfy` | the start order under `rest_for_one` and `one_for_all` |
| `SupervisorDecision.dfy` | which terminations are answered with a restart, and what stops and deletions touch |
| `SupervisorPopulation.dfy` | conservation of children, restart requests, when exceptions occur |
| `SupervisorStop.dfy` | what a supervisor may still spawn once a stop has failed half-way |
| `SupervisorExamples.dfy` | runs in which the supervisor does not do what its documentation leads one to expect |
| `SupervisorObject.dfy` | the supervisor object |
| `Mailbox.dfy`, `Actor.dfy` | selective receive, and the actor object |
| `ReceiveRace.dfy` | a receive whose look and whose suspension are two steps, with senders on other threads |
| `GenServer.dfy`, `CallCorrelation.dfy` | the serving loop, and calls and replies in a system of servers |
| `Topology.dfy`, `SchedulerBase.dfy` | links, monitors and exit signals, and the registry object |
| `EventLoop.dfy`, `Scheduler.dfy` | timers and ready coroutines, and the `run` loop |
| `ActorControl.dfy`, `Collections.dfy` | shared vocabulary |

Conventions. Threads interleave sequentially consistently. A coroutine handle is a natural number, 0
being null; a suspended coroutine is a token that can be scheduled. Counters do not wrap. A predicate
whose body is hidden behind the trigger `Unfold` or `Look` is one the verifier unfolds on request only;
logically it is its body.

Where the code and its documentation differ, the model follows the code:

- `Supervisor::stop` and every operation that stops children fails with an exception when a registered
  child has left the registry before the supervisor asked it to stop (`scheduler.hpp:75` looks the actor
  up with `at`). `ThrowsExactlyWhenSomeoneIsGone` says exactly when, also for a supervisor that an
  earlier exception has left in an odd state; `TwoDeathsThrow` is an example.
- A `stop` that fails half-way leaves the supervisor marked as stopping but not shut: children after the
  one that has gone are neither stopped nor suppressed, a group goes on, and a later signal can still
  spawn. `StopShutsExactly` says when a stop, handled or not, shuts the supervisor, and
  `NothingSpawnsOnceShut` what that is good for; `FailedStopSpawnsExactly` says after which failing
  stops signals can still spawn a child, and `HalfStoppedSpawns` is a run in which they do.
- A group restart respawns the failed child first, so `one_for_all` does not keep the start order, except
  when every child in front of the failed one is temporary (`OneForAllKeepsStartOrder`);
  `OneForAllRestarts` and `OneForAllSwaps` give a run that swaps two children. `rest_for_one` does keep it.
- A group restart also respawns planned siblings that `stop_child` had suppressed
  (`StoppedChildComesBack`), and forgets earlier siblings that die while it waits
  (`EarlierSiblingIsForgotten`). `SiblingComesBack` says exactly which siblings it leaves registered.
- A receive looks into the mailbox and suspends in two separate steps, and does not look again. With
  senders on other threads it can therefore wait although the message it wants is queued
  (`LostWakeUp`); `WaitsInVainExactly` says when, and `AnyArrivalWakes` when that ends.
- `restart_child` on dynamic children that are already stopping adds a child for each
  (`RestartChildOutcome`).
- `Scheduler::run` fires all timers, also those registered meanwhile, before it returns to ready
  coroutines (`Scheduler.FireAll`).

## Model

| member | source | states |
|---|---|---|
| CircularBuffers.MaskInRange | include/agner/detail/chase_lev_deque.hpp:150-158 | masking any index with a power-of-two capacity less one gives a slot of the buffer |
| CircularBuffers.MaskIsInjectiveInWindow | include/agner/detail/chase_lev_deque.hpp:150-158 | indices less than one capacity apart never share a slot |
| CircularBuffers.CapacityCheckIsPowerOfTwo | include/agner/detail/chase_lev_deque.hpp:145 | the constructor's assertion, on unsigned words, accepts exactly the powers of two and 0 |
| CircularBuffers.LoadAfterStore | include/agner/detail/chase_lev_deque.hpp:150-158 | a load sees the value stored at its index, and a store disturbs nothing else in the window |
| CircularBuffers.CopyRangeKeeps | include/agner/detail/chase_lev_deque.hpp:160-166 | the copying loop of growth keeps every index of the live range |
| CircularBuffers.CircularBuffer.constructor | include/agner/detail/chase_lev_deque.hpp:143-146 | a new buffer has the capacity asked for, with null slots |
| CircularBuffers.CircularBuffer.Store | include/agner/detail/chase_lev_deque.hpp:150-153 | the array changes as a store at the masked index does |
| CircularBuffers.CircularBuffer.Load | include/agner/detail/chase_lev_deque.hpp:155-158 | the value at the masked index |
| CircularBuffers.CircularBuffer.Grow | include/agner/detail/chase_lev_deque.hpp:160-166 | a new buffer of twice the capacity in which every index of the range loads what it did |
| ChaseLevDeque.InitialInv | include/agner/detail/chase_lev_deque.hpp:26-30 | a new deque is empty and satisfies the invariant |
| ChaseLevDeque.PushReadKeepsInv | include/agner/detail/chase_lev_deque.hpp:68-75 | loading `top` and the buffer, testing for growth with a possibly stale `top`, allocating and reading slots to copy change nothing abstractly |
| ChaseLevDeque.GrowStoreKeepsInv | include/agner/detail/chase_lev_deque.hpp:163-165 | copying a slot keeps the invariant that what has been copied equals the live buffer |
| ChaseLevDeque.PublishKeepsInv | include/agner/detail/chase_lev_deque.hpp:173-178 | retiring the old buffer and publishing the new one changes neither the contents nor what a stealer holding the old one will read |
| ChaseLevDeque.PushStoreKeepsInv | include/agner/detail/chase_lev_deque.hpp:77 | the store of the new value overwrites no live slot of a current buffer |
| ChaseLevDeque.PushPublishRefines | include/agner/detail/chase_lev_deque.hpp:79 | a push takes effect, on the right, when it writes `bottom` |
| ChaseLevDeque.PopLoadTopRefines | include/agner/detail/chase_lev_deque.hpp:91-94 | a pop that reads `t < b` takes the rightmost element at that moment; one that reads `t > b` finds the deque empty at that moment |
| ChaseLevDeque.PopRaceRefines | include/agner/detail/chase_lev_deque.hpp:95-104 | the race for the last element: the winner takes it, the loser finds the deque empty |
| ChaseLevDeque.StealRaceRefines | include/agner/detail/chase_lev_deque.hpp:121-128 | a winning compare-and-swap takes the leftmost element, whatever buffer it was read from; a losing one changes nothing |
| ChaseLevDeque.StepRefines | include/agner/detail/chase_lev_deque.hpp:68-132 | every step of every thread keeps the invariant and does to the abstract deque what its event says |
| ChaseLevDeque.StepReturns | include/agner/detail/chase_lev_deque.hpp:68-132 | an operation takes effect exactly once between call and return, with the result it returns |
| ChaseLevDeque.Linearizable | include/agner/detail/chase_lev_deque.hpp:68-132 | for every interleaving of one owner and any number of stealers, the events replay on the sequential deque to its present contents, and the calls return exactly their events |
| ChaseLevDeque.EveryElementOnce | include/agner/detail/chase_lev_deque.hpp:68-132 | as bags, what was pushed is what was popped or stolen together with what is still there |
| ChaseLevDeque.WindowBounds | include/agner/detail/chase_lev_deque.hpp:69-107 | in every reachable state -1 <= bottom - top <= capacity, the capacity is a power of two and live indices have distinct slots |
| ChaseLevDeque.NeverStuck | include/agner/detail/chase_lev_deque.hpp:68-132 | no access of a reachable state is out of range |
| ChaseLevDeque.RetiredBuffersAreFrozen | include/agner/detail/chase_lev_deque.hpp:173-178 | along any run `top` never decreases, retired buffers stay retired and are never written |
| ChaseLevDeque.StealMissMeansNearlyEmpty | include/agner/detail/chase_lev_deque.hpp:118-131 | a steal that reads t >= b misses at most one element, and only while the owner is popping that one |
| ChaseLevDeque.TopMovesOnlyByWinning | include/agner/detail/chase_lev_deque.hpp:95-126 | `top` changes by winning compare-and-swaps only, each of which takes an element |
| ChaseLevDeque.LostRaceHasWinner | include/agner/detail/chase_lev_deque.hpp:123-126 | if a stealer loses its race, another thread has taken an element since it read `top` |
| ChaseLevDeque.LostPopHasThief | include/agner/detail/chase_lev_deque.hpp:91-101 | if a pop loses the race for the last element, a thief has taken an element since the pop read `top` |
| WorkStealingDeques.WorkStealingDeque.constructor | include/agner/detail/chase_lev_deque.hpp:26-30 | a new deque is in an initial state, with no history |
| WorkStealingDeques.WorkStealingDeque.Push | include/agner/detail/chase_lev_deque.hpp:68-80 | whatever thieves did meanwhile, the elements before and the value are what thieves took off the left followed by the elements now |
| WorkStealingDeques.WorkStealingDeque.Grow | include/agner/detail/chase_lev_deque.hpp:173-178 | growing while thieves run ends in the state before the store, with the new buffer current |
| WorkStealingDeques.WorkStealingDeque.Pop | include/agner/detail/chase_lev_deque.hpp:84-109 | the elements before are what thieves took, the elements now, and the result, which is none only if nothing is left |
| WorkStealingDeques.WorkStealingDeque.PopTake | include/agner/detail/chase_lev_deque.hpp:93-105 | the branch in which there is an element: the value at `b` if there is another left of it, otherwise the outcome of the race |
| WorkStealingDeques.WorkStealingDeque.Steal | include/agner/detail/chase_lev_deque.hpp:113-132 | the value returned is the leftmost element at the moment of the winning compare-and-swap, whatever the owner and other thieves do; none is returned only because `bottom` was read when at most an element the owner is popping was there, or because another thread took an element after the call; undisturbed, and with no operation of the owner under way, none is returned exactly from an empty deque |
| WorkStealingDeques.WorkStealingDeque.StealTake | include/agner/detail/chase_lev_deque.hpp:121-128 | the branch in which there is something to steal: an element is returned exactly if `top` is still what was read, and that is then the leftmost one |
| WorkStealingDeques.AloneTakes | include/agner/detail/chase_lev_deque.hpp:113-132 | an undisturbed steal that reads `t < b` wins its race and removes exactly the leftmost element |
| MtSchedulers.ScheduleOutsideAccounted | include/agner/mt_scheduler.hpp:66-79 | `schedule` on a thread that is no worker puts the handle into the injection queue |
| MtSchedulers.ScheduleInsideAccounted | include/agner/mt_scheduler.hpp:66-79 | `schedule` on a worker starts a push on that worker's own deque, with the handle in its hands |
| MtSchedulers.InjectingAccounted | include/agner/mt_scheduler.hpp:168-176 | taking from the injection queue moves one handle to one worker |
| MtSchedulers.VictimDequeAccounted | include/agner/mt_scheduler.hpp:179-190 | stealing, step by step, moves a handle from the victim's deque to the thief, or nothing |
| MtSchedulers.OwnDequeAccounted | include/agner/mt_scheduler.hpp:197-202 | popping, step by step, moves a handle from the worker's deque to its hands and then to what it resumes |
| MtSchedulers.StepAccounted | include/agner/mt_scheduler.hpp:66-219 | every step keeps the account of every handle |
| MtSchedulers.EveryHandleInOnePlace | include/agner/mt_scheduler.hpp:66-219 | for any number of workers and any interleaving, a handle is, as often as it was scheduled, in the injection queue or with one worker; and only worker i pushes to and pops from deque i |
| MtSchedulers.ScheduledOnceResumedAtMostOnce | include/agner/mt_scheduler.hpp:194-219 | a handle scheduled once is resumed at most once, by one worker |
| MtSchedulerObjects.MtScheduler.Schedule | include/agner/mt_scheduler.hpp:66-79 | on a worker the handle becomes the last of that worker's own deque, and the worker goes on with what it was resuming; on another thread it goes to the end of the injection queue; a null handle changes nothing |
| MtSchedulerObjects.MtScheduler.PopLocal | include/agner/mt_scheduler.hpp:197 | the worker has taken the handle that the pop on its own deque ends with, or goes on to the injection queue |
| MtSchedulerObjects.MtScheduler.TryInject | include/agner/mt_scheduler.hpp:168-176 | the worker has taken the handle in front of the injection queue, and nothing else has changed in the queues; with an empty queue it goes on to steal |
| MtSchedulerObjects.MtScheduler.StealOnce | include/agner/mt_scheduler.hpp:185-187 | the steal on that victim's deque ends with the handle returned, just removed from there, or without one |
| MtSchedulerObjects.MtScheduler.TrySteal | include/agner/mt_scheduler.hpp:179-190 | the victims are tried in turn, all without success but perhaps the last; without success altogether only if all have been tried |
| MtSchedulerObjects.VictimsAreTheOthers | include/agner/mt_scheduler.hpp:180-184 | a round of steals tries every other worker exactly once, and never the worker itself |
| MtSchedulerObjects.MtScheduler.FindWork | include/agner/mt_scheduler.hpp:195-218 | one turn of the loop: own deque, then, if its pop ended with nothing, the injection queue, then, if that was empty, the others; at most one handle is taken, and it had been scheduled |
| MtSchedulerObjects.MtScheduler.WorkerLoop | include/agner/mt_scheduler.hpp:194-229 | any number of turns, with coroutines that schedule others, resumes in order at most one handle a turn, none more often than it was scheduled |
| MtSchedulerObjects.TakenWasScheduled | include/agner/mt_scheduler.hpp:194-219 | a worker takes a handle no more often than it was scheduled |
| Supervisors.SpawnAppends | include/agner/supervisor.hpp:348-358 | a new child has the largest reference and start order and goes to the end of the map, with the arguments given |
| Supervisors.StartChildKeepsInv | include/agner/supervisor.hpp:334-361 | starting a child keeps one child per static specification |
| Supervisors.AnyStepKeepsInv | include/agner/supervisor.hpp:223-627 | a signal or call that fails with an exception leaves a state of the same shape as one that is handled |
| Supervisors.StepKeepsInv | include/agner/supervisor.hpp:223-627 | under every signal and every call map order is start order, and with static children no specification has two registered children |
| SupervisorIntensity.RecentIsSuffix | include/agner/supervisor.hpp:615-620 | with a monotone clock, erasing what is out of the window leaves the latest part |
| SupervisorIntensity.StepDecides | include/agner/supervisor.hpp:445-480 | only a termination outside a group decides on a restart, and then as `register_restart` does |
| SupervisorIntensity.RunKeepsIntensity | include/agner/supervisor.hpp:609-627 | the remembered times are the latest decisions, and all earlier ones have left the window |
| SupervisorIntensity.AcceptedRestartsSpanTheWindow | include/agner/supervisor.hpp:609-627 | in every run any max_restarts + 1 accepted restarts span strictly more than the window |
| SupervisorIntensity.RefusedExactlyWhenWindowFull | include/agner/supervisor.hpp:609-627 | a restart is refused exactly when max_restarts is 0 or the decision max_restarts before it is within the window |
| SupervisorPopulation.RefusedWithFullWindow | include/agner/supervisor.hpp:609-627 | in a calmly administered run a restart is refused only if max_restarts is 0 or the window already holds max_restarts accepted ones, and the refusal is the last decision |
| SupervisorGroups.RespawnAllAdds | include/agner/supervisor.hpp:551-556 | respawning a plan adds exactly one new child for each item to be restarted, in plan order, with its arguments |
| SupervisorGroups.PendingIsSound | include/agner/supervisor.hpp:530-538 | in every calmly administered run, the pending list of a group is non-empty, duplicate-free and made of registered, stopping children |
| SupervisorGroups.PlannedIsTail | include/agner/supervisor.hpp:510-524 | collecting all siblings and removing the unplanned ones gives the later part of the map, in order |
| SupervisorGroups.BeginGroupOutcome | include/agner/supervisor.hpp:502-543 | a group plans the failed child and its siblings from a point on, asks those to stop and waits for them; with none it ends at once |
| SupervisorGroups.GroupStopWaits | include/agner/supervisor.hpp:482-500 | during a group a termination removes the child it is about, planned or not, and nothing else happens |
| SupervisorGroups.AwaitedTerminationsCountDown | include/agner/supervisor.hpp:491-499 | each awaited termination shortens the pending list by one, others do not, and the last one ends the group |
| SupervisorGroups.GroupStopEnds | include/agner/supervisor.hpp:497-557 | when it ends, no awaited child is registered and one new child is added for each plan item to be restarted |
| SupervisorGroups.RestartedSiblings | include/agner/supervisor.hpp:551-556 | of the planned siblings exactly those that are not temporary are restarted |
| SupervisorGroups.FailureOutcome | include/agner/supervisor.hpp:445-480 | after a failure either the intensity limit has stopped the supervisor or a group has begun as its strategy says |
| SupervisorGroups.SingleOutcome | include/agner/supervisor.hpp:445-476 | after a failure under the one-by-one strategies either the limit has stopped the supervisor or the child has a successor with its specification and arguments |
| SupervisorGroups.NoRestartOutcome | include/agner/supervisor.hpp:451-465 | a termination that calls for no restart only removes the child it is about |
| SupervisorDecisions.TerminationDecides | include/agner/supervisor.hpp:451-465 | outside a group a termination is a restart decision if and only if the child is not suppressed and is permanent, or transient with a reason other than normal; otherwise the child is taken off the map and nothing else changes |
| SupervisorDecisions.NormalEndsForGood | include/agner/supervisor.hpp:598-607 | in any run under the one-by-one strategies, whatever fails, temporary children, and transient ones that end normally, are never spawned again unless somebody starts or restarts them |
| SupervisorDecisions.StoppedForGood | include/agner/supervisor.hpp:391-399 | in any such run a child stopped by `stop_child` is never spawned again by its termination, whatever its policy and reason |
| SupervisorDecisions.StopOneTouches | include/agner/supervisor.hpp:391-399 | stopping a specification's children stops and suppresses all of them and touches no others |
| SupervisorDecisions.DeleteTakesOff | include/agner/supervisor.hpp:432-436 | deleting them takes exactly them off the map, the others stay as they are, in order |
| SupervisorDecisions.OneSignalPerEnding | include/agner/supervisor.hpp:609-630 | in any run a supervisor sends itself its exit signal exactly once for every stop that is handled and every restart that is refused |
| SupervisorGroups.InitialRunInv | include/agner/supervisor.hpp:668-674 | a new supervisor satisfies the invariant of the next row |
| SupervisorGroups.RunKeepsRunInv | include/agner/supervisor.hpp:223-627 | the invariant of groups and of shutdown holds throughout every calmly administered run |
| SupervisorGroups.NothingSpawnsAfterStop | include/agner/supervisor.hpp:223-230 | after a stop that is handled, external or by exceeded intensity, even in mid-group, nothing is spawned, no restart is decided and children only become fewer |
| SupervisorGroups.NothingSpawnsOnceShut | include/agner/supervisor.hpp:223-230 | the same from any state in which a supervisor is shut, in runs with exceptions |
| SupervisorGroups.StopShutsExactly | include/agner/supervisor.hpp:223-230 | a stop shuts the supervisor if and only if it is handled, or fails outside a group with every child after the one that has gone already stopping and suppressed |
| SupervisorStops.FailedStopSpawnsExactly | include/agner/supervisor.hpp:223-230 | after a stop that fails, some run of signals spawns a child if and only if a group is in progress, or restarts are allowed at all and some child after the one that has gone is neither suppressed nor temporary |
| SupervisorStops.QuietSpawnsNothing | include/agner/supervisor.hpp:445-480 | a stopping supervisor without a group, all of whose children are suppressed or temporary or that allows no restarts, spawns nothing in any run of signals, stops and deletions, whatever fails |
| SupervisorGroups.ShutStep | include/agner/supervisor.hpp:223-230 | a supervisor that is shut handles every signal and call without exception |
| SupervisorGroups.GroupRunOutcome | include/agner/supervisor.hpp:482-557 | whatever deaths, foreign spawns and other signals come between the signals a group waits for, it ends with the kept children that no signal was about, then new children for the plan items to be restarted |
| SupervisorGroups.GroupRestartOutcome | include/agner/supervisor.hpp:445-557 | a whole group restart leaves the unplanned siblings that did not die, then new children for the failed one and the planned siblings that are not temporary, in their old order and with their arguments |
| SupervisorOrders.RestForOneKeepsStartOrder | include/agner/supervisor.hpp:502-557 | under `rest_for_one`, after any run of terminations, group restarts, stops and deletions, the specifications of registered and planned children are those of the beginning, in the start order, less exactly those that have left for good |
| SupervisorOrders.OneForAllSpecs | include/agner/supervisor.hpp:502-557 | a whole `one_for_all` restart leaves the failed child's specification first, then those of its siblings that are not temporary, in the old order |
| SupervisorOrders.OneForAllKeepsStartOrder | include/agner/supervisor.hpp:502-557 | a whole `one_for_all` restart keeps the start order if and only if every child in front of the failed one is temporary |
| SupervisorOrders.SiblingComesBack | include/agner/supervisor.hpp:502-557 | after a whole group restart a child with a sibling's specification is registered if and only if the sibling was planned and is not temporary, suppressed or not; or was not planned, and no signal was about it |
| SupervisorExamples.OneForAllRestarts | include/agner/supervisor.hpp:502-557 | a run from a new supervisor in which the second of two permanent children fails and both are restarted |
| SupervisorExamples.OneForAllSwaps | include/agner/supervisor.hpp:502-557 | that run exchanges the two |
| SupervisorExamples.StoppedChildComesBack | include/agner/supervisor.hpp:526-556 | a run in which a child stopped by `stop_child` is restarted by a group |
| SupervisorExamples.EarlierSiblingIsForgotten | include/agner/supervisor.hpp:482-500 | a run in which a permanent child that fails while a group waits is never restarted |
| SupervisorExamples.HalfStoppedSpawns | include/agner/supervisor.hpp:223-230 | a run in which a supervisor marked as stopping, by a call that failed, restarts a child, having handled the signals in the order of the deaths |
| SupervisorPopulation.TerminationConserves | include/agner/supervisor.hpp:445-476 | under the one-by-one strategies an accepted restart keeps the multiset of specification and arguments, and any other exit removes exactly that child |
| SupervisorPopulation.PermanentChildrenSurvive | include/agner/supervisor.hpp:445-476 | while nobody intervenes and restarts are not refused, the permanent children are always the same |
| SupervisorPopulation.RestartChildOutcome | include/agner/supervisor.hpp:415-429 | a restart request asks every running child of the specification to stop, with restart allowed, and each dynamic child already stopping gets a successor with its arguments at once, in their order |
| SupervisorPopulation.ThrowsExactlyWhenSomeoneIsGone | include/agner/supervisor.hpp:589-596 | in every state, also one an exception has left, a call or a signal fails exactly when a child to be asked to stop has left the registry without having been asked |
| SupervisorPopulation.BothDeadReached | include/agner/supervisor.hpp:334-361 | the state of the next row is reached by two starts and two deaths |
| SupervisorPopulation.TwoDeathsThrow | include/agner/supervisor.hpp:526-538 | under `one_for_all`, two children dying before the supervisor learns of either makes the first signal fail |
| SupervisorObjects.Supervisor.constructor | include/agner/supervisor.hpp:668-674 | a new supervisor has no children, no times, no group and the first start order |
| SupervisorObjects.Supervisor.FindRunningChildForSpec | include/agner/supervisor.hpp:364-373 | the first registered child of the specification, if any |
| SupervisorObjects.Supervisor.StartChildWithArgs | include/agner/supervisor.hpp:334-361 | the fields become those of starting a child; the reference is the running child's or the new one |
| SupervisorObjects.Supervisor.RequestStop | include/agner/supervisor.hpp:589-596 | a stopping child is left alone; another is marked, and the request fails if the scheduler no longer has it |
| SupervisorObjects.Supervisor.StopAllChildren | include/agner/supervisor.hpp:401-407 | all children are suppressed and stopping; or one that is not stopping has gone, and exactly those up to it are |
| SupervisorObjects.Supervisor.Stop | include/agner/supervisor.hpp:223-230 | the fields become those of stopping the supervisor, once, also when that fails half-way |
| SupervisorObjects.Supervisor.ForgetOldRestarts | include/agner/supervisor.hpp:617-620 | the times within the window remain, in order |
| SupervisorObjects.Supervisor.RegisterRestart | include/agner/supervisor.hpp:609-627 | the fields and the answer are those of a restart decision |
| SupervisorObjects.Supervisor.HandleSignal | include/agner/supervisor.hpp:438-443 | a signal from nobody is ignored; any other is handled as a termination, and the invariant survives |
| SupervisorObjects.Supervisor.HandleTermination | include/agner/supervisor.hpp:445-480 | the fields become those of a termination, which `TerminationDecides` says when to answer with a restart |
| SupervisorObjects.Supervisor.HandleRestartGroupStop | include/agner/supervisor.hpp:482-500 | the fields become those of a termination during a group |
| SupervisorObjects.Supervisor.FinalizeRestartGroup | include/agner/supervisor.hpp:545-557 | the loop over the plan leaves the fields of a finished group |
| SupervisorObjects.Supervisor.MakePlan | include/agner/supervisor.hpp:504-524 | collecting and removing gives the failed child followed by the planned siblings |
| SupervisorObjects.Supervisor.StopPlanned | include/agner/supervisor.hpp:528-538 | the loop over the plan asks exactly the planned siblings to stop and lists them as pending; or one of them has gone, and it has done so for those up to that one |
| SupervisorObjects.Supervisor.BeginRestartGroup | include/agner/supervisor.hpp:502-543 | the fields become those of a group just begun |
| SupervisorObjects.Supervisor.StopAndSuppress | include/agner/supervisor.hpp:391-399 | the children of the specification are suppressed and stopping, or one of them has gone |
| SupervisorObjects.Supervisor.DeleteChildren | include/agner/supervisor.hpp:432-436 | the children of the specification are stopped and off the map |
| SupervisorObjects.Supervisor.RestartChildEntry | include/agner/supervisor.hpp:573-587 | a running child is asked to stop with its restart allowed; a stopping one is respawned |
| SupervisorObjects.Supervisor.RestartChildren | include/agner/supervisor.hpp:415-429 | the two loops leave the fields of a restart request |
| Mailboxes.FirstVisitor | include/agner/detail/actor_detail.hpp:161-164 | the first visitor that takes the message, and none only if none does |
| Mailboxes.FirstMatch | include/agner/actor.hpp:290-305 | the first message any visitor takes, and none only if none does |
| Mailboxes.StepKeepsInv | include/agner/actor.hpp:172-344 | every enqueue, stop, receive, timeout and resumption keeps the mailbox invariant |
| Mailboxes.SentArrives | include/agner/actor.hpp:172-183 | in any run what has arrived is what was sent, in order, each stop having sent the exit signal of its reason; and the receives are those that were asked for, with their visitors and timeouts |
| Mailboxes.LatestStopDecides | include/agner/actor.hpp:176 | the exit reason is that of the latest stop |
| Mailboxes.SentIsHandedOver | include/agner/actor.hpp:172-183 | a message, or the exit signal of a stop, that the waiting receive accepts is handed to its first visitor for it at once, and the coroutine is scheduled; the mailbox is as it was |
| Mailboxes.SentIsQueued | include/agner/actor.hpp:334-344 | any other goes to the end of the mailbox, and nobody is woken |
| Mailboxes.AwaitTakesFirst | include/agner/actor.hpp:223-226 | a receive takes the first queued message it accepts, out of the mailbox, and the actor goes on |
| Mailboxes.AwaitSuspends | include/agner/actor.hpp:228-250 | with none it leaves the mailbox alone, suspends the actor and registers a callback if it has a timeout |
| Mailboxes.SentIsQueuedOrTaken | include/agner/actor.hpp:290-344 | every message sent is queued once, in order of arrival, or was taken by exactly one receive |
| Mailboxes.ReceivesInOrder | include/agner/actor.hpp:290-305 | whatever acceptable message arrived before the one a receive took had gone to an earlier receive |
| Mailboxes.NeverWaitsInVain | include/agner/actor.hpp:223-232 | a waiting receive never coexists with a message it accepts |
| Mailboxes.ResumedOnceWithOneOutcome | include/agner/actor.hpp:228-260 | whoever is resumed was suspended, scheduled exactly once, and has exactly one outcome |
| Mailboxes.OutcomesAreFinal | include/agner/actor.hpp:236-270 | once a receive has ended, its outcome, its flag and how often it was scheduled never change |
| Mailboxes.StaleTimerDoesNothing | include/agner/actor.hpp:236-248 | a timer's flag is up exactly while its receive waits; a stale callback does nothing, the other ends the receive with the timeout value |
| Mailboxes.TimeoutIsRegistered | include/agner/actor.hpp:233-248 | a waiting receive with a timeout has its callback ahead of it |
| Mailboxes.WaitingIsHandedArrival | include/agner/actor.hpp:309-344 | a waiting receive that takes every kind of message has an empty mailbox, and is handed the next arrival at once |
| Mailboxes.TakingAllIsAQueue | include/agner/actor.hpp:223-344 | if all receives of an actor take every kind, what they have ended with, in their order, followed by the mailbox, is everything that has arrived, in order |
| ReceiveRaces.LookThenSuspend | include/agner/actor.hpp:223-250 | with nothing in between, looking and suspending are the one step in which the serial model takes them |
| ReceiveRaces.StepKeepsInv | include/agner/actor.hpp:223-344 | arrivals, looks, suspensions, timeouts and resumptions in any order keep the invariant of queue, flag and waiter |
| ReceiveRaces.SentArrives | include/agner/actor.hpp:172-183 | in any run what has arrived is what was sent, in order, the exit signals of stops included |
| ReceiveRaces.SentWakes | include/agner/actor.hpp:309-320 | whatever is sent, a stop's exit signal too, makes the waiting receive take the first message it accepts of those queued and the new one, if there is any |
| ReceiveRaces.SentIsQueued | include/agner/actor.hpp:334-344 | otherwise it goes to the end of the mailbox, and nobody is woken |
| ReceiveRaces.WaitsInVainExactly | include/agner/actor.hpp:223-232 | in any run a receive waits with a message it accepts queued if and only if one arrived between its look and its suspension and nothing has arrived since |
| ReceiveRaces.AnyArrivalWakes | include/agner/actor.hpp:309-344 | such a receive is handed a message and scheduled at the next arrival, whatever that is |
| ReceiveRaces.LostWakeUp | include/agner/actor.hpp:223-232 | a run from a new actor into that state |
| Actors.Actor.TryMatchVisitors | include/agner/detail/actor_detail.hpp:161-164 | the visitors are tried in order |
| Actors.Actor.TryMatchMailbox | include/agner/actor.hpp:290-305 | the first acceptable message is removed and handed to its visitor, or nothing changes |
| Actors.Actor.TryMatch | include/agner/actor.hpp:260-270 | a match also takes the timeout flag down |
| Actors.Actor.NotifyWaiterLocked | include/agner/actor.hpp:309-320 | the waiting receive is matched and handed out to be scheduled, or waits on |
| Actors.Actor.EnqueueMessage | include/agner/actor.hpp:334-344 | the fields become those of an arrival |
| Actors.Actor.Stop | include/agner/actor.hpp:172-183 | the exit reason is set and the exit signal of that reason arrives from the actor itself, as `SentIsHandedOver` and `SentIsQueued` say |
| Actors.Actor.Await | include/agner/actor.hpp:223-250 | the outcome is there at once, or the coroutine is suspended, with a callback if it has a timeout |
| Actors.Actor.Timeout | include/agner/actor.hpp:237-248 | the callback does nothing if its flag is down, otherwise it ends the receive and schedules it |
| Actors.Actor.ResumeReceive | include/agner/actor.hpp:252-256 | the resumed coroutine gets what its receive ended with |
| GenServers.OnlyRequestsMatter | include/agner/genserver.hpp:196-203 | replies and down signals make no difference to a serving loop |
| GenServers.ServingIsAFold | include/agner/genserver.hpp:163-210 | for any interleaving of arrivals and dispatches the state and the replies are a left fold of the handlers over the arrivals up to the first exit signal |
| GenServers.FoldIsHandled | include/agner/genserver.hpp:174-210 | the fold goes through the states that the handlers give: each call and each cast runs its handler, nothing else changes the state; its replies are, in order, one for each call, to its caller, with its id and its response |
| GenServers.ServesInOrder | include/agner/genserver.hpp:163-210 | in any run the messages taken off the mailbox are the first that arrived, none after an exit signal; the state and the replies are what the handlers of the calls and casts among them give, in order; and only an exit signal stops the server |
| GenServers.GenServer.DispatchOne | include/agner/genserver.hpp:174-210 | the message at the head is handled, as `ServesInOrder` says of whole runs, and the answer is whether it was an exit signal |
| GenServers.GenServer.Serve | include/agner/genserver.hpp:163-170 | the loop stops or has caught up, and is where the fold ends |
| GenServers.Caller.BeginCall | include/agner/genserver.hpp:97-100 | each call has an id its caller has not used |
| GenServers.Caller.ReceiveReply | include/agner/genserver.hpp:120-133 | a receive for replies takes the first reply out of the mailbox and leaves all else there |
| GenServers.Caller.AwaitReply | include/agner/genserver.hpp:114-144 | the loop takes replies in the order in which they came, drops those with other ids, and returns at the first with its own, unless a receive expires or the deadline has passed before; all other messages are still in the mailbox |
| CallCorrelations.StepKeepsInv | include/agner/genserver.hpp:92-194 | every step of the system keeps the invariant of calls, replies and mailboxes |
| CallCorrelations.ReturnsItsOwnResponse | include/agner/genserver.hpp:127-141 | the server the call was made to has dispatched that very request, once, and the value is the response of its handler in the state its handlers have led to, call by call and cast by cast, over everything it had dispatched before |
| CallCorrelations.CallReturns | include/agner/genserver.hpp:92-194 | a call to an idle server can be made, served and answered, and then returns the response of its handler |
| CallCorrelations.OneReplyPerCall | include/agner/genserver.hpp:177-186 | at most one reply is sent for a call |
| CallCorrelations.TimedOutForGood | include/agner/genserver.hpp:135-137 | a call that times out has ended without a response, its caller waits no longer, and it never returns one later |
| CallCorrelations.LateReplyIsDropped | include/agner/genserver.hpp:127-133 | a reply to a call that is over, taken by a later call, is dropped and that call keeps waiting |
| Topologies.LinkKeepsSymmetry | include/agner/scheduler_base.hpp:69-75 | linking keeps the multiplicities of the two ends equal, also for an actor linked to itself |
| Topologies.StepKeepsInv | include/agner/scheduler_base.hpp:69-231 | every link, monitor, spawn and exit keeps links symmetric and the count equal to the registry's size |
| Topologies.ExitLeavesNoMention | include/agner/scheduler_base.hpp:194-220 | after an exit no link or monitor entry and no list anywhere mentions the actor |
| Topologies.LinksAreSentOrInForce | include/agner/scheduler_base.hpp:69-227 | at any time each link ever made has been announced by exactly one exit signal or is in force |
| Topologies.ExitSendsAllLinks | include/agner/scheduler_base.hpp:194-209 | the exit of either end announces all links between the two so far, each once |
| Topologies.MonitorsAreSentOrInForce | include/agner/scheduler_base.hpp:80-85 | each monitor ever set up has been answered by exactly one down signal, or its target is still registered |
| Topologies.ExitReachesTheLiving | include/agner/scheduler_base.hpp:225-230 | signals are lost only on actors no longer registered |
| Topologies.CountIsRegistry | include/agner/scheduler_base.hpp:114-116 | the active actor count is the size of the registry between operations |
| Topologies.RegisteredExactly | include/agner/scheduler_base.hpp:142-192 | in any run the registry holds exactly the actors spawned that have not exited |
| Topologies.ExitAnnounces | include/agner/scheduler_base.hpp:194-230 | an exit sends, in order, one exit signal for each entry of its list of links and one down signal for each of its monitors, with its own reference and reason |
| Topologies.EverySignalHasItsExit | include/agner/scheduler_base.hpp:178-231 | in any run every signal sent names the one exit that sent it, and gives that exit's reason |
| Topologies.DeliveredWasSent | include/agner/scheduler_base.hpp:225-230 | what is delivered is among what was sent |
| Topologies.MonitorsInOrder | include/agner/scheduler_base.hpp:80-85 | a registered actor's monitors are those who came to watch it, in that order |
| Topologies.LinksInOrder | include/agner/scheduler_base.hpp:69-75 | an actor's links are some of those it was linked to, in that order |
| SchedulerBases.SchedulerBase.ActiveActorCount | include/agner/scheduler_base.hpp:114-116 | the counter read between operations is the number of registered actors |
| SchedulerBases.SchedulerBase.Link | include/agner/scheduler_base.hpp:69-75 | fails, changing nothing, unless both are registered; otherwise each is on the other's list once more |
| SchedulerBases.SchedulerBase.Monitor | include/agner/scheduler_base.hpp:80-85 | fails, changing nothing, unless both are registered |
| SchedulerBases.SchedulerBase.SpawnImpl | include/agner/scheduler_base.hpp:142-167 | registers a new actor, linked and monitored as asked, even by an actor that is gone |
| SchedulerBases.SchedulerBase.Send | include/agner/scheduler_base.hpp:44-55 | a message to an actor that is not registered is dropped |
| SchedulerBases.SchedulerBase.CollectExits | include/agner/scheduler_base.hpp:194-209 | one exit signal for each entry of the list, and the actor struck off everybody's list |
| SchedulerBases.SchedulerBase.CollectDowns | include/agner/scheduler_base.hpp:211-218 | one down signal with the reason of the exit for each monitor, in order, and the entry dropped |
| SchedulerBases.SchedulerBase.NotifyExit | include/agner/scheduler_base.hpp:178-231 | the fields become those of an exit, as `ExitAnnounces` says, with all signals sent after the actor is off the registry |
| EventLoops.InsertSorts | include/agner/scheduler.hpp:38-41 | the multimap stays sorted by deadline and, for equal deadlines, by registration |
| EventLoops.ScheduleAfterKeepsInv | include/agner/scheduler.hpp:38-41 | a new timer comes after everything that has fired |
| EventLoops.TakeTimerKeepsInv | include/agner/scheduler.hpp:58-67 | firing the first timer when it is due keeps the order of firing |
| EventLoops.OverMeansAllFired | include/agner/scheduler.hpp:44-69 | with nothing left, every registration has fired once, in order of the time it was made plus its delay and then of registration, never early, and every ready coroutine was resumed, in order |
| EventLoops.OneSortedOrder | include/agner/scheduler.hpp:58-67 | the registrations determine the order of firing |
| Schedulers.Scheduler.Emplace | include/agner/scheduler.hpp:39-40 | the timer goes after all others with its deadline |
| Schedulers.Scheduler.ScheduleAfter | include/agner/scheduler.hpp:38-41 | a timer with its deadline counted from the clock |
| Schedulers.Scheduler.Perform | include/agner/scheduler.hpp:29-41 | running something makes ready and registers exactly what it asks for, in order |
| Schedulers.Scheduler.FireAll | include/agner/scheduler.hpp:58-67 | all timers, also new ones, fire before any coroutine is resumed, and what they make ready is exactly what their callbacks ask for |
| Schedulers.Scheduler.Run | include/agner/scheduler.hpp:44-69 | the loop ends; a turn with a coroutine ready resumes the first one and fires nothing, any other fires timers only; by the end every callback registered has fired exactly once, in order of deadline and registration, never early, and every coroutine made ready has been resumed |

## Left out

- Weak memory orderings and fences of the deque: steps interleave sequentially consistently.
- Wrap-around of 64-bit counters.
- WorkStealingDeques.WorkStealingDeque.constructor: the capacity is a power of two; the assertion would also accept 0, and a buffer with no slots.
- Move construction, move assignment and destruction of the deque: buffers outlive all stealers.
- `empty` of the deque, which is approximate and used only as a hint for waiting.
- Coroutine frames, `task`, `std::any`, variants and visitor typing: messages have a kind, a visitor a set of kinds, and a handler is a function.
- Condition variables, threads, the 1 ms wait, the timer loop and the shutdown handshake of the multi-threaded scheduler, and all of the asio scheduler.
- MtSchedulerObjects.MtScheduler.WorkerLoop: does not say that work is found eventually; fairness and liveness are not modelled.
- WorkStealingDeques.WorkStealingDeque.Steal: the stealer's steps name their thread; the C++ method has no such parameter.
- Mailboxes.NeverWaitsInVain: for the serial schedulers, where a look that finds nothing and the suspension are one step; `ReceiveRaces` has them as two.
- ReceiveRaces.StepKeepsInv: a timeout callback is one step, as is everything `await_suspend` does.
- Supervisors.AnyStepKeepsInv: in the code no signal is handled after one whose handling has failed; the runs of the model go on, so what is proved of all of them is more than is needed. `FailedStopSpawnsExactly` speaks of the runs of the model.
- Mailboxes.SentIsQueuedOrTaken: visitors do not enqueue into the mailbox that is being scanned.
- Actors.Actor.Await: awaiters are records in a list of the actor, where the source has objects in coroutine frames.
- The messages of a receive's visitors: what a visitor computes is not modelled, only which message it is given.
- Supervisor signals: each termination signal is genuine; a supervisor's stop of itself is counted, and its own mailbox is not modelled.
- SupervisorGroups.NothingSpawnsAfterStop: for runs without exceptions; with them `NothingSpawnsOnceShut` and `StopShutsExactly` say what remains of it.
- MtSchedulerObjects.MtScheduler.FindWork: that a handle found may already be `done` and is then not resumed.
- SupervisorGroups.RunKeepsRunInv: no start, restart, stop or deletion of a child during a group; the plan is a copy and the code ignores such changes.
- Initial start of the static children in a supervisor's `init`, `which_children` and `child_ref`: a run of starts and lookups without further properties. The shutdown timeout of a child specification is never used.
- Topologies.ExitLeavesNoMention: for actors not linked to themselves; the loop would edit the vector it iterates.
- A dead watcher stays in other actors' monitor lists; its down signals are sent and dropped.
- CallCorrelations.ReturnsItsOwnResponse: nobody forges replies, and a request's response has the type its caller expects.
- GenServers.Caller.AwaitReply: what arrives until each receive ends is a parameter, as are the clock's readings; the calling and the serving side are two objects here and one in the source.
- Schedulers.Scheduler.Run: delays are not negative, and running a coroutine or callback has finitely many effects; an unending program has no run to speak of.
