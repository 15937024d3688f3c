# Coroutine runtime and scheduler, verified

A Dafny model of the two runtimes of the repository.

**libco** is single-threaded. A thread runs many coroutines; those that share a stack are copied in and
out of one buffer when control passes between them. Waiting coroutines are items on intrusive lists: the
slots of a timing wheel, the active list of the event loop, the queue of a condition variable.

**corlib** is an N-to-M scheduler. Worker threads take tasks from one queue and run fibers, epoll events
and timers put tasks back.

| module | what it is |
|---|---|
| `Sequences`, `TimeoutItem` | sequence lemmas; the item that lists hold |
| `IntrusiveList`, `ListFamily` | the doubly linked lists on the heap, with `pPrev`, `pNext`, `pLink`; several of them side by side |
| `TimingWheel`, `WheelArray` | the wheel as a list of slots from its origin, and the circular array that is proved to implement it |
| `EventLoop`, `EventOrder`, `WaitEnds` | the loop, `poll` and condition variables as a state machine; the order in which waits become active; when they end |
| `EpollLists`, `CondQueues`, `CoEpoll`, `CoEpollRuns` | wheel, active list and timeout list over one set of linked items; the queues of the condition variables; the code of the loop over both, proved to take the machine's steps; and whole runs of it |
| `CoMutex` | `clsCoMutex` on top of the event loop |
| `SharedStack`, `StackRuns`, `StackTrace` | stack buffers, occupants, save buffers and the call stack on the heap; whole runs of it against private stacks; and what those remember |
| `PollMerge` | the hooked `poll` |
| `CoSysEnv` | the per-coroutine environment |
| `TaskQueue`, `Fiber`, `Workers`, `WorkerExits` | the queue under its lock, the fiber object, the worker threads as interleaved actors, and when they can leave |
| `FiberSemaphore`, `SemaphoreWakeUps` | the semaphore on top of the worker threads; who can still wake a fiber that waits on it |
| `IoEvents`, `IoEffects`, `IOManager` | event registration as steps over locked regions, what each answers and changes, and the objects updated in place |
| `Timers`, `TimerManager` | the timer set as steps, and the objects updated in place |

Code that changes things step by step is a class or a method with loops. Where its behaviour over whole
runs is the point, the same step is also a function on values, and each method is proved to do what its
function does; the theorems are about runs of the functions. A `Legal` run is any sequence of steps whose
guards hold; the guards are premises about callers, written out beside each machine.

Time in the wheel is in milliseconds, in the timers in nanoseconds, both unbounded; the one narrowing that
matters, the `int` count of `TakeAllTimeout`, is modelled. The clock, the kernel's answers, `qsort` and
failures of `epoll_ctl` are parameters. Lock-protected regions are atomic steps.

Places where the code does not do what its callers may expect are kept, each with the exact condition and
an input:

- The truncated count misses due items exactly when the gap is not `Faithful` (`TimingWheel.CompleteIffFaithful`).
- A signal to a waiter whose deadline was clamped can be lost (`EventLoop.SignalResumesIffNotEarly`); it is for every deadline beyond the wheel, on a wheel of any size, when the loop takes the last slot just before the signal (`EventLoop.ClampedSignalIsLost`).
- The slot rule of the wheel survives a take exactly when the gap is `Faithful` or its count negative (`TimingWheel.SlotsSurviveIff`).
- A resumed coroutine finds its stack image exactly when its stack is private, its buffer had an occupant, or the buffer happens to hold the image (`SharedStack.Env.CoSwap`, `SharedStack.UnmannedLosesImage`); a run in which nobody is freed or reset while others need the buffer it is in gives everybody the bytes it would have on a stack of its own (`StackRuns.RunOps`, `StackRuns.Program`).
- A queued task can still be taken exactly when some thread that may run it has not left (`Workers.TakenIffNotAbandoned`); a push from outside after `stop()` can come too late (`Workers.LatePushIsStranded`), and then the workers that are still in `run` cannot leave it (`WorkerExits.CanLeaveIff`).
- With duplicate fds `poll` returns the number of fds that report. Whatever the kernel answers, that is the number of entries with an answer, exactly when no two entries of one fd ask for anything and every fd is asked for POLLERR and POLLHUP (`PollMerge.CountsEntriesIff`); two entries that ask one fd for POLLIN are counted once (`PollMerge.OneCountedForTwo`).
- A fiber that begins to wait on a semaphore can be resumed without a notify exactly when it has a job in a thread's hand, or a queued one that a thread not yet gone may run (`SemaphoreWakeUps.WaiterIsDisturbedIff`), as a fiber that was pushed twice has (`SemaphoreWakeUps.PushedTwiceIsStray`). A notified one can still be resumed exactly when some thread is not gone (`SemaphoreWakeUps.NotifiedIsResumedIff`).
- A stale epoll report makes the assertion of `triggerEvent` fail (`IoEvents.DispatchAbortsIff`, `IoEvents.StaleReportAborts`); a resize cuts off contexts exactly when it comes late (`IoEvents.ResizeKeepsIff`, `IoEvents.LateResizeCutsOff`).
- The timer set drops a timer whose deadline is taken (`Timers.NewIsFiledIff`, `Timers.DueIsRearmedIff`), cancels the wrong timer (`Timers.CancelTakesOut`), puts another one out (`Timers.RefreshDisplaces`, `Timers.ResetDisplaces`, `Timers.LostTimerEvicts`), spins on a recurring timer of period zero (`Timers.TerminatesIff`, `Timers.PeriodZeroNeverEnds`), need not end after a clock rollover (`Timers.RolloverEndsIff`, `Timers.OneRecurringNeverEnds`) and misses a wake-up if the clock goes back before a refresh (`Timers.RefreshMissesIff`, `Timers.RefreshIsMissed`).

Lines 404 and 406 of `corlib/ioscheduler.cpp` contain stray letters; line 406 is read as a vector of callbacks.

## Model

| member | source | states |
|---|---|---|
| IntrusiveList.AddTail | libco/co_routine.cpp:191-211 | the list becomes old nodes + [node]; links mirror each other and `pLink` names the list; a node that is in a list is left alone |
| IntrusiveList.PopHead | libco/co_routine.cpp:212-237 | the first node leaves, the rest keeps its order, the popped node is in no list |
| IntrusiveList.RemoveFromLink | libco/co_routine.cpp:151-190 | exactly this node leaves whichever list holds it; every other list is untouched |
| IntrusiveList.Join | libco/co_routine.cpp:238-266 | target becomes target + source, source empties, every moved node is owned by the target |
| IntrusiveList.ListsAreDisjoint | libco/co_routine.cpp:151-266 | two well-formed lists share no node |
| ListFamily.AppendTo | libco/co_routine.cpp:191-211 | among any number of lists, only the one named grows, by this node at its end |
| ListFamily.TakeOff | libco/co_routine.cpp:151-190 | among any number of lists, the one that holds the node loses it and every other one stays as it is |
| ListFamily.JoinInto | libco/co_routine.cpp:238-266 | among any number of lists, one receives the nodes of another, which is left empty |
| TimingWheel.AddKeepsValid | libco/co_routine.cpp:378-412 | filing adds exactly one item or fails, fails exactly for a time before the origin or a deadline in the past, and keeps the slot rule (deadline at least origin + offset, equal if not clamped) |
| TimingWheel.RemoveKeepsValid | libco/co_routine.cpp:151-190 | unfiling removes that item from the wheel and keeps the slot rule |
| TimingWheel.TakeKeepsValid | libco/co_routine.cpp:413-443 | taking keeps the slot rule across the turn of the origin, for every gap that `SlotsSurviveIff` allows; a negative count leaves the wheel as it was |
| TimingWheel.SlotsSurviveIff | libco/co_routine.cpp:423-443 | the slot rule survives the take of every wheel with this origin if and only if the truncated count is faithful or negative |
| TimingWheel.TakeConserves | libco/co_routine.cpp:413-443 | what was filed is what was taken plus what is left, for every gap |
| TimingWheel.TakeIsExact | libco/co_routine.cpp:413-443 | every due item is delivered, and an item delivered before its deadline was clamped |
| TimingWheel.CompleteIffFaithful | libco/co_routine.cpp:423-431 | a take delivers everything due from every wheel with this origin if and only if the truncated count still covers the gap |
| TimingWheel.ShortGapsAreFaithful | libco/co_routine.cpp:423-431 | every gap below 2^31 - 1 ms is covered |
| TimingWheel.LongGapDeliversNothing | libco/co_routine.cpp:423-431 | at a gap of 2^31 - 1 ms the count is negative and nothing is delivered |
| TimingWheel.TakenInDeadlineOrder | libco/co_routine.cpp:432-443 | with nothing clamped, items come out in deadline order |
| TimingWheel.WheelAgreesWithPlainSet | libco/co_routine.cpp:378-443 | after any run of add, remove and take, the wheel holds exactly what a plain multiset would, and the next take delivers all that is due and otherwise only clamped items |
| TimingWheel.UnclampedWheelIsPlainSet | libco/co_routine.cpp:378-443 | over any run in which nothing is clamped, every take delivers exactly what a plain set of deadlines finds due, each item once |
| WheelArray.Timeout.AddTimeout | libco/co_routine.cpp:378-412 | the circular array of intrusive lists files as the wheel of slots does, with the same return code |
| WheelArray.Timeout.TakeAllTimeout | libco/co_routine.cpp:413-443 | the array delivers to the result list what the wheel of slots delivers, in that order, and its start index and origin move on |
| WheelArray.Timeout.Remove | libco/co_routine.cpp:151-190 | unlinking a node by its own pointers removes its item from the wheel of slots |
| WheelArray.Timeout.constructor | libco/co_routine.cpp:353-372 | a new array shows an empty wheel |
| EventLoop.EveryWaitEndsInOneResume | libco/co_routine.cpp:772-869 | in every run a wait is resumed at most once, is then in no list, and until then its coroutine is suspended and its item is where a timeout, an event or a signal finds it |
| EventLoop.DrainNeverEarly | libco/co_routine.cpp:838-859 | one turn of the drain resumes the head or puts it back in the wheel, the latter exactly if it timed out before its deadline; only clamped items do, and re-filing never fails |
| EventLoop.RefilesAreBounded | libco/co_routine.cpp:838-859 | re-filings of an item times (slots - 1) stay below its deadline minus the origin at its first filing |
| EventLoop.DrainSettlesDebt | libco/co_routine.cpp:825-859 | whatever happens during a drain, all that was due or active when it began has been resumed when the active list is empty |
| EventLoop.SignalResumesIffNotEarly | libco/co_routine.cpp:1120-1132 | whatever the resumed coroutines do in the rest of a drain, a waiter signalled in it has been resumed when the active list is empty if and only if it was not flagged as timed out ahead of its deadline |
| EventLoop.UnclampedIsNeverEarly | libco/co_routine.cpp:825-859 | an unclamped waiter is never flagged so |
| EventLoop.ClampedSignalIsLost | libco/co_routine.cpp:838-859 | on a wheel of any size and for every deadline beyond it, a legal run in which the waiter is signalled, not resumed, out of its queue and back in the wheel |
| EventLoop.StepKeepsInv | libco/co_routine.cpp:772-869 | every step of the loop keeps the invariant on lists, queues, waits, flags and the wheel |
| EventLoop.CondWaitKeepsInv | libco/co_routine.cpp:1149-1176 | entering a condition wait, timed or not, keeps the invariant |
| EventLoop.PollWaitKeepsInv | libco/co_routine.cpp:917-1029 | entering a poll wait keeps the invariant |
| EventLoop.SignalKeepsInv | libco/co_routine.cpp:1120-1132 | a signal keeps the invariant and shortens a non-empty queue by one |
| EventLoop.SignalMoves | libco/co_routine.cpp:1120-1132 | a signal takes the first waiter off the queue, out of the wheel or wherever it is active, to the end of the active list, and changes nothing else |
| EventLoop.BroadcastKeepsInv | libco/co_routine.cpp:1133-1148 | a broadcast keeps the invariant and leaves the queue empty |
| EventLoop.BroadcastMoves | libco/co_routine.cpp:1133-1148 | every waiter ends on the active list and out of the wheel, and nobody else is moved |
| EventOrder.FirstEventCounts | libco/co_routine.cpp:781-787 | the first event of a poll takes its item from wherever it is to the end of the active list; a further one changes nothing at all |
| EventOrder.FirstEventsInOrder | libco/co_routine.cpp:811-822 | the polls whose first event a batch brings stand in the order of the positions of those events |
| EventOrder.BatchOrder | libco/co_routine.cpp:811-822 | after a batch exactly those polls are the last active ones, in that order, and out of the wheel; the rest of the active list keeps its order |
| EventOrder.BroadcastInOrder | libco/co_routine.cpp:1133-1148 | after a broadcast the waiters are the last active ones, in the order in which they began to wait |
| WaitEnds.NobodyIsResumedEarly | libco/co_routine.cpp:793-869 | in every run, whoever was resumed had been woken by an event, a signal or a broadcast of that run, or the run had taken its timeouts at a time not before the deadline |
| WaitEnds.LoopCanEndIff | libco/co_routine.cpp:793-869 | in every reachable state, the steps of the loop alone can bring a wait that was entered to its resume if and only if it has a deadline, is active already, or has been resumed |
| EpollLists.EpollLists.MoveToActive | libco/co_routine.cpp:785-787 | by its own owner pointer an item leaves a wheel slot, the active list or nothing, and becomes the last active one; the wheel and the list show it |
| EpollLists.EpollLists.PopActive | libco/co_routine.cpp:838-842 | the first active item is returned unlinked, the rest keeps its order, the wheel is untouched |
| EpollLists.EpollLists.AddTimeout | libco/co_routine.cpp:378-412 | filing an unlinked item is the wheel's step with its return code; the active list is untouched |
| EpollLists.EpollLists.TakeTimeouts | libco/co_routine.cpp:825-836 | the walk sets bTimeout on exactly the taken items, which follow the active ones in the wheel's order |
| CondQueues.Conds.Pop | libco/co_routine.cpp:1188-1196 | null for an empty queue, otherwise its first item, which leaves |
| CondQueues.Conds.Wait | libco/co_routine.cpp:1149-1168 | the new item is the last of its condition's queue |
| CondQueues.Conds.Leave | libco/co_routine.cpp:1172-1173 | a resumed waiter's item leaves its queue, if it is still in it, and is freed; every other queue is untouched |
| CoEpoll.CoEpollCtx.constructor | libco/co_routine.cpp:877-888 | a new loop shows the machine's start state |
| CoEpoll.CoEpollCtx.OnPollPrepare | libco/co_routine.cpp:772-792 | the first event of a poll detaches it and moves its linked item to the end of the active list; a further one leaves wheel, active list and flags as they are |
| CoEpoll.CoEpollCtx.PrepareEvents | libco/co_routine.cpp:811-822 | the event loop's first pass leaves the polls whose first event it meets at the end of the active list, in the order of those events |
| CoEpoll.CoEpollCtx.TakeTimeouts | libco/co_routine.cpp:825-836 | taking, flagging and joining on the linked lists is the machine's step |
| CoEpoll.CoEpollCtx.DrainOne | libco/co_routine.cpp:838-859 | one turn of the drain loop on the linked lists is the machine's step; the result says whether the popped item's coroutine was resumed |
| CoEpoll.CoEpollCtx.Wake | libco/co_routine.cpp:1127-1129 | RemoveFromLink and AddTail implement the machine's move to the active list from wherever the item is linked |
| CoEpoll.CoEpollCtx.CondSignal | libco/co_routine.cpp:1120-1132 | the code's signal is the machine's step; the result says whether anybody waited |
| CoEpoll.CoEpollCtx.CondBroadcast | libco/co_routine.cpp:1133-1148 | the code's loop is the machine's step, and ends; the waiters are the last active ones in the order of their queue |
| CoEpoll.CoEpollCtx.CondTimedWait | libco/co_routine.cpp:1149-1176 | the code's wait up to its yield, with its two linked items, is the machine's step, with the code's return value |
| CoEpoll.CoEpollCtx.PollInner | libco/co_routine.cpp:985-1000 | filing a new item up to the yield is the machine's step |
| CoEpoll.CoEpollCtx.CondAlloc | libco/co_routine.cpp:1177-1180 | a new condition has an empty queue, and the machine does not notice |
| CoEpollRuns.Step | libco/co_routine.cpp:793-869 | every event of the machine is done on the linked lists by the code, with the item that the kernel knows by its `data.ptr`; the result is the wait that was resumed, if any |
| CoEpollRuns.RunLoop | libco/co_routine.cpp:793-869 | for every legal run from the start, the lists after the calls of the code show the machine's state and keep its invariant, and the coroutines are resumed in the machine's order |
| CoMutex.MutualExclusionAndFifo | libco/co_comm.cpp:10-22 | in every run at most one coroutine is inside, none while an heir is pending, locks are granted in arrival order, and the counter is holder or heir plus queue |
| CoMutex.LocksReturnInOrder | libco/co_comm.cpp:10-22 | read off the calls and returns of any run: at most one coroutine is between the return of CoLock and CoUnLock, and CoLock returns in the order of its calls |
| CoMutex.LockKeepsMutex | libco/co_comm.cpp:10-17 | a lock is granted at once exactly if nobody is inside and no heir is pending, and keeps the mutex invariant |
| CoMutex.UnlockKeepsMutex | libco/co_comm.cpp:19-22 | an unlock empties the mutex and makes the first in the queue, if any, the heir, off the queue and active; it keeps the invariant |
| CoMutex.OtherKeepsMutex | libco/co_routine.cpp:793-869 | no other step of the loop changes the holder, the heir, the order, the count or the queue of the mutex, unless it pops a waiter of the mutex |
| CoMutex.HeirEnters | libco/co_routine.cpp:838-859 | a waiter of the mutex at the head of the active list is the heir, and popping it resumes it and makes it the holder |
| CoMutex.ClsCoMutex.CoLock | libco/co_comm.cpp:10-17 | the code's lock is the machine's step; the caller is suspended exactly if the counter was positive |
| CoMutex.ClsCoMutex.CoUnLock | libco/co_comm.cpp:19-22 | the code's unlock is the machine's step |
| CoMutex.ClsCoMutex.constructor | libco/co_comm.cpp:3-6 | a new mutex is free |
| SharedStack.SaveStackBuffer | libco/co_routine.cpp:618-634 | the save buffer becomes the bytes from the stack pointer to the end |
| SharedStack.CoctxMake | libco/co_routine.cpp:562-566 | making a context writes one word at the top and leaves everything below it |
| SharedStack.Env.constructor | libco/co_routine.cpp:742-760 | a new environment runs its main coroutine, all is safe and every shared buffer is occupied |
| SharedStack.Env.CoCreate | libco/co_routine.cpp:461-519 | a new coroutine on a shared memory, or on one of its own, disturbs nobody |
| SharedStack.Env.CoSwap | libco/co_routine.cpp:635-679 | the switched-out image is recorded, and the resumed coroutine finds above its stack pointer the image it had when last switched out if and only if its stack is private, its buffer had an occupant, or the bytes were there already |
| SharedStack.Env.CoResume | libco/co_routine.cpp:558-575 | every resume of another coroutine, ended, nested or new, keeps all images safe, those of the main one included; a started coroutine finds its image under the same condition, a new one starts, and the call stack grows by it |
| SharedStack.Env.CoYieldEnv | libco/co_routine.cpp:597-607 | control returns to the resumer, which finds its image under the same condition; all other images stay safe |
| SharedStack.Env.ResumeKeepsManned | libco/co_routine.cpp:558-575 | a resume keeps every shared buffer occupied |
| SharedStack.Env.YieldKeepsManned | libco/co_routine.cpp:597-607 | so does a yield, and the resumer finds its image |
| SharedStack.Env.SwapOut | libco/co_routine.cpp:635-661 | before the switch the previous occupant's bytes are in its save buffer and the buffer belongs to the next coroutine |
| SharedStack.Env.SwapIn | libco/co_routine.cpp:663-679 | after the switch the saved bytes are back exactly under the guard of the code |
| SharedStack.Env.Compute | libco/co_routine.cpp:635-679 | whatever the running coroutine leaves in its buffer, all other images stay safe |
| SharedStack.Env.CoFree | libco/co_routine.cpp:531-550 | freeing keeps all images safe; every shared buffer stays occupied if nobody else started lives in it |
| SharedStack.Env.CoReset | libco/co_routine.cpp:576-596 | the same for a reset, which does nothing to a main or unstarted coroutine |
| SharedStack.Env.FinishRunning | libco/co_routine.cpp:444-460 | a coroutine whose function returned is marked ended and all images stay safe |
| SharedStack.UnmannedLosesImage | libco/co_routine.cpp:666-679 | a coroutine whose buffer has lost its occupant and holds anything but its image is resumed on bytes that are not its image |
| SharedStack.FreedOccupantLosesImage | libco/co_routine.cpp:531-550 | freeing the occupant and resuming a saved coroutine does that |
| StackRuns.AllocShareStack | libco/co_routine.cpp:279-294 | a shared stack is as many separate, unoccupied memories as asked for |
| StackRuns.Create | libco/co_routine.cpp:461-519 | the shared memories are dealt out in turn, any other stack is new; every buffer stays occupied that was |
| StackRuns.Perform | libco/co_routine.cpp:531-607 | one operation does to all stacks what it does to private ones: the coroutine that loses control leaves its bytes behind, and whoever gains it, the main one included, reads what it had left; the call stack grows by the resumed coroutine or loses the one that yields |
| StackRuns.RunOps | libco/co_routine.cpp:531-607 | over any list of resumes, yields, computations, ends, frees and resets, the bytes read from the buffers at the gains of control are, in order, those on private stacks, and call stack, started and ended coroutines, occupants and images end as the private machine's |
| StackRuns.Program | libco/co_routine.cpp:461-607 | the same bytes are read in a run from a new environment with any number of coroutines on shared and private stacks |
| StackTrace.EveryoneFindsWhatTheyLeft | libco/co_routine.cpp:531-607 | in the reference that `Program` is compared with, after any legal operations, whoever comes back to control runs and finds the bytes it left when it last lost it, and nobody else finds anything |
| PollMerge.FirstFds | libco/co_hook_sys_call.cpp:593-602 | the distinct fds of the entries, each once |
| PollMerge.Merge | libco/co_hook_sys_call.cpp:593-602 | one entry per fd in order of first appearance, asking for all that its duplicates ask for, and an index that finds it |
| PollMerge.MergePreservesMeaning | libco/co_hook_sys_call.cpp:610-618 | polling the merged entry, masked with an original's flags, is polling that original alone, masked with its flags, for every kernel state |
| PollMerge.ShorterIffDuplicates | libco/co_hook_sys_call.cpp:604-609 | the merged list is shorter exactly when two entries share an fd |
| PollMerge.PollEvent2Epoll | libco/co_routine.cpp:717-727 | each carried flag becomes the epoll flag of the same name |
| PollMerge.EpollEvent2Poll | libco/co_routine.cpp:728-738 | and back |
| PollMerge.PolledThroughEpoll | libco/co_routine.cpp:717-738 | what an entry hears is what epoll says of its translated flags, translated back |
| PollMerge.AnswerIsExact | libco/co_routine.cpp:717-738 | a flag is heard exactly if it is pending on a non-negative fd and is an error or hang-up, or one of POLLIN, POLLOUT, POLLRDNORM, POLLWRNORM that was asked for |
| PollMerge.CountIsExact | libco/co_routine.cpp:917-1029 | the number returned is the number of entries with an answer |
| PollMerge.ReportedMeans | libco/co_hook_sys_call.cpp:609-618 | an fd reports exactly if one of its entries alone would hear something |
| PollMerge.MergedCount | libco/co_hook_sys_call.cpp:609-610 | polling the merged entries counts the fds that report |
| PollMerge.CountsEntriesIff | libco/co_hook_sys_call.cpp:609-618 | that is the number of entries with an answer, for every answer of the kernel, if and only if no two entries of one fd ask for anything and every fd is asked for POLLERR and POLLHUP |
| PollMerge.OneCountedForTwo | libco/co_hook_sys_call.cpp:604-618 | two entries that ask the same fd for POLLIN are both answered, and counted once |
| PollMerge.Poll | libco/co_hook_sys_call.cpp:580-625 | with distinct fds every entry gets what poll reports; with duplicates the result is the number of fds that report, and if it is positive every entry gets its own requested flags; otherwise nothing is written |
| CoSysEnv.RunsOfSorted | libco/co_hook_sys_call.cpp:790-807 | removing repeats from a sorted list leaves the same names in strictly increasing order |
| CoSysEnv.Dedupe | libco/co_hook_sys_call.cpp:793-807 | the two-pointer loop moves exactly those entries to the front of the array |
| CoSysEnv.Prepare | libco/co_hook_sys_call.cpp:774-809 | the list left is increasing, without values, and holds exactly the non-empty names |
| CoSysEnv.BSearch | libco/co_hook_sys_call.cpp:829-831 | binary search finds an entry if and only if the name is listed |
| CoSysEnv.NoInterference | libco/co_hook_sys_call.cpp:811-901 | in any interleaving a coroutine's map is the result of its own operations alone |
| CoSysEnv.EveryoneFindsTheirOwn | libco/co_hook_sys_call.cpp:811-901 | in any interleaving from the start a coroutine finds for each listed name the value it has set last, unless it set it without overwriting an earlier one or unset it since |
| CoSysEnv.SysEnv.SetEnvList | libco/co_hook_sys_call.cpp:774-809 | the first call fixes the list, later calls change nothing |
| CoSysEnv.SysEnv.Setenv | libco/co_hook_sys_call.cpp:811-843 | a listed name changes in the caller's map as setenv says; every other map is unchanged; unlisted names go to the system |
| CoSysEnv.SysEnv.Unsetenv | libco/co_hook_sys_call.cpp:844-875 | the same for unsetenv |
| CoSysEnv.SysEnv.Getenv | libco/co_hook_sys_call.cpp:876-901 | a listed name gives the value the caller's map had before, and no map changes |
| CoSysEnv.StepOfUnset | libco/co_hook_sys_call.cpp:864-870 | an entry without a value is left alone, which is what clearing it would show |
| TaskQueue.FirstEligible | corlib/scheduler.cpp:108-125 | the position of the first task that is unpinned or pinned to this thread |
| TaskQueue.PickIsFair | corlib/scheduler.cpp:108-125 | of the tasks a thread may run it picks the one pushed first, and no other task leaves the queue |
| TaskQueue.PickKeepsOrder | corlib/scheduler.cpp:108-125 | the tasks that stay in the queue keep their order |
| TaskQueue.Scheduler.PickTask | corlib/scheduler.cpp:104-129 | the loop picks that task, keeps the order of the rest, counts the thread active, and asks for a tickle exactly if the queue is left non-empty |
| TaskQueue.Scheduler.ScheduleLock | corlib/scheduler.h:31-51 | a real task goes to the end, a null one nowhere, and a tickle is asked for exactly if the queue was empty |
| Fiber.Fiber.Resume | corlib/fiber.cpp:140-164 | from READY to RUNNING, and the thread's current fiber is this one |
| Fiber.Fiber.Yield | corlib/fiber.cpp:167-194 | to READY, or still TERM, and the thread's current fiber is the fiber's home |
| Fiber.Fiber.MainFuncEnds | corlib/fiber.cpp:202-215 | the callback is dropped, the fiber is TERM and has yielded |
| Fiber.Visit | corlib/scheduler.cpp:139-147 | a visit leaves the fiber in the state that the worker machine's steps give it, skips a TERM one, and leaves the thread's current fiber as it was exactly if that is the fiber's home |
| Workers.FibersAreExclusive | corlib/scheduler.cpp:137-158 | in every run no two threads are inside one fiber, a fiber is RUNNING exactly while a thread is inside it, and READY whenever `run` asserts it, even when queued again while running |
| Workers.EndedFiberNeverRunsAgain | corlib/scheduler.cpp:137-146 | once a fiber's function has returned, no thread is ever inside it again |
| Workers.NoTaskIsLost | corlib/scheduler.cpp:103-173 | in every run each pushed task is in exactly one of queue, one thread's hand and finished, and the active count is the number of threads with a task |
| Workers.QuietIsStable | corlib/scheduler.cpp:247-251 | once `stopping()` is true it stays true while only running tasks push |
| Workers.WorkersLeaveAfterTheLastTask | corlib/scheduler.cpp:161-172 | when a worker has left `run`, every task ever pushed has finished, once |
| WorkerExits.CanLeaveIff | corlib/scheduler.cpp:103-173 | in every reachable state the workers' own steps can bring a worker out of `run` if and only if it is out, its idle fiber has ended, or `stop()` was called and each queued task has a thread that may run it and is not gone |
| WorkerExits.QuietPoolCanBeJoined | corlib/scheduler.cpp:161-172 | so when nothing is left to do every worker can leave |
| WorkerExits.OrderlyStopIff | corlib/scheduler.cpp:103-173 | if nobody pushes from outside after `stop()`, a worker can leave if and only if each queued task is pinned to no thread or to one that exists |
| WorkerExits.FinishedIff | corlib/scheduler.cpp:103-173 | in every reachable state a queued task can be finished if and only if a thread that may run it is not gone |
| WorkerExits.EntersIffAlive | corlib/scheduler.cpp:137-146 | a thread that has locked a fiber enters it if and only if its function has not returned |
| WorkerExits.YieldsOrEnds | corlib/fiber.cpp:167-215 | inside, the fiber may yield, and is READY, or return, and is TERM |
| Workers.TakenIffNotAbandoned | corlib/scheduler.cpp:103-173 | in every reachable state a queued task has a continuation in which a thread takes it if and only if some thread that may run it has neither left `run` nor an idle fiber that has ended |
| Workers.AbandonedStays | corlib/scheduler.cpp:103-173 | a task that no such thread may run stays in the queue for ever |
| Workers.LatePushIsStranded | corlib/scheduler.cpp:161-172 | any callback that is pushed from outside after `stop()` has let the only worker go is such a task |
| Workers.StepKeepsInv | corlib/scheduler.cpp:103-173 | every step of every thread keeps the invariant on mutexes, fiber states, places of tasks and counts |
| FiberSemaphore.PermitsAreConserved | corlib/mutex.cpp:37-71 | in every run, counted from its steps: those who passed (a tryWait answered true, a wait that does not sleep, a notify that finds a waiter) plus the count are the initial count plus the notifies; a positive count means no waiter; the fibers that slept are picked in that order |
| FiberSemaphore.NoWakeUpIsLost | corlib/mutex.cpp:49-71 | in every run in which fibers begin to wait with no job of their own outstanding, hand-overs are the wake-ups that happened plus the fibers whose job is in the queue or in exactly one thread's hand, and a fiber that still waits has no job |
| FiberSemaphore.NotifiedBeforeYieldMustWait | corlib/scheduler.cpp:139-146 | a thread that took the job of a fiber that has not yielded yet cannot lock that fiber, and the fiber was indeed notified |
| FiberSemaphore.NotifiedFiberRuns | corlib/scheduler.cpp:139-146 | resuming a notified fiber does switch into it and settles its hand-over |
| FiberSemaphore.FiberSemaphore.TryWait | corlib/mutex.cpp:37-47 | it succeeds exactly if the count was positive and takes one permit exactly then |
| FiberSemaphore.FiberSemaphore.Wait | corlib/mutex.cpp:49-60 | it takes a permit and passes exactly if the count was positive, and otherwise the caller is the last waiter and yields |
| FiberSemaphore.FiberSemaphore.Notify | corlib/mutex.cpp:62-71 | the first waiter leaves and its fiber is the last task of the queue, for any thread; without a waiter the count grows by one |
| SemaphoreWakeUps.NotifiedIsResumedIff | corlib/scheduler.cpp:103-173 | after every such run, a fiber that has been notified and not resumed has a continuation that resumes it if and only if some thread is not gone |
| SemaphoreWakeUps.NotifyIsNeverRefused | corlib/mutex.cpp:62-71 | after every run a notify from outside is a legal step |
| SemaphoreWakeUps.WaiterIsDisturbedIff | corlib/mutex.cpp:49-60 | after every run, a fiber that begins to wait has a continuation in which a thread enters it without a notify if and only if a job of its own is in a thread's hand or queued with a thread that may run it and is not gone |
| SemaphoreWakeUps.PushedTwiceIsStray | corlib/mutex.cpp:49-60 | a legal run from the start state in which any fiber is pushed twice, runs and waits has such a continuation |
| SemaphoreWakeUps.EnteringSettles | corlib/scheduler.cpp:139-146 | that thread's next step, always possible, switches into the fiber and changes neither the waiters nor the hand-overs |
| IoEvents.EventsAreDeliveredOnce | corlib/ioscheduler.cpp:132-345 | in every run the pending count is the number of set bits, contexts are filled exactly for set bits, the kernel lists exactly the non-zero masks, and each registration is registered, scheduled once or dropped |
| IoEvents.AddKeeps | corlib/ioscheduler.cpp:151-190 | adding an event keeps that invariant |
| IoEvents.DelKeeps | corlib/ioscheduler.cpp:211-242 | deleting an event keeps it |
| IoEvents.CancelKeeps | corlib/ioscheduler.cpp:262-289 | cancelling an event keeps it |
| IoEvents.CancelAllKeeps | corlib/ioscheduler.cpp:309-345 | cancelling both events keeps it |
| IoEvents.DispatchKeeps | corlib/ioscheduler.cpp:432-479 | a dispatch that does not abort keeps it |
| IoEvents.Answers | corlib/ioscheduler.cpp:151-289 | the ADD, MOD or DEL chosen is always legal, so an operation fails only when the kernel fails it; addEvent registers its event exactly if it says 0; delEvent and cancelEvent say true and keep the event when the kernel fails |
| IoEffects.AddRegisters | corlib/ioscheduler.cpp:151-190 | the answer is 0 exactly if the direction was free and the kernel did not fail; then the mask, the kernel's mask, the context and the count have it, with a registration of its own, and all else is as before; otherwise nothing changes |
| IoEffects.DelDrops | corlib/ioscheduler.cpp:211-242 | true exactly if the event was there; it goes from mask, kernel, context and count and its registration is dropped, unless the kernel fails, when nothing changes |
| IoEffects.CancelFires | corlib/ioscheduler.cpp:262-289 | the same for cancelEvent, which schedules the registration |
| IoEffects.CancelAllFires | corlib/ioscheduler.cpp:309-345 | true exactly if there was any event; all are freed and their registrations scheduled, READ first, unless the kernel fails |
| IoEffects.DispatchFires | corlib/ioscheduler.cpp:432-479 | a dispatch that finishes frees and schedules the registered directions reported, all of them on an error, and changes nothing if there is none or the kernel fails |
| IoEffects.EveryAddHasItsRegistration | corlib/ioscheduler.cpp:132-345 | in every run the k-th addEvent answered 0 has registration k, which is registered for its fd and direction, scheduled or dropped; there are no other registrations |
| IoEvents.FireKeeps | corlib/ioscheduler.cpp:42-65 | firing an event schedules its own registration and clears its bit and context only |
| IoEvents.DispatchDelivers | corlib/ioscheduler.cpp:432-479 | a dispatch schedules exactly the registrations that fired, READ first, and leaves every other one in place |
| IoEvents.DispatchAbortsIff | corlib/ioscheduler.cpp:436-479 | the assertion of triggerEvent fails exactly when a report mixes a registered with an unregistered direction and the kernel accepts the change |
| IoEvents.ReadyDoesNotAbort | corlib/ioscheduler.cpp:432-479 | a report of registered directions only, or of none of them, never aborts |
| IoEvents.StaleReportAborts | corlib/ioscheduler.cpp:432-479 | deleting one direction between the report and the lock makes it fail |
| IoEvents.OnlyDelDrops | corlib/ioscheduler.cpp:194-242 | no step but delEvent drops a registration |
| IoEvents.ResizeKeepsIff | corlib/ioscheduler.cpp:117-129 | a resize keeps the invariant exactly when no context it cuts off has an event |
| IoEvents.ResizeIs | corlib/ioscheduler.cpp:117-129 | a resize keeps the contexts below the new size and adds empty ones |
| IoEvents.LookupReaches | corlib/ioscheduler.cpp:137-149 | the lookup of addEvent always reaches its fd, with a table of one and a half times its number, and is harmless exactly when a late resize cuts off nothing |
| IoEvents.LateResizeCutsOff | corlib/ioscheduler.cpp:132-149 | two first calls of addEvent for fds far enough apart: when the one for the larger fd is done, the resize of the other cuts its context off, while the kernel still lists it |
| IOManager.FdContext.TriggerEvent | corlib/ioscheduler.cpp:42-65 | the registration is handed out, its bit and context are cleared |
| IOManager.IOManager.constructor | corlib/ioscheduler.cpp:68-97 | a new manager is in the start state, with 32 contexts |
| IOManager.IOManager.ContextResize | corlib/ioscheduler.cpp:117-129 | the code's loop makes the contexts that are missing and cuts off those that are too many |
| IOManager.IOManager.AddEvent | corlib/ioscheduler.cpp:151-190 | 0 means that mask, context, count and kernel have the event; any other answer is -1 and leaves the objects unchanged |
| IOManager.IOManager.DelEvent | corlib/ioscheduler.cpp:194-242 | the same for delEvent |
| IOManager.IOManager.CancelEvent | corlib/ioscheduler.cpp:245-289 | the same for cancelEvent |
| IOManager.IOManager.CancelAll | corlib/ioscheduler.cpp:292-345 | the same for cancelAll |
| IOManager.IOManager.Dispatch | corlib/ioscheduler.cpp:432-479 | the same for one round of dispatch that does not abort |
| Timers.TerminatesIff | corlib/timer.cpp:163-191 | without a rollover the loop of listExpiredCb ends if and only if no recurring timer of period zero is or gets at the deadline `now` |
| Timers.PeriodZeroNeverEnds | corlib/timer.cpp:163-191 | with one recurring timer of period 0 in a new manager it never ends |
| Timers.CallbacksAreExact | corlib/timer.cpp:163-191 | the callbacks are those of exactly the timers due, once each, in deadline order |
| Timers.NotDueIsKept | corlib/timer.cpp:172-190 | timers that are not due are left alone |
| Timers.DueIsRearmedIff | corlib/timer.cpp:179-189 | a due one-shot is gone; a due recurring timer is back at now + period if and only if that deadline is fresh |
| Timers.NewIsFiledIff | corlib/timer.cpp:201-221 | a new timer is in the set if and only if its deadline was free |
| Timers.TimeoutIsExact | corlib/timer.cpp:134-160 | there is a timeout if and only if there is a timer: 0 when the least deadline has come, otherwise the whole milliseconds until then |
| Timers.CancelIs | corlib/timer.cpp:7-28 | true exactly if the timer had its callback; then it has none, and its deadline is free |
| Timers.RefreshIs | corlib/timer.cpp:31-50 | true exactly if it had its callback and its deadline was in the set; then the period starts anew, and otherwise nothing changes |
| Timers.ResetIs | corlib/timer.cpp:53-82 | the same, with the new period from now or from where the old one began; true without a change if period and start stay |
| Timers.HookIs | corlib/timer.cpp:201-221 | the hook is called exactly if the timer's deadline is the least and it has not been called since the last getNextTimer |
| Timers.CancelTakesOut | corlib/timer.cpp:7-28 | what cancel takes out of the set, also when the timer itself never got in |
| Timers.WakeUpIsNotMissed | corlib/timer.cpp:134-221 | in every run onTimerInsertedAtFront is called at most once between two getNextTimer calls, and has been called whenever the earliest deadline is below the one last seen |
| Timers.RefreshKeeps | corlib/timer.cpp:31-50 | a refresh never brings the earliest deadline forward, so it needs no wake-up |
| Timers.RefreshDisplaces | corlib/timer.cpp:31-50 | a refresh puts out whoever holds the timer's deadline, files the timer exactly if the new deadline is free, and leaves the others alone |
| Timers.ResetDisplaces | corlib/timer.cpp:53-82 | the same for a reset |
| Timers.LostTimerEvicts | corlib/timer.cpp:7-28 | cancelling a timer whose deadline was taken when it was made takes the holder of that deadline out of the set, which keeps its callback |
| Timers.ResetKeeps | corlib/timer.cpp:53-82 | a reset wakes if it must |
| Timers.NewKeeps | corlib/timer.cpp:110-115 | a new timer wakes if it must |
| Timers.ExpireKeeps | corlib/timer.cpp:163-191 | re-arming never brings the earliest deadline forward |
| Timers.RefreshMissesIff | corlib/timer.cpp:31-50 | in every state that keeps the invariant, a refresh misses a wake-up exactly when none is pending, getNextTimer saw a deadline, and the new deadline is below it |
| Timers.RefreshIsMissed | corlib/timer.cpp:31-50 | a new timer that getNextTimer has seen, refreshed after the clock was set back by anything, is such a case |
| Timers.RolloverEndsIff | corlib/timer.cpp:172-184 | after a rollover the loop ends if and only if the next deadline of every recurring timer is later than its own and taken |
| Timers.OneRecurringNeverEnds | corlib/timer.cpp:172-184 | with one recurring timer, of any period, in a new manager it never ends |
| Timers.RolledOverIsExact | corlib/timer.cpp:163-191 | when it ends, it has run the callback of every timer in the set once, in deadline order |
| TimerManager.TimerManager.AddTimer | corlib/timer.cpp:201-221 | the code's addTimer is the machine's step, and the hook is called exactly when the machine counts a call |
| TimerManager.TimerManager.NewTimer | corlib/timer.cpp:110-115 | making and filing a timer is the machine's step |
| TimerManager.TimerManager.Cancel | corlib/timer.cpp:7-28 | the code's cancel: the callback is gone, the deadline is out of the set exactly if it says true |
| TimerManager.TimerManager.Refresh | corlib/timer.cpp:31-50 | the code's refresh: true means a deadline one period from now, false that nothing changed |
| TimerManager.TimerManager.Reset | corlib/timer.cpp:53-82 | the code's reset: the new period and deadline, or nothing changed, and when it says which |
| TimerManager.TimerManager.GetNextTimer | corlib/timer.cpp:134-160 | none if and only if the set is empty; 0 if its least deadline has come; otherwise the t with now + t ms <= deadline < now + (t + 1) ms |
| TimerManager.TimerManager.ListExpiredCb | corlib/timer.cpp:163-191 | whenever the loop ends at all, it returns the callbacks and leaves the set that `Expired`, or after a rollover `RolledOver`, describes |

## Left out

- Machine contexts, the assembly switch and `getcontext`: a switch is a transfer of control plus the contents of buffers.
- System calls, `dlsym`, sockets, DNS, the kqueue emulation: foreign; the kernel is an oracle with stated premises.
- Weak memory, thread-local caches, reading an atomic twice: lock-protected regions and atomic counters are single steps.
- Epoll items without a prepare function, and the `pfn` callback of `co_eventloop`: they add items to the active list directly, with no wheel behind them.
- TimingWheel.TakeKeepsValid: requires the condition that `SlotsSurviveIff` shows to be exact; what an unfaithful positive count, or a count of zero, leaves behind is not described.
- WheelArray.Timeout.TakeAllTimeout: excludes a truncated count of exactly zero, for which `llStartIdx` can become negative in C and index before the array; it takes a gap of 2^32 - 1 ms.
- CoEpoll.CoEpollCtx.DrainOne: a resumed coroutine acts in later calls; `co_cond_free` and the allocator are not modelled, a freed item is one that no list and no set of the model knows.
- CoEpoll.CoEpollCtx.PollInner: `iRaiseCnt` and the copying of `revents` are not modelled, they only count and copy; PollMerge describes what the caller of `poll` gets.
- PollMerge.Poll: hooks are enabled and the timeout is not 0; with duplicate fds and a result of 0 or less the code leaves `revents` as they were, which POSIX does not, and the model keeps that.
- SharedStack.Env.CoResume: that nobody resumes itself or the main coroutine, and the limit of 128 nested calls, are premises; the source tests none of them. What a coroutine does that is resumed after its function returned is not modelled; its images are.
- EventLoop.EveryWaitEndsInOneResume: a suspended coroutine is resumed by the loop only; a direct `co_resume` of a coroutine that waits is not a step.
- CoSysEnv.SysEnv.Getenv: the caller is a coroutine; the source does not test that `co_self()` is not null in `getenv`. An allocation of size zero is taken to be non-null.
- Workers.FibersAreExclusive: `Fiber::reset` is not a step of the worker machine, because the source runs it without the fiber's mutex; it is proved on the fiber alone.
- FiberSemaphore.NoWakeUpIsLost: waiters belong to one scheduler, nobody but `notify` schedules a fiber while it waits, a fiber that is resumed without a notify does nothing but yield until it is notified, and `FiberSemaphore::reset` is excluded. That a fiber begins to wait with no job of its own outstanding is the premise `CalmRun` of this theorem; `SemaphoreWakeUps.WaiterIsDisturbedIff` says exactly when it matters.
- The exit test of a multi-threaded `IOManager`: it reads timers, event count and queue in separate steps; the stop theorem is about `Scheduler::stopping`.
- IOManager.IOManager.Dispatch: the branch that drains the tickle pipe is not modelled, nor that the kernel reports an edge once only, so an event whose `epoll_ctl` failed in dispatch stays registered without a new report.
- Negative fds in `addEvent` and its siblings: the source indexes before the vector; the model takes fds from 0.
- TimerManager.TimerManager.Reset: the gap between erasing and adding, which the source leaves unlocked, is one step here.
- TimerManager.TimerManager.ListExpiredCb: that the loop ends is a premise, by the exact conditions of `Timers.TerminatesIff` and `Timers.RolloverEndsIff`.
- Thread creation and joining, the lock wrappers of `mutex.h`, `FdManager`, the rounding in `co_create_env`, the accumulation loops of `write` and `send`, the example servers: easy or plumbing.
