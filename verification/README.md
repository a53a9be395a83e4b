# Verification model of the coroutine runtime

A Dafny model of an N-to-M coroutine library: fibers with saved contexts, a
scheduler whose run loops share one task list, a timer manager, an I/O manager
built on epoll, and hooked blocking calls that park a fiber. The rows of the table
under "Model" are proved, for all inputs, all runs and any number of threads unless
a row says otherwise. `dafny verify dfyconfig.toml` checks the project.

## Parts

- `Common`: identities, removal from a list, and the sum over a list with which
  places of an item are counted.
- `TaskQueue`, `SchedulerRuns`, `SchedulerSteps`, `TaskOrder`, `OneThread`: the task
  list as a class with its scan loop; any number of run loops as a step machine; the
  class as that machine's steps; drain before exit, order of service, one thread per
  fiber.
- `FiberSwitch`, `FiberNesting`, `FiberRuntime`: resume, yield, end and reset over
  contexts that are not cleared when loaded; nesting of control transfer; the same
  operations on mutable records.
- `TimerModel`, `TimerIndex`, `TimerHeap`, `TimerHistory`, `TimerWake`: what the
  timer operations mean on values; the ordered set as an index of mutable keys; the
  manager and its timers as heap objects; whole histories; wake-up of sleepers.
- `IoModel`, `EventMask`, `IoTable`, `IoDelivery`: the fd table as a map and a list
  of schedule calls; masks as sets; the table, the epoll interest and the counter as
  objects; exactly-once delivery over runs.
- `IoShutdown`, `IoQuiescence`, `IoThreeReads`: the run loops with their idle fibers in
  micro-steps; shutdown; shutdown with the stop check as the three reads it is.
- `WakeSources`: fibers that park, over all threads. `HookWait`, `HookCall`: the wait
  protocol of do_io and connect_with_timeout as a step machine and as code.
  `HookResults`, `HookRounds`, `HookLoop`, `HookRace`: what the calls return over runs,
  which round a timeout ends, one run loop with the order of its list, and a round
  taken apart between several loops.

A step machine takes one critical section, atomic update or context switch as a
step; a run is a sequence of steps, so every interleaving is a run. A class is
proved against functions on values, and the statements about whole runs are about
those functions.

Inputs that the program takes from outside are arguments of the operations: the
clock, the answer of epoll_ctl (`willing`), the reports of epoll_wait, the results
of the wrapped calls, addresses from the allocator, the current fiber and scheduler.

## Assumptions

- A locked region is one step. So is addEvent, although IOManager.cpp:112-164 does
  not take the lock of the fd context, and so are resume and yield, although
  Fiber.cpp:167-188 sets READY before the context is saved.
- The composite stop check at IOManager.cpp:310-316 is one step in IoShutdown; the program
  makes three reads. IoThreeReads says exactly when that matters. The base check really is
  one.
- Once stop has begun, only running tasks and idle loops create work (SchedulerRuns,
  IoShutdown). What is there may still be triggered, cancelled or deleted by anybody.
- A fiber has at most one outstanding task and does not end while one exists
  (OneThread; exact by ScheduleKeepsIff and FinishKeepsIff). A fiber yields only after
  it has arranged its wake and ends only without one, and nobody deletes the event of a
  waited fd (WakeSources; exact by YieldKeepsIff, EndKeepsIff and DelEventKeepsIff).
- Tasks and idle fibers are resumed by the scheduler fiber of their thread only
  (FiberNesting; the effect of anything else is ResumeKeepsSchedulerIff). That the fiber
  is READY then is not assumed: AssertsIff says what it amounts to, and OneThread and
  WakeSources prove it for the run loops.
- For the wake-up of sleepers: no clock rollover, no negative period on a recurring timer
  that expires, and no refresh but those that are safe (TimerWake; exact by RefreshSafeIff).
- For the wait protocol: a clock that does not go back, a kernel that accepts the epoll_ctl
  of the timeout callback (exact by CallbackKeepsIff), and a stretch between two yields as
  one step, as with one run loop (HookRace says what else can happen with several).
- In the dispatch loop epoll_ctl succeeds, as the program asserts at IOManager.cpp:417-422.

## Where code and documentation differ

- Timer.h:43-44 describes reset as setting the time again. With `from_now == false`
  Timer.cpp:62-64 subtracts and adds the new period, so the deadline stays, and is right
  exactly if the period stays too (ResetDeadlineIff).
- README.md:112 of the library allows reset of a fiber that has not started.
  Fiber.cpp:124 accepts ended fibers only.
- README.md:210 of the library promises first come, first served. A later task goes first
  iff nothing before it may be taken, being pinned elsewhere or still RUNNING
  (ScanOvertakesIff).
- IOManager.cpp:126 reads `fd + fd > 1`, a comparison, so the table is resized to one
  or no entry and never has room for the fd (LookupDefinedIff).
- IOManager.cpp:355 declares a second `rt` inside the loop, which hides the one that the
  dispatch at 377 counts to. That one stays 0, so as written no report is ever dispatched.
  The rows about the dispatch are about the number epoll_wait returned, as meant.
- README.md:611-614 of the library describes a timed wait as ended by its own timeout.
  The callback of an earlier round of the same call can end it too, exactly if
  timer->cancel() at Hook.cpp:144 answered false in an earlier round
  (EarlierRoundIffLateCancel). That takes a second run loop or a trigger from a thread
  outside; one loop alone never does it (OneLoopIsNeverStale).

## Model

| member | source | states |
|---|---|---|
| `TaskQueue.FirstEligible` | Scheduler.cpp:153-175 | the scan stops at the first task that is neither pinned to another thread nor a RUNNING fiber; every task before it is one of the two |
| `TaskQueue.QueueOfRemove` | Scheduler.cpp:171-172 | taking any task out leaves a list of accepted tasks in acceptance order |
| `TaskQueue.PostedInOrder` | IOManager.cpp:367-374 | scheduling a list of non-empty callbacks makes one unpinned task for each, in the same order |
| `TaskQueue.Scheduler.constructor` | Scheduler.h:120-134 | a scheduler starts with no task, no active thread and not stopping |
| `TaskQueue.Scheduler.ScheduleNoLock` | Scheduler.h:78-87 | appends the task at the end unless it is empty, changes nothing else, and answers whether the list was empty before |
| `TaskQueue.Scheduler.TakeTask` | Scheduler.cpp:149-178 | the scan loop takes a task iff some task is eligible, namely the first one, and counts the thread active with it; what it takes is unpinned or pinned to this very thread and no RUNNING fiber; a head like that is taken, and an empty scan leaves only tasks pinned elsewhere and RUNNING fibers; the rest keeps its order; tickle_me is raised iff a task pinned elsewhere was passed over or tasks follow the one taken |
| `TaskQueue.SilentIff` | Scheduler.cpp:153-183 | a scan tickles nobody iff every task it leaves stands before the one it took and is a RUNNING fiber not pinned elsewhere |
| `TaskQueue.Scheduler.ScheduleAll` | IOManager.cpp:365-374 | the idle loop appends exactly the tasks of the collected callbacks, in order, dropping empty ones |
| `SchedulerSteps.Check` | Scheduler.cpp:74-86 | if the stop check answers true the idle fiber ends and the scheduler has drained for good: in every continuation the condition stays true and nothing is accepted; if it answers false the loop goes on scanning |
| `SchedulerSteps.Schedule` | Scheduler.h:36-46 | schedule on the object is the step of the machine |
| `SchedulerSteps.Scan` | Scheduler.cpp:149-178 | the scan loop on the object is the scan step of the machine, and the loop then holds the task it returned |
| `SchedulerSteps.ScanIsAllowed` | Scheduler.cpp:149-178 | a scan of the scheduler machine is an allowed scan of the I/O manager machine |
| `SchedulerSteps.StepIsAllowed` | Scheduler.cpp:145-212 | so is every other step but the stop check, which is stricter there; what a fiber does between resume and return is inside Running |
| `SchedulerRuns.ConservedStep` | Scheduler.cpp:145-200 | every step of any run loop keeps each accepted task in exactly one place: the list, one thread, or executed |
| `SchedulerRuns.ConservedScan` | Scheduler.cpp:149-178 | a scan moves one task from the list to one thread and loses none |
| `SchedulerRuns.PinnedTasksStay` | Scheduler.cpp:155-159 | over every interleaving, a loop that has dequeued, executes or has just executed a task has one that is unpinned or pinned to its own thread |
| `SchedulerRuns.CountsActiveStep` | Scheduler.cpp:170-199 | m_activeThreadCount equals the number of threads between dequeue and completion after every step |
| `SchedulerRuns.DrainedStays` | Scheduler.cpp:74-86 | once an idle fiber has ended no step makes the stop condition false or accepts a task |
| `SchedulerRuns.DrainedBegins` | Scheduler.cpp:80-86 | the first idle fiber to end does so in a state where the stop condition holds |
| `SchedulerRuns.InvAlways` | Scheduler.cpp:132-213 | over every interleaving of any number of run loops tasks are conserved, the active count is exact, and an ended idle fiber or exited loop implies the stop condition |
| `SchedulerRuns.DrainedForever` | Scheduler.cpp:80-86 | after one idle fiber has ended, in every continuation m_stopping holds, the list is empty, no thread is active and nothing more is accepted |
| `SchedulerRuns.AllExitedMeansAllExecuted` | Scheduler.cpp:132-213 | when all loops of a started scheduler have exited, the multiset of executed tasks is the multiset of accepted tasks |
| `TaskOrder.HeadIsTakenIff` | Scheduler.cpp:153-175 | the head of the list is the task a scan takes iff it is neither pinned elsewhere nor a RUNNING fiber |
| `TaskOrder.ScanOvertakesIff` | Scheduler.cpp:153-175 | a scan takes a later task while an earlier one stays iff the later one may be taken and nothing before it may |
| `TaskOrder.ScanPassesIff` | Scheduler.cpp:153-175 | a scan passes a position iff neither the task there nor any before it may be taken and some task behind may |
| `TaskOrder.AcceptedGrows` | Scheduler.h:36-46 | accepted tasks are only ever added at the end, with the next number, and only a scan removes from the list |
| `TaskOrder.AnnouncedByScan` | Scheduler.h:78-87 | a task appended behind others, about which schedule tells nobody, is neither taken nor announced by the next scan iff that scan takes nothing and all tasks are RUNNING fibers the scanning thread may take later |
| `TaskOrder.FirstComeFirstServed` | Scheduler.cpp:149-178 | in every run, if a later task left the list while an earlier one waits, some scan took it while the earlier one was pinned elsewhere or RUNNING (RUNNING, if of the same affinity) |
| `TaskOrder.ScanKeepsOrder` | Scheduler.cpp:149-178 | one scan removes at most one of two tasks and keeps their order if it removes neither |
| `OneThread.OneCarrierStep` | Scheduler.cpp:161-191 | if each fiber has at most one outstanding task and does not end while one exists, every step keeps at most one thread holding or executing it, and the assertion of resume holds |
| `OneThread.OneCarrierAlways` | Scheduler.cpp:145-213 | the same over every disciplined run, including fibers that schedule themselves before yielding |
| `OneThread.NeverOnTwoThreads` | Scheduler.cpp:161-191 | two threads that hold or execute the same fiber are the same thread |
| `OneThread.ScheduleKeepsIff` | Scheduler.h:36-46 | a schedule keeps one carrier per fiber iff the fiber has not ended and has no other outstanding task |
| `OneThread.FinishKeepsIff` | Fiber.cpp:196-202 | the end of a fiber does so iff no task of it is outstanding |
| `OneThread.DoubleScheduleFaults` | Fiber.cpp:142-146 | what a second task for a held fiber leads to: four steps later the assertion in resume fails |
| `OneThread.EndedFiberFaults` | Fiber.cpp:142-146 | what a task of a fiber that has ended leads to: the assertion in resume fails when it is taken |
| `FiberNesting.AssertsIff` | Fiber.cpp:121-188 | in a nested state, for calls the design allows: the assertions of yield hold and the yielding fiber is the one on the cpu; that of resume holds iff the fiber has not ended and is on no chain of any thread; those of reset iff it has ended |
| `FiberNesting.TransferSound` | Fiber.cpp:142-188 | every context loaded is a fresh save or an unused entry point of a fiber that runs nowhere, and control arrives at the fiber meant |
| `FiberNesting.YieldReturnsToResumer` | Fiber.cpp:165-188 | a yield, or the end of a fiber, goes to the thread and to the very context of the resume that began the current stint: after migration the scheduler fiber of the new thread |
| `FiberNesting.RunningIsChain` | Fiber.cpp:142-188 | the RUNNING fibers are exactly the chains main / scheduler / task-or-idle of the threads, and chains are disjoint |
| `FiberNesting.NestedResume` | Fiber.cpp:142-163 | a resume the design allows, past its assertion, keeps control transfer nested |
| `FiberNesting.NestedLeave` | Fiber.cpp:165-203 | so do a yield and the tail of MainFunc |
| `FiberNesting.NestedStep` | Fiber.cpp:121-203 | so does every step, with creation of fibers and threads and reset |
| `FiberNesting.NestedAlways` | Fiber.cpp:121-203 | in every execution that respects the design every state is nested, no assertion of yield fails, and those of resume and reset fail exactly as just said |
| `FiberNesting.ResumeKeepsSchedulerIff` | Fiber.cpp:148-163 | a resume keeps the saved execution of the scheduler fiber iff it was called by the scheduler fiber; a task resuming a task overwrites it |
| `FiberRuntime.Runtime.constructor` | Fiber.cpp:40-75 | no fibers and no threads is a nested state |
| `FiberRuntime.Runtime.SwapContext` | Fiber.cpp:151-162 | stores the execution on the cpu in one context and continues what the other one holds |
| `FiberRuntime.Runtime.Resume` | Fiber.cpp:142-163 | in the order of the code, past the assertion: the fiber gets the cpu, is the current one and RUNNING, nesting is kept |
| `FiberRuntime.Runtime.Yield` | Fiber.cpp:167-188 | the assertion holds, the fiber is READY, the scheduler fiber has the cpu, the current fiber is the main fiber, nesting is kept |
| `FiberRuntime.Runtime.MainTail` | Fiber.cpp:191-203 | the fiber is TERM, the scheduler fiber gets the cpu from a task and the main fiber from the scheduler fiber, the current fiber is the main fiber, nesting is kept |
| `FiberRuntime.Runtime.Reset` | Fiber.cpp:121-139 | past the assertions a fiber becomes READY at its entry point, nesting is kept |
| `TimerModel.ComparatorIsStrictTotalOrder` | Timer.cpp:4-14 | the comparator is irreflexive, transitive and total on all pointers, null included |
| `TimerModel.CallbacksOfExpired` | Timer.cpp:136-142 | the callbacks handed out are those of the expired timers, each and no other, earlier deadlines first and one for each timer |
| `TimerModel.NextTimerIsUnique` | Timer.cpp:97-107 | the conditions on the reported waiting time determine it |
| `TimerModel.CollectsIsUnique` | Timer.cpp:109-154 | the expired timers in deadline order are one sequence: the order of collection does not depend on the search |
| `TimerModel.ProgressStep` | Timer.cpp:140-153 | working off one expired timer advances the collection by exactly that timer |
| `TimerModel.ProgressEnds` | Timer.cpp:140-154 | having worked off all of them, the timers are those of the specification: recurring ones at now + period, one-shots emptied, the rest untouched |
| `TimerIndex.FindSorted` | Timer.cpp:30-30 | in a strictly sorted set the lookup finds every member |
| `TimerIndex.RemoveSorted` | Timer.cpp:31-31 | erasing an element keeps the set sorted and removes only it |
| `TimerIndex.LowerBoundSplits` | Timer.cpp:133-133 | lower_bound separates the smaller keys from the others |
| `TimerIndex.InsertSorted` | Timer.cpp:158-158 | inserting a new key finds no equivalent one and keeps the set sorted |
| `TimerIndex.LookupFinds` | Timer.cpp:30-31 | find of a timer by its current key succeeds iff the timer is in the set, although keys are mutable fields |
| `TimerIndex.TakeOutIndex` | Timer.cpp:43-45 | erasing what find returned takes out that timer and keeps the index |
| `TimerIndex.ChangeOutside` | Timer.cpp:45-47 | changing deadline or period of a timer held outside the set keeps the index |
| `TimerIndex.PutInIndex` | Timer.cpp:156-158 | inserting it again restores the index: sorted, current, every live timer in it once |
| `TimerIndex.FrontKey` | Timer.cpp:158-159 | the inserted timer is begin() iff it precedes every other timer |
| `TimerIndex.FirstIsLeast` | Timer.cpp:101-106 | the set is empty iff no timer is armed, and its first element has the least deadline |
| `TimerIndex.PrefixCollects` | Timer.cpp:133-137 | the prefix up to the split is exactly the expired timers in order, all of them on rollover |
| `TimerIndex.TakeOutPrefix` | Timer.cpp:136-137 | erasing the prefix holds exactly those timers outside and keeps the index of the rest |
| `TimerHeap.Timer.constructor` | Timer.cpp:16-19 | the deadline is the current time plus the period |
| `TimerHeap.Timer.Cancel` | Timer.cpp:24-35 | answers true iff the callback was there; then the callback is empty and the timer is out of the set, whose index stays valid; erase never gets end() |
| `TimerHeap.Timer.Refresh` | Timer.cpp:37-49 | answers true iff there is a callback, and then the deadline is now + period and the set is in order; period and callback stay |
| `TimerModel.InsertNotifiesIff` | Timer.cpp:156-170 | the meaning of at_front && !m_tickled by deadlines and addresses of the set: no outstanding notification, and every other timer is later |
| `TimerModel.ResetDeadlineIff` | Timer.cpp:51-67 | a reset of a live timer gives the deadline counted from now, or from where the present one was counted, iff it counts from now or the period stays; only a reset from now changes the deadline |
| `TimerHeap.Timer.Reset` | Timer.cpp:51-67 | answers true iff period and from_now ask for no change or there is a callback; the early return changes nothing; else the new period, and the deadline now + period or as it was; notifies iff tickled was clear and every other timer of the set is due later, or at the same time with a greater address |
| `TimerHeap.TimerManager.constructor` | Timer.cpp:69-70 | no timer, not tickled, a valid index |
| `TimerHeap.TimerManager.Lookup` | Timer.cpp:30-30 | find returns end() iff the timer is not in the set |
| `TimerHeap.TimerManager.InsertTimer` | Timer.cpp:156-170 | the timer is in the set; notified iff tickled was clear and every other timer of the set is due later, or at the same time with a greater address; tickled is set exactly by a notification |
| `TimerHeap.TimerManager.AddTimer` | Timer.cpp:74-80 | a new timer with deadline now + period, its flag and its callback enters the set; notified iff tickled was clear and it precedes every other timer of the set by deadline, then address |
| `TimerHeap.TimerManager.GetNextTimer` | Timer.cpp:97-107 | clears tickled; -1 iff no timer is in the set, 0 iff some deadline has passed, else the time to the least deadline |
| `TimerHeap.TimerManager.DetectClockRollover` | Timer.cpp:172-181 | true iff the time is more than 3600000 ms before the one looked at last; remembers the new time |
| `TimerHeap.TimerManager.FirstUnexpired` | Timer.cpp:132-134 | whatever the address of the probe, lower_bound and the loop behind it end at the first timer with a deadline after now, at end() on rollover |
| `TimerHeap.TimerManager.TakeExpired` | Timer.cpp:136-137 | the expired timers leave the set, in order |
| `TimerHeap.TimerManager.Rearm` | Timer.cpp:143-152 | a recurring timer goes back with now + period, with its period and callback; any other loses its callback and keeps its deadline |
| `TimerHeap.TimerManager.Work` | Timer.cpp:140-153 | the loop appends all their callbacks in order and leaves every timer as specified |
| `TimerHeap.TimerManager.ListExpiredCb` | Timer.cpp:109-154 | collects exactly the timers of the set with deadline <= now, all of them if the clock is more than an hour behind, appends their callbacks in deadline order and leaves the others untouched |
| `TimerHistory.AlwaysWellFormed` | Timer.cpp:24-154 | in every history a timer with a live callback is in the set |
| `TimerHistory.NeverBeforeDeadline` | Timer.cpp:127-142 | a callback is never collected before the latest deadline it was given, except on rollover |
| `TimerHistory.RecurringSpacing` | Timer.cpp:143-147 | two collections of a recurring timer with nothing setting its deadline between are at least a period apart |
| `TimerHistory.OneShotAtMostOnce` | Timer.cpp:148-152 | a one-shot timer is collected at most once |
| `TimerHistory.LifeOfATimer` | Timer.cpp:109-154 | over every history: a timer is in the set with the flag and the callback given to addTimer until it is cancelled or, one-shot, collected, and from then on it is outside with none; refresh, reset, rollover and collections of a recurring timer change neither |
| `TimerHistory.CollectsWhatWasGiven` | Timer.cpp:136-153 | every collection of a timer, the first or a later one, hands out the callback that addTimer was given |
| `TimerHistory.PeriodHolds` | Timer.cpp:51-67 | a timer keeps the period of addTimer until a reset of the live timer, whose period it then has |
| `TimerHistory.RolloverIff` | Timer.cpp:172-181 | over every history: the clock counts as gone back iff it is more than 3600000 ms behind the last collection that found a timer in the set |
| `TimerHistory.CancelledNeverCollected` | Timer.cpp:24-35 | after a cancel that succeeded the timer is never collected |
| `TimerWake.InsertKeeps` | Timer.cpp:156-170 | an insertion without a notification leaves every sleeper served or covered |
| `TimerWake.InvStep` | Timer.cpp:97-170 | every step keeps: a sleeper with a later deadline than the least was notified or will be, and tickled implies that every sleeper was |
| `TimerWake.NoWakeIsLost` | Timer.cpp:97-170 | over every run with any number of idle threads, with no refresh but those RefreshSafeIff shows to be safe, no timer wake-up is lost |
| `TimerWake.RefreshSafeIff` | Timer.cpp:37-49 | refresh, which notifies nobody, is safe for all sleepers iff tickled is set or some deadline is not after the new one |
| `EventMask.MasksOfOneEvent` | IOManager.cpp:130-181 | on masks, setting, clearing and testing one event are insertion, removal and membership |
| `EventMask.Examine` | IOManager.cpp:397-415 | the dispatch body on masks finds the events IoTable finds, skips when it skips, leaves what it leaves, and chooses EPOLL_CTL_DEL iff nothing is left |
| `EventMask.RealMaskIsRealEvents` | IOManager.cpp:397-405 | real_events, computed from the reported bits, is the set of the events named, plus all registered ones after EPOLLERR or EPOLLHUP |
| `IoTable.SlotFullIff` | IOManager.cpp:7-49 | in a table in agreement, getEventContext of an event is full, with a scheduler and exactly one of fiber and callback, iff the bit of the event is set, and otherwise empty |
| `IoModel.HandleFiresNamed` | IOManager.cpp:388-434 | one report fires the registrations it names and no other, READ before WRITE |
| `IoModel.TriggerBothFires` | IOManager.cpp:269-281 | of two directions triggered together READ is queued first, and exactly those registered |
| `IoModel.ReportFires` | IOManager.cpp:388-434 | written out: an error or hang-up fires both registered directions, otherwise each one whose bit is reported, READ first |
| `IoTable.ReportIsTriggers` | IOManager.cpp:397-434 | a report that passes the assertions is skipped if nothing it names is registered, and else triggers exactly the events found |
| `IoModel.BatchFiresNamed` | IOManager.cpp:377-435 | a batch on distinct fds fires exactly the registrations it names, in report order, an error or hang-up everything on its fd; all others stay |
| `IoModel.EventsStay` | IOManager.cpp:377-435 | when the turn of a report comes, the registrations of its fd are those at the start of the batch |
| `IoModel.TriggersAssertIff` | IOManager.cpp:403-434 | the two trigger assertions hold iff the report does not name a registered and an unregistered event together |
| `IoModel.CurrentIsSafe` | IOManager.cpp:403-434 | a report that names only registered events passes |
| `IoModel.DistinctPassIff` | IOManager.cpp:377-435 | for a batch on distinct fds all trigger assertions hold iff each report passes at the start of the batch |
| `IoModel.StaleReportAborts` | IOManager.cpp:29-32 | a report that became stale in between fails the assertion of triggerEvent |
| `IoTable.Epoll.Ctl` | IOManager.cpp:138-138 | the contract assumed of epoll_ctl: refused if illegal or unwilling, and then without effect |
| `IoTable.FdContext.ResetEventContext` | IOManager.cpp:22-27 | empties one slot and leaves the other |
| `IoTable.FdContext.TriggerEvent` | IOManager.cpp:29-49 | clears the bit and the slot, and queues on the scheduler of the slot the callback in it, or its fiber if there is none: the task that was registered; the pending counter is still untouched then |
| `IoTable.FdContext.Fill` | IOManager.cpp:147-162 | the slot was empty, as asserted; afterwards it holds the scheduler and exactly one of callback and fiber |
| `IoTable.FdContext.Clear` | IOManager.cpp:196-199 | bit and slot are empty, the other direction is untouched |
| `IoTable.CountedRemove` | IOManager.cpp:194-194 | the counter of a table with a registration is positive, so the decrement never underflows |
| `IoTable.LookupDefinedIff` | IOManager.cpp:115-128 | for every int: the lookup of addEvent finds a context iff the fd was inside the table before; growing never makes room, and a negative fd passes the comparison |
| `IoTable.WatchedIff` | IOManager.cpp:133-133 | an fd is in the epoll interest iff its mask is not NONE, with that mask; so the choice of ADD, MOD or DEL is legal |
| `IoTable.WatchedChange` | IOManager.cpp:180-187 | after the change of one fd the epoll interest mirrors the masks again |
| `IoTable.IOManager.constructor` | IOManager.cpp:51-77 | an empty table of 32 fds, counter 0, only the pipe in the interest |
| `IoTable.IOManager.CallsAreFired` | IOManager.cpp:39-46 | in every valid state the schedule calls made are the fired registrations in order, each with the scheduler and the task it was registered with |
| `IoTable.IOManager.Control` | IOManager.cpp:133-142 | the operation chosen fails only if the kernel is unwilling (or the fd is the pipe), and a failure changes nothing |
| `IoTable.IOManager.AddEvent` | IOManager.cpp:112-164 | for every fd the lookup finds a context for: returns 0 iff the kernel accepts; then the map gains exactly this callback, or the current fiber without one, on this scheduler, and all parts agree; else nothing changes |
| `IoTable.IOManager.DelEvent` | IOManager.cpp:166-201 | true iff registered and accepted; then the map loses exactly this task, nothing is queued |
| `IoTable.IOManager.TriggerAsked` | IOManager.cpp:425-434 | queues the task first, then drops the counter; agreement is kept |
| `IoTable.IOManager.CancelEvent` | IOManager.cpp:203-238 | true iff registered and accepted; then the task leaves the map and is appended to the output |
| `IoTable.IOManager.CancelAll` | IOManager.cpp:240-283 | true iff anything is registered and the kernel accepts; then both tasks leave the map and are appended READ before WRITE, and no event is left |
| `IoTable.IOManager.HandleReport` | IOManager.cpp:388-434 | if the trigger assertions hold for the report, the body fires what it names and all parts agree |
| `IoTable.IOManager.Dispatch` | IOManager.cpp:376-435 | for every batch in which no trigger assertion fails, the loop keeps all parts in agreement at each report and fires what the specification says |
| `IoDelivery.StepKeeps` | IOManager.cpp:112-283 | every operation keeps each registration registered, fired or deleted, in exactly one of the three, once, with its own task |
| `IoDelivery.BalanceStep` | IOManager.cpp:112-283 | every operation keeps adds = fired + deleted + registered |
| `IoDelivery.DeliveredExactlyOnce` | IOManager.cpp:29-283 | both over every run from the empty table |
| `IoDelivery.FiredIsWhatWasAdded` | IOManager.cpp:29-283 | over every run: what is fired is the task and the scheduler that one addEvent was given, and no other firing is of the same addEvent |
| `IoDelivery.HistoryGrows` | IOManager.cpp:29-49 | what was fired or deleted stays so |
| `IoDelivery.DeletedNeverFires` | IOManager.cpp:166-201 | a deleted registration never fires later |
| `IoShutdown.PhasesStep` | Scheduler.cpp:145-212 | an ended idle fiber never runs again; a loop exits only after its idle fiber ended |
| `IoShutdown.CountsStep` | IOManager.cpp:145-279 | after every micro-step the pending counter is the registrations plus the triggers that have queued and not counted down |
| `IoShutdown.PlacesStep` | IOManager.cpp:363-435 | every micro-step moves work between queue, loops, timers, registrations and the histories without losing or doubling it |
| `IoShutdown.ConservedStep` | IOManager.cpp:322-444 | every piece of work ever created is in exactly one place |
| `IoQuiescence.StillStep` | IOManager.cpp:304-316 | if the stop check would succeed and no idle loop has callbacks in hand, no step creates work or makes the check fail |
| `IoQuiescence.LastToEnd` | IOManager.cpp:334-337 | the last idle fiber ends by a successful check |
| `IoQuiescence.InvAlways` | IOManager.cpp:322-444 | over every interleaving: counters, phases and conservation hold, and once all idle fibers have ended the stop condition holds |
| `IoQuiescence.LastCheckIsFinal` | IOManager.cpp:310-337 | from then on there is no timer, registration, queued task, active thread or callback in hand, and nothing is created |
| `IoQuiescence.NothingDropped` | Scheduler.cpp:200-212 | when all loops have exited every piece of work was executed or deliberately removed, once |
| `IoQuiescence.CheckIsFinalIff` | IOManager.cpp:310-316 | after one successful check everything stays quiescent iff no other idle loop holds collected callbacks |
| `IoQuiescence.EarlySuccessHappens` | IOManager.cpp:334-374 | that case is reachable: a run in which one check succeeds and then a task appears |
| `IoThreeReads.TimelyIsWhole` | IOManager.cpp:310-316 | the check as three reads: every step is a step of the machine with one read, or none, as long as a base check that succeeds finds no timer and no pending event |
| `IoThreeReads.TimelyDropsNothing` | IOManager.cpp:310-337 | so in every run whose successful base checks do, nothing is dropped when all loops have exited |
| `IoThreeReads.LastCheckSoundIff` | IOManager.cpp:310-337 | the check by which the last idle fiber ends leaves everything still iff at its base check there is still no timer and no pending event |
| `IoThreeReads.LeftTimerIsDropped` | IOManager.cpp:310-337 | a timer left by such a check is never executed in any continuation |
| `IoThreeReads.UntimelyCheckDrops` | IOManager.cpp:310-316 | that case is reachable: two loops exit while a timer is neither executed nor cancelled |
| `WakeSources.MoveGains` | Scheduler.cpp:149-200 | how each step changes the number of wake sources and carriers of a fiber |
| `WakeSources.TakenIsReady` | Scheduler.cpp:161-174 | a fiber task that is dequeued is of a READY fiber |
| `WakeSources.HolderIsOnly` | Scheduler.cpp:170-174 | no two threads hold tasks of the same fiber |
| `WakeSources.ExactlyOneWakeSource` | Hook.cpp:115-151 | in every reachable state a fiber that waits has exactly one wake source (slot, live sleep timer, callback in flight, queued or held task), any other has none, a RUNNING fiber has one carrier, and the assertion of resume has not failed |
| `WakeSources.NoLostWakeNoDoubleWake` | Hook.cpp:169-174 | in particular a parked fiber has exactly one source and no carrier |
| `WakeSources.EarlyWakeWaits` | Scheduler.cpp:161-168 | a wake between registration and yield stays in the queue until the fiber is READY |
| `WakeSources.DelEventKeepsIff` | IOManager.cpp:166-201 | delEvent keeps one source per waiting fiber iff no fiber waits in the slot |
| `WakeSources.DelEventLosesTheFiber` | IOManager.cpp:166-201 | a fiber whose event is deleted, parked or about to yield, is never resumed in any continuation |
| `WakeSources.YieldKeepsIff` | Fiber.cpp:167-188 | a yield keeps one source per waiting fiber iff the fiber has arranged its wake; otherwise the fiber is lost |
| `WakeSources.EndKeepsIff` | Fiber.cpp:191-203 | the end of a fiber does so iff it has not arranged a wake |
| `HookCall.FinalIsUnique` | Hook.cpp:109-113 | the first answer that is not an interruption is determined |
| `HookCall.CallOrigin` | Hook.cpp:109-113 | the EINTR loop returns the first answer that is not -1 with EINTR |
| `HookCall.Hooks.constructor` | Hook.cpp:104-105 | no call, timer or callback and all slots empty |
| `HookCall.Hooks.CancelTimer` | Hook.cpp:144-144 | true iff the timer was still live; afterwards it is not, and every other timer is untouched if it answers false |
| `HookCall.Hooks.AddEvent` | Hook.cpp:134-134 | fills the slot with the calling fiber iff the registration is accepted |
| `HookCall.Hooks.Block` | Hook.cpp:116-142 | with a kernel that accepts, the timer is armed for now + timeout if there is one and the call is parked in its slot; else it is disarmed and returns the failure |
| `HookCall.Hooks.Retry` | Hook.cpp:107-153 | one round of do_io from the label: returns the final answer of the wrapped function unless it is -1 with EAGAIN; then it parks, or fails if the registration is refused |
| `HookCall.Hooks.DoIo` | Hook.cpp:104-153 | do_io up to its first yield or return: the answer of the wrapped function unless it is -1 with EAGAIN, else parked with its timer armed, or -1 if the registration is refused; and it is the step of the protocol |
| `HookCall.Hooks.DoIoResumed` | Hook.cpp:143-151 | do_io after a yield: disarm, report a timeout iff cancelled, else another round with the same results |
| `HookCall.Hooks.Connect` | Hook.cpp:216-262 | connect_with_timeout up to its yield or return: the answer of connect unless it is -1 with EINPROGRESS, else parked with its timer armed, or what the socket says if the registration is refused |
| `HookCall.Hooks.ConnectResumed` | Hook.cpp:251-278 | connect_with_timeout after its yield: disarm, report a timeout iff cancelled, else what the socket says |
| `HookCall.Hooks.Trigger` | IOManager.cpp:29-49 | a trigger schedules the fiber parked in the slot and empties it |
| `HookCall.Hooks.TimeoutCallback` | Hook.cpp:123-131 | no effect if the call has returned or was cancelled; else marks it and triggers its slot |
| `HookWait.AttemptKeeps` | Hook.cpp:107-153 | a round keeps the protocol whatever the call, the kernel and the timeout are |
| `HookWait.ResumeKeeps` | Hook.cpp:142-151 | so does waking up |
| `HookWait.ActKeeps` | Hook.cpp:123-131 | so does a timeout callback that acts |
| `HookWait.NoopKeeps` | Hook.cpp:124-128 | so does one that does not |
| `HookWait.ProtocolStep` | Hook.cpp:103-153 | every step of every call keeps the protocol |
| `HookWait.ProtocolAlways` | Hook.cpp:103-153 | the protocol holds over every sequence of results, events, expirations and callbacks |
| `HookWait.ParkedIsServed` | Hook.cpp:115-142 | a parked call is not cancelled, fills its slot, and if timed is reached by a live timer or a callback on its way |
| `HookWait.ReturnedLeavesNothing` | Hook.cpp:137-153 | a returned call has no registration and no live timer, and its late callbacks are no-ops |
| `HookResults.ReturnedIff` | Hook.cpp:107-153 | over every run and for every result: a call has returned it iff one of its rounds ended with it: a value iff the wrapped function answered it (or getsockopt, after connect was refused its registration), the failure of addEvent iff do_io was refused its registration, ETIMEDOUT iff the call woke up cancelled |
| `HookResults.LastRoundAnswers` | Hook.cpp:107-153 | and that round was its last: the result is the one of the last attempt |
| `HookResults.TimerArmedBy` | Hook.cpp:116-132 | over every run: each timer was armed by a round of its own call, due the timeout of the call after the start of that round, at most one by each round |
| `HookWait.TimedOutByItself` | Hook.cpp:143-149 | ETIMEDOUT comes from a timer this same call armed, and not before its first arming plus the timeout |
| `HookWait.EarlierRoundTimesOut` | Hook.cpp:107-131 | with several loops, or a trigger from outside, it may be a timer of an earlier round: a run in which a call times out before the deadline of its last round |
| `HookRounds.StaleKept` | Hook.cpp:123-131 | but for the resume of the call itself no step creates or removes a callback of an earlier round for a call that stays open |
| `HookRounds.ResumeMakesStaleIff` | Hook.cpp:142-151 | after a resume into another round such a callback is on its way iff it was before or timer->cancel() answered false |
| `HookRounds.StaleIff` | Hook.cpp:107-151 | over every run, such a callback is on its way iff timer->cancel() answered false in some earlier round of the call |
| `HookRounds.EarlierRoundIff` | Hook.cpp:115-149 | for every parked call: some continuation up to its next resume lets an earlier timeout end the round iff such a callback is on its way |
| `HookRounds.EarlierRoundIffLateCancel` | Hook.cpp:115-149 | that is, iff timer->cancel() answered false in some earlier round |
| `HookRounds.OwnRoundNotEarly` | Hook.cpp:143-149 | otherwise a timeout of the round does not come before the deadline of its own timer |
| `HookLoop.LoopAlways` | IOManager.cpp:363-435 | one run loop alone, over every run: callbacks in the task list belong to the round their call is in and stand before its wake |
| `HookLoop.OneLoopIsNeverStale` | IOManager.cpp:363-435 | so no callback of an earlier round is ever on its way there |
| `HookLoop.OneLoopTimesOutOwnRound` | Hook.cpp:143-149 | and every timeout there is that of the round it ends and not before its deadline |
| `HookRace.ArmThenRegister` | Hook.cpp:116-142 | with nothing in between, arming and registering are the round of the one-step protocol |
| `HookRace.ParksCancelledIff` | Hook.cpp:123-134 | with several loops: a timed call parks with its flag set iff a timeout callback of it acts between addConditionTimer and addEvent; else it parks as the protocol says |
| `HookRace.GapIff` | Hook.cpp:123-134 | with no callback of an earlier round on its way, the call can be timed out in a gap of given length iff its timeout is not longer |
| `HookRace.OnlyATriggerWakes` | Hook.cpp:123-131 | a call parked so has no timeout any more: its own callbacks do nothing and only a trigger of its slot wakes it |
| `HookRace.WokenCancelledTimesOut` | Hook.cpp:143-149 | and then it reports a timeout |
| `HookRace.ItCanHappen` | Hook.cpp:116-134 | the case is reachable whenever the timeout can pass before the registration |
| `HookWait.CallbackKeepsIff` | Hook.cpp:129-130 | a timeout callback keeps the protocol iff the kernel accepts, or it does not act, or its call is not parked |
| `HookWait.RefusedCallbackSpoilsTheEvent` | Hook.cpp:143-149 | in the remaining case the next event makes the call report a timeout |

## Left out

- FdManager and its contexts: an in-range fd is rebuilt on every lookup, so no lasting state can be claimed; the timeout of do_io is an argument, and the early returns of do_io and connect for disabled hooks, closed or user-non-blocking fds (Hook.cpp:74-101, Hook.cpp:191-214) are not modelled.
- The wrappers of fcntl, ioctl, setsockopt, socket and close, and symbol hooking: pass-through code.
- Real contexts, stacks and the fiber destructor: a context is an entry point or a saved execution.
- Data races and memory order: see the assumptions.
- Growing the fd table (IOManager.cpp:96-109, 122-128) beyond the first 32 entries: see above.
- Overflow of the counters and of the clock: unbounded integers; neither counter goes below zero, as proved.
- Liveness, fairness of the wake-up pipe, the length of the epoll wait (the division at IOManager.cpp:355) and its 5 s cap: safety only.
- The endless loop of run and the loop of idle as methods: they are the steps of the machines. The scan, the dispatch, the collecting, and the scheduling of callbacks are methods.
- Pinning and the RUNNING test in IoShutdown, and pinning in WakeSources: a scan there may take any task or none, which includes what the program does (ScanIsAllowed).
- A lemma that embeds the scheduler machine in WakeSources: its tasks are only those that refer to fibers, by construction.
- In HookLoop, tasks that make no hooked call and trigger nothing: they leave the list without effect on the calls.
- Reuse of a timer address after destruction: addresses are not reused.
- addConditionTimer's own guard (Timer.cpp:82-95): the weak pointer it tests is the one the timeout callback tests again.
- IoTable.Epoll.Ctl: does not model which legal requests a kernel refuses, because that is an argument.
- IoTable.IOManager.AddEvent: does not model a negative fd or one beyond the table, because the program then reads outside its vector, as LookupDefinedIff says exactly.
- IoTable.IOManager.Dispatch: does not model a batch in which a trigger assertion fails, because the program ends there; TriggersAssertIff and DistinctPassIff say exactly when.
- HookCall.Hooks.AddEvent: does not model the epoll interest and the pending counter, because IoTable does; here only who holds the slot matters.
- SchedulerRuns.AllExitedMeansAllExecuted: does not model termination of the run loops, because it speaks of the state in which all have exited.
- Demos, build files and Singleton.h: no behaviour of the runtime.
