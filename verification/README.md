# Fibers and their benchmark, verified

This project models a Linux kernel module that gives user threads fibers, the calendar queue and the
GSM cell simulation its benchmark runs inside those fibers, and two small arithmetic routines, and
proves what they are meant to keep. `dafny verify dfyconfig.toml` checks all of it.

**The calendar queue.** `Calendar.dfy` says what every operation of `calqueue.c` does as a function of
the queue's value: sorted buckets, a rotating search position, a direct search to fall back on, and a
resize that samples the queue by dequeuing from itself. `CalQueue.dfy` is the same in place, on one array
of 65536 slots, with the mutual recursion of the original; `CalendarNodes.dfy` has one bucket as a list of
linked nodes.

The position is understood through its *slack*: the limit the scan compares against is always a whole
number of buckets away from where it belongs. A get is sure to return a minimum exactly when the slack is
not -1 and is at most nbuckets - 2; a direct search is what changes it, because it moves to a bucket
without resetting the limit. So the queue does not always return a minimum (`CalendarTrace.dfy` has three
puts for which it does not), and `CalendarOrder.dfy` and `CalendarRuns.dfy` say exactly when it does.

A resize needs a positive width, which it takes from its sample. When it finds none, the C code divides by
zero or goes on with a width that is no width (five equal priorities are enough), and a run ends there.
`CalendarWidth.dfy` and `CalendarRuns.RunFineIff` say exactly which runs do not end so; conservation,
filing, size and cost hold on all of those. `CalendarSample.dfy` says what a sample holds: as long as the
slack does not drift to -1, the least stored events, so that the width follows from those alone.
`CalendarSizes.dfy` writes the numbers out: when the buckets double or halve, how much is sampled, and what
the width is.

**The fiber protocol.** `Fibers.dfy` is a state machine over any number of threads of one process.
`do_SwitchToFiber` is cut into nine steps that other threads can come in between of: trylock, attach,
reselect, save registers, save FPU, detach, unlock, load registers, load FPU. `FiberInvariant.dfy`
proves what every step keeps, `FiberSimulation.dfy` that interleaved runs simulate runs with indivisible
switches, `FiberRuns.dfy` that contexts and fiber-local storage survive, and `FiberAccounting.dfy` that
the counters add up. `FiberObjects.dfy` has the structures themselves, pointing at each other and
updated in place by each call, and proves every call to be the steps of the state machine;
`FiberCalls.dfy` adds up the nine steps of a switch. `FiberDirectory.dfy` fills the directory of a process
from its table of fibers. `FiberAnswers.dfy` and `FiberStorage.dfy` say what each call answers and leaves
behind, without the state machine's own functions: ids, registers, success, and what a thread sees.

**The simulation.** `Gsm.dfy` handles one cell with a queue that may hand out any pending event, so its
results do not depend on the order in which events come. `GsmLedger.dfy` keeps the books of a cell from the
events it handles and the draws it makes, and proves the cell and its pending events to agree with them.
`GsmQueue.dfy` runs the same cell over the value of the calendar queue, which settles the order;
`GsmOrder.dfy` says when it is the order of time. `Channels.dfy` keeps busy channels in a bitmap and in a
doubly linked list, and `GsmLoop.dfy` runs the handler and the loop over the real calendar queue and the
real channel table, as `GsmQueue.dfy` says. One thing can stop the loop early, a resize of its queue that
finds no width: `GsmQueue.PlayStops` says exactly when, and `GsmTrace.dfy` has draws for which it does.

**Arithmetic.** `Marsaglia.dfy` is the random number generator, `Log2.dfy` the integer logarithm.

Assumptions. `double` is `real`, C integers that count are unbounded, and priorities are not negative,
as time stamps are. A fiber id is used only after the call that made it has returned, because
`init_fiber` publishes the id before Convert takes the lock and before Create sets the start address
(`module/init.h:33`, `module/fibers.c:109` and `:131`); and the device is closed only when no switch of
the process is in progress. Random draws are arbitrary numbers: non-negative for times, and what
`random()` would return where the generator is seeded. A draw also stands for every value of `Expent`.

Two readings of the source that the proofs correct. `numerical.c` keeps two streams, but `random()` fills
only the low half of the seed, so the second stream stays at zero (`Marsaglia.OneStream`). The comment
of `new_width` speaks of about three items in each bucket; what holds of the width is
`CalendarWidth.WidthBounds`.

## Model

| member | source | states |
|---|---|---|
| `CalQueue.CalendarQueue.constructor` | benchmark/2018-fibers/src/calqueue.c:233-236 | A queue starts empty, with two buckets of width 1 and resizing enabled, in a state that meets everything that holds between calls. |
| `CalQueue.CalendarQueue.LocalInit` | benchmark/2018-fibers/src/calqueue.c:19-45 | Empties exactly the buckets of the new window, sets position and thresholds, and leaves every other slot of the calendar space alone. |
| `CalQueue.CalendarQueue.Place` | benchmark/2018-fibers/src/calqueue.c:243-272 | On a bucket as a sequence: the new event goes behind every event at the front that is not later, and no slot outside the window in use is touched. |
| `CalendarNodes.BucketList.Link` | benchmark/2018-fibers/src/calqueue.c:243-269 | On a bucket as a linked list of nodes: the walk and the splice of the next pointers do the same. |
| `CalendarNodes.BucketList.Unlink` | benchmark/2018-fibers/src/calqueue.c:184-192 | The first node is taken out of the list, and the rest of the list stays as it is. |
| `CalQueue.CalendarQueue.Put` | benchmark/2018-fibers/src/calqueue.c:238-278 | The mutual recursion put, resize, new_width, deq terminates; the call goes through exactly when the value specification does, and then leaves its state; without a resize no slot outside the window changes. |
| `CalQueue.CalendarQueue.Resize` | benchmark/2018-fibers/src/calqueue.c:130-163 | When the sample gives a positive width, copies every event into a window of the new size at the other end of the space, through the same put, which never starts another resize; otherwise reports that. |
| `CalQueue.CalendarQueue.NewWidth` | benchmark/2018-fibers/src/calqueue.c:51-125 | Samples by dequeuing from the queue itself with resizing disabled, puts the sample back, restores the position, and answers the width; never takes an event that is not there. |
| `CalQueue.CalendarQueue.Scan` | benchmark/2018-fibers/src/calqueue.c:177-212 | The tour over the buckets stops at the first bucket whose head is below the rising limit, or after one whole tour, and leaves the limit where the tour stopped. |
| `CalQueue.CalendarQueue.DirectSearch` | benchmark/2018-fibers/src/calqueue.c:215-222 | Finds the first bucket with the smallest head. |
| `CalQueue.CalendarQueue.TakeOut` | benchmark/2018-fibers/src/calqueue.c:184-192 | Unlinks the event found, by scan or direct search, and moves the position to it without resetting the limit. |
| `CalQueue.CalendarQueue.Deq` | benchmark/2018-fibers/src/calqueue.c:165-230 | Answers the event of the value specification and leaves its state, resizing included, exactly when that goes through; nothing when the queue is empty. |
| `CalQueue.CalendarQueue.Get` | benchmark/2018-fibers/src/calqueue.c:280-292 | The payload of that event, or nothing exactly when the queue is empty. |
| `CalendarContents.InsertKeeps` | benchmark/2018-fibers/src/calqueue.c:249-272 | Filing an event keeps every bucket sorted and every event in bucket floor(p / width) mod nbuckets, and adds exactly that event. |
| `CalendarContents.RemoveKeeps` | benchmark/2018-fibers/src/calqueue.c:184-192 | Taking an event out keeps the same, and removes exactly the event found. |
| `CalendarContents.RemovePosition` | benchmark/2018-fibers/src/calqueue.c:177-212 | Where the position is left: the new limit is a whole number of buckets from the middle of the bucket after the event taken out, and how many. |
| `CalendarContents.SampleKeeps` | benchmark/2018-fibers/src/calqueue.c:83-88 | Sampled events and remaining events together are the events before. |
| `CalendarContents.NewWidthKeeps` | benchmark/2018-fibers/src/calqueue.c:75-122 | new_width leaves the contents and the position of the queue unchanged. |
| `CalendarContents.ResizeKeeps` | benchmark/2018-fibers/src/calqueue.c:130-163 | A resize keeps the contents, files every event by the new width and realigns the position. |
| `CalendarContents.PutKeeps` | benchmark/2018-fibers/src/calqueue.c:238-278 | A put adds exactly its event, resize or not. |
| `CalendarContents.GetKeeps` | benchmark/2018-fibers/src/calqueue.c:165-199 | A get removes exactly the event it returns, and returns one unless the queue is empty. |
| `CalendarContents.InsertLine` | benchmark/2018-fibers/src/calqueue.c:258-269 | Events of equal priority queue up: a new one goes to the end of its line and no other line changes. |
| `CalendarContents.RemoveLine` | benchmark/2018-fibers/src/calqueue.c:184-192 | The event taken out is the first of its line. |
| `CalendarContents.NewWidthLine` | benchmark/2018-fibers/src/calqueue.c:96-106 | Putting the sample back rotates each line by the number of its events sampled, which is the only thing that reorders ties. |
| `CalendarContents.ResizeLine` | benchmark/2018-fibers/src/calqueue.c:153-162 | The copy loop keeps the order of ties; only the sample put back before it has rotated them. |
| `CalendarOrder.HitMiddle` | benchmark/2018-fibers/src/calqueue.c:179-207 | What step k of the scan compares, on a queue whose limit lags or leads by any number of buckets. |
| `CalendarOrder.DirectSearchMinimum` | benchmark/2018-fibers/src/calqueue.c:214-226 | From any well-formed non-empty queue the direct search finds a global minimum. |
| `CalendarOrder.ScanMinimum` | benchmark/2018-fibers/src/calqueue.c:177-199 | From a safe position, with nothing stored in an earlier bucket than the last priority, a scan that succeeds finds a global minimum and leaves the limit where it belongs. |
| `CalendarOrder.RemoveOrder` | benchmark/2018-fibers/src/calqueue.c:177-226 | From such a state the event taken out is a minimum, and the position stays safe if and only if the direct search did not end in the one window of priorities that spoils it. |
| `CalendarOrder.SpoilsIff` | benchmark/2018-fibers/src/calqueue.c:207-226 | That window, written as a condition on the priority found, is exactly when the limit is left one bucket behind. |
| `CalendarOrder.SpoilsByLeast` | benchmark/2018-fibers/src/calqueue.c:177-226 | From such a state a get spoils the position if and only if the least stored priority is within half a bucket of where a whole tour leaves the limit: plain arithmetic, before the call. |
| `CalendarOrder.SafeIff` | benchmark/2018-fibers/src/calqueue.c:177-226 | A position is safe if and only if a get from it returns a minimum whatever is stored in the bucket of the last priority and later ones: the exact condition under which the queue is a priority queue. |
| `CalendarOrder.LaggingWitness` | benchmark/2018-fibers/src/calqueue.c:207-226 | For every queue whose limit lags by one bucket, contents on which its next get is not a minimum. |
| `CalendarOrder.LeadingWitness` | benchmark/2018-fibers/src/calqueue.c:177-189 | For every queue whose limit leads by a whole tour, contents on which its next get is not a minimum. |
| `CalendarOrder.AlignedIff` | benchmark/2018-fibers/src/calqueue.c:36-40 | The aligned positions: the limit is one and a half buckets past the start of a virtual bucket n, lastbucket is n mod nbuckets, and n is not past the last priority. |
| `CalendarOrder.AlignedStep` | benchmark/2018-fibers/src/calqueue.c:177-226 | Aligned positions are safe; a removal whose scan succeeds keeps them aligned, and one that needs a direct search does exactly when the bucket found is the old lastbucket. |
| `CalendarWidth.SampleFits` | benchmark/2018-fibers/src/calqueue.c:64-73 | new_width never samples more events than are stored, and at most 25. |
| `CalendarWidth.NoWidthIff` | benchmark/2018-fibers/src/calqueue.c:99-116 | On a sample in order, the divisor j is zero if and only if all sampled priorities are equal. |
| `CalendarWidth.WidthBounds` | benchmark/2018-fibers/src/calqueue.c:91-116 | Otherwise the width is not negative, below six times the average gap, and positive exactly when some positive gap is below twice the average. |
| `CalendarWidth.StrictWidth` | benchmark/2018-fibers/src/calqueue.c:91-116 | On a strictly increasing sample the width is positive. |
| `CalendarWidth.SampleInOrder` | benchmark/2018-fibers/src/calqueue.c:83-88 | From a safe position on non-early contents, with no spoiling direct search on the way, the sample comes out in order, and nothing in it is later than anything left. |
| `CalendarWidth.ResizeFineIff` | benchmark/2018-fibers/src/calqueue.c:51-125 | On a sample in order, a resize has a positive width if and only if some positive gap of the sample is below twice the average gap. |
| `CalendarWidth.ResizeFineExact` | benchmark/2018-fibers/src/calqueue.c:91-122 | For every queue, in whatever order its sample comes, a resize has a positive width if and only if the gaps that count add up to something positive. |
| `CalendarWidth.TiedDegenerates` | benchmark/2018-fibers/src/calqueue.c:99-116 | A resize of two or more events that all tie always divides zero by zero. |
| `CalendarSample.SlackStep` | benchmark/2018-fibers/src/calqueue.c:177-226 | From a safe position on contents ahead of it, the slack after a removal is a function of the slack before and of two bucket numbers, and the removal spoils the position if and only if that function gives -1. |
| `CalendarSample.SamplesInOrderIff` | benchmark/2018-fibers/src/calqueue.c:83-88 | So whether the removals a sample makes come out in order can be told from the least stored priorities: if and only if the slack never drifts to -1 on the way. |
| `CalendarSample.SampleLeast` | benchmark/2018-fibers/src/calqueue.c:83-88 | Such a sample is the nsamples least stored events. |
| `CalendarSample.LeastUnique` | benchmark/2018-fibers/src/calqueue.c:83-88 | However ties are broken, the n least priorities of a bag of events are the same. |
| `CalendarSample.WidthOfLeast` | benchmark/2018-fibers/src/calqueue.c:91-122 | From such a position a resize has a width if and only if the least stored events have one: no sample needs to be taken. |
| `CalendarSample.LeastDecides` | benchmark/2018-fibers/src/calqueue.c:83-88 | Any choice of least stored events gives the same answer to whether they would be sampled in order. |
| `CalendarSample.SpreadWide` | benchmark/2018-fibers/src/calqueue.c:51-125 | Distinct priorities in a safe position, the least of them without such a drift, have a positive width. |
| `CalendarSample.ResizeFine` | benchmark/2018-fibers/src/calqueue.c:130-163 | So a resize of them goes through. |
| `CalendarSizes.SampleSize` | benchmark/2018-fibers/src/calqueue.c:67-73 | A resize samples all events if there are at most five, 25 if there are 200 or more, and five and a tenth of their number in between. |
| `CalendarSizes.SampleIsNext` | benchmark/2018-fibers/src/calqueue.c:83-88 | The k-th event sampled is the one the next get answers when the k before it are out and resizing is off. |
| `CalendarSizes.WidthIsMean` | benchmark/2018-fibers/src/calqueue.c:91-116 | The width is three times the mean of those gaps of the sample that are below twice the mean gap, as a sum over a list of gaps; there is none when no gap is. |
| `CalendarSizes.ResizedWidth` | benchmark/2018-fibers/src/calqueue.c:62-122 | A resize of fewer than two events sets the width to 1; one of more goes through if and only if the gaps that count have a positive mean, and sets it to three times that mean. |
| `CalendarSizes.BucketNumbers` | benchmark/2018-fibers/src/calqueue.c:194-196 | In numbers: a put makes n buckets 2n exactly when it leaves more than 2n events and n < 32768, a get makes them n / 2 exactly when it leaves fewer than n / 2 - 2; nothing else changes their number or width, and only these copy, everything that is left. |
| `CalendarRuns.InitResting` | benchmark/2018-fibers/src/calqueue.c:233-236 | What holds between calls holds at first. |
| `CalendarRuns.PingPong` | benchmark/2018-fibers/src/calqueue.c:146-151 | The two windows of a resize lie inside the 65536 slots and do not overlap. |
| `CalendarRuns.StepFineIff` | benchmark/2018-fibers/src/calqueue.c:238-292 | A call goes through if and only if what it resizes, if anything, has a width. |
| `CalendarRuns.RunFineIff` | benchmark/2018-fibers/src/calqueue.c:238-292 | A whole run goes through if and only if every resize on it has a width. |
| `CalendarRuns.RoomyRun` | benchmark/2018-fibers/src/calqueue.c:238-292 | A run that only ever resizes such contents goes through: a condition that takes no sample. |
| `CalendarRuns.StoppingCall` | benchmark/2018-fibers/src/calqueue.c:238-292 | A run that does not go through stops at one call: every resize before it has a width, and its own has none. |
| `CalendarRuns.RunResting` | benchmark/2018-fibers/src/calqueue.c:238-292 | After every run whose resizes have widths: resizing is enabled, the number of buckets is a power of two from 2 to 32768, and the size is between the thresholds unless there are 32768 buckets. |
| `CalendarRuns.CopyNeverGrows` | benchmark/2018-fibers/src/calqueue.c:153-162 | No put of a copy loop starts a resize, and the copy does not end where a get would shrink it. |
| `CalendarRuns.AmortisedCost` | benchmark/2018-fibers/src/calqueue.c:130-163 | Over any k calls from initialisation, up to a resize without a width if there is one, the copy loops move at most 3k events in total. |
| `CalendarRuns.BucketsBounded` | benchmark/2018-fibers/src/calqueue.c:275-277 | For a power of two c, a call that leaves at most 2c events does not take the queue past c buckets. |
| `CalendarRuns.RunBuckets` | benchmark/2018-fibers/src/calqueue.c:275-277 | So over every run whose resizes have widths, a queue that never holds more than 2c events never has more than c buckets. |
| `CalendarRuns.RunServes` | benchmark/2018-fibers/src/calqueue.c:238-292 | Over every run whose resizes have widths, the replies are those of a bag: each get returns an event put and not yet returned, and nothing only when there is none. |
| `CalendarRuns.StepOrder` | benchmark/2018-fibers/src/calqueue.c:165-278 | From a safe position, with nothing stored in an earlier bucket than the last priority: a get returns a minimum, and the next state is such a state again if and only if the call is steady, a condition on the state and the call. |
| `CalendarRuns.AlignedCall` | benchmark/2018-fibers/src/calqueue.c:165-278 | From an aligned position on contents ahead of it, a put keeps it aligned, and a get does if and only if its scan succeeds, its direct search finds the old lastbucket, the queue is empty, or it halves the calendar. |
| `CalendarRuns.SteadyRun` | benchmark/2018-fibers/src/calqueue.c:165-292 | Every run of steady calls whose resizes have widths goes through, and each get returns a smallest stored event. |
| `CalendarRuns.LateStep` | benchmark/2018-fibers/src/calqueue.c:238-278 | A put that is not before the last priority is steady, and such calls keep the contents not early. |
| `CalendarRuns.AscendingRun` | benchmark/2018-fibers/src/calqueue.c:165-292 | A steady run that puts nothing before the last priority returns its events in ascending order. |
| `CalendarTrace.OutOfOrder` | benchmark/2018-fibers/src/calqueue.c:214-226 | Three puts 3.2, 3.7, 4.3 into a fresh queue come out as 3.2, 4.3, 3.7: unconditional order is false of the code. |
| `CalendarTrace.FiveTies` | benchmark/2018-fibers/src/calqueue.c:99-116 | Five events of any one priority: four can be put into a fresh queue, and the fifth put divides zero by zero. |
| `Fls.AllocVisible` | module/fibers.c:218-227 | Allocation adds the least free index to what the fiber can see, with the value left there, and fails if and only if all 4096 are taken. |
| `Fls.FreeVisible` | module/fibers.c:230-254 | Freeing succeeds exactly on allocated indices, hides the value and keeps it in the array. |
| `Fls.SetVisible` | module/fibers.c:256-304 | Setting and getting act on the visible map, and do nothing and answer -1 outside it. |
| `Fls.SetThenGet` | module/fibers.c:256-304 | A value set is read back after any calls that neither free nor set its index. |
| `Fls.StaleValue` | module/fibers.c:218-254 | A freed index handed out again still holds its old value. |
| `Fls.FirstTwo` | benchmark/2018-fibers/src/main.c:51-57 | A new fiber's first two allocations give 0 and 1, so the simulation does not run out of storage. |
| `FlsStore.Store.Alloc` | module/fibers.c:218-227 | The bitmap search in place answers and updates what the value specification does. |
| `FlsStore.Store.Free` | module/fibers.c:245-253 | The same for freeing, with its three ways out. |
| `FlsStore.Store.GetValue` | module/fibers.c:271-277 | The same for reading. |
| `FlsStore.Store.SetValue` | module/fibers.c:295-301 | The same for writing. |
| `FiberInvariant.NextKeeps` | module/fibers.c:74-200 | Every step of every call, by any thread between any steps of other threads' switches, keeps the tables and the ownership of locks and fibers. |
| `FiberInvariant.OneOwner` | module/fibers.c:166-189 | Under every interleaving no fiber is owned by two threads, a lock is held exactly while a thread is on, going to or leaving its fiber, and between switches selected_fiber and attached_thread are inverse. |
| `FiberInvariant.NeverAlreadyAttached` | module/fibers.c:166-169 | A trylock that succeeds never finds the fiber attached, so the path that keeps the lock and reports failure is never taken. |
| `FiberInvariant.TablesAgree` | module/init.h:16-33 | active_threads counts the registered threads, fiber ids are exactly 1 to last_fiber_id, and there are as many fibers as ids. |
| `FiberDirectory.WalkFills` | module/proc.c:24-36 | A walk over the table of fibers of any reachable process meets exactly as many fibers as ids were given out. |
| `FiberDirectory.Fill` | module/proc.c:24-36 | The fill loop stays inside the array, leaves no entry empty and lists every fiber once, whatever the order of the walk. |
| `FiberInvariant.DisappearsIff` | module/kprobes.c:162-197 | A process disappears exactly when its last registered thread exits or the device is closed. |
| `FiberInvariant.OnlyThread` | module/kprobes.c:162-164 | The thread that takes the count to zero is the only one, and no switch is in progress. |
| `FiberSimulation.GrantSimulates` | module/fibers.c:166 | The trylock is the point where a switch happens, and then its target was parked. |
| `FiberSimulation.AdvanceSimulates` | module/fibers.c:170-197 | The eight steps behind it change nothing that the atomic reading of the state sees. |
| `FiberSimulation.GrantedIff` | module/fibers.c:151-169 | A switch is granted if and only if its thread is registered and its target is parked and no thread is still leaving the target. |
| `FiberSimulation.NextSimulates` | module/fibers.c:74-200 | Each step of the interleaved protocol is a step of the protocol in which a switch is indivisible, or no step of it; and a switch is granted exactly then. |
| `FiberRuns.RunSimulates` | module/fibers.c:140-200 | Every interleaved run simulates the run in which switches are indivisible and are granted or refused alike. |
| `FiberRuns.RefusedIff` | module/fibers.c:151-169 | In every reachable state, a switch is refused exactly when the atomic state says so, or a thread is still leaving the target. |
| `FiberRuns.ContextIntegrity` | module/fibers.c:179-197 | A fiber left with a context, by a switch, by the exit of its thread or by its creation, is resumed with exactly it, on whatever thread, after any actions of any threads. |
| `FiberRuns.SwitchAdvances` | module/fibers.c:166-200 | A switch that has its lock is never stuck: each of its own steps is enabled and takes it one stage on, and the last one ends it. |
| `FiberRuns.OthersWait` | module/fibers.c:166-200 | No action of another thread moves it on or back. |
| `FiberRuns.SwitchEnds` | module/fibers.c:166-200 | So any run with the steps it has left, eight from the trylock on, ends it, whatever other threads do in between. |
| `FiberRuns.FlsBelongsToFiber` | module/fibers.c:202-304 | The storage of a fiber changes only in a storage call of the thread that has it selected. |
| `FiberRuns.FlsSurvives` | module/fibers.c:202-304 | So it survives any number of switches and migrations between threads. |
| `FiberAccounting.ActivationAccounting` | module/fibers.c:103-188 | On every run: activations of all fibers together are the successful converts and switches, activations minus departures of a fiber are one if it is attached and zero otherwise, and refusals are counted exactly. |
| `FiberAccounting.GrantAccounting` | module/fibers.c:166-171 | With the granted switches counted where the lock is obtained: on every run all activations together are the successful converts and the grants, less the threads that have their lock and have not counted the activation yet. |
| `FiberAnswers.ConvertAnswers` | module/fibers.c:74-113 | The answer is -1 exactly for a thread already registered, and nothing changes; otherwise it is the next id, new to the table, and the thread has that fiber selected, locked, attached, activated once, with empty storage and its own context; all else is unchanged. |
| `FiberAnswers.CreateAnswers` | module/fibers.c:115-138 | The answer is -1 exactly for a thread not registered, and nothing changes; otherwise it is the next id, and a fiber of that id is added, unlocked, detached and with empty storage, at the start address and stack given. |
| `FiberAnswers.CreatedStarts` | module/fibers.c:131-132 | Whichever thread first switches to a created fiber, after any actions of any threads, comes out with ip at the start address, di the parameter, sp and bp at stack + size - 8, and all else as its creator had it. |
| `FiberAnswers.SwitchAnswers` | module/fibers.c:140-200 | A switch answers 0 if and only if its target exists and is unlocked, equivalently if and only if the thread then has a fiber selected that it did not have before; otherwise it answers -1, and at most the count of refusals changes. |
| `FiberAnswers.SwitchGranted` | module/fibers.c:166-169 | It answers 0 exactly when the state machine grants the switch. |
| `FiberAnswers.ExitLeaves` | module/kprobes.c:152-197 | A thread that exits is off the tables; its fiber keeps its context and is left unlocked and detached, with everything else unchanged, and the last thread takes the process with it. |
| `FiberStorage.AllocSeen` | module/fibers.c:218-227 | In any state: the calling thread sees the least of 4096 indices it did not see before, with the value left there, and nothing changes exactly when it sees all; nothing but the storage of its fiber changes. |
| `FiberStorage.FreeSeen` | module/fibers.c:245-253 | It no longer sees the index freed; nothing else changes but its storage. |
| `FiberStorage.SetSeen` | module/fibers.c:295-304 | It sees the value set, if it saw the index before; nothing else changes but its storage. |
| `FiberStorage.NothingSeen` | module/fibers.c:202-216 | A call by a thread without a fiber changes nothing. |
| `FiberStorage.SetThenRead` | module/fibers.c:256-304 | A value set is read back by whichever thread then has the fiber selected, after any actions of any threads that neither free nor set the index on that fiber. |
| `FiberCalls.UninterruptedIsRun` | module/fibers.c:140-200 | A switch no other thread comes in between of is the run of its nine steps. |
| `FiberCalls.UninterruptedKeeps` | module/fibers.c:140-200 | And keeps the invariant of the protocol. |
| `FiberObjects.Module.EnsureProcess` | module/init.h:1-9 | A process object is made if the table has none, and none is made otherwise. |
| `FiberObjects.Module.NewThread` | module/init.h:11-18 | A thread object is registered and counted, without a fiber. |
| `FiberObjects.Module.NewFiber` | module/init.h:20-41 | A fiber object with the next id and empty storage, unlocked and detached, is added beside the others, which are unchanged. |
| `FiberObjects.Module.Convert` | module/fibers.c:74-113 | On the objects: the conversion of the state machine, and its answer. |
| `FiberObjects.Module.Create` | module/fibers.c:115-138 | On the objects: the creation of the state machine, and its answer. |
| `FiberObjects.Module.Switch` | module/fibers.c:140-200 | On the objects and the registers of the running thread: the nine steps of the state machine, and the answer. |
| `FiberObjects.Module.FlsAlloc` | module/fibers.c:202-228 | On the selected fiber's storage alone: the allocation, and its answer. |
| `FiberObjects.Module.FlsFree` | module/fibers.c:230-254 | The same for freeing. |
| `FiberObjects.Module.FlsSetValue` | module/fibers.c:280-304 | The same for writing. |
| `FiberObjects.Module.FlsGetValue` | module/fibers.c:256-278 | The answer of reading, with no change to anything. |
| `FiberObjects.Module.Exit` | module/kprobes.c:152-197 | On the objects: the exit of the state machine; the last thread takes the process with it. |
| `FiberObjects.Module.Cleanup` | module/fibers.c:308-329 | On the objects: the process is gone. |
| `Bits.BitUpdates` | benchmark/2018-fibers/src/model.h:27-30 | Setting or resetting one bit of a word leaves every other bit alone. |
| `Channels.MarkKeeps` | benchmark/2018-fibers/src/model.h:34-42 | Setting and resetting a channel in the word array adds it to and removes it from the set of channels the array stands for. |
| `Channels.ChannelTable.constructor` | benchmark/2018-fibers/src/model.c:57-59 | The 32 words that can hold a channel are set to zero, and then no channel is busy. |
| `Channels.ChannelTable.FindFree` | benchmark/2018-fibers/src/channel.c:128-134 | The least channel that is not busy; the answer is a function of the initialised words alone. |
| `Channels.ChannelTable.Allocation` | benchmark/2018-fibers/src/channel.c:120-188 | Takes the least free channel and puts it at the head of a well-formed doubly linked list with distinct ids that agrees with the bitmap; fails exactly when all 1000 are busy; never touches a word that was not initialised. |
| `Channels.ChannelTable.Push` | benchmark/2018-fibers/src/channel.c:146-157 | Links a channel in at the head in both directions. |
| `Channels.ChannelTable.Unlink` | benchmark/2018-fibers/src/channel.c:96-106 | Unlinks a channel, at the head or inside, in both directions, and keeps the order of the rest. |
| `Channels.ChannelTable.Deallocation` | benchmark/2018-fibers/src/channel.c:86-117 | Removes exactly that channel from list and bitmap; fails exactly when it is not busy. |
| `Gsm.FreeChannel` | benchmark/2018-fibers/src/model.c:72-77 | While the counter says a channel is free, the search finds one. |
| `Gsm.TurnKeeps` | benchmark/2018-fibers/src/model.c:37-95 | Whichever pending event is handled: nothing aborts, the loop ends exactly when the last call completes, and everything that holds between events holds again. |
| `Gsm.SimulationConserves` | benchmark/2018-fibers/src/model.c:22-103 | Over every run: no abort, never an empty queue, at most 1001 events; arriving calls are complete, blocked and ongoing ones; executed events are arrivals and completions; the pending END_CALLs are, one for one, the busy channels; and one START_CALL is pending. |
| `Gsm.NeverEmpty` | benchmark/2018-fibers/src/main.c:72-76 | Between events the queue holds an event, and at most 1001. |
| `GsmQueue.AdvanceKeeps` | benchmark/2018-fibers/src/main.c:70-94 | One turn over the calendar queue: it goes on, ends the loop with the last call, or stops for want of a width; if it does not stop it is a turn of the cell with the event that came out, and the queue stays within 512 buckets. |
| `GsmQueue.AdvanceStops` | benchmark/2018-fibers/src/main.c:70-94 | A turn stops if and only if one of the calls it makes, its get and the puts of what it schedules, has no width to resize to; otherwise its queue is where these calls lead. |
| `GsmQueue.PlayStops` | benchmark/2018-fibers/src/main.c:50-94 | The whole loop stops early if and only if a resize among its own calls, from calqueue_init on, has no width; otherwise its queue is where these calls lead. |
| `GsmQueue.PlayIsRun` | benchmark/2018-fibers/src/main.c:50-94 | Whatever the draws, what the loop does is a run of the cell that handles the events that came out, with the draws in their order. |
| `GsmQueue.PlayKeeps` | benchmark/2018-fibers/src/main.c:50-94 | Whatever the draws: the loop never finds its queue empty, never gets an event of another cell and never aborts; it ends exactly with 15000 complete calls; the queue holds 1 to 1001 events in at most 512 buckets. |
| `GsmLedger.CellIsBooks` | benchmark/2018-fibers/src/model.c:22-103 | Against books kept only from the events handled and the draws made, on every run: arrived, complete and executed calls are the numbers of START_CALLs, END_CALLs and both handled; a call is blocked exactly when 1000 are going on; the busy channels, the time of the next arrival and the time each call ends are those of the books; and the cell is done if and only if exactly 15000 END_CALLs were handled. |
| `GsmLedger.LoopIsBooks` | benchmark/2018-fibers/src/main.c:70-94 | The same for the loop over the calendar queue: it finishes if and only if exactly 15000 of the events that came out are END_CALLs. |
| `GsmTrace.StoppingDraws` | benchmark/2018-fibers/src/main.c:50-94 | The early stop can happen: for every t > 0 draws are given for which four turns go on and the fifth stops, with five events at t and a width of zero by zero. |
| `GsmOrder.TurnInTime` | benchmark/2018-fibers/src/model.c:63-84 | From a state in which a get is sure to return a minimum, a turn whose get does not leave the position behind handles an earliest event, schedules nothing before it, and leaves such a state. |
| `GsmOrder.PlayInTime` | benchmark/2018-fibers/src/model.c:28 | So unless a get leaves the position behind, a cell handles its events in the order of their times, and lvt never goes back. |
| `GsmLoop.Schedule` | benchmark/2018-fibers/src/model.c:63 | A put at the time stamp, on the queue itself: the calendar put of the value specification, going through exactly when a resize it needs has a width, and adding the message to the bag of pending events. |
| `GsmLoop.Next` | benchmark/2018-fibers/src/main.c:72 | A get on the queue itself: the payload and the state of the value specification, going through exactly when a resize it needs has a width; no message only when none is pending. |
| `GsmLoop.CellState.constructor` | benchmark/2018-fibers/src/model.c:41-59 | A new cell: every channel free, every counter zero. |
| `GsmLoop.CellState.StartCall` | benchmark/2018-fibers/src/model.c:68-84 | On counters, bitmap, list and queue: the arrival of the value specification, aborting exactly when it does; its puts are made on the queue in their order, and it stops exactly when that run of puts does. |
| `GsmLoop.CellState.EndCall` | benchmark/2018-fibers/src/model.c:86-95 | The same for the end of a call, which puts nothing. |
| `GsmLoop.ProcessEvent` | benchmark/2018-fibers/src/model.c:22-103 | The handler in place does to cell and queue what the value specification does, for every kind of event, and stops exactly when its puts on this queue do. |
| `GsmLoop.OneTurn` | benchmark/2018-fibers/src/main.c:70-94 | One turn of the loop in place, with its three checks, ends as the turn of the value specification ends, and leaves its cell and its queue. |
| `GsmLoop.MainLoop` | benchmark/2018-fibers/src/main.c:50-94 | The loop over the calendar queue itself ends as the simulation over the queue's value ends, with the same cell and the same queue: finished, exactly when 15000 of the events it handled are END_CALLs, still running when the draws end, or stopped by a queue without a width in the very turn where the simulation is. |
| `Marsaglia.Generator.Random` | benchmark/2018-fibers/src/numerical.c:11-27 | The two streams step, and the number returned is strictly between 0 and 1. |
| `Marsaglia.StepFits` | benchmark/2018-fibers/src/numerical.c:22-23 | No step overflows 32 bits, and only zero steps to zero. |
| `Marsaglia.StepDivides` | benchmark/2018-fibers/src/numerical.c:22-23 | A step divides by 65536 modulo a * 65536 - 1. |
| `Marsaglia.StepsDivide` | benchmark/2018-fibers/src/numerical.c:22-23 | From any word, k steps divide by 65536 to the k, modulo a * 65536 - 1. |
| `Marsaglia.StepMultiplies` | benchmark/2018-fibers/src/numerical.c:22-23 | Below the modulus a step is multiplication by a, and stays below it. |
| `Marsaglia.StepsMultiply` | benchmark/2018-fibers/src/numerical.c:22-23 | And k steps are one multiplication by a to the k. |
| `Marsaglia.OneStream` | benchmark/2018-fibers/src/numerical.c:15-23 | A thread whose first seed is not zero never reseeds; k draws put the first stream at 36969 to the k times the seed; the second stream stays at zero for ever, because random() fills only the low half of the seed. |
| `Marsaglia.OutputsApart` | benchmark/2018-fibers/src/numerical.c:26 | With the second stream at zero, different seeds give different numbers. |
| `Marsaglia.NextInNumbers` | benchmark/2018-fibers/src/numerical.c:22-23 | In numbers: 65536 times the new word is the old one modulo 2422800383 for the first stream and 1179647999 for the second; words below these moduli are multiplied by 36969 and 18000. |
| `Marsaglia.FirstInNumbers` | benchmark/2018-fibers/src/numerical.c:15-23 | The first draw of a thread leaves 36969 times its seed modulo 2422800383, and zero. |
| `Marsaglia.UniformInNumbers` | benchmark/2018-fibers/src/numerical.c:26 | The number returned, times 2^32 + 2, is within 0.00001 of one more than the halves of the first stream swapped plus the second stream, as a 32-bit word. |
| `Log2.FirstSmears` | test/test_fibers_ioctl/prova.c:36-41 | The cascade fills every place below the highest bit, for bits 0 to 15; the other three cover the rest. |
| `Log2.FirstEntries` | test/test_fibers_ioctl/prova.c:24-42 | The multiplication sends each power of two to its own entry of the table, for 2^0 to 2^15; the other three cover the rest. |
| `Log2.LogIs` | test/test_fibers_ioctl/prova.c:34-43 | For every non-zero 64-bit v, log2_64(v) is the one r by which v shifts right to one. |
| `Log2.HighestMeans` | test/test_fibers_ioctl/prova.c:34-43 | Shifting right by r to one is lying between 2^r and 2^(r+1) - 1. |
| `Log2.LogMeans` | test/test_fibers_ioctl/prova.c:34-43 | For every non-zero 64-bit v, log2_64(v) is r if and only if 2^r <= v <= 2^(r+1) - 1. |

## Left out

- CalQueue.CalendarQueue.Put: the state after a resize that finds no positive width is not described. Mostly the C code then casts a NaN or an infinity to an integer or indexes an array with a negative number, and C gives that no meaning; but with a negative width of a magnitude above every priority all indices come out as 0 and it goes on, and such runs are not modelled either. `CalendarRuns.StepFineIff` says exactly which calls these are.
- CalQueue.CalendarQueue.Resize: the same.
- CalQueue.CalendarQueue.Deq: the same.
- CalQueue.CalendarQueue.Get: the same.
- CalQueue.CalendarQueue.Place: the calendar array holds buckets as sequences; the splice of `next` pointers is proved on one bucket, in `CalendarNodes.BucketList.Link`, and freeing a node is not modelled.
- CalendarSample.ResizeFine: one direction only; the exact conditions are `CalendarWidth.ResizeFineExact`, on the sample taken, and `CalendarSample.WidthOfLeast`, on the stored events.
- CalendarRuns.RunResting: about runs whose resizes have widths, as are `CalendarRuns.RunServes` and `CalendarRuns.SteadyRun`; `CalendarRuns.RunFineIff` says which runs these are, `CalendarRuns.RoomyRun` gives a condition that takes no samples, and `CalendarTrace.FiveTies` shows a run that is none.
- CalendarRuns.SteadyRun: minimal replies are conditional, because without the condition that is false of the code; `CalendarOrder.SafeIff`, `CalendarRuns.StepOrder` and `CalendarTrace.OutOfOrder` are the exact condition, its preservation and a counterexample.
- CalendarRuns.AmortisedCost: counts up to a resize without a width, if there is one.
- FiberInvariant.NextKeeps: Convert, Create, the storage calls, Exit and Close are single steps, so races inside them, such as a fiber id guessed before its creator has returned, are not covered.
- FiberObjects.Module.Switch: the call on objects runs alone; what other threads can do between its steps is the state machine's matter.
- FiberObjects.Module.Convert: hash chains are maps, and allocation does not fail.
- FiberRuns.ContextIntegrity: CPU and FPU state are values that loads and saves copy whole; `total_time`, names, start addresses and creator ids are not modelled.
- Gsm.SimulationConserves: `lvt` is not a field of the cell; it is the time of the event handled, and `GsmOrder.PlayInTime` says when it never goes back.
- GsmOrder.PlayInTime: one direction only; after a get that leaves the position behind, events may still come out in order by luck.
- GsmLoop.MainLoop: runs for as many events as it is given draws, as the loop itself need not end; after a stop for want of a width nothing is promised of the queue and the cell in place, only that the simulation stops in the same turn; storage slots, timing, the counter of finished fibers and what follows the loop are not modelled.
- Channels.ChannelTable.Allocation: power, fading and path gain, which nothing else reads, are left out.
- Marsaglia.Generator.Random: the product with 2.328306435454494e-10 is exact, not rounded.
- Floating-point rounding, NaN and overflow of casts in the queue and the simulation.
- `recompute_ta`, `Expent`'s logarithm, and the statistics printed at the end.
- Several processes at once: every table of the module is keyed by the process first, so one process is modelled.
- RCU lifetimes, `kfree` ordering, preemption, and the hidden state of spinlocks beyond held or free.
- `ult.c`, `jmp.S` and the user-space fiber library: hand-written register code and thin wrappers.
- `ioctl.c`, `device.c`, the rest of `proc.c`, the kernel probes other than thread exit, and the fiber timer: kernel interfaces that are not part of this model.
