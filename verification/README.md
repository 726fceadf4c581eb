# R3-OS timing, scheduling and blocking

A Dafny model of three parts of the R3-OS kernel and of its port timing library,
with proofs of what they promise.

**Port timing** (`Num`, `Words`, `Tickful`, `Tickless*`). A tickful or tickless timer
driver converts hardware ticks to microseconds. The configuration functions, the
stateless and the stateful conversion and the measurement of an interval are compared
with the exact rational clock in unbounded arithmetic: no drift over any run, earliest
hardware ticks, minimal waits, and a `max_timeout` that is the largest safe one.

**Timeouts** (`TimeoutTime`, `TimeoutSpec`, `TimeoutRuns`, `Expiry`, `TimeoutHeap`,
`Timeouts`, `TimerRestart`). `TimeoutSpec` describes event time, system time, the
frontier and the linked timeouts in unbounded arithmetic. `TimeoutRuns` adds the tick
that the port owes, and proves the invariant of every run in which the port is at most
the hard headroom late. `TimeoutHeap.Heap` is the binary heap with its back-pointers;
`Timeouts.TimeoutGlobals` holds the 32-bit and 64-bit fields, and each of its methods is
shown to be the unbounded operation. `Expiry` says what one call of `handle_tick` fires.

**Scheduling and blocking** (`Lists`, `Kernel*`, `WaitOrder`). `KernelState` is the
state of tasks, mutexes, semaphores, event groups, wait queues and the ready queue;
`KernelOps` has one function per system call, each one CPU Lock section, with blocking
calls split around the dispatch. `KernelInv` states the global invariant. A task-local
argument (`KernelLocal`) carries it through every step; `KernelRun` concludes that it
holds in every reachable state. What each call does and replies, and that it does
nothing else, is in `KernelStart`, `KernelSwitch` (dispatcher and boost), `KernelWaits`,
`KernelCalls`, `KernelHeirs` (mutexes let go), `KernelEffects`, `KernelServed` and
`KernelService` (several waiters served at once), `KernelBits`, `KernelRebase` and
`KernelRefusals`; `KernelFinal`, `KernelFlags` and `KernelTokens` are about runs, and
`KernelTick` relates the expiries of one `handle_tick` to single ones. `Kernel.System`
holds control blocks with the linked list of held mutexes and the ready bitmap, and each
of its methods, loops included, is shown to be the function of `KernelOps`.

**Timed waits** (`TimedWaits`). The kernel and the clock as one state, in which a task
is registered for a timeout exactly while its timeout is linked; which waits one
`handle_tick` ends.

A lower number is a higher priority throughout.

What the proofs found:

- Registering or cancelling a timeout re-pends the tick "from now" without marking one
  (`timeout.rs:1044-1074`, `1108-1147`), although the design notes say that a tick is
  created on registration (`timeout.rs:16-19`). A program that keeps doing so just before
  each pended tick makes the kernel lose event time with no interrupt ever late
  (`TimeoutSpec.MarkCanBePostponed`). The measured time is right if and only if at most
  `MAX_TICK_COUNT` ticks pass between marks (`TimeoutTime.ElapsedIsExact`), so that is a
  condition on the passing of time in the model.
- "Newly registered timeouts always belong to the enqueueable zone" (`timeout.rs:61-62`)
  fails for a restarted timer: `stop_timer` stores the remaining delay, which is longer
  than `Duration::MAX` after a backward adjustment, by at most the user headroom
  (`TimerRestart.RemainingIsBounded`). The kernel sees the true time left until such a
  timer, after every backward adjustment permitted then, if and only if the delay is
  within the longest duration of the frontier when the timer is started
  (`TimerRestart.StartReadsRightIff`); every longer delay makes the timer due at once
  after such an adjustment (`TimerRestart.OverlongDelayIsDueAtOnce`, with a run from boot
  in `TimerRestart.RestartedTimerFiresEarly`). `TimeoutRuns.AlwaysReadableIff` is the
  same over whole runs.
- A timer period of zero is accepted, and a due timer with one is re-armed at the same
  arrival time for ever: `handle_tick` can complete if and only if there is none
  (`Expiry.CompletesIffNoZeroPeriod`).
- `DURATION_MAX` is 2^31 - 1. The value in the first note of `timeout.rs:79-80` is one
  more; the second note holds for 2^31 - 1 only.
- The delay of the tick pended by `handle_tick` is computed for the time at which it
  started; the time its callbacks take is added to it (`Timeouts.TimeoutGlobals.HandleTick`)
  and comes out of the lateness permitted to the next interrupt, tick for tick
  (`TimeoutSpec.CallbackTimeCountsAsLateness`).
- `sub_mod_u32` gives a full revolution for equal operands unless the modulus is 2^32;
  no measurement meets this case, because every wait is at least one hardware tick.

## Model

| member | source | states |
|---|---|---|
| `Num.GcdIsGreatest` | src/r3_portkit/src/num.rs:10-16 | `gcd128` divides both inputs, and every common divisor divides it |
| `Num.ReduceIsLowestTerms` | src/r3_portkit/src/num.rs:19-22 | `reduce_ratio128` keeps the value of the fraction and reaches lowest terms |
| `Num.CeilIsCeilDiv` | src/r3_portkit/src/num.rs:30-36 | the branching ceiling of a fraction and the rounding division agree on all fractions |
| `Num.CeilAdjoint` | src/r3_portkit/src/num.rs:40-42 | `ceil_div128(x, d)` is the least `q` with `q * d >= x` |
| `Words.WrappingAdd64IsModular` | src/r3_portkit/src/num/wrapping.rs:184-212 | every representation of a wrapping counter (zero width, full width, power of two, general) performs one addition modulo `MAX + 1`, reports the wrap, and overflows nothing |
| `Tickful.NewIsExact` | src/r3_portkit/src/tickful.rs:86-153 | `TickfulCfg::new` accepts exactly the clocks whose period, rounded up, fits the hard headroom, and the configuration is the exact period |
| `Tickful.TickIsExact` | src/r3_portkit/src/tickful.rs:206-214 | one `tick` takes the exact clock at `n` periods to the exact clock at `n + 1`, through both wrap-arounds |
| `Tickful.TickCountHasNoDrift` | src/r3_portkit/src/tickful.rs:204-219 | after `n` calls of `tick`, for all `n` and all accepted configurations, the count is the floor of `n` periods in microseconds modulo 2^32, and no step exceeds the hard headroom |
| `Tickful.TickfulStateCore.Tick` | src/r3_portkit/src/tickful.rs:206-214 | the in-place update of the two fields is one step of the exact clock |
| `Tickful.TickfulStateCore.TickCount` | src/r3_portkit/src/tickful.rs:217-219 | reads the floor of the exact clock |
| `TicklessCfg.NewIsExact` | src/r3_portkit/src/tickless.rs:111-308 | an accepted configuration holds exactly the rate of the hardware timer, in lowest terms; a resettable timer is stateful, and a forced full hardware period is 2^32 ticks |
| `TicklessCfg.NewErrors` | src/r3_portkit/src/tickless.rs:111-147 | exactly which inputs are rejected as a zero denominator, a zero numerator, a too high frequency, or a rate whose reduced denominator exceeds 64 bits |
| `TicklessClock.MaxTimeoutTooLowIff` | src/r3_portkit/src/tickless.rs:204-297 | a usable rate is rejected for its longest timeout if and only if even one microsecond is unsafe from some reference point |
| `TicklessClock.NewAcceptsIff` | src/r3_portkit/src/tickless.rs:111-308 | exactly which options `TicklessCfg::new` accepts |
| `TicklessCfg.AlgorithmChosen` | src/r3_portkit/src/tickless.rs:178-200 | the stateless algorithm is chosen if and only if the timer is not resettable and some multiple of the two aligned periods fits 32-bit counters that wrap around, over the full hardware period if that is forced; then the longest such periods are used |
| `TicklessCfg.GlobalPeriodIsLeast` | src/r3_portkit/src/tickless.rs:149-198 | the OS period is the least `i > 0` for which `division` divides `i * subticks`, and exactly the hardware period passes over it |
| `TicklessCfg.NewNeverOverflows` | src/r3_portkit/src/tickless.rs:111-308 | no 128-bit intermediate value of `TicklessCfg::new` overflows and no assertion in it can fail |
| `TicklessClock.EarliestTick` | src/r3_portkit/src/tickless.rs:497-544 | the inverse conversion gives the earliest hardware tick at which the exact clock has reached a time, both directions |
| `TicklessClock.StatelessMaxTimeoutIsLargest` | src/r3_portkit/src/tickless.rs:204-231 | a timeout is safe from every reference point if and only if it does not exceed the derived `max_timeout` (stateless) |
| `TicklessClock.StatefulMaxTimeoutIsLargest` | src/r3_portkit/src/tickless.rs:248-291 | a timeout is safe at every subtick offset if and only if it does not exceed the derived `max_timeout` (stateful) |
| `TicklessMeasure.AddModIsModular` | src/r3_portkit/src/tickless.rs:469-477 | `add_mod_u32` is addition modulo `max + 1`, and its second wrapping addition never wraps by accident |
| `TicklessMeasure.SubModIsModular` | src/r3_portkit/src/tickless.rs:481-489 | `sub_mod_u32` is subtraction modulo `max + 1`, except for equal operands, which give a full revolution unless the modulus is 2^32 |
| `TicklessStateless.TickCountIsExact` | src/r3_portkit/src/tickless.rs:664-676 | the reduced conversion equals the unbounded rational clock however often both counts have wrapped |
| `TicklessStateless.TickToHwIsEarliest` | src/r3_portkit/src/tickless.rs:644-661 | the 32-bit inverse conversion is the residue of the earliest hardware tick, without overflow in its product |
| `TicklessStateless.MeasureIsMinimal` | src/r3_portkit/src/tickless.rs:454-495 | from any reference the measured wait is the least one that sees the requested ticks, and nothing revolves until the headroom after it has passed (stateless) |
| `TicklessStateful.TickCountIsExact` | src/r3_portkit/src/tickless.rs:733-748 | from an exact reference the reading is the floor of the exact clock modulo 2^32 and the 128-bit subtraction does not underflow |
| `TicklessStateful.MarkReferenceIsExact` | src/r3_portkit/src/tickless.rs:687-704 | moving the reference loses no fraction of a tick |
| `TicklessStateful.TickToHwIsEarliest` | src/r3_portkit/src/tickless.rs:707-730 | converting a future tick count gives the residue of its earliest hardware tick |
| `TicklessStateful.MeasureIsMinimal` | src/r3_portkit/src/tickless.rs:454-495 | one measurement keeps the state exact, asks for the least wait, and stays readable until the headroom has passed (stateful) |
| `TicklessStateful.RunNeverDrifts` | src/r3_portkit/src/tickless.rs:679-749 | over every run of permitted measurements, of any length, the state stays exact and the reading is the floor of the rational clock modulo 2^32 |
| `TicklessStateful.ResetIsExact` | src/r3_portkit/src/tickless.rs:681-684 | a fresh timer reset at any hardware count starts exact and readable |
| `TicklessStateful.TicklessStateCore.MarkReference` | src/r3_portkit/src/tickless.rs:687-704 | the in-place update of the three reference fields moves the exact reference |
| `TicklessStateful.TicklessStateCore.MarkReferenceAndMeasure` | src/r3_portkit/src/tickless.rs:454-495 | the stateful measurement on the fields is exact and minimal |
| `TimeoutTime.FromNegDuration` | src/r3_kernel/src/timeout.rs:320-328 | negates a non-positive duration exactly, including the least one, and rejects positive ones |
| `TimeoutTime.BeforeIsTrueOrder` | src/r3_kernel/src/timeout.rs:614-626 | inside the window the wrapping comparator is the order of unbounded arrival times |
| `TimeoutTime.DistanceIsExact` | src/r3_kernel/src/timeout.rs:82-92 | the zones fill the 32-bit range: the wrapping distance from the critical point is the true one if and only if the arrival time is in the window |
| `TimeoutTime.DurationsAreExact` | src/r3_kernel/src/timeout.rs:994-1020 | both saturating durations are the true ones cut off at zero |
| `TimeoutTime.PastCriticalPointSortsLast` | src/r3_kernel/src/timeout.rs:87-92 | one step outside the window the comparator is wrong |
| `TimeoutTime.ElapsedIsExact` | src/r3_kernel/src/timeout.rs:805-837 | the measured number of ticks is the true one if and only if at most `MAX_TICK_COUNT` ticks have passed, for every `MAX_TICK_COUNT` |
| `TimeoutRuns.EveryRun` | src/r3_kernel/src/timeout.rs:37-125 | over every run in which the port's calls come at most the hard headroom late and timeouts are linked within the longest duration of the frontier: the frontier is the greatest event time reached and at most the user headroom ahead, every timeout stays in the window, the comparator is the true order, event time is ticks plus accepted adjustments, and only setting the system time changes its offset |
| `TimeoutRuns.TakeKeepsPrompt` | src/r3_kernel/src/timeout.rs:951-981 | after every event, nothing is overdue by more than the user headroom plus the time for which the port already owes a tick, and the owed tick is no later than the earliest timeout |
| `TimeoutRuns.PunctualMayPass` | src/r3_kernel/src/timeout.rs:355-361 | interrupts at most the hard headroom late never leave a timeout past the critical point, neither between ticks nor while callbacks run |
| `TimeoutRuns.TakeAsks` | src/r3_kernel/src/timeout.rs:951-981 | exactly the events that re-pend ask for a tick, and for the one the kernel needs from the new time, or from the time of the mark in `handle_tick` |
| `TimeoutRuns.OwedInTime` | src/r3_kernel/src/timeout.rs:955-969 | over every run the tick that the port owes is at most its longest timeout away |
| `TimeoutRuns.TakeChanges` | src/r3_kernel/src/timeout.rs:1044-1147 | what each event links and unlinks; only a tick or an adjustment marks one |
| `TimeoutRuns.SetTimeIsKept` | src/r3_kernel/src/timeout.rs:675-705 | a system time that is set advances by ticks and accepted adjustments until it is set again |
| `TimeoutRuns.LatenessIsTight` | src/r3_kernel/src/timeout.rs:355-361 | from every state without timeouts or late calls, the hard headroom can be used up to the last tick, and one tick more takes a timeout past the critical point |
| `TimeoutRuns.AlwaysReadableIff` | src/r3_kernel/src/timeout.rs:61-62 | over every run, restarted timers with any stored delay included: the kernel sees the true time left until every timeout, after every backward adjustment that is permitted at any point, if and only if no timeout was linked further ahead than the longest duration after the frontier |
| `TimeoutSpec.StaysReadableIff` | src/r3_kernel/src/timeout.rs:96-106 | the bound of an arrival time by the frontier is exactly what keeps the timeout readable after permitted backward adjustments |
| `TimeoutSpec.PendDelayIsWanted` | src/r3_kernel/src/timeout.rs:951-981 | the delay is the only one that exceeds neither the longest timeout of the port nor the time until any linked timeout and equals one of them |
| `TimeoutSpec.AdjustableIff` | src/r3_kernel/src/timeout.rs:728-775 | an adjustment is accepted if and only if it keeps the frontier within the user headroom, or leaves no timeout overdue by more than it |
| `TimeoutSpec.AdjustKeepsInv` | src/r3_kernel/src/timeout.rs:708-793 | an accepted adjustment moves both clocks by the same amount and leaves no timeout in the hard headroom; a rejected one changes neither |
| `TimeoutSpec.LatenessIsBounded` | src/r3_kernel/src/timeout.rs:928-932 | with the time the callbacks took and a late interrupt, no timeout passes the critical point if and only if both are within the headrooms and the slack the pended delay leaves |
| `TimeoutSpec.CallbackTimeCountsAsLateness` | src/r3_kernel/src/timeout.rs:928-932 | if the earliest timeout is neither overdue nor beyond the longest delay, the time the callbacks took comes out of the permitted lateness tick for tick |
| `TimeoutSpec.MarkCanBePostponed` | src/r3_kernel/src/timeout.rs:1044-1074 | registering and cancelling timeouts re-pends the tick without marking one, so that for every port the measured time becomes wrong although no interrupt is late |
| `TimerRestart.PauseShiftsArrival` | src/r3_kernel/src/timer.rs:195-239 | stopping and restarting a timer that is not overdue shifts its arrival time by the pause, and no other |
| `TimerRestart.RemainingIsBounded` | src/r3_kernel/src/timer.rs:219-239 | a stored delay exceeds the longest duration by at most the user headroom |
| `TimerRestart.StartReadsRightIff` | src/r3_kernel/src/timer.rs:195-215 | for every delay that can be stored: the kernel sees the true time left until the started timer, after every backward adjustment permitted then, if and only if the delay is within the longest duration of the frontier |
| `TimerRestart.OverlongDelayIsDueAtOnce` | src/r3_kernel/src/timer.rs:195-215 | every longer delay that can be stored makes the timer due at once after a backward adjustment that is permitted |
| `TimerRestart.RestartedTimerFiresEarly` | src/r3_kernel/src/timer.rs:219-239 | a permitted run from boot that stores such a delay and ends with a timer seen as due at once |
| `Expiry.FiresInOrder` | src/r3_kernel/src/timeout.rs:886-926 | nothing fires before its time, and timeouts fire in order of arrival time |
| `Expiry.FiresAtPeriods` | src/r3_kernel/src/timer.rs:278-297 | the k-th firing of a timer is `k` periods after its first arrival time whatever the latency, and a one-shot timeout fires at most once |
| `Expiry.FiresExactlyWhenDue` | src/r3_kernel/src/timeout.rs:886-926 | a completed `handle_tick` fires each timeout exactly as often as it is due: `floor((now - arrival) / period) + 1` times for a periodic timer |
| `Expiry.CompletesIffNoZeroPeriod` | src/r3_kernel/src/timeout.rs:886-926 | the expiry loop can complete if and only if no due timer has a zero period |
| `Expiry.FiresKeepsInv` | src/r3_kernel/src/timeout.rs:886-926 | expiry keeps the clock's invariant |
| `TimeoutHeap.Heap.WithinCapacity` | src/r3_kernel/src/cfg.rs:220-222 | the heap never exceeds its static capacity |
| `TimeoutHeap.Heap.TopIsEarliest` | src/r3_core/src/utils/binary_heap/mod.rs:126-159 | the first entry is an earliest timeout |
| `TimeoutHeap.MoveUpKeepsOrder` | src/r3_core/src/utils/binary_heap/mod.rs:126-159 | a step of `sift_up` keeps the order away from the hole |
| `TimeoutHeap.MoveDownKeepsOrder` | src/r3_core/src/utils/binary_heap/mod.rs:167-201 | a step of `sift_down` towards the lesser child keeps the order away from the hole |
| `TimeoutHeap.Heap.SiftUp` | src/r3_core/src/utils/binary_heap/mod.rs:126-159 | restores the heap, keeps entries and back-pointers inverse to each other, and links the same timeouts |
| `TimeoutHeap.Heap.SiftDown` | src/r3_core/src/utils/binary_heap/mod.rs:167-201 | the same, towards the leaves |
| `TimeoutHeap.Heap.HeapPush` | src/r3_core/src/utils/binary_heap/mod.rs:98-110 | links one more timeout, whose back-pointer is the returned position |
| `TimeoutHeap.Heap.HeapRemove` | src/r3_core/src/utils/binary_heap/mod.rs:62-96 | removes the entry at any position, or nothing if the position is out of bounds |
| `TimeoutHeap.Heap.PopFirst` | src/r3_kernel/src/timeout.rs:904-920 | `handle_tick` unlinks the first timeout, whose back-pointer is cleared before the heap is restored |
| `TimeoutHeap.Heap.Remove` | src/r3_kernel/src/timeout.rs:1078-1147 | unlinks a timeout if it is linked; the bounds check rejects it otherwise |
| `Timeouts.TimeoutGlobals.constructor` | src/r3_kernel/src/timeout.rs:642-652 | starts the clock at zero from whatever the port reads first, with the longest delay pended and the timers as configured |
| `Timeouts.TimeoutGlobals.InitTimer` | src/r3_kernel/src/timer.rs:176-191 | links a timer that is configured active with a delay, to arrive that long after boot, and makes it active |
| `Timeouts.TimeoutGlobals.InitTimers` | src/r3_kernel/src/lib.rs:741-743 | does so for every timer |
| `Timeouts.InitAllLinks` | src/r3_kernel/src/lib.rs:741-743 | after that exactly the timers configured active with a delay are linked, each to arrive its delay after boot |
| `Timeouts.TimeoutGlobals.PassTicks` | src/r3_kernel/src/timeout.rs:30-34 | the environment: ticks pass, and only the port's counter changes |
| `Timeouts.TimeoutGlobals.DurationSinceLastTick` | src/r3_kernel/src/timeout.rs:805-837 | the ticks since the last mark, exactly |
| `Timeouts.TimeoutGlobals.MarkTick` | src/r3_kernel/src/timeout.rs:840-863 | changes the fields so that they describe the same clock from a new mark |
| `Timeouts.TimeoutGlobals.CurrentTime` | src/r3_kernel/src/timeout.rs:940-948 | the 32-bit image of the event time |
| `Timeouts.TimeoutGlobals.SystemTime` | src/r3_kernel/src/timeout.rs:660-672 | the 64-bit image of the system time |
| `Timeouts.TimeoutGlobals.SetSystemTime` | src/r3_kernel/src/timeout.rs:675-705 | sets the system time and nothing else |
| `Timeouts.TimeoutGlobals.AdjustTime` | src/r3_kernel/src/timeout.rs:708-793 | accepts exactly the adjustments that keep the frontier and the earliest timeout in the user headroom; marks a tick in every case |
| `Timeouts.TimeoutGlobals.PendNextTick` | src/r3_kernel/src/timeout.rs:951-981 | asks the port for the time until the earliest timeout, at once if it is due, at most the longest timeout |
| `Timeouts.TimeoutGlobals.InsertTimeout` | src/r3_kernel/src/timeout.rs:1023-1074 | links the timeout at its unbounded arrival time, and re-pends the tick outside of `handle_tick` |
| `Timeouts.TimeoutGlobals.RemoveTimeout` | src/r3_kernel/src/timeout.rs:1078-1147 | unlinks the timeout, and re-pends the tick if it was linked |
| `Timeouts.TimeoutGlobals.SetExpirationAfter` | src/r3_kernel/src/timeout.rs:493-509 | the arrival time is the current time plus the duration |
| `Timeouts.TimeoutGlobals.AdjustExpiration` | src/r3_kernel/src/timeout.rs:515-529 | moves the arrival time on by the duration |
| `Timeouts.TimeoutGlobals.RemainingDelay` | src/r3_kernel/src/timeout.rs:532-544 | the true time left, zero if overdue |
| `Timeouts.TimeoutGlobals.StartTimer` | src/r3_kernel/src/timer.rs:195-215 | links the timer after its stored delay, whatever that is, if it is stopped and has one; the invariant survives if and only if the arrival time is within the longest duration of the frontier |
| `Timeouts.TimeoutGlobals.StopTimer` | src/r3_kernel/src/timer.rs:219-239 | unlinks the timer and stores the remaining delay |
| `Timeouts.TimeoutGlobals.SetTimerDelay` | src/r3_kernel/src/timer.rs:243-262 | relinks an active timer after the new delay, or stores the delay |
| `Timeouts.TimeoutGlobals.SetTimerPeriod` | src/r3_kernel/src/timer.rs:266-272 | changes the period only |
| `Timeouts.TimeoutGlobals.Callback` | src/r3_kernel/src/timer.rs:278-297 | re-arms a periodic timer from its own arrival time; leaves a one-shot timer without a delay |
| `Timeouts.TimeoutGlobals.HandleTick` | src/r3_kernel/src/timeout.rs:871-937 | terminates; what it fires is a possible sequence of expiries at the time of the mark; nothing due is left; the tick is pended for the time of the mark, however long the callbacks took |
| `WaitOrder.PositionSplits` | src/r3_kernel/src/wait.rs:381-419 | the insertion position separates the tasks of at least the given priority from those of lower priority |
| `WaitOrder.InsertKeepsSorted` | src/r3_kernel/src/wait.rs:328-377 | linking a new waiter keeps a queue sorted by priority and arrival, or by arrival |
| `WaitOrder.InsertLinksBehind` | src/r3_kernel/src/wait.rs:340-365 | a new waiter goes behind every task of at least its priority and before every one of lower priority; the others keep their order |
| `WaitOrder.RaiseFirstKeepsSorted` | src/r3_kernel/src/mutex.rs:436-451 | the ceiling given to a first waiter while it is still queued keeps the queue sorted |
| `WaitOrder.SortedIsUnique` | src/r3_kernel/src/wait.rs:186-194 | being sorted fixes the whole queue |
| `KernelInv.ReadyExactlyOnce` | src/r3_kernel/src/task/readyqueue.rs:272-290 | a task is ready if and only if it is in the ready queue, once, at its effective priority |
| `KernelInv.WaitsExactlyOnce` | src/r3_kernel/src/wait.rs:207-218 | a task waits in a queue if and only if it is linked there, once |
| `KernelInv.HeldExactlyOwned` | src/r3_kernel/src/mutex.rs:114-125 | the list of held mutexes is exactly the owned mutexes, each once |
| `KernelState.EffectiveIsLeast` | src/r3_kernel/src/mutex.rs:241-258 | the effective priority is the least of the base priority and the ceilings of the held mutexes |
| `KernelLocal.LocalKeeps` | src/r3_kernel/src/wait.rs:765-790 | a step that concerns one task keeps the whole invariant once that task and the lists it moves in are checked |
| `KernelSteps.WakeKeeps` | src/r3_kernel/src/wait.rs:765-790 | completing a wait keeps the invariant, inside any system call |
| `KernelSteps.LockCoreKeeps` | src/r3_kernel/src/mutex.rs:284-306 | giving a mutex to a task keeps it, up to that mutex |
| `KernelSteps.HandOffKeeps` | src/r3_kernel/src/mutex.rs:436-451 | handing a mutex on closes the hole its release opened |
| `KernelSteps.HandOffIs` | src/r3_kernel/src/mutex.rs:436-451 | the mutex becomes free, or its first waiter owns it, is ready at the priority that goes with it, and its lock succeeds; nothing else changes |
| `KernelMoves.BlockKeeps` | src/r3_kernel/src/wait.rs:328-377 | blocking keeps the invariant |
| `KernelMoves.RequeueKeeps` | src/r3_kernel/src/wait.rs:423-454 | repositioning a waiter after a change of its priority keeps the invariant, including the order of the queue |
| `KernelMoves.MoveReadyKeeps` | src/r3_kernel/src/task/readyqueue.rs:345-379 | moving a ready task to another level keeps the invariant |
| `KernelDispatch.CheckRestoresRule` | src/r3_kernel/src/task.rs:506-549 | after the preemption check no preemption is lost, whatever was done before it |
| `KernelDispatch.ChooseKeeps` | src/r3_kernel/src/task.rs:553-648 | the dispatcher keeps the invariant and establishes the dispatch rule |
| `KernelPriority.SetPriorityKeeps` | src/r3_kernel/src/task.rs:793-898 | `set_priority` keeps the invariant in every task state |
| `KernelMutexes.LockKeeps` | src/r3_kernel/src/mutex.rs:309-373 | locking keeps the invariant, whether it succeeds, fails or blocks |
| `KernelMutexes.UnlockKeeps` | src/r3_kernel/src/mutex.rs:376-409 | unlocking keeps it |
| `KernelMutexes.AbandonKeeps` | src/r3_kernel/src/mutex.rs:417-427 | abandoning the detached list of mutexes keeps it, although each hand-off rewrites links |
| `KernelMutexes.ExitKeeps` | src/r3_kernel/src/task.rs:382-427 | exiting keeps it |
| `KernelObjects.GrantKeeps` | src/r3_kernel/src/semaphore.rs:213-226 | the loop of `signal` keeps it, in particular that permits are left only if nobody waits |
| `KernelObjects.PassKeeps` | src/r3_kernel/src/wait.rs:497-543 | after the pass of `set`, every waiter it visited is woken or unsatisfied by the bits it leaves, although bits are cleared along the way |
| `KernelObjects.SetBitsKeeps` | src/r3_kernel/src/event_group.rs:244-288 | `set` leaves no satisfied waiter, with the early return and the single pass it has |
| `KernelRefusals.RefusedIff` | src/r3_kernel/src/state.rs:10-16 | a call is refused for its context if and only if the context does not allow it, and for its arguments if and only if an object does not exist |
| `KernelRefusals.FailureChangesNothing` | src/r3_kernel/src/state.rs:10-16 | a call that fails, for whatever reason, changes nothing |
| `KernelStart.StartsAsConfigured` | src/r3_kernel/src/task.rs:430-445 | before the first task is started every task is dormant at its configured priority, every object has its configured value, and queues and processor are empty |
| `KernelStart.InitTaskStarts` | src/r3_kernel/src/task.rs:430-445 | `init_task` makes a dormant task ready as the last of its level, and nothing else |
| `KernelStart.BootStarts` | src/r3_kernel/src/lib.rs:730-748 | after boot exactly the tasks configured to be active are ready, in configuration order within each level, and the first dispatch is requested |
| `KernelRun.ApplyKeeps` | src/r3_kernel/src/task.rs:506-648 | every system call, interrupt, timeout, dispatch and return from a blocking call keeps the invariant |
| `KernelRun.EveryReachableStateIsGood` | src/r3_kernel/src/lib.rs:729-764 | every state reachable from boot, under every configuration and every sequence of steps, satisfies the invariant |
| `KernelSwitch.DispatchUnderBoost` | src/r3_kernel/src/task.rs:553-568 | while boost is on, a dispatch leaves the running task, the tasks and the ready lists as they are, and the preemption check asks for nothing |
| `KernelSwitch.BoostIsSwitched` | src/r3_kernel/src/state.rs:29-62 | `boost_priority` and `unboost_priority` succeed exactly in a task without and with boost, and change nothing but the boost and, at its end, the request for a dispatch |
| `KernelSwitch.BoostHolds` | src/r3_kernel/src/task.rs:556-568 | over every run in which nobody ends the boost or exits, a task that has turned it on stays the running task, however often the dispatcher runs |
| `KernelSwitch.DispatchIntoGap` | src/r3_kernel/src/task.rs:595-648 | if the running task has given up the processor, the first task of the highest occupied level gets it; with nothing ready the processor is idle |
| `KernelSwitch.RequestedWhenNeeded` | src/r3_kernel/src/task.rs:506-549 | every step but the dispatch leaves a dispatch requested if and only if one was, the running task is outranked by a ready one, or it has blocked or exited |
| `KernelEffects.DispatchRunsHighest` | src/r3_kernel/src/task.rs:553-648 | after a dispatch a task of the highest priority runs, and the processor is idle only if no task can run |
| `KernelEffects.DispatchPreempts` | src/r3_kernel/src/task/readyqueue.rs:293-342 | the running task is preempted if and only if a strictly higher priority is ready; the first task of the highest level takes over and the preempted task goes to the back of its level |
| `KernelEffects.CheckAsksWhenNeeded` | src/r3_kernel/src/task.rs:506-549 | a dispatch is requested if and only if it would change the running task |
| `KernelRebase.SetPriorityReplies` | src/r3_kernel/src/task.rs:793-848 | `set_priority` refuses a priority out of range, then a dormant task, then a priority above the ceiling of a mutex the task holds or awaits, and otherwise succeeds; a refusal changes nothing |
| `KernelRebase.SetPriorityMoves` | src/r3_kernel/src/task.rs:850-898 | the task gets the base priority and the effective priority that goes with it; if that is another one, a ready task goes to the back of its new level, a task waiting by priority behind its equals in its queue, and nothing else moves or changes |
| `Lists.WithoutIsCut` | src/r3_kernel/src/wait.rs:765-790 | unlinking a member of a list leaves the others in their order |
| `KernelServed.SignalConserves` | src/r3_kernel/src/semaphore.rs:200-234 | `signal` fails if and only if the maximum would be exceeded; otherwise the first waiters get a permit each and become ready in queue order, the rest is deposited, and no other object, queue or task changes |
| `KernelEffects.GrantRefinesPolling` | src/r3_kernel/src/semaphore.rs:213-226 | the loop of `signal` is the simple form: deposit the permits, then let each waiter in turn poll |
| `KernelEffects.SetServesWaiters` | src/r3_kernel/src/event_group.rs:244-288 | `set` serves the waiters in queue order with the bits of the group and the added bits together, each with what those before it left, and stores what is left over |
| `KernelServed.SetLeavesRest` | src/r3_kernel/src/event_group.rs:244-288 | exactly the served waiters leave the queue and become ready, in queue order; the others keep their places, and nothing else changes but the bits of the group |
| `KernelService.ServedInTurn` | src/r3_kernel/src/event_group.rs:222-242 | a waiter is served if and only if it is satisfied by the bits that none of the waiters served before it asked to be cleared, and sees exactly those |
| `KernelBits.EachBitIsJoined` | src/r3_kernel/src/event_group.rs:251-256 | after `set`, before anybody is served, a bit is set if and only if it was set or is added |
| `KernelBits.EachBitIsCleared` | src/r3_kernel/src/event_group.rs:51-60 | after `clear` a bit is set if and only if it was set and is not among the removed bits |
| `KernelBits.AllBitsSatisfy` | src/r3_kernel/src/event_group.rs:227-228 | a wait for all bits is satisfied if and only if every requested bit is set |
| `KernelBits.AnyBitSatisfies` | src/r3_kernel/src/event_group.rs:229-231 | a wait for any bit is satisfied if and only if some requested bit is set |
| `KernelServed.ClearOnlyClears` | src/r3_kernel/src/event_group.rs:51-60 | `clear` replaces the bits of the group and wakes nobody |
| `KernelWaits.BlockWaits` | src/r3_kernel/src/wait.rs:328-377 | a blocked task waits inside its call, with its time limit registered if it has one, linked behind all waiters of at least its priority and before those of lower priority, and gives up the processor; nothing else changes |
| `KernelWaits.LockReplies` | src/r3_kernel/src/mutex.rs:309-329 | each reply of `lock` if and only if: the caller owns the mutex; the ceiling forbids its base priority; the mutex is free (obtained, and abandoned if inconsistent); another task owns it, and then the caller waits in the queue of the mutex with its time limit |
| `KernelWaits.TryLockReplies` | src/r3_kernel/src/mutex.rs:332-347 | `try_lock` replies the same, except that it fails where `lock` blocks and then changes nothing |
| `KernelWaits.MarkConsistentReplies` | src/r3_kernel/src/mutex.rs:94-104 | the flag is cleared and nothing else changes; the reply says whether it was set |
| `KernelWaits.PermitReplies` | src/r3_kernel/src/semaphore.rs:134-183 | a permit is taken if there is one; otherwise `poll_one` fails and `wait_one` blocks in the queue of the semaphore; `drain` takes all permits |
| `KernelWaits.WaitBitsReplies` | src/r3_kernel/src/event_group.rs:156-183 | `wait` replies at once if its condition holds, as `poll` does, and otherwise blocks in the queue of the group with its condition |
| `KernelWaits.ParkReplies` | src/r3_kernel/src/task.rs:700-791 | `park` uses up a token if there is one and otherwise blocks; `sleep` always blocks |
| `KernelWaits.UnparkReplies` | src/r3_kernel/src/task.rs:741-772 | `unpark` ends the wait of a parked task without touching its token, refuses a dormant task, and gives any other task a token, reporting an overflow if and only if it had one |
| `KernelWaits.ReturnReplies` | src/r3_kernel/src/wait.rs:328-377 | a returning call reports an interruption or a timeout if and only if its wait ended so, a permit, a park or the bits seen if it was served, and leaves the task in no call and without a timeout |
| `KernelWaits.ServedIsReported` | src/r3_kernel/src/event_group.rs:156-183 | a waiter served by `set` is told, whenever it returns, the bits with which it was served |
| `KernelWaits.ResumeReportsOwnership` | src/r3_kernel/src/mutex.rs:309-373 | a lock that blocked succeeds if and only if its caller owns the mutex when it returns; only timed calls report a timeout |
| `KernelHeirs.UnlockHandsOn` | src/r3_kernel/src/mutex.rs:376-409 | each reply of `unlock` if and only if; on success the mutex goes to the first waiter, whose lock has then succeeded at the priority of the ceiling, the caller keeps its other mutexes, and nothing else changes |
| `KernelHeirs.ExitHandsOn` | src/r3_kernel/src/task.rs:382-427 | an exiting task is dormant and gives up boost and the processor; exactly the mutexes it owned are handed on, latest first; no other task, mutex or queue changes |
| `KernelHeirs.AbandonHandsOn` | src/r3_kernel/src/mutex.rs:417-427 | each abandoned mutex is marked inconsistent and goes to its first waiter, exactly once; the new owners become ready in this order |
| `KernelCalls.ActivateStarts` | src/r3_kernel/src/task.rs:448-478 | `activate` succeeds if and only if the task is dormant; it is then last in the ready list of its initial priority, without a park token, and no other task changes |
| `KernelCalls.InterruptEndsWait` | src/r3_kernel/src/wait.rs:805-836 | only a waiting task can be interrupted; its wait then ends, its queue keeps its order without it, and it cannot be interrupted again before it waits again |
| `KernelCalls.ExpireEndsWait` | src/r3_kernel/src/wait.rs:840-870 | an expiring timeout ends the wait of a task that still waits, is forgotten otherwise, and cannot expire twice |
| `KernelCalls.BitsAreReportedAndConsumed` | src/r3_kernel/src/event_group.rs:222-242 | a satisfied call reports the bits as they were and clears exactly those it asked for, if told to; an unsatisfied one changes nothing |
| `KernelTokens.TokenIsNotLost` | src/r3_kernel/src/task.rs:700-772 | over every run in which the task neither parks nor is activated, a token put for it stays; its next park then returns at once, uses it up and changes nothing else |
| `KernelFinal.ResultIsFinal` | src/r3_kernel/src/wait.rs:765-871 | whatever step is taken, returns of other tasks included, a task inside a blocking call stays inside it until its own return, and its result, once given, does not change: no wait is completed twice and no timeout ends a later wait |
| `KernelFinal.RunKeepsResult` | src/r3_kernel/src/wait.rs:765-871 | the same over every run in which the task does not return |
| `KernelFinal.ReplyWasDecided` | src/r3_kernel/src/wait.rs:301-321 | whenever the task returns, the reply is the one decided when it was woken; only whether a lock reports an abandoned mutex depends on the mutex at the return |
| `KernelTick.OneCheckIsEnough` | src/r3_kernel/src/timeout.rs:886-937 | checking for preemption once after all expiries of a `handle_tick` gives the same state as checking after each |
| `KernelFlags.TimersFollowCalls` | src/r3_kernel/src/wait.rs:228-253 | apart from expiries and returns, a step registers a timeout exactly for a task whose timed call blocks, and unregisters none |
| `TimedWaits.TimedCallRegisters` | src/r3_kernel/src/wait.rs:228-253 | a timed call that blocks links its timeout to arrive when its limit is over, a return unlinks it, and no other call touches the linked timeouts or the time |
| `TimedWaits.TaskFiresIff` | src/r3_kernel/src/timeout.rs:886-925 | a completed `handle_tick` calls back a task if and only if its timeout is linked and its arrival time has been reached, and unlinks no other |
| `TimedWaits.TickEndsDueWaits` | src/r3_kernel/src/wait.rs:848-865 | in every `handle_tick`, whatever it fires and in which order: a task still waiting whose arrival time has been reached is made ready with the result `TimedOut`, one woken meanwhile only loses its timeout, and every other task and its timeout are left alone |
| `TimedWaits.TakeKeepsGood` | src/r3_kernel/src/wait.rs:228-253 | every call, passing of time, adjustment, timer operation and `handle_tick` keeps the kernel's invariant, the clock's invariant, and that a task is registered exactly while its timeout is linked |
| `TimedWaits.EveryRun` | src/r3_kernel/src/wait.rs:836-871 | the same over every run of the kernel and the clock together |
| `TimedWaits.EveryReachableStateIsGood` | src/r3_kernel/src/wait.rs:836-871 | and so in every state reached from boot, for every configuration and first reading of the port |
| `Kernel.System.InitTask` | src/r3_kernel/src/task.rs:430-445 | makes a configured task ready, without a preemption check |
| `Kernel.System.Boot` | src/r3_kernel/src/lib.rs:729-764 | starts the configured tasks in order |
| `Kernel.System.MakeReady` | src/r3_kernel/src/task.rs:484-499 | the list of the task's effective priority, and the bitmap, are updated |
| `Kernel.System.FindSet` | src/r3_kernel/src/task/readyqueue.rs:262-269 | the bitmap gives the highest priority with a ready task |
| `Kernel.System.CheckPreemption` | src/r3_kernel/src/task.rs:506-549 | asks for a dispatch exactly when `KernelOps.CheckPreemption` does |
| `Kernel.System.ChooseNext` | src/r3_kernel/src/task.rs:553-648 | takes the decision of `KernelOps.ChooseNext` and updates states, ready lists and bitmap accordingly |
| `Kernel.System.FindInsertionPosition` | src/r3_kernel/src/wait.rs:381-419 | the cursor loop finds the insertion position |
| `Kernel.System.Enqueue` | src/r3_kernel/src/wait.rs:328-365 | links the task where its queue's order puts it |
| `Kernel.System.Requeue` | src/r3_kernel/src/wait.rs:423-454 | relinks the task in a queue ordered by priority only |
| `Kernel.System.Wake` | src/r3_kernel/src/wait.rs:765-790 | unlinks the task and completes its wait |
| `Kernel.System.Block` | src/r3_kernel/src/wait.rs:328-377 | links the running task and makes it wait |
| `Kernel.System.WakeUpOne` | src/r3_kernel/src/wait.rs:473-491 | wakes the first waiter, if there is one |
| `Kernel.System.WakeUpAllConditional` | src/r3_kernel/src/wait.rs:497-543 | the cursor loop is the abstract pass |
| `Kernel.System.Activate` | src/r3_kernel/src/task.rs:448-478 | updates the fields in place: reply and new state are those of the function in `KernelOps`, and the invariant holds again |
| `Kernel.System.InterruptTask` | src/r3_kernel/src/wait.rs:805-836 | reply and new state are those of the function in `KernelOps`, for every wait result |
| `Kernel.System.Interrupt` | src/r3_kernel/src/task.rs:68-82 | updates the fields in place: reply and new state are those of the function in `KernelOps`, and the invariant holds again |
| `Kernel.System.Park` | src/r3_kernel/src/task.rs:700-738 | updates the fields in place: reply and new state are those of the function in `KernelOps`, and the invariant holds again |
| `Kernel.System.Unpark` | src/r3_kernel/src/task.rs:741-772 | updates the fields in place: reply and new state are those of the function in `KernelOps`, and the invariant holds again |
| `Kernel.System.Sleep` | src/r3_kernel/src/task.rs:776-789 | updates the fields in place: reply and new state are those of the function in `KernelOps`, and the invariant holds again |
| `Kernel.System.ExitCurrentTask` | src/r3_kernel/src/task.rs:382-427 | updates the fields in place: reply and new state are those of the function in `KernelOps`, and the invariant holds again |
| `Kernel.System.EvaluateEffectivePriority` | src/r3_kernel/src/mutex.rs:241-258 | following the links computes the least of the base priority and the ceilings |
| `Kernel.System.HeldMutexesAllow` | src/r3_kernel/src/mutex.rs:218-236 | following the links decides whether all held mutexes admit the new base priority |
| `Kernel.System.SetPriority` | src/r3_kernel/src/task.rs:793-898 | updates the fields in place: reply and new state are those of the function in `KernelOps`, and the invariant holds again |
| `Kernel.System.LockCore` | src/r3_kernel/src/mutex.rs:284-306 | pushes the mutex to the linked list and touches no other link |
| `Kernel.System.UnlockUnchecked` | src/r3_kernel/src/mutex.rs:436-451 | the abstract hand-off; touches no other link |
| `Kernel.System.AbandonHeldMutexes` | src/r3_kernel/src/mutex.rs:417-427 | the walk visits the detached list in order although the links behind it are rewritten |
| `Kernel.System.Lock` | src/r3_kernel/src/mutex.rs:309-373 | updates the fields in place: reply and new state, up to the dispatch, are those of the function in `KernelOps`, and the invariant holds again |
| `Kernel.System.TryLock` | src/r3_kernel/src/mutex.rs:332-347 | updates the fields in place: reply and new state are those of the function in `KernelOps`, and the invariant holds again |
| `Kernel.System.Unlock` | src/r3_kernel/src/mutex.rs:376-409 | updates the fields in place: reply and new state are those of the function in `KernelOps`, and the invariant holds again |
| `Kernel.System.MarkConsistent` | src/r3_kernel/src/mutex.rs:94-104 | updates the fields in place: reply and new state are those of the function in `KernelOps`, and the invariant holds again |
| `Kernel.System.PollOne` | src/r3_kernel/src/semaphore.rs:134-143 | updates the fields in place: reply and new state are those of the function in `KernelOps`, and the invariant holds again |
| `Kernel.System.WaitOne` | src/r3_kernel/src/semaphore.rs:146-183 | updates the fields in place: reply and new state, up to the dispatch, are those of the function in `KernelOps`, and the invariant holds again |
| `Kernel.System.Signal` | src/r3_kernel/src/semaphore.rs:200-234 | updates the fields in place: reply and new state are those of the function in `KernelOps`, and the invariant holds again |
| `Kernel.System.Grant` | src/r3_kernel/src/semaphore.rs:213-226 | the loop is the abstract grant, and reports how many permits found no waiter |
| `Kernel.System.Drain` | src/r3_kernel/src/semaphore.rs:39-45 | updates the fields in place: reply and new state are those of the function in `KernelOps`, and the invariant holds again |
| `Kernel.System.PollBits` | src/r3_kernel/src/event_group.rs:143-154 | updates the fields in place: reply and new state are those of the function in `KernelOps`, and the invariant holds again |
| `Kernel.System.WaitBits` | src/r3_kernel/src/event_group.rs:156-214 | updates the fields in place: reply and new state, up to the dispatch, are those of the function in `KernelOps`, and the invariant holds again |
| `Kernel.System.SetBits` | src/r3_kernel/src/event_group.rs:244-288 | updates the fields in place: reply and new state are those of the function in `KernelOps`, and the invariant holds again |
| `Kernel.System.ClearBits` | src/r3_kernel/src/event_group.rs:51-60 | updates the fields in place: reply and new state are those of the function in `KernelOps`, and the invariant holds again |
| `Kernel.System.BoostPriority` | src/r3_kernel/src/state.rs:29-41 | updates the fields in place: reply and new state are those of the function in `KernelOps`, and the invariant holds again |
| `Kernel.System.UnboostPriority` | src/r3_kernel/src/state.rs:45-60 | updates the fields in place: reply and new state are those of the function in `KernelOps`, and the invariant holds again |
| `Kernel.System.ExpireTimeout` | src/r3_kernel/src/wait.rs:840-870 | reply and new state are those of the function in `KernelOps`: nothing happens to a task that has been unblocked meanwhile |
| `Kernel.System.ExpireTimeouts` | src/r3_kernel/src/timeout.rs:886-937 | all expiries of one `handle_tick` and its single preemption check, on the fields; the same as the expiries one by one |
| `Kernel.System.Resume` | src/r3_kernel/src/wait.rs:301-321 | clears the call, unregisters the timeout and replies what `KernelOps.Resume` replies |

## Left out

- Timeouts.TimeoutGlobals.StartTimer: a run is not followed any further once a timer has been started with a delay that breaks the invariant, because from then on the order of the heap depends on the adjustments made.
- Timeouts.TimeoutGlobals.HandleTick: timer callbacks run no application code, and the wake-ups of waiting tasks that it triggers are the matter of `TimedWaits.TickEndsDueWaits`, which follows the same change of the clock; it requires that no due timer has a zero period, which is exactly when it terminates.
- Timeouts.TimeoutGlobals.PassTicks: the passing of time is an environment step, limited to `MAX_TICK_COUNT` ticks since the last mark and to no timeout passing the critical point, which `TimeoutRuns.PunctualMayPass` derives from timer interrupts that are at most the hard headroom late.
- TimedWaits.TakeKeepsGood: the time limit of a call that is not timed is ignored, and the callbacks of one `handle_tick` are one step of the kernel, in the order in which their timeouts fire.
- KernelRun.ApplyKeeps: a call made from an interrupt handler and a call made by a task are the same step, except where the kernel checks the context; interrupts of CPU Lock sections by unmanaged handlers are not modelled.
- Kernel.System.Enqueue: wait queues and ready lists are sequences; the pointers of the intrusive list and the wait objects on task stacks are not modelled.
- Kernel.System.FindSet: the bitmap is a sequence of flags searched in order; the tree of words of `utils/prio_bitmap.rs` is not modelled.
- Kernel.System.Resume: the call a task is inside of stands for its stack; saving and restoring task contexts belongs to the port.
- Kernel.System.Boot: takes the list of tasks to start; the `PendingActivation` marker that stands for it before boot is not modelled.
- Interrupt lines, startup hooks, hunks and closures.
- `Debug` output, identifier types, pinning, token locks and compile-time evaluation.
- The conversion of the time limit of a blocking call to a `Time32`: a call is timed or not; arrival times are the matter of `Timeouts`.
- Ports, drivers, examples, the test suite and the configuration builder: other than the values a configuration ends up with, they would add no property of the kernel's own logic.
