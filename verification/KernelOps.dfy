/** The system calls as functions on the kernel state (`task.rs`, `wait.rs`,
    `mutex.rs`, `semaphore.rs`, `event_group.rs`, `state.rs`). Each is one CPU Lock
    section; a blocking call is split into the part up to the dispatch and the part
    after it, `Resume`. */
module KernelOps {
  import opened Wrappers
  import opened Lists
  import opened KernelState
  import opened WaitOrder

  datatype Reply =
    | Done
    | Blocks
    | OldBits(bits: bv32)
    | BadId
    | BadContext
    | BadObjectState
    | BadParam
    | QueueOverflow
    | WouldDeadlock
    | NotOwner
    | Abandoned
    | IsInterrupted
    | Expired

  datatype Outcome = Outcome(state: State, reply: Reply)

  // ----- waking and blocking -----

  /** `make_ready`: appends the task to the ready list of its effective priority. */
  function MakeReady(s: State, t: nat): (s': State) {
    var k := s.Task(t);
    s.WithTask(t, k.(st := Ready)).WithReady(k.eff, s.ReadyAt(k.eff) + [t])
  }

  /** Unlinks a waiting task from its wait queue, if it is in one. */
  function Unqueue(s: State, t: nat): (s': State) {
    var wait := s.Task(t).wait;
    if wait.Some? && wait.value.queue.Some? then
      s.WithQueue(wait.value.queue.value, Without(s.Queue(wait.value.queue.value), t))
    else s
  }

  /** `complete_wait` of a task that has been unlinked. */
  function Wake(s: State, t: nat, result: WaitResult): (s': State) {
    MakeReady(Unqueue(s, t).WithTask(t, s.Task(t).(wait := None, result := result)), t)
  }

  /** Links `t` in queue `q`. */
  function Enqueue(s: State, q: nat, t: nat): (s': State) {
    s.WithQueue(q, InsertAt(s.Queue(q), Place(s.cfg.Order(q), s.tasks, s.Queue(q), s.Task(t).eff), t))
  }

  /** `wait_inner`, `wait_no_queue_inner` and the start of `wait_until_woken_up`: the
      running task waits, and gives up the processor. */
  function Block(s: State, t: nat, queue: Option<nat>, payload: Payload, timed: bool): (s': State) {
    var k := s.Task(t).(st := Waiting, wait := Some(Wait(queue, payload, s.clock)),
                         call := Inside(payload, timed), timer := timed);
    var s1 := s.WithTask(t, k).(clock := s.clock + 1, pending := true);
    if queue.Some? then Enqueue(s1, queue.value, t) else s1
  }

  // ----- the dispatcher -----

  /** `find_set` on the ready bitmap: the highest priority with a ready task, or the
      number of priorities. */
  function FirstReady(ready: seq<seq<nat>>): (p: nat)
    ensures p <= |ready|
    ensures forall i :: 0 <= i < p ==> ready[i] == []
    ensures p < |ready| ==> ready[p] != []
  {
    if ready == [] || ready[0] != [] then 0 else 1 + FirstReady(ready[1..])
  }

  /** The priority of the running task, if it still can run. */
  function CurrentPriority(s: State): (p: Option<nat>) {
    if s.running.Some? && s.Task(s.running.value).st == Running then Some(s.Task(s.running.value).eff) else None
  }

  /** `unlock_cpu_and_check_preemption`. */
  function CheckPreemption(s: State): (s': State) {
    var next := FirstReady(s.ready);
    if s.boost then s
    else if next < |s.ready| && (CurrentPriority(s).None? || next < CurrentPriority(s).value) then s.(pending := true)
    else s
  }

  /** `choose_next_running_task`. */
  function ChooseNext(s: State): (s': State) {
    var next := FirstReady(s.ready);
    var s1 := s.(pending := false);
    if s.boost then s1
    else if CurrentPriority(s).Some? && CurrentPriority(s).value <= next then s1
    else if next < |s.ready| then
      var t := s.ready[next][0];
      SwitchTo(s1.WithReady(next, s.ready[next][1..]).WithTask(t, s.Task(t).(st := Running)), t)
    else s1.(running := None)
  }

  /** The previous running task, if it is another one and was preempted, goes to the
      back of its ready list. */
  function SwitchTo(s: State, t: nat): (s': State) {
    if s.running.Some? && s.running.value != t && s.Task(s.running.value).st == Running then
      MakeReady(s, s.running.value).(running := Some(t))
    else s.(running := Some(t))
  }

  /** Application code of a task is executing. */
  predicate InTask(s: State) {
    s.running.Some? && s.running.value < |s.tasks| && s.Task(s.running.value).st == Running
      && s.Task(s.running.value).call == NoCall
  }

  /** `expect_waitable_context`. */
  predicate Waitable(s: State) {
    InTask(s) && !s.boost
  }

  // ----- tasks -----

  /** `activate`. */
  function Activate(s: State, t: nat): (o: Outcome) {
    var k := s.Task(t);
    if t >= |s.tasks| then Outcome(s, BadId)
    else if k.st != Dormant then Outcome(s, QueueOverflow)
    else
      var initial := At(s.cfg.initial, t, 0);
      var s1 := s.WithTask(t, k.(parkToken := false, base := initial, eff := initial));
      Outcome(CheckPreemption(MakeReady(s1, t)), Done)
  }

  /** `interrupt_task` followed by the preemption check. */
  function Interrupt(s: State, t: nat, result: WaitResult): (o: Outcome) {
    if t >= |s.tasks| then Outcome(s, BadId)
    else if s.Task(t).st != Waiting then Outcome(s, BadObjectState)
    else Outcome(CheckPreemption(Wake(s, t, result)), Done)
  }

  /** `park_current_task`. */
  function ParkCurrent(s: State, timed: bool): (o: Outcome) {
    if !Waitable(s) then Outcome(s, BadContext)
    else
      var t := s.running.value;
      if s.Task(t).parkToken then Outcome(s.WithTask(t, s.Task(t).(parkToken := false)), Done)
      else Outcome(Block(s, t, None, Park, timed), Blocks)
  }

  predicate IsParked(k: Task) {
    k.st == Waiting && k.wait.Some? && k.wait.value.payload.Park?
  }

  /** `unpark_exact`. */
  function Unpark(s: State, t: nat): (o: Outcome) {
    var k := s.Task(t);
    if t >= |s.tasks| then Outcome(s, BadId)
    else if k.st == Dormant then Outcome(s, BadObjectState)
    else if IsParked(k) then Outcome(CheckPreemption(Wake(s, t, WaitOk)), Done)
    else Outcome(s.WithTask(t, k.(parkToken := true)), if k.parkToken then QueueOverflow else Done)
  }

  /** `put_current_task_on_sleep_timeout`. */
  function SleepCurrent(s: State): (o: Outcome) {
    if !Waitable(s) then Outcome(s, BadContext) else Outcome(Block(s, s.running.value, None, Sleep, true), Blocks)
  }

  /** `exit_current_task`, up to the dispatch. */
  function Exit(s: State): (o: Outcome) {
    if !InTask(s) then Outcome(s, BadContext)
    else
      var t := s.running.value;
      var held := s.Task(t).held;
      var s1 := AbandonAll(s.(boost := false).WithTask(t, s.Task(t).(held := [])), held);
      Outcome(s1.WithTask(t, s1.Task(t).(st := Dormant)).(running := None, pending := true), Done)
  }

  /** `set_task_base_priority`. */
  function SetPriority(s: State, t: nat, base: nat): (o: Outcome) {
    var k := s.Task(t);
    if t >= |s.tasks| then Outcome(s, BadId)
    else if base >= s.cfg.priorities then Outcome(s, BadParam)
    else if k.st == Dormant then Outcome(s, BadObjectState)
    else if k.base == base then Outcome(s, Done)
    else if base < k.base && !MayRaise(s.cfg, k, base) then Outcome(s, BadParam)
    else Outcome(Reprioritize(s, t, base, EffectivePriority(s.cfg, base, k.held)), Done)
  }

  /** No mutex that the task holds or awaits forbids the new base priority. */
  predicate MayRaise(cfg: Config, k: Task, base: nat) {
    && (k.wait.Some? && k.wait.value.payload.Mutex? ==> Admits(cfg, k.wait.value.payload.m, base))
    && forall m :: m in k.held ==> Admits(cfg, m, base)
  }

  function Reprioritize(s: State, t: nat, base: nat, eff: nat): (s': State) {
    var k := s.Task(t);
    var s1 := s.WithTask(t, k.(base := base, eff := eff));
    if k.eff == eff then s1
    else match k.st
      case Ready => CheckPreemption(MoveReady(s1, t, k.eff))
      case Waiting => Requeue(s1, t)
      case _ => CheckPreemption(s1)
  }

  /** `reorder_task`. */
  function MoveReady(s: State, t: nat, from: nat): (s': State) {
    var s1 := s.WithReady(from, Without(s.ReadyAt(from), t));
    s1.WithReady(s.Task(t).eff, s1.ReadyAt(s.Task(t).eff) + [t])
  }

  /** `reorder_wait_of_task`: in a queue ordered by priority the task counts as having
      just arrived among its equals. */
  function Requeue(s: State, t: nat): (s': State) {
    var k := s.Task(t);
    if k.wait.Some? && k.wait.value.queue.Some? && s.cfg.Order(k.wait.value.queue.value).TaskPriority? then
      var s1 := Unqueue(s, t).WithTask(t, k.(wait := Some(k.wait.value.(since := s.clock)))).(clock := s.clock + 1);
      Enqueue(s1, k.wait.value.queue.value, t)
    else s
  }

  // ----- mutexes -----

  /** `lock_core`. */
  function LockCore(s: State, m: nat, t: nat): (s': State) {
    var k := s.Task(t);
    s.WithMutex(m, s.Mutex(m).(owner := Some(t)))
     .WithTask(t, k.(held := [m] + k.held, eff := Lower(k.eff, s.cfg.Ceiling(m))))
  }

  /** `unlock_mutex_unchecked`: hands the mutex to the first waiter, if there is one. */
  function HandOff(s: State, m: nat): (s': State) {
    if s.Queue(m) == [] then s.WithMutex(m, s.Mutex(m).(owner := None))
    else
      var next := s.Queue(m)[0];
      Wake(LockCore(s, m, next), next, WaitOk)
  }

  /** `abandon_held_mutexes`, for the mutexes that were in the list. */
  function AbandonAll(s: State, held: seq<nat>): (s': State)
    decreases |held|
  {
    if held == [] then s
    else AbandonAll(HandOff(s.WithMutex(held[0], s.Mutex(held[0]).(inconsistent := true)), held[0]), held[1..])
  }

  /** `precheck_and_get_running_task`. */
  function Precheck(s: State, m: nat, t: nat): (e: Option<Reply>) {
    if s.Mutex(m).owner == Some(t) then Some(WouldDeadlock)
    else if !Admits(s.cfg, m, s.Task(t).base) then Some(BadParam)
    else None
  }

  /** What a successful lock reports. */
  function LockReply(s: State, m: nat): (r: Reply) {
    if s.Mutex(m).inconsistent then Abandoned else Done
  }

  /** `lock_mutex` and `lock_mutex_timeout`. */
  function Lock(s: State, m: nat, timed: bool): (o: Outcome) {
    if !Waitable(s) then Outcome(s, BadContext)
    else if m >= |s.mutexes| then Outcome(s, BadId)
    else if Precheck(s, m, s.running.value).Some? then Outcome(s, Precheck(s, m, s.running.value).value)
    else if s.Mutex(m).owner.None? then Outcome(LockCore(s, m, s.running.value), LockReply(s, m))
    else Outcome(Block(s, s.running.value, Some(m), Payload.Mutex(m), timed), Blocks)
  }

  /** `try_lock_mutex`. */
  function TryLock(s: State, m: nat): (o: Outcome) {
    if !InTask(s) then Outcome(s, BadContext)
    else if m >= |s.mutexes| then Outcome(s, BadId)
    else if Precheck(s, m, s.running.value).Some? then Outcome(s, Precheck(s, m, s.running.value).value)
    else if s.Mutex(m).owner.None? then Outcome(LockCore(s, m, s.running.value), LockReply(s, m))
    else Outcome(s, Expired)
  }

  /** `unlock_mutex`: only the mutex locked last may be unlocked. */
  function Unlock(s: State, m: nat): (o: Outcome) {
    if !Waitable(s) then Outcome(s, BadContext)
    else if m >= |s.mutexes| then Outcome(s, BadId)
    else
      var t := s.running.value;
      var k := s.Task(t);
      if s.Mutex(m).owner != Some(t) then Outcome(s, NotOwner)
      else if k.held == [] || k.held[0] != m then Outcome(s, BadObjectState)
      else
        var rest := k.held[1..];
        var s1 := s.WithTask(t, k.(held := rest, eff := EffectivePriority(s.cfg, k.base, rest)));
        Outcome(CheckPreemption(HandOff(s1, m)), Done)
  }

  /** `raw_mutex_mark_consistent`. */
  function MarkConsistent(s: State, m: nat): (o: Outcome) {
    if m >= |s.mutexes| then Outcome(s, BadId)
    else Outcome(s.WithMutex(m, s.Mutex(m).(inconsistent := false)),
                 if s.Mutex(m).inconsistent then Done else BadObjectState)
  }

  // ----- semaphores -----

  /** `poll_one`. */
  function PollOne(s: State, i: nat): (o: Outcome) {
    if i >= |s.values| then Outcome(s, BadId)
    else if s.Value(i) > 0 then Outcome(s.WithValue(i, s.Value(i) - 1), Done)
    else Outcome(s, Expired)
  }

  /** `wait_one` and `wait_one_timeout`. */
  function WaitOne(s: State, i: nat, timed: bool): (o: Outcome) {
    if !Waitable(s) then Outcome(s, BadContext)
    else if i >= |s.values| then Outcome(s, BadId)
    else if s.Value(i) > 0 then Outcome(s.WithValue(i, s.Value(i) - 1), Done)
    else Outcome(Block(s, s.running.value, Some(s.cfg.SemQueue(i)), Semaphore, timed), Blocks)
  }

  /** The loop of `signal`: one permit for each waiter, the rest for the semaphore. */
  function Grant(s: State, i: nat, value: nat, count: nat): (s': State)
    decreases count
  {
    var w := s.Queue(s.cfg.SemQueue(i));
    if count == 0 then s
    else if w == [] then s.WithValue(i, value + count)
    else Grant(Wake(s, w[0], WaitOk), i, value, count - 1)
  }

  /** `signal`. */
  function Signal(s: State, i: nat, count: nat): (o: Outcome) {
    var value := s.Value(i);
    if i >= |s.values| then Outcome(s, BadId)
    else if At(s.cfg.maxValues, i, 0) - value < count then Outcome(s, QueueOverflow)
    else
      var s1 := Grant(s, i, value, count);
      Outcome(if count > 0 && s.Queue(s.cfg.SemQueue(i)) != [] then CheckPreemption(s1) else s1, Done)
  }

  /** `raw_semaphore_drain`. */
  function Drain(s: State, i: nat): (o: Outcome) {
    if i >= |s.values| then Outcome(s, BadId) else Outcome(s.WithValue(i, 0), Done)
  }

  // ----- event groups -----

  /** The bits left by a satisfied waiter. */
  function Consume(bits: bv32, payload: Payload): (b: bv32) {
    if payload.EventBits? && payload.clear then Cleared(bits, payload.bits) else bits
  }

  /** `poll` and the start of `wait`. */
  function PollBits(s: State, g: nat, payload: Payload): (o: Outcome) {
    if g >= |s.bits| || !payload.EventBits? then Outcome(s, BadId)
    else if Satisfied(s.Bits(g), payload) then Outcome(s.WithBits(g, Consume(s.Bits(g), payload)), OldBits(s.Bits(g)))
    else Outcome(s, Expired)
  }

  /** `wait` and `wait_timeout`. */
  function WaitBits(s: State, g: nat, payload: Payload, timed: bool): (o: Outcome) {
    if !Waitable(s) then Outcome(s, BadContext)
    else if g >= |s.bits| || !payload.EventBits? then Outcome(s, BadId)
    else if Satisfied(s.Bits(g), payload) then PollBits(s, g, payload)
    else Outcome(Block(s, s.running.value, Some(s.cfg.GroupQueue(g)), payload, timed), Blocks)
  }

  /** The result of the pass over the waiters. */
  datatype Passed = Passed(state: State, bits: bv32, woke: bool)

  /** The waiter `t` as `wake_up_all_conditional` leaves it when its condition holds:
      the bits it saw are stored for it. */
  function WakeWithBits(s: State, t: nat, bits: bv32): (s': State) {
    Wake(s.WithTask(t, s.Task(t).(origBits := bits)), t, WaitOk)
  }

  /** `wake_up_all_conditional`, over the waiters that were queued: each in turn is
      woken if the bits, as left by those before it, satisfy it. */
  function Pass(s: State, waiters: seq<nat>, bits: bv32, woke: bool): (r: Passed)
    decreases |waiters|
  {
    if waiters == [] then Passed(s, bits, woke)
    else
      var t := waiters[0];
      var wait := s.Task(t).wait;
      if wait.Some? && Satisfied(bits, wait.value.payload) then
        Pass(WakeWithBits(s, t, bits), waiters[1..], Consume(bits, wait.value.payload), true)
      else Pass(s, waiters[1..], bits, woke)
  }

  /** `set`. */
  function SetBits(s: State, g: nat, added: bv32): (o: Outcome) {
    var bits := s.Bits(g);
    if g >= |s.bits| then Outcome(s, BadId)
    else if Joined(bits, added) == bits then Outcome(s, Done)
    else
      var p := Pass(s, s.Queue(s.cfg.GroupQueue(g)), Joined(bits, added), false);
      var s1 := p.state.WithBits(g, p.bits);
      Outcome(if p.woke then CheckPreemption(s1) else s1, Done)
  }

  /** `raw_event_group_clear`. */
  function ClearBits(s: State, g: nat, removed: bv32): (o: Outcome) {
    if g >= |s.bits| then Outcome(s, BadId) else Outcome(s.WithBits(g, Cleared(s.Bits(g), removed)), Done)
  }

  // ----- the rest -----

  /** `boost_priority`. */
  function Boost(s: State): (o: Outcome) {
    if !Waitable(s) then Outcome(s, BadContext) else Outcome(s.(boost := true), Done)
  }

  /** `unboost_priority`. */
  function Unboost(s: State): (o: Outcome) {
    if !InTask(s) || !s.boost then Outcome(s, BadContext) else Outcome(CheckPreemption(s.(boost := false)), Done)
  }

  /** The timeout of task `t` expires (`interrupt_task_by_timeout`, run by
      `handle_tick`): nothing happens if it has been unblocked meanwhile. */
  function Expire(s: State, t: nat): (o: Outcome) {
    if !s.Task(t).timer then Outcome(s, BadObjectState)
    else
      var s1 := s.WithTask(t, s.Task(t).(timer := false));
      Outcome(CheckPreemption(if s.Task(t).st == Waiting then Wake(s1, t, TimedOut) else s1), Done)
  }

  /** The end of a blocking call: the timeout is unregistered and the wait result
      becomes the reply of the call. */
  function Resume(s: State): (o: Outcome) {
    if !(s.running.Some? && s.Task(s.running.value).st == Running && s.Task(s.running.value).call.Inside?) then
      Outcome(s, BadContext)
    else
      var t := s.running.value;
      Outcome(s.WithTask(t, s.Task(t).(call := NoCall, timer := false)), CallReply(s, s.Task(t)))
  }

  function CallReply(s: State, k: Task): (r: Reply) {
    match k.result
    case WasInterrupted => IsInterrupted
    case TimedOut => if k.call.Inside? && k.call.payload.Sleep? then Done else Expired
    case WaitOk =>
      if k.call.Inside? && k.call.payload.Mutex? then LockReply(s, k.call.payload.m)
      else if k.call.Inside? && k.call.payload.EventBits? then OldBits(k.origBits)
      else Done
  }

  // ----- boot -----

  function InitialState(cfg: Config): (s: State) {
    State(cfg,
          seq(|cfg.initial|, t requires 0 <= t < |cfg.initial| =>
            IDLE_TASK.(base := cfg.initial[t], eff := cfg.initial[t])),
          seq(|cfg.ceilings|, _ => MutexCb(None, false)),
          cfg.values,
          cfg.bits,
          seq(cfg.Queues(), _ => []),
          seq(cfg.priorities, _ => []),
          None, false, false, 0)
  }

  /** `init_task` of a task that is configured to be active at startup. */
  function InitTask(s: State, t: nat): (s': State) {
    if t < |s.tasks| && s.Task(t).st == Dormant then MakeReady(s, t) else s
  }

  /** `init_task` for each of these tasks, and the request for the first dispatch. */
  function Boot(s: State, active: seq<nat>): (s': State)
    decreases |active|
  {
    if active == [] then s.(pending := true) else Boot(InitTask(s, active[0]), active[1..])
  }
}
