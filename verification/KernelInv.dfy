/** The invariant of the kernel state. Between two system calls `Inv` holds; inside
    one, parts of it may be open, and a `Hole` names them. */
module KernelInv {
  import opened Wrappers
  import opened Lists
  import opened KernelState
  import opened WaitOrder

  /** `orphans` are mutexes that have left their owner's list and not yet been handed
      on; `task` is a task whose effective priority is out of date; `group` an event
      group whose bits are being updated. */
  datatype Hole = Hole(orphans: seq<nat>, task: Option<nat>, group: Option<nat>)

  const WHOLE: Hole := Hole([], None, None)

  ghost predicate Shape(s: State) {
    && s.cfg.Valid()
    && |s.tasks| == |s.cfg.initial|
    && |s.mutexes| == |s.cfg.ceilings| && |s.values| == |s.cfg.maxValues| && |s.bits| == |s.cfg.bits|
    && |s.queues| == s.cfg.Queues()
    && |s.ready| == s.cfg.priorities
  }

  // ----- one task -----

  /** Which queue a task with a given payload waits in. */
  predicate QueueFits(cfg: Config, payload: Payload, queue: Option<nat>) {
    match payload
    case Mutex(m) => m < |cfg.ceilings| && queue == Some(m)
    case Semaphore => queue.Some? && cfg.SemQueue(0) <= queue.value < cfg.GroupQueue(0)
    case EventBits(_, _, _) => queue.Some? && cfg.GroupQueue(0) <= queue.value < cfg.Queues()
    case Park => queue == None
    case Sleep => queue == None
  }

  ghost predicate HeldOk(mutexes: seq<MutexCb>, t: nat, held: seq<nat>) {
    NoDup(held) && forall m :: m in held ==> m < |mutexes| && mutexes[m].owner == Some(t)
  }

  ghost predicate PrioritiesOk(cfg: Config, k: Task) {
    && k.base < cfg.priorities && k.eff < cfg.priorities
    && (forall m :: m in k.held ==> Admits(cfg, m, k.base))
    && (k.wait.Some? && k.wait.value.payload.Mutex? ==> Admits(cfg, k.wait.value.payload.m, k.base))
  }

  ghost predicate UpToDate(cfg: Config, k: Task) {
    k.st.Dormant? || k.eff == EffectivePriority(cfg, k.base, k.held)
  }

  /** Waiting means having a wait object; a dormant task holds and awaits nothing. */
  ghost predicate LifeOk(k: Task) {
    && (k.st == Waiting <==> k.wait.Some?)
    && (k.st == Dormant ==> k.held == [] && k.call == NoCall)
  }

  /** A result is right for the call it completes: in particular `lock` is told that
      it succeeded if and only if the task owns the mutex. */
  ghost predicate ResultFits(mutexes: seq<MutexCb>, t: nat, payload: Payload, timed: bool, result: WaitResult) {
    && (result == TimedOut ==> timed)
    && (payload.Sleep? ==> result != WaitOk)
    && (payload.Mutex? ==> (result == WaitOk <==> At(mutexes, payload.m, FREE).owner == Some(t)))
  }

  ghost predicate CallOk(mutexes: seq<MutexCb>, t: nat, k: Task) {
    && (k.wait.Some? ==> k.call.Inside? && k.call.payload == k.wait.value.payload)
    && (k.wait.None? && k.call.Inside? ==> ResultFits(mutexes, t, k.call.payload, k.call.timed, k.result))
    && (k.timer ==> k.call.Inside? && k.call.timed)
  }

  ghost predicate PlacedOk(s: State, t: nat, k: Task) {
    && (k.wait.Some? ==> k.wait.value.since < s.clock && QueueFits(s.cfg, k.wait.value.payload, k.wait.value.queue))
    && (k.wait.Some? && k.wait.value.queue.Some? ==> t in s.Queue(k.wait.value.queue.value))
    && (k.st == Ready ==> t in s.ReadyAt(k.eff))
    && (k.st == Running ==> s.running == Some(t))
  }

  ghost predicate TaskOk(s: State, t: nat, k: Task) {
    HeldOk(s.mutexes, t, k.held) && PrioritiesOk(s.cfg, k) && LifeOk(k) && CallOk(s.mutexes, t, k) && PlacedOk(s, t, k)
  }

  ghost predicate Tasks(s: State, h: Hole) {
    forall t :: 0 <= t < |s.tasks| ==> TaskOk(s, t, s.tasks[t]) && (h.task != Some(t) ==> UpToDate(s.cfg, s.tasks[t]))
  }

  // ----- queues and objects -----

  /** The members of a wait queue wait there, in order. */
  ghost predicate QueueOk(s: State, q: nat) {
    && NoDup(s.Queue(q)) && Sorted(s.cfg.Order(q), s.tasks, s.Queue(q))
    && forall t :: t in s.Queue(q) ==> t < |s.tasks| && s.tasks[t].wait.Some? && s.tasks[t].wait.value.queue == Some(q)
  }

  ghost predicate Queues(s: State) {
    forall q :: 0 <= q < |s.queues| ==> QueueOk(s, q)
  }

  ghost predicate LevelOk(s: State, p: nat) {
    NoDup(s.ReadyAt(p)) && forall t :: t in s.ReadyAt(p) ==>
      t < |s.tasks| && s.tasks[t].st == Ready && s.tasks[t].eff == p
  }

  ghost predicate Levels(s: State) {
    forall p :: 0 <= p < |s.ready| ==> LevelOk(s, p)
  }

  /** A mutex without an owner has no waiters; an owner has it in its list, and does
      not wait for it. */
  ghost predicate MutexOk(s: State, m: nat) {
    match s.Mutex(m).owner
    case None => s.Queue(m) == []
    case Some(t) => t < |s.tasks| && m in s.tasks[t].held && t !in s.Queue(m)
  }

  ghost predicate Mutexes(s: State, h: Hole) {
    forall m :: 0 <= m < |s.mutexes| && m !in h.orphans ==> MutexOk(s, m)
  }

  /** Permits are left only if nobody waits for one. */
  ghost predicate SemOk(s: State, i: nat) {
    s.Value(i) <= At(s.cfg.maxValues, i, 0) && (s.Value(i) > 0 ==> s.Queue(s.cfg.SemQueue(i)) == [])
  }

  ghost predicate Sems(s: State) {
    forall i :: 0 <= i < |s.values| ==> SemOk(s, i)
  }

  /** The bits satisfy no waiter. */
  ghost predicate GroupOk(s: State, g: nat) {
    forall t :: t in s.Queue(s.cfg.GroupQueue(g)) ==>
      s.Task(t).wait.Some? && !Satisfied(s.Bits(g), s.Task(t).wait.value.payload)
  }

  ghost predicate Groups(s: State, h: Hole) {
    forall g :: 0 <= g < |s.bits| && h.group != Some(g) ==> GroupOk(s, g)
  }

  ghost predicate Runs(s: State) {
    && (s.running.Some? ==> s.running.value < |s.tasks| && s.Task(s.running.value).st != Dormant)
    && (s.running.Some? && s.Task(s.running.value).st != Running ==> s.pending)
    && (s.boost ==> s.running.Some? && s.Task(s.running.value).st == Running)
  }

  /** The invariant with a hole. */
  ghost predicate InvX(s: State, h: Hole) {
    && Shape(s) && Tasks(s, h) && Queues(s) && Levels(s)
    && Mutexes(s, h) && Sems(s) && Groups(s, h) && Runs(s)
  }

  // ----- the dispatch rule -----

  /** No ready task has a priority above level `limit`. */
  ghost predicate NoneReadyBelow(s: State, limit: nat) {
    forall p :: 0 <= p < limit && p < |s.ready| ==> s.ready[p] == []
  }

  /** Unless preemption is held off or a dispatch is pending, the running task has the
      highest priority, and without a running task nothing is ready. */
  ghost predicate NoLostPreemption(s: State) {
    s.boost || s.pending ||
    match s.running
    case None => NoneReadyBelow(s, |s.ready|)
    case Some(t) => s.Task(t).st == Running && NoneReadyBelow(s, s.Task(t).eff)
  }

  ghost predicate Inv(s: State) {
    InvX(s, WHOLE) && NoLostPreemption(s)
  }

  // ----- what the invariant says -----

  /** A ready task is found exactly once, at its own priority, and nothing else is in
      the ready queue. */
  lemma ReadyExactlyOnce(s: State, t: nat, p: nat)
    requires InvX(s, WHOLE) && p < |s.ready|
    ensures t in s.ready[p] <==> t < |s.tasks| && s.tasks[t].st == Ready && s.tasks[t].eff == p
    ensures NoDup(s.ready[p])
  {
    assert LevelOk(s, p);
    if t < |s.tasks| { assert TaskOk(s, t, s.tasks[t]); }
  }

  /** A waiting task is found exactly once, in its own queue, and nothing else is in
      any wait queue. */
  lemma WaitsExactlyOnce(s: State, t: nat, q: nat)
    requires InvX(s, WHOLE) && q < |s.queues|
    ensures t in s.queues[q] <==>
            t < |s.tasks| && s.tasks[t].st == Waiting && s.tasks[t].wait.Some? && s.tasks[t].wait.value.queue == Some(q)
    ensures NoDup(s.queues[q])
  {
    assert QueueOk(s, q);
    if t < |s.tasks| { assert TaskOk(s, t, s.tasks[t]); }
  }

  /** The held lists are exactly the owned mutexes, each once. */
  lemma HeldExactlyOwned(s: State, t: nat, m: nat)
    requires InvX(s, WHOLE) && t < |s.tasks| && m < |s.mutexes|
    ensures m in s.tasks[t].held <==> s.mutexes[m].owner == Some(t)
    ensures NoDup(s.tasks[t].held)
  {
    assert MutexOk(s, m);
    assert TaskOk(s, t, s.tasks[t]);
  }
}
