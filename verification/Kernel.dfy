/** The kernel with its control blocks updated in place. Each operation is shown to be
    the function of `KernelOps` on the abstract state `s`. */
module Kernel {
  import opened Wrappers
  import opened Lists
  import opened KernelState
  import opened WaitOrder
  import opened KernelInv
  import opened KernelLocal
  import opened KernelSteps
  import opened KernelDispatch
  import opened KernelMutexes
  import opened KernelObjects
  import opened KernelCb
  import Ops = KernelOps
  import opened KernelTasks
  import opened KernelRun
  import opened KernelPriority
  import Expiring = KernelTick

  type Reply = Ops.Reply

  class System {
    const cfg: Config
    var tasks: seq<TaskCb>
    var mutexes: seq<MutexNode>
    var values: seq<nat>
    var bits: seq<bv32>
    var queues: seq<seq<nat>>
    var ready: seq<seq<nat>>
    /** The ready bitmap: which lists of `ready` are occupied. */
    var bitmap: seq<bool>
    var running: Option<nat>
    var boost: bool
    var pending: bool
    ghost var s: State

    /** The fields represent the abstract state. */
    ghost predicate Rep()
      reads this
    {
      && s.cfg == cfg && TasksRep(tasks, s) && MutexesRep(mutexes, s) && ChainsRep(mutexes, s)
      && values == s.values && bits == s.bits && queues == s.queues && ready == s.ready && BitmapRep(bitmap, ready)
      && running == s.running && boost == s.boost && pending == s.pending
    }

    ghost predicate Valid()
      reads this
    {
      Rep() && Inv(s)
    }

    constructor (cfg: Config)
      requires cfg.Valid()
      ensures this.cfg == cfg && Rep() && s == Ops.InitialState(cfg)
    {
      this.cfg := cfg;
      tasks := seq(|cfg.initial|, t requires 0 <= t < |cfg.initial| =>
        CbOf(IDLE_TASK.(base := cfg.initial[t], eff := cfg.initial[t])));
      mutexes := seq(|cfg.ceilings|, _ => MutexNode(None, false, None));
      values := cfg.values;
      bits := cfg.bits;
      queues := seq(cfg.Queues(), _ => []);
      ready := seq(cfg.priorities, _ => []);
      bitmap := seq(cfg.priorities, _ => false);
      running := None;
      boost := false;
      pending := false;
      s := Ops.InitialState(cfg);
    }

    /** The part of `boot` that starts the tasks configured to be active
        (`init_task`), up to the first dispatch. */
    method Boot(active: seq<nat>)
      requires cfg.Valid() && Rep() && s == Ops.InitialState(cfg)
      modifies this`tasks, this`ready, this`bitmap, this`pending, this`s
      ensures Valid() && s == Ops.Boot(old(s), active)
    {
      InitialIsGood(cfg);
      BootKeeps(s, active);
      hide Rep, Inv, Ops.InitTask;
      var i := 0;
      assert active[0..] == active;
      while i < |active|
        invariant i <= |active| && Rep() && Ops.Boot(s, active[i..]) == Ops.Boot(old(s), active)
        invariant LevelsExist(s)
      {
        assert active[i..][0] == active[i] && active[i..][1..] == active[i + 1..];
        InitTaskKeepsLevels(s, active[i]);
        InitTask(active[i]);
        i := i + 1;
      }
      SetPending(true);
    }

    ghost predicate LevelsExist(s: State) {
      forall t :: 0 <= t < |s.tasks| ==> s.tasks[t].eff < |s.ready|
    }

    lemma InitTaskKeepsLevels(s: State, t: nat)
      requires LevelsExist(s)
      ensures LevelsExist(Ops.InitTask(s, t))
    {
      if t < |s.tasks| { MakeReadyIs(s, t); }
    }

    /** `init_task`. */
    method InitTask(t: nat)
      requires Rep() && LevelsExist(s)
      modifies this`tasks, this`ready, this`bitmap, this`s
      ensures Rep() && s == Ops.InitTask(old(s), t)
    {
      hide TasksRep, MutexesRep, ChainsRep, BitmapRep, Ops.MakeReady;
      SameSizes();
      if t < |tasks| {
        TaskAt(t);
        if tasks[t].st == Dormant {
          MakeReady(t);
        }
      }
    }

    // ----- single updates -----

    method SetTask(t: nat, c: TaskCb, ghost k: Task)
      requires Rep() && t < |tasks| && c == CbOf(k) && Chain(mutexes, k.held)
      modifies this`tasks, this`s
      ensures Rep() && s == old(s).WithTask(t, k)
    {
      tasks := tasks[t := c];
      s := s.WithTask(t, k);
    }

    method SetQueue(q: nat, w: seq<nat>)
      requires Rep() && q < |queues|
      modifies this`queues, this`s
      ensures Rep() && s == old(s).WithQueue(q, w)
    {
      hide TasksRep, MutexesRep, ChainsRep, BitmapRep;
      SameTasksRep(s, s.WithQueue(q, w));
      queues := queues[q := w];
      s := s.WithQueue(q, w);
    }

    lemma SameTasksRep(s: State, s': State)
      requires s'.tasks == s.tasks && s'.mutexes == s.mutexes
      ensures TasksRep(tasks, s') == TasksRep(tasks, s) && MutexesRep(mutexes, s') == MutexesRep(mutexes, s)
      ensures ChainsRep(mutexes, s') == ChainsRep(mutexes, s)
    {
    }

    method SetReady(p: nat, w: seq<nat>)
      requires Rep() && p < |ready|
      modifies this`ready, this`bitmap, this`s
      ensures Rep() && s == old(s).WithReady(p, w)
    {
      hide TasksRep, MutexesRep, ChainsRep;
      SameTasksRep(s, s.WithReady(p, w));
      ready := ready[p := w];
      bitmap := bitmap[p := w != []];
      s := s.WithReady(p, w);
    }

    lemma TaskAt(t: nat)
      requires Rep() && t < |s.tasks|
      ensures t < |tasks| && tasks[t] == CbOf(s.tasks[t]) && Chain(mutexes, s.tasks[t].held)
    {
    }

    // ----- the ready queue -----

    /** `make_ready` with `push_back_task`. */
    method MakeReady(t: nat)
      requires Rep() && t < |s.tasks| && s.tasks[t].eff < |s.ready|
      modifies this`tasks, this`ready, this`bitmap, this`s
      ensures Rep() && s == Ops.MakeReady(old(s), t)
    {
      TaskAt(t);
      hide TasksRep, MutexesRep, ChainsRep, BitmapRep;
      var pri := tasks[t].effectivePriority;
      SetTask(t, tasks[t].(st := Ready), s.Task(t).(st := Ready));
      SetReady(pri, ready[pri] + [t]);
    }

    /** `find_set` on the ready bitmap. */
    method FindSet() returns (p: nat)
      requires Rep()
      ensures p == Ops.FirstReady(s.ready)
    {
      p := 0;
      while p < |bitmap| && !bitmap[p]
        invariant p <= |bitmap|
        invariant forall i :: 0 <= i < p ==> ready[i] == []
      {
        p := p + 1;
      }
    }

    /** The priority of the running task, if it can still run. */
    method CurrentPriority() returns (p: Option<nat>)
      requires Rep() && (s.running.Some? ==> s.running.value < |s.tasks|)
      ensures p == Ops.CurrentPriority(s)
    {
      if running.Some? {
        TaskAt(running.value);
        if tasks[running.value].st == Running {
          return Some(tasks[running.value].effectivePriority);
        }
      }
      return None;
    }

    /** `unlock_cpu_and_check_preemption`. */
    method CheckPreemption()
      requires Rep() && (s.running.Some? ==> s.running.value < |s.tasks|)
      modifies this`pending, this`s
      ensures Rep() && s == Ops.CheckPreemption(old(s))
    {
      if boost {
        return;
      }
      var previous := CurrentPriority();
      var next := FindSet();
      var preempts := next < |ready| && (previous.None? || next < previous.value);
      if preempts {
        SetPending(true);
      }
    }

    method SetPending(value: bool)
      requires Rep()
      modifies this`pending, this`s
      ensures Rep() && s == old(s).(pending := value)
    {
      SameTasksRep(s, s.(pending := value));
      pending := value;
      s := s.(pending := value);
    }

    method SetRunning(task: Option<nat>)
      requires Rep()
      modifies this`running, this`s
      ensures Rep() && s == old(s).(running := task)
    {
      SameTasksRep(s, s.(running := task));
      running := task;
      s := s.(running := task);
    }

    /** `choose_next_running_task` with `pop_front_task`. */
    method ChooseNext()
      requires Valid()
      modifies this`pending, this`running, this`tasks, this`ready, this`bitmap, this`s
      ensures Valid() && s == Ops.ChooseNext(old(s))
    {
      hide TasksRep, MutexesRep, ChainsRep, BitmapRep, Inv, Ops.SwitchTo, Ops.FirstReady;
      assert InvX(s, WHOLE) by { WholeInv(s); }
      ChooseKeeps(s);
      NextInRange(s);
      SetPending(false);
      if boost {
        return;
      }
      var previous := CurrentPriority();
      var next := FindSet();
      if previous.Some? && previous.value <= next {
        return;
      }
      TakeOver(next);
    }

    /** The first ready task of level `next` takes over, or nothing runs. */
    method TakeOver(next: nat)
      requires Rep() && (s.running.Some? ==> s.running.value < |s.tasks| && s.tasks[s.running.value].eff < |s.ready|)
      requires next < |s.ready| ==> s.ready[next] != [] && s.ready[next][0] < |s.tasks|
      modifies this`running, this`tasks, this`ready, this`bitmap, this`s
      ensures Rep() && s == TakenOver(old(s), next)
    {
      hide TasksRep, MutexesRep, ChainsRep, BitmapRep, Ops.SwitchTo;
      if next < |ready| {
        var t := ready[next][0];
        SetReady(next, ready[next][1..]);
        TaskAt(t);
        SetTask(t, tasks[t].(st := Running), s.Task(t).(st := Running));
        SwitchTo(t);
      } else {
        SetRunning(None);
      }
    }

    ghost function TakenOver(s: State, next: nat): (s': State)
      requires next < |s.ready| ==> s.ready[next] != []
    {
      if next < |s.ready| then
        var t := s.ready[next][0];
        Ops.SwitchTo(s.WithReady(next, s.ready[next][1..]).WithTask(t, s.Task(t).(st := Running)), t)
      else s.(running := None)
    }

    /** The ready tasks and the running task are in range. */
    lemma NextInRange(s: State)
      requires Inv(s)
      ensures s.running.Some? ==> s.running.value < |s.tasks| && s.tasks[s.running.value].eff < |s.ready|
      ensures var p := Ops.FirstReady(s.ready);
              p < |s.ready| ==>
                s.ready[p] != [] && s.ready[p][0] < |s.tasks| && s.tasks[s.ready[p][0]].eff < |s.ready|
    {
      if s.running.Some? { InBounds(s, WHOLE, s.running.value); }
      var p := Ops.FirstReady(s.ready);
      FirstReadyIsFirst(s);
      if p < |s.ready| {
        assert LevelOk(s, p) && s.ready[p][0] in s.ReadyAt(p);
        InBounds(s, WHOLE, s.ready[p][0]);
      }
    }

    method SwitchTo(t: nat)
      requires Rep() && (s.running.Some? ==> s.running.value < |s.tasks| && s.tasks[s.running.value].eff < |s.ready|)
      modifies this`running, this`tasks, this`ready, this`bitmap, this`s
      ensures Rep() && s == Ops.SwitchTo(old(s), t)
    {
      if running.Some? && running.value != t {
        TaskAt(running.value);
        if tasks[running.value].st == Running {
          MakeReady(running.value);
        }
      }
      SetRunning(Some(t));
    }

    // ----- wait queues -----

    /** `find_insertion_position_by_task_priority`: the cursor moves from the back to
        the front. */
    method FindInsertionPosition(w: seq<nat>, priority: nat) returns (insertAt: nat)
      requires Rep() && forall t :: t in w ==> t < |s.tasks|
      ensures insertAt == Position(s.tasks, w, priority)
    {
      hide TasksRep, MutexesRep, ChainsRep, BitmapRep;
      insertAt := |w|;
      assert w[..insertAt] == w;
      while insertAt > 0
        invariant insertAt <= |w|
        invariant Position(s.tasks, w, priority) == Position(s.tasks, w[..insertAt], priority)
      {
        var cursor := w[insertAt - 1];
        assert cursor in w;
        TaskAt(cursor);
        if tasks[cursor].effectivePriority <= priority {
          assert w[..insertAt][|w[..insertAt]| - 1] == cursor;
          return;
        }
        assert w[..insertAt][..insertAt - 1] == w[..insertAt - 1];
        insertAt := insertAt - 1;
      }
    }

    /** Links a task in queue `q`, at the back or by priority. */
    method Enqueue(q: nat, t: nat)
      requires Rep() && q < |s.queues| && t < |s.tasks|
      requires forall u :: u in s.queues[q] ==> u < |s.tasks|
      modifies this`queues, this`s
      ensures Rep() && s == Ops.Enqueue(old(s), q, t)
    {
      var insertAt := |queues[q]|;
      if cfg.Order(q).TaskPriority? {
        TaskAt(t);
        insertAt := FindInsertionPosition(queues[q], tasks[t].effectivePriority);
      }
      SetQueue(q, InsertAt(queues[q], insertAt, t));
    }

    /** Removes a waiting task from its queue. */
    method Unqueue(t: nat)
      requires Rep() && t < |s.tasks| && (QueueOf(s.tasks[t]).Some? ==> QueueOf(s.tasks[t]).value < |s.queues|)
      modifies this`queues, this`s
      ensures Rep() && s == Ops.Unqueue(old(s), t)
    {
      TaskAt(t);
      hide TasksRep, MutexesRep, ChainsRep, BitmapRep;
      var wait := tasks[t].currentWait;
      if wait.Some? && wait.value.queue.Some? {
        SetQueue(wait.value.queue.value, Without(queues[wait.value.queue.value], t));
      }
    }

    /** Unlinking a waiting task and `complete_wait`. */
    method Wake(t: nat, result: WaitResult)
      requires Rep() && t < |s.tasks| && s.tasks[t].eff < |s.ready|
      requires QueueOf(s.tasks[t]).Some? ==> QueueOf(s.tasks[t]).value < |s.queues|
      modifies this`queues, this`tasks, this`ready, this`bitmap, this`s
      ensures Rep() && s == Ops.Wake(old(s), t, result)
    {
      hide TasksRep, MutexesRep, ChainsRep, BitmapRep;
      ghost var k := s.tasks[t].(wait := None, result := result);
      Unqueue(t);
      TaskAt(t);
      SetTask(t, tasks[t].(currentWait := None, waitResult := result), k);
      MakeReady(t);
    }

    lemma WaitersInRange(q: nat)
      requires InvX(s, WHOLE) && q < |s.queues|
      ensures forall u :: u in s.queues[q] ==> u < |s.tasks|
    {
      assert QueueOk(s, q);
    }

    /** `wait_inner` and `wait_no_queue_inner`, up to the dispatch. */
    method Block(t: nat, queue: Option<nat>, payload: Payload, timed: bool)
      requires Rep() && InvX(s, WHOLE) && t < |s.tasks| && (queue.Some? ==> queue.value < |s.queues|)
      modifies this`queues, this`tasks, this`pending, this`s
      ensures Rep() && s == Ops.Block(old(s), t, queue, payload, timed)
    {
      hide TasksRep, MutexesRep, ChainsRep, BitmapRep, InvX, Ops.Enqueue;
      if queue.Some? { WaitersInRange(queue.value); }
      TaskAt(t);
      var c := tasks[t].(st := Waiting, currentWait := Some(WaitCb(queue, payload)),
                         call := Inside(payload, timed), timer := timed);
      ghost var k := s.tasks[t].(st := Waiting, wait := Some(Wait(queue, payload, s.clock)),
                                 call := Inside(payload, timed), timer := timed);
      SetTask(t, c, k);
      SetPending(true);
      Tick();
      if queue.Some? {
        Enqueue(queue.value, t);
      }
    }

    /** The arrival counter exists only in the abstract state. */
    ghost method Tick()
      requires Rep()
      modifies this`s
      ensures Rep() && s == old(s).(clock := old(s.clock) + 1)
    {
      SameTasksRep(s, s.(clock := s.clock + 1));
      s := s.(clock := s.clock + 1);
    }

    // ----- tasks -----

    lemma Bounds(t: nat)
      requires InvX(s, WHOLE) && t < |s.tasks|
      ensures s.tasks[t].eff < |s.ready| && (QueueOf(s.tasks[t]).Some? ==> QueueOf(s.tasks[t]).value < |s.queues|)
    {
      InBounds(s, WHOLE, t);
    }

    lemma RunningInBounds()
      requires InvX(s, WHOLE)
      ensures s.running.Some? ==> s.running.value < |s.tasks|
    {
    }

    /** `activate`. */
    method Activate(t: nat) returns (r: Reply)
      requires Valid()
      modifies this`tasks, this`ready, this`bitmap, this`pending, this`s
      ensures Valid() && Ops.Outcome(s, r) == Ops.Activate(old(s), t)
    {
      hide TasksRep, MutexesRep, ChainsRep, BitmapRep, InvX;
      ActivateKeeps(s, t);
      SameSizes();
      if t >= |tasks| {
        return Ops.BadId;
      }
      TaskAt(t);
      if tasks[t].st != Dormant {
        return Ops.QueueOverflow;
      }
      RunningInBounds();
      InitialInRange(t);
      var initial := cfg.initial[t];
      SetTask(t, tasks[t].(parkToken := false, basePriority := initial, effectivePriority := initial),
              s.Task(t).(parkToken := false, base := initial, eff := initial));
      MakeReady(t);
      CheckPreemption();
      r := Ops.Done;
    }

    lemma SameSizes()
      requires Rep()
      ensures |tasks| == |s.tasks| && |mutexes| == |s.mutexes|
    {
    }

    lemma InitialInRange(t: nat)
      requires InvX(s, WHOLE) && t < |s.tasks|
      ensures t < |s.cfg.initial| && s.cfg.initial[t] < |s.ready|
    {
    }

    /** `interrupt_task` of a task in the Waiting state. */
    method InterruptTask(t: nat, result: WaitResult) returns (r: Reply)
      requires Rep() && InvX(s, WHOLE)
      modifies this`queues, this`tasks, this`ready, this`bitmap, this`pending, this`s
      ensures Rep() && Ops.Outcome(s, r) == Ops.Interrupt(old(s), t, result)
    {
      hide TasksRep, MutexesRep, ChainsRep, BitmapRep, InvX, Ops.Wake;
      SameSizes();
      if t >= |tasks| {
        return Ops.BadId;
      }
      TaskAt(t);
      if tasks[t].st != Waiting {
        return Ops.BadObjectState;
      }
      Bounds(t);
      RunningInBounds();
      WakeLeavesRunning(s, t, result);
      Wake(t, result);
      CheckPreemption();
      r := Ops.Done;
    }

    lemma WakeLeavesRunning(s: State, t: nat, result: WaitResult)
      ensures Ops.Wake(s, t, result).running == s.running && |Ops.Wake(s, t, result).tasks| == |s.tasks|
    {
    }

    /** `Task::interrupt`. */
    method Interrupt(t: nat) returns (r: Reply)
      requires Valid()
      modifies this`queues, this`tasks, this`ready, this`bitmap, this`pending, this`s
      ensures Valid() && Ops.Outcome(s, r) == Ops.Interrupt(old(s), t, WasInterrupted)
    {
      InterruptKeeps(s, t);
      hide Rep, InvX;
      r := InterruptTask(t, WasInterrupted);
    }

    /** Application code of a task is executing (`expect_task_context`). */
    method InTask() returns (b: bool)
      requires Rep()
      ensures b == Ops.InTask(s)
    {
      if running.None? || running.value >= |tasks| {
        return false;
      }
      TaskAt(running.value);
      b := tasks[running.value].st == Running && tasks[running.value].call == NoCall;
    }

    /** `park_current_task` and `park_current_task_timeout`. */
    method Park(timed: bool) returns (r: Reply)
      requires Valid()
      modifies this`queues, this`tasks, this`pending, this`s
      ensures Valid() && Ops.Outcome(s, r) == Ops.ParkCurrent(old(s), timed)
    {
      hide TasksRep, MutexesRep, ChainsRep, BitmapRep, InvX, Ops.Block;
      ParkKeeps(s, timed);
      var inTask := InTask();
      if !inTask || boost {
        return Ops.BadContext;
      }
      var t := running.value;
      TaskAt(t);
      if tasks[t].parkToken {
        SetTask(t, tasks[t].(parkToken := false), s.Task(t).(parkToken := false));
        return Ops.Done;
      }
      Block(t, None, Payload.Park, timed);
      r := Ops.Blocks;
    }

    /** `unpark_exact`. */
    method Unpark(t: nat) returns (r: Reply)
      requires Valid()
      modifies this`queues, this`tasks, this`ready, this`bitmap, this`pending, this`s
      ensures Valid() && Ops.Outcome(s, r) == Ops.Unpark(old(s), t)
    {
      hide TasksRep, MutexesRep, ChainsRep, BitmapRep, InvX, Ops.Wake;
      UnparkKeeps(s, t);
      SameSizes();
      if t >= |tasks| {
        return Ops.BadId;
      }
      TaskAt(t);
      if tasks[t].st == Dormant {
        return Ops.BadObjectState;
      }
      if tasks[t].st == Waiting && tasks[t].currentWait.Some? && tasks[t].currentWait.value.payload.Park? {
        r := InterruptTask(t, WaitOk);
      } else {
        var had := tasks[t].parkToken;
        SetTask(t, tasks[t].(parkToken := true), s.Task(t).(parkToken := true));
        r := if had then Ops.QueueOverflow else Ops.Done;
      }
    }

    /** `put_current_task_on_sleep_timeout`. */
    method Sleep() returns (r: Reply)
      requires Valid()
      modifies this`queues, this`tasks, this`pending, this`s
      ensures Valid() && Ops.Outcome(s, r) == Ops.SleepCurrent(old(s))
    {
      hide TasksRep, MutexesRep, ChainsRep, BitmapRep, InvX, Ops.Block;
      ParkKeeps(s, true);
      var inTask := InTask();
      if !inTask || boost {
        return Ops.BadContext;
      }
      Block(running.value, None, Payload.Sleep, true);
      r := Ops.Blocks;
    }

    // ----- the list of held mutexes -----

    /** `evaluate_task_effective_priority`: follows the links from the last mutex held. */
    method EvaluateEffectivePriority(t: nat, base: nat) returns (p: nat)
      requires Rep() && t < |s.tasks|
      ensures p == EffectivePriority(s.cfg, base, s.tasks[t].held)
    {
      hide TasksRep, MutexesRep, ChainsRep, BitmapRep;
      TaskAt(t);
      p := base;
      var maybeMutex := tasks[t].lastMutexHeld;
      ghost var rest := s.tasks[t].held;
      EffectiveAtMostBase(cfg, base, rest);
      while maybeMutex.Some?
        invariant Chain(mutexes, rest) && maybeMutex == Head(rest) && p <= base
        invariant Lower(EffectivePriority(cfg, base, rest), Some(p)) == EffectivePriority(cfg, base, s.tasks[t].held)
        decreases |rest|
      {
        var m := maybeMutex.value;
        ChainTail(mutexes, rest);
        p := Lower(p, cfg.Ceiling(m));
        maybeMutex := mutexes[m].prevMutexHeld;
        rest := rest[1..];
      }
    }

    /** `do_held_mutexes_allow_new_task_base_priority`. */
    method HeldMutexesAllow(t: nat, base: nat) returns (allow: bool)
      requires Rep() && t < |s.tasks|
      ensures allow == forall m :: m in s.tasks[t].held ==> Admits(s.cfg, m, base)
    {
      hide TasksRep, MutexesRep, ChainsRep, BitmapRep;
      TaskAt(t);
      var maybeMutex := tasks[t].lastMutexHeld;
      ghost var held := s.tasks[t].held;
      ghost var i := 0;
      assert held[0..] == held;
      while maybeMutex.Some?
        invariant i <= |held| && Chain(mutexes, held[i..]) && maybeMutex == Head(held[i..])
        invariant forall j :: 0 <= j < i ==> Admits(cfg, held[j], base)
        decreases |held| - i
      {
        var m := maybeMutex.value;
        ChainTail(mutexes, held[i..]);
        assert held[i..][0] == held[i] && held[i..][1..] == held[i + 1..];
        if !Admits(cfg, m, base) {
          return false;
        }
        maybeMutex := mutexes[m].prevMutexHeld;
        i := i + 1;
      }
      allow := true;
    }

    // ----- changing a priority -----

    /** `reorder_task`. */
    method MoveReady(t: nat, from: nat)
      requires Rep() && t < |s.tasks| && from < |s.ready| && s.tasks[t].eff < |s.ready|
      modifies this`ready, this`bitmap, this`s
      ensures Rep() && s == Ops.MoveReady(old(s), t, from)
    {
      TaskAt(t);
      hide TasksRep, MutexesRep, ChainsRep, BitmapRep;
      var to := tasks[t].effectivePriority;
      SetReady(from, Without(ready[from], t));
      SetReady(to, ready[to] + [t]);
    }

    /** `reorder_wait_of_task`. */
    method Requeue(t: nat)
      requires Rep() && t < |s.tasks| && (QueueOf(s.tasks[t]).Some? ==> QueueOf(s.tasks[t]).value < |s.queues|)
      requires QueueOf(s.tasks[t]).Some? ==> NoDup(s.queues[QueueOf(s.tasks[t]).value])
      requires forall q, u :: 0 <= q < |s.queues| && u in s.queues[q] ==> u < |s.tasks|
      modifies this`queues, this`s
      ensures Rep() && s == Ops.Requeue(old(s), t)
    {
      hide TasksRep, MutexesRep, ChainsRep, BitmapRep, NoDup, Without;
      TaskAt(t);
      var wait := tasks[t].currentWait;
      if wait.Some? && wait.value.queue.Some? && cfg.Order(wait.value.queue.value).TaskPriority? {
        var q := wait.value.queue.value;
        WithoutFacts(queues[q], t);
        SetQueue(q, Without(queues[q], t));
        Restamp(t);
        Enqueue(q, t);
      }
    }

    /** The arrival stamp exists only in the abstract state. */
    ghost method Restamp(t: nat)
      requires Rep() && t < |s.tasks| && s.tasks[t].wait.Some?
      modifies this`s
      ensures Rep()
      ensures var k := old(s).Task(t);
              var k' := k.(wait := Some(k.wait.value.(since := old(s.clock))));
              s == old(s).WithTask(t, k').(clock := old(s.clock) + 1)
    {
      s := s.WithTask(t, s.Task(t).(wait := Some(s.Task(t).wait.value.(since := s.clock)))).(clock := s.clock + 1);
    }

    /** The queues hold valid identifiers. */
    lemma QueuesInRange()
      requires InvX(s, WHOLE)
      ensures forall q, u :: 0 <= q < |s.queues| && u in s.queues[q] ==> u < |s.tasks|
      ensures forall q :: 0 <= q < |s.queues| ==> NoDup(s.queues[q])
    {
      forall q | 0 <= q < |s.queues| ensures NoDup(s.queues[q]) && forall u :: u in s.queues[q] ==> u < |s.tasks| {
        assert QueueOk(s, q);
      }
    }

    /** `set_task_base_priority`. */
    method SetPriority(t: nat, basePriority: nat) returns (r: Reply)
      requires Valid()
      modifies this`queues, this`tasks, this`ready, this`bitmap, this`pending, this`s
      ensures Valid() && Ops.Outcome(s, r) == Ops.SetPriority(old(s), t, basePriority)
    {
      hide TasksRep, MutexesRep, ChainsRep, BitmapRep, InvX, EffectivePriority, Ops.Reprioritize;
      SetPriorityKeeps(s, t, basePriority);
      SameSizes();
      if t >= |tasks| {
        return Ops.BadId;
      }
      if basePriority >= cfg.priorities {
        return Ops.BadParam;
      }
      TaskAt(t);
      if tasks[t].st == Dormant {
        return Ops.BadObjectState;
      }
      if tasks[t].basePriority == basePriority {
        return Ops.Done;
      }
      if basePriority < tasks[t].basePriority {
        var allow := AwaitedMutexAllows(t, basePriority);
        if allow {
          allow := HeldMutexesAllow(t, basePriority);
        }
        if !allow {
          return Ops.BadParam;
        }
      }
      var effectivePriority := EvaluateEffectivePriority(t, basePriority);
      EffectiveAtMostBase(cfg, basePriority, s.tasks[t].held);
      LevelsArePriorities();
      Reprioritize(t, basePriority, effectivePriority);
      r := Ops.Done;
    }

    lemma LevelsArePriorities()
      requires InvX(s, WHOLE)
      ensures |s.ready| == s.cfg.priorities
    {
    }

    /** Whether the mutex a task waits for, if any, admits the new base priority. */
    method AwaitedMutexAllows(t: nat, basePriority: nat) returns (allow: bool)
      requires Rep() && t < |s.tasks|
      ensures allow == (s.tasks[t].wait.Some? && s.tasks[t].wait.value.payload.Mutex? ==>
                 Admits(s.cfg, s.tasks[t].wait.value.payload.m, basePriority))
    {
      TaskAt(t);
      var wait := tasks[t].currentWait;
      allow := !(wait.Some? && wait.value.payload.Mutex?) || Admits(cfg, wait.value.payload.m, basePriority);
    }

    /** Assigns the new priorities and moves the task to where they put it. */
    method Reprioritize(t: nat, basePriority: nat, effectivePriority: nat)
      requires Rep() && InvX(s, WHOLE) && t < |s.tasks| && effectivePriority < |s.ready|
      modifies this`queues, this`tasks, this`ready, this`bitmap, this`pending, this`s
      ensures Rep() && s == Ops.Reprioritize(old(s), t, basePriority, effectivePriority)
    {
      hide TasksRep, MutexesRep, ChainsRep, BitmapRep, InvX, Ops.CheckPreemption, Ops.MoveReady, Ops.Requeue, NoDup;
      Bounds(t);
      RunningInBounds();
      QueuesInRange();
      TaskAt(t);
      var before := tasks[t];
      SetTask(t, before.(basePriority := basePriority, effectivePriority := effectivePriority),
        s.Task(t).(base := basePriority, eff := effectivePriority));
      if before.effectivePriority == effectivePriority {
        return;
      }
      match before.st
      case Ready =>
        MoveReadyLeavesTasks(s, t, before.effectivePriority);
        MoveReady(t, before.effectivePriority);
        CheckPreemption();
      case Waiting =>
        Requeue(t);
      case _ =>
        CheckPreemption();
    }

    lemma MoveReadyLeavesTasks(s: State, t: nat, from: nat)
      ensures var s' := Ops.MoveReady(s, t, from); s'.tasks == s.tasks && s'.running == s.running
    {
    }

    // ----- mutexes -----

    /** Rewrites a mutex. Its link may change only if it is in no task's list. */
    method SetMutex(m: nat, node: MutexNode)
      requires Rep() && m < |s.mutexes|
      requires node.prevMutexHeld != mutexes[m].prevMutexHeld ==>
                 forall u :: 0 <= u < |s.tasks| ==> m !in s.tasks[u].held
      modifies this`mutexes, this`s
      ensures Rep() && mutexes == old(mutexes)[m := node]
      ensures s == old(s).WithMutex(m, MutexCb(node.owningTask, node.inconsistent))
    {
      forall u | 0 <= u < |s.tasks| ensures Chain(mutexes[m := node], s.tasks[u].held) {
        ChainFrame(mutexes, m, s.tasks[u].held, node);
      }
      hide Chain;
      mutexes := mutexes[m := node];
      s := s.WithMutex(m, MutexCb(node.owningTask, node.inconsistent));
    }

    lemma MutexAt(m: nat)
      requires Rep() && m < |s.mutexes|
      ensures m < |mutexes| && s.mutexes[m] == MutexCb(mutexes[m].owningTask, mutexes[m].inconsistent)
    {
    }

    /** `lock_core`: pushes the mutex to the task's list. */
    method LockCore(m: nat, t: nat)
      requires Rep() && m < |s.mutexes| && t < |s.tasks|
      requires forall u :: 0 <= u < |s.tasks| ==> m !in s.tasks[u].held
      modifies this`mutexes, this`tasks, this`s
      ensures Rep() && s == Ops.LockCore(old(s), m, t)
      ensures |mutexes| == |old(mutexes)| && forall n :: 0 <= n < |mutexes| && n != m ==> mutexes[n] == old(mutexes[n])
    {
      hide TasksRep, MutexesRep, ChainsRep, BitmapRep, Chain;
      TaskAt(t);
      MutexAt(m);
      ghost var k := s.tasks[t];
      var node := mutexes[m].(owningTask := Some(t), prevMutexHeld := tasks[t].lastMutexHeld);
      ChainPush(mutexes, m, k.held, node);
      SetMutex(m, node);
      TaskAt(t);
      SetTask(t,
        tasks[t].(lastMutexHeld := Some(m), effectivePriority := Lower(tasks[t].effectivePriority, cfg.Ceiling(m))),
              k.(held := [m] + k.held, eff := Lower(k.eff, s.cfg.Ceiling(m))));
    }

    /** `unlock_mutex_unchecked`. */
    method UnlockUnchecked(m: nat, ghost h: Hole)
      requires Rep() && InvX(s, h) && Orphaned(s, m)
      modifies this`mutexes, this`queues, this`tasks, this`ready, this`bitmap, this`s
      ensures Rep() && s == Ops.HandOff(old(s), m)
      ensures |mutexes| == |old(mutexes)| && forall n :: 0 <= n < |mutexes| && n != m ==> mutexes[n] == old(mutexes[n])
    {
      MutexQueueInRange(m, h);
      if s.Queue(m) != [] { FirstWaiterMayOwn(s, m, h); NextInBounds(m, h); }
      hide TasksRep, MutexesRep, ChainsRep, BitmapRep, InvX, Ops.Wake, Ops.LockCore, MayOwn;
      MutexAt(m);
      if queues[m] == [] {
        SetMutex(m, mutexes[m].(owningTask := None));
      } else {
        var next := queues[m][0];
        LockCore(m, next);
        Wake(next, WaitOk);
      }
    }

    lemma MutexQueueInRange(m: nat, h: Hole)
      requires InvX(s, h) && m < |s.mutexes|
      ensures m < |s.queues|
    {
    }

    /** The next owner can be woken once it has been given the mutex. */
    lemma NextInBounds(m: nat, h: Hole)
      requires InvX(s, h) && Orphaned(s, m) && s.Queue(m) != [] && MayOwn(s, m, s.Queue(m)[0])
      ensures var s1 := Ops.LockCore(s, m, s.Queue(m)[0]);
              var t := s.Queue(m)[0];
              && t < |s1.tasks| && s1.tasks[t].eff < |s1.ready|
              && (QueueOf(s1.tasks[t]).Some? ==> QueueOf(s1.tasks[t]).value < |s1.queues|)
    {
      InBounds(s, h, s.Queue(m)[0]);
    }

    /** `abandon_held_mutexes`: the list is detached first; each hand-off rewrites only
        the link of the mutex it hands on, which has been read by then. */
    method AbandonHeldMutexes(t: nat)
      requires Rep() && InvX(s, WHOLE) && t < |s.tasks| && s.tasks[t].st == Running && s.tasks[t].call == NoCall
      modifies this`mutexes, this`queues, this`tasks, this`ready, this`bitmap, this`s
      ensures Rep() && s == Ops.AbandonAll(old(s).WithTask(t, old(s.tasks[t]).(held := [])), old(s.tasks[t]).held)
    {
      hide TasksRep, MutexesRep, ChainsRep, BitmapRep, InvX, Ops.HandOff, NoDup, Orphaned, AllOrphaned;
      TaskAt(t);
      ghost var held := s.tasks[t].held;
      ghost var chained := mutexes;
      var maybeMutex := tasks[t].lastMutexHeld;
      DetachKeeps(s, t);
      EmptyChain(mutexes);
      SetTask(t, tasks[t].(lastMutexHeld := None), s.tasks[t].(held := []));
      ghost var s1 := s;
      ghost var rest := held;
      assert Chain(mutexes, rest) && Ops.AbandonAll(s, rest) == Ops.AbandonAll(s1, held);
      while maybeMutex.Some?
        invariant Rep() && Detached(rest, t) && maybeMutex == Head(rest)
        invariant Ops.AbandonAll(s, rest) == Ops.AbandonAll(s1, held)
        decreases |rest|
      {
        ghost var s2 := s;
        maybeMutex := AbandonOne(maybeMutex.value, rest, t);
        rest := rest[1..];
      }
    }

    lemma EmptyChain(nodes: seq<MutexNode>)
      ensures Chain(nodes, [])
    {
    }

    /** `rest` is what is left of the detached list of task `t`. */
    ghost predicate Detached(rest: seq<nat>, t: nat)
      reads this
    {
      && InvX(s, Hole(rest, Some(t), None)) && AllOrphaned(s, rest) && Chain(mutexes, rest)
      && t < |s.tasks| && s.tasks[t].st == Running
    }

    /** One step of the walk; returns the link read before the hand-off. */
    method AbandonOne(m: nat, ghost rest: seq<nat>, ghost t: nat) returns (next: Option<nat>)
      requires Rep() && Detached(rest, t) && rest != [] && rest[0] == m
      modifies this`mutexes, this`queues, this`tasks, this`ready, this`bitmap, this`s
      ensures Rep() && Detached(rest[1..], t) && next == Head(rest[1..])
      ensures s == Ops.HandOff(old(s).WithMutex(m, old(s).Mutex(m).(inconsistent := true)), m)
    {
      hide TasksRep, MutexesRep, ChainsRep, BitmapRep, InvX, Ops.HandOff, NoDup, Orphaned, AllOrphaned;
      ghost var h := Hole(rest, Some(t), None);
      FirstIsOrphaned(s, rest);
      OrphanInRange(s, m);
      MutexAt(m);
      ChainTail(mutexes, rest);
      RestAvoidsHead(s, rest);
      next := mutexes[m].prevMutexHeld;
      MarkKeeps(s, m, true, h);
      MarkLeavesOthers(s, rest, true);
      SetMutex(m, mutexes[m].(inconsistent := true));
      FirstIsOrphaned(s, rest);
      HandOffKeeps(s, m, h);
      HandOffLeavesOthers(s, rest, h, t);
      UnlockUnchecked(m, h);
    }

    lemma RestAvoidsHead(s: State, rest: seq<nat>)
      requires AllOrphaned(s, rest) && rest != []
      ensures rest[0] !in rest[1..]
    {
      TailFacts(rest);
    }

    /** `exit_current_task`, up to the dispatch. */
    method ExitCurrentTask() returns (r: Reply)
      requires Valid()
      modifies this`mutexes, this`queues, this`tasks, this`ready, this`bitmap, this`running, this`boost
      modifies this`pending, this`s
      ensures Valid() && Ops.Outcome(s, r) == Ops.Exit(old(s))
    {
      hide TasksRep, MutexesRep, ChainsRep, BitmapRep, InvX, Ops.AbandonAll;
      ExitKeeps(s);
      var inTask := InTask();
      if !inTask {
        return Ops.BadContext;
      }
      var t := running.value;
      UnboostedIsGood(s);
      AbandonSize(s.(boost := false).WithTask(t, s.Task(t).(held := [])), s.Task(t).held);
      SetBoost(false);
      AbandonHeldMutexes(t);
      TaskAt(t);
      EmptyHeldStays(t);
      SetTask(t, tasks[t].(st := Dormant), s.Task(t).(st := Dormant));
      SetRunning(None);
      SetPending(true);
      r := Ops.Done;
    }

    lemma EmptyHeldStays(t: nat)
      requires Rep() && t < |s.tasks|
      ensures Chain(mutexes, s.tasks[t].held)
    {
    }

    lemma UnboostedIsGood(s: State)
      requires InvX(s, WHOLE)
      ensures InvX(s.(boost := false), WHOLE)
    {
      OnlyRunning(s, WHOLE);
      FlagsKeep(s, s.running, false, s.pending, WHOLE);
    }

    method SetBoost(value: bool)
      requires Rep()
      modifies this`boost, this`s
      ensures Rep() && s == old(s).(boost := value)
    {
      SameTasksRep(s, s.(boost := value));
      boost := value;
      s := s.(boost := value);
    }

    /** `precheck_and_get_running_task`. */
    method Precheck(m: nat, t: nat) returns (e: Option<Reply>)
      requires Rep() && m < |s.mutexes| && t < |s.tasks|
      ensures e == Ops.Precheck(s, m, t)
    {
      MutexAt(m);
      TaskAt(t);
      if mutexes[m].owningTask == Some(t) {
        return Some(Ops.WouldDeadlock);
      }
      if !Admits(cfg, m, tasks[t].basePriority) {
        return Some(Ops.BadParam);
      }
      e := None;
    }

    /** `poll_core` of a mutex: takes it if it is free. */
    method PollMutex(m: nat, t: nat) returns (taken: bool)
      requires Rep() && InvX(s, WHOLE) && m < |s.mutexes| && t < |s.tasks|
      modifies this`mutexes, this`tasks, this`s
      ensures Rep() && taken == old(s).mutexes[m].owner.None?
      ensures s == if taken then Ops.LockCore(old(s), m, t) else old(s)
    {
      hide TasksRep, MutexesRep, ChainsRep, BitmapRep, InvX, Ops.LockCore;
      MutexAt(m);
      if mutexes[m].owningTask.Some? {
        return false;
      }
      forall u | 0 <= u < |s.tasks| ensures m !in s.tasks[u].held {
        HeldExactlyOwned(s, u, m);
      }
      LockCore(m, t);
      taken := true;
    }

    /** What a lock that succeeded reports. */
    method LockReply(m: nat) returns (r: Reply)
      requires Rep() && m < |s.mutexes|
      ensures r == Ops.LockReply(s, m)
    {
      MutexAt(m);
      r := if mutexes[m].inconsistent then Ops.Abandoned else Ops.Done;
    }

    /** `lock_mutex` and `lock_mutex_timeout`, up to the dispatch. */
    method Lock(m: nat, timed: bool) returns (r: Reply)
      requires Valid()
      modifies this`mutexes, this`queues, this`tasks, this`pending, this`s
      ensures Valid() && Ops.Outcome(s, r) == Ops.Lock(old(s), m, timed)
    {
      hide TasksRep, MutexesRep, ChainsRep, BitmapRep, InvX, Ops.Block, Admits;
      LockKeeps(s, m, timed);
      SameSizes();
      var inTask := InTask();
      if !inTask || boost {
        return Ops.BadContext;
      }
      if m >= |mutexes| {
        return Ops.BadId;
      }
      var t := running.value;
      var e := Precheck(m, t);
      if e.Some? {
        return e.value;
      }
      var taken := PollMutex(m, t);
      if taken {
        r := LockReply(m);
      } else {
        MutexQueueInRange(m, WHOLE);
        Block(t, Some(m), Payload.Mutex(m), timed);
        r := Ops.Blocks;
      }
    }

    /** `try_lock_mutex`. */
    method TryLock(m: nat) returns (r: Reply)
      requires Valid()
      modifies this`mutexes, this`tasks, this`s
      ensures Valid() && Ops.Outcome(s, r) == Ops.TryLock(old(s), m)
    {
      hide TasksRep, MutexesRep, ChainsRep, BitmapRep, InvX, Admits;
      LockKeeps(s, m, false);
      SameSizes();
      var inTask := InTask();
      if !inTask {
        return Ops.BadContext;
      }
      if m >= |mutexes| {
        return Ops.BadId;
      }
      var t := running.value;
      var e := Precheck(m, t);
      if e.Some? {
        return e.value;
      }
      var taken := PollMutex(m, t);
      if !taken {
        return Ops.Expired;
      }
      r := LockReply(m);
    }

    /** `unlock_mutex`. */
    method Unlock(m: nat) returns (r: Reply)
      requires Valid()
      modifies this`mutexes, this`queues, this`tasks, this`ready, this`bitmap, this`pending, this`s
      ensures Valid() && Ops.Outcome(s, r) == Ops.Unlock(old(s), m)
    {
      hide TasksRep, MutexesRep, ChainsRep, BitmapRep, InvX, EffectivePriority, Ops.HandOff, Orphaned;
      hide Ops.CheckPreemption;
      UnlockKeeps(s, m);
      SameSizes();
      var inTask := InTask();
      if !inTask || boost {
        return Ops.BadContext;
      }
      if m >= |mutexes| {
        return Ops.BadId;
      }
      var t := running.value;
      MutexAt(m);
      if mutexes[m].owningTask != Some(t) {
        return Ops.NotOwner;
      }
      TaskAt(t);
      if tasks[t].lastMutexHeld != Some(m) {
        return Ops.BadObjectState;
      }
      ReleaseKeeps(s, m, t);
      Release(m, t);
      ghost var h := Hole([m], None, None);
      HandOffFrame(s, m, h);
      UnlockUnchecked(m, h);
      CheckPreemption();
      r := Ops.Done;
    }

    /** Removes the last mutex from the task's list and lowers the effective priority. */
    method Release(m: nat, t: nat)
      requires Rep() && m < |s.mutexes| && t < |s.tasks| && s.tasks[t].held != [] && s.tasks[t].held[0] == m
      modifies this`tasks, this`s
      ensures Rep()
      ensures var k := old(s).tasks[t];
              s == old(s).WithTask(t, k.(held := k.held[1..], eff := EffectivePriority(s.cfg, k.base, k.held[1..])))
    {
      hide TasksRep, MutexesRep, ChainsRep, BitmapRep, EffectivePriority;
      TaskAt(t);
      MutexAt(m);
      ghost var k := s.tasks[t];
      ChainTail(mutexes, k.held);
      SetTask(t, tasks[t].(lastMutexHeld := mutexes[m].prevMutexHeld), k.(held := k.held[1..]));
      TaskAt(t);
      var effectivePriority := EvaluateEffectivePriority(t, tasks[t].basePriority);
      SetTask(t, tasks[t].(effectivePriority := effectivePriority), s.tasks[t].(eff := effectivePriority));
    }

    /** `raw_mutex_mark_consistent`. */
    method MarkConsistent(m: nat) returns (r: Reply)
      requires Valid()
      modifies this`mutexes, this`s
      ensures Valid() && Ops.Outcome(s, r) == Ops.MarkConsistent(old(s), m)
    {
      hide TasksRep, MutexesRep, ChainsRep, BitmapRep, InvX;
      MarkConsistentKeeps(s, m);
      SameSizes();
      if m >= |mutexes| {
        return Ops.BadId;
      }
      MutexAt(m);
      var was := mutexes[m].inconsistent;
      SetMutex(m, mutexes[m].(inconsistent := false));
      r := if was then Ops.Done else Ops.BadObjectState;
    }

    // ----- semaphores -----

    method SetValue(i: nat, value: nat)
      requires Rep() && i < |values|
      modifies this`values, this`s
      ensures Rep() && s == old(s).WithValue(i, value)
    {
      SameTasksRep(s, s.WithValue(i, value));
      hide TasksRep, MutexesRep, ChainsRep, BitmapRep;
      values := values[i := value];
      s := s.WithValue(i, value);
    }

    /** `poll_one`. */
    method PollOne(i: nat) returns (r: Reply)
      requires Valid()
      modifies this`values, this`s
      ensures Valid() && Ops.Outcome(s, r) == Ops.PollOne(old(s), i)
    {
      hide TasksRep, MutexesRep, ChainsRep, BitmapRep, InvX;
      SemaphoreKeeps(s, i, false);
      if i >= |values| {
        return Ops.BadId;
      }
      if values[i] > 0 {
        SetValue(i, values[i] - 1);
        return Ops.Done;
      }
      r := Ops.Expired;
    }

    /** `wait_one` and `wait_one_timeout`, up to the dispatch. */
    method WaitOne(i: nat, timed: bool) returns (r: Reply)
      requires Valid()
      modifies this`values, this`queues, this`tasks, this`pending, this`s
      ensures Valid() && Ops.Outcome(s, r) == Ops.WaitOne(old(s), i, timed)
    {
      hide TasksRep, MutexesRep, ChainsRep, BitmapRep, InvX, Ops.Block;
      SemaphoreKeeps(s, i, timed);
      var inTask := InTask();
      if !inTask || boost {
        return Ops.BadContext;
      }
      if i >= |values| {
        return Ops.BadId;
      }
      if values[i] > 0 {
        SetValue(i, values[i] - 1);
        return Ops.Done;
      }
      ObjectQueuesInRange();
      Block(running.value, Some(cfg.SemQueue(i)), Payload.Semaphore, timed);
      r := Ops.Blocks;
    }

    lemma ObjectQueuesInRange()
      requires InvX(s, WHOLE)
      ensures forall i :: 0 <= i < |s.values| ==> s.cfg.SemQueue(i) < |s.queues|
      ensures forall g :: 0 <= g < |s.bits| ==> s.cfg.GroupQueue(g) < |s.queues|
      ensures |s.values| == |s.cfg.maxValues|
    {
    }

    /** `wake_up_one`. */
    method WakeUpOne(q: nat) returns (woke: bool)
      requires Rep() && InvX(s, WHOLE) && q < |s.queues|
      modifies this`queues, this`tasks, this`ready, this`bitmap, this`s
      ensures Rep() && woke == (old(s).queues[q] != [])
      ensures s == if woke then Ops.Wake(old(s), old(s).queues[q][0], WaitOk) else old(s)
    {
      hide TasksRep, MutexesRep, ChainsRep, BitmapRep, Ops.Wake;
      assert QueueOk(s, q);
      if queues[q] == [] {
        return false;
      }
      var t := queues[q][0];
      assert t in s.queues[q];
      Bounds(t);
      Wake(t, WaitOk);
      woke := true;
    }

    /** `signal`. */
    method Signal(i: nat, count: nat) returns (r: Reply)
      requires Valid()
      modifies this`values, this`queues, this`tasks, this`ready, this`bitmap, this`pending, this`s
      ensures Valid() && Ops.Outcome(s, r) == Ops.Signal(old(s), i, count)
    {
      hide TasksRep, MutexesRep, ChainsRep, BitmapRep, InvX, Ops.Wake, Ops.CheckPreemption;
      SignalKeeps(s, i, count);
      if i >= |values| {
        return Ops.BadId;
      }
      ObjectQueuesInRange();
      var value := values[i];
      if cfg.maxValues[i] - value < count {
        return Ops.QueueOverflow;
      }
      var left := Grant(i, value, count);
      if left != count {
        CheckPreemption();
      }
      r := Ops.Done;
    }

    /** The loop of `signal`; returns the permits that found no waiter. */
    method Grant(i: nat, value: nat, count: nat) returns (left: nat)
      requires Rep() && InvX(s, WHOLE) && i < |s.values| && s.values[i] == value && value + count <= s.cfg.maxValues[i]
      modifies this`values, this`queues, this`tasks, this`ready, this`bitmap, this`s
      ensures Rep() && s == Ops.Grant(old(s), i, value, count)
      ensures left != count <==> count > 0 && old(s).Queue(s.cfg.SemQueue(i)) != []
      ensures s.running.Some? ==> s.running.value < |s.tasks|
    {
      hide QueueOk;
      hide TasksRep, MutexesRep, ChainsRep, BitmapRep, InvX, Ops.Wake, MayWake;
      var q := cfg.SemQueue(i);
      left := count;
      RunningInBounds();
      ObjectQueuesInRange();
      assert i < |cfg.maxValues|;
      while left > 0
        invariant Rep() && InvX(s, WHOLE) && left <= count && s.cfg == cfg
        invariant i < |s.values| && s.values[i] == value && value + left <= cfg.maxValues[i]
        invariant Ops.Grant(s, i, value, left) == Ops.Grant(old(s), i, value, count)
        invariant left == count ==> s == old(s)
        invariant left < count ==> old(s).Queue(q) != []
        invariant s.running.Some? ==> s.running.value < |s.tasks|
      {
        ObjectQueuesInRange();
        if s.Queue(q) != [] {
          FirstWaiterMayTake(s, i);
          WakeKeeps(s, s.Queue(q)[0], WaitOk, WHOLE);
          WakeLeavesValues(s, s.Queue(q)[0], WaitOk);
          WakeLeavesRunning(s, s.Queue(q)[0], WaitOk);
        }
        var woke := WakeUpOne(q);
        if woke {
          left := left - 1;
        } else {
          SetValue(i, value + left);
          break;
        }
      }
    }

    /** `raw_semaphore_drain`. */
    method Drain(i: nat) returns (r: Reply)
      requires Valid()
      modifies this`values, this`s
      ensures Valid() && Ops.Outcome(s, r) == Ops.Drain(old(s), i)
    {
      hide TasksRep, MutexesRep, ChainsRep, BitmapRep, InvX;
      SemaphoreKeeps(s, i, false);
      if i >= |values| {
        return Ops.BadId;
      }
      SetValue(i, 0);
      r := Ops.Done;
    }

    // ----- event groups -----

    method SetGroup(g: nat, value: bv32)
      requires Rep() && g < |bits|
      modifies this`bits, this`s
      ensures Rep() && s == old(s).WithBits(g, value)
    {
      SameTasksRep(s, s.WithBits(g, value));
      hide TasksRep, MutexesRep, ChainsRep, BitmapRep;
      bits := bits[g := value];
      s := s.WithBits(g, value);
    }

    /** `poll`: consumes bits if they satisfy the condition. */
    method PollBits(g: nat, payload: Payload) returns (r: Reply)
      requires Valid()
      modifies this`bits, this`s
      ensures Valid() && Ops.Outcome(s, r) == Ops.PollBits(old(s), g, payload)
    {
      hide TasksRep, MutexesRep, ChainsRep, BitmapRep, InvX, Satisfied, Ops.Consume;
      PollBitsKeeps(s, g, payload);
      if g >= |bits| || !payload.EventBits? {
        return Ops.BadId;
      }
      var original := bits[g];
      if Satisfied(original, payload) {
        SetGroup(g, Ops.Consume(original, payload));
        return Ops.OldBits(original);
      }
      r := Ops.Expired;
    }

    /** `wait` and `wait_timeout`, up to the dispatch. */
    method WaitBits(g: nat, payload: Payload, timed: bool) returns (r: Reply)
      requires Valid()
      modifies this`bits, this`queues, this`tasks, this`pending, this`s
      ensures Valid() && Ops.Outcome(s, r) == Ops.WaitBits(old(s), g, payload, timed)
    {
      hide TasksRep, MutexesRep, ChainsRep, BitmapRep, InvX, Satisfied, Ops.Consume, Ops.Block;
      WaitBitsKeeps(s, g, payload, timed);
      var inTask := InTask();
      if !inTask || boost {
        return Ops.BadContext;
      }
      if g >= |bits| || !payload.EventBits? {
        return Ops.BadId;
      }
      var original := bits[g];
      if Satisfied(original, payload) {
        SetGroup(g, Ops.Consume(original, payload));
        return Ops.OldBits(original);
      }
      ObjectQueuesInRange();
      Block(running.value, Some(cfg.GroupQueue(g)), payload, timed);
      r := Ops.Blocks;
    }

    /** `set`. */
    method SetBits(g: nat, added: bv32) returns (r: Reply)
      requires Valid()
      modifies this`bits, this`queues, this`tasks, this`ready, this`bitmap, this`pending, this`s
      ensures Valid() && Ops.Outcome(s, r) == Ops.SetBits(old(s), g, added)
    {
      hide TasksRep, MutexesRep, ChainsRep, BitmapRep, InvX, Joined, Ops.Pass, Ops.CheckPreemption, NoDup;
      SetBitsKeeps(s, g, added);
      if g >= |bits| {
        return Ops.BadId;
      }
      var eventGroupBits := bits[g];
      if Joined(eventGroupBits, added) == eventGroupBits {
        return Ops.Done;
      }
      OpenGroup(s, g);
      ObjectQueuesInRange();
      var left, wokeAny := WakeUpAllConditional(g, Joined(eventGroupBits, added));
      SetGroup(g, left);
      if wokeAny {
        CheckPreemption();
      }
      r := Ops.Done;
    }

    /** `wake_up_all_conditional` with the closure of `set`: the cursor visits the
        waiters in order; the next one is found before the current one is unlinked. */
    method WakeUpAllConditional(g: nat, initial: bv32) returns (left: bv32, wokeAny: bool)
      requires Rep() && InvX(s, Hole([], None, Some(g))) && Visiting(s, g, s.Queue(s.cfg.GroupQueue(g)))
      requires s.cfg.GroupQueue(g) < |s.queues|
      modifies this`queues, this`tasks, this`ready, this`bitmap, this`s
      ensures Rep()
      ensures var p := Ops.Pass(old(s), old(s).Queue(s.cfg.GroupQueue(g)), initial, false);
              s == p.state && left == p.bits && wokeAny == p.woke
      ensures |bits| == |old(bits)| && (s.running.Some? ==> s.running.value < |s.tasks|)
    {
      hide TasksRep, MutexesRep, ChainsRep, BitmapRep, InvX, Satisfied, Ops.Consume, Ops.WakeWithBits, NoDup;
      var waiters := queues[cfg.GroupQueue(g)];
      left, wokeAny := initial, false;
      RunningStays(Hole([], None, Some(g)));
      var i := 0;
      assert waiters[0..] == waiters;
      while i < |waiters|
        invariant i <= |waiters| && Rep() && InvX(s, Hole([], None, Some(g)))
        invariant Visiting(s, g, waiters[i..]) && s.cfg == cfg
        invariant Ops.Pass(s, waiters[i..], left, wokeAny) == Ops.Pass(old(s), waiters, initial, false)
        invariant |bits| == |old(bits)|
      {
        var t := waiters[i];
        assert waiters[i..][0] == t && waiters[i..][1..] == waiters[i + 1..];
        VisitedMayWake(s, g, t);
        TailFacts(waiters[i..]);
        TaskAt(t);
        var payload := tasks[t].currentWait.value.payload;
        if Satisfied(left, payload) {
          WakeWithBitsKeeps(s, g, t, left);
          WakeWithBitsIs(s, g, t, left);
          WakeWithBits(t, left, g);
          left := Ops.Consume(left, payload);
          wokeAny := true;
        }
        i := i + 1;
      }
      RunningStays(Hole([], None, Some(g)));
    }

    lemma RunningStays(h: Hole)
      requires InvX(s, h)
      ensures s.running.Some? ==> s.running.value < |s.tasks|
    {
    }

    /** Stores the bits for the waiter and wakes it. */
    method WakeWithBits(t: nat, seen: bv32, ghost g: nat)
      requires Rep() && InvX(s, Hole([], None, Some(g))) && t < |s.tasks|
      modifies this`queues, this`tasks, this`ready, this`bitmap, this`s
      ensures Rep() && s == Ops.WakeWithBits(old(s), t, seen)
    {
      InBounds(s, Hole([], None, Some(g)), t);
      hide TasksRep, MutexesRep, ChainsRep, BitmapRep, InvX, Ops.Wake;
      TaskAt(t);
      SetTask(t, tasks[t].(origBits := seen), s.Task(t).(origBits := seen));
      Wake(t, WaitOk);
    }

    /** `raw_event_group_clear`. */
    method ClearBits(g: nat, removed: bv32) returns (r: Reply)
      requires Valid()
      modifies this`bits, this`s
      ensures Valid() && Ops.Outcome(s, r) == Ops.ClearBits(old(s), g, removed)
    {
      hide TasksRep, MutexesRep, ChainsRep, BitmapRep, InvX, Cleared;
      ClearBitsKeeps(s, g, removed);
      if g >= |bits| {
        return Ops.BadId;
      }
      SetGroup(g, Cleared(bits[g], removed));
      r := Ops.Done;
    }

    // ----- the rest -----

    /** `boost_priority`. */
    method BoostPriority() returns (r: Reply)
      requires Valid()
      modifies this`boost, this`s
      ensures Valid() && Ops.Outcome(s, r) == Ops.Boost(old(s))
    {
      hide TasksRep, MutexesRep, ChainsRep, BitmapRep, InvX;
      BoostKeeps(s);
      var inTask := InTask();
      if !inTask || boost {
        return Ops.BadContext;
      }
      SetBoost(true);
      r := Ops.Done;
    }

    /** `unboost_priority`. */
    method UnboostPriority() returns (r: Reply)
      requires Valid()
      modifies this`boost, this`pending, this`s
      ensures Valid() && Ops.Outcome(s, r) == Ops.Unboost(old(s))
    {
      hide TasksRep, MutexesRep, ChainsRep, BitmapRep, InvX, Ops.CheckPreemption;
      BoostKeeps(s);
      var inTask := InTask();
      if !inTask || !boost {
        return Ops.BadContext;
      }
      SetBoost(false);
      CheckPreemption();
      r := Ops.Done;
    }

    /** `interrupt_task_by_timeout`, with the preemption check of `handle_tick`. */
    method ExpireTimeout(t: nat) returns (r: Reply)
      requires Valid() && t < |s.tasks|
      modifies this`queues, this`tasks, this`ready, this`bitmap, this`pending, this`s
      ensures Valid() && Ops.Outcome(s, r) == Ops.Expire(old(s), t)
    {
      hide Without;
      hide TasksRep, MutexesRep, ChainsRep, BitmapRep, Inv, Ops.Wake, Ops.CheckPreemption;
      ExpireKeeps(s, t);
      TimeoutInBounds(t);
      TaskAt(t);
      if !tasks[t].timer {
        return Ops.BadObjectState;
      }
      SetTask(t, tasks[t].(timer := false), s.Task(t).(timer := false));
      InterruptByTimeout(t);
      CheckPreemption();
      r := Ops.Done;
    }

    /** The tasks' timeouts that one `handle_tick` finds due, and its single preemption
        check. */
    method ExpireTimeouts(expired: seq<nat>)
      requires Valid() && forall i :: 0 <= i < |expired| ==> expired[i] < |s.tasks|
      modifies this`queues, this`tasks, this`ready, this`bitmap, this`pending, this`s
      ensures Valid() && s == Expiring.ExpireAll(old(s), expired) == Run(old(s), Expiring.Expiries(expired))
    {
      hide TasksRep, MutexesRep, ChainsRep, BitmapRep, Inv, InvX, Expiring.ExpireOne, Ops.CheckPreemption;
      Expiring.OneCheckIsEnough(s, expired);
      assert InvX(s, WHOLE) by { WholeInv(s); }
      var i := 0;
      assert expired[0..] == expired;
      while i < |expired|
        invariant i <= |expired| && Rep() && InvX(s, WHOLE) && |s.tasks| == |old(s).tasks|
        invariant Expiring.ExpireEach(s, expired[i..]) == Expiring.ExpireEach(old(s), expired)
      {
        var t := expired[i];
        assert expired[i..][0] == t && expired[i..][1..] == expired[i + 1..];
        Expiring.ExpireOneKeeps(s, t);
        ExpireOne(t);
        i := i + 1;
      }
      RunningInBounds();
      CheckPreemption();
    }

    /** `interrupt_task_by_timeout` for a timeout that is still registered. */
    method ExpireOne(t: nat)
      requires Rep() && InvX(s, WHOLE) && t < |s.tasks|
      modifies this`queues, this`tasks, this`ready, this`bitmap, this`s
      ensures Rep() && s == Expiring.ExpireOne(old(s), t)
    {
      hide TasksRep, MutexesRep, ChainsRep, BitmapRep, InvX, Ops.Wake;
      Bounds(t);
      TaskAt(t);
      if tasks[t].timer {
        SetTask(t, tasks[t].(timer := false), s.Task(t).(timer := false));
        InterruptByTimeout(t);
      }
    }

    lemma TimeoutInBounds(t: nat)
      requires Inv(s) && t < |s.tasks|
      ensures s.tasks[t].eff < |s.ready| && (QueueOf(s.tasks[t]).Some? ==> QueueOf(s.tasks[t]).value < |s.queues|)
      ensures s.running.Some? ==> s.running.value < |s.tasks|
    {
      Bounds(t);
    }

    /** Nothing happens if the task has been unblocked meanwhile. */
    method InterruptByTimeout(t: nat)
      requires Rep() && t < |s.tasks| && s.tasks[t].eff < |s.ready|
      requires QueueOf(s.tasks[t]).Some? ==> QueueOf(s.tasks[t]).value < |s.queues|
      modifies this`queues, this`tasks, this`ready, this`bitmap, this`s
      ensures Rep() && s == if old(s).tasks[t].st == Waiting then Ops.Wake(old(s), t, TimedOut) else old(s)
      ensures s.running == old(s).running && |s.tasks| == |old(s).tasks|
    {
      hide TasksRep, MutexesRep, ChainsRep, BitmapRep, Ops.Wake;
      TaskAt(t);
      WakeLeavesRunning(s, t, TimedOut);
      if tasks[t].st == Waiting {
        Wake(t, TimedOut);
      }
    }

    /** The return of a blocking call: the timeout is unregistered, and the wait result
        becomes the reply. */
    method Resume() returns (r: Reply)
      requires Valid()
      modifies this`tasks, this`s
      ensures Valid() && Ops.Outcome(s, r) == Ops.Resume(old(s))
    {
      hide TasksRep, MutexesRep, ChainsRep, BitmapRep, InvX, Ops.CallReply;
      RunningInBounds();
      ResumeKeeps(s);
      if running.None? {
        return Ops.BadContext;
      }
      var t := running.value;
      TaskAt(t);
      if tasks[t].st != Running || tasks[t].call == NoCall {
        return Ops.BadContext;
      }
      r := CallReply(tasks[t], s.tasks[t]);
      SetTask(t, tasks[t].(call := NoCall, timer := false), s.Task(t).(call := NoCall, timer := false));
    }

    method CallReply(c: TaskCb, ghost k: Task) returns (r: Reply)
      requires Rep() && c == CbOf(k)
      ensures r == Ops.CallReply(s, k)
    {
      match c.waitResult
      case WasInterrupted => r := Ops.IsInterrupted;
      case TimedOut => r := if c.call.Inside? && c.call.payload.Sleep? then Ops.Done else Ops.Expired;
      case WaitOk =>
        if c.call.Inside? && c.call.payload.Mutex? {
          if c.call.payload.m < |mutexes| {
            r := LockReply(c.call.payload.m);
          } else {
            r := Ops.Done;
          }
        } else if c.call.Inside? && c.call.payload.EventBits? {
          r := Ops.OldBits(c.origBits);
        } else {
          r := Ops.Done;
        }
    }
  }

  lemma {:induction false} AbandonSize(s: State, held: seq<nat>)
    ensures |Ops.AbandonAll(s, held).tasks| == |s.tasks|
    decreases |held|
  {
    hide Lower;
    if held != [] {
      var s1 := Ops.HandOff(s.WithMutex(held[0], s.Mutex(held[0]).(inconsistent := true)), held[0]);
      AbandonSize(s1, held[1..]);
    }
  }
}
