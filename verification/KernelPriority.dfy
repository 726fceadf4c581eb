/** Changing a task's base priority keeps the invariant (`set_task_base_priority`). */
module KernelPriority {
  import opened Lists
  import opened KernelState
  import opened WaitOrder
  import opened KernelInv
  import opened KernelLocal
  import opened KernelMoves
  import opened KernelSteps
  import opened KernelDispatch
  import opened KernelTasks
  import opened KernelOps

  /** The checks of `set_priority`: the new base priority is in range, and admitted by
      the ceilings when it is raised. */
  ghost predicate MaySetBase(s: State, t: nat, base: nat) {
    && t < |s.tasks| && s.tasks[t].st != Dormant && base < s.cfg.priorities
    && (base < s.tasks[t].base ==> MayRaise(s.cfg, s.tasks[t], base))
  }

  /** The task with its new priorities. */
  function Rebased(s: State, t: nat, base: nat): (k: Task) {
    s.Task(t).(base := base, eff := EffectivePriority(s.cfg, base, s.Task(t).held))
  }

  /** The ceilings admit the new base priority, whether it is raised or lowered. */
  lemma RebasedIsOk(s: State, t: nat, base: nat)
    requires InvX(s, WHOLE) && MaySetBase(s, t, base)
    ensures PrioritiesOk(s.cfg, Rebased(s, t, base)) && UpToDate(s.cfg, Rebased(s, t, base))
  {
    InBounds(s, WHOLE, t);
    hide InvX;
    EffectiveAtMostBase(s.cfg, base, s.tasks[t].held);
  }

  /** Whenever the task keeps its place, its control block is simply replaced. */
  lemma RebaseInPlace(s: State, t: nat, base: nat)
    requires InvX(s, WHOLE) && MaySetBase(s, t, base)
    requires var k := s.tasks[t];
             || Rebased(s, t, base).eff == k.eff || k.st == Running
             || (k.st == Waiting && !(QueueOf(k).Some? && s.cfg.Order(QueueOf(k).value).TaskPriority?))
    ensures InvX(s.WithTask(t, Rebased(s, t, base)), WHOLE)
  {
    RebasedIsOk(s, t, base);
    InBounds(s, WHOLE, t);
    hide InvX, HeldOk, PrioritiesOk, ResultFits, UpToDate, NoDup, QueueOk;
    UpdateKeeps(s, t, Rebased(s, t, base), WHOLE, WHOLE);
  }

  lemma ReprioritizeKeeps(s: State, t: nat, base: nat)
    requires Inv(s) && MaySetBase(s, t, base)
    ensures Inv(Reprioritize(s, t, base, Rebased(s, t, base).eff))
  {
    hide InvX, Requeue, MoveReady, CheckPreemption, PrioritiesOk, UpToDate, QueueOk, HeldOk, CallOk, PlacedOk;
    var k, k' := s.tasks[t], Rebased(s, t, base);
    var s1 := s.WithTask(t, k');
    RebasedIsOk(s, t, base);
    InBounds(s, WHOLE, t);
    if k.eff == k'.eff {
      RebaseInPlace(s, t, base);
      SameRule(s, s1);
    } else if k.st == Ready {
      MoveReadyKeeps(s, t, k');
      CheckRestoresRule(MoveReady(s1, t, k.eff));
    } else if k.st == Running {
      RebaseInPlace(s, t, base);
      CheckRestoresRule(s1);
    } else {
      ReprioritizeWaiting(s, t, base);
    }
  }

  lemma ReprioritizeWaiting(s: State, t: nat, base: nat)
    requires Inv(s) && MaySetBase(s, t, base) && s.tasks[t].st == Waiting && s.tasks[t].wait.Some?
    ensures Inv(Requeue(s.WithTask(t, Rebased(s, t, base)), t))
  {
    hide InvX, PrioritiesOk, UpToDate, QueueOk, Without, InsertAt, Place;
    var k, k' := s.tasks[t], Rebased(s, t, base);
    var s1 := s.WithTask(t, k');
    RebasedIsOk(s, t, base);
    if QueueOf(k).Some? && s.cfg.Order(QueueOf(k).value).TaskPriority? {
      RequeueKeeps(s, t, k');
    } else {
      RebaseInPlace(s, t, base);
    }
    RequeueRule(s, s1, t);
  }

  /** Moving a waiting task within its queue does not concern the dispatcher. */
  lemma RequeueRule(s: State, s1: State, t: nat)
    requires NoLostPreemption(s) && t < |s.tasks| && s1 == s.WithTask(t, s1.Task(t))
    requires s1.Task(t).st == s.tasks[t].st == Waiting
    ensures NoLostPreemption(Requeue(s1, t))
  {
    hide Without, InsertAt, Place;
  }

  lemma SetPriorityKeeps(s: State, t: nat, base: nat)
    requires Inv(s)
    ensures Inv(SetPriority(s, t, base).state)
  {
    hide InvX, NoLostPreemption, Reprioritize, EffectivePriority;
    if t < |s.tasks| && MaySetBase(s, t, base) {
      ReprioritizeKeeps(s, t, base);
    }
  }
}
