/** What `set_priority` promises: which requests it refuses, and where the task then
    stands. */
module KernelRebase {
  import opened Wrappers
  import opened Lists
  import opened KernelState
  import opened WaitOrder
  import opened KernelInv
  import opened KernelLocal
  import opened KernelMoves
  import opened KernelDispatch
  import opened KernelPriority
  import opened KernelOps

  /** The ceilings of the mutexes that the task holds or awaits admit the base priority. */
  ghost predicate CeilingsAdmit(cfg: Config, k: Task, base: nat) {
    forall m :: 0 <= m < |cfg.ceilings| && cfg.ceilings[m].Some?
                && (m in k.held || (k.wait.Some? && k.wait.value.payload == Payload.Mutex(m))) ==>
      cfg.ceilings[m].value <= base
  }

  /** `set_priority` refuses a priority out of range, then a dormant task, then a priority
      above the ceiling of a mutex that the task holds or awaits; otherwise it succeeds,
      whether it raises, lowers or keeps the priority. A refusal changes nothing. */
  lemma SetPriorityReplies(s: State, t: nat, base: nat)
    requires Inv(s) && t < |s.tasks|
    ensures var k := s.tasks[t];
            var o := SetPriority(s, t, base);
            && o.reply == (if base >= s.cfg.priorities then BadParam
                           else if k.st == Dormant then BadObjectState
                           else if !CeilingsAdmit(s.cfg, k, base) then BadParam
                           else Done)
            && (o.reply != Done ==> o.state == s)
  {
    hide Reprioritize, EffectivePriority, CeilingsAdmit;
    InBounds(s, WHOLE, t);
    var k := s.tasks[t];
    HeldInRange(s, t);
    AdmitsIff(s.cfg, k, base);
    AdmitsIff(s.cfg, k, k.base);
    if base >= k.base { LowerIsAdmitted(s.cfg, k, base); }
    hide InvX;
  }

  lemma HeldInRange(s: State, t: nat)
    requires InvX(s, WHOLE) && t < |s.tasks|
    ensures forall m :: m in s.tasks[t].held ==> m < |s.cfg.ceilings|
    ensures var k := s.tasks[t];
            k.wait.Some? && k.wait.value.payload.Mutex? ==> k.wait.value.payload.m < |s.cfg.ceilings|
  {
    InBounds(s, WHOLE, t);
  }

  lemma AdmitsIff(cfg: Config, k: Task, base: nat)
    requires forall m :: m in k.held ==> m < |cfg.ceilings|
    requires k.wait.Some? && k.wait.value.payload.Mutex? ==> k.wait.value.payload.m < |cfg.ceilings|
    ensures MayRaise(cfg, k, base) <==> CeilingsAdmit(cfg, k, base)
  {
    forall m | 0 <= m < |cfg.ceilings|
      ensures Admits(cfg, m, base) <==> (cfg.ceilings[m].Some? ==> cfg.ceilings[m].value <= base)
    {
    }
    hide Admits;
    if k.wait.Some? && k.wait.value.payload.Mutex? {
      assert k.wait.value.payload == Payload.Mutex(k.wait.value.payload.m);
    }
  }

  lemma LowerIsAdmitted(cfg: Config, k: Task, base: nat)
    requires CeilingsAdmit(cfg, k, k.base) && base >= k.base
    ensures CeilingsAdmit(cfg, k, base)
  {
  }

  /** The task with its new priorities. */
  ghost predicate RebasedTask(cfg: Config, k: Task, k': Task, base: nat) {
    k' == k.(base := base, eff := EffectivePriority(cfg, base, k.held), wait := k'.wait)
  }

  /** Where the task stands with another effective priority: a ready task at the back of
      its new level; a task waiting by priority in its new place, behind its equals, as if
      it had just arrived there; a running task, and one waiting in another way, where it
      was. */
  ghost predicate Repositioned(s: State, s': State, t: nat)
    requires t < |s.tasks| && t < |s'.tasks|
  {
    var k, k' := s.tasks[t], s'.tasks[t];
    var q := QueueOf(k);
    if k.st == Ready then
      && k'.wait == k.wait && s'.queues == s.queues && s'.clock == s.clock
      && k.eff < |s.ready| && k'.eff < |s.ready|
      && s'.ready == s.ready[k.eff := Without(s.ready[k.eff], t)][k'.eff := s.ready[k'.eff] + [t]]
    else
      && s'.ready == s.ready
      && if k.st == Waiting && q.Some? && s.cfg.Order(q.value).TaskPriority? then
           && k'.wait == Some(k.wait.value.(since := s.clock)) && s'.clock == s.clock + 1
           && q.value < |s.queues| == |s'.queues| && s'.queues == s.queues[q.value := s'.queues[q.value]]
           && LinkedBehind(TaskPriority, s'.tasks, Without(s.queues[q.value], t), s'.queues[q.value], t)
         else k'.wait == k.wait && s'.queues == s.queues && s'.clock == s.clock
  }

  /** When it succeeds, the task has the new base priority and the effective priority that
      goes with it; if that is another one than before, the task moves; nothing else
      changes but the request for a dispatch. */
  lemma SetPriorityMoves(s: State, t: nat, base: nat)
    requires Inv(s) && t < |s.tasks| && SetPriority(s, t, base).reply == Done
    ensures Rebasing(s, SetPriority(s, t, base).state, t, base)
  {
    hide Reprioritize, EffectivePriority, Rebasing;
    InBounds(s, WHOLE, t);
    if s.tasks[t].base == base {
      SameRebasing(s, t);
    } else {
      MayRebase(s, t, base);
      ReprioritizeMoves(s, t, base);
    }
  }

  ghost predicate Rebasing(s: State, s': State, t: nat, base: nat)
    requires t < |s.tasks|
  {
    && |s'.tasks| == |s.tasks| && RebasedTask(s.cfg, s.tasks[t], s'.tasks[t], base)
    && s' == s.(tasks := s.tasks[t := s'.tasks[t]], ready := s'.ready, queues := s'.queues, clock := s'.clock,
                pending := s'.pending)
    && if s'.tasks[t].eff == s.tasks[t].eff then s' == s.(tasks := s.tasks[t := s.tasks[t].(base := base)])
       else Repositioned(s, s', t)
  }

  lemma SameRebasing(s: State, t: nat)
    requires t < |s.tasks| && s.tasks[t].st != Dormant && UpToDate(s.cfg, s.tasks[t])
    ensures Rebasing(s, s, t, s.tasks[t].base)
  {
  }

  lemma MayRebase(s: State, t: nat, base: nat)
    requires Inv(s) && t < |s.tasks| && SetPriority(s, t, base).reply == Done && s.tasks[t].base != base
    ensures MaySetBase(s, t, base)
    ensures SetPriority(s, t, base).state == Reprioritize(s, t, base, Rebased(s, t, base).eff)
  {
    hide Reprioritize, EffectivePriority, MayRaise, InvX;
  }

  lemma ReprioritizeMoves(s: State, t: nat, base: nat)
    requires InvX(s, WHOLE) && MaySetBase(s, t, base)
    ensures Rebasing(s, Reprioritize(s, t, base, Rebased(s, t, base).eff), t, base)
  {
    hide InvX, EffectivePriority, CheckPreemption, Requeue, MoveReady, Rebasing;
    var k, k' := s.tasks[t], Rebased(s, t, base);
    var s1 := s.WithTask(t, k');
    InBounds(s, WHOLE, t);
    if k.eff == k'.eff {
      SameEffective(s, t, base);
    } else if k.st == Ready {
      RebasedInRange(s, t, base);
      MoveReadyIs(s, t, k');
      CheckOnlyAsks(MoveReady(s1, t, k.eff));
      ReadyMoved(s, CheckPreemption(MoveReady(s1, t, k.eff)), t, base);
    } else if k.st == Waiting && QueueOf(k).Some? && s.cfg.Order(QueueOf(k).value).TaskPriority? {
      RequeueMoved(s, t, base);
    } else {
      RequeueLeaves(s1, t);
      CheckOnlyAsks(s1);
      StaysPut(s, if k.st == Waiting then Requeue(s1, t) else CheckPreemption(s1), t, base);
    }
  }

  lemma RebasedInRange(s: State, t: nat, base: nat)
    requires InvX(s, WHOLE) && MaySetBase(s, t, base)
    ensures Rebased(s, t, base).eff < |s.ready|
  {
    RebasedIsOk(s, t, base);
    PriorityInRange(s.cfg, Rebased(s, t, base));
    hide Tasks, Queues, Levels, Mutexes, Sems, Groups;
  }

  lemma SameEffective(s: State, t: nat, base: nat)
    requires t < |s.tasks| && Rebased(s, t, base).eff == s.tasks[t].eff
    ensures Rebasing(s, s.WithTask(t, Rebased(s, t, base)), t, base)
  {
    hide EffectivePriority;
  }

  lemma ReadyMoved(s: State, s': State, t: nat, base: nat)
    requires t < |s.tasks| && s.tasks[t].st == Ready
    requires var k, k' := s.tasks[t], Rebased(s, t, base);
             && k.eff < |s.ready| && k'.eff < |s.ready| && k'.eff != k.eff
             && s' == s.(tasks := s.tasks[t := k'], pending := s'.pending,
                         ready := s.ready[k.eff := Without(s.ready[k.eff], t)][k'.eff := s.ready[k'.eff] + [t]])
    ensures Rebasing(s, s', t, base)
  {
    hide Without, EffectivePriority;
  }

  lemma RequeueMoved(s: State, t: nat, base: nat)
    requires InvX(s, WHOLE) && t < |s.tasks| && s.tasks[t].st == Waiting && QueueOf(s.tasks[t]).Some?
    requires QueueOf(s.tasks[t]).value < |s.queues| && s.cfg.Order(QueueOf(s.tasks[t]).value).TaskPriority?
    requires Rebased(s, t, base).eff != s.tasks[t].eff
    ensures Rebasing(s, Requeue(s.WithTask(t, Rebased(s, t, base)), t), t, base)
  {
    hide Requeue, LinkedBehind, Without, InsertAt, Place, Tasks, Levels, Mutexes, Sems, Groups, Runs, Sorted, NoDup;
    hide EffectivePriority;
    var q := QueueOf(s.tasks[t]).value;
    var k' := Rebased(s, t, base);
    RequeueIs(s, t, k');
    var s' := Requeue(s.WithTask(t, k'), t);
    assert QueueOk(s, q);
    RelinkedBehind(s.tasks, s'.tasks, s.queues[q], t);
  }

  lemma RelinkedBehind(tasks: seq<Task>, tasks': seq<Task>, w: seq<nat>, t: nat)
    requires Sorted(TaskPriority, tasks, w) && NoDup(w)
    requires forall u :: u != t ==> TaskOf(tasks', u) == TaskOf(tasks, u)
    ensures LinkedBehind(TaskPriority, tasks', Without(w, t), Relinked(TaskPriority, tasks', w, t), t)
  {
    hide LinkedBehind, Without, InsertAt, Place, Sorted, NoDup, TaskOf;
    WithoutFacts(w, t);
    RemoveKeepsSorted(TaskPriority, tasks, w, t);
    SortedFrame(TaskPriority, tasks, Without(w, t), tasks');
    InsertLinksBehind(TaskPriority, tasks', Without(w, t), t);
  }

  lemma StaysPut(s: State, s': State, t: nat, base: nat)
    requires t < |s.tasks| && s.tasks[t].st != Ready && Rebased(s, t, base).eff != s.tasks[t].eff
    requires s' == s.(tasks := s.tasks[t := Rebased(s, t, base)], pending := s'.pending)
    requires !(s.tasks[t].st == Waiting && QueueOf(s.tasks[t]).Some?
               && s.cfg.Order(QueueOf(s.tasks[t]).value).TaskPriority?)
    ensures Rebasing(s, s', t, base)
  {
    hide EffectivePriority;
  }

  lemma RequeueLeaves(s: State, t: nat)
    requires !(QueueOf(s.Task(t)).Some? && s.cfg.Order(QueueOf(s.Task(t)).value).TaskPriority?)
    ensures Requeue(s, t) == s
  {
  }
}
