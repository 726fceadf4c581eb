/** How the primitive steps of `KernelOps` treat the invariant. */
module KernelSteps {
  import opened Wrappers
  import opened Lists
  import opened KernelState
  import opened WaitOrder
  import opened KernelInv
  import opened KernelLocal
  import opened KernelMoves
  import opened KernelOps

  // ----- waking a task up -----

  /** `Wake`, in one update. */
  lemma WakeIs(s: State, t: nat, result: WaitResult)
    requires t < |s.tasks| && s.tasks[t].eff < |s.ready|
    requires QueueOf(s.tasks[t]).Some? ==> QueueOf(s.tasks[t]).value < |s.queues|
    ensures var k := s.tasks[t];
            Wake(s, t, result) == s.(
              tasks := s.tasks[t := k.(st := Ready, wait := None, result := result)],
              queues := if QueueOf(k).Some? then s.queues[QueueOf(k).value := Without(s.queues[QueueOf(k).value], t)]
                        else s.queues,
              ready := s.ready[k.eff := s.ready[k.eff] + [t]])
  {
  }

  /** What waking `t` needs: it is waiting, and the result is right for its call. */
  ghost predicate MayWake(s: State, t: nat, result: WaitResult) {
    && t < |s.tasks| && s.tasks[t].st == Waiting && s.tasks[t].wait.Some?
    && s.tasks[t].call.Inside?
    && ResultFits(s.mutexes, t, s.tasks[t].call.payload, s.tasks[t].call.timed, result)
  }

  /** Taking a task out of its wait queue moves only that task. */
  lemma UnlinkMoves(w: seq<nat>, t: nat, order: QueueOrder, tasks: seq<Task>, tasks': seq<Task>)
    requires NoDup(w) && Sorted(order, tasks, w)
    requires forall u :: u in w && u != t ==> TaskOf(tasks', u) == TaskOf(tasks, u)
    ensures OnlyMember(w, Without(w, t), t) && Sorted(order, tasks', Without(w, t)) && t !in Without(w, t)
  {
    hide Without, Sorted, NoDup;
    WithoutFacts(w, t);
    RemoveKeepsSorted(order, tasks, w, t);
    SortedFrame(order, tasks, Without(w, t), tasks');
  }

  lemma WakeMovesQueues(s: State, t: nat, result: WaitResult, h: Hole)
    requires InvX(s, h) && MayWake(s, t, result)
    ensures QueuesMoved(s, Wake(s, t, result), t)
  {
    hide Tasks, TaskOk, Levels, Mutexes, Sems, Groups, Runs, Sorted, NoDup, Without, Wake, ResultFits, UpToDate;
    InBounds(s, h, t);
    WakeIs(s, t, result);
    var s' := Wake(s, t, result);
    forall q | 0 <= q < |s.queues|
      ensures OnlyMember(s.queues[q], s'.queues[q], t) && Sorted(s.cfg.Order(q), s'.tasks, s'.queues[q])
      ensures t !in s'.queues[q]
    {
      assert QueueOk(s, q);
      UnlinkMoves(s.queues[q], t, s.cfg.Order(q), s.tasks, s'.tasks);
      assert QueueOf(s.tasks[t]) != Some(q) ==> t !in s.queues[q];
      SortedFrame(s.cfg.Order(q), s.tasks, s.queues[q], if QueueOf(s.tasks[t]) == Some(q) then s.tasks else s'.tasks);
    }
  }

  /** Appending a task that is not ready yet moves only that task. */
  lemma AppendMoves(s: State, s': State, h: Hole, t: nat)
    requires InvX(s, h) && t < |s.tasks| && s.tasks[t].st != Ready && s.tasks[t].eff < |s.ready|
    requires s'.ready == s.ready[s.tasks[t].eff := s.ready[s.tasks[t].eff] + [t]]
    requires s'.Task(t).st == Ready && s'.Task(t).eff == s.tasks[t].eff
    ensures LevelsMoved(s, s', t)
  {
    hide Tasks, Queues, Mutexes, Sems, Groups, Runs, NoDup;
    forall p | 0 <= p < |s.ready|
      ensures OnlyMember(s.ready[p], s'.ready[p], t) && (t in s'.ready[p] ==> p == s.tasks[t].eff)
    {
      assert LevelOk(s, p);
      AppendFacts(s.ready[p], t);
    }
  }

  lemma WakeKeepsOwn(s: State, t: nat, result: WaitResult, h: Hole)
    requires InvX(s, h) && MayWake(s, t, result)
    ensures var s' := Wake(s, t, result);
            TaskOk(s', t, s'.Task(t)) && (h.task != Some(t) ==> UpToDate(s.cfg, s'.Task(t)))
  {
    hide InvX, NoDup, HeldOk, Wake, QueueOk, ResultFits, EffectivePriority;
    InBounds(s, h, t);
    WakeIs(s, t, result);
  }

  lemma WakeIsLocal(s: State, t: nat, result: WaitResult, h: Hole)
    requires InvX(s, h) && MayWake(s, t, result)
    ensures Local(s, Wake(s, t, result), t, h)
  {
    hide Queues, Levels, Mutexes, Sems, Groups, QueuesMoved, LevelsMoved, NoDup, HeldOk, CallOk, PrioritiesOk;
    hide Wake, QueueOk, ResultFits, UpToDate;
    WakeKeepsOwn(s, t, result, h);
    InBounds(s, h, t);
    WakeIs(s, t, result);
    WakeMovesQueues(s, t, result, h);
    AppendMoves(s, Wake(s, t, result), h, t);
  }

  /** Completing a wait, inside any system call. */
  lemma WakeKeeps(s: State, t: nat, result: WaitResult, h: Hole)
    requires InvX(s, h) && MayWake(s, t, result)
    ensures InvX(Wake(s, t, result), h)
  {
    WakeIsLocal(s, t, result, h);
    LocalKeeps(s, Wake(s, t, result), t, h);
  }

  // ----- taking a mutex -----

  /** What giving mutex `m` to task `t` needs: nobody has it in its list, its previous
      owner is not inside a call, and `t` is running and between calls, or the first
      waiter. */
  ghost predicate MayOwn(s: State, m: nat, t: nat) {
    && m < |s.mutexes| && t < |s.tasks|
    && (forall u :: 0 <= u < |s.tasks| ==> m !in s.tasks[u].held)
    && (s.mutexes[m].owner.Some? ==> s.Task(s.mutexes[m].owner.value).call == NoCall)
    && Admits(s.cfg, m, s.tasks[t].base)
    && (s.tasks[t].st == Running || (s.tasks[t].st == Waiting && s.Queue(m) != [] && s.Queue(m)[0] == t))
    && (s.tasks[t].st == Running ==> s.tasks[t].call == NoCall)
  }

  lemma LockCoreIs(s: State, m: nat, t: nat)
    requires m < |s.mutexes| && t < |s.tasks|
    ensures var k := s.tasks[t];
            LockCore(s, m, t) == s.(
              tasks := s.tasks[t := k.(held := [m] + k.held, eff := Lower(k.eff, s.cfg.Ceiling(m)))],
              mutexes := s.mutexes[m := s.mutexes[m].(owner := Some(t))])
  {
  }

  lemma LockCoreKeepsOwn(s: State, m: nat, t: nat, h: Hole)
    requires InvX(s, h) && MayOwn(s, m, t)
    ensures var s' := LockCore(s, m, t);
            TaskOk(s', t, s'.Task(t)) && (UpToDate(s.cfg, s.tasks[t]) ==> UpToDate(s.cfg, s'.Task(t)))
  {
    hide InvX, LockCore;
    InBounds(s, h, t);
    LockCoreIs(s, m, t);
    var k := s.tasks[t];
    assert ([m] + k.held)[1..] == k.held;
    assert NoDup([m] + k.held);
  }

  lemma LockCoreKeepsOther(s: State, m: nat, t: nat, h: Hole, u: nat)
    requires InvX(s, h) && MayOwn(s, m, t) && u < |s.tasks| && u != t
    ensures LockCore(s, m, t).Task(u) == s.tasks[u] && TaskOk(LockCore(s, m, t), u, s.tasks[u])
  {
    hide InvX, LockCore, PrioritiesOk, LifeOk, QueueOk, NoDup;
    InBounds(s, h, u);
    LockCoreIs(s, m, t);
  }

  lemma LockCoreKeepsTasks(s: State, m: nat, t: nat, h: Hole)
    requires InvX(s, h) && MayOwn(s, m, t)
    ensures Tasks(LockCore(s, m, t), h)
  {
    hide TaskOk, UpToDate, LockCore;
    LockCoreIs(s, m, t);
    LockCoreKeepsOwn(s, m, t, h);
    forall u | 0 <= u < |s.tasks| && u != t
      ensures LockCore(s, m, t).Task(u) == s.tasks[u] && TaskOk(LockCore(s, m, t), u, s.tasks[u])
    {
      LockCoreKeepsOther(s, m, t, h, u);
    }
    hide InvX, MayOwn;
  }

  lemma LockCoreKeepsQueues(s: State, m: nat, t: nat, h: Hole)
    requires InvX(s, h) && MayOwn(s, m, t)
    ensures Queues(LockCore(s, m, t)) && Levels(LockCore(s, m, t))
  {
    hide Mutexes, Sems, Groups, Runs, NoDup, LockCore, Sorted, HeldOk, CallOk, PrioritiesOk, PlacedOk;
    InBounds(s, h, t);
    LockCoreIs(s, m, t);
    var s' := LockCore(s, m, t);
    forall q | 0 <= q < |s.queues|
      ensures QueueOk(s', q)
    {
      assert QueueOk(s, q);
      if t in s.queues[q] {
        assert QueueOk(s, m);
        assert s.queues[q][0] == t;
        RaiseFirstKeepsSorted(s.cfg.Order(q), s.tasks, s.queues[q], s'.tasks);
      } else {
        SortedFrame(s.cfg.Order(q), s.tasks, s.queues[q], s'.tasks);
      }
    }
    forall p | 0 <= p < |s.ready|
      ensures LevelOk(s', p)
    {
      assert LevelOk(s, p);
    }
  }

  lemma LockCoreKeepsObjects(s: State, m: nat, t: nat, h: Hole)
    requires InvX(s, h) && MayOwn(s, m, t) && m in h.orphans
    ensures var s' := LockCore(s, m, t);
            Shape(s') && Mutexes(s', h) && Sems(s') && Groups(s', h) && Runs(s')
  {
    hide Tasks, Queues, Levels, LockCore, Satisfied;
    LockCoreIs(s, m, t);
    var s' := LockCore(s, m, t);
    assert forall x: nat :: s'.Task(x).wait == s.Task(x).wait && s'.Task(x).st == s.Task(x).st;
    forall n | 0 <= n < |s.mutexes| && n !in h.orphans ensures MutexOk(s', n) {
      assert MutexOk(s, n);
    }
    forall i | 0 <= i < |s.values| ensures SemOk(s', i) {
      assert SemOk(s, i);
    }
    forall g | 0 <= g < |s.bits| && h.group != Some(g) ensures GroupOk(s', g) {
      assert GroupOk(s, g);
    }
  }

  lemma LockCoreKeeps(s: State, m: nat, t: nat, h: Hole)
    requires InvX(s, h) && MayOwn(s, m, t) && m in h.orphans
    ensures InvX(LockCore(s, m, t), h)
  {
    hide Shape, Tasks, Queues, Levels, Mutexes, Sems, Groups, Runs, LockCore, MayOwn;
    LockCoreKeepsTasks(s, m, t, h);
    LockCoreKeepsQueues(s, m, t, h);
    LockCoreKeepsObjects(s, m, t, h);
  }

  // ----- handing a mutex on -----

  /** `m` has left its owner's list; the owner is not inside a call. */
  ghost predicate Orphaned(s: State, m: nat) {
    && m < |s.mutexes|
    && (forall u :: 0 <= u < |s.tasks| ==> m !in s.tasks[u].held)
    && (s.mutexes[m].owner.Some? ==> s.Task(s.mutexes[m].owner.value).call == NoCall)
  }

  /** A waiter of a mutex may be given it. */
  lemma FirstWaiterMayOwn(s: State, m: nat, h: Hole)
    requires InvX(s, h) && Orphaned(s, m) && s.Queue(m) != []
    ensures MayOwn(s, m, s.Queue(m)[0])
    ensures var k := s.Task(s.Queue(m)[0]);
            && k.st == Waiting && k.wait.Some? && k.call.Inside? && k.call.payload == Payload.Mutex(m)
            && QueueOf(k) == Some(m)
  {
    var t := s.Queue(m)[0];
    assert QueueOk(s, m);
    assert t in s.Queue(m);
    assert t < |s.tasks| && QueueOf(s.tasks[t]) == Some(m);
    hide QueueOk, Queues, HeldOk, NoDup;
    InBounds(s, h, t);
  }

  /** What `HandOff` does: the mutex becomes free, or goes to the first waiter, whose
      lock succeeds; nothing else changes. */
  lemma HandOffIs(s: State, m: nat, h: Hole)
    requires InvX(s, h) && Orphaned(s, m)
    ensures var s' := HandOff(s, m);
            if s.Queue(m) == [] then s' == s.(mutexes := s.mutexes[m := s.mutexes[m].(owner := None)])
            else
              var t := s.Queue(m)[0];
              var k := s.Task(t);
              var eff := Lower(k.eff, s.cfg.Ceiling(m));
              && t < |s.tasks| && eff < |s.ready| && m < |s.queues|
              && s' == s.(mutexes := s.mutexes[m := s.mutexes[m].(owner := Some(t))],
                          tasks := s.tasks[t := k.(st := Ready, wait := None, result := WaitOk,
                                                   held := [m] + k.held, eff := eff)],
                          queues := s.queues[m := s.queues[m][1..]],
                          ready := s.ready[eff := s.ready[eff] + [t]])
  {
    if s.Queue(m) != [] {
      var t := s.Queue(m)[0];
      FirstWaiterMayOwn(s, m, h);
      InBounds(s, h, t);
      hide InvX, Orphaned, MayOwn, Wake, LockCore, TaskOk, NoDup, Without;
      LockCoreIs(s, m, t);
      WakeIs(LockCore(s, m, t), t, WaitOk);
      WithoutFirst(s.queues[m]);
    }
  }

  /** The hole closes once the mutex is consistent with its owner. */
  lemma Adopt(s: State, m: nat, h: Hole)
    requires InvX(s, h) && h.orphans != [] && h.orphans[0] == m && MutexOk(s, m)
    ensures InvX(s, h.(orphans := h.orphans[1..]))
  {
    hide Shape, Queues, Levels, Sems, Runs, MutexOk, TaskOk, UpToDate, GroupOk;
  }

  lemma FreeKeeps(s: State, m: nat, h: Hole)
    requires InvX(s, h) && Orphaned(s, m) && m in h.orphans && s.Queue(m) == []
    ensures InvX(s.WithMutex(m, s.Mutex(m).(owner := None)), h)
  {
    hide QueueOk, LevelOk, PrioritiesOk, LifeOk, UpToDate, SemOk, GroupOk, Sorted, NoDup;
    var s' := s.WithMutex(m, s.Mutex(m).(owner := None));
    forall u | 0 <= u < |s.tasks|
      ensures TaskOk(s', u, s'.tasks[u])
    {
      FreeKeepsTask(s, m, h, u);
    }
    forall q | 0 <= q < |s.queues| ensures QueueOk(s', q) { SameQueue(s, s', q); }
    forall p | 0 <= p < |s.ready| ensures LevelOk(s', p) { SameLevel(s, s', p); }
    forall i | 0 <= i < |s.values| ensures SemOk(s', i) { SameObjects(s, s', i); }
    forall g | 0 <= g < |s.bits| && h.group != Some(g) ensures GroupOk(s', g) { SameObjects(s, s', g); }
    hide TaskOk;
  }

  lemma FreeKeepsTask(s: State, m: nat, h: Hole, u: nat)
    requires InvX(s, h) && Orphaned(s, m) && u < |s.tasks|
    ensures TaskOk(s.WithMutex(m, s.Mutex(m).(owner := None)), u, s.tasks[u])
  {
    hide InvX, PrioritiesOk, LifeOk, NoDup, QueueOk;
    InBounds(s, h, u);
  }

  lemma SameQueue(s: State, s': State, q: nat)
    requires s'.tasks == s.tasks && s'.cfg == s.cfg && s'.queues == s.queues
    ensures QueueOk(s', q) == QueueOk(s, q)
  {
    hide Sorted, NoDup;
  }

  lemma SameLevel(s: State, s': State, p: nat)
    requires s'.tasks == s.tasks && s'.ready == s.ready
    ensures LevelOk(s', p) == LevelOk(s, p)
  {
    hide NoDup;
  }

  lemma SameObjects(s: State, s': State, i: nat)
    requires s'.tasks == s.tasks && s'.cfg == s.cfg && s'.queues == s.queues && s'.values == s.values
    requires s'.bits == s.bits
    ensures SemOk(s', i) == SemOk(s, i) && GroupOk(s', i) == GroupOk(s, i)
  {
    assert forall x: nat :: s'.Task(x) == s.Task(x);
    assert forall q: nat :: s'.Queue(q) == s.Queue(q);
    assert s'.Bits(i) == s.Bits(i);
    hide Satisfied;
  }

  lemma HandOffKeeps(s: State, m: nat, h: Hole)
    requires InvX(s, h) && Orphaned(s, m) && h.orphans != [] && h.orphans[0] == m
    ensures InvX(HandOff(s, m), h.(orphans := h.orphans[1..]))
  {
    hide Without, Wake, SemOk, GroupOk;
    var s' := HandOff(s, m);
    HandOffIs(s, m, h);
    if s.Queue(m) == [] {
      FreeKeeps(s, m, h);
      assert MutexOk(s', m);
    } else {
      var t := s.Queue(m)[0];
      FirstWaiterMayOwn(s, m, h);
      LockCoreKeeps(s, m, t, h);
      LockCoreIs(s, m, t);
      assert MayWake(LockCore(s, m, t), t, WaitOk);
      assert QueueOk(s, m);
      TailFacts(s.queues[m]);
      assert MutexOk(s', m);
      hide MayWake, MayOwn, LockCore;
      WakeKeeps(LockCore(s, m, t), t, WaitOk, h);
    }
    hide MutexOk, InvX, HandOff;
    Adopt(s', m, h);
  }

  // ----- updating a task in place -----

  /** `k'` may replace task `t` without moving it: the new hole `h'` covers what the
      update leaves open. */
  ghost predicate MayUpdate(s: State, t: nat, k': Task, h: Hole, h': Hole) {
    && t < |s.tasks| && h'.group == h.group
    && k'.st == s.tasks[t].st && k'.wait == s.tasks[t].wait
    && (k'.st == Ready ==> k'.eff == s.tasks[t].eff)
    && (QueueOf(k').Some? && s.cfg.Order(QueueOf(k').value).TaskPriority? ==> k'.eff == s.tasks[t].eff)
    && TaskOk(s, t, k')
    && (h'.task != Some(t) ==> UpToDate(s.cfg, k'))
    && (h.task.Some? ==> h.task == h'.task || h.task == Some(t))
    && (forall m :: m in h.orphans ==> m in h'.orphans)
    && (forall m :: m in s.tasks[t].held && m !in h'.orphans ==> m in k'.held)
  }

  lemma SameTaskOk(s: State, s': State, t: nat, k: Task)
    requires s'.cfg == s.cfg && s'.mutexes == s.mutexes && s'.queues == s.queues && s'.ready == s.ready
    requires s'.running == s.running && s'.clock == s.clock
    ensures TaskOk(s', t, k) == TaskOk(s, t, k)
  {
    hide HeldOk, PrioritiesOk, LifeOk, CallOk;
  }

  lemma UpdateKeepsTasks(s: State, t: nat, k': Task, h: Hole, h': Hole)
    requires InvX(s, h) && MayUpdate(s, t, k', h, h')
    ensures Tasks(s.WithTask(t, k'), h')
  {
    hide TaskOk, UpToDate, Queues, Levels, Mutexes, Sems, Groups, Runs;
    var s' := s.WithTask(t, k');
    forall u | 0 <= u < |s.tasks|
      ensures TaskOk(s', u, s'.tasks[u]) && (h'.task != Some(u) ==> UpToDate(s.cfg, s'.tasks[u]))
    {
      SameTaskOk(s, s', u, s'.tasks[u]);
      assert TaskOk(s, u, s.tasks[u]);
    }
  }

  lemma UpdateKeepsQueues(s: State, t: nat, k': Task, h: Hole, h': Hole)
    requires InvX(s, h) && MayUpdate(s, t, k', h, h')
    ensures Queues(s.WithTask(t, k')) && Levels(s.WithTask(t, k'))
  {
    hide TaskOk, UpToDate, Mutexes, Sems, Groups, Runs, Sorted, NoDup;
    var s' := s.WithTask(t, k');
    forall q | 0 <= q < |s.queues|
      ensures QueueOk(s', q)
    {
      assert QueueOk(s, q);
      SortedFrame(s.cfg.Order(q), s.tasks, s.queues[q], s'.tasks);
    }
    forall p | 0 <= p < |s.ready|
      ensures LevelOk(s', p)
    {
      assert LevelOk(s, p);
    }
  }

  lemma UpdateKeepsObjects(s: State, t: nat, k': Task, h: Hole, h': Hole)
    requires InvX(s, h) && MayUpdate(s, t, k', h, h')
    ensures var s' := s.WithTask(t, k'); Mutexes(s', h') && Sems(s') && Groups(s', h') && Runs(s')
  {
    hide TaskOk, UpToDate, Tasks, Queues, Levels, Satisfied;
    var s' := s.WithTask(t, k');
    assert forall x: nat :: s'.Task(x).wait == s.Task(x).wait && s'.Task(x).st == s.Task(x).st;
    assert forall q: nat :: s'.Queue(q) == s.Queue(q);
    forall m | 0 <= m < |s.mutexes| && m !in h'.orphans ensures MutexOk(s', m) {
      assert MutexOk(s, m);
    }
    forall i | 0 <= i < |s.values| ensures SemOk(s', i) {
      assert SemOk(s, i);
    }
    forall g | 0 <= g < |s.bits| && h'.group != Some(g) ensures GroupOk(s', g) {
      assert GroupOk(s, g);
    }
  }

  lemma UpdateKeeps(s: State, t: nat, k': Task, h: Hole, h': Hole)
    requires InvX(s, h) && MayUpdate(s, t, k', h, h')
    ensures InvX(s.WithTask(t, k'), h')
  {
    hide Tasks, Queues, Levels, Mutexes, Sems, Groups, Runs, MayUpdate;
    UpdateKeepsTasks(s, t, k', h, h');
    UpdateKeepsQueues(s, t, k', h, h');
    UpdateKeepsObjects(s, t, k', h, h');
  }

  // ----- the ready queue -----

  /** A task that is dormant, or running and about to lose the processor, may go to
      the ready queue; `running'` is the running task from then on. */
  ghost predicate MayReady(s: State, t: nat, running': Option<nat>) {
    && t < |s.tasks|
    && if s.tasks[t].st == Dormant
       then running' == s.running && s.tasks[t].eff == EffectivePriority(s.cfg, s.tasks[t].base, s.tasks[t].held)
       else s.tasks[t].st == Running && running' == None && !s.boost
  }

  lemma MakeReadyIs(s: State, t: nat)
    requires t < |s.tasks| && s.tasks[t].eff < |s.ready|
    ensures MakeReady(s, t) == s.(tasks := s.tasks[t := s.tasks[t].(st := Ready)],
                                  ready := s.ready[s.tasks[t].eff := s.ready[s.tasks[t].eff] + [t]])
  {
  }

  lemma ReadyKeeps(s: State, t: nat, running': Option<nat>)
    requires InvX(s, WHOLE) && MayReady(s, t, running')
    ensures InvX(MakeReady(s, t).(running := running'), WHOLE)
  {
    var s' := MakeReady(s, t).(running := running');
    ReadyIsLocal(s, t, running');
    LocalKeeps(s, s', t, WHOLE);
  }

  lemma ReadyIsLocal(s: State, t: nat, running': Option<nat>)
    requires InvX(s, WHOLE) && MayReady(s, t, running')
    ensures Local(s, MakeReady(s, t).(running := running'), t, WHOLE)
  {
    hide Levels, Mutexes, Sems, Groups, QueuesMoved, LevelsMoved, NoDup, HeldOk, MakeReady, QueueOk;
    hide ResultFits, EffectivePriority;
    InBounds(s, WHOLE, t);
    MakeReadyIs(s, t);
    var s' := MakeReady(s, t).(running := running');
    AppendMoves(s, s', WHOLE, t);
    SameQueuesMove(s, s', t, WHOLE);
    assert forall u :: 0 <= u < |s.tasks| ==> TaskOk(s, u, s.tasks[u]);
  }
}
