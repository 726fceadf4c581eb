/** Steps that concern a single task: the invariant of the rest of the state carries
    over, so that only the task and the lists it enters or leaves must be checked. */
module KernelLocal {
  import opened Wrappers
  import opened Lists
  import opened KernelState
  import opened WaitOrder
  import opened KernelInv

  /** The wait queue a task is linked in. */
  function QueueOf(k: Task): (q: Option<nat>) {
    if k.wait.Some? then k.wait.value.queue else None
  }

  /** The identifiers in a task control block are in range. */
  lemma InBounds(s: State, h: Hole, t: nat)
    requires InvX(s, h) && t < |s.tasks|
    ensures TaskOk(s, t, s.tasks[t]) && (h.task != Some(t) ==> UpToDate(s.cfg, s.tasks[t]))
    ensures s.tasks[t].eff < |s.ready|
    ensures QueueOf(s.tasks[t]).Some? ==>
              var q := QueueOf(s.tasks[t]).value;
              q < |s.queues| && QueueOk(s, q) && NoDup(s.queues[q]) && t in s.queues[q]
  {
    assert TaskOk(s, t, s.tasks[t]);
  }

  /** Everything but task `t`, the lists and the dispatcher's fields is as before. */
  ghost predicate OnlyTask(s: State, s': State, t: nat) {
    && t < |s.tasks| == |s'.tasks| && |s'.queues| == |s.queues| && |s'.ready| == |s.ready|
    && s'.cfg == s.cfg && s'.mutexes == s.mutexes && s'.values == s.values && s'.bits == s.bits
    && s.clock <= s'.clock
    && (forall u :: 0 <= u < |s.tasks| && u != t ==> s'.tasks[u] == s.tasks[u])
  }

  /** List `w'` is list `w`, except that task `t` may have entered, left or moved. */
  ghost predicate OnlyMember(w: seq<nat>, w': seq<nat>, t: nat) {
    NoDup(w') && forall u :: u != t ==> (u in w' <==> u in w)
  }

  /** The wait queues after the step. */
  ghost predicate QueuesMoved(s: State, s': State, t: nat) {
    forall q :: 0 <= q < |s'.queues| ==>
      && OnlyMember(s.Queue(q), s'.queues[q], t)
      && Sorted(s.cfg.Order(q), s'.tasks, s'.queues[q])
      && (t in s'.queues[q] ==> QueueOf(s'.Task(t)) == Some(q) && MayJoin(s, q, t, s'.Task(t)))
  }

  /** A task may be linked in queue `q`: the object is not available to it. */
  ghost predicate MayJoin(s: State, q: nat, t: nat, k: Task) {
    && (q < |s.mutexes| ==> s.mutexes[q].owner.Some? && s.mutexes[q].owner != Some(t))
    && (forall i :: 0 <= i < |s.values| && q == s.cfg.SemQueue(i) ==> s.values[i] == 0)
    && (forall g :: 0 <= g < |s.bits| && q == s.cfg.GroupQueue(g) ==>
         k.wait.Some? && !Satisfied(s.bits[g], k.wait.value.payload))
  }

  /** The ready lists after the step. */
  ghost predicate LevelsMoved(s: State, s': State, t: nat) {
    forall p :: 0 <= p < |s'.ready| ==>
      && OnlyMember(s.ReadyAt(p), s'.ready[p], t)
      && (t in s'.ready[p] ==> s'.Task(t).st == Ready && s'.Task(t).eff == p)
  }

  /** The step concerns task `t` only. */
  ghost predicate Local(s: State, s': State, t: nat, h: Hole) {
    && OnlyTask(s, s', t) && QueuesMoved(s, s', t) && LevelsMoved(s, s', t)
    && s'.tasks[t].held == s.tasks[t].held
    && TaskOk(s', t, s'.tasks[t]) && (h.task != Some(t) ==> UpToDate(s.cfg, s'.tasks[t]))
    && (forall u :: 0 <= u < |s.tasks| && u != t && s.tasks[u].st == Running ==> s'.running == Some(u))
    && Runs(s')
  }

  lemma OtherTask(s: State, s': State, t: nat, h: Hole, u: nat)
    requires InvX(s, h) && Local(s, s', t, h) && u < |s.tasks| && u != t
    ensures TaskOk(s', u, s'.tasks[u])
  {
    hide InvX, HeldOk, PrioritiesOk, LifeOk, CallOk, Runs, Sorted, NoDup, MayJoin, UpToDate, QueueOk;
    InBounds(s, h, u);
    assert TaskOk(s', t, s'.tasks[t]);
    assert PlacedOk(s', u, s'.tasks[u]);
  }

  lemma LocalTasks(s: State, s': State, t: nat, h: Hole)
    requires InvX(s, h) && Local(s, s', t, h)
    ensures Tasks(s', h)
  {
    hide TaskOk, UpToDate, QueuesMoved, LevelsMoved, Runs, Queues, Levels, Mutexes, Sems, Groups;
    forall u | 0 <= u < |s.tasks|
      ensures TaskOk(s', u, s'.tasks[u]) && (h.task != Some(u) ==> UpToDate(s.cfg, s'.tasks[u]))
    {
      if u != t { OtherTask(s, s', t, h, u); }
      assert s.tasks[u] == s.tasks[u];
    }
  }

  lemma LocalQueues(s: State, s': State, t: nat, h: Hole)
    requires InvX(s, h) && Local(s, s', t, h)
    ensures Queues(s') && Levels(s')
  {
    hide TaskOk, UpToDate, Runs, Tasks, Mutexes, Sems, Groups, Sorted, NoDup, MayJoin;
    forall q | 0 <= q < |s'.queues| ensures QueueOk(s', q) {
      assert QueueOk(s, q);
    }
    forall p | 0 <= p < |s'.ready| ensures LevelOk(s', p) {
      assert LevelOk(s, p);
    }
  }

  lemma LocalMutexes(s: State, s': State, t: nat, h: Hole)
    requires InvX(s, h) && Local(s, s', t, h)
    ensures Mutexes(s', h)
  {
    hide TaskOk, UpToDate, Runs, Tasks, Queues, Levels, Sems, Groups, Sorted, NoDup;
    forall m | 0 <= m < |s.mutexes| && m !in h.orphans ensures MutexOk(s', m) {
      assert MutexOk(s, m);
      if s'.Queue(m) != [] { assert s'.Queue(m)[0] in s'.Queue(m); }
    }
  }

  lemma LocalObjects(s: State, s': State, t: nat, h: Hole)
    requires InvX(s, h) && Local(s, s', t, h)
    ensures Sems(s') && Groups(s', h) && Shape(s')
  {
    hide TaskOk, UpToDate, Runs, Tasks, Queues, Levels, Mutexes, Sorted, NoDup, Satisfied;
    forall i | 0 <= i < |s.values| ensures SemOk(s', i) {
      assert SemOk(s, i);
      var q := s.cfg.SemQueue(i);
      if s'.Queue(q) != [] { assert s'.Queue(q)[0] in s'.Queue(q); }
    }
    forall g | 0 <= g < |s.bits| && h.group != Some(g) ensures GroupOk(s', g) {
      assert GroupOk(s, g);
    }
  }

  lemma LocalKeeps(s: State, s': State, t: nat, h: Hole)
    requires InvX(s, h) && Local(s, s', t, h)
    ensures InvX(s', h)
  {
    LocalTasks(s, s', t, h);
    LocalQueues(s, s', t, h);
    LocalMutexes(s, s', t, h);
    LocalObjects(s, s', t, h);
    hide Shape, Tasks, Queues, Levels, Mutexes, Sems, Groups, Runs, TaskOk, UpToDate, OnlyTask, QueuesMoved;
    hide LevelsMoved;
  }
}
