/** Blocking, repositioning after a change of priority, and dispatching. */
module KernelMoves {
  import opened Wrappers
  import opened Lists
  import opened KernelState
  import opened WaitOrder
  import opened KernelInv
  import opened KernelLocal
  import opened KernelOps

  // ----- linking in a wait queue -----

  /** Queue `w` with `t`, wherever it was, in the place its priority gives it. */
  function Relinked(order: QueueOrder, tasks: seq<Task>, w: seq<nat>, t: nat): (w': seq<nat>) {
    InsertAt(Without(w, t), Place(order, tasks, Without(w, t), TaskOf(tasks, t).eff), t)
  }

  lemma RelinkMoves(order: QueueOrder, tasks: seq<Task>, tasks': seq<Task>, w: seq<nat>, t: nat)
    requires NoDup(w) && Sorted(order, tasks, w)
    requires forall u :: u in w && u != t ==>
             TaskOf(tasks', u) == TaskOf(tasks, u) && Since(TaskOf(tasks, u)) < Since(TaskOf(tasks', t))
    ensures OnlyMember(w, Relinked(order, tasks', w, t), t) && Sorted(order, tasks', Relinked(order, tasks', w, t))
  {
    hide Sorted, NoDup, Without, Place, InsertAt, Since;
    var w0 := Without(w, t);
    WithoutFacts(w, t);
    RemoveKeepsSorted(order, tasks, w, t);
    assert forall u :: u in w0 ==> Since(TaskOf(tasks', u)) < Since(TaskOf(tasks', t));
    SortedFrame(order, tasks, w0, tasks');
    InsertKeepsSorted(order, tasks', w0, t);
    InsertFacts(w0, Place(order, tasks', w0, TaskOf(tasks', t).eff), t);
  }

  function RelinkedIn(s: State, queue: Option<nat>, tasks: seq<Task>, t: nat): (queues: seq<seq<nat>>) {
    if queue.None? then s.queues
    else Put(s.queues, queue.value, Relinked(s.cfg.Order(queue.value), tasks, s.Queue(queue.value), t))
  }

  /** A step that (re)links task `t` in its queue `q`. */
  ghost predicate Relinks(s: State, s': State, t: nat) {
    && t < |s.tasks| == |s'.tasks| && s'.tasks[t].wait.Some? && s'.tasks[t].wait.value.since == s.clock
    && (forall u :: 0 <= u < |s.tasks| && u != t ==> s'.tasks[u] == s.tasks[u])
    && (QueueOf(s.tasks[t]).Some? ==> QueueOf(s'.tasks[t]) == QueueOf(s.tasks[t]))
    && s'.queues == RelinkedIn(s, QueueOf(s'.tasks[t]), s'.tasks, t)
    && (QueueOf(s'.tasks[t]).Some? ==> MayJoin(s, QueueOf(s'.tasks[t]).value, t, s'.tasks[t]))
  }

  lemma RelinkMovesQueues(s: State, s': State, t: nat)
    requires InvX(s, WHOLE) && Relinks(s, s', t)
    ensures QueuesMoved(s, s', t)
  {
    hide Levels, Mutexes, Sems, Groups, Runs, Sorted, NoDup, Without, InsertAt, Place, MayJoin, Relinked;
    hide HeldOk, CallOk, PrioritiesOk, UpToDate;
    forall q | 0 <= q < |s.queues|
      ensures OnlyMember(s.queues[q], s'.queues[q], t) && Sorted(s.cfg.Order(q), s'.tasks, s'.queues[q])
      ensures t in s'.queues[q] ==> QueueOf(s'.tasks[t]) == Some(q)
    {
      assert QueueOk(s, q);
      forall u | u in s.queues[q] && u != t
        ensures TaskOf(s'.tasks, u) == TaskOf(s.tasks, u) && Since(TaskOf(s.tasks, u)) < Since(TaskOf(s'.tasks, t))
      {
        assert TaskOk(s, u, s.tasks[u]);
      }
      RelinkMoves(s.cfg.Order(q), s.tasks, s'.tasks, s.queues[q], t);
      if QueueOf(s'.tasks[t]) != Some(q) {
        SortedFrame(s.cfg.Order(q), s.tasks, s.queues[q], s'.tasks);
      }
    }
  }

  /** Ready lists that the task is not in are not moved. */
  lemma SameLevelsMove(s: State, s': State, t: nat, h: Hole)
    requires InvX(s, h) && t < |s.tasks| && s.tasks[t].st != Ready && s'.ready == s.ready
    ensures LevelsMoved(s, s', t)
  {
    hide Tasks, Queues, Mutexes, Sems, Groups, Runs, NoDup;
    forall p | 0 <= p < |s.ready|
      ensures OnlyMember(s.ready[p], s.ready[p], t) && t !in s.ready[p]
    {
      assert LevelOk(s, p);
    }
  }

  // ----- blocking -----

  /** What blocking needs: the task is running between calls, preemption is not held
      off, and what it asks for is not available. */
  ghost predicate MayBlock(s: State, t: nat, queue: Option<nat>, payload: Payload) {
    && t < |s.tasks| && s.tasks[t].st == Running && s.tasks[t].call == NoCall && !s.boost
    && QueueFits(s.cfg, payload, queue)
    && (payload.Mutex? ==> Admits(s.cfg, payload.m, s.tasks[t].base))
    && (queue.Some? ==> forall k: Task :: k.wait.Some? && k.wait.value.payload == payload ==>
         MayJoin(s, queue.value, t, k))
  }

  lemma BlockIs(s: State, t: nat, queue: Option<nat>, payload: Payload, timed: bool)
    requires t < |s.tasks| && (queue.Some? ==> t !in s.Queue(queue.value))
    ensures var k := s.tasks[t].(st := Waiting, wait := Some(Wait(queue, payload, s.clock)),
                              call := Inside(payload, timed), timer := timed);
            var tasks := s.tasks[t := k];
            Block(s, t, queue, payload, timed) == s.(
              tasks := tasks, clock := s.clock + 1, pending := true,
              queues := RelinkedIn(s, queue, tasks, t))
  {
  }

  lemma NotQueued(s: State, t: nat, q: nat)
    requires InvX(s, WHOLE) && t < |s.tasks| && s.tasks[t].wait.None?
    ensures t !in s.Queue(q)
  {
    if q < |s.queues| { assert QueueOk(s, q); }
  }

  lemma BlockKeepsOwn(s: State, t: nat, queue: Option<nat>, payload: Payload, timed: bool)
    requires InvX(s, WHOLE) && MayBlock(s, t, queue, payload)
    ensures var s' := Block(s, t, queue, payload, timed);
            TaskOk(s', t, s'.Task(t)) && UpToDate(s.cfg, s'.Task(t)) && Runs(s') && QueuesMoved(s, s', t)
  {
    hide Levels, Mutexes, Sems, Groups, HeldOk, QueueOk, MayJoin, Block, EffectivePriority, ResultFits;
    hide Relinked, QueuesMoved;
    InBounds(s, WHOLE, t);
    if queue.Some? { NotQueued(s, t, queue.value); }
    BlockIs(s, t, queue, payload, timed);
    var s' := Block(s, t, queue, payload, timed);
    RelinkMovesQueues(s, s', t);
    if queue.Some? { LinkedNow(s.cfg.Order(queue.value), s'.tasks, s.Queue(queue.value), t); }
  }

  lemma LinkedNow(order: QueueOrder, tasks: seq<Task>, w: seq<nat>, t: nat)
    ensures t in Relinked(order, tasks, w, t)
  {
  }

  lemma BlockKeeps(s: State, t: nat, queue: Option<nat>, payload: Payload, timed: bool)
    requires InvX(s, WHOLE) && MayBlock(s, t, queue, payload)
    ensures InvX(Block(s, t, queue, payload, timed), WHOLE)
  {
    hide Levels, Queues, Mutexes, Sems, Groups, HeldOk, PrioritiesOk, CallOk, QueueOk, MayJoin, Block;
    hide UpToDate, QueuesMoved, LevelsMoved, Relinked;
    InBounds(s, WHOLE, t);
    if queue.Some? { NotQueued(s, t, queue.value); }
    BlockIs(s, t, queue, payload, timed);
    BlockKeepsOwn(s, t, queue, payload, timed);
    var s' := Block(s, t, queue, payload, timed);
    SameLevelsMove(s, s', t, WHOLE);
    assert Local(s, s', t, WHOLE);
    hide InvX, Local;
    LocalKeeps(s, s', t, WHOLE);
  }

  // ----- changing a priority -----

  /** A task already linked in a queue may stay there. */
  lemma AlreadyJoined(s: State, t: nat, q: nat, k: Task)
    requires InvX(s, WHOLE) && t in s.Queue(q) && t < |s.tasks| && k.wait.Some? && s.tasks[t].wait.Some?
    requires k.wait.value.payload == s.tasks[t].wait.value.payload
    ensures MayJoin(s, q, t, k)
  {
    hide Tasks, Queues, Levels, Runs, Satisfied;
    if q < |s.mutexes| { assert MutexOk(s, q); }
    forall i | 0 <= i < |s.values| && q == s.cfg.SemQueue(i) ensures s.values[i] == 0 { assert SemOk(s, i); }
    forall g | 0 <= g < |s.bits| && q == s.cfg.GroupQueue(g)
      ensures !Satisfied(s.bits[g], k.wait.value.payload)
    {
      assert GroupOk(s, g);
    }
  }

  /** `reorder_task` and the change of priority before it. */
  lemma MoveReadyKeeps(s: State, t: nat, k': Task)
    requires InvX(s, WHOLE) && t < |s.tasks| && s.tasks[t].st == Ready && k'.eff != s.tasks[t].eff
    requires k' == s.tasks[t].(base := k'.base, eff := k'.eff) && PrioritiesOk(s.cfg, k') && UpToDate(s.cfg, k')
    ensures InvX(MoveReady(s.WithTask(t, k'), t, s.tasks[t].eff), WHOLE)
  {
    var s' := MoveReady(s.WithTask(t, k'), t, s.tasks[t].eff);
    InBounds(s, WHOLE, t);
    PriorityInRange(s.cfg, k');
    MoveReadyIs(s, t, k');
    hide MoveReady;
    MoveReadyIsLocal(s, s', t, k');
    hide InvX;
    LocalKeeps(s, s', t, WHOLE);
  }

  lemma MoveReadyIs(s: State, t: nat, k': Task)
    requires t < |s.tasks| && s.tasks[t].eff < |s.ready| && k'.eff < |s.ready| && k'.eff != s.tasks[t].eff
    ensures MoveReady(s.WithTask(t, k'), t, s.tasks[t].eff) == s.(
              tasks := s.tasks[t := k'],
              ready := s.ready[s.tasks[t].eff := Without(s.ready[s.tasks[t].eff], t)][k'.eff := s.ready[k'.eff] + [t]])
  {
  }

  lemma MoveReadyIsLocal(s: State, s': State, t: nat, k': Task)
    requires InvX(s, WHOLE) && t < |s.tasks| && s.tasks[t].st == Ready && k'.eff != s.tasks[t].eff
    requires k' == s.tasks[t].(base := k'.base, eff := k'.eff) && PrioritiesOk(s.cfg, k') && UpToDate(s.cfg, k')
    requires k'.eff < |s.ready| && s.tasks[t].eff < |s.ready|
    requires s' == s.(tasks := s.tasks[t := k'],
                      ready := s.ready[s.tasks[t].eff := Without(s.ready[s.tasks[t].eff], t)]
                               [k'.eff := s.ready[k'.eff] + [t]])
    ensures Local(s, s', t, WHOLE)
  {
    hide Queues, Levels, Mutexes, Sems, Groups, HeldOk, PrioritiesOk, QueueOk, UpToDate, ResultFits, NoDup;
    hide QueuesMoved, LevelsMoved, Without;
    InBounds(s, WHOLE, t);
    SameQueuesMove(s, s', t, WHOLE);
    MoveReadyMoves(s, s', t, s.tasks[t].eff, k'.eff);
    assert forall u :: 0 <= u < |s.tasks| ==> PlacedOk(s, u, s.tasks[u]);
  }

  lemma PriorityInRange(cfg: Config, k: Task)
    requires PrioritiesOk(cfg, k)
    ensures k.eff < cfg.priorities
  {
  }

  lemma MoveReadyMoves(s: State, s': State, t: nat, from: nat, to: nat)
    requires InvX(s, WHOLE) && from < |s.ready| && to < |s.ready| && from != to && t in s.ready[from]
    requires s'.ready == s.ready[from := Without(s.ready[from], t)][to := s.ready[to] + [t]]
    requires s'.Task(t).st == Ready && s'.Task(t).eff == to
    ensures LevelsMoved(s, s', t)
  {
    hide Tasks, Queues, Mutexes, Sems, Groups, Runs, NoDup, Without;
    forall p | 0 <= p < |s.ready|
      ensures OnlyMember(s.ready[p], s'.ready[p], t) && (t in s'.ready[p] ==> p == to)
    {
      assert LevelOk(s, p) && LevelOk(s, from);
      WithoutFacts(s.ready[p], t);
      if p == to { AppendFacts(s.ready[p], t); }
    }
  }

  /** Queues that the task is not in are not moved. */
  lemma SameQueuesMove(s: State, s': State, t: nat, h: Hole)
    requires InvX(s, h) && t < |s.tasks| == |s'.tasks| && s.tasks[t].wait.None?
    requires s'.queues == s.queues && forall u :: 0 <= u < |s.tasks| && u != t ==> s'.tasks[u] == s.tasks[u]
    ensures QueuesMoved(s, s', t)
  {
    hide Tasks, Levels, Mutexes, Sems, Groups, Runs, NoDup, Sorted;
    forall q | 0 <= q < |s.queues|
      ensures OnlyMember(s.queues[q], s.queues[q], t) && Sorted(s.cfg.Order(q), s'.tasks, s.queues[q])
      ensures t !in s.queues[q]
    {
      assert QueueOk(s, q);
      SortedFrame(s.cfg.Order(q), s.tasks, s.queues[q], s'.tasks);
    }
  }

  /** `reorder_wait_of_task` and the change of priority before it. */
  lemma RequeueKeeps(s: State, t: nat, k': Task)
    requires InvX(s, WHOLE) && t < |s.tasks| && s.tasks[t].st == Waiting
    requires QueueOf(k').Some? && s.cfg.Order(QueueOf(k').value).TaskPriority?
    requires k' == s.tasks[t].(base := k'.base, eff := k'.eff) && PrioritiesOk(s.cfg, k') && UpToDate(s.cfg, k')
    ensures InvX(Requeue(s.WithTask(t, k'), t), WHOLE)
  {
    hide Mutexes, Sems, Groups, HeldOk, QueueOk, UpToDate, ResultFits, NoDup, QueuesMoved, LevelsMoved;
    hide MayJoin, Without, InsertAt, Place, Queues, Levels;
    InBounds(s, WHOLE, t);
    var s' := Requeue(s.WithTask(t, k'), t);
    var k'' := k'.(wait := Some(k'.wait.value.(since := s.clock)));
    RequeueIs(s, t, k');
    hide Requeue;
    AlreadyJoined(s, t, QueueOf(k').value, k'');
    RelinkMovesQueues(s, s', t);
    SameLevelsMove(s, s', t, WHOLE);
    LinkedNow(s.cfg.Order(QueueOf(k').value), s'.tasks, s.Queue(QueueOf(k').value), t);
    assert UpToDate(s.cfg, k'') by { SameUpToDate(s.cfg, k', k''); }
    assert forall u :: 0 <= u < |s.tasks| ==> PlacedOk(s, u, s.tasks[u]);
    hide Relinked;
    LocalKeeps(s, s', t, WHOLE);
  }

  lemma SameUpToDate(cfg: Config, k: Task, k': Task)
    requires UpToDate(cfg, k) && k'.st == k.st && k'.eff == k.eff && k'.base == k.base && k'.held == k.held
    ensures UpToDate(cfg, k')
  {
  }

  lemma RequeueIs(s: State, t: nat, k': Task)
    requires t < |s.tasks| && QueueOf(k').Some? && QueueOf(k').value < |s.queues|
    requires s.cfg.Order(QueueOf(k').value).TaskPriority?
    ensures var k'' := k'.(wait := Some(k'.wait.value.(since := s.clock)));
            Requeue(s.WithTask(t, k'), t) == s.(
              tasks := s.tasks[t := k''], clock := s.clock + 1,
              queues := RelinkedIn(s, QueueOf(k'), s.tasks[t := k''], t))
  {
    hide Without, InsertAt, Place;
    var q := QueueOf(k').value;
    var k'' := k'.(wait := Some(k'.wait.value.(since := s.clock)));
    var s1 := Unqueue(s.WithTask(t, k'), t).WithTask(t, k'').(clock := s.clock + 1);
    assert s1.tasks == s.tasks[t := k''] && s1.queues == s.queues[q := Without(s.queues[q], t)];
    assert s1.Queue(q) == Without(s.queues[q], t) && s1.Task(t) == k'';
  }
}
