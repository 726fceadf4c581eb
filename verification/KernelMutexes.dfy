/** The mutex system calls, and the exit of a task, keep the invariant. */
module KernelMutexes {
  import opened Wrappers
  import opened Lists
  import opened KernelState
  import opened WaitOrder
  import opened KernelInv
  import opened KernelLocal
  import opened KernelMoves
  import opened KernelSteps
  import opened KernelDispatch
  import opened KernelTasks
  import opened KernelOps

  /** A larger hole asks for less. */
  lemma Widen(s: State, h: Hole, h': Hole)
    requires InvX(s, h) && (forall m :: m in h.orphans ==> m in h'.orphans)
    requires (h.task.Some? ==> h'.task == h.task) && (h.group.Some? ==> h'.group == h.group)
    ensures InvX(s, h')
  {
    hide TaskOk, UpToDate, MutexOk, GroupOk, Queues, Levels, Sems, Runs;
  }

  // ----- locking -----

  lemma FreeMayOwn(s: State, m: nat, t: nat)
    requires InvX(s, WHOLE) && m < |s.mutexes| && s.mutexes[m].owner.None? && Admits(s.cfg, m, s.Task(t).base)
    requires t < |s.tasks| && s.tasks[t].st == Running && s.tasks[t].call == NoCall
    ensures MayOwn(s, m, t) && s.Queue(m) == []
  {
    hide Queues, Levels, Sems, Groups, Runs;
    assert MutexOk(s, m);
    forall u | 0 <= u < |s.tasks| ensures m !in s.tasks[u].held {
      assert TaskOk(s, u, s.tasks[u]);
    }
  }

  /** Taking a free mutex. */
  lemma TakeKeeps(s: State, m: nat, t: nat)
    requires Inv(s) && s.running == Some(t) && m < |s.mutexes| && s.mutexes[m].owner.None?
    requires Admits(s.cfg, m, s.Task(t).base)
    requires t < |s.tasks| && s.tasks[t].st == Running && s.tasks[t].call == NoCall
    ensures Inv(LockCore(s, m, t))
  {
    hide InvX, MayOwn, LockCore;
    var h := Hole([m], None, None);
    FreeMayOwn(s, m, t);
    Widen(s, WHOLE, h);
    LockCoreKeeps(s, m, t, h);
    LockCoreIs(s, m, t);
    Adopt(LockCore(s, m, t), m, h);
    assert h.(orphans := h.orphans[1..]) == WHOLE;
    SameRule(s, LockCore(s, m, t));
  }

  /** An owned mutex may be waited for by a task that the checks let through. */
  lemma OwnedMayBlock(s: State, m: nat, t: nat)
    requires m < |s.mutexes| && |s.mutexes| == |s.cfg.ceilings| && s.mutexes[m].owner.Some?
    requires s.mutexes[m].owner != Some(t)
    requires Admits(s.cfg, m, s.Task(t).base) && t < |s.tasks| && s.tasks[t].st == Running
    requires s.tasks[t].call == NoCall && !s.boost
    ensures MayBlock(s, t, Some(m), Payload.Mutex(m))
  {
  }

  lemma LockKeeps(s: State, m: nat, timed: bool)
    requires Inv(s)
    ensures Inv(Lock(s, m, timed).state) && Inv(TryLock(s, m).state)
  {
    hide Tasks, Queues, Levels, Mutexes, Sems, Groups, Runs, LockCore, Block, Admits, MayBlock;
    if InTask(s) && m < |s.mutexes| && Precheck(s, m, s.running.value).None? {
      var t := s.running.value;
      if s.mutexes[m].owner.None? {
        TakeKeeps(s, m, t);
      } else if !s.boost {
        OwnedMayBlock(s, m, t);
        BlockKeepsInv(s, Some(m), Payload.Mutex(m), timed);
      }
    }
  }

  // ----- unlocking -----

  /** Releasing the mutex locked last leaves it orphaned. */
  lemma ReleaseKeeps(s: State, m: nat, t: nat)
    requires InvX(s, WHOLE) && t < |s.tasks| && s.tasks[t].st == Running && s.tasks[t].call == NoCall
    requires s.tasks[t].held != [] && s.tasks[t].held[0] == m
    ensures var k := s.tasks[t];
            var rest := k.held[1..];
            var s1 := s.WithTask(t, k.(held := rest, eff := EffectivePriority(s.cfg, k.base, rest)));
            InvX(s1, Hole([m], None, None)) && Orphaned(s1, m)
  {
    var k := s.tasks[t];
    var rest := k.held[1..];
    var k' := k.(held := rest, eff := EffectivePriority(s.cfg, k.base, rest));
    InBounds(s, WHOLE, t);
    ReleasedIsOk(s, m, t);
    ReleasedIsOrphaned(s, m, t, k');
    hide InvX, Orphaned, EffectivePriority, TaskOk, UpToDate;
    TailFacts(k.held);
    UpdateKeeps(s, t, k', WHOLE, Hole([m], None, None));
  }

  lemma ReleasedIsOk(s: State, m: nat, t: nat)
    requires InvX(s, WHOLE) && t < |s.tasks| && s.tasks[t].st == Running && s.tasks[t].held != []
    ensures var k := s.tasks[t];
            var rest := k.held[1..];
            var k' := k.(held := rest, eff := EffectivePriority(s.cfg, k.base, rest));
            TaskOk(s, t, k') && UpToDate(s.cfg, k')
  {
    InBounds(s, WHOLE, t);
    hide InvX, QueueOk, ResultFits;
    var k := s.tasks[t];
    TailFacts(k.held);
    EffectiveAtMostBase(s.cfg, k.base, k.held[1..]);
  }

  lemma ReleasedIsOrphaned(s: State, m: nat, t: nat, k': Task)
    requires InvX(s, WHOLE) && t < |s.tasks| && s.tasks[t].call == NoCall && s.tasks[t].held != []
    requires s.tasks[t].held[0] == m
    requires k'.held == s.tasks[t].held[1..] && k'.call == NoCall
    ensures Orphaned(s.WithTask(t, k'), m)
  {
    hide Queues, Levels, Mutexes, Sems, Groups, Runs, NoDup;
    var s1 := s.WithTask(t, k');
    assert TaskOk(s, t, s.tasks[t]) && m in s.tasks[t].held;
    TailFacts(s.tasks[t].held);
    forall u | 0 <= u < |s.tasks| ensures m !in s1.tasks[u].held {
      assert TaskOk(s, u, s.tasks[u]);
    }
  }

  lemma UnlockKeeps(s: State, m: nat)
    requires Inv(s)
    ensures Inv(Unlock(s, m).state)
  {
    hide Tasks, Queues, Levels, Mutexes, Sems, Groups, Runs, EffectivePriority, HandOff, CheckPreemption, Orphaned;
    if Waitable(s) && m < |s.mutexes| && s.Mutex(m).owner == s.running && s.Task(s.running.value).held != []
      && s.Task(s.running.value).held[0] == m {
      var t := s.running.value;
      var k := s.tasks[t];
      var rest := k.held[1..];
      var s1 := s.WithTask(t, k.(held := rest, eff := EffectivePriority(s.cfg, k.base, rest)));
      ReleaseKeeps(s, m, t);
      HandOffKeeps(s1, m, Hole([m], None, None));
      assert [m][1..] == [];
      CheckRestoresRule(HandOff(s1, m));
    }
  }

  lemma MarkKeeps(s: State, m: nat, b: bool, h: Hole)
    requires InvX(s, h) && m < |s.mutexes|
    ensures InvX(s.WithMutex(m, s.Mutex(m).(inconsistent := b)), h)
  {
    hide PrioritiesOk, LifeOk, UpToDate, Sorted, NoDup, Runs;
    var s' := s.WithMutex(m, s.Mutex(m).(inconsistent := b));
    forall t | 0 <= t < |s.tasks| ensures TaskOk(s', t, s'.tasks[t]) {
      assert TaskOk(s, t, s.tasks[t]);
    }
    hide TaskOk;
    forall q | 0 <= q < |s.queues| ensures QueueOk(s', q) { SameQueue(s, s', q); }
    forall p | 0 <= p < |s.ready| ensures LevelOk(s', p) { SameLevel(s, s', p); }
    forall i | 0 <= i < |s.values| ensures SemOk(s', i) { SameObjects(s, s', i); }
    forall g | 0 <= g < |s.bits| && h.group != Some(g) ensures GroupOk(s', g) { SameObjects(s, s', g); }
    forall n | 0 <= n < |s.mutexes| && n !in h.orphans ensures MutexOk(s', n) { assert MutexOk(s, n); }
    assert Runs(s') by { SameRuns(s, s'); }
  }

  lemma MarkConsistentKeeps(s: State, m: nat)
    requires Inv(s)
    ensures Inv(MarkConsistent(s, m).state)
  {
    hide InvX;
    if m < |s.mutexes| {
      MarkKeeps(s, m, false, WHOLE);
      SameRule(s, MarkConsistent(s, m).state);
    }
  }

  // ----- exit -----

  ghost predicate AllOrphaned(s: State, held: seq<nat>) {
    NoDup(held) && forall m :: m in held ==> Orphaned(s, m)
  }

  /** Handing a mutex on changes no other mutex, no other membership in a list of held
      mutexes, no call, and no running task. */
  lemma HandOffFrame(s: State, m: nat, h: Hole)
    requires InvX(s, h) && Orphaned(s, m)
    ensures var s' := HandOff(s, m);
            && s'.running == s.running && s'.boost == s.boost
            && |s'.tasks| == |s.tasks| && |s'.mutexes| == |s.mutexes|
            && (forall n :: 0 <= n < |s.mutexes| && n != m ==> s'.mutexes[n] == s.mutexes[n])
            && (forall u :: 0 <= u < |s.tasks| ==>
                 s'.tasks[u].held == s.tasks[u].held || s'.tasks[u].held == [m] + s.tasks[u].held)
            && (forall u :: 0 <= u < |s.tasks| ==> s'.tasks[u].call == s.tasks[u].call)
            && (forall u :: 0 <= u < |s.tasks| && s.tasks[u].st == Running ==> s'.tasks[u] == s.tasks[u])
  {
    hide Without, HandOff, TaskOk;
    HandOffIs(s, m, h);
    if s.Queue(m) != [] { FirstWaiterMayOwn(s, m, h); }
    hide InvX, Orphaned, MayOwn;
  }

  lemma StaysOrphaned(s: State, s': State, m: nat, n: nat)
    requires Orphaned(s, n) && n != m && |s'.tasks| == |s.tasks| && |s'.mutexes| == |s.mutexes|
    requires s'.mutexes[n] == s.mutexes[n]
    requires forall u :: 0 <= u < |s.tasks| ==>
             s'.tasks[u].held == s.tasks[u].held || s'.tasks[u].held == [m] + s.tasks[u].held
    requires forall u :: 0 <= u < |s.tasks| ==> s'.tasks[u].call == s.tasks[u].call
    ensures Orphaned(s', n)
  {
    forall u | 0 <= u < |s'.tasks| ensures n !in s'.tasks[u].held {
      assert n !in s.tasks[u].held;
    }
  }

  /** Handing one mutex on leaves the others as they were, and does not touch the
      exiting task. */
  lemma HandOffLeavesOthers(s: State, held: seq<nat>, h: Hole, t: nat)
    requires InvX(s, h) && held != [] && AllOrphaned(s, held) && t < |s.tasks| && s.tasks[t].st == Running
    ensures var s' := HandOff(s, held[0]);
            && AllOrphaned(s', held[1..]) && s'.running == s.running && s'.boost == s.boost
            && |s'.tasks| == |s.tasks| && s'.tasks[t] == s.tasks[t]
  {
    hide InvX, HandOff, NoDup, Orphaned;
    var m := held[0];
    HandOffFrame(s, m, h);
    TailFacts(held);
    forall n | n in held[1..] ensures Orphaned(HandOff(s, m), n) {
      assert n < |s.mutexes| by { assert Orphaned(s, n); OrphanInRange(s, n); }
      StaysOrphaned(s, HandOff(s, m), m, n);
    }
  }

  lemma OrphanInRange(s: State, m: nat)
    requires Orphaned(s, m)
    ensures m < |s.mutexes|
  {
  }

  lemma MarkLeavesOthers(s: State, held: seq<nat>, b: bool)
    requires held != [] && AllOrphaned(s, held)
    ensures AllOrphaned(s.WithMutex(held[0], s.Mutex(held[0]).(inconsistent := b)), held)
  {
    var s' := s.WithMutex(held[0], s.Mutex(held[0]).(inconsistent := b));
    forall n | n in held ensures Orphaned(s', n) {
      assert Orphaned(s, n);
    }
  }

  /** Abandoning the mutexes of a list that has been detached from its task visits
      each of them once. */
  lemma {:induction false} AbandonKeeps(s: State, held: seq<nat>, t: nat, h: Hole)
    requires InvX(s, h) && h.orphans == held && AllOrphaned(s, held) && t < |s.tasks| && s.tasks[t].st == Running
    ensures var s' := AbandonAll(s, held);
            && InvX(s', h.(orphans := [])) && s'.running == s.running && s'.boost == s.boost
            && |s'.tasks| == |s.tasks| && s'.tasks[t] == s.tasks[t]
    decreases |held|
  {
    hide InvX, AllOrphaned, HandOff;
    if held != [] {
      var m := held[0];
      assert Orphaned(s, m) by { FirstIsOrphaned(s, held); }
      var s1 := s.WithMutex(m, s.Mutex(m).(inconsistent := true));
      MarkKeeps(s, m, true, h);
      MarkLeavesOthers(s, held, true);
      FirstIsOrphaned(s1, held);
      HandOffKeeps(s1, m, h);
      HandOffLeavesOthers(s1, held, h, t);
      AbandonKeeps(HandOff(s1, m), held[1..], t, h.(orphans := held[1..]));
    }
  }

  lemma FirstIsOrphaned(s: State, held: seq<nat>)
    requires held != [] && AllOrphaned(s, held)
    ensures Orphaned(s, held[0])
  {
  }

  /** Detaching the list of held mutexes. */
  lemma DetachKeeps(s: State, t: nat)
    requires InvX(s, WHOLE) && t < |s.tasks| && s.tasks[t].st == Running && s.tasks[t].call == NoCall
    ensures var held := s.tasks[t].held;
            var s1 := s.WithTask(t, s.tasks[t].(held := []));
            InvX(s1, Hole(held, Some(t), None)) && AllOrphaned(s1, held)
  {
    var k := s.tasks[t];
    var s1 := s.WithTask(t, k.(held := []));
    InBounds(s, WHOLE, t);
    forall m | m in k.held ensures Orphaned(s1, m) {
      DetachedIsOrphaned(s, t, m);
    }
    hide InvX, UpToDate, ResultFits, QueueOk, Orphaned;
    UpdateKeeps(s, t, k.(held := []), WHOLE, Hole(k.held, Some(t), None));
  }

  lemma DetachedIsOrphaned(s: State, t: nat, m: nat)
    requires InvX(s, WHOLE) && t < |s.tasks| && s.tasks[t].call == NoCall && m in s.tasks[t].held
    ensures Orphaned(s.WithTask(t, s.tasks[t].(held := [])), m)
  {
    hide Queues, Levels, Mutexes, Sems, Groups, Runs, NoDup;
    assert TaskOk(s, t, s.tasks[t]);
    forall u | 0 <= u < |s.tasks| && u != t ensures m !in s.tasks[u].held {
      assert TaskOk(s, u, s.tasks[u]);
    }
  }

  /** The task becomes dormant and the processor is given up. */
  lemma RetireKeeps(s: State, t: nat)
    requires InvX(s, Hole([], Some(t), None)) && t < |s.tasks| && s.running == Some(t) && !s.boost
    requires s.tasks[t].st == Running && s.tasks[t].call == NoCall && s.tasks[t].held == []
    ensures Inv(s.WithTask(t, s.tasks[t].(st := Dormant)).(running := None, pending := true))
  {
    var h := Hole([], Some(t), None);
    var s' := s.WithTask(t, s.tasks[t].(st := Dormant)).(running := None, pending := true);
    RetireIsLocal(s, t, s');
    hide InvX;
    LocalKeeps(s, s', t, h);
    RetireCloses(s', t);
  }

  lemma RetireIsLocal(s: State, t: nat, s': State)
    requires InvX(s, Hole([], Some(t), None)) && t < |s.tasks| && s.running == Some(t) && !s.boost
    requires s.tasks[t].st == Running && s.tasks[t].call == NoCall && s.tasks[t].held == []
    requires s' == s.WithTask(t, s.tasks[t].(st := Dormant)).(running := None, pending := true)
    ensures Local(s, s', t, Hole([], Some(t), None))
  {
    hide Mutexes, Sems, Groups, HeldOk, QueueOk, ResultFits, NoDup, QueuesMoved, LevelsMoved, UpToDate;
    var h := Hole([], Some(t), None);
    InBounds(s, h, t);
    OnlyRunning(s, h);
    SameQueuesMove(s, s', t, h);
    SameLevelsMove(s, s', t, h);
  }

  lemma RetireCloses(s: State, t: nat)
    requires InvX(s, Hole([], Some(t), None)) && s.Task(t).st == Dormant
    ensures InvX(s, WHOLE)
  {
    hide TaskOk, Queues, Levels, MutexOk, Sems, GroupOk, Runs, EffectivePriority;
  }

  lemma ExitKeeps(s: State)
    requires Inv(s)
    ensures Inv(Exit(s).state)
  {
    hide Tasks, Queues, Levels, Mutexes, Sems, Groups, AbandonAll, AllOrphaned;
    if InTask(s) {
      var t := s.running.value;
      var held := s.tasks[t].held;
      OnlyRunning(s, WHOLE);
      FlagsKeep(s, s.running, false, s.pending, WHOLE);
      var s0 := s.(boost := false);
      DetachKeeps(s0, t);
      var s1 := s0.WithTask(t, s.tasks[t].(held := []));
      AbandonKeeps(s1, held, t, Hole(held, Some(t), None));
      RetireKeeps(AbandonAll(s1, held), t);
    }
  }
}
