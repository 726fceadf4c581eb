/** Each wait is completed exactly once: a blocking call, once begun, ends only by its
    return, and its result, once given, is final. */
module KernelFinal {
  import opened Words
  import opened Wrappers
  import opened Lists
  import opened KernelState
  import opened WaitOrder
  import opened KernelInv
  import opened KernelLocal
  import opened KernelSteps
  import opened KernelDispatch
  import opened KernelMutexes
  import opened KernelOps
  import opened KernelRun
  import opened KernelEffects
  import opened KernelServed
  import opened KernelRebase

  /** A task inside a call stays inside it; once woken, it is not woken again and its
      result does not change. */
  predicate CallKept(k: Task, k': Task) {
    k.call.Inside? ==>
      && k'.call == k.call
      && (k.wait.None? ==> k'.wait.None? && k'.result == k.result && k'.origBits == k.origBits)
  }

  ghost predicate CallsKept(s: State, s': State) {
    |s'.tasks| == |s.tasks| && forall t :: 0 <= t < |s.tasks| ==> CallKept(s.tasks[t], s'.tasks[t])
  }

  lemma KeptTrans(a: State, b: State, c: State)
    requires CallsKept(a, b) && CallsKept(b, c)
    ensures CallsKept(a, c)
  {
    forall t | 0 <= t < |a.tasks| ensures CallKept(a.tasks[t], c.tasks[t]) {
      assert CallKept(a.tasks[t], b.tasks[t]) && CallKept(b.tasks[t], c.tasks[t]);
    }
  }

  lemma EditKeepsCalls(s: State, t: nat, k': Task)
    requires CallKept(s.Task(t), k')
    ensures CallsKept(s, s.WithTask(t, k'))
  {
  }

  lemma WakeKeepsCalls(s: State, t: nat, result: WaitResult)
    requires t < |s.tasks| ==> s.tasks[t].wait.Some?
    ensures CallsKept(s, Wake(s, t, result))
  {
  }

  lemma CheckKeepsCalls(s: State)
    ensures CallsKept(s, CheckPreemption(s))
  {
    hide FirstReady;
  }

  lemma BlockKeepsCalls(s: State, t: nat, queue: Option<nat>, payload: Payload, timed: bool)
    requires s.Task(t).call == NoCall
    ensures CallsKept(s, Block(s, t, queue, payload, timed))
  {
  }

  lemma HandOffKeepsCalls(s: State, m: nat, h: Hole)
    requires InvX(s, h) && Orphaned(s, m)
    ensures CallsKept(s, HandOff(s, m))
  {
    hide HandOff, Without, TaskOk;
    HandOffIs(s, m, h);
    if s.Queue(m) != [] { FirstWaiterMayOwn(s, m, h); }
    hide InvX, Orphaned, MayOwn;
  }

  lemma {:induction false} AbandonKeepsCalls(s: State, held: seq<nat>, t: nat, h: Hole)
    requires InvX(s, h) && h.orphans == held && AllOrphaned(s, held) && t < |s.tasks| && s.tasks[t].st == Running
    ensures CallsKept(s, AbandonAll(s, held))
    decreases |held|
  {
    hide InvX, AllOrphaned, HandOff, NoDup, Orphaned, CallsKept;
    if held == [] {
      KeptRefl(s);
    } else {
      var m := held[0];
      var s1 := s.WithMutex(m, s.Mutex(m).(inconsistent := true));
      assert m < |s.mutexes| by { FirstIsOrphaned(s, held); OrphanInRange(s, m); }
      MarkKeeps(s, m, true, h);
      MarkLeavesOthers(s, held, true);
      FirstIsOrphaned(s1, held);
      HandOffKeeps(s1, m, h);
      HandOffKeepsCalls(s1, m, h);
      HandOffLeavesOthers(s1, held, h, t);
      AbandonKeepsCalls(HandOff(s1, m), held[1..], t, h.(orphans := held[1..]));
      SameTasksKeepCalls(s, s1);
      KeptTrans(s, s1, HandOff(s1, m));
      KeptTrans(s, HandOff(s1, m), AbandonAll(s, held));
    }
  }

  lemma KeptRefl(s: State)
    ensures CallsKept(s, s)
  {
  }

  lemma SameTasksKeepCalls(s: State, s': State)
    requires s'.tasks == s.tasks
    ensures CallsKept(s, s')
  {
  }

  lemma ExitKeepsCalls(s: State)
    requires Inv(s)
    ensures CallsKept(s, Exit(s).state)
  {
    hide Tasks, Queues, Levels, Mutexes, Sems, Groups, AbandonAll, AllOrphaned, CallsKept;
    if !InTask(s) { KeptRefl(s); } else {
      var t := s.running.value;
      var held := s.tasks[t].held;
      OnlyRunning(s, WHOLE);
      FlagsKeep(s, s.running, false, s.pending, WHOLE);
      var s0 := s.(boost := false);
      DetachKeeps(s0, t);
      var s1 := s0.WithTask(t, s.tasks[t].(held := []));
      AbandonKeeps(s1, held, t, Hole(held, Some(t), None));
      AbandonKeepsCalls(s1, held, t, Hole(held, Some(t), None));
      hide InvX;
      EditKeepsCalls(s0, t, s.tasks[t].(held := []));
      SameTasksKeepCalls(s, s0);
      var s2 := AbandonAll(s1, held);
      EditKeepsCalls(s2, t, s2.Task(t).(st := Dormant));
      SameTasksKeepCalls(s2.WithTask(t, s2.Task(t).(st := Dormant)), Exit(s).state);
      KeptTrans(s, s0, s1);
      KeptTrans(s, s1, s2);
      KeptTrans(s, s2, s2.WithTask(t, s2.Task(t).(st := Dormant)));
      KeptTrans(s, s2.WithTask(t, s2.Task(t).(st := Dormant)), Exit(s).state);
    }
  }

  lemma ChooseKeepsCalls(s: State)
    ensures CallsKept(s, ChooseNext(s))
  {
    hide FirstReady, SwitchTo, CallsKept, CurrentPriority;
    var next := FirstReady(s.ready);
    if !s.boost && next < |s.ready| {
      var t := s.ready[next][0];
      var k := s.Task(t);
      var s1 := s.(pending := false).WithReady(next, s.ready[next][1..]);
      SameTasksKeepCalls(s, s1);
      EditKeepsCalls(s1, t, k.(st := Running));
      SwitchKeepsCalls(s1.WithTask(t, k.(st := Running)), t);
      KeptTrans(s, s1, s1.WithTask(t, k.(st := Running)));
      KeptTrans(s, s1.WithTask(t, k.(st := Running)), SwitchTo(s1.WithTask(t, k.(st := Running)), t));
    }
    SameTasksKeepCalls(s, s.(pending := false));
    SameTasksKeepCalls(s, s.(pending := false, running := None));
  }

  lemma SwitchKeepsCalls(s: State, t: nat)
    ensures CallsKept(s, SwitchTo(s, t))
  {
  }

  lemma CheckedKeepsCalls(s: State, s': State)
    requires CallsKept(s, s')
    ensures CallsKept(s, CheckPreemption(s'))
  {
    hide CallsKept, CheckPreemption;
    CheckKeepsCalls(s');
    KeptTrans(s, s', CheckPreemption(s'));
  }

  lemma UnlockKeepsCalls(s: State, m: nat)
    requires Inv(s)
    ensures CallsKept(s, Unlock(s, m).state)
  {
    hide Tasks, Queues, Levels, Mutexes, Sems, Groups, Runs, EffectivePriority, HandOff, CheckPreemption;
    hide Orphaned, CallsKept;
    KeptRefl(s);
    if Waitable(s) && m < |s.mutexes| && s.Mutex(m).owner == s.running && s.Task(s.running.value).held != []
      && s.Task(s.running.value).held[0] == m {
      var t := s.running.value;
      var k := s.tasks[t];
      var rest := k.held[1..];
      var k' := k.(held := rest, eff := EffectivePriority(s.cfg, k.base, rest));
      var s1 := s.WithTask(t, k');
      ReleaseKeeps(s, m, t);
      EditKeepsCalls(s, t, k');
      HandOffKeepsCalls(s1, m, Hole([m], None, None));
      KeptTrans(s, s1, HandOff(s1, m));
      CheckedKeepsCalls(s, HandOff(s1, m));
    }
  }

  lemma TaskCallsKeepCalls(s: State, t: nat)
    requires Inv(s) && t < |s.tasks|
    ensures CallsKept(s, Activate(s, t).state) && CallsKept(s, Interrupt(s, t, WasInterrupted).state)
    ensures CallsKept(s, Unpark(s, t).state) && CallsKept(s, Expire(s, t).state)
  {
    hide CheckPreemption, Wake, HeldOk, ResultFits;
    InBounds(s, WHOLE, t);
    hide InvX;
    KeptRefl(s);
    var k := s.tasks[t];
    if k.st == Dormant {
      var initial := At(s.cfg.initial, t, 0);
      var s1 := MakeReady(s.WithTask(t, k.(parkToken := false, base := initial, eff := initial)), t);
      assert CallsKept(s, s1);
      CheckedKeepsCalls(s, s1);
    }
    if k.st == Waiting {
      WakeKeepsCalls(s, t, WasInterrupted);
      CheckedKeepsCalls(s, Wake(s, t, WasInterrupted));
      WakeKeepsCalls(s, t, WaitOk);
      CheckedKeepsCalls(s, Wake(s, t, WaitOk));
    }
    EditKeepsCalls(s, t, k.(parkToken := true));
    ExpireKeepsCalls(s, t);
  }

  lemma ExpireKeepsCalls(s: State, t: nat)
    requires t < |s.tasks| && (s.tasks[t].st == Waiting ==> s.tasks[t].wait.Some?)
    ensures CallsKept(s, Expire(s, t).state)
  {
    hide CheckPreemption, Wake, CallsKept;
    var s1 := s.WithTask(t, s.tasks[t].(timer := false));
    KeptRefl(s);
    EditKeepsCalls(s, t, s.tasks[t].(timer := false));
    CheckedKeepsCalls(s, s1);
    if s.tasks[t].st == Waiting {
      WakeKeepsCalls(s1, t, TimedOut);
      KeptTrans(s, s1, Wake(s1, t, TimedOut));
      CheckedKeepsCalls(s, Wake(s1, t, TimedOut));
    }
  }

  lemma SetPriorityKeepsCalls(s: State, t: nat, base: nat)
    requires Inv(s)
    ensures CallsKept(s, SetPriority(s, t, base).state)
  {
    hide SetPriority, InvX;
    KeptRefl(s);
    if t < |s.tasks| {
      SetPriorityReplies(s, t, base);
      if SetPriority(s, t, base).reply == Done {
        SetPriorityMoves(s, t, base);
        RebasingKeepsCalls(s, SetPriority(s, t, base).state, t, base);
      }
    } else {
      assert SetPriority(s, t, base).state == s by { SetPriorityBadId(s, t, base); }
    }
  }

  lemma SetPriorityBadId(s: State, t: nat, base: nat)
    requires t >= |s.tasks|
    ensures SetPriority(s, t, base).state == s
  {
  }

  lemma RebasingKeepsCalls(s: State, s': State, t: nat, base: nat)
    requires t < |s.tasks| && Rebasing(s, s', t, base)
    ensures CallsKept(s, s')
  {
    hide EffectivePriority, LinkedBehind, Without;
  }

  lemma RunningCallsKeepCalls(s: State, m: nat, i: nat, g: nat, payload: Payload, timed: bool)
    requires Inv(s)
    ensures CallsKept(s, ParkCurrent(s, timed).state) && CallsKept(s, SleepCurrent(s).state)
    ensures CallsKept(s, Lock(s, m, timed).state) && CallsKept(s, TryLock(s, m).state)
    ensures CallsKept(s, WaitOne(s, i, timed).state) && CallsKept(s, WaitBits(s, g, payload, timed).state)
    ensures CallsKept(s, PollBits(s, g, payload).state)
  {
    hide Inv, Block, LockCore, Satisfied, Consume, CallsKept;
    KeptRefl(s);
    if InTask(s) {
      var t := s.running.value;
      EditKeepsCalls(s, t, s.Task(t).(parkToken := false));
      LockCoreKeepsCalls(s, m, t);
      BlockKeepsCalls(s, t, None, Park, timed);
      BlockKeepsCalls(s, t, None, Sleep, true);
      BlockKeepsCalls(s, t, Some(m), Payload.Mutex(m), timed);
      BlockKeepsCalls(s, t, Some(s.cfg.SemQueue(i)), Semaphore, timed);
      BlockKeepsCalls(s, t, Some(s.cfg.GroupQueue(g)), payload, timed);
    }
    SameTasksKeepCalls(s, s.WithValue(i, if s.Value(i) > 0 then s.Value(i) - 1 else 0));
    SameTasksKeepCalls(s, s.WithBits(g, Consume(s.Bits(g), payload)));
  }

  lemma LockCoreKeepsCalls(s: State, m: nat, t: nat)
    ensures CallsKept(s, LockCore(s, m, t))
  {
  }

  /** Only waiting tasks are woken. */
  lemma QueuedAreWaiting(s: State, q: nat)
    requires InvX(s, WHOLE)
    ensures forall t :: t in s.Queue(q) ==> t < |s.tasks| && s.tasks[t].wait.Some?
  {
    if q < |s.queues| { assert QueueOk(s, q); }
  }

  /** Waking waiting tasks keeps all calls. */
  lemma WokenKeepsCalls(s: State, s': State, woken: seq<nat>)
    requires AllWoken(s, s', woken) && |s'.tasks| == |s.tasks|
    requires forall t :: t in woken ==> t < |s.tasks| && s.tasks[t].wait.Some?
    ensures CallsKept(s, s')
  {
    forall t | 0 <= t < |s.tasks| ensures CallKept(s.tasks[t], s'.tasks[t]) {
      assert s'.Task(t) == s'.tasks[t] && s.Task(t) == s.tasks[t];
      if t in woken {
        var j :| 0 <= j < |woken| && woken[j] == t;
      }
    }
  }

  lemma SignalKeepsCalls(s: State, i: nat, count: nat)
    requires Inv(s)
    ensures CallsKept(s, Signal(s, i, count).state)
  {
    hide InvX, Signal, AllWoken, CallsKept;
    KeptRefl(s);
    SignalSize(s, i, count);
    if i < |s.values| {
      SignalConserves(s, i, count);
      var w := s.Queue(s.cfg.SemQueue(i));
      var woken := w[..Min(count, |w|)];
      QueuedAreWaiting(s, s.cfg.SemQueue(i));
      assert forall t :: t in woken ==> t in w;
      if Signal(s, i, count).reply != QueueOverflow {
        WokenKeepsCalls(s, Signal(s, i, count).state, woken);
      }
    }
  }

  lemma SignalSize(s: State, i: nat, count: nat)
    ensures |Signal(s, i, count).state.tasks| == |s.tasks|
    ensures i >= |s.values| ==> Signal(s, i, count).state == s
  {
    GrantSize(s, i, s.Value(i), count);
    hide FirstReady, Grant;
  }

  lemma {:induction false} GrantSize(s: State, i: nat, value: nat, count: nat)
    ensures |Grant(s, i, value, count).tasks| == |s.tasks|
    decreases count
  {
    var w := s.Queue(s.cfg.SemQueue(i));
    if count > 0 && w != [] { GrantSize(Wake(s, w[0], WaitOk), i, value, count - 1); }
  }

  lemma SetBitsKeepsCalls(s: State, g: nat, bits: bv32)
    requires Inv(s)
    ensures CallsKept(s, SetBits(s, g, bits).state)
  {
    hide InvX, SetBits, Serve, Conditions, Joined;
    KeptRefl(s);
    var s' := SetBits(s, g, bits).state;
    SetBitsSize(s, g, bits);
    if g < |s.bits| {
      SetServesWaiters(s, g, bits);
      var w := s.Queue(s.cfg.GroupQueue(g));
      QueuedAreWaiting(s, s.cfg.GroupQueue(g));
      forall t | 0 <= t < |s.tasks| ensures CallKept(s.tasks[t], s'.tasks[t]) {
        assert s'.Task(t) == s'.tasks[t];
        if t in w {
          var j :| 0 <= j < |w| && w[j] == t;
        }
      }
    }
  }

  lemma SetBitsSize(s: State, g: nat, bits: bv32)
    ensures |SetBits(s, g, bits).state.tasks| == |s.tasks|
    ensures g >= |s.bits| ==> SetBits(s, g, bits).state == s
  {
    PassSize(s, s.Queue(s.cfg.GroupQueue(g)), Joined(s.Bits(g), bits), false);
    hide FirstReady, Pass, Joined;
  }

  lemma {:induction false} PassSize(s: State, waiters: seq<nat>, bits: bv32, woke: bool)
    ensures |Pass(s, waiters, bits, woke).state.tasks| == |s.tasks|
    decreases |waiters|
  {
    hide Satisfied, Consume;
    if waiters != [] {
      PassSize(WakeWithBits(s, waiters[0], bits), waiters[1..],
        Consume(bits, (if s.Task(waiters[0]).wait.Some? then s.Task(waiters[0]).wait.value.payload else Park)), true);
      PassSize(s, waiters[1..], bits, woke);
    }
  }

  /** No step but a return from a call takes a task out of a call or changes a result. */
  lemma StepKeepsCalls(s: State, op: Op)
    requires Inv(s) && op != OResume
    ensures CallsKept(s, Apply(s, op).state)
  {
    hide Inv, CallsKept, Interrupt, ParkCurrent, SleepCurrent, Exit, SetPriority, Lock, TryLock, Unlock, Signal,
      WaitOne, SetBits, PollBits, WaitBits, Expire, ChooseNext, Activate, Unpark;
    KeptRefl(s);
    match op
    case OActivate(t) => SmallIds(s, t); if t < |s.tasks| { TaskCallsKeepCalls(s, t); }
    case OInterrupt(t) => SmallIds(s, t); if t < |s.tasks| { TaskCallsKeepCalls(s, t); }
    case OUnpark(t) => SmallIds(s, t); if t < |s.tasks| { TaskCallsKeepCalls(s, t); }
    case OExpire(t) => SmallIds(s, t); if t < |s.tasks| { TaskCallsKeepCalls(s, t); }
    case OPark(timed) => RunningCallsKeepCalls(s, 0, 0, 0, Park, timed);
    case OSleep => RunningCallsKeepCalls(s, 0, 0, 0, Park, true);
    case OLock(m, timed) => RunningCallsKeepCalls(s, m, 0, 0, Park, timed);
    case OTryLock(m) => RunningCallsKeepCalls(s, m, 0, 0, Park, false);
    case OWaitOne(i, timed) => RunningCallsKeepCalls(s, 0, i, 0, Park, timed);
    case OPollBits(g, payload) => RunningCallsKeepCalls(s, 0, 0, g, payload, false);
    case OWaitBits(g, payload, timed) => RunningCallsKeepCalls(s, 0, 0, g, payload, timed);
    case OExit => ExitKeepsCalls(s);
    case OSetPriority(t, base) => SetPriorityKeepsCalls(s, t, base);
    case OUnlock(m) => UnlockKeepsCalls(s, m);
    case OSignal(i, count) => SignalKeepsCalls(s, i, count);
    case OSetBits(g, bits) => SetBitsKeepsCalls(s, g, bits);
    case ODispatch => ChooseKeepsCalls(s);
    case _ => PlainCallsKeepCalls(s, op);
  }

  lemma SmallIds(s: State, t: nat)
    ensures t >= |s.tasks| ==>
              && Activate(s, t).state == s && Interrupt(s, t, WasInterrupted).state == s
              && Unpark(s, t).state == s && Expire(s, t).state == s
  {
  }

  /** The calls that leave all tasks alone. */
  lemma PlainCallsKeepCalls(s: State, op: Op)
    requires op.OMarkConsistent? || op.OPollOne? || op.ODrain? || op.OClearBits? || op.OBoost? || op.OUnboost?
    ensures CallsKept(s, Apply(s, op).state)
  {
    hide Cleared, FirstReady, CallsKept;
    SameTasksKeepCalls(s, Apply(s, op).state);
  }

  // ----- until the call returns -----

  /** The step is the return of task `t` from its blocking call. */
  predicate Returns(s: State, op: Op, t: nat) {
    op == OResume && s.running == Some(t)
  }

  /** Whatever else happens, including returns of other tasks, a task inside a call stays
      inside it until its own return, and its result, once given, is final: no timeout,
      interruption or wake-up that comes later can change it or be taken for the end of
      another call. */
  lemma ResultIsFinal(s: State, op: Op, t: nat)
    requires Inv(s) && t < |s.tasks| && !Returns(s, op, t)
    ensures var s' := Apply(s, op).state;
            |s'.tasks| == |s.tasks| && CallKept(s.tasks[t], s'.tasks[t])
  {
    if op == OResume {
      hide Inv, CallReply;
    } else {
      hide Inv, Apply, CallKept;
      StepKeepsCalls(s, op);
    }
  }

  /** Task `t` does not return from a call in the run. */
  ghost predicate NeverReturns(s: State, ops: seq<Op>, t: nat)
    decreases |ops|
  {
    ops == [] || (!Returns(s, ops[0], t) && NeverReturns(Apply(s, ops[0]).state, ops[1..], t))
  }

  /** The same over every run, however long, in which task `t` does not return. */
  lemma {:induction false} RunKeepsResult(s: State, ops: seq<Op>, t: nat)
    requires Inv(s) && t < |s.tasks| && NeverReturns(s, ops, t)
    ensures var s' := Run(s, ops);
            Inv(s') && |s'.tasks| == |s.tasks| && CallKept(s.tasks[t], s'.tasks[t])
    decreases |ops|
  {
    hide Inv, Apply;
    if ops != [] {
      var s1 := Apply(s, ops[0]).state;
      ResultIsFinal(s, ops[0], t);
      ApplyKeeps(s, ops[0]);
      RunKeepsResult(s1, ops[1..], t);
    }
  }

  /** When the task returns, at whatever point of the run, its reply is the one that was
      decided when it was woken; only whether a lock reports an abandoned mutex depends
      on the mutex at the return. */
  lemma ReplyWasDecided(s: State, ops: seq<Op>, t: nat)
    requires Inv(s) && t < |s.tasks| && s.tasks[t].call.Inside? && s.tasks[t].wait.None? && NeverReturns(s, ops, t)
    requires var s' := Run(s, ops); s'.running == Some(t) && s'.Task(t).st == Running
    ensures var s' := Run(s, ops);
            && Resume(s').reply == CallReply(s', s.tasks[t])
            && (!s.tasks[t].call.payload.Mutex? ==> Resume(s').reply == CallReply(s, s.tasks[t]))
            && (s.tasks[t].call.payload.Mutex? ==> (Locked(Resume(s').reply) <==> s.tasks[t].result == WaitOk))
  {
    RunKeepsResult(s, ops, t);
    hide Inv, Run;
  }

  predicate Locked(r: Reply) {
    r == Done || r == Abandoned
  }
}
