/** Which steps touch the park token and the registered timeout of a task: only the calls
    that are about them. */
module KernelFlags {
  import opened Wrappers
  import opened Lists
  import opened KernelState
  import opened WaitOrder
  import opened KernelDispatch
  import opened KernelOps
  import opened KernelRun

  /** Every task has the park token it had. */
  ghost predicate SameTokens(s: State, s': State) {
    |s'.tasks| == |s.tasks| && forall t :: 0 <= t < |s.tasks| ==> s'.tasks[t].parkToken == s.tasks[t].parkToken
  }

  /** Every task has the registered timeout it had, or none. */
  ghost predicate SameTimers(s: State, s': State) {
    |s'.tasks| == |s.tasks| && forall t :: 0 <= t < |s.tasks| ==> s'.tasks[t].timer == s.tasks[t].timer
  }

  ghost predicate SameFlags(s: State, s': State) {
    SameTokens(s, s') && SameTimers(s, s')
  }

  /** The only timeout that may have been registered or unregistered is that of `t`. */
  ghost predicate TimerSet(s: State, s': State, t: nat, timed: bool) {
    && SameTokens(s, s')
    && forall u :: 0 <= u < |s.tasks| ==> s'.tasks[u].timer == if u == t then timed else s.tasks[u].timer
  }

  lemma WakeKeepsFlags(s: State, t: nat, result: WaitResult)
    ensures SameFlags(s, Wake(s, t, result))
  {
  }

  lemma HandOffKeepsFlags(s: State, m: nat)
    ensures SameFlags(s, HandOff(s, m))
  {
    hide Wake;
    if s.Queue(m) != [] { WakeKeepsFlags(LockCore(s, m, s.Queue(m)[0]), s.Queue(m)[0], WaitOk); }
  }

  lemma {:induction false} AbandonKeepsFlags(s: State, held: seq<nat>)
    ensures SameFlags(s, AbandonAll(s, held))
    decreases |held|
  {
    hide HandOff;
    if held != [] {
      var s1 := s.WithMutex(held[0], s.Mutex(held[0]).(inconsistent := true));
      HandOffKeepsFlags(s1, held[0]);
      AbandonKeepsFlags(HandOff(s1, held[0]), held[1..]);
    }
  }

  lemma {:induction false} GrantKeepsFlags(s: State, i: nat, value: nat, count: nat)
    ensures SameFlags(s, Grant(s, i, value, count))
    decreases count
  {
    hide Wake;
    var w := s.Queue(s.cfg.SemQueue(i));
    if count > 0 && w != [] {
      WakeKeepsFlags(s, w[0], WaitOk);
      GrantKeepsFlags(Wake(s, w[0], WaitOk), i, value, count - 1);
    }
  }

  lemma {:induction false} PassKeepsFlags(s: State, waiters: seq<nat>, bits: bv32, woke: bool)
    ensures SameFlags(s, Pass(s, waiters, bits, woke).state)
    decreases |waiters|
  {
    hide Wake, Satisfied, Consume;
    if waiters != [] {
      var t := waiters[0];
      var wait := s.Task(t).wait;
      if wait.Some? && Satisfied(bits, wait.value.payload) {
        WakeKeepsFlags(s.WithTask(t, s.Task(t).(origBits := bits)), t, WaitOk);
        PassKeepsFlags(WakeWithBits(s, t, bits), waiters[1..], Consume(bits, wait.value.payload), true);
      } else {
        PassKeepsFlags(s, waiters[1..], bits, woke);
      }
    }
  }

  lemma CheckKeepsFlags(s: State)
    ensures SameFlags(s, CheckPreemption(s))
  {
    CheckOnlyAsks(s);
    hide CheckPreemption;
  }

  lemma CheckedKeepsFlags(s: State, s': State)
    requires SameFlags(s, s')
    ensures SameFlags(s, CheckPreemption(s'))
  {
    CheckKeepsFlags(s');
  }

  lemma ExitKeepsFlags(s: State)
    ensures SameFlags(s, Exit(s).state)
  {
    hide AbandonAll;
    if InTask(s) {
      var t := s.running.value;
      AbandonKeepsFlags(s.(boost := false).WithTask(t, s.Task(t).(held := [])), s.Task(t).held);
    }
  }

  lemma FlagsTrans(a: State, b: State, c: State)
    requires SameFlags(a, b) && SameFlags(b, c)
    ensures SameFlags(a, c)
  {
  }

  lemma EditKeepsFlags(s: State, t: nat, k': Task)
    requires k'.parkToken == s.Task(t).parkToken && k'.timer == s.Task(t).timer
    ensures SameFlags(s, s.WithTask(t, k'))
  {
  }

  lemma RequeueKeepsFlags(s: State, t: nat)
    ensures SameFlags(s, Requeue(s, t))
  {
    hide Without, InsertAt, Place;
  }

  lemma MoveReadyKeepsFlags(s: State, t: nat, from: nat)
    ensures SameFlags(s, MoveReady(s, t, from))
  {
    hide Without;
  }

  lemma SetPriorityKeepsFlags(s: State, t: nat, base: nat)
    ensures SameFlags(s, SetPriority(s, t, base).state)
  {
    hide SameFlags, EffectivePriority, CheckPreemption, Requeue, MoveReady, Admits;
    var k := s.Task(t);
    var eff := EffectivePriority(s.cfg, base, k.held);
    var s1 := s.WithTask(t, k.(base := base, eff := eff));
    SameTasksKeepFlags(s, s);
    EditKeepsFlags(s, t, k.(base := base, eff := eff));
    CheckedKeepsFlags(s, s1);
    MoveReadyKeepsFlags(s1, t, k.eff);
    FlagsTrans(s, s1, MoveReady(s1, t, k.eff));
    CheckedKeepsFlags(s, MoveReady(s1, t, k.eff));
    RequeueKeepsFlags(s1, t);
    FlagsTrans(s, s1, Requeue(s1, t));
  }

  lemma WakingKeepsFlags(s: State, i: nat, count: nat, g: nat, bits: bv32)
    ensures SameFlags(s, Signal(s, i, count).state) && SameFlags(s, SetBits(s, g, bits).state)
  {
    hide Grant, Pass, CheckPreemption, Joined;
    GrantKeepsFlags(s, i, s.Value(i), count);
    CheckedKeepsFlags(s, Grant(s, i, s.Value(i), count));
    var p := Pass(s, s.Queue(s.cfg.GroupQueue(g)), Joined(s.Bits(g), bits), false);
    PassKeepsFlags(s, s.Queue(s.cfg.GroupQueue(g)), Joined(s.Bits(g), bits), false);
    CheckedKeepsFlags(s, p.state.WithBits(g, p.bits));
  }

  lemma UnlockKeepsFlags(s: State, m: nat)
    ensures SameFlags(s, Unlock(s, m).state)
  {
    hide HandOff, CheckPreemption, EffectivePriority;
    if s.running.Some? {
      var t := s.running.value;
      var k := s.Task(t);
      var rest := if k.held == [] then [] else k.held[1..];
      var s1 := s.WithTask(t, k.(held := rest, eff := EffectivePriority(s.cfg, k.base, rest)));
      HandOffKeepsFlags(s1, m);
      CheckedKeepsFlags(s, HandOff(s1, m));
    }
  }

  lemma InterruptKeepsFlags(s: State, t: nat)
    ensures SameFlags(s, Interrupt(s, t, WasInterrupted).state)
  {
    hide Wake, CheckPreemption;
    WakeKeepsFlags(s, t, WasInterrupted);
    CheckedKeepsFlags(s, Wake(s, t, WasInterrupted));
  }

  /** An expiry unregisters the timeout. */
  lemma ExpireClearsTimer(s: State, t: nat)
    ensures TimerSet(s, Expire(s, t).state, t, false)
  {
    hide Wake, CheckPreemption;
    var s1 := s.WithTask(t, s.Task(t).(timer := false));
    WakeKeepsFlags(s1, t, TimedOut);
    CheckedKeepsFlags(s1, Wake(s1, t, TimedOut));
    CheckedKeepsFlags(s1, s1);
  }

  /** So does the return of a call, and blocking registers one if the call is timed. */
  lemma ResumeClearsTimer(s: State)
    ensures var o := Resume(s);
            if o.reply == BadContext then o.state == s
            else s.running.Some? && TimerSet(s, o.state, s.running.value, false)
  {
  }

  lemma BlockSetsTimer(s: State, t: nat, queue: Option<nat>, payload: Payload, timed: bool)
    ensures TimerSet(s, Block(s, t, queue, payload, timed), t, timed)
  {
    hide InsertAt, Place;
  }

  lemma SameTasksKeepFlags(s: State, s': State)
    requires s'.tasks == s.tasks
    ensures SameFlags(s, s')
  {
  }

  lemma LockCoreKeepsFlags(s: State, m: nat, t: nat)
    ensures SameFlags(s, LockCore(s, m, t))
  {
  }

  /** A call that may block registers a timeout exactly if it blocks and is timed. */
  ghost predicate FlagsFollow(s: State, o: Outcome, timed: bool) {
    if o.reply == Blocks then s.running.Some? && TimerSet(s, o.state, s.running.value, timed)
    else SameFlags(s, o.state)
  }

  lemma LockFlagsFollow(s: State, m: nat, timed: bool)
    ensures FlagsFollow(s, Lock(s, m, timed), timed) && FlagsFollow(s, TryLock(s, m), false)
  {
    hide SameFlags, TimerSet, Block, LockCore, Admits;
    SameTasksKeepFlags(s, s);
    if s.running.Some? {
      var t := s.running.value;
      LockCoreKeepsFlags(s, m, t);
      BlockSetsTimer(s, t, Some(m), Payload.Mutex(m), timed);
    }
  }

  lemma WaitFlagsFollow(s: State, i: nat, g: nat, payload: Payload, timed: bool)
    ensures FlagsFollow(s, WaitOne(s, i, timed), timed) && FlagsFollow(s, WaitBits(s, g, payload, timed), timed)
  {
    hide SameFlags, TimerSet, Block, Satisfied, Consume;
    SameTasksKeepFlags(s, s);
    SameTasksKeepFlags(s, s.WithValue(i, if s.Value(i) > 0 then s.Value(i) - 1 else 0));
    SameTasksKeepFlags(s, s.WithBits(g, Consume(s.Bits(g), payload)));
    if s.running.Some? {
      BlockSetsTimer(s, s.running.value, Some(s.cfg.SemQueue(i)), Semaphore, timed);
      BlockSetsTimer(s, s.running.value, Some(s.cfg.GroupQueue(g)), payload, timed);
    }
  }

  lemma SleepFlagsFollow(s: State)
    ensures FlagsFollow(s, SleepCurrent(s), true)
  {
    hide SameFlags, TimerSet, Block;
    SameTasksKeepFlags(s, s);
    if s.running.Some? { BlockSetsTimer(s, s.running.value, None, Sleep, true); }
  }

  /** Parking also uses up a token. */
  lemma ParkFlagsFollow(s: State, timed: bool)
    ensures var o := ParkCurrent(s, timed);
            if o.reply == Blocks then s.running.Some? && TimerSet(s, o.state, s.running.value, timed)
            else SameTimers(s, o.state)
    ensures forall t :: 0 <= t < |s.tasks| && s.running != Some(t) ==>
              |ParkCurrent(s, timed).state.tasks| == |s.tasks|
              && ParkCurrent(s, timed).state.tasks[t].parkToken == s.tasks[t].parkToken
  {
    hide Block;
    if s.running.Some? { BlockSetsTimer(s, s.running.value, None, Park, timed); }
  }

  lemma MakeReadyKeepsFlags(s: State, t: nat)
    ensures SameFlags(s, MakeReady(s, t))
  {
  }

  lemma SwitchKeepsFlags(s: State, t: nat)
    ensures SameFlags(s, SwitchTo(s, t))
  {
    hide MakeReady;
    if s.running.Some? { MakeReadyKeepsFlags(s, s.running.value); }
  }

  lemma ChooseKeepsFlags(s: State)
    ensures SameFlags(s, ChooseNext(s))
  {
    hide SameFlags, FirstReady, SwitchTo;
    var next := FirstReady(s.ready);
    var s1 := s.(pending := false);
    SameTasksKeepFlags(s, s1);
    SameTasksKeepFlags(s, s1.(running := None));
    if next < |s.ready| && s.ready[next] != [] {
      var t := s.ready[next][0];
      var s2 := s1.WithReady(next, s.ready[next][1..]);
      SameTasksKeepFlags(s, s2);
      EditKeepsFlags(s2, t, s.Task(t).(st := Running));
      var s3 := s2.WithTask(t, s.Task(t).(st := Running));
      SwitchKeepsFlags(s3, t);
      FlagsTrans(s, s2, s3);
      FlagsTrans(s, s3, SwitchTo(s3, t));
    }
    assert next < |s.ready| ==> s.ready[next] != [] by { FirstReadyIsFirst(s); }
  }

  lemma PlainKeepsFlags(s: State, op: Op)
    requires op.OMarkConsistent? || op.OPollOne? || op.ODrain? || op.OClearBits? || op.OPollBits? || op.OBoost?
             || op.OUnboost?
    ensures SameFlags(s, Apply(s, op).state)
  {
    hide SameFlags, Cleared, Satisfied, Consume;
    SameTasksKeepFlags(s, Apply(s, op).state);
  }

  /** The steps that may touch neither. */
  predicate PlainOp(op: Op) {
    !(op.OPark? || op.OUnpark? || op.OActivate? || op.OSleep? || op.OLock? || op.OTryLock? || op.OWaitOne?
      || op.OWaitBits?
      || op.OExpire? || op.OResume?)
  }

  lemma PlainOpKeepsFlags(s: State, op: Op)
    requires PlainOp(op)
    ensures SameFlags(s, Apply(s, op).state)
  {
    hide SameFlags, Interrupt, Exit, SetPriority, Unlock, Signal, SetBits, ChooseNext, CheckPreemption;
    hide Cleared, Satisfied, Consume;
    match op
    case OInterrupt(t) => InterruptKeepsFlags(s, t);
    case OExit => ExitKeepsFlags(s);
    case OSetPriority(t, base) => SetPriorityKeepsFlags(s, t, base);
    case OUnlock(m) => UnlockKeepsFlags(s, m);
    case OSignal(i, count) => WakingKeepsFlags(s, i, count, 0, 0);
    case OSetBits(g, bits) => WakingKeepsFlags(s, 0, 0, g, bits);
    case ODispatch => ChooseKeepsFlags(s);
    case _ => PlainKeepsFlags(s, op);
  }

  /** `unpark` and `activate` are about the token, not about the timeout. */
  lemma TokenCallsKeepTimers(s: State, t: nat)
    ensures SameTimers(s, Unpark(s, t).state) && SameTimers(s, Activate(s, t).state)
  {
    hide Unpark, Activate, SameTimers;
    UnparkKeepsTimers(s, t);
    ActivateKeepsTimers(s, t);
  }

  lemma UnparkKeepsTimers(s: State, t: nat)
    ensures SameTimers(s, Unpark(s, t).state)
  {
    hide Wake, CheckPreemption;
    WakeKeepsFlags(s, t, WaitOk);
    CheckedKeepsFlags(s, Wake(s, t, WaitOk));
  }

  lemma ActivateKeepsTimers(s: State, t: nat)
    ensures SameTimers(s, Activate(s, t).state)
  {
    hide CheckPreemption;
    var initial := At(s.cfg.initial, t, 0);
    var s1 := MakeReady(s.WithTask(t, s.Task(t).(parkToken := false, base := initial, eff := initial)), t);
    CheckedKeepsFlags(s1, s1);
    assert SameTimers(s, s1);
  }

  // ----- registered timeouts -----

  /** Whether a blocking call has a time limit. */
  predicate IsTimed(op: Op) {
    op.OSleep? || (op.OPark? && op.timed) || (op.OLock? && op.timed) || (op.OWaitOne? && op.timed)
      || (op.OWaitBits? && op.timed)
  }

  /** Apart from expiries and returns, a step registers a timeout exactly for a task whose
      timed call blocks, and unregisters none. */
  lemma TimersFollowCalls(s: State, op: Op)
    requires !op.OExpire? && !op.OResume?
    ensures var o := Apply(s, op);
            && |o.state.tasks| == |s.tasks|
            && if o.reply == Blocks then s.running.Some? && TimerSet(s, o.state, s.running.value, IsTimed(op))
               else SameTimers(s, o.state)
  {
    hide ParkCurrent, SleepCurrent, Lock, TryLock, WaitOne, WaitBits, Unpark, Activate;
    if PlainOp(op) {
      PlainOpKeepsFlags(s, op);
      PlainOpNeverBlocks(s, op);
    } else {
      match op
      case OPark(timed) => ParkFlagsFollow(s, timed);
      case OSleep => SleepFlagsFollow(s);
      case OLock(m, timed) => LockFlagsFollow(s, m, timed);
      case OTryLock(m) => LockFlagsFollow(s, m, false); TryLockNeverBlocks(s, m);
      case OWaitOne(i, timed) => WaitFlagsFollow(s, i, 0, Park, timed);
      case OWaitBits(g, payload, timed) => WaitFlagsFollow(s, 0, g, payload, timed);
      case OUnpark(t) => TokenCallsKeepTimers(s, t); TokenCallsNeverBlock(s, t);
      case OActivate(t) => TokenCallsKeepTimers(s, t); TokenCallsNeverBlock(s, t);
    }
  }

  lemma PlainOpNeverBlocks(s: State, op: Op)
    requires PlainOp(op)
    ensures Apply(s, op).reply != Blocks
  {
    hide AbandonAll, CheckPreemption, Reprioritize, HandOff, Grant, Pass, Wake, ChooseNext, Satisfied, Consume;
    hide Joined, Cleared;
  }

  lemma TryLockNeverBlocks(s: State, m: nat)
    ensures TryLock(s, m).reply != Blocks
  {
    hide LockCore;
  }

  lemma TokenCallsNeverBlock(s: State, t: nat)
    ensures Unpark(s, t).reply != Blocks && Activate(s, t).reply != Blocks
  {
    hide Wake, CheckPreemption, MakeReady;
  }

  lemma {:induction false} BootKeepsFlags(s: State, active: seq<nat>)
    ensures SameFlags(s, Boot(s, active))
    decreases |active|
  {
    hide SameFlags, InitTask;
    SameTasksKeepFlags(s, s.(pending := true));
    if active != [] {
      InitTaskKeepsFlags(s, active[0]);
      BootKeepsFlags(InitTask(s, active[0]), active[1..]);
      FlagsTrans(s, InitTask(s, active[0]), Boot(s, active));
    }
  }

  lemma InitTaskKeepsFlags(s: State, t: nat)
    ensures SameFlags(s, InitTask(s, t))
  {
    hide MakeReady;
    MakeReadyKeepsFlags(s, t);
  }
}
