/** Whole runs of the kernel: any sequence of system calls, interrupts, timeouts and
    dispatches, from boot. */
module KernelRun {
  import opened Wrappers
  import opened KernelState
  import opened KernelInv
  import opened KernelLocal
  import opened KernelSteps
  import opened KernelDispatch
  import opened KernelTasks
  import opened KernelPriority
  import opened KernelMutexes
  import opened KernelObjects
  import opened KernelOps

  datatype Op =
    | OActivate(t: nat)
    | OInterrupt(t: nat)
    | OPark(timed: bool)
    | OUnpark(t: nat)
    | OSleep
    | OExit
    | OSetPriority(t: nat, base: nat)
    | OLock(m: nat, timed: bool)
    | OTryLock(m: nat)
    | OUnlock(m: nat)
    | OMarkConsistent(m: nat)
    | OSignal(i: nat, count: nat)
    | OPollOne(i: nat)
    | OWaitOne(i: nat, timed: bool)
    | ODrain(i: nat)
    | OSetBits(g: nat, bits: bv32)
    | OClearBits(g: nat, bits: bv32)
    | OPollBits(g: nat, payload: Payload)
    | OWaitBits(g: nat, payload: Payload, timed: bool)
    | OBoost
    | OUnboost
    | OExpire(t: nat)
    | ODispatch
    | OResume

  /** One CPU Lock section. */
  function Apply(s: State, op: Op): (o: Outcome) {
    match op
    case OActivate(t) => Activate(s, t)
    case OInterrupt(t) => Interrupt(s, t, WasInterrupted)
    case OPark(timed) => ParkCurrent(s, timed)
    case OUnpark(t) => Unpark(s, t)
    case OSleep => SleepCurrent(s)
    case OExit => Exit(s)
    case OSetPriority(t, base) => SetPriority(s, t, base)
    case OLock(m, timed) => Lock(s, m, timed)
    case OTryLock(m) => TryLock(s, m)
    case OUnlock(m) => Unlock(s, m)
    case OMarkConsistent(m) => MarkConsistent(s, m)
    case OSignal(i, count) => Signal(s, i, count)
    case OPollOne(i) => PollOne(s, i)
    case OWaitOne(i, timed) => WaitOne(s, i, timed)
    case ODrain(i) => Drain(s, i)
    case OSetBits(g, bits) => SetBits(s, g, bits)
    case OClearBits(g, bits) => ClearBits(s, g, bits)
    case OPollBits(g, payload) => PollBits(s, g, payload)
    case OWaitBits(g, payload, timed) => WaitBits(s, g, payload, timed)
    case OBoost => Boost(s)
    case OUnboost => Unboost(s)
    case OExpire(t) => Expire(s, t)
    case ODispatch => Outcome(ChooseNext(s), Done)
    case OResume => Resume(s)
  }

  predicate ObjectOp(op: Op) {
    op.OMarkConsistent? || op.OSignal? || op.OPollOne? || op.OWaitOne? || op.ODrain? || op.OSetBits?
      || op.OClearBits? || op.OPollBits? || op.OWaitBits?
  }

  lemma ApplyObjectKeeps(s: State, op: Op)
    requires Inv(s) && ObjectOp(op)
    ensures Inv(Apply(s, op).state)
  {
    hide Inv, MarkConsistent, Signal, PollOne, WaitOne, Drain, SetBits, ClearBits, PollBits, WaitBits;
    match op
    case OMarkConsistent(m) => MarkConsistentKeeps(s, m);
    case OSignal(i, count) => SignalKeeps(s, i, count);
    case OPollOne(i) => SemaphoreKeeps(s, i, false);
    case OWaitOne(i, timed) => SemaphoreKeeps(s, i, timed);
    case ODrain(i) => SemaphoreKeeps(s, i, false);
    case OSetBits(g, bits) => SetBitsKeeps(s, g, bits);
    case OClearBits(g, bits) => ClearBitsKeeps(s, g, bits);
    case OPollBits(g, payload) => PollBitsKeeps(s, g, payload);
    case OWaitBits(g, payload, timed) => WaitBitsKeeps(s, g, payload, timed);
  }

  lemma ApplyTaskKeeps(s: State, op: Op)
    requires Inv(s) && !ObjectOp(op)
    ensures Inv(Apply(s, op).state)
  {
    hide Inv, Activate, Interrupt, ParkCurrent, Unpark, SleepCurrent, Exit, SetPriority, Lock, TryLock, Unlock;
    hide Boost, Unboost, Expire, ChooseNext, Resume;
    match op
    case OActivate(t) => ActivateKeeps(s, t);
    case OInterrupt(t) => InterruptKeeps(s, t);
    case OPark(timed) => ParkKeeps(s, timed);
    case OUnpark(t) => UnparkKeeps(s, t);
    case OSleep => ParkKeeps(s, true);
    case OExit => ExitKeeps(s);
    case OSetPriority(t, base) => SetPriorityKeeps(s, t, base);
    case OLock(m, timed) => LockKeeps(s, m, timed);
    case OTryLock(m) => LockKeeps(s, m, false);
    case OUnlock(m) => UnlockKeeps(s, m);
    case OBoost => BoostKeeps(s);
    case OUnboost => BoostKeeps(s);
    case OExpire(t) => ExpireKeeps(s, t);
    case ODispatch => assert InvX(s, WHOLE) by { WholeInv(s); } ChooseKeeps(s);
    case OResume => ResumeKeeps(s);
  }

  /** Every CPU Lock section keeps the invariant. */
  lemma ApplyKeeps(s: State, op: Op)
    requires Inv(s)
    ensures Inv(Apply(s, op).state)
  {
    hide Inv, Apply;
    if ObjectOp(op) { ApplyObjectKeeps(s, op); } else { ApplyTaskKeeps(s, op); }
  }

  lemma WholeInv(s: State)
    requires Inv(s)
    ensures InvX(s, WHOLE)
  {
  }

  function Run(s: State, ops: seq<Op>): (s': State)
    decreases |ops|
  {
    if ops == [] then s else Run(Apply(s, ops[0]).state, ops[1..])
  }

  lemma {:induction false} RunKeeps(s: State, ops: seq<Op>)
    requires Inv(s)
    ensures Inv(Run(s, ops))
    decreases |ops|
  {
    hide Inv, Apply;
    if ops != [] {
      ApplyKeeps(s, ops[0]);
      RunKeeps(Apply(s, ops[0]).state, ops[1..]);
    }
  }

  // ----- boot -----

  lemma InitialIsGood(cfg: Config)
    requires cfg.Valid()
    ensures InvX(InitialState(cfg), WHOLE)
  {
    var s := InitialState(cfg);
    forall t | 0 <= t < |s.tasks| ensures TaskOk(s, t, s.tasks[t]) && UpToDate(cfg, s.tasks[t]) {
      assert s.tasks[t] == IDLE_TASK.(base := cfg.initial[t], eff := cfg.initial[t]);
    }
    assert forall q: nat :: s.Queue(q) == [];
    assert forall m: nat :: s.Mutex(m).owner == None;
  }

  lemma {:induction false} BootKeeps(s: State, active: seq<nat>)
    requires InvX(s, WHOLE) && s.running == None
    requires forall t :: 0 <= t < |s.tasks| && s.tasks[t].st == Dormant ==> s.tasks[t].eff == s.tasks[t].base
    ensures Inv(Boot(s, active))
    decreases |active|
  {
    if active == [] {
      hide Tasks, Queues, Levels, Mutexes, Sems, Groups;
      OnlyRunning(s, WHOLE);
      FlagsKeep(s, None, s.boost, true, WHOLE);
    } else {
      var t := active[0];
      if t < |s.tasks| && s.tasks[t].st == Dormant {
        InBounds(s, WHOLE, t);
        hide InvX, Boot;
        MakeReadyIs(s, t);
        ReadyKeeps(s, t, s.running);
        BootKeeps(MakeReady(s, t), active[1..]);
        BootStep(s, active);
      } else {
        BootKeeps(s, active[1..]);
      }
    }
  }

  lemma BootStep(s: State, active: seq<nat>)
    requires active != [] && active[0] < |s.tasks| && s.tasks[active[0]].st == Dormant
    ensures Boot(s, active) == Boot(MakeReady(s, active[0]), active[1..])
  {
  }

  /** In every state reachable from boot, under any configuration and any sequence of
      calls, interrupts, timeouts and dispatches, the invariant holds. */
  lemma EveryReachableStateIsGood(cfg: Config, active: seq<nat>, ops: seq<Op>)
    requires cfg.Valid()
    ensures Inv(Run(Boot(InitialState(cfg), active), ops))
  {
    InitialIsGood(cfg);
    var s := InitialState(cfg);
    BootKeeps(s, active);
    hide Inv;
    RunKeeps(Boot(s, active), ops);
  }
}
