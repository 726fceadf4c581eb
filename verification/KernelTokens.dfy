/** Park tokens: `unpark` on a task that is not parked is not lost, whatever happens
    before the task parks. */
module KernelTokens {
  import opened Wrappers
  import opened KernelState
  import opened KernelOps
  import opened KernelRun
  import opened KernelFlags

  /** Task `t` parks, or is activated, in the step. */
  predicate Spends(s: State, op: Op, t: nat) {
    op == OActivate(t) || (op.OPark? && s.running == Some(t))
  }

  /** A token stays until its task parks or is activated. */
  lemma StepKeepsToken(s: State, op: Op, t: nat)
    requires t < |s.tasks| && s.tasks[t].parkToken && !Spends(s, op, t)
    ensures var s' := Apply(s, op).state; |s'.tasks| == |s.tasks| && s'.tasks[t].parkToken
  {
    if PlainOp(op) {
      PlainOpKeepsFlags(s, op);
      hide Apply;
    } else {
      OthersKeepToken(s, op, t);
    }
  }

  lemma OthersKeepToken(s: State, op: Op, t: nat)
    requires t < |s.tasks| && s.tasks[t].parkToken && !Spends(s, op, t) && !PlainOp(op)
    ensures var s' := Apply(s, op).state; |s'.tasks| == |s.tasks| && s'.tasks[t].parkToken
  {
    hide ParkCurrent, Expire, Resume, Unpark, Activate, SameTimers;
    match op
    case OPark(timed) => ParkFlagsFollow(s, timed);
    case OExpire(u) => ExpireClearsTimer(s, u);
    case OResume => ResumeClearsTimer(s);
    case OUnpark(u) => UnparkKeepsToken(s, u, t);
    case OActivate(u) => ActivateKeepsToken(s, u, t);
    case _ => WaitKeepsToken(s, op, t);
  }

  /** The calls that may wait for an object, or sleep. */
  lemma WaitKeepsToken(s: State, op: Op, t: nat)
    requires t < |s.tasks| && s.tasks[t].parkToken
    requires op.OSleep? || op.OLock? || op.OTryLock? || op.OWaitOne? || op.OWaitBits?
    ensures var s' := Apply(s, op).state; |s'.tasks| == |s.tasks| && s'.tasks[t].parkToken
  {
    hide SleepCurrent, Lock, TryLock, WaitOne, WaitBits, SameTimers;
    match op
    case OSleep => SleepFlagsFollow(s);
    case OLock(m, timed) => LockFlagsFollow(s, m, timed);
    case OTryLock(m) => LockFlagsFollow(s, m, false);
    case OWaitOne(i, timed) => WaitFlagsFollow(s, i, 0, Park, timed);
    case OWaitBits(g, payload, timed) => WaitFlagsFollow(s, 0, g, payload, timed);
  }

  lemma UnparkKeepsToken(s: State, u: nat, t: nat)
    requires t < |s.tasks| && s.tasks[t].parkToken
    ensures var s' := Unpark(s, u).state; |s'.tasks| == |s.tasks| && s'.tasks[t].parkToken
  {
    hide Wake, CheckPreemption;
    WakeKeepsFlags(s, u, WaitOk);
    CheckedKeepsFlags(s, Wake(s, u, WaitOk));
  }

  lemma ActivateKeepsToken(s: State, u: nat, t: nat)
    requires t < |s.tasks| && s.tasks[t].parkToken && u != t
    ensures var s' := Activate(s, u).state; |s'.tasks| == |s.tasks| && s'.tasks[t].parkToken
  {
    hide CheckPreemption;
    var initial := At(s.cfg.initial, u, 0);
    CheckKeepsFlags(MakeReady(s.WithTask(u, s.Task(u).(parkToken := false, base := initial, eff := initial)), u));
  }

  ghost predicate NeverSpends(s: State, ops: seq<Op>, t: nat)
    decreases |ops|
  {
    ops == [] || (!Spends(s, ops[0], t) && NeverSpends(Apply(s, ops[0]).state, ops[1..], t))
  }

  lemma {:induction false} RunKeepsToken(s: State, ops: seq<Op>, t: nat)
    requires t < |s.tasks| && s.tasks[t].parkToken && NeverSpends(s, ops, t)
    ensures var s' := Run(s, ops); |s'.tasks| == |s.tasks| && s'.tasks[t].parkToken
    decreases |ops|
  {
    hide Apply;
    if ops != [] {
      StepKeepsToken(s, ops[0], t);
      RunKeepsToken(Apply(s, ops[0]).state, ops[1..], t);
    }
  }

  /** A token put for a task that is not parked stays over every run in which the task
      neither parks nor is activated; when the task then parks, the call returns at
      once and uses the token up, and changes nothing else. */
  lemma TokenIsNotLost(s: State, t: nat, ops: seq<Op>, timed: bool)
    requires t < |s.tasks| && Unpark(s, t).reply == Done && !IsParked(s.tasks[t])
    requires NeverSpends(Unpark(s, t).state, ops, t)
    ensures var s' := Run(Unpark(s, t).state, ops);
            && |s'.tasks| == |s.tasks| && s'.tasks[t].parkToken
            && (s'.running == Some(t) && Waitable(s') ==>
                  ParkCurrent(s', timed) == Outcome(s'.WithTask(t, s'.tasks[t].(parkToken := false)), Done))
  {
    RunKeepsToken(Unpark(s, t).state, ops, t);
    hide Run, NeverSpends;
  }
}
