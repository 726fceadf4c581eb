/** Which calls are refused for their context or their arguments; a refused call changes
    nothing. */
module KernelRefusals {
  import opened KernelState
  import opened KernelOps
  import opened KernelRun

  /** The running task executes its own code, outside any blocking call. */
  ghost predicate OwnCode(s: State) {
    && s.running.Some? && s.running.value < |s.tasks|
    && s.tasks[s.running.value].st == Running && s.tasks[s.running.value].call == NoCall
  }

  /** The step is made in a context that allows it: what may block needs a task without
      boost, and what concerns the calling task needs a task. */
  ghost predicate ContextFits(s: State, op: Op) {
    match op
    case OPark(_) => OwnCode(s) && !s.boost
    case OSleep => OwnCode(s) && !s.boost
    case OLock(_, _) => OwnCode(s) && !s.boost
    case OUnlock(_) => OwnCode(s) && !s.boost
    case OWaitOne(_, _) => OwnCode(s) && !s.boost
    case OWaitBits(_, _, _) => OwnCode(s) && !s.boost
    case OBoost => OwnCode(s) && !s.boost
    case OUnboost => OwnCode(s) && s.boost
    case OTryLock(_) => OwnCode(s)
    case OExit => OwnCode(s)
    case OResume => s.running.Some? && s.Task(s.running.value).st == Running && s.Task(s.running.value).call.Inside?
    case _ => true
  }

  /** The objects that the step names exist. */
  ghost predicate IdFits(s: State, op: Op) {
    match op
    case OActivate(t) => t < |s.tasks|
    case OInterrupt(t) => t < |s.tasks|
    case OUnpark(t) => t < |s.tasks|
    case OSetPriority(t, _) => t < |s.tasks|
    case OLock(m, _) => m < |s.mutexes|
    case OTryLock(m) => m < |s.mutexes|
    case OUnlock(m) => m < |s.mutexes|
    case OMarkConsistent(m) => m < |s.mutexes|
    case OSignal(i, _) => i < |s.values|
    case OPollOne(i) => i < |s.values|
    case OWaitOne(i, _) => i < |s.values|
    case ODrain(i) => i < |s.values|
    case OSetBits(g, _) => g < |s.bits|
    case OClearBits(g, _) => g < |s.bits|
    case OPollBits(g, payload) => g < |s.bits| && payload.EventBits?
    case OWaitBits(g, payload, _) => g < |s.bits| && payload.EventBits?
    case _ => true
  }

  /** A step is refused for its context if and only if the context does not fit, and for
      its arguments if and only if an object does not exist. */
  lemma RefusedIff(s: State, op: Op)
    ensures var r := Apply(s, op).reply;
            && (r == BadContext <==> !ContextFits(s, op))
            && (r == BadId <==> ContextFits(s, op) && !IdFits(s, op))
  {
    if op.OResume? {
      ReturnRefusedIff(s);
    } else if op.OLock? || op.OTryLock? || op.OUnlock? || op.OMarkConsistent? {
      MutexCallRefusedIff(s, op);
    } else if ObjectOp(op) {
      ObjectCallRefusedIff(s, op);
    } else {
      TaskCallRefusedIff(s, op);
    }
    hide Apply, ContextFits, IdFits;
  }

  lemma ReturnRefusedIff(s: State)
    ensures var r := Apply(s, OResume).reply; (r == BadContext <==> !ContextFits(s, OResume)) && r != BadId
  {
  }

  lemma MutexCallRefusedIff(s: State, op: Op)
    requires op.OLock? || op.OTryLock? || op.OUnlock? || op.OMarkConsistent?
    ensures var r := Apply(s, op).reply;
            && (r == BadContext <==> !ContextFits(s, op))
            && (r == BadId <==> ContextFits(s, op) && !IdFits(s, op))
  {
    hide Block, LockCore, HandOff, CheckPreemption, EffectivePriority, Admits;
  }

  lemma ObjectCallRefusedIff(s: State, op: Op)
    requires ObjectOp(op) && !op.OMarkConsistent?
    ensures var r := Apply(s, op).reply;
            && (r == BadContext <==> !ContextFits(s, op))
            && (r == BadId <==> ContextFits(s, op) && !IdFits(s, op))
  {
    hide Block, Grant, Pass, CheckPreemption, Satisfied, Consume, Cleared, Joined;
  }

  lemma TaskCallRefusedIff(s: State, op: Op)
    requires !ObjectOp(op) && !op.OLock? && !op.OTryLock? && !op.OUnlock? && !op.OResume?
    ensures var r := Apply(s, op).reply;
            && (r == BadContext <==> !ContextFits(s, op))
            && (r == BadId <==> ContextFits(s, op) && !IdFits(s, op))
  {
    hide Block, Wake, MakeReady, AbandonAll, CheckPreemption, Reprioritize, EffectivePriority, MayRaise, ChooseNext;
  }

  /** Replies that report a failure. */
  ghost predicate Failure(r: Reply) {
    !(r == Done || r == Blocks || r.OldBits? || r == Abandoned)
  }

  /** Whatever the reason, a call that fails changes nothing. (The replies to a return are
      results, not failures of the step.) */
  lemma FailureChangesNothing(s: State, op: Op)
    requires op != OResume && Failure(Apply(s, op).reply)
    ensures Apply(s, op).state == s
  {
    if op.OLock? || op.OTryLock? || op.OUnlock? || op.OMarkConsistent? {
      MutexFailure(s, op);
    } else if ObjectOp(op) {
      ObjectFailure(s, op);
    } else {
      TaskFailure(s, op);
    }
  }

  lemma MutexFailure(s: State, op: Op)
    requires op.OLock? || op.OTryLock? || op.OUnlock? || op.OMarkConsistent?
    requires Failure(Apply(s, op).reply)
    ensures Apply(s, op).state == s
  {
    hide Block, LockCore, HandOff, CheckPreemption, EffectivePriority, Admits;
  }

  lemma ObjectFailure(s: State, op: Op)
    requires ObjectOp(op) && !op.OMarkConsistent? && Failure(Apply(s, op).reply)
    ensures Apply(s, op).state == s
  {
    hide Block, Grant, Pass, CheckPreemption, Satisfied, Consume, Cleared, Joined;
  }

  lemma TaskFailure(s: State, op: Op)
    requires !ObjectOp(op) && !op.OLock? && !op.OTryLock? && !op.OUnlock? && !op.OResume?
    requires Failure(Apply(s, op).reply)
    ensures Apply(s, op).state == s
  {
    hide Block, Wake, MakeReady, AbandonAll, CheckPreemption, Reprioritize, EffectivePriority, MayRaise, ChooseNext;
  }
}
