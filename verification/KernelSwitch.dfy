/** When the processor changes hands: only in the dispatcher, never while priority boost
    is on, and a dispatch is requested exactly when it is needed. */
module KernelSwitch {
  import opened Wrappers
  import opened KernelState
  import opened WaitOrder
  import opened Lists
  import opened KernelInv
  import opened KernelLocal
  import opened KernelDispatch
  import opened KernelOps
  import opened KernelRun
  import opened KernelTick

  // ----- the dispatcher -----

  /** While priority boost is on, a dispatch only withdraws its own request, and nothing
      asks for one. */
  lemma DispatchUnderBoost(s: State)
    requires s.boost
    ensures ChooseNext(s) == s.(pending := false) && CheckPreemption(s) == s
  {
  }

  /** If the running task has given up the processor, the first task of the highest
      occupied level gets it, and if nothing is ready the processor is idle; nothing else
      changes. */
  lemma DispatchIntoGap(s: State)
    requires InvX(s, WHOLE) && !s.boost
    requires s.running.Some? ==> s.Task(s.running.value).st != Running
    ensures var s' := ChooseNext(s);
            if forall p :: 0 <= p < |s.ready| ==> s.ready[p] == [] then s' == s.(pending := false, running := None)
            else exists p :: HighestOccupied(s, p) && s' == GivenTo(s, p)
  {
    hide Preempt, Tasks, Queues, Mutexes, Sems, Groups;
    var p := FirstReady(s.ready);
    FirstReadyIsFirst(s);
    if p < |s.ready| {
      ChooseIsPreemptThenDispatch(s);
      assert Preempt(s) == s.(pending := false, running := None) by { PreemptIsIdle(s); }
      DispatchKeeps(Preempt(s), p);
      assert HighestOccupied(s, p);
    }
  }

  lemma PreemptIsIdle(s: State)
    requires CurrentPriority(s).None?
    ensures Preempt(s) == s.(pending := false, running := None)
  {
  }

  ghost predicate HighestOccupied(s: State, p: nat) {
    p < |s.ready| && s.ready[p] != [] && forall i :: 0 <= i < p ==> s.ready[i] == []
  }

  /** The first task of level `p` runs. */
  ghost function GivenTo(s: State, p: nat): (s': State)
    requires p < |s.ready| && s.ready[p] != []
  {
    var t := s.ready[p][0];
    s.(pending := false, running := Some(t), ready := s.ready[p := s.ready[p][1..]],
       tasks := if t < |s.tasks| then s.tasks[t := s.tasks[t].(st := Running)] else s.tasks)
  }

  // ----- who may touch the dispatcher's fields -----

  /** The step leaves the running task, the boost and the request alone. */
  ghost predicate Quiet(s: State, s': State) {
    s'.running == s.running && s'.boost == s.boost && s'.pending == s.pending
  }

  /** The step only requests a dispatch if one is due. */
  ghost predicate Asks(s: State, s': State) {
    s'.running == s.running && s'.boost == s.boost && s'.pending == (s.pending || Preempts(s'))
  }

  lemma CheckedAsks(s: State, s1: State)
    requires Quiet(s, s1)
    ensures Asks(s, CheckPreemption(s1))
  {
    CheckIs(s1);
    hide FirstReady;
  }

  lemma WakeIsQuiet(s: State, t: nat, result: WaitResult)
    ensures Quiet(s, Wake(s, t, result))
  {
  }

  lemma HandOffIsQuiet(s: State, m: nat)
    ensures Quiet(s, HandOff(s, m))
  {
    hide Wake;
    if s.Queue(m) != [] { WakeIsQuiet(LockCore(s, m, s.Queue(m)[0]), s.Queue(m)[0], WaitOk); }
  }

  lemma {:induction false} GrantIsQuiet(s: State, i: nat, value: nat, count: nat)
    ensures Quiet(s, Grant(s, i, value, count))
    decreases count
  {
    hide Wake;
    var w := s.Queue(s.cfg.SemQueue(i));
    if count > 0 && w != [] {
      WakeIsQuiet(s, w[0], WaitOk);
      GrantIsQuiet(Wake(s, w[0], WaitOk), i, value, count - 1);
    }
  }

  lemma {:induction false} PassIsQuiet(s: State, waiters: seq<nat>, bits: bv32, woke: bool)
    ensures Quiet(s, Pass(s, waiters, bits, woke).state)
    decreases |waiters|
  {
    hide Wake, Satisfied, Consume;
    if waiters != [] {
      var t := waiters[0];
      var wait := s.Task(t).wait;
      if wait.Some? && Satisfied(bits, wait.value.payload) {
        WakeIsQuiet(s.WithTask(t, s.Task(t).(origBits := bits)), t, WaitOk);
        PassIsQuiet(WakeWithBits(s, t, bits), waiters[1..], Consume(bits, wait.value.payload), true);
      } else {
        PassIsQuiet(s, waiters[1..], bits, woke);
      }
    }
  }

  lemma MovesAreQuiet(s: State, t: nat, from: nat)
    ensures Quiet(s, MoveReady(s, t, from)) && Quiet(s, Requeue(s, t))
  {
    hide Without, InsertAt, Place;
  }

  lemma SetPriorityAsks(s: State, t: nat, base: nat)
    ensures var s' := SetPriority(s, t, base).state; Quiet(s, s') || Asks(s, s')
  {
    hide EffectivePriority, CheckPreemption, Requeue, MoveReady, Admits, Asks;
    var k := s.Task(t);
    var s1 := s.WithTask(t, k.(base := base, eff := EffectivePriority(s.cfg, base, k.held)));
    MovesAreQuiet(s1, t, k.eff);
    CheckedAsks(s, s1);
    CheckedAsks(s, MoveReady(s1, t, k.eff));
  }

  lemma UnlockAsks(s: State, m: nat)
    ensures var s' := Unlock(s, m).state; Quiet(s, s') || Asks(s, s')
  {
    hide HandOff, CheckPreemption, EffectivePriority, Asks;
    if s.running.Some? {
      var t := s.running.value;
      var k := s.Task(t);
      var rest := if k.held == [] then [] else k.held[1..];
      var s1 := s.WithTask(t, k.(held := rest, eff := EffectivePriority(s.cfg, k.base, rest)));
      HandOffIsQuiet(s1, m);
      CheckedAsks(s, HandOff(s1, m));
    }
  }

  lemma SignalAsks(s: State, i: nat, count: nat)
    ensures var s' := Signal(s, i, count).state; Quiet(s, s') || Asks(s, s')
  {
    hide Grant, CheckPreemption, Asks;
    GrantIsQuiet(s, i, s.Value(i), count);
    CheckedAsks(s, Grant(s, i, s.Value(i), count));
  }

  lemma SetBitsAsks(s: State, g: nat, added: bv32)
    ensures var s' := SetBits(s, g, added).state; Quiet(s, s') || Asks(s, s')
  {
    hide Pass, CheckPreemption, Joined, Asks;
    var p := Pass(s, s.Queue(s.cfg.GroupQueue(g)), Joined(s.Bits(g), added), false);
    PassIsQuiet(s, s.Queue(s.cfg.GroupQueue(g)), Joined(s.Bits(g), added), false);
    CheckedAsks(s, p.state.WithBits(g, p.bits));
  }

  lemma TaskCallAsks(s: State, t: nat)
    ensures var s' := Activate(s, t).state; Quiet(s, s') || Asks(s, s')
    ensures var s' := Interrupt(s, t, WasInterrupted).state; Quiet(s, s') || Asks(s, s')
    ensures var s' := Unpark(s, t).state; Quiet(s, s') || Asks(s, s')
    ensures var s' := Expire(s, t).state; Quiet(s, s') || Asks(s, s')
  {
    hide Wake, CheckPreemption, Asks;
    var k := s.Task(t);
    var initial := At(s.cfg.initial, t, 0);
    CheckedAsks(s, MakeReady(s.WithTask(t, k.(parkToken := false, base := initial, eff := initial)), t));
    WakeIsQuiet(s, t, WasInterrupted);
    CheckedAsks(s, Wake(s, t, WasInterrupted));
    WakeIsQuiet(s, t, WaitOk);
    CheckedAsks(s, Wake(s, t, WaitOk));
    var s1 := s.WithTask(t, k.(timer := false));
    WakeIsQuiet(s1, t, TimedOut);
    CheckedAsks(s, if k.st == Waiting then Wake(s1, t, TimedOut) else s1);
  }

  lemma BlockAsks(s: State, t: nat, queue: Option<nat>, payload: Payload, timed: bool)
    ensures var s' := Block(s, t, queue, payload, timed);
            s'.running == s.running && s'.boost == s.boost && s'.pending
  {
    hide InsertAt, Place;
  }

  /** The calls that may block do so only while boost is off. */
  ghost predicate MayBlockOp(op: Op) {
    op.OPark? || op.OSleep? || op.OLock? || op.OWaitOne? || op.OWaitBits?
  }

  lemma BlockingCallAsks(s: State, op: Op)
    requires MayBlockOp(op)
    ensures var o := Apply(s, op);
            if o.reply == Blocks then !s.boost && o.state.running == s.running && !o.state.boost && o.state.pending
            else Quiet(s, o.state)
  {
    hide Block, LockCore, Satisfied, Consume, Admits;
    if s.running.Some? {
      var t := s.running.value;
      match op
      case OPark(timed) => BlockAsks(s, t, None, Park, timed);
      case OSleep => BlockAsks(s, t, None, Sleep, true);
      case OLock(m, timed) => BlockAsks(s, t, Some(m), Payload.Mutex(m), timed); LockCoreIsQuiet(s, m, t);
      case OWaitOne(i, timed) => BlockAsks(s, t, Some(s.cfg.SemQueue(i)), Semaphore, timed);
      case OWaitBits(g, payload, timed) => BlockAsks(s, t, Some(s.cfg.GroupQueue(g)), payload, timed);
    }
  }

  lemma LockCoreIsQuiet(s: State, m: nat, t: nat)
    ensures Quiet(s, LockCore(s, m, t))
  {
  }

  /** Steps other than a dispatch, an exit and the boost calls. */
  ghost predicate OrdinaryOp(op: Op) {
    !(op.ODispatch? || op.OExit? || op.OBoost? || op.OUnboost?)
  }

  lemma StepAsks(s: State, op: Op)
    requires OrdinaryOp(op) && !MayBlockOp(op)
    ensures var s' := Apply(s, op).state; Quiet(s, s') || Asks(s, s')
  {
    hide Activate, Interrupt, Unpark, Expire, SetPriority, Unlock, Signal, SetBits, LockCore, Asks;
    hide Satisfied, Consume, Cleared, CallReply, Admits;
    match op
    case OActivate(t) => TaskCallAsks(s, t);
    case OInterrupt(t) => TaskCallAsks(s, t);
    case OUnpark(t) => TaskCallAsks(s, t);
    case OExpire(t) => TaskCallAsks(s, t);
    case OSetPriority(t, base) => SetPriorityAsks(s, t, base);
    case OUnlock(m) => UnlockAsks(s, m);
    case OSignal(i, count) => SignalAsks(s, i, count);
    case OSetBits(g, added) => SetBitsAsks(s, g, added);
    case OTryLock(m) => if s.running.Some? { LockCoreIsQuiet(s, m, s.running.value); }
    case _ =>
  }

  // ----- priority boost -----

  /** `boost_priority` turns the boost on, `unboost_priority` turns it off and asks for a
      dispatch if one is due by then; neither changes anything else. */
  lemma BoostIsSwitched(s: State)
    ensures var o := Boost(s);
            && (o.reply == Done <==> InTask(s) && !s.boost)
            && o.state == (if o.reply == Done then s.(boost := true) else s)
    ensures var o := Unboost(s);
            && (o.reply == Done <==> InTask(s) && s.boost)
            && (o.reply == Done ==> o.state.pending == (s.pending || Preempts(o.state)))
            && o.state == (if o.reply == Done then s.(boost := false, pending := o.state.pending) else s)
  {
    CheckIs(s.(boost := false));
    hide FirstReady, CheckPreemption;
  }

  /** The step is the end of the boost: by its own call, or by the exit of its task. */
  predicate EndsBoost(op: Op) {
    op.OUnboost? || op.OExit?
  }

  lemma StepHoldsBoost(s: State, op: Op)
    requires s.boost && !EndsBoost(op)
    ensures var s' := Apply(s, op).state; s'.boost && s'.running == s.running
  {
    hide Apply, Preempts;
    if op.ODispatch? {
      DispatchUnderBoost(s);
      ChooseIsDispatch(s);
    } else if op.OBoost? {
      BoostIsSwitched(s);
      BoostIsOp(s);
    } else if MayBlockOp(op) {
      BlockingCallAsks(s, op);
    } else {
      StepAsks(s, op);
    }
  }

  lemma ChooseIsDispatch(s: State)
    ensures Apply(s, ODispatch).state == ChooseNext(s)
  {
  }

  lemma BoostIsOp(s: State)
    ensures Apply(s, OBoost) == Boost(s)
  {
  }

  ghost predicate NeverEndsBoost(ops: seq<Op>) {
    forall i :: 0 <= i < |ops| ==> !EndsBoost(ops[i])
  }

  /** A task that has turned on the boost stays the running task, whatever becomes ready
      and however often the dispatcher runs, until it turns the boost off or exits. */
  lemma {:induction false} BoostHolds(s: State, ops: seq<Op>)
    requires Inv(s) && s.boost && NeverEndsBoost(ops)
    ensures var s' := Run(s, ops);
            && Inv(s') && s'.boost && s.running.Some? && s'.running == s.running
            && s'.Task(s.running.value).st == Running
    decreases |ops|
  {
    hide Apply, EndsBoost;
    BoostedRuns(s);
    if ops != [] {
      StepHoldsBoost(s, ops[0]);
      ApplyKeeps(s, ops[0]);
      hide Inv;
      assert NeverEndsBoost(ops[1..]);
      BoostHolds(Apply(s, ops[0]).state, ops[1..]);
    }
  }

  lemma BoostedRuns(s: State)
    requires Inv(s) && s.boost
    ensures s.running.Some? && s.Task(s.running.value).st == Running
  {
  }

  // ----- requests -----

  /** A ready task has a higher priority than the running one, or the processor is free
      for it. */
  ghost predicate Outranked(s: State) {
    !s.boost && exists t :: 0 <= t < |s.tasks| && Outranks(s, t)
  }

  ghost predicate Outranks(s: State, t: nat)
    requires t < |s.tasks|
  {
    && s.tasks[t].st == Ready
    && (s.running.Some? && s.Task(s.running.value).st == Running ==> s.tasks[t].eff < s.Task(s.running.value).eff)
  }

  lemma PreemptsIffOutranked(s: State)
    requires InvX(s, WHOLE)
    ensures Preempts(s) <==> Outranked(s)
  {
    hide Tasks, Queues, Levels, Mutexes, Sems, Groups, FirstReady;
    var p := FirstReady(s.ready);
    FirstReadyIsFirst(s);
    if Preempts(s) {
      ReadyExactlyOnce(s, s.ready[p][0], p);
      assert Outranks(s, s.ready[p][0]);
    }
    if Outranked(s) {
      var t :| 0 <= t < |s.tasks| && Outranks(s, t);
      InBounds(s, WHOLE, t);
      ReadyExactlyOnce(s, t, s.tasks[t].eff);
    }
  }

  /** Every step but the dispatch itself leaves a dispatch requested if and only if one
      was requested before, the running task is now outranked, or it has blocked or
      exited. */
  lemma RequestedWhenNeeded(s: State, op: Op)
    requires Inv(s) && op != ODispatch
    ensures var o := Apply(s, op);
            o.state.pending <==>
              || s.pending || Outranked(o.state)
              || o.reply == Blocks || (op == OExit && o.reply == Done)
  {
    hide Inv, InvX, Apply, Preempts, Outranked;
    var s' := Apply(s, op).state;
    ApplyKeeps(s, op);
    WholeInv(s');
    PreemptsIffOutranked(s');
    if Preempts(s') { PendingIfPreempts(s'); }
    RequestsFollow(s, op);
  }

  lemma RequestsFollow(s: State, op: Op)
    requires op != ODispatch
    ensures var o := Apply(s, op);
            if o.reply == Blocks || (op == OExit && o.reply == Done) then o.state.pending
            else o.state.pending == s.pending || o.state.pending == (s.pending || Preempts(o.state))
  {
    hide Apply, Preempts;
    if op.OExit? {
      ExitAsks(s);
    } else if op.OBoost? || op.OUnboost? {
      BoostIsSwitched(s);
      BoostIsOp(s);
      UnboostIsOp(s);
    } else if MayBlockOp(op) {
      BlockingCallAsks(s, op);
    } else {
      StepAsks(s, op);
      OthersNeverBlock(s, op);
    }
  }

  lemma PendingIfPreempts(s: State)
    requires Inv(s) && Preempts(s)
    ensures s.pending
  {
    hide Tasks, Queues, Levels, Mutexes, Sems, Groups;
  }

  lemma UnboostIsOp(s: State)
    ensures Apply(s, OUnboost) == Unboost(s)
  {
  }

  lemma ExitAsks(s: State)
    ensures var o := Apply(s, OExit); if o.reply == Done then o.state.pending else o.state == s && o.reply != Blocks
  {
    hide AbandonAll;
  }

  lemma OthersNeverBlock(s: State, op: Op)
    requires OrdinaryOp(op) && !MayBlockOp(op)
    ensures Apply(s, op).reply != Blocks
  {
    hide CheckPreemption, Reprioritize, HandOff, Grant, Pass, Wake, LockCore, Satisfied, Consume, Joined, Cleared;
  }
}
