/** The task system calls keep the invariant. */
module KernelTasks {
  import opened Wrappers
  import opened Lists
  import opened KernelState
  import opened KernelInv
  import opened KernelLocal
  import opened KernelMoves
  import opened KernelSteps
  import opened KernelDispatch
  import opened KernelOps

  /** The dispatch rule looks only at the dispatcher's fields, the ready queue and the
      state and priority of the running task. */
  lemma SameRule(s: State, s': State)
    requires NoLostPreemption(s) && s'.ready == s.ready && s'.running == s.running && s'.boost == s.boost
    requires s'.pending == s.pending
    requires s.running.Some? ==>
               && s'.Task(s.running.value).st == s.Task(s.running.value).st
               && s'.Task(s.running.value).eff <= s.Task(s.running.value).eff
    ensures NoLostPreemption(s')
  {
  }

  /** Replacing a task control block in place by one of the same state and priority. */
  lemma EditKeeps(s: State, t: nat, k': Task)
    requires Inv(s) && MayUpdate(s, t, k', WHOLE, WHOLE) && k'.eff == s.tasks[t].eff
    ensures Inv(s.WithTask(t, k'))
  {
    UpdateKeeps(s, t, k', WHOLE, WHOLE);
    hide InvX;
    SameRule(s, s.WithTask(t, k'));
  }

  /** A task waiting for a mutex does not own it. */
  lemma WaiterIsNotOwner(s: State, t: nat)
    requires InvX(s, WHOLE) && t < |s.tasks| && s.tasks[t].wait.Some? && s.tasks[t].wait.value.payload.Mutex?
    ensures s.Mutex(s.tasks[t].wait.value.payload.m).owner != Some(t)
  {
    hide Queues, Levels, Sems, Groups, Runs;
    InBounds(s, WHOLE, t);
    assert MutexOk(s, s.tasks[t].wait.value.payload.m);
  }

  lemma MayInterrupt(s: State, t: nat, result: WaitResult)
    requires InvX(s, WHOLE) && t < |s.tasks| && s.tasks[t].st == Waiting
    requires result == WasInterrupted || (result == WaitOk && IsParked(s.tasks[t]))
             || (result == TimedOut && s.tasks[t].call.Inside? && s.tasks[t].call.timed)
    ensures MayWake(s, t, result)
  {
    InBounds(s, WHOLE, t);
    hide InvX;
    if s.tasks[t].wait.value.payload.Mutex? { WaiterIsNotOwner(s, t); }
  }

  lemma ActivateKeeps(s: State, t: nat)
    requires Inv(s)
    ensures Inv(Activate(s, t).state)
  {
    var k := s.Task(t);
    if t < |s.tasks| && k.st == Dormant {
      InBounds(s, WHOLE, t);
      var initial := At(s.cfg.initial, t, 0);
      var k' := k.(parkToken := false, base := initial, eff := initial);
      assert TaskOk(s, t, k');
      UpdateKeeps(s, t, k', WHOLE, WHOLE);
      var s1 := s.WithTask(t, k');
      assert EffectivePriority(s.cfg, initial, []) == initial;
      hide InvX;
      ReadyKeeps(s1, t, s1.running);
      CheckRestoresRule(MakeReady(s1, t));
    }
  }

  lemma InterruptKeeps(s: State, t: nat)
    requires Inv(s)
    ensures Inv(Interrupt(s, t, WasInterrupted).state)
  {
    hide InvX, Wake, CheckPreemption;
    if t < |s.tasks| && s.Task(t).st == Waiting {
      MayInterrupt(s, t, WasInterrupted);
      WakeKeeps(s, t, WasInterrupted, WHOLE);
      CheckRestoresRule(Wake(s, t, WasInterrupted));
    }
  }

  lemma UnparkKeeps(s: State, t: nat)
    requires Inv(s)
    ensures Inv(Unpark(s, t).state)
  {
    hide InvX, Wake, CheckPreemption;
    var k := s.Task(t);
    if t < |s.tasks| && k.st != Dormant {
      if IsParked(k) {
        MayInterrupt(s, t, WaitOk);
        WakeKeeps(s, t, WaitOk, WHOLE);
        CheckRestoresRule(Wake(s, t, WaitOk));
      } else {
        TokenKeeps(s, t, true);
      }
    }
  }

  lemma TokenKeeps(s: State, t: nat, token: bool)
    requires Inv(s) && t < |s.tasks|
    ensures Inv(s.WithTask(t, s.tasks[t].(parkToken := token)))
  {
    hide InvX, HeldOk, ResultFits, EffectivePriority, NoDup;
    InBounds(s, WHOLE, t);
    EditKeeps(s, t, s.tasks[t].(parkToken := token));
  }

  lemma BlockKeepsInv(s: State, queue: Option<nat>, payload: Payload, timed: bool)
    requires Inv(s) && s.running.Some? && MayBlock(s, s.running.value, queue, payload)
    ensures Inv(Block(s, s.running.value, queue, payload, timed))
  {
    BlockKeeps(s, s.running.value, queue, payload, timed);
    hide InvX;
  }

  lemma ParkKeeps(s: State, timed: bool)
    requires Inv(s)
    ensures Inv(ParkCurrent(s, timed).state) && Inv(SleepCurrent(s).state)
  {
    hide InvX, Block;
    if Waitable(s) {
      if s.Task(s.running.value).parkToken {
        TokenKeeps(s, s.running.value, false);
      } else {
        BlockKeepsInv(s, None, Park, timed);
      }
      BlockKeepsInv(s, None, Sleep, true);
    }
  }

  lemma ResumeKeeps(s: State)
    requires Inv(s)
    ensures Inv(Resume(s).state)
  {
    hide HeldOk, ResultFits, EffectivePriority, NoDup;
    if s.running.Some? && s.Task(s.running.value).st == Running && s.Task(s.running.value).call.Inside? {
      var t := s.running.value;
      InBounds(s, WHOLE, t);
      hide InvX;
      EditKeeps(s, t, s.tasks[t].(call := NoCall, timer := false));
    }
  }

  lemma ExpireKeeps(s: State, t: nat)
    requires Inv(s)
    ensures Inv(Expire(s, t).state)
  {
    hide HeldOk, ResultFits, EffectivePriority, NoDup, Wake, CheckPreemption;
    if s.Task(t).timer {
      InBounds(s, WHOLE, t);
      hide InvX;
      var s1 := s.WithTask(t, s.tasks[t].(timer := false));
      EditKeeps(s, t, s.tasks[t].(timer := false));
      if s.tasks[t].st == Waiting {
        MayInterrupt(s1, t, TimedOut);
        WakeKeeps(s1, t, TimedOut, WHOLE);
        CheckRestoresRule(Wake(s1, t, TimedOut));
      } else {
        CheckRestoresRule(s1);
      }
    }
  }

  lemma BoostKeeps(s: State)
    requires Inv(s)
    ensures Inv(Boost(s).state) && Inv(Unboost(s).state)
  {
    hide Tasks, Queues, Levels, Mutexes, Sems, Groups, CheckPreemption;
    OnlyRunning(s, WHOLE);
    if Waitable(s) { FlagsKeep(s, s.running, true, s.pending, WHOLE); }
    if InTask(s) && s.boost {
      FlagsKeep(s, s.running, false, s.pending, WHOLE);
      CheckRestoresRule(s.(boost := false));
    }
  }
}
