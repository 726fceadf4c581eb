/** The dispatcher restores, and the preemption check keeps, the dispatch rule. */
module KernelDispatch {
  import opened Wrappers
  import opened Lists
  import opened KernelState
  import opened WaitOrder
  import opened KernelInv
  import opened KernelLocal
  import opened KernelMoves
  import opened KernelSteps
  import opened KernelOps

  /** The dispatcher's own fields may change as long as `Runs` holds and a running
      task stays the running task. */
  lemma FlagsKeep(s: State, running: Option<nat>, boost: bool, pending: bool, h: Hole)
    requires InvX(s, h) && Runs(s.(running := running, boost := boost, pending := pending))
    requires forall t :: 0 <= t < |s.tasks| && s.tasks[t].st == Running ==> running == Some(t)
    ensures InvX(s.(running := running, boost := boost, pending := pending), h)
  {
    hide HeldOk, PrioritiesOk, LifeOk, CallOk, UpToDate, Runs, Satisfied, Sorted, NoDup;
    var s' := s.(running := running, boost := boost, pending := pending);
    forall t | 0 <= t < |s.tasks| ensures TaskOk(s', t, s'.tasks[t]) { assert TaskOk(s, t, s.tasks[t]); }
    hide TaskOk;
    forall q | 0 <= q < |s.queues| ensures QueueOk(s', q) { SameQueue(s, s', q); }
    forall p | 0 <= p < |s.ready| ensures LevelOk(s', p) { SameLevel(s, s', p); }
    forall i | 0 <= i < |s.values| ensures SemOk(s', i) { SameObjects(s, s', i); }
    forall g | 0 <= g < |s.bits| && h.group != Some(g) ensures GroupOk(s', g) { SameObjects(s, s', g); }
    forall m | 0 <= m < |s.mutexes| && m !in h.orphans ensures MutexOk(s', m) { assert MutexOk(s, m); }
  }

  /** Whoever is running is the running task. */
  lemma OnlyRunning(s: State, h: Hole)
    requires InvX(s, h)
    ensures forall t :: 0 <= t < |s.tasks| && s.tasks[t].st == Running ==> s.running == Some(t)
  {
    forall t | 0 <= t < |s.tasks| && s.tasks[t].st == Running
      ensures s.running == Some(t)
    {
      assert TaskOk(s, t, s.tasks[t]);
    }
  }

  /** After the preemption check, the dispatch rule holds, whatever was done before. */
  lemma CheckRestoresRule(s: State)
    requires InvX(s, WHOLE)
    ensures Inv(CheckPreemption(s))
  {
    hide Tasks, Queues, Levels, Mutexes, Sems, Groups, Shape, FirstReady;
    OnlyRunning(s, WHOLE);
    var s' := CheckPreemption(s);
    FlagsKeep(s, s'.running, s'.boost, s'.pending, WHOLE);
    assert NoneReadyBelow(s, FirstReady(s.ready)) by { FirstReadyIsFirst(s); }
    hide InvX;
  }

  lemma FirstReadyIsFirst(s: State)
    ensures NoneReadyBelow(s, FirstReady(s.ready)) && FirstReady(s.ready) <= |s.ready|
    ensures FirstReady(s.ready) < |s.ready| ==> s.ready[FirstReady(s.ready)] != []
  {
  }

  /** It changes nothing but the request for a dispatch. */
  lemma CheckOnlyAsks(s: State)
    ensures CheckPreemption(s) == s.(pending := CheckPreemption(s).pending)
  {
  }

  lemma SameRuns(s: State, s': State)
    requires Runs(s) && s'.tasks == s.tasks && s'.running == s.running && s'.boost == s.boost && s'.pending == s.pending
    ensures Runs(s')
  {
  }

  // ----- the next task -----

  /** The first ready task of level `p` becomes the running task. */
  function Dispatch(s: State, p: nat): (s': State) {
    if p < |s.ready| && s.ready[p] != [] then
      var t := s.ready[p][0];
      s.WithReady(p, s.ready[p][1..]).WithTask(t, s.Task(t).(st := Running)).(running := Some(t))
    else s
  }

  lemma DispatchKeeps(s: State, p: nat)
    requires InvX(s, WHOLE) && s.running == None && !s.boost && p < |s.ready| && s.ready[p] != []
    ensures InvX(Dispatch(s, p), WHOLE)
    ensures var t := s.ready[p][0];
            && t < |s.tasks| && s.tasks[t].st == Ready && s.tasks[t].eff == p
            && Dispatch(s, p) == s.(tasks := s.tasks[t := s.tasks[t].(st := Running)],
                                   ready := s.ready[p := s.ready[p][1..]], running := Some(t))
  {
    var t := s.ready[p][0];
    assert LevelOk(s, p) && t in s.ReadyAt(p);
    var s' := Dispatch(s, p);
    assert s' == s.(tasks := s.tasks[t := s.tasks[t].(st := Running)],
                    ready := s.ready[p := s.ready[p][1..]], running := Some(t));
    DispatchIsLocal(s, p, s');
    hide InvX;
    LocalKeeps(s, s', t, WHOLE);
  }

  lemma DispatchIsLocal(s: State, p: nat, s': State)
    requires InvX(s, WHOLE) && s.running == None && !s.boost && p < |s.ready| && s.ready[p] != []
    requires var t := s.ready[p][0];
             && t < |s.tasks| && s.tasks[t].st == Ready && s.tasks[t].eff == p
             && s' == s.(tasks := s.tasks[t := s.tasks[t].(st := Running)],
                         ready := s.ready[p := s.ready[p][1..]], running := Some(t))
    ensures Local(s, s', s.ready[p][0], WHOLE)
  {
    hide Mutexes, Sems, Groups, HeldOk, QueueOk, ResultFits, NoDup, QueuesMoved, LevelsMoved, EffectivePriority;
    var t := s.ready[p][0];
    InBounds(s, WHOLE, t);
    OnlyRunning(s, WHOLE);
    SameQueuesMove(s, s', t, WHOLE);
    DispatchMoves(s, s', t, p);
  }

  lemma DispatchMoves(s: State, s': State, t: nat, p: nat)
    requires InvX(s, WHOLE) && p < |s.ready| && s.ready[p] != [] && s.ready[p][0] == t
    requires s'.ready == s.ready[p := s.ready[p][1..]]
    ensures LevelsMoved(s, s', t)
  {
    hide Tasks, Queues, Mutexes, Sems, Groups, Runs, NoDup;
    forall i | 0 <= i < |s.ready|
      ensures OnlyMember(s.ready[i], s'.ready[i], t) && t !in s'.ready[i]
    {
      assert LevelOk(s, i) && LevelOk(s, p);
      if s.ready[i] != [] { TailFacts(s.ready[i]); }
    }
  }

  /** `choose_next_running_task` after the current task has given up the processor or
      been preempted: preempt, then dispatch. */
  lemma ChooseIsPreemptThenDispatch(s: State)
    requires InvX(s, WHOLE) && !s.boost
    requires FirstReady(s.ready) < |s.ready|
    requires CurrentPriority(s).Some? ==> FirstReady(s.ready) < CurrentPriority(s).value
    ensures var p := FirstReady(s.ready);
            && InvX(Preempt(s), WHOLE) && Preempt(s).running == None && !Preempt(s).boost
            && |Preempt(s).ready| == |s.ready| && (forall i :: 0 <= i <= p ==> Preempt(s).ready[i] == s.ready[i])
            && ChooseNext(s) == Dispatch(Preempt(s), p)
  {
    var p := FirstReady(s.ready);
    var t := s.ready[p][0];
    assert LevelOk(s, p) && t in s.ReadyAt(p);
    OnlyRunning(s, WHOLE);
    if CurrentPriority(s).Some? {
      var u := s.running.value;
      InBounds(s, WHOLE, u);
      FlagsKeep(s, s.running, s.boost, false, WHOLE);
      var s0 := s.(pending := false);
      ReadyKeeps(s0, u, None);
      MakeReadyIs(s0, u);
      hide InvX, MakeReady;
      PreemptCommutes(s, p, t, u);
    } else {
      FlagsKeep(s, None, false, false, WHOLE);
    }
  }

  /** The previous running task, if it can still run, goes back to the ready queue. */
  function Preempt(s: State): (s': State) {
    if CurrentPriority(s).Some? then MakeReady(s.(pending := false), s.running.value).(running := None)
    else s.(pending := false, running := None)
  }

  lemma PreemptCommutes(s: State, p: nat, t: nat, u: nat)
    requires p < |s.ready| && s.ready[p] != [] && s.ready[p][0] == t && FirstReady(s.ready) == p && !s.boost
    requires t < |s.tasks| && u < |s.tasks| && s.running == Some(u) && s.tasks[u].st == Running
    requires s.tasks[t].st == Ready
    requires p < s.tasks[u].eff < |s.ready|
    ensures ChooseNext(s) == Dispatch(Preempt(s), p)
  {
    var c, d := ChooseNext(s), Dispatch(Preempt(s), p);
    assert c.tasks == d.tasks;
    assert c.ready == d.ready;
  }

  /** The dispatcher always establishes the dispatch rule. */
  lemma ChooseKeeps(s: State)
    requires InvX(s, WHOLE)
    ensures Inv(ChooseNext(s))
  {
    hide Preempt, SwitchTo, QueueOk, LevelOk;
    hide Tasks, Queues, Levels, Mutexes, Sems, Groups, Shape, FirstReady, TaskOk, UpToDate;
    var p := FirstReady(s.ready);
    OnlyRunning(s, WHOLE);
    if s.running.Some? { InBounds(s, WHOLE, s.running.value); }
    FirstReadyIsFirst(s);
    if s.boost || (CurrentPriority(s).Some? && CurrentPriority(s).value <= p) {
      FlagsKeep(s, s.running, s.boost, false, WHOLE);
    } else if p < |s.ready| {
      ChooseIsPreemptThenDispatch(s);
      DispatchKeeps(Preempt(s), p);
    } else {
      FlagsKeep(s, None, false, false, WHOLE);
    }
  }
}
