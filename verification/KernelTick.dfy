/** The wake-ups of one `handle_tick`: the timeouts of several tasks expire in one CPU
    Lock section, which checks for preemption once, at its end. */
module KernelTick {
  import opened KernelState
  import opened Lists
  import opened KernelInv
  import opened KernelLocal
  import opened KernelSteps
  import opened KernelDispatch
  import opened KernelTasks
  import opened KernelOps
  import opened KernelRun

  /** `interrupt_task_by_timeout`, without a preemption check. */
  function ExpireOne(s: State, t: nat): (s': State) {
    if !s.Task(t).timer then s
    else
      var s1 := s.WithTask(t, s.Task(t).(timer := false));
      if s.Task(t).st == Waiting then Wake(s1, t, TimedOut) else s1
  }

  function ExpireEach(s: State, ts: seq<nat>): (s': State)
    decreases |ts|
  {
    if ts == [] then s else ExpireEach(ExpireOne(s, ts[0]), ts[1..])
  }

  /** The part of `handle_tick` that concerns tasks: the expiries, in the order in which
      the timeouts fire, and the preemption check. */
  function ExpireAll(s: State, ts: seq<nat>): (s': State) {
    CheckPreemption(ExpireEach(s, ts))
  }

  /** The same expiries as sections of their own. */
  function Expiries(ts: seq<nat>): (ops: seq<Op>)
    decreases |ts|
  {
    if ts == [] then [] else [OExpire(ts[0])] + Expiries(ts[1..])
  }

  /** A ready task above the running one stays so while timeouts expire. */
  ghost predicate Preempts(s: State) {
    var next := FirstReady(s.ready);
    !s.boost && next < |s.ready| && (CurrentPriority(s).None? || next < CurrentPriority(s).value)
  }

  lemma CheckIs(s: State)
    ensures CheckPreemption(s) == s.(pending := s.pending || Preempts(s))
  {
  }

  /** Occupied levels stay occupied, so the first of them can only move up. */
  lemma FirstReadyMovesUp(a: seq<seq<nat>>, b: seq<seq<nat>>)
    requires |a| == |b| && forall p :: 0 <= p < |a| && a[p] != [] ==> b[p] != []
    ensures FirstReady(b) <= FirstReady(a)
  {
    var p := FirstReady(a);
    assert p < |a| ==> b[p] != [];
  }

  lemma ExpireOneKeepsPreempts(s: State, t: nat)
    requires Preempts(s)
    ensures Preempts(ExpireOne(s, t))
  {
    var s' := ExpireOne(s, t);
    assert CurrentPriority(s').Some? ==> CurrentPriority(s') == CurrentPriority(s) by { ExpireLeavesRunning(s, t); }
    assert |s'.ready| == |s.ready| && forall p :: 0 <= p < |s.ready| && s.ready[p] != [] ==> s'.ready[p] != [];
    hide ExpireOne, FirstReady;
    FirstReadyMovesUp(s.ready, s'.ready);
    FirstReadyIsFirst(s');
    ExpireLeavesFlags(s, t);
    PreemptsFromLevels(s, s');
  }

  lemma PreemptsFromLevels(s: State, s': State)
    requires Preempts(s) && s'.boost == s.boost && |s'.ready| == |s.ready|
    requires FirstReady(s'.ready) <= FirstReady(s.ready)
    requires CurrentPriority(s').Some? ==> CurrentPriority(s') == CurrentPriority(s)
    ensures Preempts(s')
  {
  }

  lemma ExpireLeavesFlags(s: State, t: nat)
    ensures var s' := ExpireOne(s, t); s'.boost == s.boost && s'.pending == s.pending && s'.running == s.running
  {
  }

  lemma ExpireLeavesRunning(s: State, t: nat)
    ensures CurrentPriority(ExpireOne(s, t)).Some? ==> CurrentPriority(ExpireOne(s, t)) == CurrentPriority(s)
  {
  }

  lemma {:induction false} ExpireEachKeepsPreempts(s: State, ts: seq<nat>)
    requires Preempts(s)
    ensures Preempts(ExpireEach(s, ts))
    decreases |ts|
  {
    hide Preempts, ExpireOne;
    if ts != [] {
      ExpireOneKeepsPreempts(s, ts[0]);
      ExpireEachKeepsPreempts(ExpireOne(s, ts[0]), ts[1..]);
    }
  }

  lemma ExpireOneIgnoresPending(s: State, t: nat, b: bool)
    ensures ExpireOne(s.(pending := b), t) == ExpireOne(s, t).(pending := b)
  {
    hide Wake;
    WakeIgnoresPending(s.WithTask(t, s.Task(t).(timer := false)), t, b);
  }

  lemma WakeIgnoresPending(s: State, t: nat, b: bool)
    ensures Wake(s.(pending := b), t, TimedOut) == Wake(s, t, TimedOut).(pending := b)
  {
    hide Without;
  }

  /** The request for a dispatch plays no part in the expiries. */
  lemma {:induction false} ExpireEachIgnoresPending(s: State, ts: seq<nat>, b: bool)
    ensures ExpireEach(s.(pending := b), ts) == ExpireEach(s, ts).(pending := b)
    decreases |ts|
  {
    hide ExpireOne;
    if ts != [] {
      ExpireOneIgnoresPending(s, ts[0], b);
      ExpireEachIgnoresPending(ExpireOne(s, ts[0]), ts[1..], b);
    }
  }

  /** Under the dispatch rule the check has nothing to ask for. */
  lemma NothingToAsk(s: State)
    requires Inv(s)
    ensures CheckPreemption(s) == s
  {
    hide InvX;
    RunningIsReal(s);
    FirstReadyIsFirst(s);
    hide FirstReady;
  }

  lemma RunningIsReal(s: State)
    requires InvX(s, WHOLE)
    ensures s.running.Some? && s.Task(s.running.value).st != Running ==> s.pending
  {
  }

  /** An expiry keeps the structural invariant. */
  lemma ExpireOneKeeps(s: State, t: nat)
    requires InvX(s, WHOLE) && t < |s.tasks|
    ensures InvX(ExpireOne(s, t), WHOLE) && |ExpireOne(s, t).tasks| == |s.tasks|
  {
    hide HeldOk, ResultFits, EffectivePriority, NoDup, Wake;
    if s.Task(t).timer {
      InBounds(s, WHOLE, t);
      hide InvX;
      var s1 := s.WithTask(t, s.tasks[t].(timer := false));
      UpdateKeeps(s, t, s.tasks[t].(timer := false), WHOLE, WHOLE);
      WakeKeepsSize(s1, t);
      if s.tasks[t].st == Waiting {
        MayInterrupt(s1, t, TimedOut);
        WakeKeeps(s1, t, TimedOut, WHOLE);
      }
    }
  }

  lemma WakeKeepsSize(s: State, t: nat)
    ensures |Wake(s, t, TimedOut).tasks| == |s.tasks|
  {
  }

  lemma OneSection(s: State, t: nat)
    requires Inv(s)
    ensures Apply(s, OExpire(t)).state == CheckPreemption(ExpireOne(s, t))
  {
    hide Inv, CheckPreemption, Wake;
    if !s.Task(t).timer { NothingToAsk(s); }
  }

  /** Checking for preemption once, after all expiries, is the same as checking after
      each: no preemption is lost or requested needlessly. */
  lemma {:induction false} OneCheckIsEnough(s: State, ts: seq<nat>)
    requires Inv(s)
    ensures Inv(ExpireAll(s, ts)) && ExpireAll(s, ts) == Run(s, Expiries(ts))
    decreases |ts|
  {
    hide Inv, Apply, ExpireOne, Preempts, CheckPreemption;
    if ts == [] {
      NothingToAsk(s);
    } else {
      var s1 := ExpireOne(s, ts[0]);
      ApplyKeeps(s, OExpire(ts[0]));
      OneSection(s, ts[0]);
      OneCheckIsEnough(CheckPreemption(s1), ts[1..]);
      CheckBetween(s1, ts[1..]);
      assert Expiries(ts)[1..] == Expiries(ts[1..]);
    }
  }

  lemma CheckBetween(s: State, ts: seq<nat>)
    ensures ExpireAll(CheckPreemption(s), ts) == ExpireAll(s, ts)
  {
    hide Preempts, CheckPreemption, ExpireEach;
    CheckIs(s);
    CheckIs(ExpireEach(s, ts));
    CheckIs(ExpireEach(CheckPreemption(s), ts));
    ExpireEachIgnoresPending(s, ts, s.pending || Preempts(s));
    ExpireEachKeepsPending(s, ts);
    if Preempts(s) { ExpireEachKeepsPreempts(s, ts); }
    PreemptsIgnoresPending(ExpireEach(s, ts), s.pending || Preempts(s));
  }

  lemma PreemptsIgnoresPending(s: State, b: bool)
    ensures Preempts(s.(pending := b)) == Preempts(s)
  {
  }

  lemma {:induction false} ExpireEachKeepsPending(s: State, ts: seq<nat>)
    ensures ExpireEach(s, ts).pending == s.pending
    decreases |ts|
  {
    hide ExpireOne;
    if ts != [] {
      ExpireLeavesFlags(s, ts[0]);
      ExpireEachKeepsPending(ExpireOne(s, ts[0]), ts[1..]);
    }
  }
}
