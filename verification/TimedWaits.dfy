/** The kernel and its event clock together: blocking calls with a time limit register a
    timeout, and `handle_tick` ends the waits whose time has come. */
module TimedWaits {
  import opened Wrappers
  import opened TimeoutTime
  import opened TimeoutSpec
  import opened Expiry
  import Runs = TimeoutRuns
  import opened KernelState
  import opened KernelInv
  import opened KernelLocal
  import Ops = KernelOps
  import Kernel = KernelRun
  import opened KernelFlags
  import opened KernelTick

  /** The timeouts below `timers` belong to the timers, the others to the tasks. */
  datatype Whole = Whole(kernel: State, watch: Runs.Watch)

  ghost predicate Coupled(timers: nat, x: Whole) {
    && (forall t :: 0 <= t < |x.kernel.tasks| ==> (x.kernel.tasks[t].timer <==> timers + t in x.watch.clock.deadlines))
    && (forall id :: id in x.watch.clock.deadlines ==> id < timers + |x.kernel.tasks|)
  }

  datatype Step =
    | Call(op: Kernel.Op, duration: nat)
    | Clock(event: Runs.Event)
    | Tick(periods: Periods, log: seq<Fired>, after: map<nat, int>, spent: nat)

  /** `Call` is any CPU Lock section of the kernel but an expiry; `duration` is its time
      limit, if it has one. `Clock` is the passing of time and whatever concerns the
      timers. `Tick` is a `handle_tick`. */
  ghost predicate Enabled(p: Port, timers: nat, x: Whole, step: Step) {
    match step
    case Call(op, duration) => !op.OExpire? && duration <= DURATION_MAX
    case Clock(e) =>
      Runs.Enabled(p, x.watch, e) && !e.ETick? && (e.EInsert? || e.ERemove? ==> e.id < timers)
    case Tick(periods, log, after, spent) =>
      Runs.Enabled(p, x.watch, Runs.ETick(periods, log, after, spent)) && (forall id :: id in periods ==> id < timers)
  }

  /** The timeout of a call: linked before the caller blocks, unlinked, if it still is
      linked, when the call returns (`setup_timeout_wait`, `TimeoutGuard`). */
  ghost function WatchCall(p: Port, timers: nat, x: Whole, op: Kernel.Op, duration: nat): (w: Runs.Watch) {
    var o := Kernel.Apply(x.kernel, op);
    if x.kernel.running.None? then x.watch
    else if op.OResume? && o.reply != Ops.BadContext then Runs.Removed(p, x.watch, timers + x.kernel.running.value)
    else if o.reply == Ops.Blocks && IsTimed(op)
      then Runs.Inserted(p, x.watch, timers + x.kernel.running.value, duration)
    else x.watch
  }

  /** The tasks whose timeouts fire, in order. */
  ghost function TasksIn(timers: nat, log: seq<Fired>): (ts: seq<nat>)
    decreases |log|
  {
    if log == [] then []
    else (if log[0].id >= timers then [log[0].id - timers] else []) + TasksIn(timers, log[1..])
  }

  ghost function Take(p: Port, timers: nat, x: Whole, step: Step): (x': Whole)
    requires Enabled(p, timers, x, step)
  {
    match step
    case Call(op, duration) => Whole(Kernel.Apply(x.kernel, op).state, WatchCall(p, timers, x, op, duration))
    case Clock(e) => Whole(x.kernel, Runs.Take(p, x.watch, e))
    case Tick(periods, log, after, spent) =>
      Whole(ExpireAll(x.kernel, TasksIn(timers, log)), Runs.Take(p, x.watch, Runs.ETick(periods, log, after, spent)))
  }

  // ----- what a tick does -----

  /** A task whose timeout expires: its wait, if it is still waiting, ends. */
  function Expired(k: Task): (k': Task) {
    if !k.timer then k
    else if k.st == Waiting then k.(timer := false, st := Ready, wait := None, result := TimedOut)
    else k.(timer := false)
  }

  lemma ExpireOneIs(s: State, t: nat)
    requires t < |s.tasks|
    ensures ExpireOne(s, t).Task(t) == Expired(s.tasks[t]) && |ExpireOne(s, t).tasks| == |s.tasks|
    ensures forall u :: u != t ==> ExpireOne(s, t).Task(u) == s.Task(u)
  {
  }

  ghost predicate AllExist(s: State, ts: seq<nat>) {
    forall t :: t in ts ==> t < |s.tasks|
  }

  /** However often a timeout is named, it expires once. */
  lemma {:induction false} ExpireEachIs(s: State, ts: seq<nat>)
    requires AllExist(s, ts)
    ensures |ExpireEach(s, ts).tasks| == |s.tasks|
    ensures forall t :: 0 <= t < |s.tasks| ==>
              ExpireEach(s, ts).Task(t) == if t in ts then Expired(s.tasks[t]) else s.tasks[t]
    decreases |ts|
  {
    hide ExpireOne, Expired;
    if ts != [] {
      assert ts[0] in ts && forall t :: t in ts[1..] ==> t in ts;
      ExpireOneIs(s, ts[0]);
      var s1 := ExpireOne(s, ts[0]);
      ExpireEachIs(s1, ts[1..]);
      ExpiredOnce(s.tasks[ts[0]]);
      forall t | 0 <= t < |s.tasks|
        ensures ExpireEach(s, ts).Task(t) == if t in ts then Expired(s.tasks[t]) else s.tasks[t]
      {
        assert t in ts <==> t == ts[0] || t in ts[1..];
        assert s1.Task(t) == s1.tasks[t];
      }
    }
  }

  lemma ExpiredOnce(k: Task)
    ensures Expired(Expired(k)) == Expired(k)
  {
  }

  /** A task is named exactly if its timeout has fired. */
  lemma {:induction false} TasksInAre(timers: nat, log: seq<Fired>, t: nat)
    ensures t in TasksIn(timers, log) <==> Count(log, timers + t) > 0
    decreases |log|
  {
    if log != [] { TasksInAre(timers, log[1..], t); }
  }

  /** A linked task timeout fires in a completed tick if and only if its time has come. */
  lemma TaskFiresIff(timers: nat, dl: map<nat, int>, periods: Periods, now: int, log: seq<Fired>,
      after: map<nat, int>, t: nat)
    requires Fires(dl, periods, now, log, after) && Quiescent(after, now) && timers + t !in periods
    ensures t in TasksIn(timers, log) <==> timers + t in dl && dl[timers + t] <= now
    ensures timers + t in after <==> timers + t in dl && t !in TasksIn(timers, log)
  {
    TasksInAre(timers, log, t);
    FiresAtPeriods(dl, periods, now, log, after, timers + t);
    if timers + t in dl { FiresExactlyWhenDue(dl, periods, now, log, after, timers + t); }
  }

  /** The wait of task `t` has a time limit that has come. */
  ghost predicate TimeHasCome(timers: nat, x: Whole, t: nat) {
    timers + t in x.watch.clock.deadlines && x.watch.clock.deadlines[timers + t] <= x.watch.clock.time
  }

  /** A `handle_tick` does to the tasks exactly this: a task still waiting in a timed call
      whose arrival time has been reached is made ready with the result `TimedOut`; a
      task that has been woken meanwhile only loses its timeout; nothing else changes. */
  lemma TickEndsDueWaits(p: Port, timers: nat, x: Whole, step: Step, t: nat)
    requires Coupled(timers, x) && step.Tick? && Enabled(p, timers, x, step) && t < |x.kernel.tasks|
    ensures var x' := Take(p, timers, x, step);
            var k := x.kernel.tasks[t];
            && |x'.kernel.tasks| == |x.kernel.tasks|
            && x'.kernel.tasks[t] ==
                 (if !TimeHasCome(timers, x, t) then k
                  else if k.st == Waiting then k.(timer := false, st := Ready, wait := None, result := TimedOut)
                  else k.(timer := false))
            && (timers + t in x'.watch.clock.deadlines <==>
                 timers + t in x.watch.clock.deadlines && !TimeHasCome(timers, x, t))
  {
    var c := x.watch.clock;
    var ts := TasksIn(timers, step.log);
    FiredAreTasks(p, timers, x, step);
    ExpireEachIs(x.kernel, ts);
    TaskFiresIff(timers, c.deadlines, step.periods, c.time, step.log, step.after, t);
    CheckLeavesTasks(ExpireEach(x.kernel, ts));
    hide Fires, Quiescent, ExpireEach, Ops.CheckPreemption;
  }

  lemma CheckLeavesTasks(s: State)
    ensures Ops.CheckPreemption(s).tasks == s.tasks
  {
  }

  /** Only linked timeouts fire, so every task that is named exists. */
  lemma FiredAreTasks(p: Port, timers: nat, x: Whole, step: Step)
    requires Coupled(timers, x) && step.Tick? && Enabled(p, timers, x, step)
    ensures AllExist(x.kernel, TasksIn(timers, step.log))
  {
    var c := x.watch.clock;
    var ts := TasksIn(timers, step.log);
    hide Fires, Quiescent, TasksIn;
    forall t | t in ts
      ensures t < |x.kernel.tasks|
    {
      TaskFiresIff(timers, c.deadlines, step.periods, c.time, step.log, step.after, t);
    }
  }

  // ----- runs -----

  /** Kernel and clock satisfy their invariants, interrupts are punctual, and a task has a
      registered timeout exactly while it is inside a timed call. */
  ghost predicate Good(timers: nat, x: Whole) {
    && KernelInv.Inv(x.kernel) && TimeoutSpec.Inv(x.watch.clock) && Runs.Prompt(x.watch) && Coupled(timers, x)
  }

  /** A timeout is linked no further ahead than the longest duration after the
      frontier. */
  ghost predicate Within(x: Whole, step: Step) {
    step.Clock? ==> Runs.Within(x.watch.clock, step.event)
  }

  /** A timed call that blocks finds its task without a registered timeout. */
  lemma CallerHasNoTimeout(timers: nat, x: Whole, op: Kernel.Op)
    requires Good(timers, x) && Kernel.Apply(x.kernel, op).reply == Ops.Blocks
    ensures x.kernel.running.Some?
    ensures var t := x.kernel.running.value;
            && t < |x.kernel.tasks| && !x.kernel.tasks[t].timer && timers + t !in x.watch.clock.deadlines
  {
    BlocksInTask(x.kernel, op);
    InBounds(x.kernel, WHOLE, x.kernel.running.value);
    hide KernelInv.Inv, TimeoutSpec.Inv, Runs.Prompt, Kernel.Apply;
  }

  /** Only the code of a task blocks. */
  lemma BlocksInTask(s: State, op: Kernel.Op)
    requires Kernel.Apply(s, op).reply == Ops.Blocks
    ensures Ops.InTask(s)
  {
    hide Ops.InTask;
    if PlainOp(op) { PlainOpNeverBlocks(s, op); }
    match op
    case OTryLock(m) => TryLockNeverBlocks(s, m);
    case OUnpark(t) => TokenCallsNeverBlock(s, t);
    case OActivate(t) => TokenCallsNeverBlock(s, t);
    case _ =>
  }

  /** The timeouts of calls keep the clock's invariant. */
  lemma WatchCallKeepsClock(p: Port, timers: nat, x: Whole, op: Kernel.Op, duration: nat)
    requires Good(timers, x) && duration <= DURATION_MAX
    ensures var w := WatchCall(p, timers, x, op, duration); TimeoutSpec.Inv(w.clock) && Runs.Prompt(w)
  {
    hide KernelInv.Inv, Kernel.Apply, Coupled, Runs.Prompt, IsTimed;
    if x.kernel.running.Some? {
      var id := timers + x.kernel.running.value;
      Runs.InsertKeepsPrompt(p, x.watch, id, duration);
      Runs.RemoveKeepsPrompt(p, x.watch, id);
    }
  }

  /** A timed call that blocks links its task's timeout, and no other. */
  lemma BlockKeepsCoupled(p: Port, timers: nat, x: Whole, s': State, t: nat, timed: bool, duration: nat)
    requires Coupled(timers, x) && t < |x.kernel.tasks| && !x.kernel.tasks[t].timer
    requires |s'.tasks| == |x.kernel.tasks| && TimerSet(x.kernel, s', t, timed)
    ensures Coupled(timers, Whole(s', if timed then Runs.Inserted(p, x.watch, timers + t, duration) else x.watch))
  {
    hide PendDelay;
  }

  /** A return unlinks its task's timeout, and no other. */
  lemma ReturnKeepsCoupled(p: Port, timers: nat, x: Whole, s': State, t: nat)
    requires Coupled(timers, x) && t < |x.kernel.tasks|
    requires |s'.tasks| == |x.kernel.tasks| && TimerSet(x.kernel, s', t, false)
    ensures Coupled(timers, Whole(s', Runs.Removed(p, x.watch, timers + t)))
  {
    hide PendDelay;
  }

  lemma SameTimersKeepCoupled(timers: nat, x: Whole, s': State)
    requires Coupled(timers, x) && SameTimers(x.kernel, s')
    ensures Coupled(timers, Whole(s', x.watch))
  {
  }

  /** A call with a time limit that blocks links its task's timeout, to arrive when the
      limit is over; the return from a call unlinks it; no other call touches the linked
      timeouts, and none touches the time. */
  lemma TimedCallRegisters(p: Port, timers: nat, x: Whole, op: Kernel.Op, duration: nat)
    requires KernelInv.Inv(x.kernel) && !op.OExpire? && duration <= DURATION_MAX
    ensures var o := Kernel.Apply(x.kernel, op);
            var c, c' := x.watch.clock, Take(p, timers, x, Call(op, duration)).watch.clock;
            && (o.reply == Ops.Blocks ==> x.kernel.running.Some?)
            && (op.OResume? && o.reply != Ops.BadContext ==> x.kernel.running.Some?)
            && c'.deadlines ==
                 (if o.reply == Ops.Blocks && IsTimed(op) then
                    c.deadlines[timers + x.kernel.running.value := c.time + duration]
                  else if op.OResume? && o.reply != Ops.BadContext then
                    c.deadlines - {timers + x.kernel.running.value}
                  else c.deadlines)
            && c'.time == c.time && c'.ticks == c.ticks && c'.mark == c.mark && c'.sys == c.sys
  {
    hide KernelInv.Inv, Kernel.Apply, Ops.Resume, IsTimed, PendDelay, Ops.InTask, Runs.Ask;
    var o := Kernel.Apply(x.kernel, op);
    if o.reply == Ops.Blocks {
      BlocksInTask(x.kernel, op);
      InTaskRuns(x.kernel);
    }
    if op.OResume? {
      ReturnIsResume(x.kernel);
      ResumeRuns(x.kernel);
      if x.kernel.running.Some? { Unlinked(x.watch.clock.deadlines, timers + x.kernel.running.value); }
    }
  }

  lemma InTaskRuns(s: State)
    requires Ops.InTask(s)
    ensures s.running.Some?
  {
  }

  lemma ResumeRuns(s: State)
    ensures Ops.Resume(s).reply != Ops.BadContext ==> s.running.Some? && Ops.Resume(s).reply != Ops.Blocks
  {
  }

  lemma Unlinked(dl: map<nat, int>, id: nat)
    ensures id !in dl ==> dl - {id} == dl
  {
  }

  /** A step of the kernel and the clock together keeps them coupled. */
  lemma CallKeepsCoupled(p: Port, timers: nat, x: Whole, op: Kernel.Op, duration: nat)
    requires Good(timers, x) && !op.OExpire?
    ensures Coupled(timers, Whole(Kernel.Apply(x.kernel, op).state, WatchCall(p, timers, x, op, duration)))
  {
    hide Good, Coupled, Kernel.Apply, WatchCall;
    if op.OResume? {
      ResumeKeepsCoupled(p, timers, x, duration);
      ReturnIsResume(x.kernel);
    } else {
      OtherCallKeepsCoupled(p, timers, x, op, duration);
    }
  }

  lemma ReturnIsResume(s: State)
    ensures Kernel.Apply(s, Kernel.OResume) == Ops.Resume(s)
  {
  }

  lemma OtherCallKeepsCoupled(p: Port, timers: nat, x: Whole, op: Kernel.Op, duration: nat)
    requires Good(timers, x) && !op.OExpire? && !op.OResume?
    ensures Coupled(timers, Whole(Kernel.Apply(x.kernel, op).state, WatchCall(p, timers, x, op, duration)))
  {
    hide KernelInv.Inv, TimeoutSpec.Inv, Runs.Prompt, Coupled, Runs.Inserted, Runs.Removed;
    hide Kernel.Apply, IsTimed, TimerSet, SameTimers;
    var o := Kernel.Apply(x.kernel, op);
    TimersFollowCalls(x.kernel, op);
    if o.reply == Ops.Blocks {
      CallerHasNoTimeout(timers, x, op);
      BlockKeepsCoupled(p, timers, x, o.state, x.kernel.running.value, IsTimed(op), duration);
    } else {
      SameTimersKeepCoupled(timers, x, o.state);
    }
  }

  lemma ResumeKeepsCoupled(p: Port, timers: nat, x: Whole, duration: nat)
    requires Good(timers, x)
    ensures Coupled(timers, Whole(Ops.Resume(x.kernel).state, WatchCall(p, timers, x, Kernel.OResume, duration)))
  {
    hide KernelInv.Inv, TimeoutSpec.Inv, Runs.Prompt, Coupled, Runs.Inserted, Runs.Removed, Ops.Resume;
    ResumeClearsTimer(x.kernel);
    ResumeNeverBlocks(x.kernel);
    RunningExists(x.kernel);
    if Ops.Resume(x.kernel).reply != Ops.BadContext {
      ReturnKeepsCoupled(p, timers, x, Ops.Resume(x.kernel).state, x.kernel.running.value);
    }
  }

  lemma ResumeNeverBlocks(s: State)
    ensures Ops.Resume(s).reply != Ops.Blocks
  {
  }

  lemma RunningExists(s: State)
    requires KernelInv.Inv(s)
    ensures s.running.Some? ==> s.running.value < |s.tasks|
  {
  }

  lemma TickKeepsCoupled(p: Port, timers: nat, x: Whole, step: Step)
    requires Coupled(timers, x) && step.Tick? && Enabled(p, timers, x, step)
    ensures Coupled(timers, Take(p, timers, x, step))
  {
    var x' := Take(p, timers, x, step);
    var c := x.watch.clock;
    FiredAreTasks(p, timers, x, step);
    ExpireEachIs(x.kernel, TasksIn(timers, step.log));
    CheckLeavesTasks(ExpireEach(x.kernel, TasksIn(timers, step.log)));
    assert |x'.kernel.tasks| == |x.kernel.tasks|;
    assert x'.watch.clock.deadlines == step.after;
    forall t | 0 <= t < |x.kernel.tasks|
      ensures x'.kernel.tasks[t].timer <==> timers + t in step.after
    {
      TickEndsDueWaits(p, timers, x, step, t);
    }
    forall id | id in step.after
      ensures id < timers + |x.kernel.tasks|
    {
      FiresAtPeriods(c.deadlines, step.periods, c.time, step.log, step.after, id);
    }
  }

  lemma TakeKeepsGood(p: Port, timers: nat, x: Whole, step: Step)
    requires Good(timers, x) && Enabled(p, timers, x, step) && Within(x, step)
    ensures Good(timers, Take(p, timers, x, step))
  {
    match step
    case Call(op, duration) =>
      hide KernelInv.Inv, TimeoutSpec.Inv, Runs.Prompt, Coupled, WatchCall, Kernel.Apply;
      Kernel.ApplyKeeps(x.kernel, op);
      WatchCallKeepsClock(p, timers, x, op, duration);
      CallKeepsCoupled(p, timers, x, op, duration);
    case Clock(e) =>
      hide KernelInv.Inv, Runs.Prompt, Coupled;
      Runs.TakeKeepsPrompt(p, x.watch, e);
      Runs.TakeKeepsInv(p, x.watch, e);
      ClockKeepsCoupled(p, timers, x, e);
    case Tick(periods, log, after, spent) =>
      hide KernelInv.Inv, TimeoutSpec.Inv, Runs.Prompt, Coupled, ExpireAll;
      var e := Runs.ETick(periods, log, after, spent);
      OneCheckIsEnough(x.kernel, TasksIn(timers, log));
      Runs.TakeKeepsPrompt(p, x.watch, e);
      Runs.TakeKeepsInv(p, x.watch, e);
      TickKeepsCoupled(p, timers, x, step);
  }

  /** What concerns the timers leaves the timeouts of tasks alone. */
  lemma ClockKeepsCoupled(p: Port, timers: nat, x: Whole, e: Runs.Event)
    requires Coupled(timers, x) && Runs.Enabled(p, x.watch, e) && !e.ETick?
    requires (e.EInsert? || e.ERemove? ==> e.id < timers)
    ensures Coupled(timers, Whole(x.kernel, Runs.Take(p, x.watch, e)))
  {
    hide PendDelay;
  }

  ghost predicate RunEnabled(p: Port, timers: nat, x: Whole, steps: seq<Step>)
    decreases |steps|
  {
    steps == []
    || (Enabled(p, timers, x, steps[0]) && Within(x, steps[0])
      && RunEnabled(p, timers, Take(p, timers, x, steps[0]), steps[1..]))
  }

  ghost function Run(p: Port, timers: nat, x: Whole, steps: seq<Step>): (x': Whole)
    requires RunEnabled(p, timers, x, steps)
    decreases |steps|
  {
    if steps == [] then x else Run(p, timers, Take(p, timers, x, steps[0]), steps[1..])
  }

  /** In every reachable state of kernel and clock together both invariants hold, and each
      task has at most one linked timeout, namely while it is inside a timed call whose
      time has not come at a tick. */
  lemma {:induction false} EveryRun(p: Port, timers: nat, x: Whole, steps: seq<Step>)
    requires Good(timers, x) && RunEnabled(p, timers, x, steps)
    ensures Good(timers, Run(p, timers, x, steps))
    decreases |steps|
  {
    hide Good, Enabled, Within;
    if steps != [] {
      TakeKeepsGood(p, timers, x, steps[0]);
      EveryRun(p, timers, Take(p, timers, x, steps[0]), steps[1..]);
    }
  }

  /** Boot, up to the first dispatch and the start of the timers. */
  ghost function Boot(p: Port, cfg: Config, active: seq<nat>, reading: nat): (x: Whole) {
    var due := reading + p.maxTimeout;
    Whole(Ops.Boot(Ops.InitialState(cfg), active),
      Runs.Watch(TimeoutSpec.Clock(0, 0, 0, map[], reading, reading, due), due))
  }

  /** The same from boot, for every configuration and every first reading of the port. */
  lemma EveryReachableStateIsGood(p: Port, cfg: Config, active: seq<nat>, reading: nat, timers: nat, steps: seq<Step>)
    requires cfg.Valid() && RunEnabled(p, timers, Boot(p, cfg, active, reading), steps)
    ensures Good(timers, Run(p, timers, Boot(p, cfg, active, reading), steps))
  {
    BootIsGood(p, cfg, active, reading, timers);
    hide Good, Boot;
    EveryRun(p, timers, Boot(p, cfg, active, reading), steps);
  }

  lemma BootIsGood(p: Port, cfg: Config, active: seq<nat>, reading: nat, timers: nat)
    requires cfg.Valid()
    ensures Good(timers, Boot(p, cfg, active, reading))
  {
    var s := Ops.InitialState(cfg);
    Kernel.EveryReachableStateIsGood(cfg, active, []);
    BootKeepsFlags(s, active);
    Runs.BootIsPrompt(p, reading);
    assert forall t :: 0 <= t < |s.tasks| ==> !s.tasks[t].timer;
    hide KernelInv.Inv, TimeoutSpec.Inv, Runs.Prompt, Ops.Boot, Ops.InitialState;
  }
}
