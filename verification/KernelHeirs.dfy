/** Who gets a mutex that is let go: what `unlock` and the exit of a task do to the
    mutexes, to the tasks waiting for them, and to nobody else. */
module KernelHeirs {
  import opened Wrappers
  import opened Lists
  import opened KernelState
  import opened KernelInv
  import opened KernelLocal
  import opened KernelSteps
  import opened KernelDispatch
  import opened KernelMutexes
  import opened KernelOps
  import opened KernelReady

  /** The next owner of a mutex that is let go: the first waiter, if there is one. */
  function NextOwner(s: State, m: nat): (t: Option<nat>) {
    if s.Queue(m) == [] then None else Some(s.Queue(m)[0])
  }

  function Rest(w: seq<nat>): (r: seq<nat>) {
    if w == [] then [] else w[1..]
  }

  /** The first waiter once it has the mutex: its lock has succeeded, the mutex is its
      latest, and it is raised to the ceiling. */
  function Inherits(s: State, m: nat): (k: Task)
    requires s.Queue(m) != []
  {
    var k, c := s.Task(s.Queue(m)[0]), At(s.cfg.ceilings, m, None);
    k.(st := Ready, wait := None, result := WaitOk, held := [m] + k.held,
       eff := if c.Some? && c.value < k.eff then c.value else k.eff)
  }

  /** The next owners of these mutexes, in order. */
  function Heirs(s: State, held: seq<nat>): (h: seq<nat>)
    decreases |held|
  {
    if held == [] then [] else (if s.Queue(held[0]) == [] then [] else [s.Queue(held[0])[0]]) + Heirs(s, held[1..])
  }

  ghost predicate HandedOn(s: State, s': State, m: nat, inconsistent: bool) {
    && s'.Mutex(m) == MutexCb(NextOwner(s, m), inconsistent) && s'.Queue(m) == Rest(s.Queue(m))
    && (s.Queue(m) != [] ==> s'.Task(s.Queue(m)[0]) == Inherits(s, m))
  }

  ghost predicate SameObjects(s: State, s': State, n: nat) {
    s'.Mutex(n) == s.Mutex(n) && s'.Queue(n) == s.Queue(n)
  }

  /** The fields of `s'` besides tasks, mutexes, wait queues and ready lists are those of
      `s`. */
  ghost predicate SameRest(s: State, s': State) {
    && |s'.tasks| == |s.tasks| && |s'.mutexes| == |s.mutexes| && |s'.queues| == |s.queues|
    && s' == s.(tasks := s'.tasks, mutexes := s'.mutexes, queues := s'.queues, ready := s'.ready)
  }

  /** Each of these mutexes has been handed on, marked inconsistent, to its first waiter;
      its other waiters keep their places; the new owners are ready, in this order; and
      no other task, mutex or queue has changed. */
  ghost predicate AllHandedOn(s: State, s': State, held: seq<nat>) {
    && SameRest(s, s') && Gains(s, s', Heirs(s, held))
    && (forall m :: m in held ==> HandedOn(s, s', m, true))
    && (forall n: nat :: n !in held ==> SameObjects(s, s', n))
    && (forall u: nat :: u !in Heirs(s, held) ==> s'.Task(u) == s.Task(u))
  }

  lemma {:induction false} HeirsAreFirst(s: State, held: seq<nat>, u: nat)
    requires u in Heirs(s, held)
    ensures exists m :: m in held && s.Queue(m) != [] && s.Queue(m)[0] == u
    decreases |held|
  {
    if s.Queue(held[0]) != [] && s.Queue(held[0])[0] == u {
      assert held[0] in held;
    } else {
      HeirsAreFirst(s, held[1..], u);
      var m :| m in held[1..] && s.Queue(m) != [] && s.Queue(m)[0] == u;
      assert m in held;
    }
  }

  lemma {:induction false} NoHeir(s: State, held: seq<nat>, u: nat)
    requires forall m :: m in held && s.Queue(m) != [] ==> s.Queue(m)[0] != u
    ensures u !in Heirs(s, held)
    decreases |held|
  {
    if held != [] {
      assert held[0] in held && forall m :: m in held[1..] ==> m in held;
      NoHeir(s, held[1..], u);
    }
  }

  lemma {:induction false} SameHeirs(s: State, s': State, held: seq<nat>)
    requires forall m :: m in held ==> s'.Queue(m) == s.Queue(m)
    ensures Heirs(s', held) == Heirs(s, held)
    decreases |held|
  {
    if held != [] {
      assert held[0] in held && forall m :: m in held[1..] ==> m in held;
      SameHeirs(s, s', held[1..]);
    }
  }

  lemma NobodyHandedOn(s: State)
    ensures AllHandedOn(s, s, [])
  {
    GainsNobody(s, s);
  }

  /** No task is first in two queues. */
  ghost predicate OneQueueEach(s: State, held: seq<nat>) {
    forall m, n :: m in held && n in held && m != n && s.Queue(m) != [] && s.Queue(n) != [] ==>
      s.Queue(m)[0] != s.Queue(n)[0]
  }

  /** Handing on one mutex and then the others. */
  lemma HandOnMore(s: State, s1: State, s': State, held: seq<nat>)
    requires held != [] && held[0] !in held[1..] && OneQueueEach(s, held)
    requires AllHandedOn(s, s1, [held[0]]) && AllHandedOn(s1, s', held[1..])
    ensures AllHandedOn(s, s', held)
  {
    hide Gains, SameRest, Rest, State.Task, State.Mutex, State.Queue;
    var m, rest := held[0], held[1..];
    assert forall n :: n in held <==> n == m || n in rest;
    assert forall n :: n in rest ==> n !in [m];
    SameHeirs(s, s1, rest);
    assert Heirs(s, held) == Heirs(s, [m]) + Heirs(s, rest) by { assert [m][1..] == []; }
    FirstHeirStays(s, s1, s', held);
    GainsTrans(s, s1, s', Heirs(s, [m]), Heirs(s, rest));
    SameRestTrans(s, s1, s');
    forall n | n in held ensures HandedOn(s, s', n, true) {
      if n == m { MoreLeavesFirst(s, s1, s', held); } else { MoreHandsOn(s, s1, s', held, n); }
    }
    forall n: nat | n !in held ensures SameObjects(s, s', n) { assert n !in [m] && n !in rest; }
    forall u: nat | u !in Heirs(s, held) ensures s'.Task(u) == s.Task(u) {
      assert u !in Heirs(s, [m]) && u !in Heirs(s, rest);
    }
  }

  lemma SameRestTrans(s: State, s1: State, s': State)
    requires SameRest(s, s1) && SameRest(s1, s')
    ensures SameRest(s, s')
  {
  }

  lemma FirstHeirStays(s: State, s1: State, s': State, held: seq<nat>)
    requires held != [] && held[0] !in held[1..] && OneQueueEach(s, held)
    requires AllHandedOn(s, s1, [held[0]]) && AllHandedOn(s1, s', held[1..])
    ensures forall u :: u in Heirs(s, [held[0]]) ==> s'.Task(u) == s1.Task(u)
  {
    hide Gains, SameRest, Rest, State.Task, State.Mutex, State.Queue, Inherits;
    forall u | u in Heirs(s, [held[0]])
      ensures s'.Task(u) == s1.Task(u)
    {
      HeirsAreFirst(s, [held[0]], u);
      forall n | n in held[1..] && s1.Queue(n) != []
        ensures s1.Queue(n)[0] != u
      {
        assert n !in [held[0]] && SameObjects(s, s1, n) && n in held && held[0] in held;
      }
      NoHeir(s1, held[1..], u);
    }
  }

  lemma MoreLeavesFirst(s: State, s1: State, s': State, held: seq<nat>)
    requires held != [] && held[0] !in held[1..] && OneQueueEach(s, held)
    requires AllHandedOn(s, s1, [held[0]]) && AllHandedOn(s1, s', held[1..])
    ensures HandedOn(s, s', held[0], true)
  {
    hide Gains, SameRest, Rest, State.Task, State.Mutex, State.Queue, Inherits;
    var m := held[0];
    FirstHeirStays(s, s1, s', held);
    assert m in [m] && SameObjects(s1, s', m);
    assert s.Queue(m) != [] ==> s.Queue(m)[0] in Heirs(s, [m]);
  }

  lemma MoreHandsOn(s: State, s1: State, s': State, held: seq<nat>, n: nat)
    requires held != [] && held[0] !in held[1..] && OneQueueEach(s, held) && n in held[1..]
    requires AllHandedOn(s, s1, [held[0]]) && AllHandedOn(s1, s', held[1..])
    ensures HandedOn(s, s', n, true)
  {
    hide Gains, Rest, State.Task, State.Mutex, State.Queue;
    var m := held[0];
    assert n !in [m] && SameObjects(s, s1, n) && n in held && m in held;
    if s.Queue(n) != [] {
      var u := s.Queue(n)[0];
      if u in Heirs(s, [m]) { HeirsAreFirst(s, [m], u); }
      assert s1.Task(u) == s.Task(u);
    }
  }

  // ----- one mutex -----

  lemma HandOffHandsOn(s: State, m: nat, h: Hole)
    requires InvX(s, h) && Orphaned(s, m)
    ensures HandsOnOne(s, HandOff(s, m), m, s.Mutex(m).inconsistent)
  {
    hide HandOff, InvX, Orphaned, Gains, HandsOnOne;
    HandOffIs(s, m, h);
    OrphanInRange(s, m);
    var s' := HandOff(s, m);
    if s.Queue(m) == [] {
      GainsNobody(s, s');
      FreedIs(s, s', m);
    } else {
      GainsOne(s, s', s.Queue(m)[0]);
      InheritedIs(s, s', m);
    }
  }

  /** Mutex `m` alone has been handed on. */
  ghost predicate HandsOnOne(s: State, s': State, m: nat, inconsistent: bool) {
    && SameRest(s, s') && Gains(s, s', Heirs(s, [m])) && HandedOn(s, s', m, inconsistent)
    && (forall n: nat :: n != m ==> SameObjects(s, s', n))
    && (forall u: nat :: u !in Heirs(s, [m]) ==> s'.Task(u) == s.Task(u))
  }

  lemma OneHeir(s: State, m: nat)
    ensures Heirs(s, [m]) == if s.Queue(m) == [] then [] else [s.Queue(m)[0]]
  {
    assert [m][1..] == [];
  }

  lemma FreedIs(s: State, s': State, m: nat)
    requires m < |s.mutexes| && s.Queue(m) == [] && Gains(s, s', [])
    requires s' == s.(mutexes := s.mutexes[m := s.mutexes[m].(owner := None)])
    ensures HandsOnOne(s, s', m, s.Mutex(m).inconsistent)
  {
    hide Gains, Heirs;
    OneHeir(s, m);
  }

  lemma InheritedIs(s: State, s': State, m: nat)
    requires m < |s.mutexes| && m < |s.queues| && s.queues[m] != [] && s.queues[m][0] < |s.tasks|
    requires Gains(s, s', [s.queues[m][0]])
    requires var t := s.queues[m][0];
             var k := s.Task(t);
             s' == s.(mutexes := s.mutexes[m := s.mutexes[m].(owner := Some(t))],
                      tasks := s.tasks[t := k.(st := Ready, wait := None, result := WaitOk, held := [m] + k.held,
                                               eff := Lower(k.eff, s.cfg.Ceiling(m)))],
                      queues := s.queues[m := s.queues[m][1..]], ready := s'.ready)
    requires |s'.ready| == |s.ready|
    ensures HandsOnOne(s, s', m, s.Mutex(m).inconsistent)
  {
    hide Gains, Heirs;
    OneHeir(s, m);
  }

  lemma GainsOne(s: State, s': State, t: nat)
    requires s'.Task(t).eff < |s.ready|
    requires s'.ready == s.ready[s'.Task(t).eff := s.ready[s'.Task(t).eff] + [t]]
    ensures Gains(s, s', [t])
  {
    assert [t][1..] == [];
  }

  // ----- unlock -----

  /** `unlock` succeeds if and only if the caller's latest lock was of this mutex; then the
      mutex goes to the first waiter, the caller is left with its other mutexes and the
      priority that goes with them, and nothing else changes but the request for a
      dispatch. An older lock is refused, and so is a mutex of somebody else. */
  lemma UnlockHandsOn(s: State, m: nat)
    requires Inv(s) && Waitable(s) && m < |s.mutexes|
    ensures var t := s.running.value;
            var k := s.Task(t);
            var o := Unlock(s, m);
            && (o.reply == Done <==> k.held != [] && k.held[0] == m)
            && (o.reply == NotOwner <==> m !in k.held)
            && (o.reply == BadObjectState <==> k.held != [] && k.held[0] != m && m in k.held)
            && (o.reply != Done ==> o.state == s)
            && (o.reply == Done ==> Unlocked(s, o.state, m, t))
  {
    hide Unlocked, HandOff, CheckPreemption, EffectivePriority;
    var t := s.running.value;
    var k := s.tasks[t];
    HeldExactlyOwned(s, t, m);
    hide InvX, Inv;
    if k.held != [] && k.held[0] == m {
      WholeInvX(s);
      UnlockEffect(s, m);
    }
  }

  lemma WholeInvX(s: State)
    requires Inv(s)
    ensures InvX(s, WHOLE)
  {
  }

  ghost predicate Unlocked(s: State, s': State, m: nat, t: nat) {
    var k := s.Task(t);
    && k.held != []
    && SameRest(s.(pending := s'.pending), s') && Gains(s, s', Heirs(s, [m]))
    && HandedOn(s, s', m, s.Mutex(m).inconsistent)
    && s'.Task(t) == k.(held := k.held[1..], eff := EffectivePriority(s.cfg, k.base, k.held[1..]))
    && (forall n: nat :: n != m ==> SameObjects(s, s', n))
    && (forall u: nat :: u != t && u !in Heirs(s, [m]) ==> s'.Task(u) == s.Task(u))
  }

  lemma UnlockEffect(s: State, m: nat)
    requires InvX(s, WHOLE) && Waitable(s) && m < |s.mutexes| && s.Task(s.running.value).held != []
    requires s.Task(s.running.value).held[0] == m
    ensures var t := s.running.value;
            var k := s.Task(t);
            var k' := k.(held := k.held[1..], eff := EffectivePriority(s.cfg, k.base, k.held[1..]));
            Unlocked(s, CheckPreemption(HandOff(s.WithTask(t, k'), m)), m, t)
  {
    hide InvX, HandOff, CheckPreemption, EffectivePriority, Orphaned, HandsOnOne, Unlocked;
    var t := s.running.value;
    var k := s.Task(t);
    var k' := k.(held := k.held[1..], eff := EffectivePriority(s.cfg, k.base, k.held[1..]));
    var s1 := s.WithTask(t, k');
    ReleaseKeeps(s, m, t);
    HandOffHandsOn(s1, m, Hole([m], None, None));
    CheckOnlyAsks(HandOff(s1, m));
    NotFirst(s, m, t);
    UnlockedFrom(s, HandOff(s1, m), CheckPreemption(HandOff(s1, m)).pending, m, t, k');
  }

  lemma UnlockedFrom(s: State, s2: State, pending: bool, m: nat, t: nat, k': Task)
    requires t < |s.tasks| && s.tasks[t].held != [] && (s.Queue(m) != [] ==> s.Queue(m)[0] != t)
    requires var k := s.tasks[t]; k' == k.(held := k.held[1..], eff := EffectivePriority(s.cfg, k.base, k.held[1..]))
    requires HandsOnOne(s.WithTask(t, k'), s2, m, s.Mutex(m).inconsistent)
    ensures Unlocked(s, s2.(pending := pending), m, t)
  {
    hide EffectivePriority, Gains, Heirs, Inherits;
    var s1 := s.WithTask(t, k');
    ReleaseSwap(s, t, k', m);
    GainsSame(s, s1, s2, s2.(pending := pending), Heirs(s, [m]));
    forall n: nat | n != m ensures SameObjects(s, s2.(pending := pending), n) { assert SameObjects(s1, s2, n); }
  }

  lemma GainsSame(s: State, s1: State, s2: State, s': State, who: seq<nat>)
    requires Gains(s1, s2, who) && s1.ready == s.ready && s'.ready == s2.ready && s'.tasks == s2.tasks
    ensures Gains(s, s', who)
  {
    forall p: nat ensures AtLevel(s', who, p) == AtLevel(s2, who, p) { SameAtLevel(s2, s', who, p); }
    hide AtLevel;
  }

  lemma NotFirst(s: State, m: nat, t: nat)
    requires InvX(s, WHOLE) && m < |s.mutexes| && t < |s.tasks| && s.tasks[t].st == Running
    ensures s.Queue(m) != [] ==> s.Queue(m)[0] != t
  {
    if s.Queue(m) != [] {
      var u := s.Queue(m)[0];
      assert QueueOk(s, m) && u in s.Queue(m);
      InBounds(s, WHOLE, u);
    }
  }

  lemma ReleaseSwap(s: State, t: nat, k': Task, m: nat)
    requires t < |s.tasks| && (s.Queue(m) != [] ==> s.Queue(m)[0] != t)
    ensures var s1 := s.WithTask(t, k');
            && Heirs(s1, [m]) == Heirs(s, [m]) && t !in Heirs(s, [m])
            && (s.Queue(m) != [] ==> Inherits(s1, m) == Inherits(s, m))
  {
    assert [m][1..] == [];
  }

  // ----- exit -----

  lemma WaitersDiffer(s: State, h: Hole, held: seq<nat>)
    requires InvX(s, h) && AllOrphaned(s, held)
    ensures OneQueueEach(s, held)
  {
    hide Tasks, Levels, Mutexes, Sems, Groups, Runs;
    forall m, n | m in held && n in held && m != n && s.Queue(m) != [] && s.Queue(n) != []
      ensures s.Queue(m)[0] != s.Queue(n)[0]
    {
      assert QueueOk(s, m) && QueueOk(s, n) && s.Queue(m)[0] in s.Queue(m) && s.Queue(n)[0] in s.Queue(n);
    }
  }

  /** Each abandoned mutex is marked inconsistent and handed on exactly once. */
  lemma {:induction false} AbandonHandsOn(s: State, held: seq<nat>, t: nat, h: Hole)
    requires InvX(s, h) && h.orphans == held && AllOrphaned(s, held) && t < |s.tasks| && s.tasks[t].st == Running
    ensures AllHandedOn(s, AbandonAll(s, held), held)
    decreases |held|
  {
    hide InvX, AllOrphaned, HandOff, NoDup, Orphaned, AllHandedOn;
    if held == [] {
      NobodyHandedOn(s);
    } else {
      var m := held[0];
      FirstIsOrphaned(s, held);
      var s1 := s.WithMutex(m, s.Mutex(m).(inconsistent := true));
      OrphanInRange(s, m);
      WaitersDiffer(s, h, held);
      MarkKeeps(s, m, true, h);
      MarkLeavesOthers(s, held, true);
      FirstIsOrphaned(s1, held);
      HandOffKeeps(s1, m, h);
      HandOffLeavesOthers(s1, held, h, t);
      DistinctHead(s, held);
      MarkedHandsOn(s, m, h);
      AbandonHandsOn(HandOff(s1, m), held[1..], t, h.(orphans := held[1..]));
      HandOnMore(s, HandOff(s1, m), AbandonAll(s, held), held);
    }
  }

  lemma MarkedHandsOn(s: State, m: nat, h: Hole)
    requires m < |s.mutexes|
    requires var s1 := s.WithMutex(m, s.Mutex(m).(inconsistent := true)); InvX(s1, h) && Orphaned(s1, m)
    ensures AllHandedOn(s, HandOff(s.WithMutex(m, s.Mutex(m).(inconsistent := true)), m), [m])
  {
    hide InvX, Orphaned, HandOff, HandsOnOne, AllHandedOn;
    var s1 := s.WithMutex(m, s.Mutex(m).(inconsistent := true));
    HandOffHandsOn(s1, m, h);
    MarkedFrom(s, HandOff(s1, m), m);
  }

  lemma MarkedFrom(s: State, s': State, m: nat)
    requires m < |s.mutexes|
    requires HandsOnOne(s.WithMutex(m, s.Mutex(m).(inconsistent := true)), s', m, true)
    ensures AllHandedOn(s, s', [m])
  {
    hide Gains, Rest;
    var s1 := s.WithMutex(m, s.Mutex(m).(inconsistent := true));
    assert Heirs(s1, [m]) == Heirs(s, [m]) by { assert [m][1..] == []; }
    GainsSame(s, s1, s', s', Heirs(s, [m]));
    hide Heirs;
    forall n: nat | n !in [m] ensures SameObjects(s, s', n) { assert SameObjects(s1, s', n); }
  }

  lemma DistinctHead(s: State, held: seq<nat>)
    requires AllOrphaned(s, held) && held != []
    ensures forall m :: m in held <==> m == held[0] || m in held[1..]
    ensures held[0] !in held[1..]
  {
    TailFacts(held);
  }

  /** A task that exits is dormant, holds nothing, and gives up boost and the processor;
      exactly the mutexes it owned are handed on, the latest first, and nothing else
      changes. */
  lemma ExitHandsOn(s: State)
    requires Inv(s) && InTask(s)
    ensures var t := s.running.value;
            var held := s.Task(t).held;
            var s' := Exit(s).state;
            && Exit(s).reply == Done
            && (forall m :: 0 <= m < |s.mutexes| ==> (m in held <==> s.mutexes[m].owner == Some(t)))
            && AllHandedOn(Exited(s, t), s', held)
  {
    hide Tasks, Queues, Levels, Mutexes, Sems, Groups, AbandonAll, AllOrphaned, TaskOk, AllHandedOn;
    var t := s.running.value;
    var held := s.tasks[t].held;
    OnlyRunning(s, WHOLE);
    FlagsKeep(s, s.running, false, s.pending, WHOLE);
    var s0 := s.(boost := false);
    DetachKeeps(s0, t);
    var s1 := s0.WithTask(t, s.tasks[t].(held := []));
    AbandonKeeps(s1, held, t, Hole(held, Some(t), None));
    AbandonHandsOn(s1, held, t, Hole(held, Some(t), None));
    forall m | 0 <= m < |s.mutexes| ensures m in held <==> s.mutexes[m].owner == Some(t) {
      HeldExactlyOwned(s, t, m);
    }
    RunningIsNoHeir(s1, held, t, Hole(held, Some(t), None));
    hide InvX;
    RetireAfter(s1, AbandonAll(s1, held), held, t);
    assert Exited(s, t) == Retired(s1, t);
  }

  /** The state with the task gone, before its mutexes are handed on. */
  ghost function Exited(s: State, t: nat): (s': State)
    requires t < |s.tasks|
  {
    s.(tasks := s.tasks[t := s.tasks[t].(st := Dormant, held := [])], boost := false, running := None, pending := true)
  }

  ghost function Retired(s: State, t: nat): (s': State) {
    s.WithTask(t, s.Task(t).(st := Dormant)).(running := None, pending := true)
  }

  lemma RunningIsNoHeir(s: State, held: seq<nat>, t: nat, h: Hole)
    requires InvX(s, h) && AllOrphaned(s, held) && t < |s.tasks| && s.tasks[t].st == Running
    ensures t !in Heirs(s, held)
  {
    hide Levels, Mutexes, Sems, Groups, Runs;
    forall m | m in held && s.Queue(m) != []
      ensures s.Queue(m)[0] != t
    {
      assert QueueOk(s, m) && s.Queue(m)[0] in s.Queue(m);
      InBounds(s, h, s.Queue(m)[0]);
    }
    NoHeir(s, held, t);
  }

  /** Handing mutexes on does not see the task that has exited. */
  lemma RetireAfter(s: State, s': State, held: seq<nat>, t: nat)
    requires AllHandedOn(s, s', held) && t !in Heirs(s, held) && t < |s.tasks|
    ensures AllHandedOn(Retired(s, t), Retired(s', t), held)
  {
    hide Retired, Gains, SameRest, HandedOn, SameObjects, Heirs;
    var r, r' := Retired(s, t), Retired(s', t);
    RetiredRest(s, s', t);
    RetiredGains(s, s', Heirs(s, held), t);
    SameHeirs(s, r, held);
    forall m | m in held ensures HandedOn(r, r', m, true) {
      if s.Queue(m) != [] { FirstIsHeir(s, held, m); }
      RetiredHandsOn(s, s', m, t);
    }
    forall n: nat | n !in held ensures SameObjects(r, r', n) { RetiredSame(s, s', n, t); }
    SameSize(s, s');
    forall u: nat | u !in Heirs(r, held) ensures r'.Task(u) == r.Task(u) { RetiredTask(s, s', u, t); }
  }

  lemma SameSize(s: State, s': State)
    requires SameRest(s, s')
    ensures |s'.tasks| == |s.tasks|
  {
  }

  lemma RetiredRest(s: State, s': State, t: nat)
    requires SameRest(s, s')
    ensures SameRest(Retired(s, t), Retired(s', t))
    ensures forall m: nat :: Retired(s, t).Queue(m) == s.Queue(m)
  {
  }

  lemma RetiredGains(s: State, s': State, who: seq<nat>, t: nat)
    requires Gains(s, s', who)
    ensures Gains(Retired(s, t), Retired(s', t), who)
  {
    forall p: nat ensures AtLevel(Retired(s', t), who, p) == AtLevel(s', who, p) {
      SameAtLevel(s', Retired(s', t), who, p);
    }
    hide AtLevel;
  }

  lemma RetiredHandsOn(s: State, s': State, m: nat, t: nat)
    requires HandedOn(s, s', m, true) && (s.Queue(m) != [] ==> s.Queue(m)[0] != t)
    ensures HandedOn(Retired(s, t), Retired(s', t), m, true)
  {
  }

  lemma RetiredSame(s: State, s': State, n: nat, t: nat)
    requires SameObjects(s, s', n)
    ensures SameObjects(Retired(s, t), Retired(s', t), n)
  {
  }

  lemma RetiredTask(s: State, s': State, u: nat, t: nat)
    requires s'.Task(u) == s.Task(u) && s'.Task(t) == s.Task(t) && |s'.tasks| == |s.tasks|
    ensures Retired(s', t).Task(u) == Retired(s, t).Task(u)
  {
  }

  lemma {:induction false} FirstIsHeir(s: State, held: seq<nat>, m: nat)
    requires m in held && s.Queue(m) != []
    ensures s.Queue(m)[0] in Heirs(s, held)
    decreases |held|
  {
    if m != held[0] { FirstIsHeir(s, held[1..], m); }
  }
}
