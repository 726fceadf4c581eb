/** What the system calls promise their callers, in every state where the invariant
    holds. */
module KernelEffects {
  import opened Words
  import opened Wrappers
  import opened Lists
  import opened KernelState
  import opened KernelBits
  import opened KernelInv
  import opened KernelLocal
  import opened KernelSteps
  import opened KernelDispatch
  import opened KernelObjects
  import opened KernelOps

  // ----- scheduling -----

  predicate Runnable(k: Task) {
    k.st == Ready || k.st == Running
  }

  /** The dispatcher runs a task of the highest priority, and stays idle only if no
      task can run. */
  lemma DispatchRunsHighest(s: State)
    requires InvX(s, WHOLE) && !s.boost
    ensures var s' := ChooseNext(s);
            && !s'.pending
            && (forall t :: 0 <= t < |s'.tasks| && Runnable(s'.tasks[t]) ==>
                  s'.running.Some? && s'.Task(s'.running.value).st == Running
                    && s'.Task(s'.running.value).eff <= s'.tasks[t].eff)
  {
    ChooseKeeps(s);
    var s' := ChooseNext(s);
    assert !s'.pending && !s'.boost by { ChooseClears(s); }
    hide ChooseNext;
    OnlyRunning(s', WHOLE);
    forall t | 0 <= t < |s'.tasks| && Runnable(s'.tasks[t])
      ensures s'.running.Some? && s'.Task(s'.running.value).st == Running
      ensures s'.Task(s'.running.value).eff <= s'.tasks[t].eff
    {
      InBounds(s', WHOLE, t);
      if s'.tasks[t].st == Ready { ReadyExactlyOnce(s', t, s'.tasks[t].eff); }
    }
  }

  lemma ChooseClears(s: State)
    ensures !ChooseNext(s).pending && ChooseNext(s).boost == s.boost
  {
  }

  /** `t` replaces `u`: it was the first task of its level, which is above that of `u`,
      and `u` goes to the back of its own level; nothing else changes. */
  ghost predicate TakesOver(s: State, s': State, u: nat, t: nat) {
    var p, r := s.Task(t).eff, s.Task(u).eff;
    && p < r < |s.ready| && s.ready[p] != [] && s.ready[p][0] == t
    && t < |s.tasks| && u < |s.tasks| && t != u
    && s' == s.(pending := false, running := Some(t),
                ready := s.ready[p := s.ready[p][1..]][r := s.ready[r] + [u]],
                tasks := s.tasks[t := s.tasks[t].(st := Running)][u := s.tasks[u].(st := Ready)])
  }

  /** The running task is preempted if and only if a task of strictly higher priority
      is ready; then the first one of the highest level takes over, and the preempted
      task goes to the back of its own level. */
  lemma DispatchPreempts(s: State, u: nat)
    requires InvX(s, WHOLE) && !s.boost && s.running == Some(u) && u < |s.tasks| && s.tasks[u].st == Running
    ensures var s' := ChooseNext(s);
            && (s'.running == Some(u) <==>
                 forall t :: 0 <= t < |s.tasks| && s.tasks[t].st == Ready ==> s.tasks[u].eff <= s.tasks[t].eff)
            && (s'.running == Some(u) ==> s' == s.(pending := false))
            && (s'.running != Some(u) ==> s'.running.Some? && TakesOver(s, s', u, s'.running.value))
  {
    hide Tasks, Queues, Levels, Mutexes, Sems, Groups, TaskOk, UpToDate, Preempt, Dispatch, FirstReady, TakesOver;
    var p := FirstReady(s.ready);
    InBounds(s, WHOLE, u);
    FirstReadyIsFirst(s);
    if p < |s.ready| && p < s.tasks[u].eff {
      ReadyExactlyOnce(s, s.ready[p][0], p);
      FirstTakesOver(s, u, p);
    } else {
      forall t | 0 <= t < |s.tasks| && s.tasks[t].st == Ready
        ensures s.tasks[u].eff <= s.tasks[t].eff
      {
        InBounds(s, WHOLE, t);
        ReadyExactlyOnce(s, t, s.tasks[t].eff);
      }
    }
  }

  lemma FirstTakesOver(s: State, u: nat, p: nat)
    requires InvX(s, WHOLE) && !s.boost && s.running == Some(u) && u < |s.tasks| && s.tasks[u].st == Running
    requires p == FirstReady(s.ready) < |s.ready| && p < s.tasks[u].eff
    ensures TakesOver(s, ChooseNext(s), u, s.ready[p][0]) && ChooseNext(s).running == Some(s.ready[p][0])
    ensures s.ready[p][0] != u
  {
    hide TaskOk;
    InBounds(s, WHOLE, u);
    ReadyExactlyOnce(s, s.ready[p][0], p);
    ChooseIsPreemptThenDispatch(s);
    MakeReadyIs(s.(pending := false), u);
    hide InvX, ChooseNext, FirstReady;
  }

  /** The preemption check asks for a dispatch if and only if it would change the
      running task, and does nothing else. */
  lemma CheckAsksWhenNeeded(s: State)
    requires InvX(s, WHOLE) && !s.pending && !s.boost && s.running.Some? && s.Task(s.running.value).st == Running
    ensures CheckPreemption(s) == s.(pending := ChooseNext(s).running != s.running)
  {
    DispatchPreempts(s, s.running.value);
    var p := FirstReady(s.ready);
    FirstReadyIsFirst(s);
    var u := s.running.value;
    InBounds(s, WHOLE, u);
    if p < |s.ready| && p < s.tasks[u].eff {
      ReadyExactlyOnce(s, s.ready[p][0], p);
    }
  }

  // ----- semaphores -----

  /** Exactly the tasks of `woken` have been woken. */
  ghost predicate AllWoken(s: State, s': State, woken: seq<nat>) {
    && (forall j :: 0 <= j < |woken| ==>
         s'.Task(woken[j]) == s.Task(woken[j]).(st := Ready, wait := None, result := WaitOk))
    && (forall t :: t !in woken ==> s'.Task(t) == s.Task(t))
  }

  lemma WokenCons(s: State, s1: State, s': State, t: nat, rest: seq<nat>)
    requires t !in rest && AllWoken(s1, s', rest)
    requires s1.Task(t) == s.Task(t).(st := Ready, wait := None, result := WaitOk)
    requires forall u :: u != t ==> s1.Task(u) == s.Task(u)
    ensures AllWoken(s, s', [t] + rest)
  {
    hide State.Task;
    var woken := [t] + rest;
    forall j | 0 <= j < |woken|
      ensures s'.Task(woken[j]) == s.Task(woken[j]).(st := Ready, wait := None, result := WaitOk)
    {
      if j > 0 { assert woken[j] == rest[j - 1]; }
    }
    forall u | u !in woken
      ensures s'.Task(u) == s.Task(u)
    {
      assert u != t && u !in rest;
    }
  }

  lemma NobodyWoken(s: State, s': State)
    requires s'.tasks == s.tasks
    ensures AllWoken(s, s', [])
  {
  }

  /** `signal` gives one permit to each of the first waiters, in queue order, and
      deposits the rest: no permit is lost or made. */
  lemma {:induction false} GrantWakesFirst(s: State, i: nat, value: nat, count: nat)
    requires InvX(s, WHOLE) && i < |s.values| && s.Value(i) == value && value + count <= At(s.cfg.maxValues, i, 0)
    ensures var s' := Grant(s, i, value, count);
            var w := s.Queue(s.cfg.SemQueue(i));
            var n := Min(count, |w|);
            s'.Queue(s.cfg.SemQueue(i)) == w[n..] && s'.Value(i) + n == value + count && AllWoken(s, s', w[..n])
    decreases count
  {
    hide InvX, Wake, MayWake, AllWoken, NoDup;
    var w := s.Queue(s.cfg.SemQueue(i));
    if count > 0 && w != [] {
      FirstWaiterMayTake(s, i);
      WakeFirstIs(s, i);
      WakeKeeps(s, w[0], WaitOk, WHOLE);
      WakeLeavesValues(s, w[0], WaitOk);
      var s1 := Wake(s, w[0], WaitOk);
      GrantWakesFirst(s1, i, value, count - 1);
      var n := Min(count, |w|);
      TailFacts(w);
      assert w[1..][n - 1..] == w[n..] && w[..n] == [w[0]] + w[1..][..n - 1];
      assert w[0] !in w[1..] && forall x :: x in w[1..][..n - 1] ==> x in w[1..];
      WokenCons(s, s1, Grant(s, i, value, count), w[0], w[1..][..n - 1]);
    } else {
      NobodyWoken(s, Grant(s, i, value, count));
      assert w[..0] == [] && w[0..] == w;
    }
  }

  lemma WakeFirstIs(s: State, i: nat)
    requires InvX(s, WHOLE) && i < |s.values| && s.Queue(s.cfg.SemQueue(i)) != []
    ensures var w := s.Queue(s.cfg.SemQueue(i));
            var s1 := Wake(s, w[0], WaitOk);
            && s1.Queue(s.cfg.SemQueue(i)) == w[1..] && s1.cfg == s.cfg
            && s1.Task(w[0]) == s.Task(w[0]).(st := Ready, wait := None, result := WaitOk)
            && (forall t :: t != w[0] ==> s1.Task(t) == s.Task(t))
            && NoDup(w)
  {
    var w := s.Queue(s.cfg.SemQueue(i));
    FirstWaiterMayTake(s, i);
    assert QueueOk(s, s.cfg.SemQueue(i));
    InBounds(s, WHOLE, w[0]);
    hide InvX, Without, MayWake;
    WakeIs(s, w[0], WaitOk);
    WithoutFirst(w);
  }

  /** The simple form: deposit the permits, then let each waiter in turn poll. */
  function Poll(s: State, i: nat, waiters: seq<nat>): (s': State)
    decreases |waiters|
  {
    if waiters == [] || s.Value(i) == 0 then s
    else Poll(Wake(s.WithValue(i, s.Value(i) - 1), waiters[0], WaitOk), i, waiters[1..])
  }

  /** The loop of `signal` is the simple form. */
  lemma {:induction false} GrantRefinesPolling(s: State, i: nat, value: nat, count: nat)
    requires InvX(s, WHOLE) && i < |s.values| && s.Value(i) == value && value + count <= At(s.cfg.maxValues, i, 0)
    ensures Grant(s, i, value, count) == Poll(s.WithValue(i, value + count), i, s.Queue(s.cfg.SemQueue(i)))
    decreases count
  {
    hide InvX, Wake, MayWake;
    var w := s.Queue(s.cfg.SemQueue(i));
    if count == 0 {
      assert s.WithValue(i, value) == s;
      if w != [] { FirstWaiterMayTake(s, i); }
    } else if w != [] {
      FirstWaiterMayTake(s, i);
      WakeFirstIs(s, i);
      WakeKeeps(s, w[0], WaitOk, WHOLE);
      WakeLeavesValues(s, w[0], WaitOk);
      var s1 := Wake(s, w[0], WaitOk);
      GrantRefinesPolling(s1, i, value, count - 1);
      WakeCommutes(s, i, value + count - 1, w[0]);
    }
  }

  lemma WakeCommutes(s: State, i: nat, v: nat, t: nat)
    ensures Wake(s, t, WaitOk).WithValue(i, v) == Wake(s.WithValue(i, v), t, WaitOk)
    ensures forall u: nat :: i < |s.values| ==>
            s.WithValue(i, u).WithValue(i, v) == s.WithValue(i, v) && s.WithValue(i, u).Value(i) == u
  {
  }

  // ----- event groups -----

  /** What a pass over waiters with the given conditions does: which of them are
      served, the bits each of those sees, and the bits left over. */
  datatype Service = Service(seen: seq<Option<bv32>>, left: bv32)

  function Serve(conditions: seq<Payload>, bits: bv32): (r: Service)
    ensures |r.seen| == |conditions|
  {
    if conditions == [] then Service([], bits)
    else if Satisfied(bits, conditions[0]) then
      var rest := Serve(conditions[1..], Consume(bits, conditions[0]));
      Service([Some(bits)] + rest.seen, rest.left)
    else
      var rest := Serve(conditions[1..], bits);
      Service([None] + rest.seen, rest.left)
  }

  /** What the waiters wait for. */
  function Conditions(s: State, waiters: seq<nat>): (c: seq<Payload>)
    ensures |c| == |waiters|
  {
    if waiters == [] then [] else
      var wait := s.Task(waiters[0]).wait;
      [if wait.Some? then wait.value.payload else Park] + Conditions(s, waiters[1..])
  }

  lemma {:induction false} SameConditions(s: State, s': State, waiters: seq<nat>)
    requires forall t :: t in waiters ==> s'.Task(t) == s.Task(t)
    ensures Conditions(s', waiters) == Conditions(s, waiters)
  {
    if waiters != [] {
      assert waiters[0] in waiters;
      assert forall t :: t in waiters[1..] ==> t in waiters;
      SameConditions(s, s', waiters[1..]);
    }
  }

  /** The waiters are served as `seen` says; nobody else changes. */
  ghost predicate ServedAll(s: State, s': State, waiters: seq<nat>, seen: seq<Option<bv32>>) {
    && |seen| == |waiters|
    && (forall j :: 0 <= j < |waiters| ==> s'.Task(waiters[j]) == Served(s.Task(waiters[j]), seen[j]))
    && (forall t :: t !in waiters ==> s'.Task(t) == s.Task(t))
  }

  lemma ServedCons(s: State, s1: State, s': State, waiters: seq<nat>, first: Option<bv32>, rest: seq<Option<bv32>>)
    requires waiters != [] && waiters[0] !in waiters[1..]
    requires s1.Task(waiters[0]) == Served(s.Task(waiters[0]), first)
    requires forall t :: t != waiters[0] ==> s1.Task(t) == s.Task(t)
    requires ServedAll(s1, s', waiters[1..], rest)
    ensures ServedAll(s, s', waiters, [first] + rest)
  {
    hide Served, State.Task;
    forall j | 0 <= j < |waiters|
      ensures s'.Task(waiters[j]) == Served(s.Task(waiters[j]), ([first] + rest)[j])
    {
      if j > 0 { assert waiters[j] == waiters[1..][j - 1] && ([first] + rest)[j] == rest[j - 1]; }
    }
    forall t | t !in waiters
      ensures s'.Task(t) == s.Task(t)
    {
      assert t != waiters[0] && t !in waiters[1..];
    }
  }

  /** The pass of `set` serves the waiters in queue order, each with the bits that
      those before it left. */
  lemma {:induction false} PassServes(s: State, g: nat, waiters: seq<nat>, bits: bv32, woke: bool)
    requires InvX(s, Hole([], None, Some(g))) && Visiting(s, g, waiters)
    ensures var r := Pass(s, waiters, bits, woke);
            var v := Serve(Conditions(s, waiters), bits);
            r.bits == v.left && ServedAll(s, r.state, waiters, v.seen)
    decreases |waiters|
  {
    hide InvX, Satisfied, Consume, WakeWithBits, NoDup, ServedAll;
    if waiters == [] {
      assert ServedAll(s, s, [], []) by { NobodyServed(s); }
    } else {
      var t := waiters[0];
      TailFacts(waiters);
      PassStart(s, g);
      var payload := s.Task(t).wait.value.payload;
      assert Conditions(s, waiters)[1..] == Conditions(s, waiters[1..]);
      var wakes := Satisfied(bits, payload);
      var s1 := if wakes then WakeWithBits(s, t, bits) else s;
      if wakes {
        WakeWithBitsKeeps(s, g, t, bits);
        WakeWithBitsIs(s, g, t, bits);
        WokenTask(s, g, t, bits);
      }
      SameConditions(s, s1, waiters[1..]);
      var left := if wakes then Consume(bits, payload) else bits;
      PassServes(s1, g, waiters[1..], left, woke || wakes);
      ServedCons(s, s1, Pass(s, waiters, bits, woke).state, waiters,
        if wakes then Some(bits) else None, Serve(Conditions(s1, waiters[1..]), left).seen);
    }
  }

  lemma NobodyServed(s: State)
    ensures ServedAll(s, s, [], [])
  {
  }

  lemma WokenTask(s: State, g: nat, t: nat, bits: bv32)
    requires InvX(s, Hole([], None, Some(g))) && g < |s.bits| && t in s.Queue(s.cfg.GroupQueue(g))
    ensures WakeWithBits(s, t, bits).Task(t)
         == s.Task(t).(st := Ready, wait := None, result := WaitOk, origBits := bits)
  {
    VisitedMayWake(s, g, t);
    InBounds(s, Hole([], None, Some(g)), t);
    hide InvX, Without;
    WakeIs(s.WithTask(t, s.tasks[t].(origBits := bits)), t, WaitOk);
  }

  /** The waiters of the group have been served in queue order with `bits` to begin with,
      and what they leave is stored. */
  ghost predicate ServedWith(s: State, s': State, g: nat, bits: bv32) {
    var w := s.Queue(s.cfg.GroupQueue(g));
    var v := Serve(Conditions(s, w), bits);
    s'.Bits(g) == v.left && ServedAll(s, s', w, v.seen)
  }

  /** `set` serves the waiters with the bits of the group and the added bits together,
      including when it returns early because no bit changes: then nobody would be
      served. */
  lemma SetServesWaiters(s: State, g: nat, added: bv32)
    requires Inv(s) && g < |s.bits|
    ensures ServedWith(s, SetBits(s, g, added).state, g, s.bits[g] | added)
  {
    hide *;
    SetServesJoined(s, g, added);
    JoinedIsOr(s.bits[g], added);
  }

  lemma SetServesJoined(s: State, g: nat, added: bv32)
    requires Inv(s) && g < |s.bits|
    ensures ServedWith(s, SetBits(s, g, added).state, g, Joined(s.bits[g], added))
  {
    hide InvX, Satisfied, Consume, Pass, NoDup, Joined, Serve, Conditions, CheckPreemption;
    var w := s.Queue(s.cfg.GroupQueue(g));
    var bits := Joined(s.bits[g], added);
    if bits == s.bits[g] {
      WaitersUnsatisfied(s, g);
      ServeNobody(Conditions(s, w), bits);
    } else {
      OpenGroup(s, g);
      PassKeeps(s, g, w, bits, false);
      PassServes(s, g, w, bits, false);
      var r := Pass(s, w, bits, false);
      CheckOnlyAsks(r.state.WithBits(g, r.bits));
    }
  }

  /** A waiter after the pass: woken with the bits it saw, or as before. */
  function Served(k: Task, seen: Option<bv32>): (k': Task) {
    if seen.Some? then k.(st := Ready, wait := None, result := WaitOk, origBits := seen.value) else k
  }

  lemma WaitersUnsatisfied(s: State, g: nat)
    requires InvX(s, WHOLE) && g < |s.bits|
    ensures forall c :: c in Conditions(s, s.Queue(s.cfg.GroupQueue(g))) ==> !Satisfied(s.bits[g], c)
  {
    hide Tasks, Queues, Levels, Mutexes, Sems, Runs, Satisfied;
    assert GroupOk(s, g);
    ConditionsAre(s, s.Queue(s.cfg.GroupQueue(g)));
  }

  lemma {:induction false} ConditionsAre(s: State, waiters: seq<nat>)
    ensures forall c :: c in Conditions(s, waiters) ==>
              exists t ::
                  t in waiters && (if s.Task(t).wait.Some? then c == s.Task(t).wait.value.payload else c == Park)
  {
    if waiters != [] {
      ConditionsAre(s, waiters[1..]);
      forall c | c in Conditions(s, waiters)
        ensures exists t ::
                  t in waiters && (if s.Task(t).wait.Some? then c == s.Task(t).wait.value.payload else c == Park)
      {
        if c in Conditions(s, waiters[1..]) {
          var t :| t in waiters[1..] && (if s.Task(t).wait.Some? then c == s.Task(t).wait.value.payload else c == Park);
          assert t in waiters;
        } else {
          assert waiters[0] in waiters;
        }
      }
    }
  }

  lemma {:induction false} ServeNobody(conditions: seq<Payload>, bits: bv32)
    requires forall c :: c in conditions ==> !Satisfied(bits, c)
    ensures Serve(conditions, bits).left == bits
    ensures forall j :: 0 <= j < |conditions| ==> Serve(conditions, bits).seen[j] == None
  {
    hide Satisfied;
    if conditions != [] {
      assert conditions[0] in conditions;
      ServeNobody(conditions[1..], bits);
    }
  }
}
