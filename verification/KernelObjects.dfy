/** The semaphore and event group system calls keep the invariant. */
module KernelObjects {
  import opened Wrappers
  import opened Lists
  import opened KernelState
  import opened WaitOrder
  import opened KernelInv
  import opened KernelLocal
  import opened KernelMoves
  import opened KernelSteps
  import opened KernelDispatch
  import opened KernelTasks
  import opened KernelOps

  /** The value of a semaphore and the bits of a group may change as long as they
      stay unavailable to the waiters. */
  lemma ValuesKeep(s: State, values: seq<nat>, bits: seq<bv32>, h: Hole, h': Hole)
    requires InvX(s, h) && |values| == |s.values| && |bits| == |s.bits|
    requires h.orphans == h'.orphans && h.task == h'.task
    requires var s' := s.(values := values, bits := bits);
             && (forall i :: 0 <= i < |values| ==> SemOk(s', i))
             && (forall g :: 0 <= g < |bits| && h'.group != Some(g) ==> GroupOk(s', g))
    ensures InvX(s.(values := values, bits := bits), h')
  {
    hide HeldOk, PrioritiesOk, LifeOk, CallOk, UpToDate, SemOk, GroupOk, Sorted, NoDup, Runs;
    var s' := s.(values := values, bits := bits);
    forall t | 0 <= t < |s.tasks| ensures TaskOk(s', t, s'.tasks[t]) { assert TaskOk(s, t, s.tasks[t]); }
    hide TaskOk;
    forall q | 0 <= q < |s.queues| ensures QueueOk(s', q) { SameQueue(s, s', q); }
    forall p | 0 <= p < |s.ready| ensures LevelOk(s', p) { SameLevel(s, s', p); }
    forall m | 0 <= m < |s.mutexes| && m !in h.orphans ensures MutexOk(s', m) { assert MutexOk(s, m); }
    assert Runs(s') by { SameRuns(s, s'); }
  }

  // ----- semaphores -----

  lemma ValueKeeps(s: State, i: nat, v: nat)
    requires InvX(s, WHOLE) && i < |s.values| && v <= At(s.cfg.maxValues, i, 0)
    requires v > 0 ==> s.Queue(s.cfg.SemQueue(i)) == []
    ensures InvX(s.WithValue(i, v), WHOLE)
  {
    hide Tasks, Queues, Levels, Mutexes, Runs, Satisfied;
    var s' := s.WithValue(i, v);
    assert forall x: nat :: s'.Task(x) == s.Task(x) && s'.Queue(x) == s.Queue(x) && s'.Bits(x) == s.Bits(x);
    forall j | 0 <= j < |s.values| ensures SemOk(s', j) { assert SemOk(s, j); }
    forall g | 0 <= g < |s.bits| ensures GroupOk(s', g) { assert GroupOk(s, g); }
    hide InvX;
    ValuesKeep(s, s'.values, s'.bits, WHOLE, WHOLE);
  }

  lemma SemaphoreKeeps(s: State, i: nat, timed: bool)
    requires Inv(s)
    ensures Inv(PollOne(s, i).state) && Inv(WaitOne(s, i, timed).state) && Inv(Drain(s, i).state)
  {
    hide Tasks, Queues, Levels, Mutexes, Groups, Runs, Block;
    if i < |s.values| {
      assert SemOk(s, i);
      ValueKeeps(s, i, 0);
      SameRule(s, s.WithValue(i, 0));
      if s.Value(i) > 0 {
        ValueKeeps(s, i, s.Value(i) - 1);
        SameRule(s, s.WithValue(i, s.Value(i) - 1));
      } else if Waitable(s) {
        BlockKeepsInv(s, Some(s.cfg.SemQueue(i)), Semaphore, timed);
      }
    }
  }

  /** The first waiter of a semaphore may be given a permit. */
  lemma FirstWaiterMayTake(s: State, i: nat)
    requires InvX(s, WHOLE) && i < |s.values| && s.Queue(s.cfg.SemQueue(i)) != []
    ensures MayWake(s, s.Queue(s.cfg.SemQueue(i))[0], WaitOk) && s.Value(i) == 0
    ensures s.Task(s.Queue(s.cfg.SemQueue(i))[0]).wait.value.queue == Some(s.cfg.SemQueue(i))
  {
    var t := s.Queue(s.cfg.SemQueue(i))[0];
    assert SemOk(s, i) && QueueOk(s, s.cfg.SemQueue(i));
    assert t in s.Queue(s.cfg.SemQueue(i));
    assert t < |s.tasks| && QueueOf(s.tasks[t]) == Some(s.cfg.SemQueue(i));
    hide QueueOk, Queues, HeldOk, NoDup;
    InBounds(s, WHOLE, t);
  }

  lemma WakeLeavesValues(s: State, t: nat, result: WaitResult)
    ensures var s' := Wake(s, t, result); s'.values == s.values && s'.cfg == s.cfg && s'.bits == s.bits
  {
  }

  lemma {:induction false} GrantKeeps(s: State, i: nat, value: nat, count: nat)
    requires InvX(s, WHOLE) && i < |s.values| && s.Value(i) == value && value + count <= At(s.cfg.maxValues, i, 0)
    ensures InvX(Grant(s, i, value, count), WHOLE)
    decreases count
  {
    hide InvX, Wake, MayWake;
    var w := s.Queue(s.cfg.SemQueue(i));
    if count > 0 {
      if w == [] {
        ValueKeeps(s, i, value + count);
      } else {
        FirstWaiterMayTake(s, i);
        WakeKeeps(s, w[0], WaitOk, WHOLE);
        WakeLeavesValues(s, w[0], WaitOk);
        GrantKeeps(Wake(s, w[0], WaitOk), i, value, count - 1);
      }
    }
  }

  lemma SignalKeeps(s: State, i: nat, count: nat)
    requires Inv(s)
    ensures Inv(Signal(s, i, count).state)
  {
    hide InvX, Wake, CheckPreemption;
    if i < |s.values| && At(s.cfg.maxValues, i, 0) - s.Value(i) >= count {
      GrantKeeps(s, i, s.Value(i), count);
      var s1 := Grant(s, i, s.Value(i), count);
      if count > 0 && s.Queue(s.cfg.SemQueue(i)) != [] {
        CheckRestoresRule(s1);
      } else {
        SameRule(s, s1);
      }
    }
  }

  // ----- event groups -----

  lemma BitsKeep(s: State, g: nat, b: bv32, h: Hole)
    requires InvX(s, h) && g < |s.bits| && h.orphans == [] && h.task == None && (h.group.Some? ==> h.group == Some(g))
    requires GroupOk(s.WithBits(g, b), g)
    ensures InvX(s.WithBits(g, b), WHOLE)
  {
    hide Tasks, Queues, Levels, Mutexes, Runs, Satisfied;
    var s' := s.WithBits(g, b);
    assert forall x: nat :: s'.Task(x) == s.Task(x) && s'.Queue(x) == s.Queue(x) && s'.Value(x) == s.Value(x);
    forall j | 0 <= j < |s.values| ensures SemOk(s', j) { assert SemOk(s, j); }
    forall j | 0 <= j < |s.bits| && j != g ensures GroupOk(s', j) { assert GroupOk(s, j); }
    hide InvX;
    ValuesKeep(s, s'.values, s'.bits, h, WHOLE);
  }

  /** Clearing bits. */
  lemma FewerBitsKeep(s: State, g: nat, b: bv32)
    requires Inv(s) && g < |s.bits| && Within(b, s.bits[g])
    ensures Inv(s.WithBits(g, b))
  {
    hide Tasks, Queues, Levels, Mutexes, Sems, Runs, Satisfied, Within;
    assert GroupOk(s, g);
    var s' := s.WithBits(g, b);
    forall t | t in s'.Queue(s.cfg.GroupQueue(g))
      ensures s'.Task(t).wait.Some? && !Satisfied(b, s'.Task(t).wait.value.payload)
    {
      FewerBitsSatisfyNobody(s.bits[g], b, s.Task(t).wait.value.payload);
    }
    hide InvX;
    BitsKeep(s, g, b, WHOLE);
    SameRule(s, s');
  }

  lemma ConsumeIsWithin(bits: bv32, payload: Payload)
    ensures Within(Consume(bits, payload), bits)
  {
    hide Within, Cleared;
    WithinSelf(bits);
    if payload.EventBits? { ClearedIsWithin(bits, payload.bits); }
  }

  lemma PollBitsKeeps(s: State, g: nat, payload: Payload)
    requires Inv(s)
    ensures Inv(PollBits(s, g, payload).state)
  {
    hide Inv, Consume, Satisfied, Within;
    if g < |s.bits| && payload.EventBits? && Satisfied(s.bits[g], payload) {
      ConsumeIsWithin(s.bits[g], payload);
      FewerBitsKeep(s, g, Consume(s.bits[g], payload));
    }
  }

  lemma WaitBitsKeeps(s: State, g: nat, payload: Payload, timed: bool)
    requires Inv(s)
    ensures Inv(WaitBits(s, g, payload, timed).state)
  {
    hide Tasks, Queues, Levels, Mutexes, Sems, Groups, Runs, Block, Consume, Satisfied, PollBits;
    PollBitsKeeps(s, g, payload);
    if Waitable(s) && g < |s.bits| && payload.EventBits? && !Satisfied(s.bits[g], payload) {
      BlockKeepsInv(s, Some(s.cfg.GroupQueue(g)), payload, timed);
    }
  }

  lemma ClearBitsKeeps(s: State, g: nat, removed: bv32)
    requires Inv(s)
    ensures Inv(ClearBits(s, g, removed).state)
  {
    hide Inv, Within, Cleared;
    if g < |s.bits| {
      ClearedIsWithin(s.bits[g], removed);
      FewerBitsKeep(s, g, Cleared(s.bits[g], removed));
    }
  }

  // ----- the pass of `set` over the waiters -----

  /** `waiters` are still to be visited: they wait for group `g`. */
  ghost predicate Visiting(s: State, g: nat, waiters: seq<nat>) {
    && g < |s.bits| && NoDup(waiters)
    && forall t :: t in waiters ==> t in s.Queue(s.cfg.GroupQueue(g))
  }

  /** A visited waiter that is satisfied may be woken. */
  lemma VisitedMayWake(s: State, g: nat, t: nat)
    requires InvX(s, Hole([], None, Some(g))) && g < |s.bits| && t in s.Queue(s.cfg.GroupQueue(g))
    ensures t < |s.tasks| && s.tasks[t].st == Waiting && s.tasks[t].wait.Some?
    ensures MayWake(s, t, WaitOk) && QueueOf(s.tasks[t]) == Some(s.cfg.GroupQueue(g))
    ensures s.tasks[t].wait.value.payload.EventBits?
  {
    assert QueueOk(s, s.cfg.GroupQueue(g));
    assert t < |s.tasks| && QueueOf(s.tasks[t]) == Some(s.cfg.GroupQueue(g));
    hide QueueOk, Queues, HeldOk, NoDup;
    InBounds(s, Hole([], None, Some(g)), t);
  }

  /** Storing the bits a waiter saw, and waking it. */
  lemma WakeWithBitsKeeps(s: State, g: nat, t: nat, bits: bv32)
    requires InvX(s, Hole([], None, Some(g))) && g < |s.bits| && t in s.Queue(s.cfg.GroupQueue(g))
    ensures InvX(WakeWithBits(s, t, bits), Hole([], None, Some(g)))
  {
    var h := Hole([], None, Some(g));
    VisitedMayWake(s, g, t);
    InBounds(s, h, t);
    var k' := s.tasks[t].(origBits := bits);
    hide InvX, HeldOk, ResultFits, UpToDate, QueueOk, EffectivePriority, Wake;
    assert UpToDate(s.cfg, k') by { SameUpToDate(s.cfg, s.tasks[t], k'); }
    UpdateKeeps(s, t, k', h, h);
    WakeKeeps(s.WithTask(t, k'), t, WaitOk, h);
  }

  /** What is left of the queue after a waiter is woken. */
  lemma WakeWithBitsIs(s: State, g: nat, t: nat, bits: bv32)
    requires InvX(s, Hole([], None, Some(g))) && g < |s.bits| && t in s.Queue(s.cfg.GroupQueue(g))
    ensures var s' := WakeWithBits(s, t, bits);
            var q := s.cfg.GroupQueue(g);
            && s'.cfg == s.cfg && s'.bits == s.bits
            && (forall u :: u in s'.Queue(q) <==> u in s.Queue(q) && u != t)
            && (forall u :: u != t ==> s'.Task(u) == s.Task(u))
            && s'.running == s.running && s'.boost == s.boost && s'.pending == s.pending
  {
    var h := Hole([], None, Some(g));
    VisitedMayWake(s, g, t);
    InBounds(s, h, t);
    var k' := s.tasks[t].(origBits := bits);
    WakeIs(s.WithTask(t, k'), t, WaitOk);
    WithoutFacts(s.Queue(s.cfg.GroupQueue(g)), t);
    hide InvX, TaskOk, UpToDate, QueueOk, Wake, Without, NoDup;
  }

  /** After the pass every waiter it visited is woken or unsatisfied by the bits it
      leaves, although those are cleared as waiters are woken; the others stay. */
  lemma {:induction false} PassKeeps(s: State, g: nat, waiters: seq<nat>, bits: bv32, woke: bool)
    requires InvX(s, Hole([], None, Some(g))) && Visiting(s, g, waiters)
    ensures var r := Pass(s, waiters, bits, woke);
            var q := s.cfg.GroupQueue(g);
            && InvX(r.state, Hole([], None, Some(g))) && r.state.cfg == s.cfg && |r.state.bits| == |s.bits|
            && Within(r.bits, bits)
            && (forall t :: t in r.state.Queue(q) ==>
                 t in s.Queue(q) && r.state.Task(t) == s.Task(t) && s.Task(t).wait.Some?)
            && (forall t :: t in r.state.Queue(q) && t in waiters ==> !Satisfied(r.bits, s.Task(t).wait.value.payload))
            && (!r.woke ==> r.state == s && !woke)
    decreases |waiters|
  {
    hide InvX, Satisfied, Within, Consume, WakeWithBits, NoDup;
    var q := s.cfg.GroupQueue(g);
    PassStart(s, g);
    WithinSelf(bits);
    if waiters != [] {
      var t := waiters[0];
      TailFacts(waiters);
      VisitedMayWake(s, g, t);
      var payload := s.Task(t).wait.value.payload;
      if Satisfied(bits, payload) {
        WakeWithBitsKeeps(s, g, t, bits);
        WakeWithBitsIs(s, g, t, bits);
        var s1 := WakeWithBits(s, t, bits);
        PassKeeps(s1, g, waiters[1..], Consume(bits, payload), true);
        ConsumeIsWithin(bits, payload);
        WithinTrans(bits, Consume(bits, payload), Pass(s, waiters, bits, woke).bits);
      } else {
        PassKeeps(s, g, waiters[1..], bits, woke);
        FewerBitsSatisfyNobody(bits, Pass(s, waiters, bits, woke).bits, payload);
      }
    }
  }

  lemma PassStart(s: State, g: nat)
    requires InvX(s, Hole([], None, Some(g))) && g < |s.bits|
    ensures forall t :: t in s.Queue(s.cfg.GroupQueue(g)) ==> s.Task(t).wait.Some?
  {
    hide Tasks, Levels, Mutexes, Sems, Groups, Runs, NoDup, Sorted;
    assert QueueOk(s, s.cfg.GroupQueue(g));
  }

  /** The early return of `set` is sound, and its pass is complete. */
  lemma SetBitsKeeps(s: State, g: nat, added: bv32)
    requires Inv(s)
    ensures Inv(SetBits(s, g, added).state)
  {
    hide InvX, Satisfied, Within, Consume, Pass, NoDup, Joined;
    if g < |s.bits| && Joined(s.bits[g], added) != s.bits[g] {
      var h := Hole([], None, Some(g));
      var q := s.cfg.GroupQueue(g);
      OpenGroup(s, g);
      PassKeeps(s, g, s.Queue(q), Joined(s.bits[g], added), false);
      var r := Pass(s, s.Queue(q), Joined(s.bits[g], added), false);
      var s1 := r.state.WithBits(g, r.bits);
      assert forall t :: t in r.state.Queue(q) ==> t in s.Queue(q);
      assert GroupOk(s1, g);
      BitsKeep(r.state, g, r.bits, h);
      if r.woke {
        CheckRestoresRule(s1);
      } else {
        SameRule(s, s1);
      }
    }
  }

  lemma OpenGroup(s: State, g: nat)
    requires InvX(s, WHOLE) && g < |s.bits|
    ensures InvX(s, Hole([], None, Some(g))) && Visiting(s, g, s.Queue(s.cfg.GroupQueue(g)))
  {
    hide TaskOk, UpToDate, Levels, MutexOk, Sems, GroupOk, Runs, NoDup, Sorted;
    assert QueueOk(s, s.cfg.GroupQueue(g));
  }
}
