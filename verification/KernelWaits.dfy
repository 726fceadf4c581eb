/** How blocking calls begin and end: when they block, what they do to the caller, and
    what they reply when they return. */
module KernelWaits {
  import opened Wrappers
  import opened Lists
  import opened KernelState
  import opened WaitOrder
  import opened KernelInv
  import opened KernelLocal
  import opened KernelMoves
  import opened KernelOps
  import opened KernelRun
  import opened KernelEffects
  import opened KernelFinal
  import opened KernelCalls

  // ----- blocking -----

  /** Task `t` has blocked: it waits, inside the call, with its timeout registered if the
      call is timed, linked in the place of its queue that its priority gives it, and has
      given up the processor; nothing else changes. */
  ghost predicate Waits(s: State, s': State, t: nat, queue: Option<nat>, payload: Payload, timed: bool) {
    && t < |s.tasks|
    && s' == s.(tasks := s.tasks[t := Blocked(s, t, queue, payload, timed)], queues := s'.queues,
                clock := s.clock + 1, pending := true)
    && match queue
       case None => s'.queues == s.queues
       case Some(q) =>
         && q < |s.queues| == |s'.queues| && s'.queues == s.queues[q := s'.queues[q]]
         && LinkedBehind(s.cfg.Order(q), s'.tasks, s.queues[q], s'.queues[q], t)
  }

  function Blocked(s: State, t: nat, queue: Option<nat>, payload: Payload, timed: bool): (k: Task)
    requires t < |s.tasks|
  {
    s.tasks[t].(st := Waiting, wait := Some(Wait(queue, payload, s.clock)),
                call := Inside(payload, timed), timer := timed)
  }

  lemma BlockWaits(s: State, t: nat, queue: Option<nat>, payload: Payload, timed: bool)
    requires InvX(s, WHOLE) && t < |s.tasks| && s.tasks[t].st == Running && (queue.Some? ==> queue.value < |s.queues|)
    ensures Waits(s, Block(s, t, queue, payload, timed), t, queue, payload, timed)
  {
    hide Block, Sorted, LinkedBehind, Place, InsertAt, NoDup, Tasks, Levels, Mutexes, Sems, Groups, Without;
    if queue.Some? {
      var q := queue.value;
      NotBlockedYet(s, t, q);
      assert QueueOk(s, q);
      BlockIs(s, t, queue, payload, timed);
      var s' := Block(s, t, queue, payload, timed);
      BlockedSorted(s, s', t, q);
      InsertLinksBehind(s.cfg.Order(q), s'.tasks, s.queues[q], t);
      NotThere(s.queues[q], t);
    } else {
      BlockIs(s, t, queue, payload, timed);
    }
  }

  lemma NotThere(w: seq<nat>, t: nat)
    requires t !in w
    ensures Without(w, t) == w
  {
  }

  lemma BlockedSorted(s: State, s': State, t: nat, q: nat)
    requires q < |s.queues| && Sorted(s.cfg.Order(q), s.tasks, s.queues[q]) && t !in s.queues[q]
    requires t < |s.tasks| && s'.tasks == s.tasks[t := s'.Task(t)]
    ensures Sorted(s.cfg.Order(q), s'.tasks, s.queues[q])
  {
    SortedFrame(s.cfg.Order(q), s.tasks, s.queues[q], s'.tasks);
  }

  lemma NotBlockedYet(s: State, t: nat, q: nat)
    requires InvX(s, WHOLE) && t < |s.tasks| && s.tasks[t].st == Running
    ensures t !in s.Queue(q)
  {
    InBounds(s, WHOLE, t);
    NotQueued(s, t, q);
  }

  // ----- mutexes -----

  /** The ceiling of the mutex does not forbid the base priority. */
  predicate CeilingAdmits(ceiling: Option<nat>, base: nat) {
    ceiling.None? || ceiling.value <= base
  }

  /** The mutex becomes the caller's latest, and raises it to its ceiling. */
  ghost predicate Takes(s: State, s': State, m: nat, t: nat)
    requires m < |s.mutexes| && m < |s.cfg.ceilings| && t < |s.tasks|
  {
    var k, c := s.tasks[t], s.cfg.ceilings[m];
    var eff := if c.Some? && c.value < k.eff then c.value else k.eff;
    s' == s.(mutexes := s.mutexes[m := s.mutexes[m].(owner := Some(t))],
             tasks := s.tasks[t := k.(held := [m] + k.held, eff := eff)])
  }

  /** `lock` refuses a mutex that the caller owns, then one whose ceiling forbids the
      caller's base priority; a free mutex is obtained, and reported as abandoned if it is
      inconsistent; otherwise, and only then, the call blocks, in the queue of the mutex. */
  lemma LockReplies(s: State, m: nat, timed: bool)
    requires Inv(s) && Waitable(s) && m < |s.mutexes|
    ensures var t := s.running.value;
            var x := s.mutexes[m];
            var o := Lock(s, m, timed);
            && m < |s.cfg.ceilings|
            && var admits := CeilingAdmits(s.cfg.ceilings[m], s.tasks[t].base);
            && (o.reply == WouldDeadlock <==> x.owner == Some(t))
            && (o.reply == BadParam <==> x.owner != Some(t) && !admits)
            && (o.reply == Blocks <==> x.owner.Some? && x.owner != Some(t) && admits)
            && (o.reply == Done <==> x.owner.None? && admits && !x.inconsistent)
            && (o.reply == Abandoned <==> x.owner.None? && admits && x.inconsistent)
            && (if o.reply == Blocks then Waits(s, o.state, t, Some(m), Payload.Mutex(m), timed)
                else if Locked(o.reply) then Takes(s, o.state, m, t)
                else o.state == s)
  {
    hide Block, Waits, Tasks, Queues, Levels, Mutexes, Sems, Groups;
    BlockWaits(s, s.running.value, Some(m), Payload.Mutex(m), timed);
  }

  /** `try_lock` differs only in that it gives up where `lock` blocks; it is allowed while
      boost is on. */
  lemma TryLockReplies(s: State, m: nat)
    requires Inv(s) && InTask(s) && m < |s.mutexes|
    ensures var t := s.running.value;
            var x := s.mutexes[m];
            var o := TryLock(s, m);
            && m < |s.cfg.ceilings|
            && var admits := CeilingAdmits(s.cfg.ceilings[m], s.tasks[t].base);
            && (o.reply == WouldDeadlock <==> x.owner == Some(t))
            && (o.reply == BadParam <==> x.owner != Some(t) && !admits)
            && (o.reply == Expired <==> x.owner.Some? && x.owner != Some(t) && admits)
            && (o.reply == Done <==> x.owner.None? && admits && !x.inconsistent)
            && (o.reply == Abandoned <==> x.owner.None? && admits && x.inconsistent)
            && (if Locked(o.reply) then Takes(s, o.state, m, t) else o.state == s)
  {
    hide Tasks, Queues, Levels, Mutexes, Sems, Groups, Runs;
  }

  /** The flag of an abandoned mutex is cleared, and reported if there was none. */
  lemma MarkConsistentReplies(s: State, m: nat)
    requires m < |s.mutexes|
    ensures var o := MarkConsistent(s, m);
            && o.state == s.(mutexes := s.mutexes[m := MutexCb(s.mutexes[m].owner, false)])
            && o.reply == (if s.mutexes[m].inconsistent then Done else BadObjectState)
  {
  }

  // ----- semaphores -----

  /** `wait_one` takes a permit if there is one, and otherwise blocks in the queue of the
      semaphore; `poll_one` gives up instead; `drain` takes all permits. */
  lemma PermitReplies(s: State, i: nat, timed: bool)
    requires Inv(s) && i < |s.values|
    ensures var taken := s.(values := s.values[i := if s.values[i] > 0 then s.values[i] - 1 else 0]);
            && (Waitable(s) ==>
                  var o := WaitOne(s, i, timed);
                  if s.values[i] > 0 then o == Outcome(taken, Done)
                  else
                    && o.reply == Blocks
                    && Waits(s, o.state, s.running.value, Some(|s.cfg.ceilings| + i), Semaphore, timed))
            && PollOne(s, i) == (if s.values[i] > 0 then Outcome(taken, Done) else Outcome(s, Expired))
            && Drain(s, i) == Outcome(s.(values := s.values[i := 0]), Done)
  {
    hide Block, Waits, Tasks, Queues, Levels, Mutexes, Sems, Groups;
    if Waitable(s) { BlockWaits(s, s.running.value, Some(s.cfg.SemQueue(i)), Semaphore, timed); }
  }

  // ----- event groups -----

  /** `wait` replies at once if its condition holds, like `poll`, and otherwise blocks in
      the queue of the group, with its condition. */
  lemma WaitBitsReplies(s: State, g: nat, payload: Payload, timed: bool)
    requires Inv(s) && Waitable(s) && g < |s.bits| && payload.EventBits?
    ensures var o := WaitBits(s, g, payload, timed);
            if Satisfied(s.bits[g], payload) then o == PollBits(s, g, payload) && o.reply == OldBits(s.bits[g])
            else
              && o.reply == Blocks
              && Waits(s, o.state, s.running.value, Some(|s.cfg.ceilings| + |s.cfg.maxValues| + g), payload, timed)
  {
    hide Block, Waits, Tasks, Queues, Levels, Mutexes, Sems, Groups, Satisfied, Consume;
    BlockWaits(s, s.running.value, Some(s.cfg.GroupQueue(g)), payload, timed);
  }

  // ----- parking and sleeping -----

  /** `park` uses up a token if there is one and otherwise blocks; `sleep` always blocks. */
  lemma ParkReplies(s: State, timed: bool)
    requires Inv(s) && Waitable(s)
    ensures var t := s.running.value;
            var o := ParkCurrent(s, timed);
            if s.tasks[t].parkToken then o == Outcome(s.(tasks := s.tasks[t := s.tasks[t].(parkToken := false)]), Done)
            else o.reply == Blocks && Waits(s, o.state, t, None, Park, timed)
    ensures var o := SleepCurrent(s);
            o.reply == Blocks && Waits(s, o.state, s.running.value, None, Sleep, true)
  {
    hide Block, Waits, InvX;
    BlockWaits(s, s.running.value, None, Park, timed);
    BlockWaits(s, s.running.value, None, Sleep, true);
  }

  /** `unpark` ends the wait of a parked task, whose token it leaves as it is; any other
      task that has been activated gets a token, and nothing else changes. */
  lemma UnparkReplies(s: State, t: nat)
    requires Inv(s) && t < |s.tasks|
    ensures var k := s.tasks[t];
            var o := Unpark(s, t);
            if k.st == Dormant then o == Outcome(s, BadObjectState)
            else if k.st == Waiting && k.wait.value.payload == Park then
              o.reply == Done && WaitEnded(s, o.state, t, WaitOk) && o.state.Task(t).parkToken == k.parkToken
            else
              && o.state == s.(tasks := s.tasks[t := k.(parkToken := true)])
              && o.reply == (if k.parkToken then QueueOverflow else Done)
  {
    InBounds(s, WHOLE, t);
    WakeEndsWait(s, t, WaitOk);
    hide InvX, Wake, CheckPreemption;
  }

  // ----- returning -----

  /** What a call that ends must reply, from the result its task was given. */
  ghost predicate ReplyFits(k: Task, inconsistent: bool, r: Reply)
    requires k.call.Inside?
  {
    && (r == IsInterrupted <==> k.result == WasInterrupted)
    && (r == Expired <==> k.result == TimedOut && !k.call.payload.Sleep?)
    && (k.result == TimedOut && k.call.payload.Sleep? ==> r == Done)
    && (k.result == WaitOk ==>
         match k.call.payload
         case Semaphore => r == Done
         case Park => r == Done
         case EventBits(_, _, _) => r == OldBits(k.origBits)
         case Mutex(_) => r == if inconsistent then Abandoned else Done
         case Sleep => true)
  }

  /** A call that returns replies what its wait ended with, leaves the call, and takes its
      timeout with it; nothing else changes. A sleep never ends with `WaitOk`. */
  lemma ReturnReplies(s: State)
    requires Inv(s) && s.running.Some? && s.Task(s.running.value).st == Running && s.Task(s.running.value).call.Inside?
    ensures var t := s.running.value;
            var o := Resume(s);
            && t < |s.tasks|
            && var k := s.tasks[t];
            && var payload := k.call.payload;
            && o.state == s.(tasks := s.tasks[t := k.(call := NoCall, timer := false)])
            && ReplyFits(k, payload.Mutex? && s.Mutex(payload.m).inconsistent, o.reply)
            && (payload.Sleep? ==> k.result != WaitOk)
  {
    InBounds(s, WHOLE, s.running.value);
    hide InvX;
  }

  /** A lock that blocked succeeds, when it returns, if and only if its caller is the
      owner; only a timed call reports a timeout. */
  lemma ResumeReportsOwnership(s: State)
    requires Inv(s) && s.running.Some? && s.Task(s.running.value).st == Running && s.Task(s.running.value).call.Inside?
    ensures var k := s.Task(s.running.value);
            var r := Resume(s).reply;
            && (k.call.payload.Mutex? ==> (Locked(r) <==> s.Mutex(k.call.payload.m).owner == s.running))
            && (k.call.payload.Mutex? && Locked(r) ==> (r == Abandoned <==> s.Mutex(k.call.payload.m).inconsistent))
            && (r == Expired ==> k.call.timed)
            && (k.call.payload.Sleep? ==> r == (if k.result == TimedOut then Done else IsInterrupted))
  {
    InBounds(s, WHOLE, s.running.value);
    hide InvX;
  }

  /** A waiter that `set` served is told, when it returns, the bits with which it was
      served, whatever happens to the group in between. */
  lemma ServedIsReported(s: State, g: nat, added: bv32, j: nat, ops: seq<Op>)
    requires Inv(s) && g < |s.bits| && j < |s.Queue(s.cfg.GroupQueue(g))|
    requires var t := s.Queue(s.cfg.GroupQueue(g))[j];
             var s' := Run(SetBits(s, g, added).state, ops);
             && NeverReturns(SetBits(s, g, added).state, ops, t)
             && s'.running == Some(t) && s'.Task(t).st == Running
    ensures var w := s.Queue(s.cfg.GroupQueue(g));
            var seen := Serve(Conditions(s, w), s.bits[g] | added).seen[j];
            seen.Some? ==> Resume(Run(SetBits(s, g, added).state, ops)).reply == OldBits(seen.value)
  {
    hide Inv, InvX, Run, NeverReturns, SetBits, Serve, Conditions, CallReply, Satisfied;
    var w := s.Queue(s.cfg.GroupQueue(g));
    var t := w[j];
    var s1 := SetBits(s, g, added).state;
    WholeInv(s);
    WaitsForBits(s, g, t);
    SetServesWaiters(s, g, added);
    SetBitsKeepsInv(s, g, added);
    var seen := Serve(Conditions(s, w), s.bits[g] | added).seen[j];
    if seen.Some? {
      ServedTask(s, s1, w, Serve(Conditions(s, w), s.bits[g] | added).seen, j);
      ReplyWasDecided(s1, ops, t);
      BitsReply(s1, s1.tasks[t]);
    }
  }

  lemma WaitsForBits(s: State, g: nat, t: nat)
    requires InvX(s, WHOLE) && g < |s.bits| && t in s.Queue(s.cfg.GroupQueue(g))
    ensures t < |s.tasks| && s.tasks[t].call.Inside? && s.tasks[t].call.payload.EventBits?
  {
    assert QueueOk(s, s.cfg.GroupQueue(g));
    assert t < |s.tasks| && s.tasks[t].wait.Some?;
    InBounds(s, WHOLE, t);
  }

  lemma ServedTask(s: State, s': State, w: seq<nat>, seen: seq<Option<bv32>>, j: nat)
    requires ServedAll(s, s', w, seen) && j < |w| && seen[j].Some? && w[j] < |s.tasks| && s.tasks[w[j]].call.Inside?
    ensures w[j] < |s'.tasks|
    ensures s'.tasks[w[j]] == s.tasks[w[j]].(st := Ready, wait := None, result := WaitOk, origBits := seen[j].value)
  {
    assert s'.Task(w[j]) == Served(s.Task(w[j]), seen[j]);
  }

  lemma SetBitsKeepsInv(s: State, g: nat, added: bv32)
    requires Inv(s)
    ensures Inv(SetBits(s, g, added).state)
  {
    hide Inv;
    ApplyKeeps(s, OSetBits(g, added));
  }

  lemma BitsReply(s: State, k: Task)
    requires k.call.Inside? && k.call.payload.EventBits? && k.result == WaitOk
    ensures CallReply(s, k) == OldBits(k.origBits)
  {
  }
}
