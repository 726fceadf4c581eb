/** What the calls that start tasks, end waits and poll event groups promise. */
module KernelCalls {
  import opened Wrappers
  import opened Lists
  import opened KernelState
  import opened KernelInv
  import opened KernelLocal
  import opened KernelSteps
  import opened KernelDispatch
  import opened KernelOps

  // ----- starting, waiting and waking -----

  /** `activate` succeeds if and only if the task is dormant; it then is the last ready
      task of its initial priority, without a park token, and nothing else changes but
      the request for a dispatch. */
  lemma ActivateStarts(s: State, t: nat)
    requires Inv(s) && t < |s.tasks|
    ensures var o := Activate(s, t);
            var p := s.cfg.initial[t];
            && (o.reply == Done <==> s.tasks[t].st == Dormant)
            && (o.reply != Done ==> o == Outcome(s, QueueOverflow))
            && (o.reply == Done ==>
                  && o.state.tasks == s.tasks[t := s.tasks[t].(st := Ready, base := p, eff := p, parkToken := false)]
                  && p < |s.ready| && o.state.ready == s.ready[p := s.ready[p] + [t]]
                  && o.state.(tasks := s.tasks, ready := s.ready, pending := s.pending) == s)
  {
    hide FirstReady;
    var initial := s.cfg.initial[t];
    MakeReadyIs(s.WithTask(t, s.tasks[t].(parkToken := false, base := initial, eff := initial)), t);
    hide Tasks, Queues, Levels, Mutexes, Sems, Groups, MakeReady;
  }

  /** The wait of task `t` has ended with `result`: it has left its queue, whose other
      members keep their order, and is the last ready task of its priority. Nothing else
      changes but the request for a dispatch. */
  ghost predicate WaitEnded(s: State, s': State, t: nat, result: WaitResult) {
    && t < |s.tasks| && |s'.queues| == |s.queues| && |s'.ready| == |s.ready|
    && s' == s.(tasks := s.tasks[t := s.tasks[t].(st := Ready, wait := None, result := result)],
                queues := s'.queues, ready := s'.ready, pending := s'.pending)
    && (forall q: nat :: s'.Queue(q) == if QueueOf(s.Task(t)) == Some(q) then Without(s.Queue(q), t) else s.Queue(q))
    && (forall p: nat :: s'.ReadyAt(p) == if p == s.Task(t).eff then s.ReadyAt(p) + [t] else s.ReadyAt(p))
  }

  lemma WakeEndsWait(s: State, t: nat, result: WaitResult)
    requires InvX(s, WHOLE) && t < |s.tasks|
    ensures WaitEnded(s, CheckPreemption(Wake(s, t, result)), t, result)
  {
    hide LevelOk;
    hide InvX, Without, CheckPreemption, Wake, TaskOk, UpToDate, QueueOk, NoDup;
    InBounds(s, WHOLE, t);
    WakeIs(s, t, result);
    CheckOnlyAsks(Wake(s, t, result));
  }

  /** Only a waiting task can be interrupted; its wait then ends, and it cannot be
      interrupted again before it waits again. */
  lemma InterruptEndsWait(s: State, t: nat)
    requires Inv(s) && t < |s.tasks|
    ensures var o := Interrupt(s, t, WasInterrupted);
            && (o.reply == Done <==> s.tasks[t].st == Waiting)
            && (o.reply != Done ==> o == Outcome(s, BadObjectState))
            && (o.reply == Done ==>
                  && WaitEnded(s, o.state, t, WasInterrupted)
                  && Interrupt(o.state, t, WasInterrupted).reply == BadObjectState)
  {
    WakeEndsWait(s, t, WasInterrupted);
    var s1 := Wake(s, t, WasInterrupted);
    assert |CheckPreemption(s1).tasks| == |s.tasks| by { hide FirstReady; }
    hide InvX, Wake, CheckPreemption;
  }

  /** A timeout that expires ends the wait if the task is still waiting, and otherwise
      is only forgotten; it belongs to the call the task is inside of, and cannot expire
      twice. */
  lemma ExpireEndsWait(s: State, t: nat)
    requires Inv(s) && t < |s.tasks| && s.tasks[t].timer
    ensures var s1 := s.WithTask(t, s.tasks[t].(timer := false));
            var s' := Expire(s, t).state;
            && !s'.Task(t).timer && s.tasks[t].call.Inside? && s.tasks[t].call.timed
            && (s.tasks[t].st == Waiting ==> WaitEnded(s1, s', t, TimedOut))
            && (s.tasks[t].st != Waiting ==> s' == s1.(pending := s'.pending))
  {
    var s1 := s.WithTask(t, s.tasks[t].(timer := false));
    InBounds(s, WHOLE, t);
    hide HeldOk, ResultFits, EffectivePriority, NoDup, FirstReady, WaitEnded;
    assert InvX(s1, WHOLE) by { UpdateKeeps(s, t, s.tasks[t].(timer := false), WHOLE, WHOLE); }
    hide InvX;
    WakeEndsWait(s1, t, TimedOut);
    assert WaitEnded(s1, CheckPreemption(Wake(s1, t, TimedOut)), t, TimedOut) ==>
      !CheckPreemption(Wake(s1, t, TimedOut)).Task(t).timer by { EndedKeepsTimer(s1, t); }
  }

  lemma EndedKeepsTimer(s: State, t: nat)
    ensures forall s': State :: WaitEnded(s, s', t, TimedOut) ==> s'.Task(t).timer == s.Task(t).timer
  {
  }

  /** A call that finds its bits set reports all bits as they were, and clears those it
      asked for and no others, if it is told to. */
  lemma BitsAreReportedAndConsumed(s: State, g: nat, payload: Payload)
    requires g < |s.bits| && payload.EventBits?
    ensures var o := PollBits(s, g, payload);
            && (o.reply == OldBits(s.bits[g]) <==> Satisfied(s.bits[g], payload))
            && (o.reply != OldBits(s.bits[g]) ==> o == Outcome(s, Expired))
            && (o.reply == OldBits(s.bits[g]) ==>
                 o.state.(bits := s.bits) == s && Consumed(s.bits[g], o.state.Bits(g), payload))
  {
    hide Satisfied;
    ConsumeTakesBits(s.bits[g], payload);
    hide Consume, Consumed;
    assert s.bits[g := s.bits[g]] == s.bits;
  }

  predicate Consumed(before: bv32, after: bv32, payload: Payload) {
    payload.EventBits? &&
    if payload.clear then after & payload.bits == 0 && after | payload.bits == before | payload.bits
    else after == before
  }

  lemma ConsumeTakesBits(bits: bv32, payload: Payload)
    requires payload.EventBits?
    ensures Consumed(bits, Consume(bits, payload), payload)
  {
    hide Cleared;
    ClearedTakes(bits, payload.bits);
    ClearedLeaves(bits, payload.bits);
  }
}
