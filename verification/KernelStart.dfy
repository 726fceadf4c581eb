/** What the kernel starts with: the configured objects, and the tasks that are configured
    to be active. */
module KernelStart {
  import opened Wrappers
  import opened KernelState
  import opened KernelOps
  import opened KernelReady

  /** The state before any task is started: the configured priorities, permits and bits;
      free mutexes, empty queues, an idle processor. */
  lemma StartsAsConfigured(cfg: Config)
    ensures var s := InitialState(cfg);
            && s.cfg == cfg && s.values == cfg.values && s.bits == cfg.bits
            && s.running == None && !s.boost && !s.pending
            && |s.tasks| == |cfg.initial| && |s.mutexes| == |cfg.ceilings|
            && |s.queues| == cfg.Queues() && |s.ready| == cfg.priorities
            && (forall t :: 0 <= t < |s.tasks| ==> Asleep(s.tasks[t], cfg.initial[t]))
            && (forall m :: 0 <= m < |s.mutexes| ==> s.mutexes[m].owner == None && !s.mutexes[m].inconsistent)
            && (forall q :: 0 <= q < |s.queues| ==> s.queues[q] == [])
            && (forall p :: 0 <= p < |s.ready| ==> s.ready[p] == [])
  {
  }

  /** A task that has not been activated. */
  predicate Asleep(k: Task, initial: nat) {
    && k.st == Dormant && k.base == k.eff == initial && k.held == [] && !k.parkToken && !k.timer
    && k.wait == None && k.call == NoCall
  }

  /** The tasks of `active` that exist, each where it is named first. */
  function Started(s: State, active: seq<nat>): (w: seq<nat>)
    decreases |active|
  {
    if active == [] then []
    else
      var first := active[0] < |s.tasks| && s.Task(active[0]).st == Dormant;
      (if first then [active[0]] else []) + Started(InitTask(s, active[0]), active[1..])
  }

  /** `init_task` makes a dormant task ready, as the last of its level, and nothing else. */
  lemma InitTaskStarts(s: State, t: nat)
    requires t < |s.tasks| && s.tasks[t].st == Dormant && s.tasks[t].eff < |s.ready|
    ensures InitTask(s, t) == s.(tasks := s.tasks[t := s.tasks[t].(st := Ready)],
                                 ready := s.ready[s.tasks[t].eff := s.ready[s.tasks[t].eff] + [t]])
  {
  }

  /** Exactly the tasks named in `active` are ready after boot, in this order within each
      level; the others are dormant; the first dispatch is requested, and nothing else has
      changed. */
  lemma {:induction false} BootStarts(s: State, active: seq<nat>)
    requires forall t :: 0 <= t < |s.tasks| ==> s.tasks[t].eff < |s.ready|
    ensures var s' := Boot(s, active);
            && |s'.tasks| == |s.tasks| && Gains(s, s', Started(s, active))
            && s' == s.(tasks := s'.tasks, ready := s'.ready, pending := true)
            && (forall t :: 0 <= t < |s.tasks| ==>
                  s'.tasks[t] == (if t in active && s.tasks[t].st == Dormant then s.tasks[t].(st := Ready)
                                  else s.tasks[t]))
    decreases |active|
  {
    hide MakeReady;
    if active == [] {
      GainsNobody(s, s.(pending := true));
    } else {
      var t := active[0];
      var s1 := InitTask(s, t);
      assert forall u :: u in active <==> u == t || u in active[1..];
      if t < |s.tasks| && s.tasks[t].st == Dormant {
        InitTaskStarts(s, t);
        hide InitTask;
        BootStarts(s1, active[1..]);
        StartedOne(s, s1, t);
        hide Gains, Started;
        GainsTrans(s, s1, Boot(s, active), [t], Started(s1, active[1..]));
      } else {
        BootStarts(s, active[1..]);
        assert [] + Started(s, active[1..]) == Started(s, active[1..]);
      }
    }
  }

  lemma StartedOne(s: State, s1: State, t: nat)
    requires t < |s.tasks| && s.tasks[t].eff < |s.ready|
    requires s1 == s.(tasks := s.tasks[t := s.tasks[t].(st := Ready)],
                      ready := s.ready[s.tasks[t].eff := s.ready[s.tasks[t].eff] + [t]])
    ensures Gains(s, s1, [t])
  {
    assert [t][1..] == [];
  }
}
