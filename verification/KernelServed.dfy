/** Waking several waiters of one object: `signal` and `set` touch the object, its queue,
    the waiters they serve, and nothing else; the served become ready in queue order. */
module KernelServed {
  import opened Words
  import opened Wrappers
  import opened Lists
  import opened KernelState
  import opened KernelBits
  import opened KernelInv
  import opened KernelLocal
  import opened KernelSteps
  import opened KernelDispatch
  import opened KernelObjects
  import opened KernelOps
  import opened KernelEffects
  import opened KernelReady

  /** Besides tasks, ready lists and objects, only queue `q` differs. */
  ghost predicate OnlyQueue(s: State, s': State, q: nat) {
    && |s'.tasks| == |s.tasks| && |s'.queues| == |s.queues|
    && s' == s.(tasks := s'.tasks, ready := s'.ready, queues := s'.queues, values := s'.values, bits := s'.bits)
    && forall p: nat :: p != q ==> s'.Queue(p) == s.Queue(p)
  }

  lemma OnlyQueueTrans(s: State, s1: State, s': State, q: nat)
    requires OnlyQueue(s, s1, q) && OnlyQueue(s1, s', q)
    ensures OnlyQueue(s, s', q)
  {
  }

  lemma OnlyQueueChecked(s: State, s1: State, q: nat)
    requires OnlyQueue(s, s1, q)
    ensures var s' := CheckPreemption(s1); OnlyQueue(s.(pending := s'.pending), s', q)
    ensures OnlyQueue(s.(pending := s1.pending), s1, q)
  {
    CheckOnlyAsks(s1);
    hide CheckPreemption;
    var s' := CheckPreemption(s1);
    forall p: nat | p != q ensures s'.Queue(p) == s.(pending := s'.pending).Queue(p) {
      assert s1.Queue(p) == s.Queue(p);
    }
  }

  /** One waiter of queue `q` is woken. */
  lemma WakeOne(s: State, t: nat, q: nat, result: WaitResult)
    requires t < |s.tasks| && s.tasks[t].eff < |s.ready| && q < |s.queues| && QueueOf(s.tasks[t]) == Some(q)
    ensures var s' := Wake(s, t, result);
            && OnlyQueue(s, s', q) && s'.values == s.values && s'.bits == s.bits
            && s'.Queue(q) == Without(s.Queue(q), t) && Gains(s, s', [t])
  {
    hide Wake, Without, Gains;
    WakeIs(s, t, result);
    BackOfLevel(s, Wake(s, t, result), t);
  }

  lemma BackOfLevel(s: State, s': State, t: nat)
    requires s'.Task(t).eff < |s.ready|
    requires s'.ready == s.ready[s'.Task(t).eff := s.ready[s'.Task(t).eff] + [t]]
    ensures Gains(s, s', [t])
  {
    assert [t][1..] == [];
  }

  // ----- signal -----

  lemma {:induction false} GrantGains(s: State, i: nat, value: nat, count: nat)
    requires InvX(s, WHOLE) && i < |s.values| && s.Value(i) == value && value + count <= At(s.cfg.maxValues, i, 0)
    ensures var s' := Grant(s, i, value, count);
            var q := s.cfg.SemQueue(i);
            && OnlyQueue(s, s', q) && s'.bits == s.bits && s'.values == s.values[i := s'.Value(i)] && i < |s'.values|
            && Gains(s, s', s.Queue(q)[..Min(count, |s.Queue(q)|)])
    decreases count
  {
    hide InvX, Wake, MayWake, AllWoken, NoDup, Gains, OnlyQueue, Without;
    var q := s.cfg.SemQueue(i);
    var w := s.Queue(q);
    if count > 0 && w != [] {
      FirstWaiterMayTake(s, i);
      WakeFirstIs(s, i);
      WakeKeeps(s, w[0], WaitOk, WHOLE);
      WakeLeavesValues(s, w[0], WaitOk);
      FirstIsPlaced(s, i);
      WakeOne(s, w[0], q, WaitOk);
      var s1 := Wake(s, w[0], WaitOk);
      GrantGains(s1, i, value, count - 1);
      GrantWakesFirst(s1, i, value, count - 1);
      OnlyQueueTrans(s, s1, Grant(s, i, value, count), q);
      TailFacts(w);
      var n := Min(count, |w|);
      assert w[..n] == [w[0]] + w[1..][..n - 1];
      StaysWoken(s1, Grant(s, i, value, count), w[1..][..n - 1], w, n);
      GainsTrans(s, s1, Grant(s, i, value, count), [w[0]], w[1..][..n - 1]);
    } else {
      GrantNobody(s, i, value, count);
      assert w[..0] == [];
    }
  }

  lemma GrantNobody(s: State, i: nat, value: nat, count: nat)
    requires i < |s.values| && (count == 0 || s.Queue(s.cfg.SemQueue(i)) == [])
    ensures var s' := Grant(s, i, value, count);
            && OnlyQueue(s, s', s.cfg.SemQueue(i)) && s'.bits == s.bits && s'.values == s.values[i := s'.Value(i)]
            && i < |s'.values| && Gains(s, s', [])
  {
    GainsNobody(s, Grant(s, i, value, count));
  }

  lemma FirstIsPlaced(s: State, i: nat)
    requires InvX(s, WHOLE) && i < |s.values| && s.Queue(s.cfg.SemQueue(i)) != []
    ensures var t := s.Queue(s.cfg.SemQueue(i))[0];
            t < |s.tasks| && s.tasks[t].eff < |s.ready| && s.cfg.SemQueue(i) < |s.queues|
            && QueueOf(s.tasks[t]) == Some(s.cfg.SemQueue(i))
  {
    FirstWaiterMayTake(s, i);
    InBounds(s, WHOLE, s.Queue(s.cfg.SemQueue(i))[0]);
  }

  lemma StaysWoken(s1: State, s': State, woken: seq<nat>, w: seq<nat>, n: nat)
    requires w != [] && 0 < n <= |w| && woken == w[1..][..n - 1] && NoDup(w) && AllWoken(s1, s', woken)
    ensures forall t :: t in [w[0]] ==> s'.Task(t).eff == s1.Task(t).eff
  {
    TailFacts(w);
    hide NoDup, State.Task;
    assert w[0] !in w[1..] && forall x :: x in w[1..][..n - 1] ==> x in w[1..];
  }

  /** `signal` fails if and only if the permits would exceed the maximum; otherwise the
      first waiters get one each, in queue order, and the rest is deposited. */
  lemma SignalConserves(s: State, i: nat, count: nat)
    requires Inv(s) && i < |s.values|
    ensures var o := Signal(s, i, count);
            var q := s.cfg.SemQueue(i);
            var n := Min(count, |s.Queue(q)|);
            && (o.reply == QueueOverflow <==> s.values[i] + count > s.cfg.maxValues[i])
            && (o.reply == QueueOverflow ==> o.state == s)
            && (o.reply != QueueOverflow ==>
                  && o.reply == Done && n <= s.values[i] + count
                  && o.state.values == s.values[i := s.values[i] + count - n] && o.state.Queue(q) == s.Queue(q)[n..]
                  && AllWoken(s, o.state, s.Queue(q)[..n]) && Gains(s, o.state, s.Queue(q)[..n])
                  && OnlyQueue(s.(pending := o.state.pending), o.state, q) && o.state.bits == s.bits)
  {
    hide Tasks, Queues, Levels, Mutexes, Sems, Groups, Runs, Grant, CheckPreemption, Gains, OnlyQueue;
    if s.values[i] + count <= s.cfg.maxValues[i] {
      var s1 := Grant(s, i, s.values[i], count);
      GrantWakesFirst(s, i, s.values[i], count);
      GrantGains(s, i, s.values[i], count);
      CheckOnlyAsks(s1);
      OnlyQueueChecked(s, s1, s.cfg.SemQueue(i));
      GainsChecked(s, s1, s.Queue(s.cfg.SemQueue(i))[..Min(count, |s.Queue(s.cfg.SemQueue(i))|)]);
    }
  }

  lemma GainsChecked(s: State, s1: State, who: seq<nat>)
    requires Gains(s, s1, who)
    ensures Gains(s, CheckPreemption(s1), who)
  {
    CheckOnlyAsks(s1);
    hide CheckPreemption;
    forall p: nat ensures AtLevel(CheckPreemption(s1), who, p) == AtLevel(s1, who, p) {
      SameAtLevel(s1, CheckPreemption(s1), who, p);
    }
  }

  // ----- set -----

  /** The waiters that have been served, or those that have not, in order. */
  function Chosen(waiters: seq<nat>, seen: seq<Option<bv32>>, served: bool): (w: seq<nat>)
    requires |seen| == |waiters|
    decreases |waiters|
  {
    if waiters == [] then []
    else (if seen[0].Some? == served then [waiters[0]] else []) + Chosen(waiters[1..], seen[1..], served)
  }

  lemma ChosenCons(t: nat, rest: seq<nat>, first: Option<bv32>, seen: seq<Option<bv32>>, served: bool)
    requires |seen| == |rest|
    ensures Chosen([t] + rest, [first] + seen, served)
         == (if first.Some? == served then [t] else []) + Chosen(rest, seen, served)
  {
    assert ([t] + rest)[1..] == rest && ([first] + seen)[1..] == seen;
  }

  /** A waiter woken in the pass leaves the queue and nothing else. */
  lemma WakeInPass(s: State, g: nat, before: seq<nat>, waiters: seq<nat>, bits: bv32)
    requires InvX(s, Hole([], None, Some(g))) && Visiting(s, g, waiters) && waiters != []
    requires NoDup(before + waiters) && s.Queue(s.cfg.GroupQueue(g)) == before + waiters
    ensures var s1 := WakeWithBits(s, waiters[0], bits);
            var q := s.cfg.GroupQueue(g);
            && OnlyQueue(s, s1, q) && s1.values == s.values && s1.bits == s.bits
            && s1.Queue(q) == before + waiters[1..] && Gains(s, s1, [waiters[0]])
  {
    hide Gains, WakeWithBits;
    var t := waiters[0];
    VisitedMayWake(s, g, t);
    InBounds(s, Hole([], None, Some(g)), t);
    hide InvX, Wake, Without, TaskOk, UpToDate, QueueOk;
    var s0 := s.WithTask(t, s.tasks[t].(origBits := bits));
    WakeOne(s0, t, s.cfg.GroupQueue(g), WaitOk);
    WithoutMiddle(before, waiters);
    WakeWithBitsFrom(s, t, bits);
    GainsFrom(s, s0, WakeWithBits(s, t, bits), [t]);
  }

  lemma WakeWithBitsFrom(s: State, t: nat, bits: bv32)
    requires t < |s.tasks|
    ensures WakeWithBits(s, t, bits) == Wake(s.WithTask(t, s.tasks[t].(origBits := bits)), t, WaitOk)
  {
  }

  lemma GainsFrom(s: State, s0: State, s': State, who: seq<nat>)
    requires Gains(s0, s', who) && s0.ready == s.ready
    ensures Gains(s, s', who)
  {
    hide AtLevel;
  }

  lemma WithoutMiddle(before: seq<nat>, waiters: seq<nat>)
    requires waiters != [] && NoDup(before + waiters)
    ensures Without(before + waiters, waiters[0]) == before + waiters[1..]
    ensures NoDup(before + waiters[1..])
  {
    var w := before + waiters;
    var r := before + waiters[1..];
    IndexIs(w, |before|);
    assert w[..|before|] == before && w[|before| + 1..] == waiters[1..];
    hide Without;
    forall i, j | 0 <= i < j < |r|
      ensures r[i] != r[j]
    {
      assert r[i] == w[if i < |before| then i else i + 1] && r[j] == w[if j < |before| then j else j + 1];
    }
  }

  lemma {:induction false} IndexIs(w: seq<nat>, k: nat)
    requires NoDup(w) && k < |w|
    ensures IndexOf(w, w[k]) == k && Without(w, w[k]) == w[..k] + w[k + 1..]
  {
    var i := IndexOf(w, w[k]);
    assert w[i] == w[k];
  }

  /** The pass of `set` takes the served waiters out of the queue and makes them ready, in
      order; the others stay where they are. */
  lemma {:induction false} PassGains(s: State, g: nat, before: seq<nat>, waiters: seq<nat>, bits: bv32, woke: bool)
    requires InvX(s, Hole([], None, Some(g))) && Visiting(s, g, waiters) && NoDup(before + waiters)
    requires s.Queue(s.cfg.GroupQueue(g)) == before + waiters
    ensures var seen := Serve(Conditions(s, waiters), bits).seen;
            PassedOn(s, Pass(s, waiters, bits, woke).state, g, before, waiters, seen)
    decreases |waiters|
  {
    hide InvX, Satisfied, Consume, WakeWithBits, NoDup, ServedAll, PassedOn, OnlyQueue, Gains;
    if waiters == [] {
      PassedNobody(s, g, before);
    } else {
      var t, rest := waiters[0], waiters[1..];
      TailFacts(waiters);
      PassStart(s, g);
      var payload := s.Task(t).wait.value.payload;
      assert Conditions(s, waiters)[1..] == Conditions(s, rest);
      var wakes := Satisfied(bits, payload);
      var s1 := if wakes then WakeWithBits(s, t, bits) else s;
      var before' := if wakes then before else before + [t];
      var left := if wakes then Consume(bits, payload) else bits;
      if wakes {
        WakeWithBitsKeeps(s, g, t, bits);
        WakeWithBitsIs(s, g, t, bits);
        WakeInPass(s, g, before, waiters, bits);
        WithoutMiddle(before, waiters);
      } else {
        assert before' + rest == before + waiters;
      }
      SameConditions(s, s1, rest);
      PassGains(s1, g, before', rest, left, woke || wakes);
      PassServes(s1, g, rest, left, woke || wakes);
      PassedMore(s, s1, Pass(s, waiters, bits, woke).state, g, before, waiters,
        if wakes then Some(bits) else None, Serve(Conditions(s1, rest), left).seen);
    }
  }

  ghost predicate PassedOn(s: State, s': State, g: nat, before: seq<nat>, waiters: seq<nat>, seen: seq<Option<bv32>>) {
    var q := s.cfg.GroupQueue(g);
    && |seen| == |waiters|
    && OnlyQueue(s, s', q) && s'.bits == s.bits && s'.values == s.values
    && s'.Queue(q) == before + Chosen(waiters, seen, false) && Gains(s, s', Chosen(waiters, seen, true))
  }

  lemma PassedNobody(s: State, g: nat, before: seq<nat>)
    requires s.Queue(s.cfg.GroupQueue(g)) == before + []
    ensures PassedOn(s, s, g, before, [], [])
  {
    GainsNobody(s, s);
  }

  lemma PassedMore(s: State, s1: State, s': State, g: nat, before: seq<nat>, waiters: seq<nat>,
      first: Option<bv32>, rest: seq<Option<bv32>>)
    requires waiters != [] && waiters[0] !in waiters[1..]
    requires if first.Some? then OnlyQueue(s, s1, s.cfg.GroupQueue(g)) && s1.values == s.values && s1.bits == s.bits
                                 && Gains(s, s1, [waiters[0]])
             else s1 == s
    requires PassedOn(s1, s', g, if first.Some? then before else before + [waiters[0]], waiters[1..], rest)
    requires ServedAll(s1, s', waiters[1..], rest)
    ensures PassedOn(s, s', g, before, waiters, [first] + rest)
  {
    hide Gains, Chosen, State.Task;
    var t, others := waiters[0], waiters[1..];
    assert waiters == [t] + others;
    ChosenCons(t, others, first, rest, true);
    ChosenCons(t, others, first, rest, false);
    assert s'.Task(t) == s1.Task(t);
    if first.Some? {
      GainsTrans(s, s1, s', [t], Chosen(others, rest, true));
      OnlyQueueTrans(s, s1, s', s.cfg.GroupQueue(g));
      assert [] + Chosen(others, rest, false) == Chosen(others, rest, false);
    } else {
      assert [] + Chosen(others, rest, true) == Chosen(others, rest, true);
      assert before + [t] + Chosen(others, rest, false) == before + ([t] + Chosen(others, rest, false));
    }
  }

  /** `set` takes exactly the waiters it serves out of the queue of the group and makes
      them ready, in queue order; the others keep their places, and nothing else changes
      but the bits of the group and the request for a dispatch. */
  lemma SetLeavesRest(s: State, g: nat, added: bv32)
    requires Inv(s) && g < |s.bits|
    ensures SetWith(s, SetBits(s, g, added).state, g, s.bits[g] | added)
    ensures SetBits(s, g, added).reply == Done
  {
    hide *;
    SetLeavesJoined(s, g, added);
    JoinedIsOr(s.bits[g], added);
  }

  ghost predicate SetWith(s: State, s': State, g: nat, bits: bv32) {
    var q := s.cfg.GroupQueue(g);
    var w := s.Queue(q);
    var seen := Serve(Conditions(s, w), bits).seen;
    && g < |s.bits|
    && s'.Queue(q) == Chosen(w, seen, false) && Gains(s, s', Chosen(w, seen, true))
    && OnlyQueue(s.(pending := s'.pending), s', q) && s'.values == s.values && s'.bits == s.bits[g := s'.Bits(g)]
  }

  lemma SetLeavesJoined(s: State, g: nat, added: bv32)
    requires Inv(s) && g < |s.bits|
    ensures SetWith(s, SetBits(s, g, added).state, g, Joined(s.bits[g], added))
    ensures SetBits(s, g, added).reply == Done
  {
    hide InvX, Satisfied, Consume, Pass, NoDup, Joined, Serve, Conditions, CheckPreemption, Gains, Chosen;
    var w := s.Queue(s.cfg.GroupQueue(g));
    var bits := Joined(s.bits[g], added);
    var seen := Serve(Conditions(s, w), bits).seen;
    if bits == s.bits[g] {
      WaitersUnsatisfied(s, g);
      ServeNobody(Conditions(s, w), bits);
      NobodyChosen(w, seen);
      GainsNobody(s, s);
    } else {
      OpenGroup(s, g);
      WaitersDistinct(s, g);
      assert [] + w == w;
      PassGains(s, g, [], w, bits, false);
      assert [] + Chosen(w, seen, false) == Chosen(w, seen, false);
      var r := Pass(s, w, bits, false);
      GainsStored(s, r.state, g, r.bits, Chosen(w, seen, true));
      OnlyQueueStored(s, r.state, s.cfg.GroupQueue(g), g, r.bits);
      OnlyQueueChecked(s, r.state.WithBits(g, r.bits), s.cfg.GroupQueue(g));
      GainsChecked(s, r.state.WithBits(g, r.bits), Chosen(w, seen, true));
      CheckOnlyAsks(r.state.WithBits(g, r.bits));
    }
  }

  lemma WaitersDistinct(s: State, g: nat)
    requires InvX(s, WHOLE) && g < |s.bits|
    ensures NoDup(s.Queue(s.cfg.GroupQueue(g)))
  {
    assert QueueOk(s, s.cfg.GroupQueue(g));
  }

  lemma OnlyQueueStored(s: State, s1: State, q: nat, g: nat, bits: bv32)
    requires OnlyQueue(s, s1, q)
    ensures OnlyQueue(s, s1.WithBits(g, bits), q)
  {
  }

  lemma GainsStored(s: State, s1: State, g: nat, bits: bv32, who: seq<nat>)
    requires Gains(s, s1, who)
    ensures Gains(s, s1.WithBits(g, bits), who)
  {
    forall p: nat ensures AtLevel(s1.WithBits(g, bits), who, p) == AtLevel(s1, who, p) {
      SameAtLevel(s1, s1.WithBits(g, bits), who, p);
    }
    hide AtLevel;
  }

  lemma {:induction false} NobodyChosen(waiters: seq<nat>, seen: seq<Option<bv32>>)
    requires |seen| == |waiters| && forall j :: 0 <= j < |seen| ==> seen[j] == None
    ensures Chosen(waiters, seen, true) == [] && Chosen(waiters, seen, false) == waiters
    decreases |waiters|
  {
    if waiters != [] { NobodyChosen(waiters[1..], seen[1..]); }
  }

  /** Clearing bits wakes nobody and changes nothing else. */
  lemma ClearOnlyClears(s: State, g: nat, removed: bv32)
    requires g < |s.bits|
    ensures ClearBits(s, g, removed) == Outcome(s.(bits := s.bits[g := Cleared(s.bits[g], removed)]), Done)
  {
    hide Cleared;
  }
}
