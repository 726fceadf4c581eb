/** Whole runs of the event clock (`timeout.rs`): time passes, timer interrupts come at
    most the hard headroom late, and everything else may happen in between. */
module TimeoutRuns {
  import opened Words
  import opened TimeoutTime
  import opened TimeoutSpec
  import opened Expiry

  /** The clock, and the tick at which the port is to call `timer_tick`. */
  datatype Watch = Watch(clock: Clock, owed: nat)

  /** The kernel asks the port for a tick, in the state `c`. A tick that is wanted at
      once does not put off one that has not come yet; a later one replaces it. */
  ghost function Ask(p: Port, owed: nat, c: Clock): (owed': nat) {
    var delay := PendDelay(p, c.deadlines, c.time);
    if delay == 0 && owed <= c.ticks then owed else c.ticks + delay
  }

  datatype Event =
    | EPass(n: nat)
    | EAdjust(delta: Duration)
    | EInsert(id: nat, duration: nat)
    | ERemove(id: nat)
    | ESetTime(sys: nat)
    | ETick(periods: Periods, log: seq<Fired>, after: map<nat, int>, spent: nat)

  /** What the environment and the callers guarantee. While time passes, the ticks since
      the last mark stay countable, and the port's call is at most the hard headroom
      late. `ETick` is one `handle_tick`: its expiries, and the `spent` ticks its
      callbacks take, count as lateness. Every duration a caller can pass is at most
      `DURATION_MAX`; the delay stored by stopping a timer may be longer, by at most
      the user headroom. */
  ghost predicate Enabled(p: Port, w: Watch, e: Event) {
    var c := w.clock;
    match e
    case EPass(n) => c.ticks + n - c.mark <= p.maxTickCount && c.ticks + n <= w.owed + HARD_HEADROOM
    case EAdjust(_) => true
    case EInsert(id, duration) => id !in c.deadlines && duration <= DURATION_MAX + USER_HEADROOM
    case ERemove(_) => true
    case ESetTime(_) => true
    case ETick(periods, log, after, spent) =>
      && Fires(c.deadlines, periods, c.time, log, after) && Quiescent(after, c.time)
      && (forall id :: id in periods ==> periods[id] <= DURATION_MAX)
      && spent <= p.maxTickCount && spent <= HARD_HEADROOM && c.ticks + spent <= w.owed + HARD_HEADROOM
  }

  /** The clock after a `handle_tick`. */
  ghost function Ticked(p: Port, c: Clock, after: map<nat, int>, spent: nat): (c': Clock) {
    Pass(c.(deadlines := after, mark := c.ticks), spent).(due := c.ticks + spent + PendDelay(p, after, c.time))
  }

  /** The timeout `id` is linked, to arrive `duration` from now. */
  ghost function Inserted(p: Port, w: Watch, id: nat, duration: nat): (w': Watch) {
    var c' := Insert(p, w.clock, id, w.clock.time + duration);
    Watch(c', Ask(p, w.owed, c'))
  }

  /** The timeout `id` is unlinked, if it is linked. */
  ghost function Removed(p: Port, w: Watch, id: nat): (w': Watch) {
    var c' := Remove(p, w.clock, id);
    Watch(c', if id in w.clock.deadlines then Ask(p, w.owed, c') else w.owed)
  }

  ghost function Take(p: Port, w: Watch, e: Event): (w': Watch)
    requires Enabled(p, w, e)
  {
    var c := w.clock;
    match e
    case EPass(n) => Watch(Pass(c, n), w.owed)
    case EAdjust(delta) =>
      var c' := Adjust(p, c, delta);
      Watch(c', if delta != 0 && Adjustable(c, delta) then Ask(p, w.owed, c') else w.owed)
    case EInsert(id, duration) => Inserted(p, w, id, duration)
    case ERemove(id) => Removed(p, w, id)
    case ESetTime(sys) => Watch(SetSystemTime(c, sys), w.owed)
    case ETick(_, _, after, spent) => Watch(Ticked(p, c, after, spent), c.ticks + PendDelay(p, after, c.time))
  }

  /** A timeout is linked no further ahead than the longest duration after the
      frontier. */
  ghost predicate Within(c: Clock, e: Event) {
    e.EInsert? ==> c.time + e.duration <= c.frontier + DURATION_MAX
  }

  // ----- punctual interrupts keep every timeout before the critical point -----

  /** How late the port's call is by now. */
  ghost function Lateness(w: Watch): (n: nat) {
    Positive(w.clock.ticks - w.owed)
  }

  /** The port owes a tick no later than the earliest timeout arrives, and nothing is
      overdue by more than the user headroom and the lateness of that tick. */
  ghost predicate Prompt(w: Watch) {
    && (forall id :: id in w.clock.deadlines ==>
          w.clock.time - w.clock.deadlines[id] <= USER_HEADROOM + Lateness(w))
    && (forall id :: id in w.clock.deadlines ==>
          w.owed <= w.clock.ticks + Positive(w.clock.deadlines[id] - w.clock.time))
  }

  lemma PassKeepsPrompt(w: Watch, n: nat)
    requires Prompt(w)
    ensures Prompt(Watch(Pass(w.clock, n), w.owed))
  {
  }

  /** Asking for a tick keeps the port prompt if nothing new is overdue by more than the
      user headroom. */
  lemma AskKeepsPrompt(p: Port, w: Watch, c: Clock)
    requires c.ticks == w.clock.ticks
    requires forall id :: id in c.deadlines ==>
               c.time - c.deadlines[id] <= USER_HEADROOM + if w.owed <= c.ticks then c.ticks - w.owed else 0
    ensures Prompt(Watch(c, Ask(p, w.owed, c)))
  {
    if c.deadlines != map[] {
      var earliest := Earliest(c.deadlines);
      var id :| IsEarliest(c.deadlines, id) && c.deadlines[id] == earliest;
    }
  }

  lemma TakeKeepsPrompt(p: Port, w: Watch, e: Event)
    requires Inv(w.clock) && Prompt(w) && Enabled(p, w, e)
    ensures Prompt(Take(p, w, e))
  {
    hide Prompt, Fires, Quiescent, Adjust, Inv;
    var c := w.clock;
    match e
    case EPass(n) => PassKeepsPrompt(w, n);
    case EAdjust(delta) => AdjustKeepsPrompt(p, w, delta);
    case EInsert(id, duration) => InsertKeepsPrompt(p, w, id, duration);
    case ERemove(id) => RemoveKeepsPrompt(p, w, id);
    case ESetTime(sys) => SetTimeKeepsPrompt(w, sys);
    case ETick(_, _, after, spent) =>
      TickedIsPrompt(p, c, after);
      PassKeepsPrompt(Watch(c.(deadlines := after, mark := c.ticks), c.ticks + PendDelay(p, after, c.time)), spent);
      DueIsNoMatter(Watch(Pass(c.(deadlines := after, mark := c.ticks), spent), c.ticks + PendDelay(p, after, c.time)),
        c.ticks + spent + PendDelay(p, after, c.time));
  }

  lemma DueIsNoMatter(w: Watch, due: nat)
    ensures Prompt(w.(clock := w.clock.(due := due))) == Prompt(w)
  {
  }

  /** A completed `handle_tick` leaves nothing due, and asks for a tick in time for what
      is left. */
  lemma TickedIsPrompt(p: Port, c: Clock, after: map<nat, int>)
    requires Quiescent(after, c.time)
    ensures Prompt(Watch(c.(deadlines := after, mark := c.ticks), c.ticks + PendDelay(p, after, c.time)))
  {
    if after != map[] {
      var earliest := Earliest(after);
      var id :| IsEarliest(after, id) && after[id] == earliest;
    }
  }

  lemma InsertKeepsPrompt(p: Port, w: Watch, id: nat, duration: nat)
    requires Prompt(w)
    ensures Prompt(Inserted(p, w, id, duration))
  {
    AskKeepsPrompt(p, w, Insert(p, w.clock, id, w.clock.time + duration));
  }

  lemma RemoveKeepsPrompt(p: Port, w: Watch, id: nat)
    requires Prompt(w)
    ensures Prompt(Removed(p, w, id))
  {
    AskKeepsPrompt(p, w, Remove(p, w.clock, id));
  }

  lemma SetTimeKeepsPrompt(w: Watch, sys: nat)
    requires Prompt(w)
    ensures Prompt(Watch(SetSystemTime(w.clock, sys), w.owed))
  {
  }

  /** A forward adjustment is accepted only if it leaves nothing overdue by more than the
      user headroom. */
  lemma AdjustKeepsPrompt(p: Port, w: Watch, delta: Duration)
    requires Inv(w.clock) && Prompt(w)
    ensures Prompt(Take(p, w, EAdjust(delta)))
  {
    var c := w.clock;
    if delta != 0 && Adjustable(c, delta) {
      AdjustKeepsInv(p, c, delta);
      AskKeepsPrompt(p, w, Adjust(p, c, delta));
    }
  }

  lemma TakeKeepsInv(p: Port, w: Watch, e: Event)
    requires Inv(w.clock) && Prompt(w) && Enabled(p, w, e) && Within(w.clock, e)
    ensures Inv(Take(p, w, e).clock)
  {
    TakeKeepsPrompt(p, w, e);
    match e
    case EAdjust(delta) => AdjustKeepsInv(p, w.clock, delta);
    case ETick(periods, log, after, spent) => FiresKeepsInv(w.clock, periods, log, after);
    case _ =>
  }

  /** The passing of time that punctual interrupts permit leaves no timeout past the
      critical point, between ticks and inside `handle_tick`. */
  lemma PunctualMayPass(p: Port, w: Watch, e: Event)
    requires Prompt(w) && Enabled(p, w, e)
    ensures e.EPass? ==> MayPass(p, w.clock, e.n)
    ensures e.ETick? ==> MayPass(p, w.clock.(mark := w.clock.ticks), e.spent)
  {
  }

  // ----- runs -----

  ghost predicate RunEnabled(p: Port, w: Watch, events: seq<Event>)
    decreases |events|
  {
    events == [] || (Enabled(p, w, events[0]) && RunEnabled(p, Take(p, w, events[0]), events[1..]))
  }

  ghost function Run(p: Port, w: Watch, events: seq<Event>): (w': Watch)
    requires RunEnabled(p, w, events)
    decreases |events|
  {
    if events == [] then w else Run(p, Take(p, w, events[0]), events[1..])
  }

  ghost predicate AllWithin(p: Port, w: Watch, events: seq<Event>)
    requires RunEnabled(p, w, events)
    decreases |events|
  {
    events == [] || (Within(w.clock, events[0]) && AllWithin(p, Take(p, w, events[0]), events[1..]))
  }

  /** The greatest event time seen in a run. */
  ghost function Greatest(p: Port, w: Watch, events: seq<Event>): (t: int)
    requires RunEnabled(p, w, events)
    decreases |events|
  {
    if events == [] then w.clock.time
    else
      var rest := Greatest(p, Take(p, w, events[0]), events[1..]);
      if rest > w.clock.time then rest else w.clock.time
  }

  /** How far an event moves event time: by the ticks that pass, and by an adjustment
      that is accepted. */
  ghost function Move(c: Clock, e: Event): (d: int) {
    match e
    case EPass(n) => n
    case EAdjust(delta) => if Adjustable(c, delta) then delta else 0
    case ETick(_, _, _, spent) => spent
    case _ => 0
  }

  ghost function Advance(p: Port, w: Watch, events: seq<Event>): (d: int)
    requires RunEnabled(p, w, events)
    decreases |events|
  {
    if events == [] then 0 else Move(w.clock, events[0]) + Advance(p, Take(p, w, events[0]), events[1..])
  }

  lemma TakeEffect(p: Port, w: Watch, e: Event)
    requires Inv(w.clock) && Enabled(p, w, e)
    ensures var c, c' := w.clock, Take(p, w, e).clock;
            && c'.frontier == (if c'.time > c.frontier then c'.time else c.frontier)
            && c'.time == c.time + Move(c, e)
            && (!e.ESetTime? ==> c'.sys - c'.time == c.sys - c.time)
  {
  }

  /** What an event links and unlinks, and what it says about the time that is set: an
      insertion arrives its duration from now, and only a tick or an adjustment marks one. */
  lemma TakeChanges(p: Port, w: Watch, e: Event)
    requires Enabled(p, w, e)
    ensures var c, c' := w.clock, Take(p, w, e).clock;
            && (e.EInsert? ==> c'.deadlines == c.deadlines[e.id := c.time + e.duration])
            && (e.ERemove? ==> c'.deadlines == c.deadlines - {e.id})
            && (e.ETick? ==> c'.deadlines == e.after)
            && (e.EPass? || e.EAdjust? || e.ESetTime? ==> c'.deadlines == c.deadlines)
            && (e.ESetTime? ==> c'.sys == e.sys && c'.time == c.time)
            && c'.ticks == c.ticks + (if e.EPass? then e.n else if e.ETick? then e.spent else 0)
            && c'.mark == (if e.EAdjust? || e.ETick? then c.ticks else c.mark)
  {
    hide PendDelay, Adjustable, Fires, Quiescent;
    if e.ERemove? && e.id !in w.clock.deadlines { assert w.clock.deadlines - {e.id} == w.clock.deadlines; }
  }

  // ----- the ticks that are asked for -----

  /** The event makes the kernel ask the port for a tick. */
  ghost predicate Requests(c: Clock, e: Event) {
    match e
    case EAdjust(delta) => delta != 0 && Adjustable(c, delta)
    case EInsert(_, _) => true
    case ERemove(id) => id in c.deadlines
    case ETick(_, _, _, _) => true
    case _ => false
  }

  /** An event that asks for a tick asks for the one the kernel needs, as seen from the
      new time, or, in `handle_tick`, from the time of its mark; the port then owes it,
      unless one that is wanted at once is still outstanding. The other events ask for
      nothing. */
  lemma TakeAsks(p: Port, w: Watch, e: Event)
    requires Enabled(p, w, e)
    ensures var c, w' := w.clock, Take(p, w, e);
            var c' := w'.clock;
            if Requests(c, e) then
              var delay := c'.due - c'.ticks;
              && delay >= 0 && WantsTick(p, c'.deadlines, if e.ETick? then c.time else c'.time, delay)
              && w'.owed == (if e.ETick? then c.ticks + delay
                             else if delay == 0 && w.owed <= c.ticks then w.owed
                             else c.ticks + delay)
            else c'.due == c.due && w'.owed == w.owed
  {
    hide WantsTick, PendDelay, Adjustable, Fires, Quiescent, Ask, Pend;
    var c := w.clock;
    match e
    case EAdjust(delta) =>
      if Requests(c, e) { PendAsks(p, w.owed, Shift(c.(mark := c.ticks), delta)); }
    case EInsert(id, duration) =>
      PendAsks(p, w.owed, c.(deadlines := c.deadlines[id := c.time + duration]));
    case ERemove(id) =>
      if id in c.deadlines { PendAsks(p, w.owed, c.(deadlines := c.deadlines - {id})); }
    case ETick(_, _, after, _) =>
      PendDelayIsWanted(p, after, c.time, PendDelay(p, after, c.time));
    case _ =>
  }

  lemma PendAsks(p: Port, owed: nat, c: Clock)
    ensures var c' := Pend(p, c);
            var delay := c'.due - c'.ticks;
            && c' == c.(due := c'.due) && delay >= 0 && WantsTick(p, c.deadlines, c.time, delay)
            && Ask(p, owed, c') == if delay == 0 && owed <= c.ticks then owed else c.ticks + delay
  {
    PendDelayIsWanted(p, c.deadlines, c.time, PendDelay(p, c.deadlines, c.time));
    hide WantsTick, PendDelay;
  }

  /** In every run the owed tick is never further away than the port's longest timeout. */
  lemma {:induction false} OwedInTime(p: Port, w: Watch, events: seq<Event>)
    requires w.owed <= w.clock.ticks + p.maxTimeout && RunEnabled(p, w, events)
    ensures Run(p, w, events).owed <= Run(p, w, events).clock.ticks + p.maxTimeout
    decreases |events|
  {
    if events != [] {
      TakeAsks(p, w, events[0]);
      TakeChanges(p, w, events[0]);
      hide Take, Enabled, WantsTick;
      OwedInTime(p, Take(p, w, events[0]), events[1..]);
    }
  }

  /** Once the system time has been set, it advances with event time, by ticks and accepted
      adjustments, until it is set again. */
  lemma SetTimeIsKept(p: Port, w: Watch, sys: nat, events: seq<Event>)
    requires Inv(w.clock) && Prompt(w)
    requires var w' := Take(p, w, ESetTime(sys)); RunEnabled(p, w', events) && AllWithin(p, w', events)
    requires forall i :: 0 <= i < |events| ==> !events[i].ESetTime?
    ensures var w' := Take(p, w, ESetTime(sys));
            Run(p, w', events).clock.sys == sys + Advance(p, w', events)
  {
    var w' := Take(p, w, ESetTime(sys));
    TakeKeepsPrompt(p, w, ESetTime(sys));
    EveryRun(p, w', events);
  }

  /** In every state reached while interrupts are at most the hard headroom late and
      timeouts are linked within the frontier: the invariant holds, so no timeout has
      passed the critical point and the wrapping comparator is the order of unbounded
      arrival times; the frontier is the greatest event time ever reached; event time
      is ticks plus accepted adjustments; and unless the system time was set, its
      offset from event time has not changed. */
  lemma {:induction false} EveryRun(p: Port, w: Watch, events: seq<Event>)
    requires Inv(w.clock) && Prompt(w) && RunEnabled(p, w, events) && AllWithin(p, w, events)
    ensures var c, c' := w.clock, Run(p, w, events).clock;
            && Inv(c') && Prompt(Run(p, w, events))
            && c'.frontier == (if Greatest(p, w, events) > c.frontier then Greatest(p, w, events) else c.frontier)
            && c'.time == c.time + Advance(p, w, events)
            && ((forall i :: 0 <= i < |events| ==> !events[i].ESetTime?) ==> c'.sys - c'.time == c.sys - c.time)
    ensures OrderedByComparator(Run(p, w, events).clock)
    decreases |events|
  {
    if events == [] {
      InvOrders(w.clock);
    } else {
      TakeKeepsPrompt(p, w, events[0]);
      TakeKeepsInv(p, w, events[0]);
      TakeEffect(p, w, events[0]);
      EveryRun(p, Take(p, w, events[0]), events[1..]);
    }
  }

  /** The comparator of the timeout heap orders the linked timeouts by arrival time. */
  ghost predicate OrderedByComparator(c: Clock) {
    forall i, j :: i in c.deadlines && j in c.deadlines ==>
      (Before(Wrap32(c.deadlines[i]), Wrap32(c.deadlines[j]), CriticalPoint(Wrap32(c.time)))
       <==> c.deadlines[i] < c.deadlines[j])
  }

  lemma InvOrders(c: Clock)
    requires Inv(c)
    ensures OrderedByComparator(c)
  {
    forall i, j | i in c.deadlines && j in c.deadlines
      ensures Before(Wrap32(c.deadlines[i]), Wrap32(c.deadlines[j]), CriticalPoint(Wrap32(c.time)))
         <==> c.deadlines[i] < c.deadlines[j]
    {
      BeforeIsTrueOrder(c.deadlines[i], c.deadlines[j], c.time);
    }
  }

  /** At boot the port owes the tick that `init` asks for. */
  lemma BootIsPrompt(p: Port, reading: nat)
    ensures var c := Clock(0, 0, 0, map[], reading, reading, reading + p.maxTimeout);
            Inv(c) && Prompt(Watch(c, c.due))
  {
  }

  // ----- the hard headroom is the longest lateness -----

  /** The hard headroom cannot be exceeded by a single tick: from every state without
      timeouts in which no call is late, a timeout that arrives at once and a forward
      adjustment by the user headroom lead to one from which the permitted lateness
      just does not take the timeout past the critical point, and one tick more does. */
  lemma LatenessIsTight(p: Port, w: Watch)
    requires Inv(w.clock) && w.clock.deadlines == map[] && w.clock.ticks <= w.owed
    ensures var w1 := Take(p, w, EInsert(0, 0));
            Enabled(p, w1, EAdjust(USER_HEADROOM)) && Adjustable(w1.clock, USER_HEADROOM) &&
            var w2 := Take(p, w1, EAdjust(USER_HEADROOM));
            && 0 in w2.clock.deadlines && w2.owed == w2.clock.ticks
            && InWindow(w2.clock.deadlines[0], Pass(w2.clock, HARD_HEADROOM).time)
            && !InWindow(w2.clock.deadlines[0], Pass(w2.clock, HARD_HEADROOM + 1).time)
  {
    var c1 := Insert(p, w.clock, 0, w.clock.time);
    assert IsEarliest(c1.deadlines, 0);
  }

  // ----- timeouts that are linked too far ahead -----

  /** At every point of a run, every timeout stays readable. */
  ghost predicate AlwaysReadable(p: Port, w: Watch, events: seq<Event>)
    requires RunEnabled(p, w, events)
    decreases |events|
  {
    && (forall id :: id in w.clock.deadlines ==> StaysReadable(p, w.clock, id))
    && (events != [] ==> AlwaysReadable(p, Take(p, w, events[0]), events[1..]))
  }

  /** The kernel sees the true time left throughout a run, whatever backward adjustment
      comes next, if and only if no timeout is ever linked further ahead than the
      longest duration after the frontier. */
  lemma {:induction false} AlwaysReadableIff(p: Port, w: Watch, events: seq<Event>)
    requires Inv(w.clock) && Prompt(w) && RunEnabled(p, w, events)
    ensures AlwaysReadable(p, w, events) <==> AllWithin(p, w, events)
    decreases |events|
  {
    hide StaysReadable, Prompt;
    forall id | id in w.clock.deadlines ensures StaysReadable(p, w.clock, id) {
      StaysReadableIff(p, w.clock, id);
    }
    if events != [] {
      var e := events[0];
      var w1 := Take(p, w, e);
      if Within(w.clock, e) {
        TakeKeepsPrompt(p, w, e);
        TakeKeepsInv(p, w, e);
        AlwaysReadableIff(p, w1, events[1..]);
      } else {
        StaysReadableIff(p, w1.clock, e.id);
        assert e.id in w1.clock.deadlines && !StaysReadable(p, w1.clock, e.id);
      }
    }
  }
}
