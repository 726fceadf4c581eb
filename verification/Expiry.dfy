/** What one call of `handle_tick` fires (`timeout.rs`, `timer.rs`): the runs of
    the expiry loop at a fixed event time, with callbacks that re-arm periodic
    timers relative to their own arrival time. */
module Expiry {
  import opened Num
  import opened Wrappers
  import opened TimeoutTime
  import opened TimeoutSpec

  /** The re-arming period of each timeout; a timeout outside the map is one-shot. */
  type Periods = map<nat, nat>

  datatype Fired = Fired(id: nat, at: int)

  /** The timeouts after `id` has fired. */
  ghost function Rearm(dl: map<nat, int>, periods: Periods, id: nat): (dl': map<nat, int>)
    requires id in dl
  {
    if id in periods then dl[id := dl[id] + periods[id]] else dl - {id}
  }

  /** `log` is a possible sequence of iterations of the expiry loop at `now`: each
      takes an earliest timeout that is due. Timeouts with equal arrival times may
      fire in any order. */
  ghost predicate Fires(dl: map<nat, int>, periods: Periods, now: int, log: seq<Fired>, dl': map<nat, int>)
    decreases |log|
  {
    if log == [] then dl' == dl
    else
      && IsEarliest(dl, log[0].id)
      && log[0].at == dl[log[0].id] <= now
      && Fires(Rearm(dl, periods, log[0].id), periods, now, log[1..], dl')
  }

  /** No timeout is due: the loop stops. */
  ghost predicate Quiescent(dl: map<nat, int>, now: int) {
    forall id :: id in dl ==> dl[id] > now
  }

  /** The number of times `id` occurs in the log. */
  ghost function Count(log: seq<Fired>, id: nat): (n: nat) {
    if log == [] then 0 else (if log[0].id == id then 1 else 0) + Count(log[1..], id)
  }

  /** The loop can be extended by one iteration at its end. */
  lemma {:induction false} FiresOneMore(dl: map<nat, int>, periods: Periods, now: int, log: seq<Fired>,
      mid: map<nat, int>, f: Fired)
    requires Fires(dl, periods, now, log, mid)
    requires IsEarliest(mid, f.id) && f.at == mid[f.id] <= now
    ensures Fires(dl, periods, now, log + [f], Rearm(mid, periods, f.id))
    decreases |log|
  {
    if log == [] {
      assert (log + [f])[1..] == [];
    } else {
      FiresOneMore(Rearm(dl, periods, log[0].id), periods, now, log[1..], mid, f);
      assert (log + [f])[1..] == log[1..] + [f];
    }
  }

  /** Nothing fires before its time, and timeouts fire in order of arrival time. */
  lemma {:induction false} FiresInOrder(dl: map<nat, int>, periods: Periods, now: int, log: seq<Fired>,
      dl': map<nat, int>)
    requires Fires(dl, periods, now, log, dl')
    ensures forall i :: 0 <= i < |log| ==> log[i].at <= now
    ensures forall i, j :: 0 <= i < j < |log| ==> log[i].at <= log[j].at
    decreases |log|
  {
    if log != [] {
      var rest := Rearm(dl, periods, log[0].id);
      FiresInOrder(rest, periods, now, log[1..], dl');
      if |log| > 1 {
        var next := log[1].id;
        assert IsEarliest(rest, next);
        assert dl[log[0].id] <= rest[next];
        assert log[1..][0] == log[1];
      }
      forall i | 0 < i < |log|
        ensures log[0].at <= log[i].at
      {
        assert log[i] == log[1..][i - 1];
      }
    }
  }

  /** After a run, a timeout that was linked has advanced by one period for each of
      its firings, its k-th firing was `k` periods after its first arrival time,
      whatever the latency, and a one-shot timeout fired at most once. */
  lemma {:induction false} FiresAtPeriods(dl: map<nat, int>, periods: Periods, now: int, log: seq<Fired>,
      dl': map<nat, int>, id: nat)
    requires Fires(dl, periods, now, log, dl')
    ensures id !in dl ==> Count(log, id) == 0 && id !in dl'
    ensures id in dl && id in periods ==>
              id in dl' && dl'[id] == dl[id] + Count(log, id) * periods[id]
    ensures id in dl && id !in periods ==>
              Count(log, id) <= 1 && (id in dl' <==> Count(log, id) == 0) && (id in dl' ==> dl'[id] == dl[id])
    ensures forall i :: 0 <= i < |log| && log[i].id == id ==>
              id in dl && log[i].at == dl[id] + Count(log[..i], id) * (if id in periods then periods[id] else 0)
    decreases |log|
  {
    if log != [] {
      var f := log[0];
      var rest := Rearm(dl, periods, f.id);
      FiresAtPeriods(rest, periods, now, log[1..], dl', id);
      var p := if id in periods then periods[id] else 0;
      if f.id == id { Expand(1, Count(log[1..], id), p); }
      forall i | 0 <= i < |log| && log[i].id == id
        ensures id in dl && log[i].at == dl[id] + Count(log[..i], id) * p
      {
        if i == 0 {
          assert log[..0] == [];
        } else {
          assert log[i] == log[1..][i - 1];
          assert log[..i][1..] == log[1..][..i - 1] && log[..i][0] == f;
          if f.id == id { Expand(1, Count(log[1..][..i - 1], id), p); }
        }
      }
    }
  }

  /** How often a timeout is due at `now`: a periodic one once for every period that
      has elapsed since its arrival time, and once for the arrival itself. */
  ghost function TimesDue(deadline: int, period: Option<nat>, now: int): (n: nat)
    requires period.Some? ==> period.value > 0
  {
    if deadline > now then 0
    else if period.None? then 1
    else
      FloorAdjoint(now - deadline, period.value, 0);
      (now - deadline) / period.value + 1
  }

  ghost function PeriodOf(periods: Periods, id: nat): (p: Option<nat>) {
    if id in periods then Some(periods[id]) else None
  }

  lemma LastDue(deadline: int, p: nat, now: int, n: nat)
    requires p > 0 && now < deadline + n * p
    requires n > 0 ==> deadline + (n - 1) * p <= now
    ensures n == TimesDue(deadline, Some(p), now)
  {
    FloorAdjoint(now - deadline, p, n);
    FloorAdjoint(now - deadline, p, (n as int) - 1);
    Expand(n, -1, p);
  }

  /** A completed call of `handle_tick` fires each timeout exactly as often as it is
      due, for every latency. */
  lemma FiresExactlyWhenDue(dl: map<nat, int>, periods: Periods, now: int, log: seq<Fired>, dl': map<nat, int>, id: nat)
    requires Fires(dl, periods, now, log, dl') && Quiescent(dl', now)
    requires id in dl && (id in periods ==> periods[id] > 0)
    ensures Count(log, id) == TimesDue(dl[id], PeriodOf(periods, id), now)
  {
    FiresAtPeriods(dl, periods, now, log, dl', id);
    if Count(log, id) > 0 {
      LastFiring(dl, periods, now, log, dl', id);
    }
    assert id in dl' ==> dl'[id] > now;
    if id in periods {
      hide Fires, Count, Quiescent, TimesDue;
      LastDue(dl[id], periods[id], now, Count(log, id));
    } else {
      hide Fires, Count, Quiescent;
    }
  }

  /** The last firing of a timeout was due. */
  lemma {:induction false} LastFiring(dl: map<nat, int>, periods: Periods, now: int, log: seq<Fired>,
      dl': map<nat, int>, id: nat)
    requires Fires(dl, periods, now, log, dl') && Count(log, id) > 0
    ensures id in dl
    ensures dl[id] + (Count(log, id) - 1) * (if id in periods then periods[id] else 0) <= now
    decreases |log|
  {
    var rest := Rearm(dl, periods, log[0].id);
    var p := if id in periods then periods[id] else 0;
    if log[0].id != id || Count(log[1..], id) > 0 {
      LastFiring(rest, periods, now, log[1..], dl', id);
      if log[0].id == id { Expand(1, Count(log[1..], id) - 1, p); }
    }
  }

  // ----- termination -----

  /** An upper bound on the remaining iterations, over the timeouts below `n`. */
  ghost function Work(dl: map<nat, int>, now: int, n: nat): (w: nat) {
    if n == 0 then 0
    else Work(dl, now, n - 1) + (if n - 1 in dl && dl[n - 1] <= now then now - dl[n - 1] + 1 else 0)
  }

  lemma {:induction false} WorkOfUnchanged(dl: map<nat, int>, dl': map<nat, int>, now: int, n: nat)
    requires forall j: nat :: j < n ==> (j in dl <==> j in dl') && (j in dl ==> dl[j] == dl'[j])
    ensures Work(dl, now, n) == Work(dl', now, n)
  {
    if n > 0 { WorkOfUnchanged(dl, dl', now, n - 1); }
  }

  /** Firing a due timeout whose period is positive leaves strictly less work. */
  lemma {:induction false} WorkDecreases(dl: map<nat, int>, periods: Periods, now: int, id: nat, n: nat)
    requires id in dl && dl[id] <= now && id < n
    requires id in periods ==> periods[id] > 0
    ensures Work(Rearm(dl, periods, id), now, n) < Work(dl, now, n)
  {
    if id == n - 1 {
      WorkOfUnchanged(dl, Rearm(dl, periods, id), now, n - 1);
    } else {
      WorkDecreases(dl, periods, now, id, n - 1);
    }
  }

  /** Every due periodic timeout has a positive period. */
  ghost predicate NoZeroPeriodDue(dl: map<nat, int>, periods: Periods, now: int) {
    forall id :: id in dl && dl[id] <= now && id in periods ==> periods[id] > 0
  }

  lemma {:induction false} CompleteRunExists(dl: map<nat, int>, periods: Periods, now: int, n: nat)
    requires NoZeroPeriodDue(dl, periods, now) && forall id :: id in dl ==> id < n
    ensures exists log, dl' :: Fires(dl, periods, now, log, dl') && Quiescent(dl', now)
    decreases Work(dl, now, n)
  {
    if Quiescent(dl, now) {
      assert Fires(dl, periods, now, [], dl);
    } else {
      EarliestExists(dl);
      var id :| IsEarliest(dl, id);
      var next := Rearm(dl, periods, id);
      WorkDecreases(dl, periods, now, id, n);
      CompleteRunExists(next, periods, now, n);
      var log, dl' :| Fires(next, periods, now, log, dl') && Quiescent(dl', now);
      assert ([Fired(id, dl[id])] + log)[1..] == log;
      assert Fires(dl, periods, now, [Fired(id, dl[id])] + log, dl');
    }
  }

  /** The expiry loop can complete if and only if no timer that is due has a zero
      period. A zero period is accepted by `set_period`; a due timer with one is
      re-armed at the same arrival time and stays due for ever. */
  lemma CompletesIffNoZeroPeriod(dl: map<nat, int>, periods: Periods, now: int, n: nat)
    requires forall id :: id in dl ==> id < n
    ensures (exists log, dl' :: Fires(dl, periods, now, log, dl') && Quiescent(dl', now))
       <==> NoZeroPeriodDue(dl, periods, now)
  {
    if NoZeroPeriodDue(dl, periods, now) {
      CompleteRunExists(dl, periods, now, n);
    } else {
      var id :| id in dl && dl[id] <= now && id in periods && periods[id] == 0;
      forall log, dl' | Fires(dl, periods, now, log, dl')
        ensures !Quiescent(dl', now)
      {
        FiresAtPeriods(dl, periods, now, log, dl', id);
        assert dl'[id] == dl[id];
      }
    }
  }

  /** Expiry keeps the clock's invariant. */
  lemma {:induction false} FiresKeepsInv(c: Clock, periods: Periods, log: seq<Fired>, dl': map<nat, int>)
    requires Inv(c) && Fires(c.deadlines, periods, c.time, log, dl')
    requires forall id :: id in periods ==> periods[id] <= DURATION_MAX
    ensures Inv(c.(deadlines := dl'))
    decreases |log|
  {
    if log != [] {
      var c1 := c.(deadlines := Rearm(c.deadlines, periods, log[0].id));
      FiresKeepsInv(c1, periods, log[1..], dl');
    }
  }

  // ----- the loop of `handle_tick` -----

  /** What holds between two iterations of the loop: `c` is the clock at the mark,
      `log` what has fired, `dl` the timeouts now linked, and `total` the ticks that
      may pass before the loop ends. */
  ghost predicate Expiring(c: Clock, periods: Periods, total: nat, log: seq<Fired>, dl: map<nat, int>) {
    && Fires(c.deadlines, periods, c.time, log, dl)
    && Inv(c.(deadlines := dl)) && NoZeroPeriodDue(dl, periods, c.time)
    && (forall id :: id in dl ==> c.time + total <= dl[id] + USER_HEADROOM + HARD_HEADROOM)
  }

  lemma StartsExpiring(p: Port, c: Clock, periods: Periods, total: nat)
    requires Inv(c) && c.mark == c.ticks && MayPass(p, c, total) && NoZeroPeriodDue(c.deadlines, periods, c.time)
    ensures Expiring(c, periods, total, [], c.deadlines)
    ensures total <= p.maxTickCount && Pass(c, 0) == c
  {
  }

  lemma ExpiringStep(c: Clock, periods: Periods, total: nat, log: seq<Fired>, dl: map<nat, int>, id: nat, n: nat)
    requires Expiring(c, periods, total, log, dl) && IsEarliest(dl, id) && dl[id] <= c.time && id < n
    requires forall id :: id in periods ==> periods[id] <= DURATION_MAX
    ensures Expiring(c, periods, total, log + [Fired(id, dl[id])], Rearm(dl, periods, id))
    ensures Work(Rearm(dl, periods, id), c.time, n) < Work(dl, c.time, n)
  {
    WorkDecreases(dl, periods, c.time, id, n);
    FiresOneMore(c.deadlines, periods, c.time, log, dl, Fired(id, dl[id]));
    hide Fires, Work;
  }

  /** The callback of the first timeout may still run after `elapsed` more ticks. */
  lemma MayExpire(p: Port, c: Clock, periods: Periods, total: nat, log: seq<Fired>, dl: map<nat, int>, id: nat,
      spent: nat, elapsed: nat)
    requires Expiring(c, periods, total, log, dl) && IsEarliest(dl, id) && dl[id] <= c.time
    requires c.mark == c.ticks && spent + elapsed <= total <= p.maxTickCount
    ensures var now := Pass(c.(deadlines := dl - {id}), spent);
            && id in dl && MayPass(p, now, elapsed) && c.time <= c.frontier
            && now.time + elapsed - USER_HEADROOM - HARD_HEADROOM <= dl[id] <= now.frontier
  {
  }

  lemma PassTwice(c: Clock, a: nat, b: nat, dl: map<nat, int>, dl': map<nat, int>)
    requires c.time <= c.frontier
    ensures Pass(c.(deadlines := dl), a).(deadlines := dl') == Pass(c.(deadlines := dl'), a)
    ensures Pass(Pass(c.(deadlines := dl), a), b).(deadlines := dl') == Pass(c.(deadlines := dl'), a + b)
  {
  }

  /** The total of a list of delays. */
  function Sum(delays: seq<nat>): (n: nat) {
    if delays == [] then 0 else delays[0] + Sum(delays[1..])
  }
}
