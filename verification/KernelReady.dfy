/** Tasks that become ready together: each goes to the back of its own level, in the
    order in which they are woken. */
module KernelReady {
  import opened KernelState

  /** Those of `who` whose priority is `p`, in order. */
  function AtLevel(s: State, who: seq<nat>, p: nat): (w: seq<nat>)
    decreases |who|
  {
    if who == [] then [] else (if s.Task(who[0]).eff == p then [who[0]] else []) + AtLevel(s, who[1..], p)
  }

  /** The tasks of `who` have been appended to the ready lists, and nothing else has
      entered or left one. */
  ghost predicate Gains(s: State, s': State, who: seq<nat>) {
    |s'.ready| == |s.ready| && forall p: nat :: s'.ReadyAt(p) == s.ReadyAt(p) + AtLevel(s', who, p)
  }

  lemma {:induction false} AtLevelAppend(s: State, a: seq<nat>, b: seq<nat>, p: nat)
    ensures AtLevel(s, a + b, p) == AtLevel(s, a, p) + AtLevel(s, b, p)
    decreases |a|
  {
    if a == [] {
      assert a + b == b;
    } else {
      AtLevelAppend(s, a[1..], b, p);
      assert (a + b)[1..] == a[1..] + b;
    }
  }

  lemma {:induction false} SameAtLevel(s: State, s': State, who: seq<nat>, p: nat)
    requires forall t :: t in who ==> s'.Task(t).eff == s.Task(t).eff
    ensures AtLevel(s', who, p) == AtLevel(s, who, p)
    decreases |who|
  {
    if who != [] {
      assert who[0] in who && forall t :: t in who[1..] ==> t in who;
      SameAtLevel(s, s', who[1..], p);
    }
  }

  lemma GainsNobody(s: State, s': State)
    requires s'.ready == s.ready
    ensures Gains(s, s', [])
  {
  }

  /** Waking some and then others wakes all of them, if the others do not change the
      priorities of the first. */
  lemma GainsTrans(s: State, s1: State, s': State, a: seq<nat>, b: seq<nat>)
    requires Gains(s, s1, a) && Gains(s1, s', b)
    requires forall t :: t in a ==> s'.Task(t).eff == s1.Task(t).eff
    ensures Gains(s, s', a + b)
  {
    hide AtLevel;
    forall p: nat
      ensures s'.ReadyAt(p) == s.ReadyAt(p) + AtLevel(s', a + b, p)
    {
      SameAtLevel(s1, s', a, p);
      AtLevelAppend(s', a, b, p);
    }
  }
}
