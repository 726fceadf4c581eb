/** The order of a wait queue (`wait.rs`): first come first served, or by effective
    priority and first come first served among equals. */
module WaitOrder {
  import opened Lists
  import opened KernelState

  /** When a waiting task was linked. */
  function Since(k: Task): (n: nat) {
    if k.wait.Some? then k.wait.value.since else 0
  }

  /** `a` is to be woken up before `b`. */
  predicate Ahead(order: QueueOrder, a: Task, b: Task) {
    if order.Fifo? then Since(a) < Since(b)
    else a.eff < b.eff || (a.eff == b.eff && Since(a) < Since(b))
  }

  function TaskOf(tasks: seq<Task>, t: nat): (k: Task) {
    At(tasks, t, IDLE_TASK)
  }

  ghost predicate Sorted(order: QueueOrder, tasks: seq<Task>, w: seq<nat>) {
    forall i, j :: 0 <= i < j < |w| ==> Ahead(order, TaskOf(tasks, w[i]), TaskOf(tasks, w[j]))
  }

  /** `find_insertion_position_by_task_priority`: scans from the back past all tasks
      of lower priority. */
  function Position(tasks: seq<Task>, w: seq<nat>, priority: nat): (k: nat)
    ensures k <= |w|
  {
    if w == [] then 0
    else if TaskOf(tasks, w[|w| - 1]).eff > priority then Position(tasks, w[..|w| - 1], priority)
    else |w|
  }

  function Place(order: QueueOrder, tasks: seq<Task>, w: seq<nat>, priority: nat): (k: nat)
    ensures k <= |w|
  {
    if order.Fifo? then |w| else Position(tasks, w, priority)
  }

  /** The position splits a sorted queue into the tasks of at least the given
      priority and those of lower priority. */
  lemma {:induction false} PositionSplits(tasks: seq<Task>, w: seq<nat>, priority: nat)
    requires Sorted(TaskPriority, tasks, w)
    ensures forall i :: 0 <= i < Position(tasks, w, priority) ==> TaskOf(tasks, w[i]).eff <= priority
    ensures forall i :: Position(tasks, w, priority) <= i < |w| ==> TaskOf(tasks, w[i]).eff > priority
  {
    if w != [] {
      var last := |w| - 1;
      if TaskOf(tasks, w[last]).eff > priority {
        PositionSplits(tasks, w[..last], priority);
      } else {
        forall i | 0 <= i < |w|
          ensures TaskOf(tasks, w[i]).eff <= priority
        {
          assert i < last ==> Ahead(TaskPriority, TaskOf(tasks, w[i]), TaskOf(tasks, w[last]));
        }
      }
    }
  }

  /** Linking a task that has just arrived keeps the queue sorted. */
  lemma InsertKeepsSorted(order: QueueOrder, tasks: seq<Task>, w: seq<nat>, t: nat)
    requires Sorted(order, tasks, w)
    requires forall x :: x in w ==> Since(TaskOf(tasks, x)) < Since(TaskOf(tasks, t))
    ensures Sorted(order, tasks, InsertAt(w, Place(order, tasks, w, TaskOf(tasks, t).eff), t))
  {
    var n := Place(order, tasks, w, TaskOf(tasks, t).eff);
    var r := InsertAt(w, n, t);
    if order.TaskPriority? { PositionSplits(tasks, w, TaskOf(tasks, t).eff); }
    hide Position;
    forall i, j | 0 <= i < j < |r|
      ensures Ahead(order, TaskOf(tasks, r[i]), TaskOf(tasks, r[j]))
    {
      assert r[i] == if i < n then w[i] else if i == n then t else w[i - 1];
      assert r[j] == if j < n then w[j] else if j == n then t else w[j - 1];
    }
  }

  /** `w'` is `w` with `t` linked behind every task of at least its priority and before
      every task of lower priority, or at the back of a first-come queue; the others
      keep their order. */
  ghost predicate LinkedBehind(order: QueueOrder, tasks: seq<Task>, w: seq<nat>, w': seq<nat>, t: nat) {
    exists n :: 0 <= n <= |w| && w' == w[..n] + [t] + w[n..] &&
      if order.Fifo? then n == |w|
      else
        && (forall i :: 0 <= i < n ==> TaskOf(tasks, w[i]).eff <= TaskOf(tasks, t).eff)
        && (forall i :: n <= i < |w| ==> TaskOf(tasks, w[i]).eff > TaskOf(tasks, t).eff)
  }

  lemma InsertLinksBehind(order: QueueOrder, tasks: seq<Task>, w: seq<nat>, t: nat)
    requires Sorted(order, tasks, w)
    ensures LinkedBehind(order, tasks, w, InsertAt(w, Place(order, tasks, w, TaskOf(tasks, t).eff), t), t)
  {
    var n := Place(order, tasks, w, TaskOf(tasks, t).eff);
    if order.TaskPriority? { PositionSplits(tasks, w, TaskOf(tasks, t).eff); }
    hide Position, Sorted;
    assert InsertAt(w, n, t) == w[..n] + [t] + w[n..];
  }

  lemma RemoveKeepsSorted(order: QueueOrder, tasks: seq<Task>, w: seq<nat>, t: nat)
    requires Sorted(order, tasks, w)
    ensures Sorted(order, tasks, Without(w, t))
  {
    hide Ahead, TaskOf;
    if t in w {
      var k := IndexOf(w, t);
      var r := w[..k] + w[k + 1..];
      forall i, j | 0 <= i < j < |r|
        ensures Ahead(order, TaskOf(tasks, r[i]), TaskOf(tasks, r[j]))
      {
        var i', j' := if i < k then i else i + 1, if j < k then j else j + 1;
        assert r[i] == w[i'] && r[j] == w[j'] && i' < j';
      }
    }
  }

  /** Raising the priority of the first task keeps the queue sorted. */
  lemma RaiseFirstKeepsSorted(order: QueueOrder, tasks: seq<Task>, w: seq<nat>, tasks': seq<Task>)
    requires Sorted(order, tasks, w) && w != [] && NoDup(w)
    requires TaskOf(tasks', w[0]).eff <= TaskOf(tasks, w[0]).eff
    requires TaskOf(tasks', w[0]).wait == TaskOf(tasks, w[0]).wait
    requires forall t :: t != w[0] ==> TaskOf(tasks', t) == TaskOf(tasks, t)
    ensures Sorted(order, tasks', w)
  {
    forall i, j | 0 <= i < j < |w|
      ensures Ahead(order, TaskOf(tasks', w[i]), TaskOf(tasks', w[j]))
    {
      assert Ahead(order, TaskOf(tasks, w[i]), TaskOf(tasks, w[j]));
    }
  }

  /** The order depends only on the priorities and arrivals of the queued tasks. */
  lemma SortedFrame(order: QueueOrder, tasks: seq<Task>, w: seq<nat>, tasks': seq<Task>)
    requires Sorted(order, tasks, w)
    requires forall t :: t in w ==>
             (order.Fifo? || TaskOf(tasks', t).eff == TaskOf(tasks, t).eff)
             && Since(TaskOf(tasks', t)) == Since(TaskOf(tasks, t))
    ensures Sorted(order, tasks', w)
  {
  }

  /** There is only one sorted arrangement of a set of waiting tasks, so being sorted
      fixes the whole queue. */
  lemma {:induction false} SortedIsUnique(order: QueueOrder, tasks: seq<Task>, v: seq<nat>, w: seq<nat>)
    requires Sorted(order, tasks, v) && Sorted(order, tasks, w)
    requires NoDup(v) && NoDup(w) && forall t :: t in v <==> t in w
    ensures v == w
    decreases |v|
  {
    assert |v| > 0 ==> v[0] in w;
    assert |w| > 0 ==> w[0] in v;
    if |v| > 0 && |w| > 0 {
      assert v[0] == w[0] by {
        assert v[0] in w && w[0] in v;
        var i :| 0 <= i < |w| && w[i] == v[0];
        var j :| 0 <= j < |v| && v[j] == w[0];
      }
      TailFacts(v);
      TailFacts(w);
      SortedIsUnique(order, tasks, v[1..], w[1..]);
    }
  }
}
