/** Control blocks as the kernel stores them, with the list of held mutexes threaded
    through the mutexes (`last_mutex_held`, `prev_mutex_held`). */
module KernelCb {
  import opened Wrappers
  import opened KernelState

  /** A wait object. */
  datatype WaitCb = WaitCb(queue: Option<nat>, payload: Payload)

  datatype TaskCb = TaskCb(
    st: TaskSt,
    basePriority: nat,
    effectivePriority: nat,
    lastMutexHeld: Option<nat>,
    parkToken: bool,
    currentWait: Option<WaitCb>,
    waitResult: WaitResult,
    origBits: bv32,
    call: Call,
    timer: bool)

  datatype MutexNode = MutexNode(owningTask: Option<nat>, inconsistent: bool, prevMutexHeld: Option<nat>)

  function Head(held: seq<nat>): (m: Option<nat>) {
    if held == [] then None else Some(held[0])
  }

  /** Following the links from the first mutex of `held` visits `held`, and ends. */
  ghost predicate Chain(nodes: seq<MutexNode>, held: seq<nat>) {
    forall i :: 0 <= i < |held| ==> held[i] < |nodes| && nodes[held[i]].prevMutexHeld == Head(held[i + 1..])
  }

  function WaitOf(w: Option<Wait>): (c: Option<WaitCb>) {
    if w.Some? then Some(WaitCb(w.value.queue, w.value.payload)) else None
  }

  /** The control block of a task. */
  function CbOf(k: Task): (c: TaskCb) {
    TaskCb(k.st, k.base, k.eff, Head(k.held), k.parkToken, WaitOf(k.wait), k.result, k.origBits, k.call, k.timer)
  }

  ghost predicate TasksRep(tasks: seq<TaskCb>, s: State) {
    |tasks| == |s.tasks| && forall t :: 0 <= t < |tasks| ==> tasks[t] == CbOf(s.tasks[t])
  }

  ghost predicate ChainsRep(nodes: seq<MutexNode>, s: State) {
    forall t :: 0 <= t < |s.tasks| ==> Chain(nodes, s.tasks[t].held)
  }

  ghost predicate MutexesRep(nodes: seq<MutexNode>, s: State) {
    && |nodes| == |s.mutexes|
    && forall m :: 0 <= m < |nodes| ==> s.mutexes[m] == MutexCb(nodes[m].owningTask, nodes[m].inconsistent)
  }

  ghost predicate BitmapRep(bitmap: seq<bool>, ready: seq<seq<nat>>) {
    |bitmap| == |ready| && forall p :: 0 <= p < |bitmap| ==> (bitmap[p] <==> ready[p] != [])
  }

  /** The tail of a chain is a chain. */
  lemma ChainTail(nodes: seq<MutexNode>, held: seq<nat>)
    requires Chain(nodes, held) && held != []
    ensures Chain(nodes, held[1..]) && held[0] < |nodes| && nodes[held[0]].prevMutexHeld == Head(held[1..])
  {
    forall i | 0 <= i < |held[1..]|
      ensures held[1..][i] < |nodes| && nodes[held[1..][i]].prevMutexHeld == Head(held[1..][i + 1..])
    {
      assert held[1..][i] == held[i + 1] && held[1..][i + 1..] == held[i + 2..];
    }
  }

  /** Pushing a mutex that is in no chain. */
  lemma ChainPush(nodes: seq<MutexNode>, m: nat, held: seq<nat>, node: MutexNode)
    requires Chain(nodes, held) && m < |nodes| && m !in held && node.prevMutexHeld == Head(held)
    ensures Chain(nodes[m := node], [m] + held) && Chain(nodes[m := node], held)
  {
    ChainFrame(nodes, m, held, node);
    var c := [m] + held;
    forall i | 0 <= i < |c|
      ensures c[i] < |nodes| && nodes[m := node][c[i]].prevMutexHeld == Head(c[i + 1..])
    {
      assert c[i + 1..] == held[i..];
      if i > 0 { assert c[i] == held[i - 1]; }
    }
  }

  /** A chain does not depend on other mutexes, or on the owner fields. */
  lemma ChainFrame(nodes: seq<MutexNode>, m: nat, held: seq<nat>, node: MutexNode)
    requires Chain(nodes, held) && m < |nodes| && (m in held ==> node.prevMutexHeld == nodes[m].prevMutexHeld)
    ensures Chain(nodes[m := node], held)
  {
  }
}
