/** The state of the scheduler and of the objects tasks can wait for (`TaskCb`,
    `MutexCb`, `SemaphoreCb`, `EventGroupCb`, `WaitQueue` and the ready queue), with
    identifiers for references. */
module KernelState {
  import opened Wrappers

  datatype TaskSt = Dormant | Ready | Running | Waiting

  /** `wait_result`. */
  datatype WaitResult = WaitOk | WasInterrupted | TimedOut

  /** `WaitPayload`. */
  datatype Payload =
    | EventBits(bits: bv32, all: bool, clear: bool)
    | Semaphore
    | Mutex(m: nat)
    | Park
    | Sleep

  /** A wait object: the queue it is linked in, what it waits for, and when it was
      linked (a counter kept only to say what first-come order is). */
  datatype Wait = Wait(queue: Option<nat>, payload: Payload, since: nat)

  /** The blocking call a task is inside of, from the block until it returns. */
  datatype Call = NoCall | Inside(payload: Payload, timed: bool)

  /** A task control block. `held` lists the mutexes reached from `last_mutex_held`,
      the latest first; `timer` says whether the timeout object of a timed wait is
      registered. A lower number is a higher priority. */
  datatype Task = Task(
    st: TaskSt,
    base: nat,
    eff: nat,
    held: seq<nat>,
    parkToken: bool,
    wait: Option<Wait>,
    result: WaitResult,
    origBits: bv32,
    call: Call,
    timer: bool)

  datatype QueueOrder = Fifo | TaskPriority

  datatype MutexCb = MutexCb(owner: Option<nat>, inconsistent: bool)

  /** The static configuration: initial priorities, ceilings, semaphores and initial
      bits of event groups. Wait queues are numbered: first those of the mutexes, then
      those of the semaphores, then those of the event groups. */
  datatype Config = Config(
    priorities: nat,
    initial: seq<nat>,
    ceilings: seq<Option<nat>>,
    maxValues: seq<nat>,
    order: seq<QueueOrder>,
    values: seq<nat>,
    bits: seq<bv32>)
  {
    function Queues(): (n: nat) { |ceilings| + |maxValues| + |bits| }
    function SemQueue(i: nat): (q: nat) { |ceilings| + i }
    function GroupQueue(g: nat): (q: nat) { |ceilings| + |maxValues| + g }

    /** What the configuration phase guarantees. */
    ghost predicate Valid() {
      && |order| == Queues() && |values| == |maxValues|
      && (forall t :: 0 <= t < |initial| ==> initial[t] < priorities)
      && (forall m :: 0 <= m < |ceilings| ==> order[m].TaskPriority?)
      && (forall i :: 0 <= i < |values| ==> values[i] <= maxValues[i])
    }

    function Ceiling(m: nat): (c: Option<nat>) { At(ceilings, m, None) }
    function Order(q: nat): (o: QueueOrder) { At(order, q, Fifo) }
  }

  const IDLE_TASK: Task := Task(Dormant, 0, 0, [], false, None, WaitOk, 0, NoCall, false)

  const FREE: MutexCb := MutexCb(None, false)

  function At<T>(s: seq<T>, i: nat, default: T): (x: T) {
    if i < |s| then s[i] else default
  }

  function Put<T>(s: seq<T>, i: nat, x: T): (r: seq<T>)
    ensures |r| == |s|
  {
    if i < |s| then s[i := x] else s
  }

  datatype State = State(
    cfg: Config,
    tasks: seq<Task>,
    mutexes: seq<MutexCb>,
    values: seq<nat>,
    bits: seq<bv32>,
    queues: seq<seq<nat>>,
    ready: seq<seq<nat>>,
    running: Option<nat>,
    boost: bool,
    pending: bool,
    clock: nat)
  {
    function Task(t: nat): (k: Task) { At(tasks, t, IDLE_TASK) }
    function Mutex(m: nat): (x: MutexCb) { At(mutexes, m, FREE) }
    function Value(i: nat): (v: nat) { At(values, i, 0) }
    function Bits(g: nat): (b: bv32) { At(bits, g, 0) }
    function Queue(q: nat): (w: seq<nat>) { At(queues, q, []) }
    function ReadyAt(p: nat): (w: seq<nat>) { At(ready, p, []) }

    function WithTask(t: nat, k: Task): (s: State) { this.(tasks := Put(tasks, t, k)) }
    function WithMutex(m: nat, x: MutexCb): (s: State) { this.(mutexes := Put(mutexes, m, x)) }
    function WithValue(i: nat, v: nat): (s: State) { this.(values := Put(values, i, v)) }
    function WithBits(g: nat, b: bv32): (s: State) { this.(bits := Put(bits, g, b)) }
    function WithQueue(q: nat, w: seq<nat>): (s: State) { this.(queues := Put(queues, q, w)) }
    function WithReady(p: nat, w: seq<nat>): (s: State) { this.(ready := Put(ready, p, w)) }
  }

  // ----- priorities -----

  function Lower(a: nat, ceiling: Option<nat>): (p: nat) {
    if ceiling.Some? && ceiling.value < a then ceiling.value else a
  }

  /** The least of a base priority and the ceilings of the held mutexes. */
  function EffectivePriority(cfg: Config, base: nat, held: seq<nat>): (p: nat)
  {
    if held == [] then base else Lower(EffectivePriority(cfg, base, held[1..]), cfg.Ceiling(held[0]))
  }

  /** A mutex does not admit a base priority above its ceiling. */
  predicate Admits(cfg: Config, m: nat, base: nat) {
    cfg.Ceiling(m).Some? ==> cfg.Ceiling(m).value <= base
  }

  lemma {:induction false} EffectiveAtMostBase(cfg: Config, base: nat, held: seq<nat>)
    ensures EffectivePriority(cfg, base, held) <= base
  {
    if held != [] { EffectiveAtMostBase(cfg, base, held[1..]); }
  }

  /** The effective priority is the least of the base priority and the ceilings. */
  lemma {:induction false} EffectiveIsLeast(cfg: Config, base: nat, held: seq<nat>, p: nat)
    ensures p <= EffectivePriority(cfg, base, held) <==>
            p <= base && forall m :: m in held && cfg.Ceiling(m).Some? ==> p <= cfg.Ceiling(m).value
  {
    if held != [] {
      EffectiveIsLeast(cfg, base, held[1..], p);
      assert held == [held[0]] + held[1..];
    }
  }

  // ----- wait conditions -----

  /** The wait condition of an event group. */
  predicate Satisfied(bits: bv32, payload: Payload) {
    payload.EventBits? &&
    if payload.all then bits & payload.bits == payload.bits else bits & payload.bits != 0
  }

  function Cleared(bits: bv32, removed: bv32): (b: bv32) { bits & !removed }

  function Joined(bits: bv32, added: bv32): (b: bv32) { bits | added }

  /** `b` has no bit that `a` lacks. */
  predicate Within(b: bv32, a: bv32) {
    b & a == b
  }

  lemma FewerBitsSatisfyNobody(a: bv32, b: bv32, payload: Payload)
    requires Within(b, a) && !Satisfied(a, payload)
    ensures !Satisfied(b, payload)
  {
  }

  lemma WithinTrans(a: bv32, b: bv32, c: bv32)
    requires Within(c, b) && Within(b, a)
    ensures Within(c, a)
  {
  }

  lemma WithinSelf(a: bv32)
    ensures Within(a, a)
  {
  }

  lemma ClearedIsWithin(bits: bv32, removed: bv32)
    ensures Within(Cleared(bits, removed), bits)
  {
  }

  lemma ClearedTakes(bits: bv32, removed: bv32)
    ensures Cleared(bits, removed) & removed == 0
  {
  }

  lemma ClearedLeaves(bits: bv32, removed: bv32)
    ensures Cleared(bits, removed) | removed == bits | removed
  {
  }
}
