/** The binary heap of linked timeouts with its back-pointers
    (`r3_core/src/utils/binary_heap/mod.rs` and the `TimeoutHeapCtx` of `timeout.rs`).
    Timeouts are identified by indices below a static capacity. */
module TimeoutHeap {
  import opened Words
  import opened Wrappers
  import opened TimeoutTime

  /** `HEAP_POS_NONE`: the timeout is not in the heap. */
  const HEAP_POS_NONE: nat := U64_MAX

  /** The parent of position `i`. */
  function Parent(i: nat): (p: nat)
    requires i > 0
    ensures p < i
  {
    (i - 1) / 2
  }

  // ----- the heap with a hole, on values -----

  /** Every entry of the heap names a timeout. */
  ghost predicate Named(dl: seq<int>, h: seq<nat>) {
    forall i :: 0 <= i < |h| ==> h[i] < |dl|
  }

  /** The heap property in unbounded time. */
  ghost predicate HeapOrdered(dl: seq<int>, h: seq<nat>) {
    Named(dl, h) && forall i :: 0 < i < |h| ==> dl[h[Parent(i)]] <= dl[h[i]]
  }

  /** The order holds at every edge except between `hole` and its parent, across
      which it holds transitively; `h` is the heap with the hole filled and `dl`
      gives the arrival times. */
  ghost predicate OrderedAbove(dl: seq<int>, h: seq<nat>, hole: nat) {
    && Named(dl, h)
    && (forall i :: 0 < i < |h| && i != hole ==> dl[h[Parent(i)]] <= dl[h[i]])
    && (0 < hole < |h| ==> forall i :: 0 < i < |h| && Parent(i) == hole ==> dl[h[Parent(hole)]] <= dl[h[i]])
  }

  /** The order holds at every edge except between `hole` and its children. */
  ghost predicate OrderedBelow(dl: seq<int>, h: seq<nat>, hole: nat) {
    && Named(dl, h)
    && (forall i :: 0 < i < |h| && Parent(i) != hole ==> dl[h[Parent(i)]] <= dl[h[i]])
    && (0 < hole < |h| ==> forall i :: 0 < i < |h| && Parent(i) == hole ==> dl[h[Parent(hole)]] <= dl[h[i]])
  }

  /** Entries and back-pointers agree away from the hole, whose element is `e`, and
      from the timeout `x` outside the heap whose back-pointer is left alone. */
  ghost predicate IndexedAround(h: seq<nat>, pos: seq<nat>, hole: nat, e: nat, x: nat) {
    && |pos| < HEAP_POS_NONE
    && hole < |h| && h[hole] == e && e != x
    && (forall i :: 0 <= i < |h| ==> h[i] < |pos| && h[i] != x)
    && (forall i :: 0 <= i < |h| && i != hole ==> h[i] != e && pos[h[i]] == i)
    && (forall f :: 0 <= f < |pos| && f != e && f != x && pos[f] != HEAP_POS_NONE ==>
          pos[f] < |h| && pos[f] != hole && h[pos[f]] == f)
  }

  /** Apart from `e`, the same timeouts are linked, and `x` is untouched. */
  ghost predicate SameLinks(before: seq<nat>, after: seq<nat>, e: nat, x: nat) {
    && |before| == |after|
    && forall f :: 0 <= f < |before| && f != e ==>
         ((before[f] == HEAP_POS_NONE) == (after[f] == HEAP_POS_NONE)) && (f == x ==> after[f] == before[f])
  }

  lemma SameLinksRefl(pos: seq<nat>, e: nat, x: nat)
    ensures SameLinks(pos, pos, e, x)
  {
  }

  lemma SameLinksTrans(a: seq<nat>, b: seq<nat>, c: seq<nat>, e: nat, x: nat)
    requires SameLinks(a, b, e, x) && SameLinks(b, c, e, x)
    ensures SameLinks(a, c, e, x)
  {
  }

  /** If `e` itself is linked before and after, no link has changed. */
  lemma CloseLinks(a: seq<nat>, b: seq<nat>, c: seq<nat>, e: nat, x: nat)
    requires SameLinks(a, b, |a|, x) && SameLinks(b, c, e, x) && e != x && e < |c|
    requires b[e] != HEAP_POS_NONE && c[e] != HEAP_POS_NONE
    ensures SameLinks(a, c, |a|, x)
  {
  }

  /** Moving the hole from `hole` to `to` keeps entries and back-pointers in step. */
  lemma MoveHole(h: seq<nat>, pos: seq<nat>, hole: nat, to: nat, e: nat, x: nat)
    requires IndexedAround(h, pos, hole, e, x) && to < |h| && to != hole && |h| < HEAP_POS_NONE
    ensures IndexedAround(h[hole := h[to]][to := e], pos[h[to] := hole], to, e, x)
    ensures SameLinks(pos, pos[h[to] := hole], e, x)
  {
  }

  lemma MoveUpKeepsOrder(dl: seq<int>, h: seq<nat>, hole: nat)
    requires 0 < hole < |h| && OrderedAbove(dl, h, hole) && dl[h[hole]] <= dl[h[Parent(hole)]]
    ensures OrderedAbove(dl, h[hole := h[Parent(hole)]][Parent(hole) := h[hole]], Parent(hole))
  {
    hide Parent;
    var p := Parent(hole);
    var h' := h[hole := h[p]][p := h[hole]];
    forall i | 0 < i < |h'| && i != p
      ensures dl[h'[Parent(i)]] <= dl[h'[i]]
    {
      if i == hole || Parent(i) == hole || Parent(i) == p {
      } else {
        assert h'[i] == h[i] && h'[Parent(i)] == h[Parent(i)];
      }
    }
  }

  /** `child` is a child of `hole` with the least arrival time among its children. */
  ghost predicate LeastChild(dl: seq<int>, h: seq<nat>, hole: nat, child: nat) {
    && Named(dl, h)
    && 0 < child < |h| && Parent(child) == hole
    && forall i :: 0 < i < |h| && Parent(i) == hole ==> dl[h[child]] <= dl[h[i]]
  }

  lemma MoveDownKeepsOrder(dl: seq<int>, h: seq<nat>, hole: nat, child: nat)
    requires hole < |h| && OrderedBelow(dl, h, hole) && LeastChild(dl, h, hole, child) && dl[h[child]] <= dl[h[hole]]
    ensures OrderedBelow(dl, h[hole := h[child]][child := h[hole]], child)
  {
    hide Parent;
    var h' := h[hole := h[child]][child := h[hole]];
    forall i | 0 < i < |h'| && Parent(i) != child
      ensures dl[h'[Parent(i)]] <= dl[h'[i]]
    {
      if i == hole {
        assert dl[h[Parent(hole)]] <= dl[h[child]];
      } else if i == child {
        assert h'[Parent(i)] == h[child];
      } else if Parent(i) == hole {
        assert h'[i] == h[i] && dl[h[child]] <= dl[h[i]];
      } else {
        assert h'[i] == h[i] && h'[Parent(i)] == h[Parent(i)];
      }
    }
    forall i | 0 < i < |h'| && Parent(i) == child
      ensures dl[h'[Parent(child)]] <= dl[h'[i]]
    {
      assert h'[Parent(child)] == h[child] && h'[i] == h[i];
    }
  }

  /** Replacing the entry at `i` by a later or earlier one breaks the order on one
      side only. */
  lemma ReplaceKeepsOrder(dl: seq<int>, h: seq<nat>, i: nat, e: nat)
    requires HeapOrdered(dl, h) && i < |h| && e < |dl|
    ensures i > 0 && dl[e] < dl[h[Parent(i)]] ==> OrderedAbove(dl, h[i := e], i)
    ensures !(i > 0 && dl[e] < dl[h[Parent(i)]]) ==> OrderedBelow(dl, h[i := e], i)
  {
    hide Parent;
    if i > 0 {
      assert dl[h[Parent(i)]] <= dl[h[i]];
      assert forall j :: 0 < j < |h| && Parent(j) == i ==> dl[h[i]] <= dl[h[j]];
    }
  }

  /** Filling the hole completes the back-pointers. */
  lemma FillHole(h: seq<nat>, pos: seq<nat>, hole: nat, e: nat, x: nat)
    requires IndexedAround(h, pos, hole, e, x)
    ensures IndexedAround(h, pos[e := hole], hole, e, x)
  {
  }

  /** The arrival times of the linked timeouts. */
  ghost function DeadlinesOf(pos: seq<nat>, dl: seq<int>): (m: map<nat, int>)
    requires |pos| == |dl|
  {
    map e: nat | e < |pos| && pos[e] != HEAP_POS_NONE :: dl[e]
  }

  /** Taking `x` out of the heap, by clearing its back-pointer before or after the
      other links are rewritten. */
  lemma Unlink(a: seq<nat>, b: seq<nat>, c: seq<nat>, dl: seq<int>, x: nat, none: nat)
    requires |a| == |b| == |c| == |dl| && x < |a| <= none
    requires (b == a[x := HEAP_POS_NONE] && SameLinks(b, c, none, x))
          || (SameLinks(a, b, none, x) && c == b[x := HEAP_POS_NONE])
    ensures SameLinks(a, c, x, none) && c[x] == HEAP_POS_NONE
    ensures DeadlinesOf(c, dl) == DeadlinesOf(a, dl) - {x}
  {
  }

  class Heap {
    /** The number of tasks and timers: each has at most one timeout. */
    const capacity: nat
    /** The heap array: `heap[0]` is an earliest timeout. */
    var heap: seq<nat>
    /** `Timeout::heap_pos` and `Timeout::at` of every timeout. */
    var heapPos: seq<nat>
    var at: seq<u32>
    /** The unbounded arrival times. */
    ghost var deadline: seq<int>

    /** The timers' timeouts come first and hold their configured delays. */
    constructor (delays: seq<u32>, tasks: nat)
      requires |delays| + tasks < HEAP_POS_NONE
      ensures capacity == |delays| + tasks && Valid() && heap == []
      ensures at == delays + seq(tasks, _ => 0)
    {
      capacity := |delays| + tasks;
      heap := [];
      heapPos := seq(|delays| + tasks, _ => HEAP_POS_NONE);
      at := delays + seq(tasks, _ => 0);
      deadline := seq(|delays| + tasks, _ => 0);
    }

    ghost predicate Shaped()
      reads this
    {
      && capacity < HEAP_POS_NONE
      && |heapPos| == |at| == |deadline| == capacity
      && (forall i :: 0 <= i < |heap| ==> heap[i] < capacity)
    }

    predicate Linked(e: nat)
      requires e < |heapPos|
      reads this
    {
      heapPos[e] != HEAP_POS_NONE
    }

    /** Back-pointers and entries are inverse to each other, except that nothing is
        said of the back-pointer of `x`. */
    ghost predicate IndexedExcept(x: nat)
      requires Shaped()
      reads this
    {
      && (forall i :: 0 <= i < |heap| && heap[i] != x ==> heapPos[heap[i]] == i)
      && (forall e :: 0 <= e < capacity && e != x && heapPos[e] != HEAP_POS_NONE ==>
            heapPos[e] < |heap| && heap[heapPos[e]] == e)
    }

    /** `heap[i].heap_pos == i` for every entry, and every other timeout is unlinked. */
    ghost predicate Indexed()
      reads this
    {
      Shaped() && IndexedExcept(capacity)
    }

    ghost predicate Ordered()
      reads this
    {
      HeapOrdered(deadline, heap)
    }

    ghost predicate Valid()
      reads this
    {
      Indexed() && Ordered()
    }

    /** The arrival times of the linked timeouts. */
    ghost function Deadlines(): (dl: map<nat, int>)
      requires Shaped()
      reads this
    {
      DeadlinesOf(heapPos, deadline)
    }

    /** Every timeout for which `linked` holds can be compared at the true time `now`. */
    ghost predicate Comparable(e: nat, now: int)
      requires Shaped() && e < capacity
      reads this
    {
      at[e] == Wrap32(deadline[e]) && InWindow(deadline[e], now)
    }

    ghost predicate AllComparable(now: int)
      requires Shaped()
      reads this
    {
      forall e :: 0 <= e < capacity && heapPos[e] != HEAP_POS_NONE ==> Comparable(e, now)
    }

    /** `TimeoutHeapCtx::lt`. */
    predicate Lt(x: nat, y: nat, criticalPoint: u32)
      requires x < |at| && y < |at|
      reads this
    {
      Before(at[x], at[y], criticalPoint)
    }

    lemma LtIsTrueOrder(x: nat, y: nat, now: int)
      requires Shaped() && x < capacity && y < capacity
      requires Comparable(x, now) && Comparable(y, now)
      ensures Lt(x, y, CriticalPoint(Wrap32(now))) <==> deadline[x] < deadline[y]
    {
      BeforeIsTrueOrder(deadline[x], deadline[y], now);
    }

    /** The heap never exceeds its static capacity. */
    lemma WithinCapacity()
      requires Indexed()
      ensures |heap| <= capacity
    {
      assert forall i, j :: 0 <= i < j < |heap| ==> heap[i] != heap[j] by {
        forall i, j | 0 <= i < j < |heap| ensures heap[i] != heap[j] {
          assert heapPos[heap[i]] == i && heapPos[heap[j]] == j;
        }
      }
      DistinctBelow(heap, capacity);
    }

    /** The first entry is an earliest timeout. */
    lemma TopIsEarliest(k: nat)
      requires Valid() && k < |heap|
      ensures deadline[heap[0]] <= deadline[heap[k]]
      decreases k
    {
      if k > 0 { TopIsEarliest(Parent(k)); }
    }

    // ----- the sift operations -----

    /** `h` is the heap with `elt` in its hole, every entry is comparable at `now`, and
        `x` is a timeout outside the heap whose back-pointer is left alone. */
    ghost predicate Holed(h: seq<nat>, hole: nat, elt: nat, x: nat, now: int)
      reads this
    {
      && Shaped() && |h| == |heap| < HEAP_POS_NONE && hole < |heap| && h == heap[hole := elt]
      && IndexedAround(h, heapPos, hole, elt, x)
      && (forall i :: 0 <= i < |h| ==> Comparable(h[i], now))
    }

    /** Comparing the held element with another entry. */
    lemma CompareHeld(h: seq<nat>, hole: nat, elt: nat, x: nat, now: int, i: nat)
      requires Holed(h, hole, elt, x, now) && i < |h| && i != hole
      ensures elt < |at| && heap[i] < |at| && h[i] == heap[i] && h[hole] == elt
      ensures Lt(elt, heap[i], CriticalPoint(Wrap32(now))) <==> deadline[elt] < deadline[heap[i]]
      ensures Lt(heap[i], elt, CriticalPoint(Wrap32(now))) <==> deadline[heap[i]] < deadline[elt]
    {
      LtIsTrueOrder(elt, h[i], now);
      LtIsTrueOrder(h[i], elt, now);
    }

    /** `Hole::move_to` followed by `on_move`: moves the entry at `to` into the hole. */
    method MoveTo(hole: nat, to: nat, ghost elt: nat, ghost h: seq<nat>, ghost x: nat, ghost now: int)
      returns (ghost h': seq<nat>)
      requires Holed(h, hole, elt, x, now) && to < |heap| && to != hole
      modifies this`heap, this`heapPos
      ensures |heap| == |old(heap)| && |h'| == |h|
      ensures h' == h[hole := h[to]][to := elt]
      ensures Holed(h', to, elt, x, now)
      ensures SameLinks(old(heapPos), heapPos, elt, x)
    {
      MoveHole(h, heapPos, hole, to, elt, x);
      h' := h[hole := h[to]][to := elt];
      heap := heap[hole := heap[to]];
      heapPos := heapPos[heap[hole] := hole];
    }

    /** Drops the hole: stores its element and reports its position. */
    method Fill(hole: nat, elt: nat, ghost h: seq<nat>, ghost x: nat, ghost now: int)
      requires Holed(h, hole, elt, x, now)
      modifies this`heap, this`heapPos
      ensures heap == h && elt < |heapPos| && heapPos[elt] == hole
      ensures Holed(heap, hole, elt, x, now) && SameLinks(old(heapPos), heapPos, elt, x)
    {
      FillHole(h, heapPos, hole, elt, x);
      heap := heap[hole := elt];
      heapPos := heapPos[elt := hole];
    }

    /** `sift_up` with `start == 0`: moves the element at `pos` towards the root. */
    method SiftUp(pos: nat, criticalPoint: u32, ghost now: int, ghost x: nat) returns (final: nat)
      requires pos < |heap| && Holed(heap, pos, heap[pos], x, now)
      requires OrderedAbove(deadline, heap, pos)
      requires criticalPoint == CriticalPoint(Wrap32(now))
      modifies this`heap, this`heapPos
      ensures |heap| == |old(heap)| && Ordered()
      ensures Holed(heap, final, old(heap[pos]), x, now)
      ensures old(heap[pos]) < |heapPos| && heapPos[old(heap[pos])] == final
      ensures SameLinks(old(heapPos), heapPos, old(heap[pos]), x)
    {
      hide Comparable, Lt, SameLinks, Holed;
      var elt := heap[pos];
      var hole := pos;
      ghost var h := heap;
      SameLinksRefl(heapPos, elt, x);
      while hole > 0
        invariant hole < |h| == |heap| == |old(heap)|
        invariant Holed(h, hole, elt, x, now)
        invariant OrderedAbove(deadline, h, hole)
        invariant SameLinks(old(heapPos), heapPos, elt, x)
      {
        var parent := Parent(hole);
        CompareHeld(h, hole, elt, x, now, parent);
        if !Lt(elt, heap[parent], criticalPoint) {
          break;
        }
        MoveUpKeepsOrder(deadline, h, hole);
        ghost var before := heapPos;
        h := MoveTo(hole, parent, elt, h, x, now);
        SameLinksTrans(old(heapPos), before, heapPos, elt, x);
        hole := parent;
      }
      assert HeapOrdered(deadline, h);
      ghost var before := heapPos;
      Fill(hole, elt, h, x, now);
      SameLinksTrans(old(heapPos), before, heapPos, elt, x);
      final := hole;
    }

    /** `sift_down`: moves the element at `pos` away from the root. */
    method SiftDown(pos: nat, criticalPoint: u32, ghost now: int, ghost x: nat)
      requires pos < |heap| && Holed(heap, pos, heap[pos], x, now)
      requires OrderedBelow(deadline, heap, pos)
      requires criticalPoint == CriticalPoint(Wrap32(now))
      modifies this`heap, this`heapPos
      ensures |heap| == |old(heap)| && Ordered()
      ensures old(heap[pos]) < |heapPos| && Holed(heap, heapPos[old(heap[pos])], old(heap[pos]), x, now)
      ensures SameLinks(old(heapPos), heapPos, old(heap[pos]), x)
    {
      hide Comparable, Lt, SameLinks, Holed;
      var elt := heap[pos];
      var hole := pos;
      var child := 2 * hole + 1;
      ghost var h := heap;
      SameLinksRefl(heapPos, elt, x);
      while child < |heap|
        invariant hole < |h| == |heap| == |old(heap)| && child == 2 * hole + 1
        invariant Holed(h, hole, elt, x, now)
        invariant OrderedBelow(deadline, h, hole)
        invariant SameLinks(old(heapPos), heapPos, elt, x)
        decreases |heap| - hole
      {
        child := LesserChild(hole, elt, criticalPoint, now, h, x);
        CompareHeld(h, hole, elt, x, now, child);
        if !Lt(heap[child], elt, criticalPoint) {
          break;
        }
        MoveDownKeepsOrder(deadline, h, hole, child);
        ghost var before := heapPos;
        h := MoveTo(hole, child, elt, h, x, now);
        SameLinksTrans(old(heapPos), before, heapPos, elt, x);
        hole := child;
        child := 2 * hole + 1;
      }
      assert HeapOrdered(deadline, h);
      ghost var before := heapPos;
      Fill(hole, elt, h, x, now);
      SameLinksTrans(old(heapPos), before, heapPos, elt, x);
    }

    /** Chooses the lesser of the two children of the hole. */
    method LesserChild(hole: nat, ghost elt: nat, criticalPoint: u32, ghost now: int, ghost h: seq<nat>, ghost x: nat)
      returns (child: nat)
      requires Holed(h, hole, elt, x, now) && 2 * hole + 1 < |heap|
      requires criticalPoint == CriticalPoint(Wrap32(now))
      ensures hole < child < |heap| && LeastChild(deadline, h, hole, child)
    {
      child := 2 * hole + 1;
      var right := child + 1;
      if right < |heap| {
        LtIsTrueOrder(h[child], h[right], now);
        if !Lt(heap[child], heap[right], criticalPoint) {
          child := right;
        }
      }
    }

    // ----- the heap operations -----

    /** An unlinked timeout always finds room. */
    lemma RoomFor(e: nat)
      requires Indexed() && e < capacity && !Linked(e)
      ensures |heap| < capacity
    {
      WithinCapacity();
      forall i, j | 0 <= i < j < |heap + [e]|
        ensures (heap + [e])[i] != (heap + [e])[j]
      {
        assert heapPos[heap[i]] == i;
        if j < |heap| { assert heapPos[heap[j]] == j; }
      }
      DistinctBelow(heap + [e], capacity);
    }

    /** `heap_push`. */
    method HeapPush(e: nat, criticalPoint: u32, ghost now: int) returns (pos: nat)
      requires Valid() && e < capacity && !Linked(e)
      requires AllComparable(now) && Comparable(e, now)
      requires criticalPoint == CriticalPoint(Wrap32(now))
      modifies this`heap, this`heapPos
      ensures Valid() && heapPos[e] == pos && pos < |heap|
      ensures Deadlines() == old(Deadlines())[e := deadline[e]]
      ensures SameLinks(old(heapPos), heapPos, e, capacity)
    {
      RoomFor(e);
      var i := |heap|;
      heap := heap + [e];
      pos := SiftUp(i, criticalPoint, now, capacity);
    }

    /** `heap_remove`. The back-pointer of the removed timeout is left alone; it need
        not be right beforehand. */
    method HeapRemove(i: nat, criticalPoint: u32, ghost now: int) returns (removed: Option<nat>)
      requires Shaped() && Ordered()
      requires i < |heap| ==>
                 && IndexedExcept(heap[i])
                 && (forall j :: 0 <= j < |heap| && j != i ==> heap[j] != heap[i])
                 && (forall j :: 0 <= j < |heap| ==> Comparable(heap[j], now))
      requires criticalPoint == CriticalPoint(Wrap32(now))
      modifies this`heap, this`heapPos
      ensures i >= |old(heap)| ==> removed == None && heap == old(heap) && heapPos == old(heapPos)
      ensures i < |old(heap)| ==>
                && removed == Some(old(heap[i]))
                && Shaped() && Ordered() && IndexedExcept(removed.value)
                && (forall j :: 0 <= j < |heap| ==> heap[j] != removed.value)
                && SameLinks(old(heapPos), heapPos, capacity, removed.value)
    {
      if i >= |heap| {
        return None;
      }
      ghost var x := heap[i];
      var item := heap[|heap| - 1];
      assert item != x ==> heapPos[item] == |heap| - 1;
      DropLast(i);
      heap := heap[..|heap| - 1];
      if i < |heap| {
        var last := item;
        item := heap[i];
        Replace(i, last, criticalPoint, now, x);
      }
      removed := Some(item);
    }

    /** Without its last entry the heap is ready to have entry `i` replaced by it. */
    lemma DropLast(i: nat)
      requires Shaped() && Ordered() && i < |heap| && IndexedExcept(heap[i])
      requires forall j :: 0 <= j < |heap| && j != i ==> heap[j] != heap[i]
      ensures var rest := heap[..|heap| - 1];
              var last := heap[|heap| - 1];
              && HeapOrdered(deadline, rest)
              && |rest| < HEAP_POS_NONE
              && (i < |rest| ==> IndexedAround(rest[i := last], heapPos[last := i], i, last, heap[i]))
              && (i < |rest| ==> SameLinks(heapPos, heapPos[last := i], capacity, heap[i]))
    {
      SizeOfHeap(heap[i]);
    }

    /** Swaps `item` into position `i` and restores the order. */
    method Replace(i: nat, item: nat, criticalPoint: u32, ghost now: int, ghost x: nat)
      requires Shaped() && i < |heap| < HEAP_POS_NONE && HeapOrdered(deadline, heap) && item < capacity
      requires IndexedAround(heap[i := item], heapPos[item := i], i, item, x)
      requires SameLinks(heapPos, heapPos[item := i], capacity, x)
      requires item != x && Comparable(item, now) && forall j :: 0 <= j < |heap| ==> Comparable(heap[j], now)
      requires criticalPoint == CriticalPoint(Wrap32(now))
      modifies this`heap, this`heapPos
      ensures |heap| == |old(heap)| && Ordered()
      ensures item < |heapPos| && Holed(heap, heapPos[item], item, x, now)
      ensures SameLinks(old(heapPos), heapPos, capacity, x)
    {
      hide IndexedAround;
      ReplaceKeepsOrder(deadline, heap, i, item);
      heap := heap[i := item];
      heapPos := heapPos[heap[i] := i];
      ghost var before := heapPos;
      assert Holed(heap, i, item, x, now);
      hide HeapOrdered, OrderedAbove, OrderedBelow, Comparable;
      Restore(i, criticalPoint, now, x);
      assert heapPos[item] < |heap| && item != x;
      hide Holed;
      CloseLinks(old(heapPos), before, heapPos, item, x);
    }

    /** Sifts the entry at `i` up or down, whichever restores the order. */
    method Restore(i: nat, criticalPoint: u32, ghost now: int, ghost x: nat)
      requires i < |heap| && Holed(heap, i, heap[i], x, now)
      requires var up := i > 0 && deadline[heap[i]] < deadline[heap[Parent(i)]];
               if up then OrderedAbove(deadline, heap, i) else OrderedBelow(deadline, heap, i)
      requires criticalPoint == CriticalPoint(Wrap32(now))
      modifies this`heap, this`heapPos
      ensures |heap| == |old(heap)| && Ordered()
      ensures old(heap[i]) < |heapPos| && Holed(heap, heapPos[old(heap[i])], old(heap[i]), x, now)
      ensures SameLinks(old(heapPos), heapPos, old(heap[i]), x)
    {
      hide IndexedAround, OrderedAbove, OrderedBelow, Comparable;
      if i > 0 { LtIsTrueOrder(heap[i], heap[Parent(i)], now); }
      var shouldSiftUp := i > 0 && Lt(heap[i], heap[Parent(i)], criticalPoint);
      hide Lt;
      if shouldSiftUp {
        var _ := SiftUp(i, criticalPoint, now, x);
      } else {
        SiftDown(i, criticalPoint, now, x);
      }
    }

    /** The removal of the first entry by `handle_tick`: its back-pointer is cleared
        before the heap is restored. */
    method PopFirst(criticalPoint: u32, ghost now: int) returns (first: nat)
      requires Valid() && heap != [] && AllComparable(now)
      requires criticalPoint == CriticalPoint(Wrap32(now))
      modifies this`heap, this`heapPos
      ensures Valid() && first == old(heap[0]) < capacity && !Linked(first)
      ensures Deadlines() == old(Deadlines()) - {first}
      ensures SameLinks(old(heapPos), heapPos, first, capacity)
    {
      first := heap[0];
      WithinCapacity();
      DistinctEntries();
      heapPos := heapPos[first := HEAP_POS_NONE];
      ghost var cleared := heapPos;
      var _ := HeapRemove(0, criticalPoint, now);
      Unlink(old(heapPos), cleared, heapPos, deadline, first, capacity);
    }

    lemma DistinctEntries()
      requires Indexed()
      ensures forall i, j :: 0 <= i < j < |heap| ==> heap[i] != heap[j]
    {
      forall i, j | 0 <= i < j < |heap| ensures heap[i] != heap[j] {
        assert heapPos[heap[i]] == i && heapPos[heap[j]] == j;
      }
    }

    /** `remove_timeout`, up to the re-pending of the tick: a timeout that is not linked
        is rejected by the bounds check. */
    method Remove(e: nat, criticalPoint: u32, ghost now: int) returns (found: bool)
      requires Valid() && e < capacity && AllComparable(now)
      requires criticalPoint == CriticalPoint(Wrap32(now))
      modifies this`heap, this`heapPos
      ensures Valid() && found == old(Linked(e)) && !Linked(e)
      ensures Deadlines() == old(Deadlines()) - {e}
      ensures SameLinks(old(heapPos), heapPos, e, capacity)
    {
      WithinCapacity();
      DistinctEntries();
      SameLinksRefl(heapPos, capacity, e);
      var removed := HeapRemove(heapPos[e], criticalPoint, now);
      found := removed.Some?;
      ghost var after := heapPos;
      heapPos := heapPos[e := HEAP_POS_NONE];
      hide Comparable, HeapOrdered;
      Unlink(old(heapPos), after, heapPos, deadline, e, capacity);
    }

    /** Writes `Timeout::at` of a timeout that is not linked. */
    method SetAt(e: nat, value: u32, ghost d: int)
      requires Valid() && e < capacity && !Linked(e)
      modifies this`at, this`deadline
      ensures Valid() && Deadlines() == old(Deadlines())
      ensures at == old(at)[e := value] && deadline == old(deadline)[e := d]
    {
      at := at[e := value];
      deadline := deadline[e := d];
      forall i | 0 <= i < |heap| ensures heap[i] != e {
        assert heapPos[heap[i]] == i;
        WithinCapacity();
      }
    }

    /** Gives a timeout that is not linked the arrival time its field stands for. */
    ghost method SetDeadline(e: nat, d: int)
      requires Valid() && e < capacity && !Linked(e)
      modifies this`deadline
      ensures Valid() && Deadlines() == old(Deadlines()) && deadline == old(deadline)[e := d]
    {
      deadline := deadline[e := d];
      forall i | 0 <= i < |heap| ensures heap[i] != e {
        assert heapPos[heap[i]] == i;
        WithinCapacity();
      }
    }

    lemma SizeOfHeap(x: nat)
      requires Shaped() && forall i, j :: 0 <= i < j < |heap| ==> heap[i] != heap[j]
      ensures |heap| < HEAP_POS_NONE
    {
      DistinctBelow(heap, capacity);
    }
  }

  /** Distinct numbers below a bound are at most as many as the bound. */
  lemma {:induction false} DistinctBelow(s: seq<nat>, n: nat)
    requires forall i :: 0 <= i < |s| ==> s[i] < n
    requires forall i, j :: 0 <= i < j < |s| ==> s[i] != s[j]
    ensures |s| <= n
    decreases n
  {
    if |s| > 0 {
      assert s[0] < n;
      if n - 1 in s {
        var k :| 0 <= k < |s| && s[k] == n - 1;
        var rest := s[..k] + s[k + 1..];
        assert forall i :: 0 <= i < |rest| ==> rest[i] == s[if i < k then i else i + 1];
        DistinctBelow(rest, n - 1);
      } else {
        assert forall i :: 0 <= i < |s| ==> s[i] in s;
        DistinctBelow(s, n - 1);
      }
    }
  }
}
