/** Which waiters of an event group are served when bits are set, bit by bit: the simple
    form of the pass of `set`. */
module KernelService {
  import opened Wrappers
  import opened KernelState
  import opened KernelBits
  import opened KernelOps
  import opened KernelEffects

  /** Waiter `i` has been served and took the bit with it. */
  ghost predicate TakesBit(conditions: seq<Payload>, seen: seq<Option<bv32>>, i: nat, bit: bv32)
    requires i < |conditions| == |seen|
  {
    seen[i].Some? && conditions[i].EventBits? && conditions[i].clear && Has(conditions[i].bits, bit)
  }

  /** `left` is what the waiters before the `n`-th leave of `bits`: the bits that none of
      them was served with and asked to be cleared. */
  ghost predicate LeftBefore(conditions: seq<Payload>, seen: seq<Option<bv32>>, bits: bv32, n: nat, left: bv32)
    requires n <= |conditions| == |seen|
  {
    forall bit :: OneBit(bit) ==>
      (Has(left, bit) <==> Has(bits, bit) && forall i :: 0 <= i < n ==> !TakesBit(conditions, seen, i, bit))
  }

  /** Each waiter in turn is served if and only if what those before it leave satisfies
      it, and then sees exactly that; what all of them leave is stored. */
  lemma {:induction false} ServedInTurn(conditions: seq<Payload>, bits: bv32, n: nat) returns (left: bv32)
    requires n <= |conditions|
    ensures LeftBefore(conditions, Serve(conditions, bits).seen, bits, n, left)
    ensures var v := Serve(conditions, bits);
            if n == |conditions| then v.left == left
            else v.seen[n] == if Satisfied(left, conditions[n]) then Some(left) else None
    decreases |conditions|
  {
    hide Satisfied, Consume, Has, OneBit;
    var v := Serve(conditions, bits);
    if n == 0 {
      left := bits;
    } else {
      var bits' := if Satisfied(bits, conditions[0]) then Consume(bits, conditions[0]) else bits;
      left := ServedInTurn(conditions[1..], bits', n - 1);
      assert v.seen[1..] == Serve(conditions[1..], bits').seen;
      hide Serve, LeftBefore;
      FirstTakes(conditions, bits);
      LeftAfterFirst(conditions, v.seen, bits, bits', n, left);
    }
  }

  /** What the first waiter takes. */
  lemma FirstTakes(conditions: seq<Payload>, bits: bv32)
    requires conditions != []
    ensures var bits' := if Satisfied(bits, conditions[0]) then Consume(bits, conditions[0]) else bits;
            forall bit :: OneBit(bit) ==>
              (Has(bits', bit) <==> Has(bits, bit) && !TakesBit(conditions, Serve(conditions, bits).seen, 0, bit))
  {
    hide Satisfied, Has, OneBit, Cleared;
    forall bit | OneBit(bit)
      ensures var bits' := if Satisfied(bits, conditions[0]) then Consume(bits, conditions[0]) else bits;
              Has(bits', bit) <==> Has(bits, bit) && !TakesBit(conditions, Serve(conditions, bits).seen, 0, bit)
    {
      if conditions[0].EventBits? { EachBitIsCleared(bits, conditions[0].bits, bit); }
    }
  }

  lemma LeftAfterFirst(conditions: seq<Payload>, seen: seq<Option<bv32>>, bits: bv32, bits': bv32, n: nat, left: bv32)
    requires 0 < n <= |conditions| == |seen|
    requires forall bit :: OneBit(bit) ==> (Has(bits', bit) <==> Has(bits, bit) && !TakesBit(conditions, seen, 0, bit))
    requires LeftBefore(conditions[1..], seen[1..], bits', n - 1, left)
    ensures LeftBefore(conditions, seen, bits, n, left)
  {
    hide Has, OneBit;
    forall bit | OneBit(bit)
      ensures Has(left, bit) <==> Has(bits, bit) && forall i :: 0 <= i < n ==> !TakesBit(conditions, seen, i, bit)
    {
      forall i | 0 <= i < n - 1
        ensures TakesBit(conditions[1..], seen[1..], i, bit) <==> TakesBit(conditions, seen, i + 1, bit)
      {
      }
      assert forall i :: 0 < i < n ==>
        TakesBit(conditions, seen, i, bit) == TakesBit(conditions[1..], seen[1..], i - 1, bit);
    }
  }
}
