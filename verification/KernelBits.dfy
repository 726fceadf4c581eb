/** What the operations on the bits of an event group mean, bit by bit. */
module KernelBits {
  import opened KernelState

  /** A word with exactly one bit set. */
  predicate OneBit(bit: bv32) {
    bit != 0 && bit & (bit - 1) == 0
  }

  predicate Has(bits: bv32, bit: bv32) {
    bits & bit != 0
  }

  lemma JoinedIsOr(a: bv32, b: bv32)
    ensures Joined(a, b) == a | b
  {
  }

  /** Joining sets the added bits and leaves the others. */
  lemma EachBitIsJoined(bits: bv32, added: bv32, bit: bv32)
    ensures Has(Joined(bits, added), bit) <==> Has(bits, bit) || Has(added, bit)
  {
    hide Joined, Has;
    if Has(bits, bit) {
      JoinedHas(bits, added, bit);
    } else if Has(added, bit) {
      JoinedHas(added, bits, bit);
    } else {
      JoinedLacks(bits, added, bit);
    }
  }

  lemma JoinedHas(a: bv32, b: bv32, bit: bv32)
    requires Has(a, bit)
    ensures Has(Joined(a, b), bit) && Has(Joined(b, a), bit)
  {
  }

  lemma JoinedLacks(bits: bv32, added: bv32, bit: bv32)
    requires !Has(bits, bit) && !Has(added, bit)
    ensures !Has(Joined(bits, added), bit)
  {
  }

  /** Clearing takes the removed bits and leaves the others. */
  lemma EachBitIsCleared(bits: bv32, removed: bv32, bit: bv32)
    requires OneBit(bit)
    ensures Has(Cleared(bits, removed), bit) <==> Has(bits, bit) && !Has(removed, bit)
  {
    hide OneBit, Has, Cleared;
    if !Has(bits, bit) {
      ClearedAddsNothing(bits, removed, bit);
    } else if Has(removed, bit) {
      ClearedLacks(bits, removed, bit);
    } else {
      ClearedHas(bits, removed, bit);
    }
  }

  lemma ClearedAddsNothing(bits: bv32, removed: bv32, bit: bv32)
    requires !Has(bits, bit)
    ensures !Has(Cleared(bits, removed), bit)
  {
  }

  lemma ClearedLacks(bits: bv32, removed: bv32, bit: bv32)
    requires OneBit(bit) && Has(removed, bit)
    ensures !Has(Cleared(bits, removed), bit)
  {
  }

  lemma ClearedHas(bits: bv32, removed: bv32, bit: bv32)
    requires OneBit(bit) && Has(bits, bit) && !Has(removed, bit)
    ensures Has(Cleared(bits, removed), bit)
  {
  }

  /** A wait for all bits is satisfied if and only if every requested bit is set ... */
  lemma AllBitsSatisfy(bits: bv32, wanted: bv32, clear: bool)
    ensures Satisfied(bits, EventBits(wanted, true, clear)) <==>
            forall bit :: OneBit(bit) && Has(wanted, bit) ==> Has(bits, bit)
  {
    hide OneBit, Has, Satisfied;
    forall bit | OneBit(bit) && Has(wanted, bit) && Satisfied(bits, EventBits(wanted, true, clear))
      ensures Has(bits, bit)
    {
      IncludedBit(bits, wanted, clear, bit);
    }
    if !Satisfied(bits, EventBits(wanted, true, clear)) {
      var bit := MissingBit(bits, wanted, clear);
    }
  }

  /** ... and a wait for any bit if and only if some requested bit is set. */
  lemma AnyBitSatisfies(bits: bv32, wanted: bv32, clear: bool)
    ensures Satisfied(bits, EventBits(wanted, false, clear)) <==>
            exists bit :: OneBit(bit) && Has(wanted, bit) && Has(bits, bit)
  {
    hide OneBit, Has, Satisfied;
    forall bit | OneBit(bit) && Has(wanted, bit) && Has(bits, bit)
      ensures Satisfied(bits, EventBits(wanted, false, clear))
    {
      CommonBitSatisfies(bits, wanted, clear, bit);
    }
    if Satisfied(bits, EventBits(wanted, false, clear)) {
      var bit := CommonBit(bits, wanted, clear);
    }
  }

  lemma IncludedBit(bits: bv32, wanted: bv32, clear: bool, bit: bv32)
    requires Satisfied(bits, EventBits(wanted, true, clear)) && Has(wanted, bit)
    ensures Has(bits, bit)
  {
  }

  lemma MissingBit(bits: bv32, wanted: bv32, clear: bool) returns (bit: bv32)
    requires !Satisfied(bits, EventBits(wanted, true, clear))
    ensures OneBit(bit) && Has(wanted, bit) && !Has(bits, bit)
  {
    hide OneBit, Has, Satisfied, Cleared;
    MissingIsSome(bits, wanted, clear);
    bit := LowestBit(Cleared(wanted, bits));
    EachBitIsCleared(wanted, bits, bit);
  }

  lemma MissingIsSome(bits: bv32, wanted: bv32, clear: bool)
    requires !Satisfied(bits, EventBits(wanted, true, clear))
    ensures Cleared(wanted, bits) != 0
  {
  }

  lemma CommonBitSatisfies(bits: bv32, wanted: bv32, clear: bool, bit: bv32)
    requires OneBit(bit) && Has(wanted, bit) && Has(bits, bit)
    ensures Satisfied(bits, EventBits(wanted, false, clear))
  {
  }

  lemma CommonBit(bits: bv32, wanted: bv32, clear: bool) returns (bit: bv32)
    requires Satisfied(bits, EventBits(wanted, false, clear))
    ensures OneBit(bit) && Has(wanted, bit) && Has(bits, bit)
  {
    hide OneBit, Has, Satisfied, Cleared;
    var others := Cleared(bits, wanted);
    CommonIsSome(bits, wanted, clear);
    bit := LowestBit(Cleared(bits, others));
    EachBitIsCleared(bits, wanted, bit);
    EachBitIsCleared(bits, others, bit);
  }

  lemma CommonIsSome(bits: bv32, wanted: bv32, clear: bool)
    requires Satisfied(bits, EventBits(wanted, false, clear))
    ensures Cleared(bits, Cleared(bits, wanted)) != 0
  {
  }

  /** Every word but zero has a set bit. */
  lemma LowestBit(x: bv32) returns (bit: bv32)
    requires x != 0
    ensures OneBit(bit) && x & bit == bit && Has(x, bit)
  {
    bit := x & (0 - x);
  }
}
