/** Finite lists of identifiers without repetition, as kept by the ready queue and
    the wait queues. */
module Lists {

  ghost predicate NoDup(w: seq<nat>) {
    forall i, j :: 0 <= i < j < |w| ==> w[i] != w[j]
  }

  /** The position of `x`. */
  function IndexOf(w: seq<nat>, x: nat): (k: nat)
    requires x in w
    ensures k < |w| && w[k] == x
  {
    if w[0] == x then 0 else 1 + IndexOf(w[1..], x)
  }

  /** Unlinks `x`. */
  function Without(w: seq<nat>, x: nat): (r: seq<nat>) {
    if x in w then w[..IndexOf(w, x)] + w[IndexOf(w, x) + 1..] else w
  }

  /** Links `x` before position `k`, or at the end. */
  function InsertAt(w: seq<nat>, k: nat, x: nat): (r: seq<nat>) {
    if k <= |w| then w[..k] + [x] + w[k..] else w + [x]
  }

  /** Unlinking cuts the first occurrence out; the others keep their order. */
  lemma WithoutIsCut(w: seq<nat>, x: nat)
    ensures if x in w then exists k :: 0 <= k < |w| && w[k] == x && x !in w[..k] && Without(w, x) == w[..k] + w[k + 1..]
            else Without(w, x) == w
  {
    if x in w { IndexIsFirst(w, x); }
  }

  lemma {:induction false} IndexIsFirst(w: seq<nat>, x: nat)
    requires x in w
    ensures x !in w[..IndexOf(w, x)]
  {
    if w[0] != x {
      IndexIsFirst(w[1..], x);
      var k := IndexOf(w[1..], x);
      assert w[..1 + k] == [w[0]] + w[1..][..k];
    }
  }

  lemma WithoutFacts(w: seq<nat>, x: nat)
    requires NoDup(w)
    ensures NoDup(Without(w, x)) && forall y :: y in Without(w, x) <==> y in w && y != x
  {
    if x in w {
      var k := IndexOf(w, x);
      var r := w[..k] + w[k + 1..];
      assert NoDup(r) by {
        assert forall i :: 0 <= i < |r| ==> r[i] == w[if i < k then i else i + 1];
      }
      forall y
        ensures y in r <==> y in w && y != x
      {
        CutMembers(w, k, y);
      }
      hide NoDup;
    }
  }

  lemma CutMembers(w: seq<nat>, k: nat, y: nat)
    requires NoDup(w) && k < |w|
    ensures y in w[..k] + w[k + 1..] <==> y in w && y != w[k]
  {
    if y in w[..k] || y in w[k + 1..] {
      assert y in w && y != w[k];
    }
    assert w == w[..k] + [w[k]] + w[k + 1..];
  }

  /** Removing the first element. */
  lemma WithoutFirst(w: seq<nat>)
    requires w != []
    ensures Without(w, w[0]) == w[1..]
  {
  }

  lemma InsertFacts(w: seq<nat>, k: nat, x: nat)
    requires NoDup(w) && x !in w
    ensures NoDup(InsertAt(w, k, x)) && forall y :: y in InsertAt(w, k, x) <==> y in w || y == x
  {
    var n := if k <= |w| then k else |w|;
    var r := InsertAt(w, k, x);
    assert forall i :: 0 <= i < |r| ==> r[i] == if i < n then w[i] else if i == n then x else w[i - 1];
    forall y | y in w
      ensures y in r
    {
      var i :| 0 <= i < |w| && w[i] == y;
      assert r[if i < n then i else i + 1] == y;
    }
  }

  lemma AppendFacts(w: seq<nat>, x: nat)
    requires NoDup(w) && x !in w
    ensures NoDup(w + [x])
  {
  }

  lemma TailFacts(w: seq<nat>)
    requires NoDup(w) && w != []
    ensures NoDup(w[1..]) && forall y :: y in w[1..] <==> y in w && y != w[0]
  {
    WithoutFirst(w);
    WithoutFacts(w, w[0]);
  }
}
