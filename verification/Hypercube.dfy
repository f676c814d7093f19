/** Ranks as bit strings: the partners and the groups of the recursive-doubling collectives. */
module Hypercube {
  import opened Arith

  /** p without its lowest i bits. */
  function Shift(p: nat, i: nat): nat {
    if i == 0 then p else Shift(p / 2, i - 1)
  }

  /** p with bit i the other way. */
  function Flip(p: nat, i: nat): nat {
    if i == 0 then (if p % 2 == 0 then p + 1 else p - 1)
    else 2 * Flip(p / 2, i - 1) + p % 2
  }

  lemma {:induction false} ShiftHalves(p: nat, i: nat)
    ensures Shift(p, i + 1) == Shift(p, i) / 2
  {
    if i > 0 { ShiftHalves(p / 2, i - 1); }
  }

  lemma {:induction false} ShiftToZero(p: nat, k: nat)
    requires p < Pow2(k)
    ensures Shift(p, k) == 0
  {
    if k > 0 { ShiftToZero(p / 2, k - 1); }
  }

  /** Flipping a bit twice changes nothing, and the lower partner is the one whose bit is clear. */
  lemma {:induction false} FlipTwice(p: nat, i: nat)
    ensures Flip(Flip(p, i), i) == p
    ensures p < Flip(p, i) <==> Shift(p, i) % 2 == 0
    ensures p != Flip(p, i)
  {
    if i > 0 { FlipTwice(p / 2, i - 1); }
  }

  /** A flip swaps the two halves of the pair of groups the rank lies in. */
  lemma {:induction false} FlipSwapsHalves(p: nat, i: nat)
    ensures Shift(Flip(p, i), i) == Flip(Shift(p, i), 0)
    ensures Shift(Flip(p, i), i + 1) == Shift(p, i + 1)
  {
    ShiftHalves(p, i);
    ShiftHalves(Flip(p, i), i);
    if i > 0 { FlipSwapsHalves(p / 2, i - 1); }
  }

  lemma {:induction false} FlipStaysBelow(p: nat, i: nat, k: nat)
    requires p < Pow2(k) && i < k
    ensures Flip(p, i) < Pow2(k)
  {
    var m := Pow2(k - 1);
    assert Pow2(k) == 2 * m;
    var h, b := p / 2, p % 2;
    assert p == 2 * h + b && h < m;
    if i == 0 {
      assert Flip(p, i) <= 2 * h + 1;
    } else {
      FlipStaysBelow(h, i - 1, k - 1);
      assert Flip(p, i) == 2 * Flip(h, i - 1) + b;
    }
  }

  /** The partner is exactly 2^i away. */
  lemma {:induction false} FlipDistance(p: nat, i: nat)
    ensures Flip(p, i) == if Shift(p, i) % 2 == 0 then p + Pow2(i) else p - Pow2(i)
  {
    if i > 0 { FlipDistance(p / 2, i - 1); }
  }

  lemma DoubleProduct(a: nat, b: nat)
    ensures a * (2 * b) == 2 * (a * b)
  {
  }

  /** The ranks of a group are a run of 2^i, aligned at a multiple of 2^i. */
  lemma {:induction false} ShiftIsQuotient(p: nat, i: nat)
    ensures Shift(p, i) * Pow2(i) <= p < (Shift(p, i) + 1) * Pow2(i)
  {
    if i > 0 {
      ShiftIsQuotient(p / 2, i - 1);
      var a, b := Shift(p, i), Pow2(i - 1);
      DoubleProduct(a, b);
      DoubleProduct(a + 1, b);
      var lo, hi := a * b, (a + 1) * b;
      assert lo <= p / 2 < hi;
      assert 2 * lo <= p < 2 * hi;
    }
  }

  /**
    The largest power of two that is at most n, and its logarithm, counted up as the reduction
    counts them.
  */
  method LargestPow2(n: nat) returns (log2: nat, pow2: nat)
    requires n >= 2
    ensures log2 >= 1 && pow2 == Pow2(log2) && pow2 <= n < 2 * pow2
  {
    log2, pow2 := 1, 2;
    var i := n / 2;
    while i != 1
      invariant i >= 1 && log2 >= 1 && pow2 == Pow2(log2)
      invariant i * pow2 <= n < (i + 1) * pow2
      decreases i
    {
      HalvingKeepsQuotient(i, pow2, n);
      i := i / 2;
      pow2 := pow2 * 2;
      log2 := log2 + 1;
    }
  }

  lemma HalvingKeepsQuotient(i: nat, m: nat, n: nat)
    requires i * m <= n < (i + 1) * m
    ensures i / 2 * (m * 2) <= n < (i / 2 + 1) * (m * 2)
  {
    var h := i / 2;
    assert h * (m * 2) == 2 * h * m && (h + 1) * (m * 2) == (2 * h + 2) * m;
    if i == 2 * h {
      assert (2 * h + 2) * m == (i + 1) * m + m;
    } else {
      assert i == 2 * h + 1;
      assert i * m == 2 * h * m + m;
    }
  }
}
