/** Powers of two and ring positions, shared by the collective protocols. */
module Arith {

  function Pow2(i: nat): (r: nat)
    ensures r >= 1
  {
    if i == 0 then 1 else 2 * Pow2(i - 1)
  }

  lemma {:induction false} Pow2Grows(i: nat, j: nat)
    requires i <= j
    ensures Pow2(i) <= Pow2(j)
    decreases j
  {
    if i < j { Pow2Grows(i, j - 1); }
  }

  lemma {:induction false} Pow2Exceeds(i: nat)
    ensures Pow2(i) > i
  {
    if i > 0 { Pow2Exceeds(i - 1); }
  }

  /** The rank `k` places before rank `p` on a ring of n. */
  function Before(p: int, k: int, n: nat): (r: nat)
    requires n > 0
    ensures r < n
  {
    (p - k) % n
  }

  lemma ModPlusMultiple(a: int, n: nat, m: int)
    requires n > 0
    ensures (a + m * n) % n == a % n
  {
    var q, r := a / n, a % n;
    assert a == q * n + r;
    assert a + m * n == (q + m) * n + r;
    DivModUnique(a + m * n, n, q + m, r);
  }

  lemma {:induction false} MulAtLeast(k: nat, n: nat)
    requires k > 0
    ensures k * n >= n
    decreases k
  {
    if k > 1 { MulAtLeast(k - 1, n); }
  }

  lemma {:induction false} MulTwice(k: nat, n: nat)
    requires k >= 2
    ensures k * n >= 2 * n && n * k == k * n
    decreases k
  {
    if k > 2 { MulTwice(k - 1, n); }
  }

  lemma FloorMultiple(a: nat, n: nat)
    requires n > 0
    ensures a % n <= a && a / n * n == a - a % n
  {
    var q := a / n;
    assert a == q * n + a % n && q * n >= 0;
  }

  /** A multiple of n that lies strictly between -n and n is 0. */
  lemma SmallMultiple(k: int, n: nat)
    requires -(n as int) < k * n < n
    ensures k == 0
  {
    if k > 0 { MulAtLeast(k, n); }
    assert k * n == -((-k) * n);
    if k < 0 { MulAtLeast(-k, n); }
  }

  lemma DivModUnique(a: int, n: nat, q: int, r: int)
    requires n > 0 && 0 <= r < n && a == q * n + r
    ensures a / n == q && a % n == r
  {
    var q', r' := a / n, a % n;
    assert a == q' * n + r';
    assert (q - q') * n == q * n - q' * n;
    SmallMultiple(q - q', n);
  }

  /** Going back j places and then k places is going back j + k places. */
  lemma BeforeBefore(p: int, j: int, k: int, n: nat)
    requires n > 0
    ensures Before(Before(p, j, n), k, n) == Before(p, j + k, n)
  {
    var d := (p - j) / n;
    assert (p - j) % n == p - j - d * n;
    ModPlusMultiple(p - j - k, n, -d);
    assert p - j - d * n - k == p - j - k + (-d) * n;
  }

  lemma SmallMod(a: nat, n: nat)
    requires a < n
    ensures a % n == a
  {
  }

  /** Stepping from p to the rank d places after it, and back. */
  lemma BeforeAfter(p: nat, d: int, n: nat)
    requires p < n
    ensures Before((p + d) % n, d, n) == p
    ensures (Before(p, d, n) + d) % n == p
  {
    BeforeBefore(p, -d, d, n);
    SmallMod(p, n);
    BeforeBefore(p, d, -d, n);
  }

  /**
    On a ring where round h of rank p handles item (p - h) mod n, the item that rank r takes in
    round h, item (r - h - 1) mod n, leads back to h.
  */
  lemma ArrivalRound(r: nat, h: nat, n: nat)
    requires n > 0
    ensures Before(r, Before(r, h + 1, n) + 1, n) == h % n
  {
    var d := (r - (h + 1)) / n;
    assert Before(r, h + 1, n) == r - h - 1 - d * n;
    ModPlusMultiple(h, n, d);
  }

  /** The item that reaches r in round a started a + 1 ranks before r. */
  lemma ArrivalOrigin(r: nat, c: nat, n: nat)
    requires r < n && c < n
    ensures (c + Before(r, c + 1, n) + 1) % n == r
  {
    var d := (r - (c + 1)) / n;
    assert Before(r, c + 1, n) == r - c - 1 - d * n;
    ModPlusMultiple(r, n, -d);
    SmallMod(r, n);
    assert c + Before(r, c + 1, n) + 1 == r + (-d) * n;
  }

  /** Rank r takes item c in round h exactly when c's arrival round at r is h, modulo n. */
  lemma RoundOfItem(r: nat, h: nat, c: nat, n: nat)
    requires n > 0 && r < n && c < n
    ensures c == Before(r, h + 1, n) <==> Before(r, c + 1, n) == h % n
  {
    ArrivalRound(r, h, n);
    ArrivalRound(r, c, n);
    SmallMod(c, n);
    if Before(r, c + 1, n) == h % n {
      var d := h / n;
      assert h % n == h - d * n;
      ModPlusMultiple(r - h - 1, n, d);
      assert r - (h % n + 1) == r - h - 1 + d * n;
    }
  }

  lemma ModBelowTwice(h: nat, n: nat)
    requires h < 2 * n
    ensures h % n == if h < n then h else h - n
  {
    if h >= n { DivModUnique(h, n, 1, h - n); }
  }
}
