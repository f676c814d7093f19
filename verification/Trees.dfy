/**
  The two trees the collectives of src/collectives.c communicate along: the k-ary tree over an
  active set, rotated so that any PE can be its root, and the full tree over all PEs.

  Tree positions are ids 0 .. n - 1 with the root at id 0.
*/
module Trees {
  import opened Arith

  /**
    A tree over ids 0 .. n - 1: the root is its own parent, every other parent is smaller, and
    kids(p) lists without repetition exactly the ids whose parent is p.
  */
  datatype Tree = Tree(n: nat, parent: seq<nat>, kids: seq<seq<nat>>)

  predicate IsKid(t: Tree, p: nat, c: nat)
    requires |t.parent| == t.n
  {
    0 < c < t.n && t.parent[c] == p
  }

  ghost predicate ValidTree(t: Tree) {
    && t.n > 0 && |t.parent| == |t.kids| == t.n
    && t.parent[0] == 0
    && (forall p :: 0 < p < t.n ==> t.parent[p] < p)
    && (forall p, i, j :: 0 <= p < t.n && 0 <= i < j < |t.kids[p]| ==> t.kids[p][i] != t.kids[p][j])
    && (forall p, c :: 0 <= p < t.n && c in t.kids[p] ==> IsKid(t, p, c))
    && (forall p, c :: 0 <= p < t.n && IsKid(t, p, c) ==> c in t.kids[p])
  }

  function Ancestor(t: Tree, p: nat, k: nat): (r: nat)
    requires t.n > 0 && |t.parent| == t.n && (forall q :: 0 <= q < t.n ==> t.parent[q] < t.n) && p < t.n
    ensures r < t.n
  {
    if k == 0 then p else t.parent[Ancestor(t, p, k - 1)]
  }

  lemma {:induction false} AncestorDescends(t: Tree, p: nat, k: nat)
    requires ValidTree(t) && p < t.n
    ensures forall q :: 0 <= q < t.n ==> t.parent[q] < t.n
    ensures Ancestor(t, p, k) <= (if k <= p then p - k else 0)
  {
    if k > 0 { AncestorDescends(t, p, k - 1); }
  }

  /** A valid tree spans: every id reaches the root, and only the root is its own parent. */
  lemma TreeSpans(t: Tree, p: nat)
    requires ValidTree(t) && p < t.n
    ensures forall q :: 0 <= q < t.n ==> t.parent[q] < t.n
    ensures Ancestor(t, p, p) == 0
    ensures t.parent[p] == p <==> p == 0
  {
    AncestorDescends(t, p, p);
  }

  // ------------------------------------------------------------------ the k-ary tree

  /** C's integer division, which truncates towards zero. */
  function CDiv(a: int, b: int): int
    requires b != 0
  {
    if a >= 0 then a / b else -((-a) / b)
  }

  /** C's remainder, which has the sign of the dividend. */
  function CMod(a: int, b: int): int
    requires b != 0
  {
    a - CDiv(a, b) * b
  }

  /** The id, counted from the root, of an active-set member, and back. */
  function IdOfPe(pe: int, start: int, stride: int, size: nat, root: nat): (id: nat)
    requires stride != 0 && root < size && CDiv(pe - start, stride) >= 0
    ensures id < size
  {
    (CDiv(pe - start, stride) + size - root) % size
  }

  function PeOfId(id: nat, start: int, stride: int, size: nat, root: nat): int
    requires size > 0
  {
    start + ((root + id) % size) * stride
  }

  function KaryParent(id: nat, radix: nat): nat
    requires radix > 0
  {
    if id == 0 then 0 else (id - 1) / radix
  }

  /** Ids radix * id + 1 .. radix * id + m, cut off at size. */
  function KaryKids(id: nat, radix: nat, size: nat, m: nat): (r: seq<nat>)
    ensures |r| <= m
  {
    if m == 0 then []
    else
      var rest := KaryKids(id, radix, size, m - 1);
      if radix * id + m < size then rest + [radix * id + m] else rest
  }

  function PesOfIds(ids: seq<nat>, start: int, stride: int, size: nat, root: nat): (r: seq<int>)
    requires size > 0
    ensures |r| == |ids|
  {
    seq(|ids|, i requires 0 <= i < |ids| => PeOfId(ids[i], start, stride, size, root))
  }

  /** The numbering of an active set from its root is one-to-one onto 0 .. size - 1, with the root as 0. */
  lemma IdsAreOneToOne(k: nat, id: nat, start: int, stride: int, size: nat, root: nat)
    requires stride != 0 && root < size && k < size && id < size
    ensures CDiv(start + k * stride - start, stride) == k
    ensures PeOfId(IdOfPe(start + k * stride, start, stride, size, root), start, stride, size, root) == start + k * stride
    ensures CDiv(PeOfId(id, start, stride, size, root) - start, stride) >= 0
    ensures IdOfPe(PeOfId(id, start, stride, size, root), start, stride, size, root) == id
    ensures PeOfId(0, start, stride, size, root) == start + root * stride
  {
    SmallMod(root, size);
    RankOfMember(k, start, stride);
    ModBelowTwice(k + size - root, size);
    var k' := (root + id) % size;
    RankOfMember(k', start, stride);
    ModBelowTwice(root + id, size);
    ModBelowTwice(k' + size - root, size);
    hide CDiv;
    var i := IdOfPe(start + k * stride, start, stride, size, root);
    ModBelowTwice(root + i, size);
  }

  lemma RankOfMember(k: nat, start: int, stride: int)
    requires stride != 0
    ensures CDiv(start + k * stride - start, stride) == k
  {
    var a := k * stride;
    if stride > 0 {
      MultipleQuotient(k, stride);
    } else {
      var n: nat := 0 - stride;
      var b: nat := k * n;
      MultipleQuotient(k, n);
      assert a == 0 - b;
      NegativeDivisor(b, n);
    }
  }

  lemma MultipleQuotient(k: nat, n: nat)
    requires n > 0
    ensures (k * n) / n == k
  {
    DivModUnique(k * n, n, k, 0);
  }

  lemma NegativeDivisor(x: nat, n: nat)
    requires n > 0
    ensures x / (0 - n) == 0 - x / n
  {
  }

  /** The parent as the code computes it. */
  function CodedParent(id: nat, radix: nat, start: int, stride: int, size: nat, root: nat): int
    requires radix > 0 && size > 0
  {
    start + CMod(CDiv(id - 1, radix) + root, size) * stride
  }

  /**
    For the root the code divides -1 by the radix.  That gives 0, as it should, unless the radix
    is 1: then the root takes the PE before it for its parent, or one before the active set.
  */
  lemma RootParentNeedsRadix(id: nat, radix: nat, start: int, stride: int, size: nat, root: nat)
    requires radix > 0 && stride != 0 && root < size && id < size
    ensures var parent := CodedParent(id, radix, start, stride, size, root);
            && (parent == PeOfId(KaryParent(id, radix), start, stride, size, root) <==> radix >= 2 || id > 0 || size == 1)
            && (radix == 1 && id == 0 && size > 1 ==> parent == start + (root - 1) * stride)
  {
    var q := CDiv(id - 1, radix);
    if id == 0 && radix == 1 {
      assert q == -1;
      if size == 1 {
        RemainderOfOne(root - 1);
        ModBelowTwice(root, size);
      } else {
        assert CMod(root - 1, size) == root - 1 by {
          if root == 0 { SmallMod(1, size); DivModUnique(1, size, 0, 1); } else { DivModUnique(root - 1, size, 0, root - 1); }
        }
        DivModUnique(root, size, 0, root);
        assert root * stride == (root - 1) * stride + stride;
      }
    } else {
      assert q == KaryParent(id, radix) by {
        if id == 0 { DivModUnique(1, radix, 0, 1); }
      }
      RemainderOfNat(q + root, size);
    }
  }

  lemma RemainderOfNat(a: nat, b: nat)
    requires b > 0
    ensures CMod(a, b) == a % b
  {
    assert a == a / b * b + a % b;
  }

  lemma RemainderOfOne(a: int)
    ensures CMod(a, 1) == 0
  {
  }

  /**
    Parent and children of the calling PE in the k-ary tree over <start, stride, size> rooted
    at rank `root`.  Children are written to the front of the caller's array.  With radix 1 and
    more than one PE the root, and only the root, gets a wrong parent.
  */
  method BuildKaryTree(myPe: int, radix: nat, start: int, stride: int, size: nat, root: nat, children: array<int>)
    returns (parent: int, numChildren: nat)
    requires radix >= 1 && stride != 0 && root < size && CDiv(myPe - start, stride) >= 0 && children.Length >= radix
    modifies children
    ensures var id := IdOfPe(myPe, start, stride, size, root);
            if radix == 1 && id == 0 && size > 1 then parent == start + (root - 1) * stride
            else parent == PeOfId(KaryParent(id, radix), start, stride, size, root)
    ensures numChildren <= radix
    ensures children[..numChildren] ==
            PesOfIds(KaryKids(IdOfPe(myPe, start, stride, size, root), radix, size, radix), start, stride, size, root)
    ensures children[numChildren..] == old(children[numChildren..])
  {
    var myId := (CDiv(myPe - start, stride) + size - root) % size;
    parent := start + CMod(CDiv(myId - 1, radix) + root, size) * stride;
    RootParentNeedsRadix(myId, radix, start, stride, size, root);
    numChildren := 0;
    var i := 1;
    while i <= radix
      invariant 1 <= i <= radix + 1
      invariant numChildren == |KaryKids(myId, radix, size, i - 1)|
      invariant children[..numChildren] == PesOfIds(KaryKids(myId, radix, size, i - 1), start, stride, size, root)
      invariant children[numChildren..] == old(children[..])[numChildren..]
    {
      var tmp := radix * myId + i;
      if tmp < size {
        var childIdx := (root + tmp) % size;
        children[numChildren] := start + childIdx * stride;
        numChildren := numChildren + 1;
      }
      i := i + 1;
    }
  }

  lemma {:induction false} KaryKidsRange(id: nat, radix: nat, size: nat, m: nat, c: nat)
    ensures c in KaryKids(id, radix, size, m) <==> radix * id < c <= radix * id + m && c < size
  {
    if m > 0 { KaryKidsRange(id, radix, size, m - 1, c); }
  }

  lemma {:induction false} KaryKidsAscend(id: nat, radix: nat, size: nat, m: nat, i: nat, j: nat)
    requires i < j < |KaryKids(id, radix, size, m)|
    ensures KaryKids(id, radix, size, m)[i] < KaryKids(id, radix, size, m)[j]
  {
    var rest := KaryKids(id, radix, size, m - 1);
    if j < |rest| {
      KaryKidsAscend(id, radix, size, m - 1, i, j);
    } else {
      assert rest[i] in rest;
      KaryKidsRange(id, radix, size, m - 1, rest[i]);
    }
  }

  /** (c - 1) / radix is id exactly for the radix values of c after radix * id. */
  lemma QuotientRange(c: nat, radix: nat, id: nat)
    requires radix > 0 && c > 0
    ensures (c - 1) / radix == id <==> radix * id < c <= radix * id + radix
    ensures (c - 1) / radix < c
  {
    var q := (c - 1) / radix;
    assert c - 1 == q * radix + (c - 1) % radix;
    if radix * id < c <= radix * id + radix {
      DivModUnique(c - 1, radix, id, c - 1 - id * radix);
    }
    if q > 0 { MulAtLeast(radix, q); assert radix * q == q * radix; }
  }

  /** Parent and children are inverse to each other across PEs. */
  lemma KaryInverse(id: nat, radix: nat, size: nat, c: nat)
    requires radix > 0 && id < size
    ensures c in KaryKids(id, radix, size, radix) <==> 0 < c < size && KaryParent(c, radix) == id
    ensures c > 0 ==> KaryParent(c, radix) < c
  {
    hide KaryKids;
    KaryKidsRange(id, radix, size, radix, c);
    if c > 0 { QuotientRange(c, radix, id); } else { assert radix * id >= 0; }
  }

  function KaryTree(radix: nat, size: nat): (t: Tree)
    requires radix >= 2
  {
    Tree(size,
         seq(size, p requires 0 <= p < size => KaryParent(p, radix)),
         seq(size, p requires 0 <= p < size => KaryKids(p, radix, size, radix)))
  }

  /** The k-ary tree is a spanning tree for every size and every radix of at least 2. */
  lemma KaryTreeIsValid(radix: nat, size: nat)
    requires radix >= 2 && size > 0
    ensures ValidTree(KaryTree(radix, size))
  {
    var t := KaryTree(radix, size);
    forall p | 0 < p < size ensures t.parent[p] < p {
      KaryInverse(0, radix, size, p);
    }
    forall p, i, j | 0 <= p < size && 0 <= i < j < |t.kids[p]| ensures t.kids[p][i] != t.kids[p][j] {
      assert t.kids[p] == KaryKids(p, radix, size, radix);
      KaryKidsAscend(p, radix, size, radix, i, j);
    }
    forall p, c | 0 <= p < size && c in t.kids[p] ensures IsKid(t, p, c) {
      KaryInverse(p, radix, size, c);
    }
    forall p, c | 0 <= p < size && IsKid(t, p, c) ensures c in t.kids[p] {
      KaryInverse(p, radix, size, c);
    }
  }

  // ------------------------------------------------------------------ the full tree

  /** The parent of me > 0: me with its lowest non-zero base-radix digit cleared. */
  function FullParentFrom(me: nat, radix: nat, i: nat): (r: nat)
    requires radix >= 2 && me > 0 && i > 0
    ensures r <= me
    decreases if i <= me then me - i else 0
  {
    if i > me then 0
    else
      MulTwice(radix, i);
      FloorMultiple(me, radix * i);
      if me % (radix * i) != 0 then me - me % (radix * i) else FullParentFrom(me, radix, radix * i)
  }

  function FullParent(me: nat, radix: nat): nat
    requires radix >= 2
  {
    if me == 0 then 0 else FullParentFrom(me, radix, 1)
  }

  /** The group size the code uses at level i: n / i + 1 once fewer than radix subtrees are left. */
  function LevelRadix(n: nat, radix: nat, i: nat): (r: nat)
    requires radix >= 2 && 0 < i
    ensures r > 0
  {
    if n / i < radix then n / i + 1 else radix
  }

  /** me + i * 1 .. me + i * m, cut off at n. */
  function LevelKids(me: nat, n: nat, i: nat, m: nat): (r: seq<nat>)
  {
    if m == 0 then []
    else
      var rest := LevelKids(me, n, i, m - 1);
      if me + i * m < n then rest + [me + i * m] else rest
  }

  /** Is `me` the first of its group at level i? */
  predicate LeadsLevel(me: nat, n: nat, radix: nat, i: nat)
    requires radix >= 2 && 0 < i
  {
    me / (LevelRadix(n, radix, i) * i) * (LevelRadix(n, radix, i) * i) == me
  }

  /** The children found from level i up. */
  function FullKidsFrom(me: nat, n: nat, radix: nat, i: nat): (r: seq<nat>)
    requires radix >= 2 && 0 < i
    decreases if i <= n then n - i + 1 else 0
  {
    if i > n || !LeadsLevel(me, n, radix, i) then []
    else
      MulTwice(radix, i);
      LevelKids(me, n, i, LevelRadix(n, radix, i) - 1) + FullKidsFrom(me, n, radix, i * radix)
  }

  function Reversed<T>(s: seq<T>): (r: seq<T>)
    ensures |r| == |s| && forall k :: 0 <= k < |s| ==> r[k] == s[|s| - 1 - k]
  {
    seq(|s|, k requires 0 <= k < |s| => s[|s| - 1 - k])
  }

  lemma ModOfSum(x: nat, d: nat, m: nat)
    requires m > 0 && x % m == 0 && d < m
    ensures (x + d) % m == d
  {
    DivModUnique(x + d, m, x / m, d);
  }

  lemma CoarserMultiple(x: nat, radix: nat, i: nat)
    requires radix > 0 && i > 0 && radix * i > 0 && x % (radix * i) == 0
    ensures x % i == 0
  {
    var q := x / (radix * i);
    assert x == q * (radix * i) == (q * radix) * i;
    DivModUnique(x, i, q * radix, 0);
  }

  lemma DivBelow(n: nat, radix: nat, i: nat)
    requires i > 0
    ensures n / i < radix <==> n < radix * i
  {
    var q := n / i;
    assert n == q * i + n % i;
    if q < radix { MulAtLeast(radix - q, i); assert (radix - q) * i == radix * i - q * i; }
    if q >= radix { assert (q - radix) * i == q * i - radix * i; assert (q - radix) * i >= 0; }
  }

  /** Leading a level means being a multiple of radix * i: the odd group size changes nothing. */
  lemma LeadsIsMultiple(me: nat, n: nat, radix: nat, i: nat)
    requires radix >= 2 && 0 < i && me < n && radix * i > 0
    ensures LeadsLevel(me, n, radix, i) <==> me % (radix * i) == 0
  {
    var g := LevelRadix(n, radix, i) * i;
    DivBelow(n, radix, i);
    assert g > 0 by { MulAtLeast(LevelRadix(n, radix, i), i); }
    assert me == me / g * g + me % g;
    if n / i < radix {
      assert g == n / i * i + i && n == n / i * i + n % i;
      SmallMod(me, g);
      SmallMod(me, radix * i);
    }
  }

  lemma {:induction false} LevelKidsRange(me: nat, n: nat, i: nat, m: nat, c: nat)
    requires i > 0
    ensures c in LevelKids(me, n, i, m) <==> me < c <= me + i * m && c < n && (c - me) % i == 0
  {
    if m > 0 {
      LevelKidsRange(me, n, i, m - 1, c);
      assert i * m == i * (m - 1) + i;
      DivModUnique(i * m, i, m, 0);
      if me < c <= me + i * m && (c - me) % i == 0 && c > me + i * (m - 1) {
        var d := c - me - i * (m - 1);
        DivModUnique(i * (m - 1), i, m - 1, 0);
        if d < i { ModOfSum(i * (m - 1), d, i); }
      }
    } else {
      assert i * m == 0;
    }
  }

  lemma {:induction false} FullParentIsMultiple(c: nat, radix: nat, i: nat)
    requires radix >= 2 && c > 0 && i > 0 && c % i == 0
    ensures FullParentFrom(c, radix, i) % i == 0 && FullParentFrom(c, radix, i) < c
    decreases if i <= c then c - i else 0
  {
    if i <= c {
      var m := radix * i;
      MulTwice(radix, i);
      var p := FullParentFrom(c, radix, i);
      if c % m == 0 {
        FullParentIsMultiple(c, radix, m);
      } else {
        assert p == c / m * m;
        DivModUnique(p, m, c / m, 0);
      }
      CoarserMultiple(p, radix, i);
    } else {
      SmallMod(c, i);
    }
  }

  /** Multiples of i subtract to multiples of i. */
  lemma MultiplesSubtract(x: nat, y: nat, i: nat)
    requires i > 0 && y <= x && y % i == 0
    ensures x % i == 0 <==> (x - y) % i == 0
  {
    assert y == y / i * i;
    ModPlusMultiple(x - y, i, y / i);
  }

  /** The largest multiple of i below radix * i. */
  lemma LastMultiple(d: nat, radix: nat, i: nat)
    requires radix > 0 && i > 0 && d % i == 0 && d < radix * i
    ensures d <= radix * i - i
  {
    var q := d / i;
    assert d == q * i;
    if q >= radix { MulAtMost(radix, q, i); }
    MulAtMost(q, radix - 1, i);
    assert (radix - 1) * i == radix * i - i;
  }

  lemma MulAtMost(x: nat, y: nat, i: nat)
    requires x <= y
    ensures x * i <= y * i
  {
  }

  /** Above a multiple of radix * i, one digit at level i. */
  lemma DigitAbove(me: nat, radix: nat, i: nat, c: nat)
    requires radix >= 2 && 0 < i && radix * i > 0 && me % (radix * i) == 0
    ensures me < c <= me + radix * i - i && (c - me) % i == 0 <==>
            c % i == 0 && c % (radix * i) != 0 && c - c % (radix * i) == me
  {
    var m := radix * i;
    CoarserMultiple(me, radix, i);
    if me <= c {
      MultiplesSubtract(c, me, i);
      if c - me < m {
        ModOfSum(me, c - me, m);
        if (c - me) % i == 0 { LastMultiple(c - me, radix, i); }
      }
    }
  }

  /** With fewer than radix subtrees left, the code's shorter loop still reaches every id below n. */
  lemma ShortLevel(n: nat, radix: nat, i: nat, c: nat)
    requires i > 0 && c < n && c % i == 0 && n < radix * i
    ensures c <= i * (n / i)
    ensures c <= radix * i - i
  {
    LastMultiple(c, radix, i);
    MultipleBelow(n, i, c);
  }

  /** A multiple of i below n is at most the largest one. */
  lemma MultipleBelow(n: nat, i: nat, c: nat)
    requires i > 0 && c < n && c % i == 0
    ensures c <= i * (n / i)
  {
    var q := n / i;
    assert n == q * i + n % i;
    DivModUnique(q * i, i, q, 0);
    if c > q * i {
      MultiplesSubtract(c, q * i, i);
      SmallMod(c - q * i, i);
    }
  }

  /** Where the code's inner loop stops at level i, the true last child or beyond. */
  lemma LevelBound(me: nat, n: nat, radix: nat, i: nat, c: nat)
    requires radix >= 2 && 0 < i && me < n && radix * i > 0 && me % (radix * i) == 0
    requires c < n && c % i == 0
    ensures c <= me + i * (LevelRadix(n, radix, i) - 1) <==> c <= me + radix * i - i
  {
    DivBelow(n, radix, i);
    if n / i < radix {
      SmallMod(me, radix * i);
      ShortLevel(n, radix, i, c);
    } else {
      assert i * (radix - 1) == radix * i - i;
    }
  }

  /** The ids found at level i are the ones whose lowest non-zero digit is at that level. */
  lemma LevelKidsAreKids(me: nat, n: nat, radix: nat, i: nat, c: nat)
    requires radix >= 2 && 0 < i && me < n && radix * i > 0 && me % (radix * i) == 0
    ensures c in LevelKids(me, n, i, LevelRadix(n, radix, i) - 1) <==>
            c < n && c % i == 0 && c % (radix * i) != 0 && c - c % (radix * i) == me
  {
    hide LevelKids, LevelRadix;
    LevelKidsRange(me, n, i, LevelRadix(n, radix, i) - 1, c);
    DigitAbove(me, radix, i, c);
    if me <= c < n {
      CoarserMultiple(me, radix, i);
      MultiplesSubtract(c, me, i);
      if c % i == 0 { LevelBound(me, n, radix, i, c); }
    }
  }

  /** From level i up, the children found are exactly the ids whose parent this PE is. */
  lemma {:induction false} FullInverseFrom(me: nat, n: nat, radix: nat, i: nat, c: nat)
    requires radix >= 2 && 0 < i && me < n && me % i == 0
    ensures c in FullKidsFrom(me, n, radix, i) <==>
            0 < c < n && c % i == 0 && FullParentFrom(c, radix, i) == me
    decreases if i <= n then n - i + 1 else 0
  {
    if i > n {
      if 0 < c < n { SmallMod(c, i); }
    } else {
      var m := radix * i;
      MulTwice(radix, i);
      LeadsIsMultiple(me, n, radix, i);
      if 0 < c < n && c % i == 0 {
        if c < i { SmallMod(c, i); }
        if c % m == 0 {
          FullParentIsMultiple(c, radix, m);
        } else {
          DivModUnique(c - c % m, m, c / m, 0);
        }
      }
      if me % m == 0 {
        LevelKidsAreKids(me, n, radix, i, c);
        FullInverseFrom(me, n, radix, m, c);
        if 0 < c && c % m == 0 { CoarserMultiple(c, radix, i); }
        }
    }
  }

  /** Parent and children of the full tree are inverse to each other across PEs. */
  lemma FullInverse(me: nat, n: nat, radix: nat, c: nat)
    requires radix >= 2 && me < n
    ensures c in FullKidsFrom(me, n, radix, 1) <==> 0 < c < n && FullParent(c, radix) == me
    ensures c > 0 ==> FullParent(c, radix) < c
  {
    FullInverseFrom(me, n, radix, 1, c);
    if c > 0 { FullParentIsMultiple(c, radix, 1); }
  }

  lemma {:induction false} LevelKidsAscend(me: nat, n: nat, i: nat, m: nat, j: nat, k: nat)
    requires i > 0 && j < k < |LevelKids(me, n, i, m)|
    ensures LevelKids(me, n, i, m)[j] < LevelKids(me, n, i, m)[k]
  {
    var rest := LevelKids(me, n, i, m - 1);
    if k < |rest| {
      LevelKidsAscend(me, n, i, m - 1, j, k);
    } else {
      assert rest[j] in rest;
      LevelKidsRange(me, n, i, m - 1, rest[j]);
      assert i * m == i * (m - 1) + i;
    }
  }

  lemma NextMultiple(x: nat, y: nat, m: nat)
    requires m > 0 && x % m == 0 && y % m == 0 && x < y
    ensures y >= x + m
  {
    MultiplesSubtract(y, x, m);
    if y - x < m { SmallMod(y - x, m); }
  }

  /** The children are found in ascending order, so none is found twice. */
  lemma {:induction false} FullKidsAscend(me: nat, n: nat, radix: nat, i: nat, j: nat, k: nat)
    requires radix >= 2 && 0 < i && me < n && me % i == 0 && j < k < |FullKidsFrom(me, n, radix, i)|
    ensures FullKidsFrom(me, n, radix, i)[j] < FullKidsFrom(me, n, radix, i)[k]
    decreases if i <= n then n - i + 1 else 0
  {
    var m := radix * i;
    MulTwice(radix, i);
    hide LevelKids, LevelRadix, LeadsLevel, FullParentFrom;
    LeadsIsMultiple(me, n, radix, i);
    var level := LevelKids(me, n, i, LevelRadix(n, radix, i) - 1);
    var rest := FullKidsFrom(me, n, radix, m);
    if k < |level| {
      LevelKidsAscend(me, n, i, LevelRadix(n, radix, i) - 1, j, k);
    } else if j >= |level| {
      FullKidsAscend(me, n, radix, m, j - |level|, k - |level|);
    } else {
      var a, b := level[j], rest[k - |level|];
      assert a in level && b in rest;
      LevelKidsAreKids(me, n, radix, i, a);
      FullInverseFrom(me, n, radix, m, b);
      FullParentIsMultiple(b, radix, m);
      NextMultiple(me, b, m);
    }
  }

  lemma {:induction false} LevelKidsPrefix(me: nat, n: nat, i: nat, j: nat, m: nat)
    requires j <= m
    ensures LevelKids(me, n, i, j) <= LevelKids(me, n, i, m)
    decreases m - j
  {
    if j < m { LevelKidsPrefix(me, n, i, j, m - 1); }
  }

  /** A group that is larger than n has leader 0. */
  lemma ShortGroup(me: nat, n: nat, i: nat)
    requires i > 0 && me < n
    ensures (n / i + 1) * i > n && me / ((n / i + 1) * i) * ((n / i + 1) * i) == 0
  {
    var g := (n / i + 1) * i;
    assert g == n / i * i + i && n == n / i * i + n % i;
    FloorMultiple(me, g);
    SmallMod(me, g);
  }

  /** The leader of a PE that does not lead its group at level i is its parent. */
  lemma LeaderIsParent(me: nat, n: nat, radix: nat, i: nat)
    requires radix >= 2 && 0 < i && me < n && me % i == 0 && radix * i >= 2 * i && me % (radix * i) != 0
    ensures me > 0
    ensures FullParentFrom(me, radix, i) == me / (LevelRadix(n, radix, i) * i) * (LevelRadix(n, radix, i) * i)
  {
    if me < i { SmallMod(me, i); }
    DivBelow(n, radix, i);
    FloorMultiple(me, radix * i);
    if n / i < radix {
      ShortGroup(me, n, i);
      SmallMod(me, radix * i);
    }
  }

  /** The facts both loops use at level i. */
  lemma LevelFacts(me: nat, n: nat, radix: nat, i: nat)
    requires radix >= 2 && 0 < i && me < n && me % i == 0
    ensures i * radix >= 2 * i && i * radix == radix * i
    ensures LeadsLevel(me, n, radix, i) <==> me % (i * radix) == 0
    ensures !LeadsLevel(me, n, radix, i) ==>
              me > 0 && FullParentFrom(me, radix, i) == me / (LevelRadix(n, radix, i) * i) * (LevelRadix(n, radix, i) * i)
  {
    MulTwice(radix, i);
    LeadsIsMultiple(me, n, radix, i);
    if me % (radix * i) != 0 { LeaderIsParent(me, n, radix, i); }
  }

  /** The group size at level i and the leader of the calling PE's group. */
  method GroupLeader(me: nat, n: nat, radix: nat, i: nat) returns (tmpRadix: nat, myRoot: nat)
    requires radix >= 2 && 0 < i <= n && me < n && me % i == 0
    ensures i * radix >= 2 * i && tmpRadix >= 1
    ensures if myRoot == me then
              && FullKidsFrom(me, n, radix, i) == LevelKids(me, n, i, tmpRadix - 1) + FullKidsFrom(me, n, radix, i * radix)
              && me % (i * radix) == 0
              && (me > 0 ==> FullParentFrom(me, radix, i) == FullParentFrom(me, radix, i * radix))
            else FullKidsFrom(me, n, radix, i) == [] && me > 0 && myRoot == FullParentFrom(me, radix, i)
  {
    LevelFacts(me, n, radix, i);
    tmpRadix := if n / i < radix then n / i + 1 else radix;
    myRoot := me / (tmpRadix * i) * (tmpRadix * i);
    if me > 0 && me < i { SmallMod(me, i); }
  }

  /** The first loop: how many children the calling PE has. */
  method CountFullChildren(me: nat, n: nat, radix: nat) returns (numChildren: nat)
    requires radix >= 2 && me < n
    ensures numChildren == |FullKidsFrom(me, n, radix, 1)|
  {
    hide LevelRadix, LeadsLevel, FullParentFrom;
    numChildren := 0;
    var i := 1;
    while i <= n
      invariant i > 0 && me % i == 0
      invariant |FullKidsFrom(me, n, radix, 1)| == numChildren + |FullKidsFrom(me, n, radix, i)|
      decreases if i <= n then n - i + 1 else 0
    {
      var tmpRadix, myRoot := GroupLeader(me, n, radix, i);
      if myRoot != me { break; }
      var j := 1;
      ghost var before := numChildren;
      while j < tmpRadix
        invariant 1 <= j <= tmpRadix
        invariant numChildren == before + |LevelKids(me, n, i, j - 1)|
      {
        if me + i * j < n { numChildren := numChildren + 1; }
        j := j + 1;
      }
      i := i * radix;
    }
  }

  /** The second loop's inner loop: writes the children of one level, downwards from index k. */
  method FillLevel(me: nat, n: nat, i: nat, tmpRadix: nat, children: array<nat>, k: int, ghost all: seq<nat>)
    returns (k': int)
    requires tmpRadix >= 1 && -1 <= k < children.Length == |all|
    requires LevelKids(me, n, i, tmpRadix - 1) <= all[|all| - 1 - k..]
    requires forall x :: k < x < |all| ==> children[x] == all[|all| - 1 - x]
    modifies children
    ensures k' == k - |LevelKids(me, n, i, tmpRadix - 1)| && -1 <= k'
    ensures forall x :: k' < x < |all| ==> children[x] == all[|all| - 1 - x]
  {
    k' := k;
    var j := 1;
    while j < tmpRadix
      invariant 1 <= j <= tmpRadix
      invariant -1 <= k' <= k && k' == k - |LevelKids(me, n, i, j - 1)|
      invariant forall x :: k' < x < |all| ==> children[x] == all[|all| - 1 - x]
    {
      LevelKidsPrefix(me, n, i, j, tmpRadix - 1);
      if me + i * j < n {
        assert all[|all| - 1 - k..][k - k'] == LevelKids(me, n, i, j)[k - k'] == me + i * j;
        children[k'] := me + i * j;
        k' := k' - 1;
      }
      j := j + 1;
    }
  }

  /**
    The calling PE's parent and children in the tree over all n PEs.  The children counted by
    the first loop fill the array exactly, from its end; both loops leave at the first level
    where the PE is not the leader of its group, and that leader is the parent.
  */
  method BuildFullTree(me: nat, n: nat, radix: nat) returns (parent: nat, children: array<nat>)
    requires radix >= 2 && me < n
    ensures parent == FullParent(me, radix)
    ensures fresh(children)
    ensures children[..] == Reversed(FullKidsFrom(me, n, radix, 1))
  {
    hide LevelKids, LevelRadix, LeadsLevel, FullParentFrom;
    var numChildren := CountFullChildren(me, n, radix);
    children := new nat[numChildren];
    ghost var all := FullKidsFrom(me, n, radix, 1);
    parent := 0;
    var k: int := numChildren - 1;
    var i := 1;
    while i <= n
      invariant i > 0 && me % i == 0
      invariant me > 0 ==> FullParent(me, radix) == FullParentFrom(me, radix, i)
      invariant parent == (if i == 1 then 0 else me)
      invariant -1 <= k < numChildren
      invariant all[numChildren - 1 - k..] == FullKidsFrom(me, n, radix, i)
      invariant forall x :: k < x < numChildren ==> children[x] == all[numChildren - 1 - x]
      decreases if i <= n then n - i + 1 else 0
    {
      var tmpRadix;
      tmpRadix, parent := GroupLeader(me, n, radix, i);
      if parent != me { break; }
      k := FillLevel(me, n, i, tmpRadix, children, k, all);
      i := i * radix;
    }
    if me > 0 && i > n {
      SmallMod(me, i);
      assert false;
    }
  }

  function FullTree(radix: nat, n: nat): (t: Tree)
    requires radix >= 2
  {
    Tree(n,
         seq(n, p requires 0 <= p < n => FullParent(p, radix)),
         seq(n, p requires 0 <= p < n => Reversed(FullKidsFrom(p, n, radix, 1))))
  }

  /** The full tree is a spanning tree for every number of PEs and every radix of at least 2. */
  lemma FullTreeIsValid(radix: nat, n: nat)
    requires radix >= 2 && n > 0
    ensures ValidTree(FullTree(radix, n))
  {
    var t := FullTree(radix, n);
    forall p | 0 < p < n ensures t.parent[p] < p {
      FullInverse(0, n, radix, p);
    }
    forall p, i, j | 0 <= p < n && 0 <= i < j < |t.kids[p]| ensures t.kids[p][i] != t.kids[p][j] {
      var all := FullKidsFrom(p, n, radix, 1);
      FullKidsAscend(p, n, radix, 1, |all| - 1 - j, |all| - 1 - i);
    }
    forall p, c | 0 <= p < n && c in t.kids[p] ensures IsKid(t, p, c) {
      var i :| 0 <= i < |t.kids[p]| && t.kids[p][i] == c;
      assert c in FullKidsFrom(p, n, radix, 1);
      FullInverse(p, n, radix, c);
    }
    forall p, c | 0 <= p < n && IsKid(t, p, c) ensures c in t.kids[p] {
      FullInverse(p, n, radix, c);
      var all := FullKidsFrom(p, n, radix, 1);
      var i :| 0 <= i < |all| && all[i] == c;
      assert t.kids[p][|all| - 1 - i] == c;
    }
  }

  // ------------------------------------------------------------------ the star of the linear algorithms

  predicate IsStar(t: Tree)
    requires |t.parent| == t.n
  {
    forall p :: 0 <= p < t.n ==> t.parent[p] == 0
  }

  /** The tree of the linear algorithms: the first PE of the active set serves the others in order. */
  function StarTree(n: nat): (t: Tree)
    requires n > 0
  {
    Tree(n, seq(n, _ => 0), seq(n, p => if p == 0 then seq(n - 1, i => i + 1) else []))
  }

  lemma StarTreeIsValid(n: nat)
    requires n > 0
    ensures ValidTree(StarTree(n)) && IsStar(StarTree(n))
  {
    var t := StarTree(n);
    forall p, c | 0 <= p < t.n && IsKid(t, p, c) ensures c in t.kids[p] {
      assert p == 0 && t.kids[0][c - 1] == c;
    }
  }

  // ------------------------------------------------------------------ counting

  /** How many of these children's adds are counted. */
  function CountHere(kids: seq<nat>, here: seq<bool>): (r: nat)
    requires forall i :: 0 <= i < |kids| ==> kids[i] < |here|
    ensures r <= |kids|
  {
    if kids == [] then 0
    else CountHere(kids[..|kids| - 1], here) + (if here[kids[|kids| - 1]] then 1 else 0)
  }

  lemma {:induction false} CountFull(kids: seq<nat>, here: seq<bool>, i: nat)
    requires forall j :: 0 <= j < |kids| ==> kids[j] < |here|
    requires CountHere(kids, here) == |kids| && i < |kids|
    ensures here[kids[i]]
  {
    if i < |kids| - 1 { CountFull(kids[..|kids| - 1], here, i); }
  }

  lemma {:induction false} CountAll(kids: seq<nat>, here: seq<bool>)
    requires forall j :: 0 <= j < |kids| ==> kids[j] < |here| && here[kids[j]]
    ensures CountHere(kids, here) == |kids|
  {
    if kids != [] { CountAll(kids[..|kids| - 1], here); }
  }

  lemma {:induction false} CountNone(kids: seq<nat>, here: seq<bool>)
    requires forall j :: 0 <= j < |kids| ==> kids[j] < |here| && !here[kids[j]]
    ensures CountHere(kids, here) == 0
  {
    if kids != [] { CountNone(kids[..|kids| - 1], here); }
  }

  lemma {:induction false} CountSame(kids: seq<nat>, here: seq<bool>, here': seq<bool>)
    requires forall j :: 0 <= j < |kids| ==> kids[j] < |here| && kids[j] < |here'| && here[kids[j]] == here'[kids[j]]
    ensures CountHere(kids, here) == CountHere(kids, here')
  {
    if kids != [] { CountSame(kids[..|kids| - 1], here, here'); }
  }

  lemma {:induction false} CountOneMore(kids: seq<nat>, here: seq<bool>, c: nat)
    requires forall j :: 0 <= j < |kids| ==> kids[j] < |here|
    requires forall i, j :: 0 <= i < j < |kids| ==> kids[i] != kids[j]
    requires c in kids && c < |here| && !here[c]
    ensures CountHere(kids, here[c := true]) == CountHere(kids, here) + 1
  {
    var init, last := kids[..|kids| - 1], kids[|kids| - 1];
    if last == c {
      CountSame(init, here, here[c := true]);
    } else {
      assert c in init;
      CountOneMore(init, here, c);
    }
  }
}
