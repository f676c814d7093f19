/**
  The tree bins of src/malloc.c: free chunks of at least 256 bytes, kept in 32 bitwise tries
  keyed on chunk size, chunks of one size in a ring.

  A trie is a value here: child[0] and child[1] are `left` and `right`, and the fd/bk ring of a
  tree node is the sequence of addresses met from the node along fd.  Sizes are bytes; bit i of
  a size s is Shift(s, i) % 2.
*/
module TreeBins {
  import opened Arith
  import opened Hypercube
  import opened Wrappers

  datatype Tree = Leaf | Node(size: nat, ring: seq<nat>, left: Tree, right: Tree)

  /** The chunks of a trie, as (address, size). */
  function Items(t: Tree): (r: set<(nat, nat)>) {
    match t
    case Leaf => {}
    case Node(size, ring, left, right) => (set a | a in ring :: (a, size)) + Items(left) + Items(right)
  }

  predicate NoRepeats(ring: seq<nat>) {
    forall i, j :: 0 <= i < j < |ring| ==> ring[i] != ring[j]
  }

  /**
    All sizes in t agree with h from bit b upwards; bit b - 1 tells left from right; no size
    occurs at two nodes; no chunk occurs twice.
  */
  ghost predicate Trie(t: Tree, h: nat, b: nat) {
    match t
    case Leaf => true
    case Node(size, ring, left, right) =>
      && Shift(size, b) == h
      && ring != [] && NoRepeats(ring)
      && (b == 0 ==> left.Leaf? && right.Leaf?)
      && (b > 0 ==> Trie(left, 2 * h, b - 1) && Trie(right, 2 * h + 1, b - 1))
      && (forall x :: x in Items(left) + Items(right) ==> x.1 != size)
  }

  ghost predicate IsTrie(t: Tree) {
    exists h: nat, b: nat :: Trie(t, h, b)
  }

  lemma {:induction false} ShiftMonotone(s: nat, s': nat, b: nat)
    ensures Shift(s, b) < Shift(s', b) ==> s < s'
    ensures s <= s' ==> Shift(s, b) <= Shift(s', b)
  {
    if b > 0 { ShiftMonotone(s / 2, s' / 2, b - 1); }
  }

  /** Every size in the trie agrees with the trie's high bits. */
  lemma {:induction false} TrieSizes(t: Tree, h: nat, b: nat, x: (nat, nat))
    requires Trie(t, h, b) && x in Items(t)
    ensures Shift(x.1, b) == h
  {
    if t.Node? && b > 0 {
      ShiftHalves(x.1, b - 1);
      if x in Items(t.left) {
        TrieSizes(t.left, 2 * h, b - 1, x);
      } else if x in Items(t.right) {
        TrieSizes(t.right, 2 * h + 1, b - 1, x);
      }
    }
  }

  // ------------------------------------------------------------------ insert and unlink

  /** Link chunk a of size s into the trie; a same-sized chunk goes right after the tree node. */
  function Insert(t: Tree, b: nat, a: nat, s: nat): Tree
    decreases t
  {
    match t
    case Leaf => Node(s, [a], Leaf, Leaf)
    case Node(size, ring, left, right) =>
      if size == s then t.(ring := if ring == [] then [a] else [ring[0], a] + ring[1..])
      else if b == 0 then t
      else if Shift(s, b - 1) % 2 == 0 then t.(left := Insert(left, b - 1, a, s))
      else t.(right := Insert(right, b - 1, a, s))
  }

  /** The half of a trie a size belongs to. */
  lemma SizeHalf(s: nat, h: nat, b: nat)
    requires b > 0 && Shift(s, b) == h
    ensures Shift(s, b - 1) == 2 * h + Shift(s, b - 1) % 2
  {
    ShiftHalves(s, b - 1);
  }

  lemma {:induction false} InsertAdds(t: Tree, h: nat, b: nat, a: nat, s: nat)
    requires Trie(t, h, b) && Shift(s, b) == h && (a, s) !in Items(t)
    ensures Trie(Insert(t, b, a, s), h, b)
    ensures Items(Insert(t, b, a, s)) == Items(t) + {(a, s)}
    decreases t
  {
    if t.Node? {
      if t.size == s {
        RingInsert(t.ring, a, s);
      } else {
        SizeHalf(s, h, b);
        if Shift(s, b - 1) % 2 == 0 {
          InsertAdds(t.left, 2 * h, b - 1, a, s);
        } else {
          InsertAdds(t.right, 2 * h + 1, b - 1, a, s);
        }
      }
    }
  }

  lemma RingInsert(ring: seq<nat>, a: nat, s: nat)
    requires ring != [] && NoRepeats(ring) && (a, s) !in (set x | x in ring :: (x, s))
    ensures NoRepeats([ring[0], a] + ring[1..])
    ensures (set x | x in [ring[0], a] + ring[1..] :: (x, s)) == (set x | x in ring :: (x, s)) + {(a, s)}
  {
    assert a !in ring by { assert a in ring ==> (a, s) in (set x | x in ring :: (x, s)); }
    var r := [ring[0], a] + ring[1..];
    forall x ensures x in r <==> x in ring || x == a {
      if x in ring {
        var i :| 0 <= i < |ring| && ring[i] == x;
        assert r[if i == 0 then 0 else i + 1] == x;
      }
    }
  }

  /** The ring without a; when the tree node itself leaves, its bk neighbour takes its place. */
  function RingRemove(ring: seq<nat>, a: nat): seq<nat> {
    if ring == [] then []
    else if ring[0] == a then (if |ring| == 1 then [] else [ring[|ring| - 1]] + ring[1..|ring| - 1])
    else [ring[0]] + Without(ring[1..], a)
  }

  function Without(ring: seq<nat>, a: nat): seq<nat> {
    if ring == [] then [] else if ring[0] == a then ring[1..] else [ring[0]] + Without(ring[1..], a)
  }

  lemma {:induction false} WithoutRemoves(ring: seq<nat>, a: nat)
    requires NoRepeats(ring)
    ensures NoRepeats(Without(ring, a))
    ensures forall x :: x in Without(ring, a) <==> x in ring && x != a
  {
    if ring != [] {
      assert NoRepeats(ring[1..]);
      assert ring == [ring[0]] + ring[1..];
      assert ring[0] !in ring[1..];
      WithoutRemoves(ring[1..], a);
    }
  }

  lemma RingRemoves(ring: seq<nat>, a: nat)
    requires NoRepeats(ring)
    ensures NoRepeats(RingRemove(ring, a))
    ensures forall x :: x in RingRemove(ring, a) <==> x in ring && x != a
  {
    if ring != [] {
      assert ring == [ring[0]] + ring[1..] && ring[0] !in ring[1..] && NoRepeats(ring[1..]);
      if ring[0] == a && |ring| > 1 {
        var r := RingRemove(ring, a);
        assert ring[1..] == ring[1..|ring| - 1] + [ring[|ring| - 1]];
      } else if ring[0] != a {
        WithoutRemoves(ring[1..], a);
      }
    }
  }

  /** The leaf the unlink takes as a replacement: always to the right child if there is one. */
  function LastLeaf(t: Tree): Tree
    requires t.Node?
  {
    if t.right.Node? then LastLeaf(t.right) else if t.left.Node? then LastLeaf(t.left) else t
  }

  function CutLastLeaf(t: Tree): Tree
    requires t.Node?
  {
    if t.right.Node? then t.(right := CutLastLeaf(t.right))
    else if t.left.Node? then t.(left := CutLastLeaf(t.left))
    else Leaf
  }

  lemma {:induction false} CutLastLeafKeeps(t: Tree, h: nat, b: nat)
    requires t.Node? && Trie(t, h, b)
    ensures Trie(CutLastLeaf(t), h, b)
    ensures LastLeaf(t).Node? && LastLeaf(t).left.Leaf? && LastLeaf(t).right.Leaf?
    ensures LastLeaf(t).ring != [] && NoRepeats(LastLeaf(t).ring)
    ensures Shift(LastLeaf(t).size, b) == h
    ensures Items(t) == Items(CutLastLeaf(t)) + Items(LastLeaf(t))
    ensures forall x :: x in Items(CutLastLeaf(t)) ==> x.1 != LastLeaf(t).size
    ensures (LastLeaf(t).ring[0], LastLeaf(t).size) in Items(t)
  {
    if t.right.Node? {
      CutLastLeafKeeps(t.right, 2 * h + 1, b - 1);
      ShiftHalves(LastLeaf(t).size, b - 1);
      HalvesDiffer(t, h, b);
    } else if t.left.Node? {
      CutLastLeafKeeps(t.left, 2 * h, b - 1);
      ShiftHalves(LastLeaf(t).size, b - 1);
    }
  }

  /** Left sizes are smaller than right sizes. */
  lemma HalvesDiffer(t: Tree, h: nat, b: nat)
    requires t.Node? && Trie(t, h, b)
    ensures forall x, y :: x in Items(t.left) && y in Items(t.right) ==> x.1 < y.1
  {
    forall x, y | x in Items(t.left) && y in Items(t.right) ensures x.1 < y.1 {
      TrieSizes(t.left, 2 * h, b - 1, x);
      TrieSizes(t.right, 2 * h + 1, b - 1, y);
      ShiftMonotone(x.1, y.1, b - 1);
    }
  }

  /** What takes the place of a tree node that was alone in its ring. */
  function ReplaceNode(t: Tree): Tree
    requires t.Node?
  {
    if t.right.Node? then
      var r := LastLeaf(t.right);
      if r.Node? then Node(r.size, r.ring, t.left, CutLastLeaf(t.right)) else Leaf
    else if t.left.Node? then
      var r := LastLeaf(t.left);
      if r.Node? then Node(r.size, r.ring, CutLastLeaf(t.left), Leaf) else Leaf
    else Leaf
  }

  lemma ReplaceNodeKeeps(t: Tree, h: nat, b: nat)
    requires t.Node? && Trie(t, h, b)
    ensures Trie(ReplaceNode(t), h, b)
    ensures Items(ReplaceNode(t)) == Items(t.left) + Items(t.right)
  {
    if t.right.Node? {
      CutLastLeafKeeps(t.right, 2 * h + 1, b - 1);
      HalvesDiffer(t, h, b);
      ShiftHalves(LastLeaf(t.right).size, b - 1);
    } else if t.left.Node? {
      CutLastLeafKeeps(t.left, 2 * h, b - 1);
      ShiftHalves(LastLeaf(t.left).size, b - 1);
    }
  }

  /** Take chunk a of size s out of the trie. */
  function Unlink(t: Tree, b: nat, a: nat, s: nat): Tree
    decreases t
  {
    match t
    case Leaf => Leaf
    case Node(size, ring, left, right) =>
      if size == s then
        if ring == [a] then ReplaceNode(t) else t.(ring := RingRemove(ring, a))
      else if b == 0 then t
      else if Shift(s, b - 1) % 2 == 0 then t.(left := Unlink(left, b - 1, a, s))
      else t.(right := Unlink(right, b - 1, a, s))
  }

  lemma UnlinkAtNode(t: Tree, h: nat, b: nat, a: nat)
    requires t.Node? && Trie(t, h, b) && a in t.ring
    ensures Trie(Unlink(t, b, a, t.size), h, b)
    ensures Items(Unlink(t, b, a, t.size)) == Items(t) - {(a, t.size)}
  {
    var s := t.size;
    if t.ring == [a] {
      ReplaceNodeKeeps(t, h, b);
    } else {
      RingRemoves(t.ring, a);
      var r := RingRemove(t.ring, a);
      assert r != [] by {
        var x := if t.ring[0] != a then t.ring[0] else t.ring[1];
        assert x in t.ring && x != a;
      }
      assert (set x | x in r :: (x, s)) == (set x | x in t.ring :: (x, s)) - {(a, s)};
    }
  }

  /** Below the node, a size is on the side its bit says. */
  lemma SideOfItem(t: Tree, h: nat, b: nat, x: (nat, nat))
    requires t.Node? && Trie(t, h, b) && x in Items(t) && x.1 != t.size
    ensures b > 0 && Shift(x.1, b) == h
    ensures Shift(x.1, b - 1) % 2 == 0 ==> x in Items(t.left) && x !in Items(t.right)
    ensures Shift(x.1, b - 1) % 2 == 1 ==> x in Items(t.right) && x !in Items(t.left)
  {
    TrieSizes(t, h, b, x);
    HalvesDiffer(t, h, b);
    if x in Items(t.left) {
      TrieSizes(t.left, 2 * h, b - 1, x);
    } else {
      TrieSizes(t.right, 2 * h + 1, b - 1, x);
    }
  }

  lemma {:induction false} UnlinkRemoves(t: Tree, h: nat, b: nat, a: nat, s: nat)
    requires Trie(t, h, b) && (a, s) in Items(t)
    ensures Trie(Unlink(t, b, a, s), h, b)
    ensures Items(Unlink(t, b, a, s)) == Items(t) - {(a, s)}
    decreases t
  {
    if t.size == s {
      UnlinkAtNode(t, h, b, a);
    } else {
      SideOfItem(t, h, b, (a, s));
      if Shift(s, b - 1) % 2 == 0 {
        UnlinkRemoves(t.left, 2 * h, b - 1, a, s);
      } else {
        UnlinkRemoves(t.right, 2 * h + 1, b - 1, a, s);
      }
    }
  }

  // ------------------------------------------------------------------ bin indices

  const WORD: nat := 0x1_0000_0000_0000_0000   // 2^64
  const TOP_BIT: nat := 0x8000_0000_0000_0000  // 2^63
  const MAX_CHUNK: nat := 0x100_0000_0000      // 2^40
  const LAST_BIN: nat := 31

  /** 31 - clz(x) */
  function Log2(x: nat): nat {
    if x < 2 then 0 else 1 + Log2(x / 2)
  }

  /** Sizes are shifted into a 32-bit unsigned int, which drops bits 40 and up. */
  function TreeIndex(s: nat): (i: nat)
    ensures i <= LAST_BIN
  {
    var x := Shift(s, 8) % 0x1_0000_0000;
    if x == 0 then 0
    else if x > 0xFFFF then LAST_BIN
    else
      Pow2Values();
      Log2Bound(x, 16);
      2 * Log2(x) + Shift(s, Log2(x) + 7) % 2
  }

  lemma Pow2Plus8(a: nat)
    ensures Pow2(a + 8) == 256 * Pow2(a)
  {
    assert Pow2(a + 2) == 4 * Pow2(a);
    assert Pow2(a + 4) == 4 * Pow2(a + 2);
    assert Pow2(a + 6) == 4 * Pow2(a + 4);
  }

  lemma Pow2Values()
    ensures Pow2(8) == 256 && Pow2(16) == 0x1_0000 && Pow2(40) == MAX_CHUNK && Pow2(64) == WORD && Pow2(63) == TOP_BIT
  {
    Pow2Plus8(0);
    Pow2Plus8(8);
    Pow2Plus8(16);
    Pow2Plus8(24);
    Pow2Plus8(32);
    Pow2Plus8(40);
    Pow2Plus8(48);
    Pow2Plus8(56);
  }

  lemma {:induction false} Log2Bound(x: nat, k: nat)
    requires 0 < x < Pow2(k)
    ensures Log2(x) < k
  {
    if x >= 2 { Log2Bound(x / 2, k - 1); }
  }

  lemma {:induction false} Log2Shift(x: nat)
    requires x > 0
    ensures Shift(x, Log2(x)) == 1
  {
    if x >= 2 { Log2Shift(x / 2); }
  }

  lemma {:induction false} ShiftShift(s: nat, i: nat, j: nat)
    ensures Shift(Shift(s, i), j) == Shift(s, i + j)
  {
    if i > 0 { ShiftShift(s / 2, i - 1, j); }
  }

  lemma {:induction false} ShiftShrinks(s: nat, j: nat)
    ensures Shift(s, j) <= s
  {
    if j > 0 { ShiftShrinks(s / 2, j - 1); }
  }

  /** The sizes of bin i, by their high bits. */
  predicate InBin(s: nat, i: nat) {
    if i < LAST_BIN then Shift(s, i / 2 + 7) == 2 + i % 2 else Shift(s, 22) >= 3
  }

  /** What the bits of a bin's trie are: High(i) above the lowest Bits(i) bits. */
  function Bits(i: nat): (b: nat) {
    if i < LAST_BIN then i / 2 + 7 else 64
  }

  function High(i: nat): nat {
    if i < LAST_BIN then 2 + i % 2 else 0
  }

  lemma ShiftBy8(s: nat)
    requires 256 <= s < MAX_CHUNK
    ensures 0 < Shift(s, 8) < 0x1_0000_0000
  {
    Pow2Values();
    ShiftIsQuotient(s, 8);
  }

  /** Up to 2^40, the computed index is the index of the bin. */
  lemma TreeIndexIsBin(s: nat)
    requires 256 <= s < MAX_CHUNK
    ensures InBin(s, TreeIndex(s))
    ensures Shift(s, Bits(TreeIndex(s))) == High(TreeIndex(s))
  {
    ShiftBy8(s);
    var x := Shift(s, 8);
    SmallMod(x, 0x1_0000_0000);
    hide Shift, Pow2, Log2;
    if x > 0xFFFF {
      LargeIndex(s);
    } else {
      SmallIndex(s);
    }
    if TreeIndex(s) == LAST_BIN { NoHighBits(s); }
  }

  lemma NoHighBits(s: nat)
    requires s < MAX_CHUNK
    ensures Shift(s, 64) == 0
  {
    Pow2Values();
    ShiftToZero(s, 40);
    ShiftShift(s, 40, 24);
    ShiftShrinks(0, 24);
  }

  lemma LargeIndex(s: nat)
    requires Shift(s, 8) > 0xFFFF
    ensures Shift(s, 22) >= 3
  {
    Pow2Values();
    var x := Shift(s, 8);
    ShiftIsQuotient(x, 16);
    ShiftShift(s, 8, 16);
    ShiftHalves(s, 23);
    ShiftHalves(s, 22);
  }

  lemma SmallIndex(s: nat)
    requires 0 < Shift(s, 8) <= 0xFFFF
    ensures var k := Log2(Shift(s, 8));
            k <= 15 && Shift(s, k + 7) == 2 + Shift(s, k + 7) % 2
  {
    var x := Shift(s, 8);
    var k := Log2(x);
    Pow2Values();
    Log2Bound(x, 16);
    Log2Shift(x);
    ShiftShift(s, 8, k);
    ShiftHalves(s, 7 + k);
  }

  /** The high bits of a size of 2^40 or more. */
  lemma HugeSize(s: nat, j: nat)
    requires s >= MAX_CHUNK && j <= 22
    ensures Shift(s, j) >= 4
  {
    Pow2Values();
    Pow2Plus8(14);
    assert Pow2(22) == 0x40_0000;
    ShiftIsQuotient(s, 22);
    ShiftShift(s, j, 22 - j);
    ShiftShrinks(Shift(s, j), 22 - j);
  }

  /** Dropping the bits from 32 on does not change bit 14. */
  lemma LowBits(y: nat)
    ensures Shift(y, 14) % 2 == Shift(y % 0x1_0000_0000, 14) % 2
  {
    var m, x := y / 0x1_0000_0000, y % 0x1_0000_0000;
    Pow2Plus8(6);
    assert Pow2(14) == 0x4000;
    ShiftIsQuotient(y, 14);
    ShiftIsQuotient(x, 14);
    var a, b := Shift(y, 14), Shift(x, 14);
    hide Shift, Pow2;
    assert a == m * 0x4_0000 + b;
    DivModUnique(a, 2, m * 0x2_0000 + b / 2, b % 2);
  }

  /** From 2^40 on, with some bits left after the shift. */
  lemma HugeIndex(s: nat)
    requires s >= MAX_CHUNK && 0 < Shift(s, 8) % 0x1_0000_0000 <= 0xFFFF
    ensures TreeIndex(s) == LAST_BIN <==> Shift(s, 8) % 0x1_0000_0000 >= 0xC000
  {
    var x := Shift(s, 8) % 0x1_0000_0000;
    Log2Sixteen(x);
    if Log2(x) == 15 {
      LowBits(Shift(s, 8));
      ShiftShift(s, 8, 14);
      hide Shift, Pow2, Log2;
    }
  }

  /** A 16-bit word has its top bit set, and then the next one, exactly from these values on. */
  lemma Log2Sixteen(x: nat)
    requires 0 < x <= 0xFFFF
    ensures Log2(x) <= 15 && (Log2(x) == 15 <==> x >= 0x8000)
    ensures x >= 0x8000 ==> (Shift(x, 14) % 2 == 1 <==> x >= 0xC000)
  {
    Pow2Values();
    Log2Bound(x, 16);
    if Log2(x) == 15 {
      Log2Shift(x);
      ShiftIsQuotient(x, 15);
      ShiftIsQuotient(x, 14);
      assert Pow2(15) == 0x8000 && Pow2(14) == 0x4000;
    } else {
      Log2Below(x, 15);
    }
  }

  lemma {:induction false} Log2Below(x: nat, k: nat)
    requires x > 0 && Log2(x) < k
    ensures x < Pow2(k)
  {
    if x >= 2 { Log2Below(x / 2, k - 1); }
  }

  /**
    Exactly when the computed index is that of the size's bin.  Below 2^40 it always is; from
    there on the index is computed from the low 32 bits of the shifted size, and only the last
    bin can be right.
  */
  lemma TreeIndexIsExact(s: nat)
    requires s >= 256
    ensures InBin(s, TreeIndex(s)) <==> s < MAX_CHUNK || Shift(s, 8) % 0x1_0000_0000 >= 0xC000
  {
    if s < MAX_CHUNK {
      TreeIndexIsBin(s);
    } else {
      var x := Shift(s, 8) % 0x1_0000_0000;
      HugeSize(s, TreeIndex(s) / 2 + 7);
      HugeSize(s, 22);
      if 0 < x <= 0xFFFF { HugeIndex(s); }
    }
  }

  /** 2^40 itself is put into bin 0, which is not its bin. */
  lemma FirstMisfiledSize()
    ensures TreeIndex(MAX_CHUNK) == 0 && !InBin(MAX_CHUNK, 0)
  {
    Pow2Values();
    ShiftIsQuotient(MAX_CHUNK, 8);
    assert Shift(MAX_CHUNK, 8) == 0x1_0000_0000;
    HugeSize(MAX_CHUNK, 7);
  }

  /** Bins are ordered by size. */
  lemma BinsAscend(s: nat, i: nat, s': nat, j: nat)
    requires InBin(s, i) && InBin(s', j) && i < j <= LAST_BIN
    ensures s < s'
  {
    var k, k' := i / 2, j / 2;
    if k == k' {
      ShiftMonotone(s, s', k + 7);
    } else {
      ShiftHalves(s, k + 7);
      ShiftShift(s, k + 8, k' - k - 1);
      ShiftShrinks(Shift(s, k + 8), k' - k - 1);
      assert Shift(s, k' + 7) <= 1;
      ShiftMonotone(s, s', k' + 7);
    }
  }

  // ------------------------------------------------------------------ all bins together

  function AllItems(bins: seq<Tree>): set<(nat, nat)> {
    set i, x | 0 <= i < |bins| && x in Items(bins[i]) :: x
  }

  /** Every bin is a trie over the sizes of its index, and treemap marks the non-empty ones. */
  ghost predicate BinOk(bins: seq<Tree>, treemap: set<nat>, i: nat)
    requires i < |bins|
  {
    && Trie(bins[i], High(i), Bits(i))
    && (i in treemap <==> bins[i].Node?)
    && (forall x :: x in Items(bins[i]) ==> 256 <= x.1 < MAX_CHUNK && TreeIndex(x.1) == i)
  }

  ghost predicate BinsOk(bins: seq<Tree>, treemap: set<nat>) {
    && |bins| == LAST_BIN + 1
    && (forall i :: i in treemap ==> i <= LAST_BIN)
    && (forall i :: 0 <= i < |bins| ==> BinOk(bins, treemap, i))
  }

  function InsertLarge(bins: seq<Tree>, a: nat, s: nat): (r: seq<Tree>)
    requires |bins| == LAST_BIN + 1
    ensures |r| == |bins|
  {
    bins[TreeIndex(s) := Insert(bins[TreeIndex(s)], Bits(TreeIndex(s)), a, s)]
  }

  function UnlinkLarge(bins: seq<Tree>, a: nat, s: nat): (r: seq<Tree>)
    requires |bins| == LAST_BIN + 1
    ensures |r| == |bins|
  {
    bins[TreeIndex(s) := Unlink(bins[TreeIndex(s)], Bits(TreeIndex(s)), a, s)]
  }

  function MarkAfter(bins: seq<Tree>, treemap: set<nat>, i: nat): set<nat>
    requires i < |bins|
  {
    if bins[i].Node? then treemap + {i} else treemap - {i}
  }

  /** Inserting a chunk adds exactly that chunk and keeps every bin in order. */
  lemma InsertLargeAdds(bins: seq<Tree>, treemap: set<nat>, a: nat, s: nat)
    requires BinsOk(bins, treemap) && 256 <= s < MAX_CHUNK && (a, s) !in AllItems(bins)
    ensures BinsOk(InsertLarge(bins, a, s), treemap + {TreeIndex(s)})
    ensures AllItems(InsertLarge(bins, a, s)) == AllItems(bins) + {(a, s)}
  {
    var i := TreeIndex(s);
    var bins' := InsertLarge(bins, a, s);
    TreeIndexIsBin(s);
    assert BinOk(bins, treemap, i);
    InsertAdds(bins[i], High(i), Bits(i), a, s);
    forall j | 0 <= j < |bins'| ensures BinOk(bins', treemap + {i}, j) {
      assert BinOk(bins, treemap, j);
    }
    forall x ensures x in AllItems(bins') <==> x in AllItems(bins) || x == (a, s) {
      if x in AllItems(bins') {
        var k :| 0 <= k < |bins'| && x in Items(bins'[k]);
        assert k != i ==> x in Items(bins[k]);
      }
      if x in AllItems(bins) {
        var k :| 0 <= k < |bins| && x in Items(bins[k]);
        assert x in Items(bins'[k]);
      }
      assert (a, s) in Items(bins'[i]);
    }
  }

  /** Unlinking a chunk removes exactly that chunk and keeps every bin in order. */
  lemma UnlinkLargeRemoves(bins: seq<Tree>, treemap: set<nat>, a: nat, s: nat)
    requires BinsOk(bins, treemap) && (a, s) in AllItems(bins)
    ensures BinsOk(UnlinkLarge(bins, a, s), MarkAfter(UnlinkLarge(bins, a, s), treemap, TreeIndex(s)))
    ensures AllItems(UnlinkLarge(bins, a, s)) == AllItems(bins) - {(a, s)}
  {
    var i := TreeIndex(s);
    var j :| 0 <= j < |bins| && (a, s) in Items(bins[j]);
    assert BinOk(bins, treemap, j);
    assert i == j;
    var bins' := UnlinkLarge(bins, a, s);
    UnlinkRemoves(bins[i], High(i), Bits(i), a, s);
    var treemap' := MarkAfter(bins', treemap, i);
    forall k | 0 <= k < |bins'| ensures BinOk(bins', treemap', k) {
      assert BinOk(bins, treemap, k);
    }
    forall x ensures x in AllItems(bins') <==> x in AllItems(bins) && x != (a, s) {
      if x in AllItems(bins') {
        var k :| 0 <= k < |bins'| && x in Items(bins'[k]);
        assert x in Items(bins[k]) && BinOk(bins, treemap, k);
      }
      if x in AllItems(bins) && x != (a, s) {
        var k :| 0 <= k < |bins| && x in Items(bins[k]);
        assert x in Items(bins'[k]);
      }
    }
  }

  // ------------------------------------------------------------------ the best fit

  /** v is the best chunk so far and rsize what it leaves; with no chunk, rsize is -nb in 64 bits. */
  predicate Fits(v: Option<(nat, nat)>, rsize: nat, nb: nat) {
    match v
    case None => nb <= WORD && rsize == WORD - nb
    case Some(c) => nb <= c.1 < MAX_CHUNK && rsize == c.1 - nb
  }

  /** size - nb in 64 bits */
  function Remainder(size: nat, nb: nat): nat {
    (size - nb) % WORD
  }

  lemma WrappedRemainder(size: nat, nb: nat)
    requires size < MAX_CHUNK && 0 < nb < WORD
    ensures Remainder(size, nb) == if size >= nb then size - nb else size + WORD - nb
  {
    if size >= nb {
      DivModUnique(size - nb, WORD, 0, size - nb);
    } else {
      DivModUnique(size - nb, WORD, -1, size + WORD - nb);
    }
  }

  function LeftmostChild(t: Tree): Tree
    requires t.Node?
  {
    if t.left.Node? then t.left else t.right
  }

  ghost predicate SizesOk(t: Tree) {
    forall x :: x in Items(t) ==> x.1 < MAX_CHUNK
  }

  lemma LeftmostIsTrie(t: Tree)
    requires t.Node? && IsTrie(t)
    ensures IsTrie(LeftmostChild(t)) && Items(LeftmostChild(t)) <= Items(t)
    ensures t.ring != []
  {
    var h: nat, b: nat :| Trie(t, h, b);
    if b > 0 {
      assert Trie(t.left, 2 * h, b - 1) && Trie(t.right, 2 * h + 1, b - 1);
    } else {
      assert Trie(Leaf, 0, 0);
    }
  }

  /** x is no better than the best chunk so far, or something at least as good is still ahead in t. */
  ghost predicate Covered(t: Tree, x: (nat, nat), nb: nat, rsize: nat) {
    x.1 < nb + rsize ==> t.Node? && (x in Items(t) || NoneAbove(t, x.1))
  }

  ghost predicate NoneAbove(t: Tree, m: nat) {
    forall y :: y in Items(t) ==> y.1 <= m
  }

  ghost predicate AllFit(t: Tree, nb: nat) {
    forall y :: y in Items(t) ==> y.1 >= nb
  }

  /** Whatever the walk leaves behind at t is matched by t itself or by what is ahead. */
  lemma StepDown(t: Tree, x: (nat, nat), nb: nat, rsize: nat, rsize': nat)
    requires t.Node? && IsTrie(t) && AllFit(t, nb) && Covered(t, x, nb, rsize)
    requires rsize' <= rsize && rsize' <= t.size - nb
    ensures Covered(LeftmostChild(t), x, nb, rsize')
  {
    var h: nat, b: nat :| Trie(t, h, b);
    assert (t.ring[0], t.size) in Items(t);
    HalvesDiffer(t, h, b);
    if x.1 < nb + rsize' && x in Items(t) && x !in Items(LeftmostChild(t)) {
      assert NoneAbove(LeftmostChild(t), x.1);
    }
  }

  // ------------------------------------------------------------------ the search in the request's own bin

  lemma TopBitArith(q: nat, r: nat, c: nat, half: nat, x: nat)
    requires c > 0 && half > 0 && x * c == q * half + r * c && r * c < half
    ensures (x * c) % (2 * half) / half == q % 2
  {
    var m, e := q / 2, q % 2;
    assert q == 2 * m + e;
    assert q * half == m * (2 * half) + e * half;
    DivModUnique(x * c, 2 * half, m, e * half + r * c);
    DivModUnique(e * half + r * c, half, e, r * c);
  }

  lemma {:induction false} Pow2Product(i: nat, j: nat)
    ensures Pow2(i) * Pow2(j) == Pow2(i + j)
  {
    if i > 0 {
      Pow2Product(i - 1, j);
      assert Pow2(i) * Pow2(j) == 2 * (Pow2(i - 1) * Pow2(j));
    }
  }

  lemma ScaleRemainder(x: nat, q: nat, p: nat, c: nat, half: nat)
    requires p * c == half && c > 0 && q * p <= x < (q + 1) * p
    ensures x * c == q * half + (x - q * p) * c && (x - q * p) * c < half
  {
    var r := x - q * p;
    assert x * c == (q * p) * c + r * c;
    assert (q * p) * c == q * (p * c);
    assert (q + 1) * p == q * p + p;
    assert r <= p - 1;
    assert r * c <= (p - 1) * c;
    assert (p - 1) * c == p * c - c;
  }

  lemma TopBitOfProduct(x: nat, q: nat, p: nat, c: nat, half: nat)
    requires p * c == half && c > 0 && half > 0 && q * p <= x < (q + 1) * p
    ensures (x * c) % (2 * half) / half == q % 2
  {
    ScaleRemainder(x, q, p, c, half);
    var r := x - q * p;
    TopBitArith(q, r, c, half, x);
  }

  /** The sign bit of the request shifted left by 64 - b is bit b - 1 of the request. */
  lemma TopBit(x: nat, b: nat)
    requires 1 <= b <= 64
    ensures (x * Pow2(64 - b)) % Pow2(64) / Pow2(63) == Shift(x, b - 1) % 2
  {
    assert Pow2(64) == 2 * Pow2(63);
    ShiftIsQuotient(x, b - 1);
    Pow2Product(b - 1, 64 - b);
    hide Pow2, Shift;
    TopBitOfProduct(x, Shift(x, b - 1), Pow2(b - 1), Pow2(64 - b), Pow2(63));
  }

  /** Shifting the shifted request one further. */
  lemma ShiftOnce(x: nat, b: nat)
    requires 1 <= b <= 64
    ensures (2 * ((x * Pow2(64 - b)) % Pow2(64))) % Pow2(64) == (x * Pow2(64 - (b - 1))) % Pow2(64)
  {
    var w, c := Pow2(64), Pow2(64 - b);
    assert Pow2(64 - (b - 1)) == 2 * c;
    hide Pow2;
    DoubleProduct(x, c);
    DoubleMod(x * c, w);
  }

  lemma DoubleMod(y: nat, w: nat)
    requires w > 0
    ensures (2 * (y % w)) % w == (2 * y) % w
  {
    var d, r := y / w, y % w;
    assert y == d * w + r;
    assert (2 * d) * w == 2 * (d * w);
    ModPlusMultiple(2 * r, w, 2 * d);
  }

  ghost predicate Behind(x: (nat, nat), t: Tree, rst: Tree, nb: nat, rsize: nat) {
    x.1 >= nb ==>
      || nb + rsize <= x.1
      || x in Items(t)
      || (rst.Node? && (x in Items(rst) || NoneAbove(rst, x.1)))
  }

  ghost predicate AllSmaller(t: Tree, t': Tree) {
    forall x, y :: x in Items(t) && y in Items(t') ==> x.1 < y.1
  }

  /** A subtree on the request's own path. */
  ghost predicate OnPath(t: Tree, nb: nat, b: nat) {
    Trie(t, Shift(nb, b), b)
  }

  /** Right of the request's path everything fits, left of it nothing does. */
  lemma SidesOfPath(t: Tree, nb: nat, b: nat)
    requires t.Node? && OnPath(t, nb, b) && b > 0
    ensures Shift(nb, b - 1) % 2 == 0 ==> OnPath(t.left, nb, b - 1) && forall x :: x in Items(t.right) ==> nb < x.1
    ensures Shift(nb, b - 1) % 2 == 1 ==> OnPath(t.right, nb, b - 1) && forall x :: x in Items(t.left) ==> x.1 < nb
  {
    var h := Shift(nb, b);
    SizeHalf(nb, h, b);
    forall x | x in Items(t.right) && Shift(nb, b - 1) % 2 == 0 ensures nb < x.1 {
      TrieSizes(t.right, 2 * h + 1, b - 1, x);
      ShiftMonotone(nb, x.1, b - 1);
    }
    forall x | x in Items(t.left) && Shift(nb, b - 1) % 2 == 1 ensures x.1 < nb {
      TrieSizes(t.left, 2 * h, b - 1, x);
      ShiftMonotone(x.1, nb, b - 1);
    }
  }

  /** The deepest right subtree not taken, after one more step down. */
  function Untaken(t: Tree, bit: nat, rst: Tree): Tree
    requires t.Node?
  {
    if bit == 0 && t.right.Node? then t.right else rst
  }

  function Child(t: Tree, bit: nat): Tree
    requires t.Node?
  {
    if bit == 0 then t.left else t.right
  }

  /** One step down the request's path leaves nothing better behind. */
  lemma PathStep(x: (nat, nat), t: Tree, rst: Tree, nb: nat, b: nat, rsize: nat, rsize': nat)
    requires t.Node? && OnPath(t, nb, b) && AllSmaller(t, rst) && (rst.Node? ==> rst.ring != [])
    requires Behind(x, t, rst, nb, rsize) && rsize' <= rsize && (t.size >= nb ==> rsize' <= t.size - nb)
    ensures var bit := if b > 0 then Shift(nb, b - 1) % 2 else 0;
            Behind(x, Child(t, bit), Untaken(t, bit, rst), nb, rsize')
  {
    if b > 0 {
      SidesOfPath(t, nb, b);
      var bit := Shift(nb, b - 1) % 2;
      if bit == 0 && t.right.Node? && rst.Node? && NoneAbove(rst, x.1) && x.1 >= nb {
        var z := (rst.ring[0], rst.size);
        assert z in Items(rst);
        forall y | y in Items(t.right) ensures y.1 <= x.1 {
          assert y.1 < z.1;
        }
        assert NoneAbove(t.right, x.1);
      }
      if bit == 0 && t.right.Node? && x in Items(rst) {
        forall y | y in Items(t.right) ensures y.1 <= x.1 {
          assert y in Items(t);
        }
        assert NoneAbove(t.right, x.1);
      }
    }
  }

  /** What the search knows about the rest of the bin; beyond 2^40 it only knows that nothing fits. */
  ghost predicate SearchOk(root: Tree, t: Tree, rst: Tree, nb: nat, b: nat, rsize: nat) {
    nb < MAX_CHUNK ==>
      && OnPath(t, nb, b) && AllSmaller(t, rst)
      && (forall y :: y in Items(rst) ==> nb < y.1)
      && (forall x :: x in Items(root) ==> Behind(x, t, rst, nb, rsize))
  }

  lemma SearchStep(root: Tree, t: Tree, rst: Tree, nb: nat, b: nat, rsize: nat, rsize': nat, bit: nat)
    requires t.Node? && t.ring != [] && (rst.Node? ==> rst.ring != []) && SearchOk(root, t, rst, nb, b, rsize)
    requires rsize' <= rsize && (t.size >= nb ==> rsize' <= t.size - nb)
    requires b > 0 ==> bit == Shift(nb, b - 1) % 2
    ensures SearchOk(root, Child(t, bit), Untaken(t, bit, rst), nb, if b > 0 then b - 1 else 0, rsize')
  {
    if nb < MAX_CHUNK {
      if b > 0 {
        SidesOfPath(t, nb, b);
        HalvesDiffer(t, Shift(nb, b), b);
      }
      forall x | x in Items(root) ensures Behind(x, Child(t, bit), Untaken(t, bit, rst), nb, rsize') {
        PathStep(x, t, rst, nb, b, rsize, rsize');
      }
    }
  }

  /** The lowest b bits of nb, moved to the top of a 64-bit word. */
  function SizeBits(nb: nat, b: nat): nat
    requires b <= 64
  {
    (nb * Pow2(64 - b)) % WORD
  }

  /** The sign bit of a 64-bit word, and the word shifted left by one. */
  function SignBit(w: nat): nat {
    w / TOP_BIT
  }

  function ShiftLeft(w: nat): nat {
    (2 * w) % WORD
  }

  lemma SizeBitsStep(nb: nat, b: nat)
    requires b <= 64
    ensures b > 0 ==> SignBit(SizeBits(nb, b)) == Shift(nb, b - 1) % 2
    ensures b > 0 ==> ShiftLeft(SizeBits(nb, b)) == SizeBits(nb, b - 1)
    ensures b == 0 ==> ShiftLeft(SizeBits(nb, b)) == SizeBits(nb, b)
  {
    Pow2Values();
    if b > 0 {
      TopBit(nb, b);
      ShiftOnce(nb, b);
    } else {
      ModPlusMultiple(0, WORD, nb);
    }
  }

  ghost predicate Part(t: Tree, root: Tree) {
    Items(t) <= Items(root)
  }

  lemma NodeParts(root: Tree, t: Tree)
    requires t.Node? && IsTrie(t) && Part(t, root) && SizesOk(root)
    ensures t.ring != [] && (t.ring[0], t.size) in Items(root) && t.size < MAX_CHUNK
    ensures IsTrie(t.left) && IsTrie(t.right) && Part(t.left, root) && Part(t.right, root)
    ensures t.right.Node? ==> t.right.ring != [] && t.left != t.right
  {
    var h: nat, b: nat :| Trie(t, h, b);
    assert (t.ring[0], t.size) in Items(t);
    ChildrenDiffer(t, h, b);
    if b > 0 {
      assert Trie(t.left, 2 * h, b - 1) && Trie(t.right, 2 * h + 1, b - 1);
    } else {
      assert Trie(Leaf, 0, 0);
    }
  }

  lemma ChildrenDiffer(t: Tree, h: nat, b: nat)
    requires t.Node? && Trie(t, h, b)
    ensures t.right.Node? ==> t.right.ring != [] && t.left != t.right
  {
    HalvesDiffer(t, h, b);
    assert t.right.Node? ==> t.right.ring != [] && (t.right.ring[0], t.right.size) in Items(t.right);
  }

  lemma ExactFit(root: Tree, t: Tree, nb: nat)
    ensures forall x :: x in Items(root) ==> Behind(x, Leaf, t, nb, 0)
  {
  }

  lemma SearchEnds(root: Tree, t: Tree, rst: Tree, nb: nat, b: nat, rsize: nat)
    requires SearchOk(root, t, rst, nb, b, rsize)
    ensures t.Leaf? ==> nb >= MAX_CHUNK || AllFit(rst, nb)
    ensures t.Leaf? && nb < MAX_CHUNK ==> forall x :: x in Items(root) ==> Behind(x, Leaf, rst, nb, rsize)
  {
  }

  // ------------------------------------------------------------------ the best fit over all bins

  /** The lowest marked bin above i. */
  method LeastMarkedAbove(treemap: set<nat>, i: int) returns (j: nat)
    requires -1 <= i && exists k :: k in treemap && k > i
    ensures j in treemap && j > i && forall k :: k in treemap && k > i ==> j <= k
  {
    j := if i < 0 then 0 else i + 1;
    ghost var k0 :| k0 in treemap && k0 > i;
    while j !in treemap
      invariant i < j <= k0
      invariant forall k :: k in treemap && k > i ==> j <= k
      decreases k0 - j
    {
      j := j + 1;
    }
  }

  /** Chunks of lower bins are smaller. */
  lemma LowerBinsAreSmaller(bins: seq<Tree>, treemap: set<nat>, i: nat, x: (nat, nat), s: nat)
    requires BinsOk(bins, treemap) && i < |bins| && x in Items(bins[i]) && 256 <= s < MAX_CHUNK
    ensures i < TreeIndex(s) ==> x.1 < s
    ensures i > TreeIndex(s) ==> s < x.1
  {
    assert BinOk(bins, treemap, i);
    TreeIndexIsBin(x.1);
    TreeIndexIsBin(s);
    if i < TreeIndex(s) {
      BinsAscend(x.1, i, s, TreeIndex(s));
    } else if i > TreeIndex(s) {
      BinsAscend(s, TreeIndex(s), x.1, i);
    }
  }

  /** v is a smallest chunk of at least nb bytes; there is none only if no chunk has that many. */
  ghost predicate IsBestFit(bins: seq<Tree>, nb: nat, v: Option<(nat, nat)>) {
    match v
    case None => forall x :: x in AllItems(bins) ==> x.1 < nb
    case Some(c) => c in AllItems(bins) && c.1 >= nb && forall x :: x in AllItems(bins) && x.1 >= nb ==> c.1 <= x.1
  }

  /** The best fit of one bin is the best fit of all when lower bins are too small. */
  lemma BinBestIsBest(bins: seq<Tree>, treemap: set<nat>, i: nat, nb: nat, v: Option<(nat, nat)>, rsize: nat)
    requires BinsOk(bins, treemap) && i < |bins| && 0 < nb < MAX_CHUNK && Fits(v, rsize, nb)
    requires v.Some? && v.value in Items(bins[i])
    requires forall x :: x in Items(bins[i]) && x.1 >= nb ==> nb + rsize <= x.1
    requires forall j, x :: 0 <= j < i && x in Items(bins[j]) ==> x.1 < nb
    ensures IsBestFit(bins, nb, v)
  {
    assert BinOk(bins, treemap, i);
    forall x | x in AllItems(bins) && x.1 >= nb ensures v.value.1 <= x.1 {
      var j :| 0 <= j < |bins| && x in Items(bins[j]);
      if j > i { LowerBinsAreSmaller(bins, treemap, j, x, v.value.1); }
    }
  }

  lemma HigherBinFits(bins: seq<Tree>, treemap: set<nat>, j: nat, nb: nat)
    requires BinsOk(bins, treemap) && j < |bins| && 256 <= nb < MAX_CHUNK && j > TreeIndex(nb)
    ensures AllFit(bins[j], nb)
  {
    forall y | y in Items(bins[j]) ensures y.1 >= nb {
      LowerBinsAreSmaller(bins, treemap, j, y, nb);
    }
  }

  /** The walk below t settles what the search left open. */
  lemma WalkSettles(root: Tree, t: Tree, nb: nat, rsize: nat, rsize': nat, x: (nat, nat))
    requires Behind(x, Leaf, t, nb, rsize) && rsize' <= rsize && (t.Node? ==> t.ring != [])
    requires forall y :: y in Items(t) && y.1 >= nb ==> nb + rsize' <= y.1
    requires rsize == 0 || AllFit(t, nb)
    ensures x.1 >= nb ==> nb + rsize' <= x.1
  {
    if t.Node? { assert (t.ring[0], t.size) in Items(t); }
  }

  /** Nothing fits anywhere when the own bin and all higher ones have nothing. */
  lemma NothingFits(bins: seq<Tree>, treemap: set<nat>, nb: nat)
    requires BinsOk(bins, treemap) && 256 <= nb < WORD
    requires nb < MAX_CHUNK ==>
               && (forall x :: x in Items(bins[TreeIndex(nb)]) ==> x.1 < nb)
               && (forall j :: j in treemap ==> j <= TreeIndex(nb))
    ensures IsBestFit(bins, nb, None)
  {
    forall x | x in AllItems(bins) ensures x.1 < nb {
      var j :| 0 <= j < |bins| && x in Items(bins[j]);
      assert BinOk(bins, treemap, j);
      if nb < MAX_CHUNK { LowerBinsAreSmaller(bins, treemap, j, x, nb); }
    }
  }

  /** The best fit of the request's own bin, or of the next bin in use, is the best fit. */
  lemma OwnBinIsBest(bins: seq<Tree>, treemap: set<nat>, i: nat, nb: nat, v: Option<(nat, nat)>, rsize: nat)
    requires BinsOk(bins, treemap) && 256 <= nb < MAX_CHUNK && TreeIndex(nb) <= i < |bins| && Fits(v, rsize, nb)
    requires v.Some? && v.value in Items(bins[i])
    requires forall x :: x in Items(bins[i]) && x.1 >= nb ==> nb + rsize <= x.1
    requires i > TreeIndex(nb) ==>
               && (forall x :: x in Items(bins[TreeIndex(nb)]) ==> x.1 < nb)
               && (forall j :: j in treemap && j > TreeIndex(nb) ==> i <= j)
    ensures IsBestFit(bins, nb, v)
  {
    forall j, x | 0 <= j < i && x in Items(bins[j]) ensures x.1 < nb {
      assert BinOk(bins, treemap, j);
      LowerBinsAreSmaller(bins, treemap, j, x, nb);
    }
    BinBestIsBest(bins, treemap, i, nb, v, rsize);
  }

  /** The smallest chunk of a trie is its root or the smallest below its leftmost child. */
  lemma LeftmostCovers(t: Tree, nb: nat, rsize: nat)
    requires t.Node? && IsTrie(t) && nb + rsize <= t.size
    requires forall x :: x in Items(LeftmostChild(t)) ==> nb + rsize <= x.1
    ensures forall x :: x in Items(t) ==> nb + rsize <= x.1
  {
    var h: nat, b: nat :| Trie(t, h, b);
    HalvesDiffer(t, h, b);
    LeftmostIsTrie(t);
    if t.left.Node? {
      LeftmostIsTrie(t.left);
      assert (t.left.ring[0], t.left.size) in Items(t.left);
    }
  }

  lemma LowerBinsAreEmpty(bins: seq<Tree>, treemap: set<nat>, i: nat)
    requires BinsOk(bins, treemap) && i < |bins| && forall j :: j in treemap ==> i <= j
    ensures forall j, x :: 0 <= j < i ==> x !in Items(bins[j])
  {
    forall j | 0 <= j < i ensures bins[j].Leaf? {
      assert BinOk(bins, treemap, j);
    }
  }

  lemma InSomeBin(bins: seq<Tree>, i: nat, x: (nat, nat))
    requires i < |bins| && x in Items(bins[i])
    ensures x in AllItems(bins)
  {
  }
}
