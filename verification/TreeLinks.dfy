/**
  The link words behind the tree bins of src/malloc.c, in the bodies of the free chunks: fd and bk
  at 16 and 24, child[0] and child[1] at 32 and 40, parent at 48, index at 56.  The root of tree
  bin i is the word treebins[i] of malloc_state.

  A node of the trie is a ring of chunks of one size.  The first of them is the tree node: it has
  the children and a parent, which for the root is the address of treebins[i].  The parent and
  child words of the others are 0.
*/
module TreeLinks {
  import opened Hypercube
  import opened HeapWords
  import opened TreeBins
  import opened SmallLinks
  import opened Rings

  const CHILD: nat := 32
  const PARENT: nat := 48
  const INDEX: nat := 56

  /** treebin_at */
  function TreeBinAt(gm: nat, i: nat): nat {
    gm + 600 + 8 * i
  }

  /** The address of child[bit] of node a. */
  function ChildAt(a: nat, bit: nat): nat {
    a + CHILD + 8 * bit
  }

  /** The address of a trie's tree node, 0 for the empty trie. */
  function Root(t: Tree): nat {
    if t.Node? && t.ring != [] then t.ring[0] else 0
  }

  /** The chunks of one node. */
  function RingItems(t: Tree): set<(nat, nat)>
    requires t.Node?
  {
    set a | a in t.ring :: (a, t.size)
  }

  /** The words of one node: a ring in which only the first has a parent and children. */
  ghost predicate NodeLinked(mem: Memory, ring: seq<nat>, par: nat, idx: nat, c0: nat, c1: nat) {
    && Ring(mem, ring)
    && Word(mem, ring[0] + PARENT) == par && Word(mem, ChildAt(ring[0], 0)) == c0 && Word(mem, ChildAt(ring[0], 1)) == c1
    && (forall k {:trigger ring[k]} :: 0 <= k < |ring| ==> Word(mem, ring[k] + INDEX) == idx)
    && (forall k {:trigger ring[k]} :: 0 < k < |ring| ==>
          Word(mem, ring[k] + PARENT) == 0 && Word(mem, ChildAt(ring[k], 0)) == 0 && Word(mem, ChildAt(ring[k], 1)) == 0)
  }

  /** The words in memory say what the trie says, below the parent `par`. */
  ghost predicate TreeLinked(mem: Memory, t: Tree, par: nat, idx: nat) {
    match t
    case Leaf => true
    case Node(size, ring, left, right) =>
      && ring != []
      && NodeLinked(mem, ring, par, idx, Root(left), Root(right))
      && TreeLinked(mem, left, ring[0], idx) && TreeLinked(mem, right, ring[0], idx)
  }

  // ------------------------------------------------------------------ which words change

  /** The bodies of these chunks read the same. */
  ghost predicate SameIn(mem: Memory, mem': Memory, items: set<(nat, nat)>) {
    forall w: nat {:trigger Word(mem', w)} :: InSome(items, w) ==> Word(mem', w) == Word(mem, w)
  }

  /** Only bodies of these chunks, and the word at `at`, differ. */
  ghost predicate OnlyIn(mem: Memory, mem': Memory, items: set<(nat, nat)>, at: nat) {
    forall w: nat {:trigger Word(mem', w)} :: Word(mem', w) != Word(mem, w) ==> w == at || InSome(items, w)
  }

  /** Chunks of the heap, large enough for a tree node. */
  ghost predicate Large(gm: nat, frees: set<(nat, nat)>, items: set<(nat, nat)>) {
    Separated(gm, frees) && items <= frees && forall x :: x in items ==> x.1 >= 64
  }

  /** Bodies of different chunks have no word in common. */
  lemma BodiesApart(gm: nat, frees: set<(nat, nat)>, a: set<(nat, nat)>, b: set<(nat, nat)>, w: nat)
    requires Separated(gm, frees) && a <= frees && b <= frees && a !! b
    ensures !(InSome(a, w) && InSome(b, w))
  {
    forall x, y | x in a && y in b && InBody(x, w) ensures !InBody(y, w) {
      assert ApartFrom(x, y);
    }
  }

  lemma StaysElsewhere(mem: Memory, mem': Memory, gm: nat, frees: set<(nat, nat)>, touched: set<(nat, nat)>, at: nat, others: set<(nat, nat)>)
    requires OnlyIn(mem, mem', touched, at) && Separated(gm, frees) && touched <= frees && others <= frees && touched !! others
    requires !InSome(others, at)
    ensures SameIn(mem, mem', others)
  {
    forall w: nat | InSome(others, w) ensures Word(mem', w) == Word(mem, w) {
      BodiesApart(gm, frees, touched, others, w);
    }
  }

  lemma InRingBody(gm: nat, frees: set<(nat, nat)>, t: Tree, k: nat, off: nat)
    requires t.Node? && k < |t.ring| && Large(gm, frees, RingItems(t)) == true && 16 <= off < 64
    ensures InSome(RingItems(t), t.ring[k] + off)
  {
    var x := (t.ring[k], t.size);
    assert x in RingItems(t);
    assert OutsideState(gm, x);
    assert InBody(x, t.ring[k] + off);
  }

  /** The parts of a node's trie are different chunks. */
  lemma PartsDiffer(t: Tree, h: nat, b: nat)
    requires t.Node? && Trie(t, h, b) == true
    ensures RingItems(t) !! Items(t.left) && RingItems(t) !! Items(t.right) && Items(t.left) !! Items(t.right)
    ensures Items(t) == RingItems(t) + Items(t.left) + Items(t.right)
  {
    HalvesDiffer(t, h, b);
    forall x | x in Items(t.left) ensures x !in Items(t.right) {
      assert x in Items(t.right) ==> x.1 < x.1;
    }
  }

  lemma RingIsAllClear(gm: nat, frees: set<(nat, nat)>, t: Tree)
    requires t.Node? && Separated(gm, frees) && RingItems(t) <= frees
    ensures AllClear(t.ring)
  {
    forall i, j | 0 <= i < |t.ring| && 0 <= j < |t.ring| ensures Clear(t.ring[i], t.ring[j]) {
      var x, y := (t.ring[i], t.size), (t.ring[j], t.size);
      assert x in RingItems(t) && y in RingItems(t);
      assert ApartFrom(x, y) && OutsideState(gm, x) && OutsideState(gm, y);
    }
  }

  /** A node whose head words alone may have changed. */
  lemma NodeStays(mem: Memory, mem': Memory, gm: nat, frees: set<(nat, nat)>, t: Tree, par: nat, idx: nat, c0: nat, c1: nat)
    requires t.Node? && t.ring != [] && NodeLinked(mem, t.ring, par, idx, c0, c1) == true && Large(gm, frees, RingItems(t)) == true
    requires forall w: nat {:trigger Word(mem', w)} :: InSome(RingItems(t), w) ==>
               Word(mem', w) == Word(mem, w) || w == t.ring[0] + PARENT || w == ChildAt(t.ring[0], 0) || w == ChildAt(t.ring[0], 1)
    ensures NodeLinked(mem', t.ring, Word(mem', t.ring[0] + PARENT), idx, Word(mem', ChildAt(t.ring[0], 0)), Word(mem', ChildAt(t.ring[0], 1)))
  {
    var ring := t.ring;
    hide Large, Ring, InSome;
    forall k | 0 <= k < |ring|
      ensures Fd(mem', ring[k]) == Fd(mem, ring[k]) && Bk(mem', ring[k]) == Bk(mem, ring[k]) && Word(mem', ring[k] + INDEX) == Word(mem, ring[k] + INDEX)
      ensures k > 0 ==> Word(mem', ring[k] + PARENT) == 0 && Word(mem', ChildAt(ring[k], 0)) == 0 && Word(mem', ChildAt(ring[k], 1)) == 0
    {
      RingWords(mem, mem', gm, frees, t, k);
    }
    RingStays(mem, mem', ring);
  }

  lemma RingWords(mem: Memory, mem': Memory, gm: nat, frees: set<(nat, nat)>, t: Tree, k: nat)
    requires t.Node? && k < |t.ring| && Large(gm, frees, RingItems(t))
    requires forall w: nat {:trigger Word(mem', w)} :: InSome(RingItems(t), w) ==>
               Word(mem', w) == Word(mem, w) || w == t.ring[0] + PARENT || w == ChildAt(t.ring[0], 0) || w == ChildAt(t.ring[0], 1)
    ensures Fd(mem', t.ring[k]) == Fd(mem, t.ring[k]) && Bk(mem', t.ring[k]) == Bk(mem, t.ring[k])
    ensures Word(mem', t.ring[k] + INDEX) == Word(mem, t.ring[k] + INDEX)
    ensures t.ring[k] != t.ring[0] ==>
              && Word(mem', t.ring[k] + PARENT) == Word(mem, t.ring[k] + PARENT)
              && Word(mem', ChildAt(t.ring[k], 0)) == Word(mem, ChildAt(t.ring[k], 0))
              && Word(mem', ChildAt(t.ring[k], 1)) == Word(mem, ChildAt(t.ring[k], 1))
  {
    var a, n := t.ring[k], t.ring[0];
    InRingBody(gm, frees, t, k, 16);
    InRingBody(gm, frees, t, k, 24);
    InRingBody(gm, frees, t, k, 32);
    InRingBody(gm, frees, t, k, 40);
    InRingBody(gm, frees, t, k, 48);
    InRingBody(gm, frees, t, k, 56);
    var x, y := (a, t.size), (n, t.size);
    assert x in RingItems(t) && y in RingItems(t);
    assert ApartFrom(x, y) && OutsideState(gm, x) && OutsideState(gm, y);
  }

  /** A trie whose bodies are untouched. */
  lemma {:induction false} TreeStays(mem: Memory, mem': Memory, gm: nat, frees: set<(nat, nat)>, t: Tree, par: nat, idx: nat)
    requires TreeLinked(mem, t, par, idx) == true && SameIn(mem, mem', Items(t)) && Large(gm, frees, Items(t)) == true
    ensures TreeLinked(mem', t, par, idx)
  {
    if t.Node? {
      LargePart(gm, frees, Items(t), RingItems(t));
      LargePart(gm, frees, Items(t), Items(t.left));
      LargePart(gm, frees, Items(t), Items(t.right));
      SamePart(mem, mem', Items(t), RingItems(t));
      SamePart(mem, mem', Items(t), Items(t.left));
      SamePart(mem, mem', Items(t), Items(t.right));
      TreeStays(mem, mem', gm, frees, t.left, t.ring[0], idx);
      TreeStays(mem, mem', gm, frees, t.right, t.ring[0], idx);
      NodeStays(mem, mem', gm, frees, t, par, idx, Root(t.left), Root(t.right));
      InRingBody(gm, frees, t, 0, 32);
      InRingBody(gm, frees, t, 0, 40);
      InRingBody(gm, frees, t, 0, 48);
    }
  }

  lemma LargePart(gm: nat, frees: set<(nat, nat)>, items: set<(nat, nat)>, part: set<(nat, nat)>)
    requires Large(gm, frees, items) == true && part <= items
    ensures Large(gm, frees, part)
  {
  }

  lemma SamePart(mem: Memory, mem': Memory, items: set<(nat, nat)>, part: set<(nat, nat)>)
    requires SameIn(mem, mem', items) && part <= items
    ensures SameIn(mem, mem', part)
  {
    forall w: nat | InSome(part, w) ensures InSome(items, w) {
      var x :| x in part && InBody(x, w);
      assert x in items && InBody(x, w);
    }
  }

  // ------------------------------------------------------------------ one child replaced

  function ChildOf(t: Tree, bit: nat): Tree
    requires t.Node?
  {
    if bit == 0 then t.left else t.right
  }

  function WithChild(t: Tree, bit: nat, child: Tree): Tree
    requires t.Node?
  {
    if bit == 0 then t.(left := child) else t.(right := child)
  }

  lemma SomeMore(a: set<(nat, nat)>, b: set<(nat, nat)>, w: nat)
    requires InSome(a, w) && a <= b
    ensures InSome(b, w)
  {
    var x :| x in a && InBody(x, w);
    assert x in b && InBody(x, w);
  }

  lemma NotInPart(a: set<(nat, nat)>, b: set<(nat, nat)>, w: nat)
    requires !InSome(b, w) && a <= b
    ensures !InSome(a, w)
  {
    forall x | x in a ensures !InBody(x, w) {
      assert x in b;
    }
  }

  /** Bodies of the node's ring and of the other child do not overlap what a change below one child touches. */
  lemma AroundChild(gm: nat, frees: set<(nat, nat)>, t: Tree, h: nat, b: nat, bit: nat, more: set<(nat, nat)>)
    requires t.Node? && Trie(t, h, b) == true && bit < 2 && Large(gm, frees, Items(t) + more) == true && more !! Items(t)
    ensures var touched, other := Items(ChildOf(t, bit)) + more, Items(ChildOf(t, 1 - bit));
            && touched <= frees && other <= frees && RingItems(t) <= frees && Items(t) + more <= frees
            && touched !! other && touched !! RingItems(t) && other !! RingItems(t)
            && touched <= Items(t) + more && RingItems(t) <= Items(t) + more
            && Large(gm, frees, RingItems(t)) && Large(gm, frees, other) && t.ring != []
            && InSome(RingItems(t), ChildAt(t.ring[0], bit)) && InSome(RingItems(t), ChildAt(t.ring[0], 1 - bit))
            && InSome(RingItems(t), t.ring[0] + PARENT)
            && !InSome(other, ChildAt(t.ring[0], bit))
  {
    PartsDiffer(t, h, b);
    LargePart(gm, frees, Items(t) + more, RingItems(t));
    LargePart(gm, frees, Items(t) + more, Items(ChildOf(t, 1 - bit)));
    InRingBody(gm, frees, t, 0, 32);
    InRingBody(gm, frees, t, 0, 40);
    InRingBody(gm, frees, t, 0, 48);
    BodiesApart(gm, frees, RingItems(t), Items(ChildOf(t, 1 - bit)), ChildAt(t.ring[0], bit));
  }

  /** After a change below one child and to the word that points to it, the node is linked to the new child. */
  lemma ChildReplaced(mem: Memory, mem': Memory, gm: nat, frees: set<(nat, nat)>, t: Tree, h: nat, b: nat, bit: nat, child': Tree,
                      more: set<(nat, nat)>, par: nat, wh: nat, idx: nat)
    requires t.Node? && t.ring != [] && Trie(t, h, b) == true && bit < 2 && Large(gm, frees, Items(t) + more) == true && more !! Items(t)
    requires TreeLinked(mem, t, par, idx) == true && !InSome(Items(t) + more, wh)
    requires TreeLinked(mem', child', t.ring[0], idx) == true && Word(mem', ChildAt(t.ring[0], bit)) == Root(child')
    requires OnlyIn(mem, mem', Items(ChildOf(t, bit)) + more, ChildAt(t.ring[0], bit)) == true
    ensures TreeLinked(mem', WithChild(t, bit, child'), par, idx)
    ensures Word(mem', wh) == Word(mem, wh) && OnlyIn(mem, mem', Items(t) + more, wh)
  {
    var n, slot, touched, other := t.ring[0], ChildAt(t.ring[0], bit), Items(ChildOf(t, bit)) + more, ChildOf(t, 1 - bit);
    AroundChild(gm, frees, t, h, b, bit, more);
    assert Separated(gm, frees);
    hide Large, Separated, InSome, Trie, Items;
    StaysElsewhere(mem, mem', gm, frees, touched, slot, Items(other));
    TreeStays(mem, mem', gm, frees, other, n, idx);
    forall w: nat | InSome(RingItems(t), w) ensures Word(mem', w) == Word(mem, w) || w == slot {
      BodiesApart(gm, frees, touched, RingItems(t), w);
    }
    NodeStays(mem, mem', gm, frees, t, par, idx, Root(t.left), Root(t.right));
    forall w: nat | Word(mem', w) != Word(mem, w) ensures w == wh || InSome(Items(t) + more, w) {
      if w == slot { SomeMore(RingItems(t), Items(t) + more, w); } else { SomeMore(touched, Items(t) + more, w); }
    }
    NotInPart(RingItems(t), Items(t) + more, wh);
    NotInPart(touched, Items(t) + more, wh);
  }

  // ------------------------------------------------------------------ insert_large_chunk

  /** Where a chunk goes: into the ring of a node, or below a parent, pointed to by the word at `slot`. */
  datatype Place = InRing(node: nat) | AtChild(parent: nat, slot: nat)

  /** The place the descent by the size's bits ends at; `wh` is the address of the word that points to t. */
  function PlaceOf(t: Tree, b: nat, s: nat, par: nat, wh: nat): Place
    decreases t
  {
    match t
    case Leaf => AtChild(par, wh)
    case Node(size, ring, left, right) =>
      if size == s || b == 0 then InRing(Root(t))
      else
        var bit := Shift(s, b - 1) % 2;
        PlaceOf(ChildOf(t, bit), b - 1, s, Root(t), ChildAt(Root(t), bit))
  }

  /** A chunk about to be linked knows its bin and has no children. */
  function Prepare(mem: Memory, x: nat, idx: nat): Memory {
    mem[x + INDEX := idx][ChildAt(x, 0) := 0][ChildAt(x, 1) := 0]
  }

  function PutAt(mem: Memory, place: Place, x: nat): Memory {
    match place
    case AtChild(parent, slot) => LinkAlone(mem[slot := x][x + PARENT := parent], x)
    case InRing(node) => LinkIn(mem, node, Fd(mem, node), x)[x + PARENT := 0]
  }

  function Inserted(mem: Memory, t: Tree, b: nat, x: nat, s: nat, par: nat, wh: nat, idx: nat): Memory {
    PutAt(Prepare(mem, x, idx), PlaceOf(t, b, s, par, wh), x)
  }

  /** A new node. */
  lemma PutAlone(mem: Memory, x: nat, s: nat, par: nat, wh: nat, idx: nat)
    requires s >= 64 && !InSome({(x, s)}, wh)
    ensures var mem' := PutAt(Prepare(mem, x, idx), AtChild(par, wh), x);
            && TreeLinked(mem', Node(s, [x], Leaf, Leaf), par, idx) && Word(mem', wh) == x
            && OnlyIn(mem, mem', {(x, s)}, wh)
  {
    var mem' := PutAt(Prepare(mem, x, idx), AtChild(par, wh), x);
    var item := (x, s);
    forall w: nat | x + 16 <= w < x + 64 ensures InSome({item}, w) {
      assert item in {item} && InBody(item, w);
    }
    AloneIsRing(Prepare(mem, x, idx)[wh := x][x + PARENT := par], x);
  }

  /** The descent, on the trie and in memory. */
  lemma InsertGoesDown(mem: Memory, t: Tree, h: nat, b: nat, x: nat, s: nat, par: nat, wh: nat, idx: nat)
    requires t.Node? && t.size != s && Trie(t, h, b) && Shift(s, b) == h
    ensures b > 0 && t.ring != [] && Shift(s, b - 1) == 2 * h + Shift(s, b - 1) % 2
    ensures var bit := Shift(s, b - 1) % 2; var child := ChildOf(t, bit);
            && Insert(t, b, x, s) == WithChild(t, bit, Insert(child, b - 1, x, s)) && child < t
            && Inserted(mem, t, b, x, s, par, wh, idx) == Inserted(mem, child, b - 1, x, s, t.ring[0], ChildAt(t.ring[0], bit), idx)
  {
    assert b > 0;
    SizeHalf(s, h, b);
  }

  lemma {:induction false} InsertLinks(mem: Memory, gm: nat, frees: set<(nat, nat)>, t: Tree, h: nat, b: nat, x: nat, s: nat, par: nat, wh: nat, idx: nat)
    requires Trie(t, h, b) && Shift(s, b) == h && (x, s) !in Items(t) && Large(gm, frees, Items(t) + {(x, s)})
    requires TreeLinked(mem, t, par, idx) && Word(mem, wh) == Root(t) && !InSome(Items(t) + {(x, s)}, wh)
    ensures var mem' := Inserted(mem, t, b, x, s, par, wh, idx);
            && TreeLinked(mem', Insert(t, b, x, s), par, idx) && Word(mem', wh) == Root(Insert(t, b, x, s))
            && OnlyIn(mem, mem', Items(t) + {(x, s)}, wh)
    decreases t
  {
    hide InSome, OnlyIn, Large, Separated, Word, PutAt, Prepare, Trie, Shift, NodeLinked;
    if t.Leaf? {
      assert Items(t) + {(x, s)} == {(x, s)};
      NewItemIsLarge(gm, frees, x, s);
      PutAlone(mem, x, s, par, wh, idx);
    } else if t.size == s {
      PutInRing(mem, gm, frees, t, h, b, x, par, wh, idx);
    } else {
      InsertGoesDown(mem, t, h, b, x, s, par, wh, idx);
      var bit := Shift(s, b - 1) % 2;
      InsertBelow(mem, gm, frees, t, h, b, bit, x, s, par, wh, idx);
    }
  }

  lemma NewItemIsLarge(gm: nat, frees: set<(nat, nat)>, x: nat, s: nat)
    requires Large(gm, frees, {(x, s)})
    ensures s >= 64
  {
    assert (x, s) in {(x, s)};
  }

  lemma {:induction false} InsertBelow(mem: Memory, gm: nat, frees: set<(nat, nat)>, t: Tree, h: nat, b: nat, bit: nat, x: nat, s: nat, par: nat, wh: nat, idx: nat)
    requires t.Node? && t.ring != [] && b > 0 && bit < 2 && Trie(t, h, b) && Shift(s, b - 1) == 2 * h + bit
    requires (x, s) !in Items(t) && Large(gm, frees, Items(t) + {(x, s)})
    requires TreeLinked(mem, t, par, idx) && !InSome(Items(t) + {(x, s)}, wh)
    ensures var child := ChildOf(t, bit);
            var mem' := Inserted(mem, child, b - 1, x, s, t.ring[0], ChildAt(t.ring[0], bit), idx);
            var t' := WithChild(t, bit, Insert(child, b - 1, x, s));
            && TreeLinked(mem', t', par, idx) && Word(mem', wh) == Word(mem, wh)
            && OnlyIn(mem, mem', Items(t) + {(x, s)}, wh)
    decreases t, 0
  {
    hide InSome, OnlyIn, Large, Separated, Word, PutAt, Prepare, Trie, Shift, NodeLinked, TreeLinked, Inserted, Insert, Items;
    var child, n := ChildOf(t, bit), t.ring[0];
    ChildFacts(gm, frees, t, h, b, bit, {(x, s)}, par, idx, mem);
    InsertLinks(mem, gm, frees, child, 2 * h + bit, b - 1, x, s, n, ChildAt(n, bit), idx);
    ChildReplaced(mem, Inserted(mem, child, b - 1, x, s, n, ChildAt(n, bit), idx), gm, frees, t, h, b, bit,
                  Insert(child, b - 1, x, s), {(x, s)}, par, wh, idx);
  }

  /** What going down to a child needs. */
  lemma ChildFacts(gm: nat, frees: set<(nat, nat)>, t: Tree, h: nat, b: nat, bit: nat, more: set<(nat, nat)>, par: nat, idx: nat, mem: Memory)
    requires t.Node? && Trie(t, h, b) == true && bit < 2 && b > 0 && Large(gm, frees, Items(t) + more) == true && more !! Items(t)
    requires TreeLinked(mem, t, par, idx) == true
    ensures t.ring != [] && Trie(ChildOf(t, bit), 2 * h + bit, b - 1)
    ensures Large(gm, frees, Items(ChildOf(t, bit)) + more) && Items(ChildOf(t, bit)) <= Items(t)
    ensures TreeLinked(mem, ChildOf(t, bit), t.ring[0], idx) && Word(mem, ChildAt(t.ring[0], bit)) == Root(ChildOf(t, bit))
    ensures !InSome(Items(ChildOf(t, bit)) + more, ChildAt(t.ring[0], bit))
  {
    AroundChild(gm, frees, t, h, b, bit, more);
    LargePart(gm, frees, Items(t) + more, Items(ChildOf(t, bit)) + more);
    BodiesApart(gm, frees, RingItems(t), Items(ChildOf(t, bit)) + more, ChildAt(t.ring[0], bit));
  }

  /** Joining the ring of a node of the same size. */
  lemma PutInRing(mem: Memory, gm: nat, frees: set<(nat, nat)>, t: Tree, h: nat, b: nat, x: nat, par: nat, wh: nat, idx: nat)
    requires t.Node? && t.ring != [] && Trie(t, h, b) && (x, t.size) !in Items(t) && Large(gm, frees, Items(t) + {(x, t.size)})
    requires TreeLinked(mem, t, par, idx) && Word(mem, wh) == Root(t) && !InSome(Items(t) + {(x, t.size)}, wh)
    ensures var mem' := PutAt(Prepare(mem, x, idx), InRing(t.ring[0]), x);
            var t' := t.(ring := [t.ring[0], x] + t.ring[1..]);
            && TreeLinked(mem', t', par, idx) && Word(mem', wh) == Root(t')
            && OnlyIn(mem, mem', Items(t) + {(x, t.size)}, wh)
  {
    var n, new' := t.ring[0], [t.ring[0], x] + t.ring[1..];
    var mem1 := Prepare(mem, x, idx);
    var mem' := PutAt(mem1, InRing(n), x);
    var touched := RingItems(t) + {(x, t.size)};
    PartsDiffer(t, h, b);
    RingPut(mem, gm, frees, t, x, par, idx);
    assert Separated(gm, frees);
    hide Large, Separated, InSome, Trie, PutAt, Prepare, NodeLinked;
    forall w: nat | Word(mem', w) != Word(mem, w) ensures w == wh || InSome(Items(t) + {(x, t.size)}, w) {
      SomeMore(touched, Items(t) + {(x, t.size)}, w);
    }
    NotInPart(touched, Items(t) + {(x, t.size)}, wh);
    ApartStays(mem, mem', gm, frees, t.left, n, idx, touched, Items(t) + {(x, t.size)});
    ApartStays(mem, mem', gm, frees, t.right, n, idx, touched, Items(t) + {(x, t.size)});
  }

  lemma ApartStays(mem: Memory, mem': Memory, gm: nat, frees: set<(nat, nat)>, t: Tree, par: nat, idx: nat, touched: set<(nat, nat)>, all: set<(nat, nat)>)
    requires TreeLinked(mem, t, par, idx) == true && Large(gm, frees, all) == true && touched <= all && Items(t) <= all && touched !! Items(t)
    requires forall w: nat {:trigger Word(mem', w)} :: Word(mem', w) != Word(mem, w) ==> InSome(touched, w)
    ensures TreeLinked(mem', t, par, idx)
  {
    forall w: nat | InSome(Items(t), w) ensures Word(mem', w) == Word(mem, w) {
      BodiesApart(gm, frees, touched, Items(t), w);
    }
    LargePart(gm, frees, all, Items(t));
    TreeStays(mem, mem', gm, frees, t, par, idx);
  }

  /** Two tree chunks are the same or at least 64 bytes apart. */
  predicate Far(a: nat, b: nat) {
    a == b || a + 64 <= b || b + 64 <= a
  }

  /** What preparing x leaves of another chunk's words. */
  lemma PreparedWords(mem: Memory, x: nat, idx: nat, a: nat)
    requires Far(a, x) && a != x
    ensures var mem1 := Prepare(mem, x, idx);
            && Word(mem1, a + INDEX) == Word(mem, a + INDEX) && Word(mem1, a + PARENT) == Word(mem, a + PARENT)
            && Word(mem1, ChildAt(a, 0)) == Word(mem, ChildAt(a, 0)) && Word(mem1, ChildAt(a, 1)) == Word(mem, ChildAt(a, 1))
            && Fd(mem1, a) == Fd(mem, a) && Bk(mem1, a) == Bk(mem, a)
  {
  }

  lemma LinkedInWords(mem: Memory, n: nat, f: nat, x: nat, a: nat)
    requires Far(a, n) && Far(a, f) && Far(a, x) && a != x
    ensures var mem' := LinkIn(mem, n, f, x)[x + PARENT := 0];
            && Word(mem', a + INDEX) == Word(mem, a + INDEX) && Word(mem', a + PARENT) == Word(mem, a + PARENT)
            && Word(mem', ChildAt(a, 0)) == Word(mem, ChildAt(a, 0)) && Word(mem', ChildAt(a, 1)) == Word(mem, ChildAt(a, 1))
            && Fd(mem', a) == Fd(LinkIn(mem, n, f, x), a) && Bk(mem', a) == Bk(LinkIn(mem, n, f, x), a)
  {
  }

  lemma RingPutWords(mem: Memory, n: nat, f: nat, x: nat, idx: nat, a: nat)
    requires Far(a, n) && Far(a, f) && Far(a, x) && a != x
    ensures var mem' := LinkIn(Prepare(mem, x, idx), n, f, x)[x + PARENT := 0];
            && Word(mem', a + INDEX) == Word(mem, a + INDEX) && Word(mem', a + PARENT) == Word(mem, a + PARENT)
            && Word(mem', ChildAt(a, 0)) == Word(mem, ChildAt(a, 0)) && Word(mem', ChildAt(a, 1)) == Word(mem, ChildAt(a, 1))
            && Fd(mem', a) == Fd(LinkIn(Prepare(mem, x, idx), n, f, x), a) && Bk(mem', a) == Bk(LinkIn(Prepare(mem, x, idx), n, f, x), a)
            && Fd(Prepare(mem, x, idx), a) == Fd(mem, a) && Bk(Prepare(mem, x, idx), a) == Bk(mem, a)
  {
    hide Prepare, LinkIn, Word, Fd, Bk, Far, ChildAt;
    PreparedWords(mem, x, idx, a);
    LinkedInWords(Prepare(mem, x, idx), n, f, x, a);
  }

  lemma RingPutOwnWords(mem: Memory, n: nat, f: nat, x: nat, idx: nat)
    requires Far(n, x) && Far(f, x) && n != x && f != x
    ensures var mem' := LinkIn(Prepare(mem, x, idx), n, f, x)[x + PARENT := 0];
            && Word(mem', x + INDEX) == idx && Word(mem', x + PARENT) == 0
            && Word(mem', ChildAt(x, 0)) == 0 && Word(mem', ChildAt(x, 1)) == 0
            && Fd(mem', x) == Fd(LinkIn(Prepare(mem, x, idx), n, f, x), x) && Bk(mem', x) == Bk(LinkIn(Prepare(mem, x, idx), n, f, x), x)
  {
  }

  lemma RingIsFar(gm: nat, frees: set<(nat, nat)>, t: Tree, x: nat, i: nat, j: nat)
    requires t.Node? && (x, t.size) !in RingItems(t) && Large(gm, frees, RingItems(t) + {(x, t.size)}) && i < |t.ring| && j < |t.ring|
    ensures Far(t.ring[i], t.ring[j]) && Far(t.ring[i], x) && t.ring[i] != x && t.size >= 64
  {
    var a, b, c := (t.ring[i], t.size), (t.ring[j], t.size), (x, t.size);
    assert a in RingItems(t) && b in RingItems(t);
    assert ApartFrom(a, b) && ApartFrom(a, c);
  }

  /** Which words joining a ring changes. */
  lemma RingPutTouches(mem: Memory, n: nat, f: nat, x: nat, idx: nat, size: nat, items: set<(nat, nat)>)
    requires (n, size) in items && (f, size) in items && (x, size) in items && size >= 64
    ensures var mem' := LinkIn(Prepare(mem, x, idx), n, f, x)[x + PARENT := 0];
            forall w: nat {:trigger Word(mem', w)} :: Word(mem', w) != Word(mem, w) ==> InSome(items, w)
  {
    var mem' := LinkIn(Prepare(mem, x, idx), n, f, x)[x + PARENT := 0];
    forall w: nat | Word(mem', w) != Word(mem, w) ensures InSome(items, w) {
      if w == n + FD {
        assert InBody((n, size), w);
      } else if w == f + BK {
        assert InBody((f, size), w);
      } else {
        assert InBody((x, size), w);
      }
    }
  }

  /** Every node of the ring and its neighbour behind the head are far enough from each other and from x. */
  lemma RingPutAt(mem: Memory, gm: nat, frees: set<(nat, nat)>, t: Tree, x: nat, idx: nat, k: nat)
    requires t.Node? && t.ring != [] && Ring(mem, t.ring) && (x, t.size) !in RingItems(t)
    requires Large(gm, frees, RingItems(t) + {(x, t.size)}) && k < |t.ring|
    ensures var a, n, f := t.ring[k], t.ring[0], Fd(mem, t.ring[0]);
            && Far(a, n) && Far(a, f) && Far(a, x) && Far(n, x) && Far(f, x) && a != x && n != x && f != x
            && t.size >= 64 && (f, t.size) in RingItems(t)
  {
    var f := Fd(mem, t.ring[0]);
    OwnNeighbour(mem, t.ring, 0);
    var j :| 0 <= j < |t.ring| && t.ring[j] == f;
    RingIsFar(gm, frees, t, x, k, 0);
    RingIsFar(gm, frees, t, x, k, j);
    RingIsFar(gm, frees, t, x, j, 0);
    RingIsFar(gm, frees, t, x, 0, 0);
  }

  /** The ring of the node with the newcomer. */
  lemma RingPutRing(mem: Memory, gm: nat, frees: set<(nat, nat)>, t: Tree, x: nat, idx: nat)
    requires t.Node? && t.ring != [] && Ring(mem, t.ring) && (x, t.size) !in RingItems(t)
    requires Large(gm, frees, RingItems(t) + {(x, t.size)})
    ensures Ring(LinkIn(Prepare(mem, x, idx), t.ring[0], Fd(mem, t.ring[0]), x)[x + PARENT := 0], [t.ring[0], x] + t.ring[1..])
    ensures Fd(Prepare(mem, x, idx), t.ring[0]) == Fd(mem, t.ring[0])
  {
    hide Large, InSome, LinkIn, Prepare, Far, Ring, Fd, Bk, RingItems;
    var ring, n, f := t.ring, t.ring[0], Fd(mem, t.ring[0]);
    var mem1 := Prepare(mem, x, idx);
    var mem2 := LinkIn(mem1, n, f, x);
    var mem', new' := mem2[x + PARENT := 0], [n, x] + ring[1..];
    forall k | 0 <= k < |ring|
      ensures Fd(mem1, ring[k]) == Fd(mem, ring[k]) && Bk(mem1, ring[k]) == Bk(mem, ring[k])
      ensures Fd(mem', ring[k]) == Fd(mem2, ring[k]) && Bk(mem', ring[k]) == Bk(mem2, ring[k])
    {
      RingPutAt(mem, gm, frees, t, x, idx, k);
      RingPutWords(mem, n, f, x, idx, ring[k]);
    }
    RingPutAt(mem, gm, frees, t, x, idx, 0);
    RingPutOwnWords(mem, n, f, x, idx);
    RingStays(mem, mem1, ring);
    NewRingClear(gm, frees, t, x);
    LinkInSecond(mem1, ring, x);
    forall k | 0 <= k < |new'| ensures Fd(mem', new'[k]) == Fd(mem2, new'[k]) && Bk(mem', new'[k]) == Bk(mem2, new'[k]) {
      if k != 1 { assert new'[k] == ring[if k == 0 then 0 else k - 1]; }
    }
    RingStays(mem2, mem', new');
  }

  /** The words of the old members. */
  lemma RingPutOld(mem: Memory, gm: nat, frees: set<(nat, nat)>, t: Tree, x: nat, idx: nat, k: nat)
    requires t.Node? && t.ring != [] && Ring(mem, t.ring) && (x, t.size) !in RingItems(t)
    requires Large(gm, frees, RingItems(t) + {(x, t.size)}) && k < |t.ring|
    ensures var mem', a := PutAt(Prepare(mem, x, idx), InRing(t.ring[0]), x), t.ring[k];
            && Word(mem', a + INDEX) == Word(mem, a + INDEX) && Word(mem', a + PARENT) == Word(mem, a + PARENT)
            && Word(mem', ChildAt(a, 0)) == Word(mem, ChildAt(a, 0)) && Word(mem', ChildAt(a, 1)) == Word(mem, ChildAt(a, 1))
  {
    RingPutRing(mem, gm, frees, t, x, idx);
    RingPutAt(mem, gm, frees, t, x, idx, k);
    RingPutWords(mem, t.ring[0], Fd(mem, t.ring[0]), x, idx, t.ring[k]);
  }

  lemma RingPutNew(mem: Memory, gm: nat, frees: set<(nat, nat)>, t: Tree, x: nat, idx: nat)
    requires t.Node? && t.ring != [] && Ring(mem, t.ring) && (x, t.size) !in RingItems(t)
    requires Large(gm, frees, RingItems(t) + {(x, t.size)})
    ensures var mem' := PutAt(Prepare(mem, x, idx), InRing(t.ring[0]), x);
            && Ring(mem', [t.ring[0], x] + t.ring[1..])
            && Word(mem', x + INDEX) == idx && Word(mem', x + PARENT) == 0
            && Word(mem', ChildAt(x, 0)) == 0 && Word(mem', ChildAt(x, 1)) == 0
            && forall w: nat {:trigger Word(mem', w)} :: Word(mem', w) != Word(mem, w) ==> InSome(RingItems(t) + {(x, t.size)}, w)
  {
    RingPutRing(mem, gm, frees, t, x, idx);
    RingPutAt(mem, gm, frees, t, x, idx, 0);
    assert (t.ring[0], t.size) in RingItems(t);
    RingPutTouches(mem, t.ring[0], Fd(mem, t.ring[0]), x, idx, t.size, RingItems(t) + {(x, t.size)});
    RingPutOwnWords(mem, t.ring[0], Fd(mem, t.ring[0]), x, idx);
  }

  /** The node itself, with the newcomer in its ring. */
  lemma RingPut(mem: Memory, gm: nat, frees: set<(nat, nat)>, t: Tree, x: nat, par: nat, idx: nat)
    requires t.Node? && t.ring != [] && (x, t.size) !in RingItems(t) && Large(gm, frees, RingItems(t) + {(x, t.size)})
    requires NodeLinked(mem, t.ring, par, idx, Root(t.left), Root(t.right))
    ensures var mem' := PutAt(Prepare(mem, x, idx), InRing(t.ring[0]), x);
            && NodeLinked(mem', [t.ring[0], x] + t.ring[1..], par, idx, Root(t.left), Root(t.right))
            && forall w: nat {:trigger Word(mem', w)} :: Word(mem', w) != Word(mem, w) ==> InSome(RingItems(t) + {(x, t.size)}, w)
  {
    hide Large, InSome, PutAt, Prepare, Ring, RingItems, ChildAt, Word;
    var ring := t.ring;
    RingPutNew(mem, gm, frees, t, x, idx);
    var mem', new' := PutAt(Prepare(mem, x, idx), InRing(ring[0]), x), [ring[0], x] + ring[1..];
    RingPutOld(mem, gm, frees, t, x, idx, 0);
    forall k | 0 <= k < |new'|
      ensures Word(mem', new'[k] + INDEX) == idx
      ensures k > 0 ==> Word(mem', new'[k] + PARENT) == 0 && Word(mem', ChildAt(new'[k], 0)) == 0 && Word(mem', ChildAt(new'[k], 1)) == 0
    {
      if k > 1 {
        assert new'[k] == ring[k - 1];
        RingPutOld(mem, gm, frees, t, x, idx, k - 1);
      }
    }
  }

  lemma NewRingClear(gm: nat, frees: set<(nat, nat)>, t: Tree, x: nat)
    requires t.Node? && t.ring != [] && (x, t.size) !in RingItems(t) && Large(gm, frees, RingItems(t) + {(x, t.size)})
    ensures AllClear([x] + t.ring) && x !in t.ring
  {
    var s := [x] + t.ring;
    forall i, j | 0 <= i < |s| && 0 <= j < |s| ensures Clear(s[i], s[j]) {
      RingIsFar(gm, frees, t, x, if i > 0 then i - 1 else 0, if j > 0 then j - 1 else 0);
      RingIsFar(gm, frees, t, x, if j > 0 then j - 1 else 0, 0);
    }
    forall i | 0 <= i < |t.ring| ensures t.ring[i] != x {
      RingIsFar(gm, frees, t, x, i, 0);
    }
  }
}
