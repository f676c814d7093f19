/**
  insert_large_chunk and unlink_large_chunk of src/malloc.c as the source writes them, on the link
  words of the 32 tree bins: they find their way by words in memory alone.
*/
module BinLinks {
  import opened Hypercube
  import opened HeapWords
  import opened TreeBins
  import opened SmallLinks
  import opened Rings
  import opened TreeLinks
  import opened TreeUnlinks

  ghost predicate BinLinked(mem: Memory, gm: nat, trees: seq<Tree>, i: nat)
    requires i < |trees|
  {
    TreeLinked(mem, trees[i], TreeBinAt(gm, i), i) && Word(mem, TreeBinAt(gm, i)) == Root(trees[i])
  }

  /** The words of the tree bins say what `trees` says. */
  ghost predicate TreesLinked(mem: Memory, gm: nat, trees: seq<Tree>) {
    forall i {:trigger trees[i]} :: 0 <= i < |trees| ==> BinLinked(mem, gm, trees, i)
  }

  /** The heads of these chunks tell their sizes. */
  ghost predicate SizesRead(mem: Memory, items: set<(nat, nat)>) {
    forall y {:trigger y in items} :: y in items ==> ChunkSize(Word(mem, y.0 + 8)) == y.1
  }

  // ------------------------------------------------------------------ one bin of many

  /** Words of malloc_state are not in the body of a chunk. */
  lemma StateNotInBodies(gm: nat, frees: set<(nat, nat)>, items: set<(nat, nat)>, w: nat)
    requires Separated(gm, frees) && items <= frees && gm <= w < gm + STATE_BYTES
    ensures !InSome(items, w)
  {
    forall x | x in items ensures !InBody(x, w) {
      assert OutsideState(gm, x);
    }
  }

  lemma BinFacts(trees: seq<Tree>, treemap: set<nat>, gm: nat, frees: set<(nat, nat)>, i: nat)
    requires BinsOk(trees, treemap) && i < |trees| && Separated(gm, frees) && AllItems(trees) <= frees
    ensures Trie(trees[i], High(i), Bits(i)) == true && Items(trees[i]) <= AllItems(trees) && Large(gm, frees, Items(trees[i])) == true
    ensures !InSome(Items(trees[i]), TreeBinAt(gm, i)) && (i in treemap <==> trees[i].Node?)
  {
    assert BinOk(trees, treemap, i);
    forall x | x in Items(trees[i]) ensures x in AllItems(trees) {
      InSomeBin(trees, i, x);
    }
    StateNotInBodies(gm, frees, Items(trees[i]), TreeBinAt(gm, i));
  }

  /** Chunks of different bins are different. */
  lemma BinsDiffer(trees: seq<Tree>, treemap: set<nat>, i: nat, j: nat)
    requires BinsOk(trees, treemap) && i < |trees| && j < |trees| && i != j
    ensures Items(trees[i]) !! Items(trees[j])
  {
    assert BinOk(trees, treemap, i) && BinOk(trees, treemap, j);
  }

  /** A change to one bin leaves the others as they are. */
  lemma OtherBinStays(mem: Memory, mem': Memory, gm: nat, frees: set<(nat, nat)>, trees: seq<Tree>, treemap: set<nat>, i: nat, more: set<(nat, nat)>, j: nat)
    requires BinsOk(trees, treemap) && i < |trees| && j < |trees| && i != j
    requires Separated(gm, frees) && AllItems(trees) <= frees && more <= frees && more !! AllItems(trees)
    requires BinLinked(mem, gm, trees, j) && OnlyIn(mem, mem', Items(trees[i]) + more, TreeBinAt(gm, i)) == true
    ensures BinLinked(mem', gm, trees, j)
  {
    BinFacts(trees, treemap, gm, frees, i);
    BinFacts(trees, treemap, gm, frees, j);
    BinsDiffer(trees, treemap, i, j);
    var touched := Items(trees[i]) + more;
    StateNotInBodies(gm, frees, Items(trees[j]), TreeBinAt(gm, i));
    StateNotInBodies(gm, frees, touched, TreeBinAt(gm, j));
    hide BinsOk, AllItems, InSome, Large, Trie, Items, TreeLinked;
    StaysElsewhere(mem, mem', gm, frees, touched, TreeBinAt(gm, i), Items(trees[j]));
    TreeStays(mem, mem', gm, frees, trees[j], TreeBinAt(gm, j), j);
  }

  lemma BinReplaced(mem: Memory, mem': Memory, gm: nat, frees: set<(nat, nat)>, trees: seq<Tree>, treemap: set<nat>, i: nat, t': Tree, more: set<(nat, nat)>)
    requires BinsOk(trees, treemap) && i < |trees| && TreesLinked(mem, gm, trees)
    requires Separated(gm, frees) && AllItems(trees) <= frees && more <= frees && more !! AllItems(trees)
    requires TreeLinked(mem', t', TreeBinAt(gm, i), i) && Word(mem', TreeBinAt(gm, i)) == Root(t')
    requires OnlyIn(mem, mem', Items(trees[i]) + more, TreeBinAt(gm, i))
    ensures TreesLinked(mem', gm, trees[i := t'])
    ensures OnlyWithin(mem, mem', gm + 600, gm + STATE_BYTES, AllItems(trees) + more)
  {
    BinFacts(trees, treemap, gm, frees, i);
    assert |trees| == 32;
    hide BinsOk, AllItems, InSome, Large, Trie, Items, TreeLinked, Separated;
    var trees' := trees[i := t'];
    forall j | 0 <= j < |trees'| ensures BinLinked(mem', gm, trees', j) {
      if j != i {
        assert BinLinked(mem, gm, trees, j);
        OtherBinStays(mem, mem', gm, frees, trees, treemap, i, more, j);
      }
    }
    forall w: nat | Word(mem', w) != Word(mem, w) ensures gm + 600 <= w < gm + STATE_BYTES || InSome(AllItems(trees) + more, w) {
      if w != TreeBinAt(gm, i) { SomeMore(Items(trees[i]) + more, AllItems(trees) + more, w); }
    }
  }

  // ------------------------------------------------------------------ insert_large_chunk

  /** While the chunk is prepared, the trie's words and the sizes of its chunks stay. */
  lemma PreparedStays(mem: Memory, gm: nat, frees: set<(nat, nat)>, t: Tree, x: (nat, nat), par: nat, wh: nat, idx: nat)
    requires TreeLinked(mem, t, par, idx) && Word(mem, wh) == Root(t) && Large(gm, frees, Items(t) + {x}) && x !in Items(t)
    requires !InSome(Items(t) + {x}, wh) && SizesRead(mem, Items(t))
    ensures var mem1 := Prepare(mem, x.0, idx);
            TreeLinked(mem1, t, par, idx) && Word(mem1, wh) == Root(t) && SizesRead(mem1, Items(t))
  {
    var mem1, all := Prepare(mem, x.0, idx), Items(t) + {x};
    assert x in all && OutsideState(gm, x);
    forall w: nat | Word(mem1, w) != Word(mem, w) ensures InSome({x}, w) {
      assert x in {x} && InBody(x, w);
    }
    ApartStays(mem, mem1, gm, frees, t, par, idx, {x}, all);
    NotInPart({x}, all, wh);
    forall y | y in Items(t) ensures ChunkSize(Word(mem1, y.0 + 8)) == y.1 {
      assert y in all && ApartFrom(x, y);
    }
  }

  /** Where the descent stands: at a node on the path of the size, with the size's bits shifted up to it. */
  ghost predicate Descending(mem: Memory, gm: nat, frees: set<(nat, nat)>, node: Tree, h: nat, b: nat, s: nat, par: nat, idx: nat, k: nat) {
    && node.Node? && b <= 64 && Trie(node, h, b) && Shift(s, b) == h && k == SizeBits(s, b)
    && Large(gm, frees, Items(node)) && TreeLinked(mem, node, par, idx) && SizesRead(mem, Items(node))
  }

  lemma DescendingAt(mem: Memory, gm: nat, frees: set<(nat, nat)>, node: Tree, h: nat, b: nat, s: nat, par: nat, idx: nat, k: nat, wh: nat)
    requires Descending(mem, gm, frees, node, h, b, s, par, idx, k)
    ensures node.Node? && node.ring != [] && ChunkSize(Word(mem, Root(node) + 8)) == node.size
    ensures node.size == s ==> PlaceOf(node, b, s, par, wh) == InRing(Root(node))
    ensures node.size != s ==> b > 0 && SignBit(k) < 2
    ensures node.size != s ==>
              && PlaceOf(node, b, s, par, wh) == PlaceOf(ChildOf(node, SignBit(k)), b - 1, s, Root(node), ChildAt(Root(node), SignBit(k)))
              && Word(mem, ChildAt(Root(node), SignBit(k))) == Root(ChildOf(node, SignBit(k)))
  {
    hide Trie, Large, SizeBits, Shift, SignBit, InSome;
    RootItem(node, h, b);
    SizeBitsStep(s, b);
    NotAtTheEnd(node, h, b, s);
  }

  /** With no bits left, the path of a size leads to that size. */
  lemma NotAtTheEnd(node: Tree, h: nat, b: nat, s: nat)
    requires node.Node? && Trie(node, h, b) && Shift(s, b) == h
    ensures node.size != s ==> b > 0
  {
  }

  lemma DescendOnce(mem: Memory, gm: nat, frees: set<(nat, nat)>, node: Tree, h: nat, b: nat, s: nat, par: nat, idx: nat, k: nat)
    requires Descending(mem, gm, frees, node, h, b, s, par, idx, k) == true && node.size != s && b > 0 && SignBit(k) < 2 && node.ring != []
    ensures var child := ChildOf(node, SignBit(k));
            && child < node && (child.Leaf? <==> Root(child) == 0)
            && (child.Node? ==> Descending(mem, gm, frees, child, 2 * h + SignBit(k), b - 1, s, Root(node), idx, ShiftLeft(k)) == true)
  {
    hide Trie, Large, TreeLinked, SizeBits, Shift, InSome, Items, SignBit, ShiftLeft, ChildOf, Separated;
    var bit := SignBit(k);
    var child := ChildOf(node, bit);
    SizeBitsStep(s, b);
    SizeHalf(s, h, b);
    ChildAlone(gm, frees, node, h, b, bit, par, idx, mem);
    RootIsZero(gm, frees, child, 2 * h + bit, b - 1);
  }

  lemma RootIsZero(gm: nat, frees: set<(nat, nat)>, t: Tree, h: nat, b: nat)
    requires Trie(t, h, b) == true && Large(gm, frees, Items(t)) == true
    ensures t.Leaf? <==> Root(t) == 0
  {
    hide Trie, Large, Items;
    if t.Node? {
      RootItem(t, h, b);
      ItemAddress(gm, frees, Items(t), (t.ring[0], t.size));
    }
  }

  /** Before the first step. */
  lemma InsertStarts(mem: Memory, gm: nat, treemap: set<nat>, x: nat, s: nat, trees: seq<Tree>, frees: set<(nat, nat)>)
    requires BinsOk(trees, treemap) == true && TreesLinked(mem, gm, trees) == true && SizesRead(mem, AllItems(trees)) == true && 256 <= s < MAX_CHUNK
    requires Separated(gm, frees) == true && AllItems(trees) <= frees && (x, s) in frees && (x, s) !in AllItems(trees)
    ensures var i := TreeIndex(s);
            var h := TreeBinAt(gm, i);
            && i < |trees| && Bits(i) <= 64 && (i in treemap <==> trees[i].Node?)
            && (i !in treemap ==> PlaceOf(trees[i], Bits(i), s, h, h) == AtChild(h, h))
            && (i in treemap ==> Word(Prepare(mem, x, i), h) == Root(trees[i]))
            && (i in treemap ==> Descending(Prepare(mem, x, i), gm, frees, trees[i], High(i), Bits(i), s, h, i, SizeBits(s, Bits(i))) == true)
  {
    var i := TreeIndex(s);
    var h := TreeBinAt(gm, i);
    var t := trees[i];
    InsertFacts(mem, gm, treemap, x, s, trees, frees);
    hide BinsOk, TreesLinked, AllItems, Items, Trie, Large, InSome, TreeLinked, Separated, TreeIndex, SizeBits, Prepare, Shift, InsertLarge;
    PreparedStays(mem, gm, frees, t, (x, s), h, h, i);
  }

  lemma InsertFacts(mem: Memory, gm: nat, treemap: set<nat>, x: nat, s: nat, trees: seq<Tree>, frees: set<(nat, nat)>)
    requires BinsOk(trees, treemap) && TreesLinked(mem, gm, trees) && SizesRead(mem, AllItems(trees)) && 256 <= s < MAX_CHUNK
    requires Separated(gm, frees) && AllItems(trees) <= frees && (x, s) in frees && (x, s) !in AllItems(trees)
    ensures var i := TreeIndex(s);
            var h := TreeBinAt(gm, i);
            && i < |trees| && Bits(i) <= 64 && (i in treemap <==> trees[i].Node?)
            && Trie(trees[i], High(i), Bits(i)) == true && Shift(s, Bits(i)) == High(i)
            && TreeLinked(mem, trees[i], h, i) == true && Word(mem, h) == Root(trees[i])
            && Large(gm, frees, Items(trees[i])) == true && Large(gm, frees, Items(trees[i]) + {(x, s)}) == true
            && (x, s) !in Items(trees[i]) && !InSome(Items(trees[i]) + {(x, s)}, h) && SizesRead(mem, Items(trees[i])) == true
  {
    var i := TreeIndex(s);
    BinFacts(trees, treemap, gm, frees, i);
    TreeIndexIsBin(s);
    assert BinLinked(mem, gm, trees, i);
    StateNotInBodies(gm, frees, Items(trees[i]) + {(x, s)}, TreeBinAt(gm, i));
  }

  /** After the last one. */
  lemma InsertEnds(mem: Memory, gm: nat, treemap: set<nat>, x: nat, s: nat, trees: seq<Tree>, frees: set<(nat, nat)>)
    requires BinsOk(trees, treemap) == true && TreesLinked(mem, gm, trees) == true && SizesRead(mem, AllItems(trees)) == true && 256 <= s < MAX_CHUNK
    requires Separated(gm, frees) == true && AllItems(trees) <= frees && (x, s) in frees && (x, s) !in AllItems(trees)
    ensures var i := TreeIndex(s);
            var mem' := Inserted(mem, trees[i], Bits(i), x, s, TreeBinAt(gm, i), TreeBinAt(gm, i), i);
            && TreesLinked(mem', gm, InsertLarge(trees, x, s)) == true
            && OnlyWithin(mem, mem', gm + 600, gm + STATE_BYTES, AllItems(trees) + {(x, s)}) == true
  {
    var i := TreeIndex(s);
    var h, t := TreeBinAt(gm, i), trees[i];
    InsertFacts(mem, gm, treemap, x, s, trees, frees);
    hide BinsOk, TreesLinked, AllItems, Items, Trie, Large, InSome, TreeLinked, Separated, TreeIndex, Inserted, Shift, Insert, OnlyIn, OnlyWithin;
    InsertLinks(mem, gm, frees, t, High(i), Bits(i), x, s, h, h, i);
    BinReplaced(mem, Inserted(mem, t, Bits(i), x, s, h, h, i), gm, frees, trees, treemap, i, Insert(t, Bits(i), x, s), {(x, s)});
  }

  /**
    insert_large_chunk.  Below a marked bin the descent reads chunk sizes and child words until it
    meets a chunk of the same size, whose ring the newcomer joins, or an empty child, which it becomes.
  */
  method InsertLargeChunk(mem: Memory, gm: nat, treemap: set<nat>, x: nat, s: nat, ghost trees: seq<Tree>, ghost frees: set<(nat, nat)>)
    returns (mem': Memory, treemap': set<nat>)
    requires BinsOk(trees, treemap) && TreesLinked(mem, gm, trees) && SizesRead(mem, AllItems(trees)) && 256 <= s < MAX_CHUNK
    requires Separated(gm, frees) && AllItems(trees) <= frees && (x, s) in frees && (x, s) !in AllItems(trees)
    ensures TreesLinked(mem', gm, InsertLarge(trees, x, s)) && treemap' == treemap + {TreeIndex(s)}
    ensures OnlyWithin(mem, mem', gm + 600, gm + STATE_BYTES, AllItems(trees) + {(x, s)})
  {
    hide BinsOk, TreesLinked, AllItems, Items, Trie, Large, InSome, TreeLinked, Separated, TreeIndex, Shift, Insert, InsertLarge, OnlyWithin, SizesRead, SizeBits, SignBit, ShiftLeft, Descending, Prepare, LinkAlone, LinkIn, Root, TreeBinAt, ChildAt;
    var i := TreeIndex(s);
    var h := TreeBinAt(gm, i);
    treemap' := treemap + {i};
    mem' := Prepare(mem, x, i);
    ghost var mem1 := mem';
    InsertStarts(mem, gm, treemap, x, s, trees, frees);
    InsertEnds(mem, gm, treemap, x, s, trees, frees);
    if i !in treemap {
      mem' := LinkAlone(mem'[h := x][x + PARENT := h], x);
    } else {
      var t, k := Word(mem', h), SizeBits(s, Bits(i));
      ghost var node, high, b, par, wh := trees[i], High(i), Bits(i), h, h;
      while true
        invariant Descending(mem1, gm, frees, node, high, b, s, par, i, k) == true && t == Root(node) && mem' == mem1
        invariant PlaceOf(trees[i], Bits(i), s, h, h) == PlaceOf(node, b, s, par, wh)
        decreases node
      {
        DescendingAt(mem1, gm, frees, node, high, b, s, par, i, k, wh);
        if ChunkSize(Word(mem', t + 8)) != s {
          var bit := SignBit(k);
          var c := ChildAt(t, bit);
          DescendOnce(mem1, gm, frees, node, high, b, s, par, i, k);
          k := ShiftLeft(k);
          node, high, b, par, wh := ChildOf(node, bit), 2 * high + bit, b - 1, t, c;
          if Word(mem', c) != 0 {
            t := Word(mem', c);
          } else {
            mem' := LinkAlone(mem'[c := x][x + PARENT := t], x);
            break;
          }
        } else {
          var f := Fd(mem', t);
          mem' := LinkIn(mem', t, f, x)[x + PARENT := 0];
          break;
        }
      }
    }
  }

  // ------------------------------------------------------------------ unlink_large_chunk

  /** The first half of unlinking: out of the ring, or, from a ring of one, cut off the last leaf below. */
  function Detached(mem: Memory, t: Tree, x: nat): Memory
    requires t.Node?
  {
    if t.ring != [x] then LinkOut(mem, x)
    else if t.right.Node? then mem[LeafSlot(t.right, ChildAt(x, 1)) := 0]
    else if t.left.Node? then mem[LeafSlot(t.left, ChildAt(x, 0)) := 0]
    else mem
  }

  /** What takes the place of x. */
  function Heir(mem: Memory, t: Tree, x: nat): nat
    requires t.Node?
  {
    if t.ring != [x] then Bk(mem, x)
    else if t.right.Node? then Word(mem, LeafSlot(t.right, ChildAt(x, 1)))
    else if t.left.Node? then Word(mem, LeafSlot(t.left, ChildAt(x, 0)))
    else 0
  }

  /** Node t is at chunk x's place: its words are right, and it has a parent. */
  ghost predicate AtNode(mem: Memory, gm: nat, frees: set<(nat, nat)>, t: Tree, h: nat, b: nat, x: nat, par: nat, idx: nat) {
    t.Node? && x in t.ring && Trie(t, h, b) && Large(gm, frees, Items(t)) && TreeLinked(mem, t, par, idx) && par > 0
  }

  /** What the chunk's own words say about its node. */
  lemma OwnWords(mem: Memory, gm: nat, frees: set<(nat, nat)>, t: Tree, h: nat, b: nat, x: nat, par: nat, idx: nat)
    requires AtNode(mem, gm, frees, t, h, b, x, par, idx) == true
    ensures t.ring != [] && (Bk(mem, x) == x <==> t.ring == [x])
    ensures Word(mem, x + PARENT) == if t.ring[0] == x then par else 0
    ensures Word(mem, x + INDEX) == idx
    ensures t.ring[0] == x ==> Word(mem, ChildAt(x, 0)) == Root(t.left) && Word(mem, ChildAt(x, 1)) == Root(t.right)
    ensures Word(mem, ChildAt(t.ring[0], 0)) == Root(t.left) && Word(mem, ChildAt(t.ring[0], 1)) == Root(t.right)
    ensures t.left.Leaf? <==> Root(t.left) == 0
    ensures t.right.Leaf? <==> Root(t.right) == 0
  {
    var k :| 0 <= k < |t.ring| && t.ring[k] == x;
    OwnNeighbour(mem, t.ring, k);
    BranchesAre(gm, frees, t, h, b);
  }

  lemma BranchesAre(gm: nat, frees: set<(nat, nat)>, t: Tree, h: nat, b: nat)
    requires t.Node? && Trie(t, h, b) == true && Large(gm, frees, Items(t)) == true
    ensures t.left.Leaf? <==> Root(t.left) == 0
    ensures t.right.Leaf? <==> Root(t.right) == 0
  {
    hide Trie, Large, Items;
    Branches(t, h, b);
    LargePart(gm, frees, Items(t), Items(t.left));
    LargePart(gm, frees, Items(t), Items(t.right));
    var c := if b > 0 then b - 1 else 0;
    RootIsZero(gm, frees, t.left, 2 * h, c);
    RootIsZero(gm, frees, t.right, 2 * h + 1, c);
  }

  lemma Branches(t: Tree, h: nat, b: nat)
    requires t.Node? && Trie(t, h, b)
    ensures Items(t.left) <= Items(t) && Items(t.right) <= Items(t)
    ensures var c := if b > 0 then b - 1 else 0; Trie(t.left, 2 * h, c) == true && Trie(t.right, 2 * h + 1, c) == true
  {
  }

  /** A child is at its root chunk's place. */
  lemma AtChildNode(mem: Memory, gm: nat, frees: set<(nat, nat)>, t: Tree, h: nat, b: nat, x: nat, par: nat, idx: nat, bit: nat)
    requires AtNode(mem, gm, frees, t, h, b, x, par, idx) == true && t.Node? && bit < 2 && ChildOf(t, bit).Node?
    ensures b > 0 && t.ring != [] && ChildOf(t, bit) < t
    ensures AtNode(mem, gm, frees, ChildOf(t, bit), 2 * h + bit, b - 1, Root(ChildOf(t, bit)), t.ring[0], idx) == true
  {
    hide Trie, Large, TreeLinked, Items, ChildOf, InSome, Word;
    BranchExists(t, h, b, bit);
    ChildAlone(gm, frees, t, h, b, bit, par, idx, mem);
    RootItem(t, h, b);
    RootItem(ChildOf(t, bit), 2 * h + bit, b - 1);
    ItemAddress(gm, frees, Items(t), (t.ring[0], t.size));
  }

  lemma BranchExists(t: Tree, h: nat, b: nat, bit: nat)
    requires t.Node? && Trie(t, h, b) == true && bit < 2 && ChildOf(t, bit).Node?
    ensures b > 0
  {
  }

  /** Goes down from r by the right child word where there is one, else by the left, and so ends at a leaf. */
  method LastLeafBelow(mem: Memory, r0: nat, rp0: nat, ghost gm: nat, ghost frees: set<(nat, nat)>, ghost t0: Tree, ghost h0: nat, ghost b0: nat, ghost par0: nat, ghost idx: nat)
    returns (r: nat, rp: nat)
    requires AtNode(mem, gm, frees, t0, h0, b0, r0, par0, idx) && r0 == Root(t0) && Word(mem, rp0) == r0
    ensures t0.Node? && rp == LeafSlot(t0, rp0) && r == Word(mem, rp)
  {
    hide AtNode, Word, ChildAt;
    r, rp := r0, rp0;
    ghost var t, h, b, par := t0, h0, b0, par0;
    assert t0.Node? by { AtNodeIsNode(mem, gm, frees, t0, h0, b0, r0, par0, idx); }
    while true
      invariant t.Node? && AtNode(mem, gm, frees, t, h, b, r, par, idx) == true && r == Root(t) && Word(mem, rp) == r
      invariant LeafSlot(t, rp) == LeafSlot(t0, rp0)
      decreases t
    {
      OwnWords(mem, gm, frees, t, h, b, r, par, idx);
      var cp := ChildAt(r, 1);
      if Word(mem, cp) == 0 { cp := ChildAt(r, 0); }
      if Word(mem, cp) == 0 { break; }
      ghost var bit := if t.right.Node? then 1 else 0;
      AtChildNode(mem, gm, frees, t, h, b, r, par, idx, bit);
      t, h, b, par := ChildOf(t, bit), 2 * h + bit, b - 1, r;
      r, rp := Word(mem, cp), cp;
    }
  }

  lemma AtNodeIsNode(mem: Memory, gm: nat, frees: set<(nat, nat)>, t: Tree, h: nat, b: nat, x: nat, par: nat, idx: nat)
    requires AtNode(mem, gm, frees, t, h, b, x, par, idx)
    ensures t.Node? && x in t.ring
  {
  }

  /** The first half of unlink_large_chunk. */
  method Detach(mem: Memory, x: nat, ghost gm: nat, ghost frees: set<(nat, nat)>, ghost t: Tree, ghost h: nat, ghost b: nat, ghost par: nat, ghost idx: nat)
    returns (mem': Memory, r: nat)
    requires AtNode(mem, gm, frees, t, h, b, x, par, idx) == true
    ensures t.Node? && mem' == Detached(mem, t, x) && r == Heir(mem, t, x)
  {
    hide AtNode, Word, ChildAt, LeafSlot, Trie, Large, TreeLinked, Items;
    AtNodeIsNode(mem, gm, frees, t, h, b, x, par, idx);
    OwnWords(mem, gm, frees, t, h, b, x, par, idx);
    mem', r := mem, 0;
    if Bk(mem, x) != x {
      var f := Fd(mem, x);
      r := Bk(mem, x);
      mem' := mem[f + BK := r][r + FD := f];
    } else {
      var rp := ChildAt(x, 1);
      if Word(mem, rp) == 0 { rp := ChildAt(x, 0); }
      r := Word(mem, rp);
      if r != 0 {
        ghost var bit := if t.right.Node? then 1 else 0;
        AtChildNode(mem, gm, frees, t, h, b, x, par, idx, bit);
        r, rp := LastLeafBelow(mem, r, rp, gm, frees, ChildOf(t, bit), 2 * h + bit, b - 1, x, idx);
        mem' := mem[rp := 0];
      }
    }
  }

  // -- which words the first half leaves

  lemma DetachedKeeps(mem: Memory, gm: nat, frees: set<(nat, nat)>, t: Tree, h: nat, b: nat, x: nat, par: nat, idx: nat)
    requires AtNode(mem, gm, frees, t, h, b, x, par, idx) == true
    ensures Word(Detached(mem, t, x), x + INDEX) == Word(mem, x + INDEX)
    ensures forall w: nat {:trigger Word(Detached(mem, t, x), w)} :: !InSome(Items(t), w) ==> Word(Detached(mem, t, x), w) == Word(mem, w)
  {
    hide Trie, Large, TreeLinked, Items, InSome, Word, LeafSlot, NodeLinked, LinkOut;
    assert t.Node?;
    if t.ring != [x] {
      LinkedOutKeeps(mem, gm, frees, t, h, b, x, par, idx);
    } else if t.right.Node? {
      CutKeeps(mem, gm, frees, t, h, b, x, par, idx, 1);
    } else if t.left.Node? {
      CutKeeps(mem, gm, frees, t, h, b, x, par, idx, 0);
    }
  }

  lemma LinkedOutKeeps(mem: Memory, gm: nat, frees: set<(nat, nat)>, t: Tree, h: nat, b: nat, x: nat, par: nat, idx: nat)
    requires t.Node? && AtNode(mem, gm, frees, t, h, b, x, par, idx)
    ensures Word(LinkOut(mem, x), x + INDEX) == Word(mem, x + INDEX)
    ensures forall w: nat {:trigger Word(LinkOut(mem, x), w)} :: !InSome(Items(t), w) ==> Word(LinkOut(mem, x), w) == Word(mem, w)
  {
    PartsDiffer(t, h, b);
    LargePart(gm, frees, Items(t), RingItems(t));
    LinkOutTouches(mem, gm, frees, t, x);
    assert SameFields(mem, LinkOut(mem, x), x);
    hide Trie, Large, TreeLinked, Items, RingItems, InSome, Word, NodeLinked, LinkOut;
    forall w: nat | !InSome(Items(t), w) ensures Word(LinkOut(mem, x), w) == Word(mem, w) {
      NotInPart(RingItems(t), Items(t), w);
    }
  }

  lemma CutKeeps(mem: Memory, gm: nat, frees: set<(nat, nat)>, t: Tree, h: nat, b: nat, x: nat, par: nat, idx: nat, bit: nat)
    requires t.Node? && AtNode(mem, gm, frees, t, h, b, x, par, idx) && t.ring == [x]
    requires bit < 2 && ChildOf(t, bit).Node? && (bit == 0 ==> t.right.Leaf?)
    ensures var rp := LeafSlot(ChildOf(t, bit), ChildAt(x, bit));
            && Word(mem[rp := 0], x + INDEX) == Word(mem, x + INDEX)
            && forall w: nat {:trigger Word(mem[rp := 0], w)} :: !InSome(Items(t), w) ==> Word(mem[rp := 0], w) == Word(mem, w)
  {
    ClearedKeeps(mem, LeafSlot(ChildOf(t, bit), ChildAt(x, bit)));
    hide Trie, Large, TreeLinked, Items, RingItems, InSome, Word, NodeLinked, LeafSlot, CutOff, CutLastLeaf, LastLeaf;
    var rp := LeafSlot(ChildOf(t, bit), ChildAt(x, bit));
    CutChild(mem, gm, frees, t, h, b, bit, par, idx);
    CutIsAt(mem, ChildOf(t, bit), x, ChildAt(x, bit), idx, rp);
    CutFacts(t, h, b, bit, 0);
    CutElsewhere(mem, gm, frees, t, h, b, bit, x, par, idx, rp);
    if rp != ChildAt(x, bit) {
      SomeMore(Items(CutLastLeaf(ChildOf(t, bit))), Items(ChildOf(t, bit)), rp);
      OwnBodyApart(gm, frees, t, h, b, bit, rp);
    }
  }

  lemma ClearedKeeps(mem: Memory, at: nat)
    ensures forall w: nat {:trigger Word(mem[at := 0], w)} :: w != at ==> Word(mem[at := 0], w) == Word(mem, w)
  {
  }

  lemma OwnBodyApart(gm: nat, frees: set<(nat, nat)>, t: Tree, h: nat, b: nat, bit: nat, w: nat)
    requires t.Node? && Trie(t, h, b) == true && bit < 2 && Large(gm, frees, Items(t)) == true && InSome(Items(ChildOf(t, bit)), w)
    ensures t.ring != [] && w != t.ring[0] + INDEX
  {
    PartsDiffer(t, h, b);
    LargePart(gm, frees, Items(t), RingItems(t));
    InRingBody(gm, frees, t, 0, 56);
    BodiesApart(gm, frees, RingItems(t), Items(ChildOf(t, bit)), w);
  }

  // -- the second half

  /** Both halves together are what TreeUnlinks proves right. */
  lemma HalvesMake(mem: Memory, gm: nat, frees: set<(nat, nat)>, t: Tree, h: nat, b: nat, x: nat, par: nat, wh: nat, idx: nat)
    requires AtNode(mem, gm, frees, t, h, b, x, par, idx) == true
    ensures t.Node? && x in t.ring
    ensures UnlinkedAt(mem, t, x, par, wh) == if t.ring[0] == x then Handover(Detached(mem, t, x), x, par, wh, Heir(mem, t, x)) else Detached(mem, t, x)
  {
    var k :| 0 <= k < |t.ring| && t.ring[k] == x;
  }

  /** Where the words that lead to the chunk's node are. */
  lemma Locate(mem: Memory, gm: nat, treemap: set<nat>, x: nat, s: nat, trees: seq<Tree>, frees: set<(nat, nat)>) returns (spot: Spot, h: nat, b: nat)
    requires BinsOk(trees, treemap) == true && TreesLinked(mem, gm, trees) == true && Separated(gm, frees) == true && AllItems(trees) <= frees && (x, s) in AllItems(trees)
    ensures var i := TreeIndex(s);
            var head := TreeBinAt(gm, i);
            && i < |trees| && i in treemap && spot == SpotOf(trees[i], Bits(i), s, head, head)
            && AtNode(mem, gm, frees, spot.node, h, b, x, spot.par, i) == true && spot.node.Node? && spot.node.size == s && spot.par > 0
            && SpotIs(mem, trees[i], head, head, spot) == true && !InSome(Items(spot.node), head) && !InSome(Items(spot.node), spot.slot)
            && Word(mem, spot.slot) == Root(spot.node) && Word(mem, head) == Root(trees[i])
  {
    hide BinsOk, TreesLinked, AllItems, Items, Trie, Large, InSome, TreeLinked, TreeIndex, SpotOf, SpotIs, Separated;
    var i := TreeIndex(s);
    var head := TreeBinAt(gm, i);
    UnlinkFacts(mem, gm, treemap, x, s, trees, frees);
    spot := SpotOf(trees[i], Bits(i), s, head, head);
    h, b := SpotFacts(mem, gm, frees, trees[i], High(i), Bits(i), x, s, head, head, i);
    LargePart(gm, frees, Items(trees[i]), Items(spot.node));
    NotInPart(Items(spot.node), Items(trees[i]), head);
  }

  lemma UnlinkFacts(mem: Memory, gm: nat, treemap: set<nat>, x: nat, s: nat, trees: seq<Tree>, frees: set<(nat, nat)>)
    requires BinsOk(trees, treemap) && TreesLinked(mem, gm, trees) && Separated(gm, frees) && AllItems(trees) <= frees && (x, s) in AllItems(trees)
    ensures var i := TreeIndex(s);
            var h := TreeBinAt(gm, i);
            && i < |trees| && i in treemap && (x, s) in Items(trees[i])
            && Trie(trees[i], High(i), Bits(i)) == true && TreeLinked(mem, trees[i], h, i) == true && Word(mem, h) == Root(trees[i])
            && Large(gm, frees, Items(trees[i])) == true && !InSome(Items(trees[i]), h)
  {
    var j :| 0 <= j < |trees| && (x, s) in Items(trees[j]);
    assert BinOk(trees, treemap, j);
    assert TreeIndex(s) == j;
    BinFacts(trees, treemap, gm, frees, j);
    assert BinLinked(mem, gm, trees, j);
  }

  lemma UnlinkEnds(mem: Memory, gm: nat, treemap: set<nat>, x: nat, s: nat, trees: seq<Tree>, frees: set<(nat, nat)>)
    requires BinsOk(trees, treemap) == true && TreesLinked(mem, gm, trees) == true && Separated(gm, frees) == true && AllItems(trees) <= frees && (x, s) in AllItems(trees)
    ensures var i := TreeIndex(s);
            var mem' := Unlinked(mem, SpotOf(trees[i], Bits(i), s, TreeBinAt(gm, i), TreeBinAt(gm, i)), x);
            && TreesLinked(mem', gm, UnlinkLarge(trees, x, s)) == true && OnlyWithin(mem, mem', gm + 600, gm + STATE_BYTES, AllItems(trees)) == true
            && Word(mem', TreeBinAt(gm, i)) == Root(UnlinkLarge(trees, x, s)[i])
            && (UnlinkLarge(trees, x, s)[i].Leaf? <==> Root(UnlinkLarge(trees, x, s)[i]) == 0)
  {
    var i := TreeIndex(s);
    var h, t := TreeBinAt(gm, i), trees[i];
    UnlinkFacts(mem, gm, treemap, x, s, trees, frees);
    UnlinkRemoves(t, High(i), Bits(i), x, s);
    var t' := Unlink(t, Bits(i), x, s);
    LargePart(gm, frees, Items(t), Items(t'));
    RootIsZero(gm, frees, t', High(i), Bits(i));
    hide BinsOk, TreesLinked, AllItems, Items, Trie, Large, InSome, TreeLinked, Separated, TreeIndex, Unlinked, Unlink, OnlyIn, OnlyWithin, SpotOf;
    UnlinkLinks(mem, gm, frees, t, High(i), Bits(i), x, s, h, h, i);
    assert Items(t) + {} == Items(t) && AllItems(trees) + {} == AllItems(trees);
    BinReplaced(mem, Unlinked(mem, SpotOf(t, Bits(i), s, h, h), x), gm, frees, trees, treemap, i, t', {});
  }

  /** The heir is 0 exactly when nothing is left of the node. */
  lemma HeirIsThere(mem: Memory, gm: nat, frees: set<(nat, nat)>, t: Tree, h: nat, b: nat, x: nat, par: nat, idx: nat, b1: nat)
    requires AtNode(mem, gm, frees, t, h, b, x, par, idx) == true
    ensures t.Node? && (Heir(mem, t, x) == 0 <==> Unlink(t, b1, x, t.size).Leaf?)
    ensures t.ring != [] && (t.ring[0] != x ==> Unlink(t, b1, x, t.size).Node?)
  {
    AtNodeIsNode(mem, gm, frees, t, h, b, x, par, idx);
    if t.ring != [x] {
      BkIsThere(mem, gm, frees, t, h, b, x, par, idx);
    } else if t.right.Node? {
      LeafIsThere(mem, gm, frees, t, h, b, x, par, idx, 1);
    } else if t.left.Node? {
      LeafIsThere(mem, gm, frees, t, h, b, x, par, idx, 0);
    }
  }

  lemma BkIsThere(mem: Memory, gm: nat, frees: set<(nat, nat)>, t: Tree, h: nat, b: nat, x: nat, par: nat, idx: nat)
    requires AtNode(mem, gm, frees, t, h, b, x, par, idx)
    ensures Bk(mem, x) != 0
  {
    var k :| 0 <= k < |t.ring| && t.ring[k] == x;
    OwnNeighbour(mem, t.ring, k);
    PartsDiffer(t, h, b);
    assert (Bk(mem, x), t.size) in RingItems(t);
    ItemAddress(gm, frees, Items(t), (Bk(mem, x), t.size));
  }

  lemma LeafIsThere(mem: Memory, gm: nat, frees: set<(nat, nat)>, t: Tree, h: nat, b: nat, x: nat, par: nat, idx: nat, bit: nat)
    requires t.Node? && AtNode(mem, gm, frees, t, h, b, x, par, idx) && t.ring == [x]
    requires bit < 2 && ChildOf(t, bit).Node? && (bit == 0 ==> t.right.Leaf?)
    ensures Word(mem, LeafSlot(ChildOf(t, bit), ChildAt(x, bit))) != 0 && ReplaceNode(t).Node?
  {
    hide Trie, Large, TreeLinked, Items, InSome, Word, NodeLinked, LeafSlot, CutOff, CutLastLeaf, LastLeaf, ReplaceNode, RingItems;
    var child, rp := ChildOf(t, bit), LeafSlot(ChildOf(t, bit), ChildAt(x, bit));
    BranchExists(t, h, b, bit);
    CutChild(mem, gm, frees, t, h, b, bit, par, idx);
    CutHeir(mem, child, x, ChildAt(x, bit), idx, rp);
    ChildAlone(gm, frees, t, h, b, bit, par, idx, mem);
    CutLastLeafKeeps(child, 2 * h + bit, b - 1);
    ItemAddress(gm, frees, Items(child), (LastLeaf(child).ring[0], LastLeaf(child).size));
    LoneParts(gm, frees, t, h, b, bit, x);
  }

  /** A chunk of another size is not the root. */
  lemma NotRoot(gm: nat, frees: set<(nat, nat)>, t: Tree, h: nat, b: nat, x: nat, s: nat)
    requires t.Node? && t.size != s && Trie(t, h, b) == true && Large(gm, frees, Items(t)) == true && (x, s) in Items(t)
    ensures x != Root(t)
  {
    hide Trie, Large, Items;
    RootItem(t, h, b);
    AddressesDiffer(gm, frees, Items(t), (x, s), (t.ring[0], t.size));
  }

  /** When the bin's mark goes. */
  lemma MarkIs(mem: Memory, gm: nat, treemap: set<nat>, x: nat, s: nat, trees: seq<Tree>, frees: set<(nat, nat)>, spot: Spot, h: nat, b: nat)
    requires BinsOk(trees, treemap) == true && TreesLinked(mem, gm, trees) == true && Separated(gm, frees) == true && AllItems(trees) <= frees && (x, s) in AllItems(trees)
    requires TreeIndex(s) < |trees| && spot == SpotOf(trees[TreeIndex(s)], Bits(TreeIndex(s)), s, TreeBinAt(gm, TreeIndex(s)), TreeBinAt(gm, TreeIndex(s)))
    requires AtNode(mem, gm, frees, spot.node, h, b, x, spot.par, TreeIndex(s)) == true && spot.node.Node? && spot.node.size == s
    ensures MarkAfter(UnlinkLarge(trees, x, s), treemap, TreeIndex(s)) ==
            if x == Root(trees[TreeIndex(s)]) && Heir(mem, spot.node, x) == 0 then treemap - {TreeIndex(s)} else treemap
    ensures spot.node.ring != [] && (spot.node.ring[0] != x ==> MarkAfter(UnlinkLarge(trees, x, s), treemap, TreeIndex(s)) == treemap)
  {
    hide AtNode, BinsOk, TreesLinked, AllItems, TreeIndex, High, Bits, Heir, InSome, Items, Word, Large, Trie, TreeLinked, Shift, Separated;
    var i := TreeIndex(s);
    UnlinkFacts(mem, gm, treemap, x, s, trees, frees);
    var t := trees[i];
    HeirIsThere(mem, gm, frees, spot.node, h, b, x, spot.par, i, Bits(i));
    if t.Node? && t.size != s {
      NotRoot(gm, frees, t, High(i), Bits(i), x, s);
    }
  }

  /**
    The second half of unlink_large_chunk, for a chunk with a parent: the word that pointed to it
    is found through the bin's root or the parent's children, and the replacement r takes over.
  */
  method Replace(mem: Memory, gm: nat, treemap: set<nat>, x: nat, xp: nat, r: nat, ghost slot: nat) returns (mem': Memory, treemap': set<nat>)
    requires var head := TreeBinAt(gm, Word(mem, x + INDEX));
             slot == if x == Word(mem, head) then head else ChildAt(xp, if Word(mem, ChildAt(xp, 0)) == x then 0 else 1)
    ensures mem' == Handover(mem, x, xp, slot, r)
    ensures treemap' == if x == Word(mem, TreeBinAt(gm, Word(mem, x + INDEX))) && r == 0 then treemap - {Word(mem, x + INDEX)} else treemap
  {
    hide Word, TreeBinAt, ChildAt, AdoptChild;
    var i := Word(mem, x + INDEX);
    var head := TreeBinAt(gm, i);
    treemap' := treemap;
    if x == Word(mem, head) {
      mem' := mem[head := r];
      if r == 0 { treemap' := treemap - {i}; }
    } else if Word(mem, ChildAt(xp, 0)) == x {
      mem' := mem[ChildAt(xp, 0) := r];
    } else {
      mem' := mem[ChildAt(xp, 1) := r];
    }
    if r != 0 {
      mem' := mem'[r + PARENT := xp];
      mem' := AdoptChild(mem', x, r, 0);
      mem' := AdoptChild(mem', x, r, 1);
    }
  }

  /** The words read in the second half lead to where the node hangs. */
  lemma WordsLead(mem: Memory, mem1: Memory, gm: nat, t: Tree, spot: Spot, x: nat, i: nat)
    requires spot.node.Node? && spot.node.ring != [] && spot.node.ring[0] == x
    requires SpotIs(mem, t, TreeBinAt(gm, i), TreeBinAt(gm, i), spot) == true && Word(mem, spot.slot) == Root(spot.node)
    requires !InSome(Items(spot.node), TreeBinAt(gm, i)) && Word(mem, TreeBinAt(gm, i)) == Root(t)
    requires forall w: nat {:trigger Word(mem1, w)} :: !InSome(Items(spot.node), w) ==> Word(mem1, w) == Word(mem, w)
    ensures Word(mem1, TreeBinAt(gm, i)) == Root(t)
    ensures spot.slot == if x == Root(t) then TreeBinAt(gm, i) else ChildAt(spot.par, if Word(mem1, ChildAt(spot.par, 0)) == x then 0 else 1)
  {
    hide Word, InSome, Items;
  }

  /**
    unlink_large_chunk, which starts at the chunk and is led by its bk, parent, child and index
    words only.
  */
  method UnlinkLargeChunk(mem: Memory, gm: nat, treemap: set<nat>, x: nat, ghost s: nat, ghost trees: seq<Tree>, ghost frees: set<(nat, nat)>)
    returns (mem': Memory, treemap': set<nat>)
    requires BinsOk(trees, treemap) && TreesLinked(mem, gm, trees)
    requires Separated(gm, frees) && AllItems(trees) <= frees && (x, s) in AllItems(trees)
    ensures TreesLinked(mem', gm, UnlinkLarge(trees, x, s)) == true && treemap' == MarkAfter(UnlinkLarge(trees, x, s), treemap, TreeIndex(s))
    ensures OnlyWithin(mem, mem', gm + 600, gm + STATE_BYTES, AllItems(trees))
  {
    hide BinsOk, TreesLinked, AllItems, Items, Trie, Large, InSome, TreeLinked, Separated, TreeIndex, Shift, Unlink, UnlinkLarge, OnlyWithin, AtNode,
         SpotOf, SpotIs, Detached, Heir, UnlinkedAt, Handover, Root, Word, TreeBinAt, ChildAt, MarkAfter, NodeLinked, LinkOut;
    ghost var i := TreeIndex(s);
    ghost var spot, h, b := Locate(mem, gm, treemap, x, s, trees, frees);
    ghost var t := spot.node;
    UnlinkEnds(mem, gm, treemap, x, s, trees, frees);
    MarkIs(mem, gm, treemap, x, s, trees, frees, spot, h, b);
    OwnWords(mem, gm, frees, t, h, b, x, spot.par, i);
    DetachedKeeps(mem, gm, frees, t, h, b, x, spot.par, i);
    HalvesMake(mem, gm, frees, t, h, b, x, spot.par, spot.slot, i);
    var xp := Word(mem, x + PARENT);
    treemap' := treemap;
    var r: nat;
    mem', r := Detach(mem, x, gm, frees, t, h, b, spot.par, i);
    if xp != 0 {
      WordsLead(mem, mem', gm, trees[i], spot, x, i);
      mem', treemap' := Replace(mem', gm, treemap, x, xp, r, spot.slot);
    }
  }
}
