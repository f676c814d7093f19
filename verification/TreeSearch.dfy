/**
  The searches of the tree bins in src/malloc.c (tmalloc_large and tmalloc_small), on the words in
  memory: chunk sizes are read from head words, the way down from child words.
*/
module TreeSearch {
  import opened Wrappers
  import opened Arith
  import opened Hypercube
  import opened HeapWords
  import opened TreeBins
  import opened SmallLinks
  import opened TreeLinks
  import opened TreeUnlinks
  import opened BinLinks

  /** What a search reads of a trie: at every tree node the size and the addresses of the children. */
  ghost predicate WordsTell(mem: Memory, t: Tree) {
    t.Node? ==>
      && t.ring != [] && t.ring[0] > 0 && ChunkSize(Word(mem, t.ring[0] + 8)) == t.size
      && Word(mem, ChildAt(t.ring[0], 0)) == Root(t.left) && Word(mem, ChildAt(t.ring[0], 1)) == Root(t.right)
      && (t.left.Node? && t.right.Node? ==> Root(t.left) != Root(t.right))
      && WordsTell(mem, t.left) && WordsTell(mem, t.right)
  }

  /** And of all the bins. */
  ghost predicate BinsTell(mem: Memory, gm: nat, trees: seq<Tree>) {
    forall i {:trigger trees[i]} :: 0 <= i < |trees| ==> BinTells(mem, gm, trees, i)
  }

  ghost predicate BinTells(mem: Memory, gm: nat, trees: seq<Tree>, i: nat)
    requires i < |trees|
  {
    Word(mem, TreeBinAt(gm, i)) == Root(trees[i]) && WordsTell(mem, trees[i])
  }

  /** Words that represent a trie tell a search all it needs. */
  lemma {:induction false} LinkedTells(mem: Memory, gm: nat, frees: set<(nat, nat)>, t: Tree, h: nat, b: nat, par: nat, idx: nat)
    requires TreeLinked(mem, t, par, idx) && Trie(t, h, b) == true && Large(gm, frees, Items(t)) == true && SizesRead(mem, Items(t))
    ensures WordsTell(mem, t)
    decreases t
  {
    if t.Node? {
      var c := if b > 0 then b - 1 else 0;
      RootItem(t, h, b);
      ItemAddress(gm, frees, Items(t), (t.ring[0], t.size));
      Branches(t, h, b);
      LargePart(gm, frees, Items(t), Items(t.left));
      LargePart(gm, frees, Items(t), Items(t.right));
      ChildRootsDiffer(gm, frees, t, h, b);
      hide Large, Trie, Items;
      LinkedTells(mem, gm, frees, t.left, 2 * h, c, t.ring[0], idx);
      LinkedTells(mem, gm, frees, t.right, 2 * h + 1, c, t.ring[0], idx);
    }
  }

  lemma ChildRootsDiffer(gm: nat, frees: set<(nat, nat)>, t: Tree, h: nat, b: nat)
    requires t.Node? && Trie(t, h, b) == true && Large(gm, frees, Items(t)) == true
    ensures t.left.Node? && t.right.Node? ==> Root(t.left) != Root(t.right)
  {
    if t.left.Node? && t.right.Node? {
      Branches(t, h, b);
      HalvesDiffer(t, h, b);
      var c := if b > 0 then b - 1 else 0;
      RootItem(t.left, 2 * h, c);
      RootItem(t.right, 2 * h + 1, c);
      var x, y := (t.left.ring[0], t.left.size), (t.right.ring[0], t.right.size);
      assert x.1 < y.1;
      hide Large, Trie, Items;
      AddressesDiffer(gm, frees, Items(t), x, y);
    }
  }

  lemma AllBinsTell(mem: Memory, gm: nat, frees: set<(nat, nat)>, trees: seq<Tree>, treemap: set<nat>)
    requires BinsOk(trees, treemap) == true && TreesLinked(mem, gm, trees) == true && SizesRead(mem, AllItems(trees)) == true
    requires Separated(gm, frees) == true && AllItems(trees) <= frees
    ensures BinsTell(mem, gm, trees)
  {
    hide BinsOk, AllItems, Trie, Large, Items, TreeLinked, WordsTell, Separated;
    forall i | 0 <= i < |trees| ensures BinTells(mem, gm, trees, i) {
      BinFacts(trees, treemap, gm, frees, i);
      assert BinLinked(mem, gm, trees, i);
      LinkedTells(mem, gm, frees, trees[i], High(i), Bits(i), TreeBinAt(gm, i), i);
    }
  }

  /** The chunk a search has found so far: at v, with nb + rsize bytes; none when v is 0. */
  function Found(v: nat, rsize: nat, nb: nat): Option<(nat, nat)> {
    if v == 0 then None else Some((v, nb + rsize))
  }

  // ------------------------------------------------------------------ below one node

  /** leftmost_child */
  function LeftmostAt(mem: Memory, t: nat): nat {
    if Word(mem, ChildAt(t, 0)) != 0 then Word(mem, ChildAt(t, 0)) else Word(mem, ChildAt(t, 1))
  }

  lemma LeftmostTold(mem: Memory, t: Tree)
    requires t.Node? && WordsTell(mem, t)
    ensures Root(t) > 0 && ChunkSize(Word(mem, Root(t) + 8)) == t.size && t.ring != [] && Root(t) == t.ring[0]
    ensures LeftmostAt(mem, Root(t)) == Root(LeftmostChild(t)) && WordsTell(mem, LeftmostChild(t))
  {
  }

  /** All of the trie is matched by what is ahead at node, unless there is nothing to look for. */
  ghost predicate Ahead(tree: Tree, node: Tree, nb: nat, rsize: nat) {
    rsize == 0 || nb >= MAX_CHUNK || forall x :: x in Items(tree) ==> Covered(node, x, nb, rsize)
  }

  lemma NodeTold(mem: Memory, tree: Tree, node: Tree)
    requires WordsTell(mem, node) && IsTrie(node) && SizesOk(tree) && Part(node, tree)
    ensures node.Leaf? <==> Root(node) == 0
    ensures node.Node? ==>
              && (Root(node), node.size) in Items(tree) && node.size < MAX_CHUNK && LeftmostChild(node) < node
              && IsTrie(LeftmostChild(node)) && Part(LeftmostChild(node), tree)
              && ChunkSize(Word(mem, Root(node) + 8)) == node.size
              && LeftmostAt(mem, Root(node)) == Root(LeftmostChild(node)) && WordsTell(mem, LeftmostChild(node))
  {
    if node.Node? {
      LeftmostIsTrie(node);
      assert (node.ring[0], node.size) in Items(node);
      LeftmostTold(mem, node);
    }
  }

  lemma WalkStep(tree: Tree, node: Tree, nb: nat, before: nat, rsize: nat)
    requires node.Node? && IsTrie(node) && Part(node, tree) && Ahead(tree, node, nb, before)
    requires before == 0 || nb >= MAX_CHUNK || AllFit(tree, nb)
    requires 0 < nb < WORD && node.size < MAX_CHUNK && rsize <= before && rsize <= Remainder(node.size, nb)
    ensures Ahead(tree, LeftmostChild(node), nb, rsize)
  {
    if rsize > 0 && nb < MAX_CHUNK {
      LeftmostIsTrie(node);
      assert (node.ring[0], node.size) in Items(node);
      WrappedRemainder(node.size, nb);
      hide Covered, IsTrie;
      forall x | x in Items(tree) ensures Covered(LeftmostChild(node), x, nb, rsize) {
        StepDown(node, x, nb, before, rsize);
      }
    }
  }

  lemma WalkStarts(tree: Tree, nb: nat, rsize: nat)
    ensures Ahead(tree, tree, nb, rsize) && Part(tree, tree)
  {
  }

  lemma WalkEnds(tree: Tree, nb: nat, rsize: nat)
    requires Ahead(tree, Leaf, nb, rsize) && SizesOk(tree)
    ensures forall x :: x in Items(tree) && x.1 >= nb ==> nb + rsize <= x.1
  {
  }

  /**
    Walk down the leftmost path of a trie whose chunks all fit: none of them beats the best one
    met.  A chunk that fits exactly ends the search whatever is below it, and above 2^40
    nothing fits.
  */
  method LeftmostWalk(mem: Memory, t0: nat, v0: nat, rsize0: nat, nb: nat, ghost tree: Tree) returns (v: nat, rsize: nat)
    requires t0 == Root(tree) && WordsTell(mem, tree)
    requires IsTrie(tree) && SizesOk(tree) && 0 < nb < WORD && Fits(Found(v0, rsize0, nb), rsize0, nb)
    requires rsize0 == 0 || nb >= MAX_CHUNK || AllFit(tree, nb)
    ensures Fits(Found(v, rsize, nb), rsize, nb) && rsize <= rsize0
    ensures (v == v0 && rsize == rsize0) || (v > 0 && (v, nb + rsize) in Items(tree))
    ensures forall x :: x in Items(tree) && x.1 >= nb ==> nb + rsize <= x.1
  {
    hide WordsTell, Items, IsTrie, SizesOk, AllFit, Ahead, Part, Root, LeftmostAt, LeftmostChild, Remainder, ChunkSize, Word;
    var t := t0;
    v, rsize := v0, rsize0;
    ghost var node := tree;
    WalkStarts(tree, nb, rsize);
    while t != 0
      invariant t == Root(node) && WordsTell(mem, node) == true
      invariant IsTrie(node) && Part(node, tree)
      invariant Fits(Found(v, rsize, nb), rsize, nb) && rsize <= rsize0
      invariant (v == v0 && rsize == rsize0) || (v > 0 && (v, nb + rsize) in Items(tree))
      invariant Ahead(tree, node, nb, rsize)
      decreases node
    {
      NodeTold(mem, tree, node);
      WrappedRemainder(node.size, nb);
      var trem := Remainder(ChunkSize(Word(mem, t + 8)), nb);
      ghost var before := rsize;
      if trem < rsize {
        rsize := trem;
        v := t;
      }
      WalkStep(tree, node, nb, before, rsize);
      t := LeftmostAt(mem, t);
      node := LeftmostChild(node);
    }
    NodeTold(mem, tree, node);
    WalkEnds(tree, nb, rsize);
  }

  // ------------------------------------------------------------------ in the request's own bin

  /** Where the search stands: at sub, with untaken the deepest right subtree it has passed by. */
  ghost predicate Searching(mem: Memory, root: Tree, sub: Tree, untaken: Tree, nb: nat, b: nat, rsize: nat) {
    && IsTrie(sub) && Part(sub, root) && WordsTell(mem, sub)
    && IsTrie(untaken) && Part(untaken, root) && WordsTell(mem, untaken) && (untaken.Node? ==> untaken.ring != [])
    && SearchOk(root, sub, untaken, nb, b, rsize)
  }

  lemma SearchStarts(mem: Memory, root: Tree, nb: nat, b: nat, rsize: nat)
    requires WordsTell(mem, root) && IsTrie(root) && (nb < MAX_CHUNK ==> OnPath(root, nb, b))
    ensures Searching(mem, root, root, Leaf, nb, b, rsize) == true && Root(Leaf) == 0
  {
    assert Trie(Leaf, 0, 0);
  }

  /** The node's own words, and those of its two children. */
  lemma ChildrenTold(mem: Memory, t: Tree, bit: nat)
    requires t.Node? && WordsTell(mem, t) == true && bit < 2
    ensures t.ring != [] && Root(t) == t.ring[0] > 0 && ChunkSize(Word(mem, Root(t) + 8)) == t.size
    ensures Word(mem, ChildAt(Root(t), 1)) == Root(t.right) && Word(mem, ChildAt(Root(t), bit)) == Root(Child(t, bit))
    ensures (Root(t.right) != 0 <==> t.right.Node?) && (Root(Child(t, bit)) != 0 <==> Child(t, bit).Node?)
    ensures Root(t.right) != 0 && Root(t.right) != Root(Child(t, bit)) <==> bit == 0 && t.right.Node?
  {
  }

  /** What the words say at this node; the right child is passed by when the request's bit is 0. */
  lemma SearchReads(mem: Memory, root: Tree, sub: Tree, untaken: Tree, nb: nat, b: nat, rsize: nat, bit: nat)
    requires Searching(mem, root, sub, untaken, nb, b, rsize) == true && sub.Node? && SizesOk(root) && bit < 2
    ensures Root(sub) > 0 && (Root(sub), sub.size) in Items(root) && sub.size < MAX_CHUNK && Child(sub, bit) < sub
    ensures ChunkSize(Word(mem, Root(sub) + 8)) == sub.size
    ensures Word(mem, ChildAt(Root(sub), bit)) == Root(Child(sub, bit)) && (Root(Child(sub, bit)) != 0 <==> Child(sub, bit).Node?)
    ensures var rt := Word(mem, ChildAt(Root(sub), 1));
            Root(Untaken(sub, bit, untaken)) == if rt != 0 && rt != Root(Child(sub, bit)) then rt else Root(untaken)
  {
    hide SearchOk, WordsTell, Root, IsTrie, SizesOk, Word, ChunkSize, ChildAt, Items;
    NodeParts(root, sub);
    ChildrenTold(mem, sub, bit);
  }

  lemma SearchDown(mem: Memory, root: Tree, sub: Tree, untaken: Tree, nb: nat, b: nat, before: nat, rsize: nat, bit: nat)
    requires Searching(mem, root, sub, untaken, nb, b, before) == true && sub.Node? && SizesOk(root)
    requires 0 < nb < WORD && rsize <= before && rsize <= Remainder(sub.size, nb) && (b > 0 ==> bit == Shift(nb, b - 1) % 2)
    ensures Searching(mem, root, Child(sub, bit), Untaken(sub, bit, untaken), nb, if b > 0 then b - 1 else 0, rsize) == true
  {
    hide SearchOk, Shift, Remainder;
    NodeParts(root, sub);
    WrappedRemainder(sub.size, nb);
    SearchStep(root, sub, untaken, nb, b, before, rsize, bit);
  }

  lemma SearchOver(mem: Memory, root: Tree, sub: Tree, untaken: Tree, nb: nat, b: nat, rsize: nat)
    requires Searching(mem, root, sub, untaken, nb, b, rsize) == true && sub.Leaf?
    ensures IsTrie(untaken) && Part(untaken, root) && WordsTell(mem, untaken)
    ensures nb >= MAX_CHUNK || AllFit(untaken, nb)
    ensures nb < MAX_CHUNK ==> forall x :: x in Items(root) ==> Behind(x, Leaf, untaken, nb, rsize)
  {
    SearchEnds(root, sub, untaken, nb, b, rsize);
  }

  /**
    The search for nb in its own bin.  It returns the best chunk on the request's path and the
    node t of the subtree that may hold a better one: the deepest right subtree not taken, or,
    after an exact fit, the node of that fit.
  */
  method SearchBin(mem: Memory, t0: nat, nb: nat, b0: nat, ghost root: Tree) returns (v: nat, rsize: nat, t: nat, ghost sub: Tree)
    requires t0 == Root(root) && WordsTell(mem, root)
    requires root.Node? && IsTrie(root) && SizesOk(root) && b0 <= 64 && 0 < nb < WORD
    requires nb < MAX_CHUNK ==> OnPath(root, nb, b0)
    ensures Fits(Found(v, rsize, nb), rsize, nb) && (v > 0 ==> (v, nb + rsize) in Items(root))
    ensures t == Root(sub) && WordsTell(mem, sub) && IsTrie(sub) && Part(sub, root)
    ensures rsize == 0 || nb >= MAX_CHUNK || AllFit(sub, nb)
    ensures nb < MAX_CHUNK ==> forall x :: x in Items(root) ==> Behind(x, Leaf, sub, nb, rsize)
  {
    hide SizeBits, Pow2, Shift, Items, Behind, AllFit, Remainder, SizesOk, SignBit, ShiftLeft, WordsTell, Root, Child, Untaken, ChildAt, Word, ChunkSize, Searching, IsTrie, Part;
    v, rsize, t, sub := 0, WORD - nb, t0, root;
    var sizebits := SizeBits(nb, b0);
    var rst := 0;
    ghost var untaken, b := Leaf, b0;
    SearchStarts(mem, root, nb, b, rsize);
    while true
      invariant t == Root(sub) && sub.Node? && rst == Root(untaken) && Searching(mem, root, sub, untaken, nb, b, rsize) == true
      invariant Fits(Found(v, rsize, nb), rsize, nb) && (v > 0 ==> (v, nb + rsize) in Items(root))
      invariant b <= 64 && sizebits == SizeBits(nb, b)
      decreases sub
    {
      var bit := SignBit(sizebits);
      BitIsBit(nb, b);
      SearchReads(mem, root, sub, untaken, nb, b, rsize, bit);
      WrappedRemainder(sub.size, nb);
      var trem := Remainder(ChunkSize(Word(mem, t + 8)), nb);
      ghost var before := rsize;
      if trem < rsize {
        v := t;
        rsize := trem;
        if rsize == 0 {
          SearchHits(mem, root, sub, untaken, nb, b, before);
          break;
        }
      }
      SizeBitsStep(nb, b);
      SearchDown(mem, root, sub, untaken, nb, b, before, rsize, bit);
      var rt := Word(mem, ChildAt(t, 1));
      t := Word(mem, ChildAt(t, bit));
      if rt != 0 && rt != t {
        rst := rt;
      }
      sub, untaken, b := Child(sub, bit), Untaken(sub, bit, untaken), if b > 0 then b - 1 else 0;
      if t == 0 {
        SearchOver(mem, root, sub, untaken, nb, b, rsize);
        t, sub := rst, untaken;
        break;
      }
      sizebits := ShiftLeft(sizebits);
    }
  }

  /** After an exact fit. */
  lemma SearchHits(mem: Memory, root: Tree, sub: Tree, untaken: Tree, nb: nat, b: nat, rsize: nat)
    requires Searching(mem, root, sub, untaken, nb, b, rsize) == true
    ensures WordsTell(mem, sub) && IsTrie(sub) && Part(sub, root)
    ensures forall x :: x in Items(root) ==> Behind(x, Leaf, sub, nb, 0)
  {
    ExactFit(root, sub, nb);
  }

  lemma LeafTold(mem: Memory)
    ensures WordsTell(mem, Leaf) && Root(Leaf) == 0
  {
  }

  lemma BitIsBit(nb: nat, b: nat)
    requires b <= 64
    ensures SignBit(SizeBits(nb, b)) < 2
  {
    var w := SizeBits(nb, b);
    assert w < WORD;
    assert WORD == 2 * TOP_BIT;
  }

  // ------------------------------------------------------------------ over all bins

  /** Finish the search in the next bin in use above the request's own. */
  method NextBinFit(mem: Memory, gm: nat, treemap: set<nat>, nb: nat, ghost trees: seq<Tree>) returns (v: nat, rsize: nat)
    requires BinsOk(trees, treemap) && BinsTell(mem, gm, trees) && 256 <= nb < WORD
    requires nb < MAX_CHUNK ==> forall x :: x in Items(trees[TreeIndex(nb)]) ==> x.1 < nb
    ensures Fits(Found(v, rsize, nb), rsize, nb) && IsBestFit(trees, nb, Found(v, rsize, nb))
  {
    hide WordsTell;
    var idx := TreeIndex(nb);
    v, rsize := 0, WORD - nb;
    if j :| j in treemap && j > idx {
      var i := LeastMarkedAbove(treemap, idx);
      assert BinOk(trees, treemap, i) && BinTells(mem, gm, trees, i);
      if nb < MAX_CHUNK { HigherBinFits(trees, treemap, i, nb); }
      v, rsize := LeftmostWalk(mem, Word(mem, TreeBinAt(gm, i)), v, rsize, nb, trees[i]);
      if nb < MAX_CHUNK {
        assert (trees[i].ring[0], trees[i].size) in Items(trees[i]);
        OwnBinIsBest(trees, treemap, i, nb, Found(v, rsize, nb), rsize);
      } else {
        NothingFits(trees, treemap, nb);
      }
    } else {
      NothingFits(trees, treemap, nb);
    }
  }

  /**
    The search of a large request.  The result is a smallest chunk of at least nb bytes over all
    tree bins; none exactly when no chunk is that large, whatever 64-bit value nb is.
  */
  method BestFit(mem: Memory, gm: nat, treemap: set<nat>, nb: nat, ghost trees: seq<Tree>) returns (v: nat, rsize: nat)
    requires BinsOk(trees, treemap) && BinsTell(mem, gm, trees) && 256 <= nb < WORD
    ensures Fits(Found(v, rsize, nb), rsize, nb) && IsBestFit(trees, nb, Found(v, rsize, nb))
  {
    hide WordsTell;
    var idx := TreeIndex(nb);
    v, rsize := 0, WORD - nb;
    ghost var sub := Leaf;
    LeafTold(mem);
    assert BinOk(trees, treemap, idx) && IsTrie(trees[idx]) && IsTrie(sub) by { assert Trie(Leaf, 0, 0); }
    assert BinTells(mem, gm, trees, idx);
    RootTold(mem, trees[idx]);
    if nb < MAX_CHUNK { TreeIndexIsBin(nb); }
    var t := Word(mem, TreeBinAt(gm, idx));
    if t != 0 {
      v, rsize, t, sub := SearchBin(mem, t, nb, Bits(idx), trees[idx]);
    }
    RootTold(mem, sub);
    if t == 0 && v == 0 {
      v, rsize := NextBinFit(mem, gm, treemap, nb, trees);
    } else {
      ghost var before := rsize;
      v, rsize := LeftmostWalk(mem, t, v, rsize, nb, sub);
      if nb < MAX_CHUNK {
        forall x | x in Items(trees[idx]) ensures x.1 >= nb ==> nb + rsize <= x.1 {
          WalkSettles(trees[idx], sub, nb, before, rsize, x);
        }
        assert v > 0 by { if sub.Node? { assert (sub.ring[0], sub.size) in Items(sub); } }
        OwnBinIsBest(trees, treemap, idx, nb, Found(v, rsize, nb), rsize);
      } else {
        NothingFits(trees, treemap, nb);
      }
    }
  }

  lemma RootTold(mem: Memory, t: Tree)
    requires WordsTell(mem, t) == true
    ensures t.Leaf? <==> Root(t) == 0
    ensures t.Node? ==> t.ring != []
  {
  }

  /** The lowest marked bin, for a request below all tree bins. */
  lemma LowestBin(mem: Memory, gm: nat, treemap: set<nat>, i: nat, trees: seq<Tree>)
    requires BinsOk(trees, treemap) && BinsTell(mem, gm, trees) && i in treemap && forall k :: k in treemap ==> i <= k
    ensures i < |trees| && trees[i].Node? && trees[i].ring != [] && IsTrie(trees[i]) && IsTrie(LeftmostChild(trees[i]))
    ensures Word(mem, TreeBinAt(gm, i)) == Root(trees[i]) && WordsTell(mem, trees[i])
    ensures SizesOk(trees[i]) && SizesOk(LeftmostChild(trees[i])) && 256 <= trees[i].size < MAX_CHUNK
    ensures (Root(trees[i]), trees[i].size) in Items(trees[i]) && Items(LeftmostChild(trees[i])) <= Items(trees[i])
    ensures forall x :: x in Items(LeftmostChild(trees[i])) ==> 256 <= x.1
    ensures forall j, x :: 0 <= j < i ==> x !in Items(trees[j])
  {
    var root := trees[i];
    assert BinOk(trees, treemap, i) && BinTells(mem, gm, trees, i);
    assert IsTrie(root);
    NodeParts(root, root);
    LeftmostIsTrie(root);
    assert forall x :: x in Items(root) ==> 256 <= x.1 < MAX_CHUNK;
    LowerBinsAreEmpty(trees, treemap, i);
  }

  /** The search of a small request in a non-empty treemap: a smallest chunk of all. */
  method SmallestChunk(mem: Memory, gm: nat, treemap: set<nat>, nb: nat, ghost trees: seq<Tree>) returns (v: nat, rsize: nat)
    requires BinsOk(trees, treemap) && BinsTell(mem, gm, trees) && treemap != {} && 0 < nb < 256
    ensures v > 0 && (v, nb + rsize) in AllItems(trees) && IsBestFit(trees, nb, Some((v, nb + rsize)))
  {
    hide BinsOk, BinsTell, IsTrie, Items, AllItems, IsBestFit, WordsTell, LeftmostAt, LeftmostChild, SizesOk, Root, Word, ChunkSize;
    ghost var k :| k in treemap;
    var i := LeastMarkedAbove(treemap, -1);
    LowestBin(mem, gm, treemap, i, trees);
    ghost var root := trees[i];
    LeftmostTold(mem, root);
    AllAbove(LeftmostChild(root), nb);
    var t := Word(mem, TreeBinAt(gm, i));
    v, rsize := t, ChunkSize(Word(mem, t + 8)) - nb;
    v, rsize := LeftmostWalk(mem, LeftmostAt(mem, t), v, rsize, nb, LeftmostChild(root));
    LeftmostCovers(root, nb, rsize);
    BinBestIsBest(trees, treemap, i, nb, Some((v, nb + rsize)), rsize);
    InSomeBin(trees, i, (v, nb + rsize));
  }

  lemma AllAbove(t: Tree, nb: nat)
    requires nb < 256 && forall x :: x in Items(t) ==> 256 <= x.1
    ensures AllFit(t, nb)
  {
  }
}
