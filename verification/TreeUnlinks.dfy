/**
  unlink_large_chunk of src/malloc.c on the link words: what it writes, seen from the node the
  chunk is at, and that the words then say what the trie without the chunk says.
*/
module TreeUnlinks {
  import opened Hypercube
  import opened HeapWords
  import opened TreeBins
  import opened SmallLinks
  import opened Rings
  import opened TreeLinks

  // ------------------------------------------------------------------ a changed parent

  /** A trie of which only the parent word of its root may have changed. */
  lemma NewParent(mem: Memory, mem': Memory, gm: nat, frees: set<(nat, nat)>, t: Tree, h: nat, b: nat, par: nat, idx: nat)
    requires t.Node? && Trie(t, h, b) == true && TreeLinked(mem, t, par, idx) == true && Large(gm, frees, Items(t)) == true
    requires forall w: nat {:trigger Word(mem', w)} :: InSome(Items(t), w) ==> Word(mem', w) == Word(mem, w) || w == Root(t) + PARENT
    ensures TreeLinked(mem', t, Word(mem', Root(t) + PARENT), idx)
  {
    PartsDiffer(t, h, b);
    LargePart(gm, frees, Items(t), RingItems(t));
    LargePart(gm, frees, Items(t), Items(t.left));
    LargePart(gm, frees, Items(t), Items(t.right));
    InRingBody(gm, frees, t, 0, 48);
    assert Separated(gm, frees);
    hide Large, Separated, InSome, Trie, NodeLinked, RingItems;
    NewParentNode(mem, mem', gm, frees, t, par, idx);
    ParentStays(mem, mem', gm, frees, t, t.left, idx);
    ParentStays(mem, mem', gm, frees, t, t.right, idx);
  }

  lemma NewParentNode(mem: Memory, mem': Memory, gm: nat, frees: set<(nat, nat)>, t: Tree, par: nat, idx: nat)
    requires t.Node? && t.ring != [] && NodeLinked(mem, t.ring, par, idx, Root(t.left), Root(t.right)) == true
    requires Large(gm, frees, RingItems(t)) == true && RingItems(t) <= Items(t)
    requires forall w: nat {:trigger Word(mem', w)} :: InSome(Items(t), w) ==> Word(mem', w) == Word(mem, w) || w == Root(t) + PARENT
    ensures NodeLinked(mem', t.ring, Word(mem', t.ring[0] + PARENT), idx, Word(mem', ChildAt(t.ring[0], 0)), Word(mem', ChildAt(t.ring[0], 1)))
    ensures Word(mem', ChildAt(t.ring[0], 0)) == Root(t.left) && Word(mem', ChildAt(t.ring[0], 1)) == Root(t.right)
  {
    HeadWords(mem, t.ring, par, idx, Root(t.left), Root(t.right));
    hide Large, InSome, RingItems, Items, Word, TreeLinked, NodeLinked;
    NewParentWords(mem, mem', gm, frees, t);
    NodeStays(mem, mem', gm, frees, t, par, idx, Root(t.left), Root(t.right));
  }

  lemma HeadWords(mem: Memory, ring: seq<nat>, par: nat, idx: nat, c0: nat, c1: nat)
    requires ring != [] && NodeLinked(mem, ring, par, idx, c0, c1) == true
    ensures Word(mem, ring[0] + PARENT) == par && Word(mem, ChildAt(ring[0], 0)) == c0 && Word(mem, ChildAt(ring[0], 1)) == c1
  {
  }

  lemma NewParentWords(mem: Memory, mem': Memory, gm: nat, frees: set<(nat, nat)>, t: Tree)
    requires t.Node? && t.ring != [] && Large(gm, frees, RingItems(t)) == true && RingItems(t) <= Items(t)
    requires forall w: nat {:trigger Word(mem', w)} :: InSome(Items(t), w) ==> Word(mem', w) == Word(mem, w) || w == Root(t) + PARENT
    ensures forall w: nat {:trigger Word(mem', w)} :: InSome(RingItems(t), w) ==> Word(mem', w) == Word(mem, w) || w == t.ring[0] + PARENT
    ensures Word(mem', ChildAt(t.ring[0], 0)) == Word(mem, ChildAt(t.ring[0], 0))
    ensures Word(mem', ChildAt(t.ring[0], 1)) == Word(mem, ChildAt(t.ring[0], 1))
  {
    InRingBody(gm, frees, t, 0, 32);
    InRingBody(gm, frees, t, 0, 40);
    hide Large, InSome, RingItems, Items, Word;
    forall w: nat | InSome(RingItems(t), w) ensures Word(mem', w) == Word(mem, w) || w == t.ring[0] + PARENT {
      SomeMore(RingItems(t), Items(t), w);
    }
    assert InSome(RingItems(t), ChildAt(t.ring[0], 0)) && InSome(RingItems(t), ChildAt(t.ring[0], 1));
  }

  lemma ParentStays(mem: Memory, mem': Memory, gm: nat, frees: set<(nat, nat)>, t: Tree, child: Tree, idx: nat)
    requires t.Node? && t.ring != [] && Separated(gm, frees) && Items(t) <= frees && Items(child) <= Items(t) && RingItems(t) <= Items(t)
    requires TreeLinked(mem, child, t.ring[0], idx) == true && Large(gm, frees, Items(child)) == true && RingItems(t) !! Items(child)
    requires InSome(RingItems(t), t.ring[0] + PARENT)
    requires forall w: nat {:trigger Word(mem', w)} :: InSome(Items(t), w) ==> Word(mem', w) == Word(mem, w) || w == t.ring[0] + PARENT
    ensures TreeLinked(mem', child, t.ring[0], idx)
  {
    hide Separated, InSome, TreeLinked;
    forall w: nat | InSome(Items(child), w) ensures Word(mem', w) == Word(mem, w) {
      SomeMore(Items(child), Items(t), w);
      BodiesApart(gm, frees, RingItems(t), Items(child), w);
    }
    TreeStays(mem, mem', gm, frees, child, t.ring[0], idx);
  }

  // ------------------------------------------------------------------ handing the place over

  /** The part that both ways of unlinking a tree node share: R takes the place of X, its children included. */
  function Handover(mem: Memory, x: nat, par: nat, wh: nat, r: nat): Memory {
    var m1 := mem[wh := r];
    if r == 0 then m1
    else
      AdoptChild(AdoptChild(m1[r + PARENT := par], x, r, 0), x, r, 1)
  }

  /** The child of x on one side, if it has one, passes to r and gets r as its parent. */
  function AdoptChild(mem: Memory, x: nat, r: nat, bit: nat): Memory {
    var c := Word(mem, ChildAt(x, bit));
    if c != 0 then mem[ChildAt(r, bit) := c][c + PARENT := r] else mem
  }

  /** The tree node x, its heir's ring and the two subtries, all of them different chunks. */
  ghost predicate Parted(gm: nat, frees: set<(nat, nat)>, x: (nat, nat), heir: Tree, left: Tree, right: Tree) {
    && heir.Node? && heir.ring != []
    && Large(gm, frees, {x} + RingItems(heir) + Items(left) + Items(right))
    && x !in RingItems(heir) && x !in Items(left) && x !in Items(right)
    && RingItems(heir) !! Items(left) && RingItems(heir) !! Items(right) && Items(left) !! Items(right)
  }

  ghost function Shares(heir: Tree, left: Tree, right: Tree): set<(nat, nat)>
    requires heir.Node?
  {
    RingItems(heir) + Items(left) + Items(right)
  }

  /** The roots of tries are different words from others'. */
  lemma RootBody(gm: nat, frees: set<(nat, nat)>, t: Tree, h: nat, b: nat, off: nat)
    requires t.Node? && Trie(t, h, b) == true && Large(gm, frees, Items(t)) == true && 16 <= off < 64
    ensures t.ring != [] && Root(t) > 0 && InSome(Items(t), Root(t) + off)
  {
    LargePart(gm, frees, Items(t), RingItems(t));
    InRingBody(gm, frees, t, 0, off);
    SomeMore(RingItems(t), Items(t), Root(t) + off);
    assert OutsideState(gm, (t.ring[0], t.size));
  }

  /** The words of x, of its heir and of the roots of the subtries are different words, and none is the one at wh. */
  predicate HandoverClear(x: nat, wh: nat, r: nat, l: nat, q: nat) {
    && Far(x, r) && x != r && r > 0
    && (l != 0 ==> Far(x, l) && Far(r, l) && x != l && r != l && wh != l + PARENT)
    && (q != 0 ==> Far(x, q) && Far(r, q) && x != q && r != q && wh != q + PARENT)
    && (l != 0 && q != 0 ==> Far(l, q) && l != q)
    && wh != r + PARENT && wh != ChildAt(r, 0) && wh != ChildAt(r, 1) && wh != ChildAt(x, 0) && wh != ChildAt(x, 1)
  }

  /** Every word after the handover. */
  function HandedWord(mem: Memory, par: nat, wh: nat, r: nat, l: nat, q: nat, w: nat): nat {
    if w == wh then r
    else if w == r + PARENT then par
    else if w == ChildAt(r, 0) && l != 0 then l
    else if w == ChildAt(r, 1) && q != 0 then q
    else if (l != 0 && w == l + PARENT) || (q != 0 && w == q + PARENT) then r
    else Word(mem, w)
  }

  lemma HandoverWords(mem: Memory, x: nat, par: nat, wh: nat, r: nat, l: nat, q: nat, w: nat)
    requires HandoverClear(x, wh, r, l, q) && Word(mem, ChildAt(x, 0)) == l && Word(mem, ChildAt(x, 1)) == q
    ensures Word(Handover(mem, x, par, wh, r), w) == HandedWord(mem, par, wh, r, l, q, w)
  {
    var m2 := mem[wh := r][r + PARENT := par];
    assert Word(m2, ChildAt(x, 0)) == l && Word(m2, ChildAt(x, 1)) == q;
    var m3 := AdoptChild(m2, x, r, 0);
    assert Word(m3, ChildAt(x, 1)) == q;
  }

  lemma PartedIsClear(gm: nat, frees: set<(nat, nat)>, x: (nat, nat), heir: Tree, left: Tree, right: Tree, wh: nat, hl: nat, bl: nat, hr: nat, br: nat)
    requires Parted(gm, frees, x, heir, left, right) == true && Trie(left, hl, bl) == true && Trie(right, hr, br) == true
    requires !InSome({x} + Shares(heir, left, right), wh)
    ensures HandoverClear(x.0, wh, heir.ring[0], Root(left), Root(right))
  {
    var all := {x} + Shares(heir, left, right);
    var r := (heir.ring[0], heir.size);
    assert r in RingItems(heir);
    PartedRoots(gm, frees, x, heir, left, right, hl, bl, hr, br);
    hide Items, RingItems, Shares, Parted, Trie, InSome, Large;
    ItemsFar(gm, frees, all, x, r, wh);
    RootFar(gm, frees, all, x, r, left, wh);
    RootFar(gm, frees, all, x, r, right, wh);
    if left.Node? && right.Node? { ItemsFar(gm, frees, all, (left.ring[0], left.size), (right.ring[0], right.size), wh); }
  }

  lemma PartedRoots(gm: nat, frees: set<(nat, nat)>, x: (nat, nat), heir: Tree, left: Tree, right: Tree, hl: nat, bl: nat, hr: nat, br: nat)
    requires Parted(gm, frees, x, heir, left, right) == true && Trie(left, hl, bl) == true && Trie(right, hr, br) == true
    ensures var all, r := {x} + Shares(heir, left, right), (heir.ring[0], heir.size);
            && Large(gm, frees, all) && x in all && r in all && r != x
            && RootIn(left, all, x, r) && RootIn(right, all, x, r)
            && (left.Node? && right.Node? ==> (left.ring[0], left.size) != (right.ring[0], right.size))
  {
    var all, r := {x} + Shares(heir, left, right), (heir.ring[0], heir.size);
    assert all == {x} + RingItems(heir) + Items(left) + Items(right);
    assert r in RingItems(heir);
    if left.Node? { RootItem(left, hl, bl); }
    if right.Node? { RootItem(right, hr, br); }
  }

  /** The root of t, if it has one, is a chunk of `all` other than x and r. */
  ghost predicate RootIn(t: Tree, all: set<(nat, nat)>, x: (nat, nat), r: (nat, nat)) {
    t.Node? ==> t.ring != [] && (t.ring[0], t.size) in all && (t.ring[0], t.size) != x && (t.ring[0], t.size) != r
  }

  lemma RootFar(gm: nat, frees: set<(nat, nat)>, all: set<(nat, nat)>, x: (nat, nat), r: (nat, nat), t: Tree, wh: nat)
    requires Large(gm, frees, all) == true && x in all && r in all && RootIn(t, all, x, r) && !InSome(all, wh)
    ensures Root(t) != 0 ==> t.Node? && Far(x.0, Root(t)) && Far(r.0, Root(t)) && x.0 != Root(t) && r.0 != Root(t) && wh != Root(t) + PARENT
  {
    if t.Node? {
      hide Large, InSome;
      ItemsFar(gm, frees, all, x, (t.ring[0], t.size), wh);
      ItemsFar(gm, frees, all, r, (t.ring[0], t.size), wh);
    }
  }

  lemma ItemsFar(gm: nat, frees: set<(nat, nat)>, items: set<(nat, nat)>, x: (nat, nat), y: (nat, nat), wh: nat)
    requires Large(gm, frees, items) == true && x in items && y in items && !InSome(items, wh)
    ensures x.0 > 0 && y.0 > 0 && !(x.0 + 16 <= wh < x.0 + 64) && !(y.0 + 16 <= wh < y.0 + 64)
    ensures x != y ==> Far(x.0, y.0) && x.0 != y.0
  {
    NotAt(items, x, wh);
    NotAt(items, y, wh);
    assert OutsideState(gm, x) && OutsideState(gm, y) && ApartFrom(x, y);
  }

  lemma RootItem(t: Tree, h: nat, b: nat)
    requires t.Node? && Trie(t, h, b) == true
    ensures t.ring != [] && (t.ring[0], t.size) in Items(t) && Root(t) == t.ring[0]
  {
  }

  lemma NotAt(items: set<(nat, nat)>, y: (nat, nat), wh: nat)
    requires y in items && y.1 >= 64 && !InSome(items, wh)
    ensures !(y.0 + 16 <= wh < y.0 + 64)
  {
    assert !InBody(y, wh);
  }

  /** The heir with x's subtries, in x's place. */
  lemma HandoverLinks(mem: Memory, gm: nat, frees: set<(nat, nat)>, x: (nat, nat), heir: Tree, left: Tree, right: Tree,
                      par0: nat, par: nat, wh: nat, idx: nat, hl: nat, bl: nat, hr: nat, br: nat)
    requires Parted(gm, frees, x, heir, left, right) == true
    requires Trie(left, hl, bl) == true && Trie(right, hr, br) == true
    requires !InSome({x} + Shares(heir, left, right), wh) && NodeLinked(mem, heir.ring, par0, idx, 0, 0) == true
    requires TreeLinked(mem, left, x.0, idx) == true && TreeLinked(mem, right, x.0, idx) == true
    requires Word(mem, ChildAt(x.0, 0)) == Root(left) && Word(mem, ChildAt(x.0, 1)) == Root(right)
    ensures var mem' := Handover(mem, x.0, par, wh, heir.ring[0]); var t' := Node(heir.size, heir.ring, left, right);
            && TreeLinked(mem', t', par, idx) && Word(mem', wh) == Root(t')
            && OnlyIn(mem, mem', Shares(heir, left, right), wh)
  {
    hide Handover, HandoverClear, NodeLinked, Items, RingItems, Shares, OnlyIn;
    PartedIsClear(gm, frees, x, heir, left, right, wh, hl, bl, hr, br);
    HandedTouches(mem, gm, frees, x, heir, left, right, par, wh, hl, bl, hr, br);
    HandedNode(mem, gm, frees, x, heir, left, right, par0, par, wh, idx, hl, bl, hr, br);
    if left.Node? { HandedChild(mem, gm, frees, x, heir, left, right, left, par, wh, idx, hl, bl, hr, br); }
    if right.Node? { HandedChild(mem, gm, frees, x, heir, left, right, right, par, wh, idx, hl, bl, hr, br); }
  }

  /** What the words that change have to do with the chunks involved. */
  lemma HandedBodies(gm: nat, frees: set<(nat, nat)>, x: (nat, nat), heir: Tree, left: Tree, right: Tree, hl: nat, bl: nat, hr: nat, br: nat)
    requires Parted(gm, frees, x, heir, left, right) == true && Trie(left, hl, bl) == true && Trie(right, hr, br) == true
    ensures Large(gm, frees, RingItems(heir)) && Large(gm, frees, Items(left)) && Large(gm, frees, Items(right))
    ensures InSome(RingItems(heir), heir.ring[0] + PARENT)
    ensures InSome(RingItems(heir), ChildAt(heir.ring[0], 0)) && InSome(RingItems(heir), ChildAt(heir.ring[0], 1))
    ensures left.Node? ==> Root(left) > 0 && InSome(Items(left), Root(left) + PARENT)
    ensures right.Node? ==> Root(right) > 0 && InSome(Items(right), Root(right) + PARENT)
    ensures Root(left) != 0 ==> left.Node?
    ensures Root(right) != 0 ==> right.Node?
  {
    var all := {x} + RingItems(heir) + Items(left) + Items(right);
    LargePart(gm, frees, all, RingItems(heir));
    LargePart(gm, frees, all, Items(left));
    LargePart(gm, frees, all, Items(right));
    InRingBody(gm, frees, heir, 0, 48);
    InRingBody(gm, frees, heir, 0, 32);
    InRingBody(gm, frees, heir, 0, 40);
    if left.Node? { RootBody(gm, frees, left, hl, bl, 48); }
    if right.Node? { RootBody(gm, frees, right, hr, br, 48); }
  }

  /** The state before a handover. */
  ghost predicate Ready(mem: Memory, x: nat, heir: Tree, left: Tree, right: Tree, wh: nat)
  {
    && heir.Node? && heir.ring != [] && HandoverClear(x, wh, heir.ring[0], Root(left), Root(right))
    && Word(mem, ChildAt(x, 0)) == Root(left) && Word(mem, ChildAt(x, 1)) == Root(right)
  }

  lemma HandedTo(mem: Memory, x: nat, heir: Tree, left: Tree, right: Tree, par: nat, wh: nat, w: nat)
    requires Ready(mem, x, heir, left, right, wh) == true
    ensures Word(Handover(mem, x, par, wh, heir.ring[0]), w) == HandedWord(mem, par, wh, heir.ring[0], Root(left), Root(right), w)
  {
    HandoverWords(mem, x, par, wh, heir.ring[0], Root(left), Root(right), w);
  }

  lemma HandedTouches(mem: Memory, gm: nat, frees: set<(nat, nat)>, x: (nat, nat), heir: Tree, left: Tree, right: Tree,
                      par: nat, wh: nat, hl: nat, bl: nat, hr: nat, br: nat)
    requires Parted(gm, frees, x, heir, left, right) == true && Trie(left, hl, bl) == true && Trie(right, hr, br) == true && Ready(mem, x.0, heir, left, right, wh) == true
    ensures OnlyIn(mem, Handover(mem, x.0, par, wh, heir.ring[0]), Shares(heir, left, right), wh)
  {
    var r, shares := heir.ring[0], Shares(heir, left, right);
    var mem' := Handover(mem, x.0, par, wh, r);
    HandedBodies(gm, frees, x, heir, left, right, hl, bl, hr, br);
    hide Parted, Large, Separated, InSome, Items, RingItems, Trie, Root, Handover, Ready, Word;
    forall w: nat | Word(mem', w) != Word(mem, w) ensures w == wh || InSome(shares, w) {
      HandedTo(mem, x.0, heir, left, right, par, wh, w);
      if InSome(RingItems(heir), w) { SomeMore(RingItems(heir), shares, w); }
      if InSome(Items(left), w) { SomeMore(Items(left), shares, w); }
      if InSome(Items(right), w) { SomeMore(Items(right), shares, w); }
    }
  }

  /** In the heir's ring, only words of its tree node change. */
  lemma HandedInRing(mem: Memory, gm: nat, frees: set<(nat, nat)>, x: (nat, nat), heir: Tree, left: Tree, right: Tree,
                     par: nat, wh: nat, hl: nat, bl: nat, hr: nat, br: nat, w: nat)
    requires Parted(gm, frees, x, heir, left, right) == true && Trie(left, hl, bl) == true && Trie(right, hr, br) == true && Ready(mem, x.0, heir, left, right, wh) == true
    requires !InSome({x} + Shares(heir, left, right), wh) && InSome(RingItems(heir), w)
    ensures var mem', r := Handover(mem, x.0, par, wh, heir.ring[0]), heir.ring[0];
            Word(mem', w) == if w == r + PARENT then par
                             else if w == ChildAt(r, 0) && Root(left) != 0 then Root(left)
                             else if w == ChildAt(r, 1) && Root(right) != 0 then Root(right) else Word(mem, w)
  {
    HandedBodies(gm, frees, x, heir, left, right, hl, bl, hr, br);
    assert Separated(gm, frees) && RingItems(heir) <= frees && Items(left) <= frees && Items(right) <= frees;
    BodiesApart(gm, frees, RingItems(heir), Items(left), w);
    BodiesApart(gm, frees, RingItems(heir), Items(right), w);
    NotInPart(RingItems(heir), {x} + Shares(heir, left, right), wh);
    hide Parted, Large, Separated, InSome, Items, RingItems, Trie, Root, Handover, Ready, Word, ChildAt;
    HandedTo(mem, x.0, heir, left, right, par, wh, w);
  }

  lemma HandedNode(mem: Memory, gm: nat, frees: set<(nat, nat)>, x: (nat, nat), heir: Tree, left: Tree, right: Tree,
                   par0: nat, par: nat, wh: nat, idx: nat, hl: nat, bl: nat, hr: nat, br: nat)
    requires Parted(gm, frees, x, heir, left, right) == true && Trie(left, hl, bl) == true && Trie(right, hr, br) == true && Ready(mem, x.0, heir, left, right, wh) == true
    requires !InSome({x} + Shares(heir, left, right), wh) && NodeLinked(mem, heir.ring, par0, idx, 0, 0) == true
    ensures var mem' := Handover(mem, x.0, par, wh, heir.ring[0]);
            NodeLinked(mem', heir.ring, par, idx, Root(left), Root(right)) && Word(mem', wh) == heir.ring[0]
  {
    var r := heir.ring[0];
    var mem' := Handover(mem, x.0, par, wh, r);
    assert Word(mem, ChildAt(r, 0)) == 0 && Word(mem, ChildAt(r, 1)) == 0;
    HandedBodies(gm, frees, x, heir, left, right, hl, bl, hr, br);
    HandedTo(mem, x.0, heir, left, right, par, wh, wh);
    hide Parted, Large, Separated, InSome, Items, RingItems, Trie, Shares, Handover, Ready, Word, ChildAt, NodeLinked, Root;
    forall w: nat | InSome(RingItems(heir), w)
      ensures Word(mem', w) == Word(mem, w) || w == r + PARENT || w == ChildAt(r, 0) || w == ChildAt(r, 1)
    {
      HandedInRing(mem, gm, frees, x, heir, left, right, par, wh, hl, bl, hr, br, w);
    }
    NodeStays(mem, mem', gm, frees, heir, par0, idx, 0, 0);
    HandedHead(mem, gm, frees, x, heir, left, right, par, wh, hl, bl, hr, br);
  }

  lemma HandedHead(mem: Memory, gm: nat, frees: set<(nat, nat)>, x: (nat, nat), heir: Tree, left: Tree, right: Tree,
                   par: nat, wh: nat, hl: nat, bl: nat, hr: nat, br: nat)
    requires Parted(gm, frees, x, heir, left, right) == true && Trie(left, hl, bl) == true && Trie(right, hr, br) == true && Ready(mem, x.0, heir, left, right, wh) == true
    requires !InSome({x} + Shares(heir, left, right), wh)
    requires Word(mem, ChildAt(heir.ring[0], 0)) == 0 && Word(mem, ChildAt(heir.ring[0], 1)) == 0
    ensures var mem', r := Handover(mem, x.0, par, wh, heir.ring[0]), heir.ring[0];
            Word(mem', r + PARENT) == par && Word(mem', ChildAt(r, 0)) == Root(left) && Word(mem', ChildAt(r, 1)) == Root(right)
  {
    var r := heir.ring[0];
    HandedBodies(gm, frees, x, heir, left, right, hl, bl, hr, br);
    hide Parted, Large, Separated, InSome, Items, RingItems, Trie, Shares, Handover, Ready, Word, Root;
    HandedInRing(mem, gm, frees, x, heir, left, right, par, wh, hl, bl, hr, br, r + PARENT);
    HandedInRing(mem, gm, frees, x, heir, left, right, par, wh, hl, bl, hr, br, ChildAt(r, 0));
    HandedInRing(mem, gm, frees, x, heir, left, right, par, wh, hl, bl, hr, br, ChildAt(r, 1));
  }

  /** In a subtrie, only the parent word of its root changes. */
  lemma HandedInChild(mem: Memory, gm: nat, frees: set<(nat, nat)>, x: (nat, nat), heir: Tree, left: Tree, right: Tree, child: Tree,
                      par: nat, wh: nat, hl: nat, bl: nat, hr: nat, br: nat, w: nat)
    requires Parted(gm, frees, x, heir, left, right) == true && Trie(left, hl, bl) == true && Trie(right, hr, br) == true && Ready(mem, x.0, heir, left, right, wh) == true
    requires !InSome({x} + Shares(heir, left, right), wh) && (child == left || child == right) && child.Node? && InSome(Items(child), w)
    ensures Word(Handover(mem, x.0, par, wh, heir.ring[0]), w) == if w == Root(child) + PARENT then heir.ring[0] else Word(mem, w)
  {
    hide Parted, InSome, Items, RingItems, Trie, Root, Handover, Ready, Word, Shares, HandoverClear;
    ElsewhereInChild(gm, frees, x, heir, left, right, child, if child == left then right else left, wh, hl, bl, hr, br, w);
    HandedTo(mem, x.0, heir, left, right, par, wh, w);
  }

  /** A word of one subtrie is none of the words that change elsewhere. */
  lemma ElsewhereInChild(gm: nat, frees: set<(nat, nat)>, x: (nat, nat), heir: Tree, left: Tree, right: Tree, child: Tree, other: Tree,
                         wh: nat, hl: nat, bl: nat, hr: nat, br: nat, w: nat)
    requires Parted(gm, frees, x, heir, left, right) == true && Trie(left, hl, bl) == true && Trie(right, hr, br) == true
    requires !InSome({x} + Shares(heir, left, right), wh) && child.Node? && InSome(Items(child), w)
    requires (child == left && other == right) || (child == right && other == left)
    ensures w != wh && w != heir.ring[0] + PARENT && w != ChildAt(heir.ring[0], 0) && w != ChildAt(heir.ring[0], 1)
    ensures Root(child) != 0
    ensures Root(other) != 0 ==> w != Root(other) + PARENT
  {
    HandedBodies(gm, frees, x, heir, left, right, hl, bl, hr, br);
    assert Items(child) <= {x} + Shares(heir, left, right);
    assert RingItems(heir) !! Items(child) && Items(child) !! Items(other);
    hide Parted, InSome, Items, RingItems, Trie, Root, Shares;
    NotInPart(Items(child), {x} + Shares(heir, left, right), wh);
    BodiesApart(gm, frees, RingItems(heir), Items(child), w);
    BodiesApart(gm, frees, Items(child), Items(other), w);
  }

  lemma HandedChild(mem: Memory, gm: nat, frees: set<(nat, nat)>, x: (nat, nat), heir: Tree, left: Tree, right: Tree, child: Tree,
                    par: nat, wh: nat, idx: nat, hl: nat, bl: nat, hr: nat, br: nat)
    requires Parted(gm, frees, x, heir, left, right) == true && Trie(left, hl, bl) == true && Trie(right, hr, br) == true && Ready(mem, x.0, heir, left, right, wh) == true
    requires !InSome({x} + Shares(heir, left, right), wh)
    requires (child == left || child == right) && child.Node? && TreeLinked(mem, child, x.0, idx)
    ensures TreeLinked(Handover(mem, x.0, par, wh, heir.ring[0]), child, heir.ring[0], idx)
  {
    var r := heir.ring[0];
    var mem' := Handover(mem, x.0, par, wh, r);
    HandedBodies(gm, frees, x, heir, left, right, hl, bl, hr, br);
    hide Parted, Large, Separated, InSome, Items, RingItems, Trie, TreeLinked, Handover, Ready, Word, Shares, Root;
    forall w: nat | InSome(Items(child), w) ensures Word(mem', w) == if w == Root(child) + PARENT then r else Word(mem, w) {
      HandedInChild(mem, gm, frees, x, heir, left, right, child, par, wh, hl, bl, hr, br, w);
    }
    if child == left {
      NewParent(mem, mem', gm, frees, child, hl, bl, x.0, idx);
    } else {
      NewParent(mem, mem', gm, frees, child, hr, br, x.0, idx);
    }
  }

  // ------------------------------------------------------------------ the heir of a lone node

  /** The address of the word that points to the last leaf; `wh` is that of the word that points to t. */
  function LeafSlot(t: Tree, wh: nat): nat
    requires t.Node?
  {
    if t.right.Node? then LeafSlot(t.right, ChildAt(Root(t), 1))
    else if t.left.Node? then LeafSlot(t.left, ChildAt(Root(t), 0))
    else wh
  }

  /** What cutting the last leaf off leaves, and the leaf. */
  ghost predicate CutOff(mem: Memory, t: Tree, par: nat, wh: nat, idx: nat, slot: nat)
    requires t.Node?
  {
    var mem' := mem[slot := 0];
    && TreeLinked(mem', CutLastLeaf(t), par, idx) && Word(mem', wh) == Root(CutLastLeaf(t))
    && (slot == wh || InSome(Items(CutLastLeaf(t)), slot))
    && LastLeaf(t).Node? && LastLeaf(t).ring != []
    && NodeLinked(mem', LastLeaf(t).ring, Word(mem', LastLeaf(t).ring[0] + PARENT), idx, 0, 0)
    && Word(mem, slot) == LastLeaf(t).ring[0]
  }

  lemma {:induction false} CutLinks(mem: Memory, gm: nat, frees: set<(nat, nat)>, t: Tree, h: nat, b: nat, par: nat, wh: nat, idx: nat)
    requires t.Node? && Trie(t, h, b) == true && TreeLinked(mem, t, par, idx) == true && Word(mem, wh) == Root(t)
    requires Large(gm, frees, Items(t)) == true && !InSome(Items(t), wh)
    ensures CutOff(mem, t, par, wh, idx, LeafSlot(t, wh))
    decreases t
  {
    if t.right.Node? {
      CutBelow(mem, gm, frees, t, h, b, 1, par, wh, idx);
    } else if t.left.Node? {
      CutBelow(mem, gm, frees, t, h, b, 0, par, wh, idx);
    } else {
      var mem' := mem[wh := 0];
      LargePart(gm, frees, Items(t), RingItems(t));
      NotInPart(RingItems(t), Items(t), wh);
      InRingBody(gm, frees, t, 0, 32);
      InRingBody(gm, frees, t, 0, 40);
      NodeStays(mem, mem', gm, frees, t, par, idx, 0, 0);
    }
  }

  lemma CutFacts(t: Tree, h: nat, b: nat, bit: nat, wh: nat)
    requires t.Node? && Trie(t, h, b) && bit < 2 && ChildOf(t, bit).Node? && (bit == 0 ==> t.right.Leaf?)
    ensures b > 0 && t.ring != [] && Trie(ChildOf(t, bit), 2 * h + bit, b - 1) && ChildOf(t, bit) < t
    ensures CutLastLeaf(t) == WithChild(t, bit, CutLastLeaf(ChildOf(t, bit))) && LastLeaf(t) == LastLeaf(ChildOf(t, bit))
    ensures LeafSlot(t, wh) == LeafSlot(ChildOf(t, bit), ChildAt(t.ring[0], bit))
    ensures Items(CutLastLeaf(ChildOf(t, bit))) <= Items(ChildOf(t, bit)) && Items(CutLastLeaf(ChildOf(t, bit))) <= Items(CutLastLeaf(t))
    ensures RingItems(t) <= Items(CutLastLeaf(t)) && RingItems(t) <= Items(t)
    ensures Root(CutLastLeaf(t)) == Root(t) == t.ring[0]
  {
    CutLastLeafKeeps(ChildOf(t, bit), 2 * h + bit, b - 1);
  }

  lemma {:induction false} CutBelow(mem: Memory, gm: nat, frees: set<(nat, nat)>, t: Tree, h: nat, b: nat, bit: nat, par: nat, wh: nat, idx: nat)
    requires t.Node? && Trie(t, h, b) == true && TreeLinked(mem, t, par, idx) == true && Word(mem, wh) == Root(t)
    requires Large(gm, frees, Items(t)) == true && !InSome(Items(t), wh)
    requires bit < 2 && ChildOf(t, bit).Node? && (bit == 0 ==> t.right.Leaf?)
    ensures CutOff(mem, t, par, wh, idx, LeafSlot(t, wh)) == true
    decreases t, 1
  {
    CutFacts(t, h, b, bit, wh);
    hide Large, InSome, Trie, TreeLinked, Items, RingItems, CutLastLeaf, LastLeaf, LeafSlot, ChildOf, CutOff, Word, ChildAt;
    CutChild(mem, gm, frees, t, h, b, bit, par, idx);
    CutAssemble(mem, gm, frees, t, h, b, bit, par, wh, idx, LeafSlot(ChildOf(t, bit), ChildAt(t.ring[0], bit)));
  }

  lemma {:induction false} CutChild(mem: Memory, gm: nat, frees: set<(nat, nat)>, t: Tree, h: nat, b: nat, bit: nat, par: nat, idx: nat)
    requires t.Node? && t.ring != [] && Trie(t, h, b) == true && TreeLinked(mem, t, par, idx) == true && Large(gm, frees, Items(t)) == true
    requires bit < 2 && ChildOf(t, bit).Node? && (bit == 0 ==> t.right.Leaf?)
    ensures CutOff(mem, ChildOf(t, bit), t.ring[0], ChildAt(t.ring[0], bit), idx, LeafSlot(ChildOf(t, bit), ChildAt(t.ring[0], bit))) == true
    decreases t, 0
  {
    hide Large, InSome, Trie, TreeLinked, Items, RingItems, CutLastLeaf, LastLeaf, LeafSlot, ChildOf, CutOff, Word, ChildAt;
    assert b > 0 by { CutFacts(t, h, b, bit, 0); }
    ChildAlone(gm, frees, t, h, b, bit, par, idx, mem);
    CutLinks(mem, gm, frees, ChildOf(t, bit), 2 * h + bit, b - 1, t.ring[0], ChildAt(t.ring[0], bit), idx);
  }

  lemma ChildAlone(gm: nat, frees: set<(nat, nat)>, t: Tree, h: nat, b: nat, bit: nat, par: nat, idx: nat, mem: Memory)
    requires t.Node? && Trie(t, h, b) == true && bit < 2 && b > 0 && Large(gm, frees, Items(t)) == true && TreeLinked(mem, t, par, idx) == true
    ensures t.ring != [] && Trie(ChildOf(t, bit), 2 * h + bit, b - 1) == true && ChildOf(t, bit) < t
    ensures Large(gm, frees, Items(ChildOf(t, bit))) == true && Items(ChildOf(t, bit)) <= Items(t)
    ensures TreeLinked(mem, ChildOf(t, bit), t.ring[0], idx) == true && Word(mem, ChildAt(t.ring[0], bit)) == Root(ChildOf(t, bit))
    ensures !InSome(Items(ChildOf(t, bit)), ChildAt(t.ring[0], bit))
  {
    assert Items(t) + {} == Items(t) && Items(ChildOf(t, bit)) + {} == Items(ChildOf(t, bit));
    ChildFacts(gm, frees, t, h, b, bit, {}, par, idx, mem);
  }

  lemma CutAssemble(mem: Memory, gm: nat, frees: set<(nat, nat)>, t: Tree, h: nat, b: nat, bit: nat, par: nat, wh: nat, idx: nat, leaf: nat)
    requires t.Node? && t.ring != [] && Trie(t, h, b) == true && TreeLinked(mem, t, par, idx) == true && Word(mem, wh) == Root(t)
    requires Large(gm, frees, Items(t)) == true && !InSome(Items(t), wh)
    requires bit < 2 && ChildOf(t, bit).Node? && (bit == 0 ==> t.right.Leaf?)
    requires CutOff(mem, ChildOf(t, bit), t.ring[0], ChildAt(t.ring[0], bit), idx, leaf) == true
    ensures CutOff(mem, t, par, wh, idx, leaf) == true
  {
    CutFacts(t, h, b, bit, wh);
    hide Large, InSome, Trie, TreeLinked, Items, RingItems, CutLastLeaf, LastLeaf, LeafSlot, ChildOf, WithChild, CutOff, OnlyIn, Word, Root, ChildAt;
    var child, n, slot := ChildOf(t, bit), t.ring[0], ChildAt(t.ring[0], bit);
    assert Items(t) + {} == Items(t) && Items(child) + {} == Items(child);
    CutIsAt(mem, child, n, slot, idx, leaf);
    CutWhere(gm, frees, t, h, b, bit, wh, leaf);
    OneWordIn(mem, leaf, Items(child), slot);
    CutParts(mem, child, n, slot, idx, leaf);
    ChildReplaced(mem, mem[leaf := 0], gm, frees, t, h, b, bit, CutLastLeaf(child), {}, par, wh, idx);
    CutIs(mem, t, child, bit, par, wh, n, slot, idx, leaf);
  }

  lemma CutIsAt(mem: Memory, t: Tree, par: nat, wh: nat, idx: nat, slot: nat)
    requires t.Node? && CutOff(mem, t, par, wh, idx, slot) == true
    ensures slot == wh || InSome(Items(CutLastLeaf(t)), slot)
  {
  }

  lemma CutParts(mem: Memory, t: Tree, par: nat, wh: nat, idx: nat, slot: nat)
    requires t.Node? && CutOff(mem, t, par, wh, idx, slot) == true
    ensures TreeLinked(mem[slot := 0], CutLastLeaf(t), par, idx) && Word(mem[slot := 0], wh) == Root(CutLastLeaf(t))
  {
  }

  lemma CutIs(mem: Memory, t: Tree, child: Tree, bit: nat, par: nat, wh: nat, n: nat, slot: nat, idx: nat, leaf: nat)
    requires t.Node? && child.Node? && CutOff(mem, child, n, slot, idx, leaf) == true && LastLeaf(t) == LastLeaf(child)
    requires CutLastLeaf(t) == WithChild(t, bit, CutLastLeaf(child)) && Root(CutLastLeaf(t)) == Root(t)
    requires TreeLinked(mem[leaf := 0], CutLastLeaf(t), par, idx) == true && Word(mem[leaf := 0], wh) == Root(t)
    requires leaf == wh || InSome(Items(CutLastLeaf(t)), leaf)
    ensures CutOff(mem, t, par, wh, idx, leaf)
  {
  }

  lemma OneWordIn(mem: Memory, at: nat, items: set<(nat, nat)>, slot: nat)
    requires at == slot || InSome(items, at)
    ensures OnlyIn(mem, mem[at := 0], items, slot)
  {
  }

  /** The word that is cleared lies in a chunk that stays in the trie. */
  lemma CutWhere(gm: nat, frees: set<(nat, nat)>, t: Tree, h: nat, b: nat, bit: nat, wh: nat, leaf: nat)
    requires t.Node? && t.ring != [] && Trie(t, h, b) && bit < 2 && ChildOf(t, bit).Node? && (bit == 0 ==> t.right.Leaf?)
    requires Large(gm, frees, Items(t)) && (leaf == ChildAt(t.ring[0], bit) || InSome(Items(CutLastLeaf(ChildOf(t, bit))), leaf))
    ensures InSome(Items(CutLastLeaf(t)), leaf)
    ensures leaf == ChildAt(t.ring[0], bit) || InSome(Items(ChildOf(t, bit)), leaf)
  {
    CutFacts(t, h, b, bit, wh);
    var child := ChildOf(t, bit);
    hide Large, InSome, Trie, Items, RingItems, CutLastLeaf, LastLeaf, LeafSlot, ChildOf, WithChild;
    if leaf == ChildAt(t.ring[0], bit) {
      LargePart(gm, frees, Items(t), RingItems(t));
      InRingBody(gm, frees, t, 0, 32 + 8 * bit);
      SomeMore(RingItems(t), Items(CutLastLeaf(t)), leaf);
    } else {
      SomeMore(Items(CutLastLeaf(child)), Items(child), leaf);
      SomeMore(Items(CutLastLeaf(child)), Items(CutLastLeaf(t)), leaf);
    }
  }

  // ------------------------------------------------------------------ unlinking at the node

  /** What unlink_large_chunk writes for chunk x of node t, whose parent word is `par` and which the word at `wh` points to. */
  function UnlinkedAt(mem: Memory, t: Tree, x: nat, par: nat, wh: nat): Memory
    requires t.Node? && x in t.ring
  {
    if t.ring == [x] then
      if t.right.Node? then HeirTaken(mem, x, par, wh, LeafSlot(t.right, ChildAt(x, 1)))
      else if t.left.Node? then HeirTaken(mem, x, par, wh, LeafSlot(t.left, ChildAt(x, 0)))
      else mem[wh := 0]
    else if t.ring[0] == x then Handover(LinkOut(mem, x), x, par, wh, Bk(mem, x))
    else LinkOut(mem, x)
  }

  /** The leaf that the word at rp points to is cut off and takes the place of x. */
  function HeirTaken(mem: Memory, x: nat, par: nat, wh: nat, rp: nat): Memory {
    Handover(mem[rp := 0], x, par, wh, Word(mem, rp))
  }

  lemma UnlinkNodeLinks(mem: Memory, gm: nat, frees: set<(nat, nat)>, t: Tree, h: nat, b: nat, x: nat, par: nat, wh: nat, idx: nat)
    requires t.Node? && Trie(t, h, b) == true && x in t.ring && Large(gm, frees, Items(t)) == true
    requires TreeLinked(mem, t, par, idx) == true && Word(mem, wh) == Root(t) && !InSome(Items(t), wh)
    ensures var mem', t' := UnlinkedAt(mem, t, x, par, wh), Unlink(t, b, x, t.size);
            && TreeLinked(mem', t', par, idx) == true && Word(mem', wh) == Root(t') && OnlyIn(mem, mem', Items(t), wh) == true
  {
    hide Large, InSome, Trie, TreeLinked, Items, RingItems, LeafSlot, OnlyIn, Word, HeirTaken, Handover, LinkOut, Root, ReplaceNode, RingRemove;
    if t.ring == [x] {
      if t.right.Node? {
        LoneNode(mem, gm, frees, t, h, b, 1, x, par, wh, idx);
      } else if t.left.Node? {
        LoneNode(mem, gm, frees, t, h, b, 0, x, par, wh, idx);
      } else {
        LoneLeaf(mem, gm, frees, t, x, wh, par, idx);
      }
    } else if t.ring[0] == x {
      FirstOfRing(mem, gm, frees, t, h, b, par, wh, idx);
    } else {
      LaterInRing(mem, gm, frees, t, h, b, x, par, wh, idx);
    }
  }

  lemma LoneLeaf(mem: Memory, gm: nat, frees: set<(nat, nat)>, t: Tree, x: nat, wh: nat, par: nat, idx: nat)
    requires t.Node? && t.left.Leaf? && t.right.Leaf?
    ensures var mem', t' := mem[wh := 0], ReplaceNode(t);
            && TreeLinked(mem', t', par, idx) == true && Word(mem', wh) == Root(t') && OnlyIn(mem, mem', Items(t), wh) == true
  {
  }

  // -- a node alone in its ring, with children

  /** The subtries the heir from child `bit` takes over. */
  function NewLeft(t: Tree, bit: nat): Tree
    requires t.Node? && ChildOf(t, bit).Node?
  {
    if bit == 0 then CutLastLeaf(t.left) else t.left
  }

  function NewRight(t: Tree, bit: nat): Tree
    requires t.Node? && ChildOf(t, bit).Node?
  {
    if bit == 0 then t.right else CutLastLeaf(t.right)
  }

  lemma LoneParts(gm: nat, frees: set<(nat, nat)>, t: Tree, h: nat, b: nat, bit: nat, x: nat)
    requires t.Node? && Trie(t, h, b) && bit < 2 && ChildOf(t, bit).Node? && (bit == 0 ==> t.right.Leaf?)
    requires t.ring == [x] && Large(gm, frees, Items(t)) == true
    ensures var heir, left, right := LastLeaf(ChildOf(t, bit)), NewLeft(t, bit), NewRight(t, bit);
            && Parted(gm, frees, (x, t.size), heir, left, right) == true && {(x, t.size)} + Shares(heir, left, right) <= Items(t)
            && b > 0 && Trie(left, 2 * h, b - 1) == true && Trie(right, 2 * h + 1, b - 1) == true
            && ReplaceNode(t) == Node(heir.size, heir.ring, left, right)
  {
    var heir, left, right := LastLeaf(ChildOf(t, bit)), NewLeft(t, bit), NewRight(t, bit);
    LoneSets(t, h, b, bit, x);
    hide Trie, Items, RingItems, LastLeaf, CutLastLeaf, NewLeft, NewRight, ReplaceNode, Shares;
    LargePart(gm, frees, Items(t), {(x, t.size)} + RingItems(heir) + Items(left) + Items(right));
  }

  lemma LoneSets(t: Tree, h: nat, b: nat, bit: nat, x: nat)
    requires t.Node? && Trie(t, h, b) && bit < 2 && ChildOf(t, bit).Node? && (bit == 0 ==> t.right.Leaf?) && t.ring == [x]
    ensures var heir, left, right := LastLeaf(ChildOf(t, bit)), NewLeft(t, bit), NewRight(t, bit);
            && heir.Node? && heir.ring != []
            && {(x, t.size)} + Shares(heir, left, right) <= Items(t)
            && {(x, t.size)} + RingItems(heir) + Items(left) + Items(right) <= Items(t)
            && (x, t.size) !in RingItems(heir) && (x, t.size) !in Items(left) && (x, t.size) !in Items(right)
            && RingItems(heir) !! Items(left) && RingItems(heir) !! Items(right) && Items(left) !! Items(right)
            && b > 0 && Trie(left, 2 * h, b - 1) == true && Trie(right, 2 * h + 1, b - 1) == true
            && ReplaceNode(t) == Node(heir.size, heir.ring, left, right)
  {
    var child := ChildOf(t, bit);
    assert Trie(child, 2 * h + bit, b - 1);
    CutLastLeafKeeps(child, 2 * h + bit, b - 1);
    PartsDiffer(t, h, b);
    var heir := LastLeaf(child);
    assert RingItems(t) == {(x, t.size)} && Items(heir) == RingItems(heir);
  }

  lemma LoneNode(mem: Memory, gm: nat, frees: set<(nat, nat)>, t: Tree, h: nat, b: nat, bit: nat, x: nat, par: nat, wh: nat, idx: nat)
    requires t.Node? && Trie(t, h, b) == true && t.ring == [x] && Large(gm, frees, Items(t)) == true
    requires TreeLinked(mem, t, par, idx) == true && Word(mem, wh) == Root(t) && !InSome(Items(t), wh)
    requires bit < 2 && ChildOf(t, bit).Node? && (bit == 0 ==> t.right.Leaf?)
    ensures var mem', t' := HeirTaken(mem, x, par, wh, LeafSlot(ChildOf(t, bit), ChildAt(x, bit))), ReplaceNode(t);
            && TreeLinked(mem', t', par, idx) == true && Word(mem', wh) == Root(t') && OnlyIn(mem, mem', Items(t), wh) == true
  {
    hide Large, InSome, Trie, TreeLinked, Items, Parted, LeafSlot, OnlyIn, Word, Handover, Root, ReplaceNode, Shares, CutLastLeaf, LastLeaf, NewLeft, NewRight, NodeLinked;
    var heir, rp := LastLeaf(ChildOf(t, bit)), LeafSlot(ChildOf(t, bit), ChildAt(x, bit));
    LoneParts(gm, frees, t, h, b, bit, x);
    LoneCut(mem, gm, frees, t, h, b, bit, x, par, idx);
    HeirLinks(mem, mem[rp := 0], gm, frees, (x, t.size), heir, NewLeft(t, bit), NewRight(t, bit),
              Word(mem[rp := 0], heir.ring[0] + PARENT), par, wh, rp, idx, 2 * h, 2 * h + 1, b - 1, Items(t));
  }

  /** The heir in x's place, after a first step changed words of these chunks only, or the one at wh. */
  lemma HeirLinks(mem: Memory, mem1: Memory, gm: nat, frees: set<(nat, nat)>, x: (nat, nat), heir: Tree, left: Tree, right: Tree,
                  par0: nat, par: nat, wh: nat, at: nat, idx: nat, hl: nat, hr: nat, b: nat, items: set<(nat, nat)>)
    requires heir.Node? && heir.ring != []
    requires Parted(gm, frees, x, heir, left, right) == true && {x} + Shares(heir, left, right) <= items
    requires Trie(left, hl, b) == true && Trie(right, hr, b) == true
    requires !InSome(items, wh) && NodeLinked(mem1, heir.ring, par0, idx, 0, 0) == true
    requires TreeLinked(mem1, left, x.0, idx) == true && TreeLinked(mem1, right, x.0, idx) == true
    requires Word(mem1, ChildAt(x.0, 0)) == Root(left) && Word(mem1, ChildAt(x.0, 1)) == Root(right)
    requires OnlyIn(mem, mem1, items, at) == true && (at == wh || InSome(items, at))
    ensures var mem', t' := Handover(mem1, x.0, par, wh, heir.ring[0]), Node(heir.size, heir.ring, left, right);
            && TreeLinked(mem', t', par, idx) == true && Word(mem', wh) == Root(t') && OnlyIn(mem, mem', items, wh) == true
  {
    hide Large, InSome, Trie, TreeLinked, Items, Parted, OnlyIn, Word, Handover, Root, Shares, NodeLinked;
    NotInPart({x} + Shares(heir, left, right), items, wh);
    HandoverLinks(mem1, gm, frees, x, heir, left, right, par0, par, wh, idx, hl, b, hr, b);
    TwoChanges(mem, mem1, Handover(mem1, x.0, par, wh, heir.ring[0]), items, Shares(heir, left, right), wh, at);
  }

  lemma TwoChanges(mem: Memory, mem1: Memory, mem': Memory, items: set<(nat, nat)>, part: set<(nat, nat)>, wh: nat, at: nat)
    requires OnlyIn(mem, mem1, items, at) && OnlyIn(mem1, mem', part, wh) && part <= items && (at == wh || InSome(items, at))
    ensures OnlyIn(mem, mem', items, wh)
  {
    hide InSome;
    forall w: nat | Word(mem', w) != Word(mem, w) ensures w == wh || InSome(items, w) {
      if Word(mem', w) != Word(mem1, w) && w != wh { SomeMore(part, items, w); }
    }
  }

  /** The state after the heir was cut off. */
  ghost predicate HeirCut(mem: Memory, t: Tree, bit: nat, x: nat, idx: nat, rp: nat)
    requires t.Node? && ChildOf(t, bit).Node?
  {
    var mem1, heir, left, right := mem[rp := 0], LastLeaf(ChildOf(t, bit)), NewLeft(t, bit), NewRight(t, bit);
    && heir.Node? && heir.ring != [] && Word(mem, rp) == heir.ring[0]
    && NodeLinked(mem1, heir.ring, Word(mem1, heir.ring[0] + PARENT), idx, 0, 0)
    && TreeLinked(mem1, left, x, idx) && TreeLinked(mem1, right, x, idx)
    && Word(mem1, ChildAt(x, 0)) == Root(left) && Word(mem1, ChildAt(x, 1)) == Root(right)
  }

  lemma LoneCut(mem: Memory, gm: nat, frees: set<(nat, nat)>, t: Tree, h: nat, b: nat, bit: nat, x: nat, par: nat, idx: nat)
    requires t.Node? && Trie(t, h, b) == true && t.ring == [x] && Large(gm, frees, Items(t)) == true && TreeLinked(mem, t, par, idx) == true
    requires bit < 2 && ChildOf(t, bit).Node? && (bit == 0 ==> t.right.Leaf?)
    ensures var rp := LeafSlot(ChildOf(t, bit), ChildAt(x, bit));
            && HeirCut(mem, t, bit, x, idx, rp) == true && InSome(Items(t), rp) && OnlyIn(mem, mem[rp := 0], Items(t), rp) == true
  {
    var child, slot := ChildOf(t, bit), ChildAt(x, bit);
    var rp := LeafSlot(child, slot);
    hide Large, InSome, Trie, TreeLinked, Items, CutLastLeaf, LastLeaf, LeafSlot, CutOff, NodeLinked, Root, Word, OnlyIn, ChildAt, HeirCut, ChildOf;
    CutChild(mem, gm, frees, t, h, b, bit, par, idx);
    CutIsAt(mem, child, x, slot, idx, rp);
    CutElsewhere(mem, gm, frees, t, h, b, bit, x, par, idx, rp);
    HeirCutIs(mem, t, bit, x, idx, rp);
    OneWordIn(mem, rp, Items(t), rp);
  }

  lemma HeirCutIs(mem: Memory, t: Tree, bit: nat, x: nat, idx: nat, rp: nat)
    requires t.Node? && bit < 2 && ChildOf(t, bit).Node?
    requires CutOff(mem, ChildOf(t, bit), x, ChildAt(x, bit), idx, rp) == true
    requires TreeLinked(mem[rp := 0], ChildOf(t, 1 - bit), x, idx) == true
    requires Word(mem[rp := 0], ChildAt(x, 1 - bit)) == Root(ChildOf(t, 1 - bit))
    ensures HeirCut(mem, t, bit, x, idx, rp) == true
  {
    var child := ChildOf(t, bit);
    CutParts(mem, child, x, ChildAt(x, bit), idx, rp);
    CutHeir(mem, child, x, ChildAt(x, bit), idx, rp);
    hide CutOff, NodeLinked, TreeLinked, Root, Word, CutLastLeaf, LastLeaf, ChildAt;
  }

  lemma CutHeir(mem: Memory, t: Tree, par: nat, wh: nat, idx: nat, slot: nat)
    requires t.Node? && CutOff(mem, t, par, wh, idx, slot) == true
    ensures LastLeaf(t).Node? && LastLeaf(t).ring != [] && Word(mem, slot) == LastLeaf(t).ring[0]
    ensures NodeLinked(mem[slot := 0], LastLeaf(t).ring, Word(mem[slot := 0], LastLeaf(t).ring[0] + PARENT), idx, 0, 0)
  {
  }

  /** A node of one chunk, the subtrie on one side and that on the other lie apart. */
  lemma CutSides(gm: nat, frees: set<(nat, nat)>, t: Tree, h: nat, b: nat, bit: nat, x: nat)
    requires t.Node? && Trie(t, h, b) == true && t.ring == [x] && Large(gm, frees, Items(t)) == true
    requires bit < 2 && ChildOf(t, bit).Node? && (bit == 0 ==> t.right.Leaf?)
    ensures var child, other := Items(ChildOf(t, bit)), Items(ChildOf(t, 1 - bit));
            && Separated(gm, frees) && child <= frees && other <= frees && RingItems(t) <= frees
            && child !! other && child !! RingItems(t) && child <= Items(t) && RingItems(t) <= Items(t)
            && Items(CutLastLeaf(ChildOf(t, bit))) <= child && Large(gm, frees, other)
            && InSome(RingItems(t), ChildAt(x, bit)) && InSome(RingItems(t), ChildAt(x, 1 - bit))
            && !InSome(other, ChildAt(x, bit))
  {
    hide InSome, RingItems, Separated;
    assert Items(t) + {} == Items(t) && Items(ChildOf(t, bit)) + {} == Items(ChildOf(t, bit));
    AroundChild(gm, frees, t, h, b, bit, {});
    CutFacts(t, h, b, bit, 0);
  }

  lemma OtherChildLinked(mem: Memory, t: Tree, bit: nat, x: nat, par: nat, idx: nat)
    requires t.Node? && t.ring == [x] && TreeLinked(mem, t, par, idx) == true && bit < 2
    ensures TreeLinked(mem, ChildOf(t, bit), x, idx) && Word(mem, ChildAt(x, bit)) == Root(ChildOf(t, bit))
  {
  }

  /** The word that is cleared is the node's own for that child or lies below it. */
  lemma CutSpot(gm: nat, frees: set<(nat, nat)>, t: Tree, h: nat, b: nat, bit: nat, x: nat, rp: nat)
    requires t.Node? && Trie(t, h, b) == true && t.ring == [x] && Large(gm, frees, Items(t)) == true
    requires bit < 2 && ChildOf(t, bit).Node? && (bit == 0 ==> t.right.Leaf?)
    requires rp == ChildAt(x, bit) || InSome(Items(CutLastLeaf(ChildOf(t, bit))), rp)
    ensures InSome(Items(t), rp) && !InSome(Items(ChildOf(t, 1 - bit)), rp) && rp != ChildAt(x, 1 - bit)
  {
    var child, other := ChildOf(t, bit), ChildOf(t, 1 - bit);
    CutSides(gm, frees, t, h, b, bit, x);
    hide Large, InSome, Trie, Items, RingItems, CutLastLeaf, ChildOf, Separated;
    if rp == ChildAt(x, bit) {
      SomeMore(RingItems(t), Items(t), rp);
    } else {
      SomeMore(Items(CutLastLeaf(child)), Items(child), rp);
      SomeMore(Items(child), Items(t), rp);
      BodiesApart(gm, frees, Items(child), Items(other), rp);
      BodiesApart(gm, frees, Items(child), RingItems(t), rp);
    }
  }

  /** Cutting the heir off below one child leaves the other child as it is. */
  lemma CutElsewhere(mem: Memory, gm: nat, frees: set<(nat, nat)>, t: Tree, h: nat, b: nat, bit: nat, x: nat, par: nat, idx: nat, rp: nat)
    requires t.Node? && Trie(t, h, b) == true && t.ring == [x] && Large(gm, frees, Items(t)) == true && TreeLinked(mem, t, par, idx) == true
    requires bit < 2 && ChildOf(t, bit).Node? && (bit == 0 ==> t.right.Leaf?)
    requires rp == ChildAt(x, bit) || InSome(Items(CutLastLeaf(ChildOf(t, bit))), rp)
    ensures TreeLinked(mem[rp := 0], ChildOf(t, 1 - bit), x, idx) && Word(mem[rp := 0], ChildAt(x, 1 - bit)) == Root(ChildOf(t, 1 - bit))
    ensures InSome(Items(t), rp)
  {
    hide Large, InSome, Trie, TreeLinked, Items, RingItems, CutLastLeaf, ChildOf, ChildAt, Root, Separated;
    var other := ChildOf(t, 1 - bit);
    CutSides(gm, frees, t, h, b, bit, x);
    CutSpot(gm, frees, t, h, b, bit, x, rp);
    OtherChildLinked(mem, t, 1 - bit, x, par, idx);
    OneWordOut(mem, rp, Items(other));
    TreeStays(mem, mem[rp := 0], gm, frees, other, x, idx);
  }

  lemma OneWordOut(mem: Memory, at: nat, items: set<(nat, nat)>)
    requires !InSome(items, at)
    ensures SameIn(mem, mem[at := 0], items)
  {
  }

  // -- a node with more chunks in its ring

  /** Linking out touches two ring words of members of the ring. */
  lemma LinkOutTouches(mem: Memory, gm: nat, frees: set<(nat, nat)>, t: Tree, x: nat)
    requires t.Node? && Ring(mem, t.ring) == true && x in t.ring && Large(gm, frees, RingItems(t)) == true
    ensures forall w: nat {:trigger Word(LinkOut(mem, x), w)} :: Word(LinkOut(mem, x), w) != Word(mem, w) ==> InSome(RingItems(t), w)
    ensures forall a :: a in t.ring ==> SameFields(mem, LinkOut(mem, x), a)
  {
    var k :| 0 <= k < |t.ring| && t.ring[k] == x;
    OwnNeighbour(mem, t.ring, k);
    var f, b := Fd(mem, x), Bk(mem, x);
    var i :| 0 <= i < |t.ring| && t.ring[i] == f;
    var j :| 0 <= j < |t.ring| && t.ring[j] == b;
    InRingBody(gm, frees, t, i, 24);
    InRingBody(gm, frees, t, j, 16);
    forall a | a in t.ring ensures SameFields(mem, LinkOut(mem, x), a) {
      MembersFar(gm, frees, t, a, f);
      MembersFar(gm, frees, t, a, b);
    }
  }

  /** The tree words of a are the same. */
  predicate SameFields(mem: Memory, mem': Memory, a: nat) {
    && Word(mem', a + PARENT) == Word(mem, a + PARENT) && Word(mem', a + INDEX) == Word(mem, a + INDEX)
    && Word(mem', ChildAt(a, 0)) == Word(mem, ChildAt(a, 0)) && Word(mem', ChildAt(a, 1)) == Word(mem, ChildAt(a, 1))
  }

  lemma MembersFar(gm: nat, frees: set<(nat, nat)>, t: Tree, a: nat, c: nat)
    requires t.Node? && a in t.ring && c in t.ring && Large(gm, frees, RingItems(t)) == true
    ensures Far(a, c)
  {
    assert (a, t.size) in RingItems(t) && (c, t.size) in RingItems(t);
    assert ApartFrom((a, t.size), (c, t.size));
  }

  /** Both subtries and the word at wh are unaffected by it. */
  lemma LinkOutAround(mem: Memory, gm: nat, frees: set<(nat, nat)>, t: Tree, h: nat, b: nat, x: nat, par: nat, wh: nat, idx: nat)
    requires t.Node? && Trie(t, h, b) == true && x in t.ring && Large(gm, frees, Items(t)) == true
    requires TreeLinked(mem, t, par, idx) == true && !InSome(Items(t), wh)
    ensures TreeLinked(LinkOut(mem, x), t.left, t.ring[0], idx) && TreeLinked(LinkOut(mem, x), t.right, t.ring[0], idx)
    ensures Word(LinkOut(mem, x), wh) == Word(mem, wh) && OnlyIn(mem, LinkOut(mem, x), Items(t), wh)
  {
    PartsDiffer(t, h, b);
    LargePart(gm, frees, Items(t), RingItems(t));
    LinkOutTouches(mem, gm, frees, t, x);
    hide Large, InSome, Trie, RingItems, LinkOut, NodeLinked, Word, Ring;
    var mem' := LinkOut(mem, x);
    ApartStays(mem, mem', gm, frees, t.left, t.ring[0], idx, RingItems(t), Items(t));
    ApartStays(mem, mem', gm, frees, t.right, t.ring[0], idx, RingItems(t), Items(t));
    NotInPart(RingItems(t), Items(t), wh);
    forall w: nat | Word(mem', w) != Word(mem, w) ensures w == wh || InSome(Items(t), w) {
      SomeMore(RingItems(t), Items(t), w);
    }
  }

  /** The ring without x: every member but the first is a bare member, whatever became of the first. */
  lemma ShorterRing(mem: Memory, mem': Memory, ring: seq<nat>, ring': seq<nat>, par: nat, idx: nat, c0: nat, c1: nat)
    requires ring != [] && NodeLinked(mem, ring, par, idx, c0, c1) == true && Ring(mem', ring') == true
    requires forall a :: a in ring ==> SameFields(mem, mem', a)
    requires forall k {:trigger ring'[k]} :: 0 <= k < |ring'| ==> ring'[k] in ring && (k > 0 ==> ring'[k] != ring[0])
    ensures ring'[0] == ring[0] ==> NodeLinked(mem', ring', par, idx, c0, c1)
    ensures ring'[0] != ring[0] ==> NodeLinked(mem', ring', 0, idx, 0, 0)
  {
    assert ring' != [] && ring'[0] in ring;
    hide Ring;
    forall k | 0 <= k < |ring'|
      ensures Word(mem', ring'[k] + INDEX) == idx
      ensures ring'[k] != ring[0] ==> Word(mem', ring'[k] + PARENT) == 0 && Word(mem', ChildAt(ring'[k], 0)) == 0 && Word(mem', ChildAt(ring'[k], 1)) == 0
    {
      var i :| 0 <= i < |ring| && ring[i] == ring'[k];
      assert SameFields(mem, mem', ring[i]);
    }
    assert SameFields(mem, mem', ring[0]);
  }

  lemma LaterInRing(mem: Memory, gm: nat, frees: set<(nat, nat)>, t: Tree, h: nat, b: nat, x: nat, par: nat, wh: nat, idx: nat)
    requires t.Node? && Trie(t, h, b) == true && x in t.ring && x != t.ring[0] && Large(gm, frees, Items(t)) == true
    requires TreeLinked(mem, t, par, idx) == true && Word(mem, wh) == Root(t) && !InSome(Items(t), wh)
    ensures var mem', t' := LinkOut(mem, x), t.(ring := RingRemove(t.ring, x));
            && TreeLinked(mem', t', par, idx) == true && Word(mem', wh) == Root(t') && OnlyIn(mem, mem', Items(t), wh) == true
  {
    var ring, ring' := t.ring, RingRemove(t.ring, x);
    PartsDiffer(t, h, b);
    LargePart(gm, frees, Items(t), RingItems(t));
    LinkOutAround(mem, gm, frees, t, h, b, x, par, wh, idx);
    LaterRing(mem, gm, frees, t, x);
    LinkOutTouches(mem, gm, frees, t, x);
    hide Large, InSome, Trie, Items, RingItems, LinkOut, NodeLinked, Word, Ring, RingRemove, OnlyIn;
    ShorterRing(mem, LinkOut(mem, x), ring, ring', par, idx, Root(t.left), Root(t.right));
  }

  lemma LaterRing(mem: Memory, gm: nat, frees: set<(nat, nat)>, t: Tree, x: nat)
    requires t.Node? && Ring(mem, t.ring) == true && x in t.ring && x != t.ring[0] && Large(gm, frees, RingItems(t)) == true
    ensures var ring' := RingRemove(t.ring, x);
            && Ring(LinkOut(mem, x), ring') && ring'[0] == t.ring[0]
            && forall k {:trigger ring'[k]} :: 0 <= k < |ring'| ==> ring'[k] in t.ring && (k > 0 ==> ring'[k] != t.ring[0])
  {
    var k :| 0 <= k < |t.ring| && t.ring[k] == x;
    RingIsAllClear(gm, frees, t);
    assert NoRepeats(t.ring);
    LaterRemoved(t.ring, k);
    hide Ring, Large, RingItems, RingRemove, LinkOut, AllClear, NoRepeats;
    LinkOutAt(mem, t.ring, k);
  }

  /** A ring without one of its later chunks. */
  lemma LaterRemoved(ring: seq<nat>, k: nat)
    requires NoRepeats(ring) && 0 < k < |ring|
    ensures var ring' := RingRemove(ring, ring[k]);
            && ring' == ring[..k] + ring[k + 1..] && ring'[0] == ring[0]
            && forall i {:trigger ring'[i]} :: 0 <= i < |ring'| ==> ring'[i] in ring && (i > 0 ==> ring'[i] != ring[0])
  {
    assert [ring[0]] + ring[1..] == ring && ring[1..][k - 1] == ring[k];
    HeaderAndRest(ring[0], ring[1..], k - 1);
    RingRemoves(ring, ring[k]);
    var ring' := RingRemove(ring, ring[k]);
    assert ring' == ring[..k] + ring[k + 1..];
    hide RingRemove;
    forall i | 0 <= i < |ring'| ensures ring'[i] in ring && (i > 0 ==> ring'[i] != ring[0]) {
      assert ring'[i] in ring';
    }
  }

  lemma FirstOfRing(mem: Memory, gm: nat, frees: set<(nat, nat)>, t: Tree, h: nat, b: nat, par: nat, wh: nat, idx: nat)
    requires t.Node? && Trie(t, h, b) == true && |t.ring| > 1 && Large(gm, frees, Items(t)) == true
    requires TreeLinked(mem, t, par, idx) == true && Word(mem, wh) == Root(t) && !InSome(Items(t), wh)
    ensures var mem', t' := Handover(LinkOut(mem, t.ring[0]), t.ring[0], par, wh, Bk(mem, t.ring[0])), t.(ring := RingRemove(t.ring, t.ring[0]));
            && TreeLinked(mem', t', par, idx) == true && Word(mem', wh) == Root(t') && OnlyIn(mem, mem', Items(t), wh) == true
  {
    hide Large, InSome, Trie, TreeLinked, Items, Parted, OnlyIn, Word, Handover, LinkOut, Root, Shares, NodeLinked, RingRemove;
    var x := t.ring[0];
    var mem1, heir := LinkOut(mem, x), Node(t.size, RingRemove(t.ring, x), Leaf, Leaf);
    FirstParts(gm, frees, t, h, b);
    FirstLinkedOut(mem, gm, frees, t, h, b, par, wh, idx);
    HeirLinks(mem, mem1, gm, frees, (x, t.size), heir, t.left, t.right, 0, par, wh, wh, idx,
              2 * h, 2 * h + 1, if b > 0 then b - 1 else 0, Items(t));
  }

  lemma FirstParts(gm: nat, frees: set<(nat, nat)>, t: Tree, h: nat, b: nat)
    requires t.Node? && Trie(t, h, b) == true && |t.ring| > 1 && Large(gm, frees, Items(t)) == true
    ensures var x, heir := t.ring[0], Node(t.size, RingRemove(t.ring, t.ring[0]), Leaf, Leaf);
            && Parted(gm, frees, (x, t.size), heir, t.left, t.right) && {(x, t.size)} + Shares(heir, t.left, t.right) <= Items(t)
    ensures var c := if b > 0 then b - 1 else 0; Trie(t.left, 2 * h, c) && Trie(t.right, 2 * h + 1, c)
  {
    var x, heir := t.ring[0], Node(t.size, RingRemove(t.ring, t.ring[0]), Leaf, Leaf);
    RingRemoves(t.ring, x);
    PartsDiffer(t, h, b);
    assert RingItems(heir) <= RingItems(t) && (x, t.size) in RingItems(t) && (x, t.size) !in RingItems(heir);
    LargePart(gm, frees, Items(t), {(x, t.size)} + RingItems(heir) + Items(t.left) + Items(t.right));
  }

  lemma FirstLinkedOut(mem: Memory, gm: nat, frees: set<(nat, nat)>, t: Tree, h: nat, b: nat, par: nat, wh: nat, idx: nat)
    requires t.Node? && Trie(t, h, b) == true && |t.ring| > 1 && Large(gm, frees, Items(t)) == true
    requires TreeLinked(mem, t, par, idx) == true && Word(mem, wh) == Root(t) && !InSome(Items(t), wh)
    ensures var x, ring' := t.ring[0], RingRemove(t.ring, t.ring[0]);
            var mem1 := LinkOut(mem, x);
            && NodeLinked(mem1, ring', 0, idx, 0, 0) && ring'[0] == Bk(mem, x)
            && TreeLinked(mem1, t.left, x, idx) && TreeLinked(mem1, t.right, x, idx)
            && Word(mem1, ChildAt(x, 0)) == Root(t.left) && Word(mem1, ChildAt(x, 1)) == Root(t.right)
            && OnlyIn(mem, mem1, Items(t), wh)
  {
    var ring, ring', x := t.ring, RingRemove(t.ring, t.ring[0]), t.ring[0];
    PartsDiffer(t, h, b);
    LargePart(gm, frees, Items(t), RingItems(t));
    LinkOutAround(mem, gm, frees, t, h, b, x, par, wh, idx);
    LinkOutTouches(mem, gm, frees, t, x);
    RingIsAllClear(gm, frees, t);
    LinkOutFirst(mem, ring);
    FirstLeft(ring);
    assert SameFields(mem, LinkOut(mem, x), x);
    hide Large, InSome, Trie, Items, RingItems, LinkOut, Word, Ring, RingRemove, OnlyIn;
    ShorterRing(mem, LinkOut(mem, x), ring, ring', par, idx, Root(t.left), Root(t.right));
  }

  lemma FirstLeft(ring: seq<nat>)
    requires |ring| > 1 && NoRepeats(ring)
    ensures var ring' := RingRemove(ring, ring[0]);
            && ring' == [ring[|ring| - 1]] + ring[1..|ring| - 1]
            && forall k {:trigger ring'[k]} :: 0 <= k < |ring'| ==> ring'[k] in ring && ring'[k] != ring[0]
  {
  }

  // ------------------------------------------------------------------ anywhere in the trie

  /** A node, its parent word and the address of the word that points to it. */
  datatype Spot = Spot(node: Tree, par: nat, slot: nat)

  /** Where the chunks of size s are. */
  function SpotOf(t: Tree, b: nat, s: nat, par: nat, wh: nat): Spot
    decreases t
  {
    match t
    case Leaf => Spot(Leaf, par, wh)
    case Node(size, ring, left, right) =>
      if size == s || b == 0 then Spot(t, par, wh)
      else
        var bit := Shift(s, b - 1) % 2;
        SpotOf(ChildOf(t, bit), b - 1, s, Root(t), ChildAt(Root(t), bit))
  }

  function Unlinked(mem: Memory, spot: Spot, x: nat): Memory {
    if spot.node.Node? && x in spot.node.ring then UnlinkedAt(mem, spot.node, x, spot.par, spot.slot) else mem
  }

  /** One step down. */
  lemma UnlinkGoesDown(t: Tree, h: nat, b: nat, x: nat, s: nat, par: nat, wh: nat)
    requires t.Node? && t.size != s && Trie(t, h, b) == true && (x, s) in Items(t)
    ensures b > 0 && t.ring != [] && Shift(s, b - 1) % 2 < 2
    ensures var bit := Shift(s, b - 1) % 2; var child := ChildOf(t, bit);
            && (x, s) in Items(child) && child < t && Trie(child, 2 * h + bit, b - 1)
            && Unlink(t, b, x, s) == WithChild(t, bit, Unlink(child, b - 1, x, s))
            && SpotOf(t, b, s, par, wh) == SpotOf(child, b - 1, s, t.ring[0], ChildAt(t.ring[0], bit))
  {
    SideOfItem(t, h, b, (x, s));
  }

  /** What unlinking writes makes the words say what the trie without the chunk says. */
  lemma {:induction false} UnlinkLinks(mem: Memory, gm: nat, frees: set<(nat, nat)>, t: Tree, h: nat, b: nat, x: nat, s: nat, par: nat, wh: nat, idx: nat)
    requires Trie(t, h, b) == true && (x, s) in Items(t) && Large(gm, frees, Items(t)) == true
    requires TreeLinked(mem, t, par, idx) == true && Word(mem, wh) == Root(t) && !InSome(Items(t), wh)
    ensures var mem', t' := Unlinked(mem, SpotOf(t, b, s, par, wh), x), Unlink(t, b, x, s);
            && TreeLinked(mem', t', par, idx) == true && Word(mem', wh) == Root(t') && OnlyIn(mem, mem', Items(t), wh) == true
    decreases t, 1
  {
    if t.size == s {
      assert x in t.ring;
      hide InSome, OnlyIn, Large, Word, Trie, Shift, TreeLinked, UnlinkedAt, Items, Unlink;
      UnlinkNodeLinks(mem, gm, frees, t, h, b, x, par, wh, idx);
    } else {
      UnlinkGoesDown(t, h, b, x, s, par, wh);
      hide InSome, OnlyIn, Large, Word, Trie, Shift, TreeLinked, UnlinkedAt, Items, Unlink, SpotOf, Unlinked;
      UnlinkBelow(mem, gm, frees, t, h, b, Shift(s, b - 1) % 2, x, s, par, wh, idx);
    }
  }

  lemma {:induction false} UnlinkBelow(mem: Memory, gm: nat, frees: set<(nat, nat)>, t: Tree, h: nat, b: nat, bit: nat, x: nat, s: nat, par: nat, wh: nat, idx: nat)
    requires t.Node? && t.ring != [] && b > 0 && bit < 2 && Trie(t, h, b) == true && (x, s) in Items(ChildOf(t, bit)) && Large(gm, frees, Items(t)) == true
    requires TreeLinked(mem, t, par, idx) == true && !InSome(Items(t), wh)
    ensures var child := ChildOf(t, bit);
            var mem' := Unlinked(mem, SpotOf(child, b - 1, s, t.ring[0], ChildAt(t.ring[0], bit)), x);
            var t' := WithChild(t, bit, Unlink(child, b - 1, x, s));
            && TreeLinked(mem', t', par, idx) == true && Word(mem', wh) == Word(mem, wh) && OnlyIn(mem, mem', Items(t), wh) == true
    decreases t, 0
  {
    hide InSome, OnlyIn, Large, Word, Trie, Shift, TreeLinked, UnlinkedAt, Items, Unlink, SpotOf, Unlinked, WithChild, ChildOf, Root, ChildAt;
    var child, n := ChildOf(t, bit), t.ring[0];
    ChildAlone(gm, frees, t, h, b, bit, par, idx, mem);
    UnlinkLinks(mem, gm, frees, child, 2 * h + bit, b - 1, x, s, n, ChildAt(n, bit), idx);
    ChildReplacedAlone(mem, Unlinked(mem, SpotOf(child, b - 1, s, n, ChildAt(n, bit)), x), gm, frees, t, h, b, bit,
                       Unlink(child, b - 1, x, s), par, wh, idx);
  }

  lemma ChildReplacedAlone(mem: Memory, mem': Memory, gm: nat, frees: set<(nat, nat)>, t: Tree, h: nat, b: nat, bit: nat, child': Tree,
                           par: nat, wh: nat, idx: nat)
    requires t.Node? && t.ring != [] && Trie(t, h, b) == true && bit < 2 && Large(gm, frees, Items(t)) == true
    requires TreeLinked(mem, t, par, idx) == true && !InSome(Items(t), wh)
    requires TreeLinked(mem', child', t.ring[0], idx) == true && Word(mem', ChildAt(t.ring[0], bit)) == Root(child')
    requires OnlyIn(mem, mem', Items(ChildOf(t, bit)), ChildAt(t.ring[0], bit)) == true
    ensures TreeLinked(mem', WithChild(t, bit, child'), par, idx) == true
    ensures Word(mem', wh) == Word(mem, wh) && OnlyIn(mem, mem', Items(t), wh) == true
  {
    hide InSome, OnlyIn, Large, Word, Trie, TreeLinked, Items, WithChild, ChildOf, Root;
    assert Items(t) + {} == Items(t) && Items(ChildOf(t, bit)) + {} == Items(ChildOf(t, bit));
    ChildReplaced(mem, mem', gm, frees, t, h, b, bit, child', {}, par, wh, idx);
  }

  // ------------------------------------------------------------------ what the chunk's own words say

  /** The node is the trie's root, or one of two children with different roots. */
  ghost predicate SpotIs(mem: Memory, t: Tree, par: nat, wh: nat, spot: Spot) {
    || (spot.node == t && spot.par == par && spot.slot == wh)
    || (Root(spot.node) != Root(t)
        && !InSome(Items(spot.node), ChildAt(spot.par, 0))
        && (spot.slot == ChildAt(spot.par, 0) || (spot.slot == ChildAt(spot.par, 1) && Word(mem, ChildAt(spot.par, 0)) != Root(spot.node))))
  }

  /** A node with chunk x of size s in its ring, and the words that lead to it. */
  ghost predicate Spotted(mem: Memory, items: set<(nat, nat)>, spot: Spot, x: nat, s: nat, idx: nat, h: nat, b: nat) {
    && spot.node.Node? && spot.node.size == s && x in spot.node.ring && spot.par > 0
    && Trie(spot.node, h, b) && Items(spot.node) <= items
    && TreeLinked(mem, spot.node, spot.par, idx) && Word(mem, spot.slot) == Root(spot.node)
    && !InSome(Items(spot.node), spot.slot)
  }

  lemma {:induction false} SpotFacts(mem: Memory, gm: nat, frees: set<(nat, nat)>, t: Tree, h: nat, b: nat, x: nat, s: nat, par: nat, wh: nat, idx: nat)
    returns (h': nat, b': nat)
    requires Trie(t, h, b) == true && (x, s) in Items(t) && Large(gm, frees, Items(t)) == true && par > 0
    requires TreeLinked(mem, t, par, idx) == true && Word(mem, wh) == Root(t) && !InSome(Items(t), wh)
    ensures Spotted(mem, Items(t), SpotOf(t, b, s, par, wh), x, s, idx, h', b') == true
    ensures SpotIs(mem, t, par, wh, SpotOf(t, b, s, par, wh)) == true
    decreases t, 1
  {
    if t.size == s {
      h', b' := h, b;
    } else {
      UnlinkGoesDown(t, h, b, x, s, par, wh);
      hide Trie, TreeLinked, Large, SpotOf, Items, Shift, InSome, Word, SpotIs, Spotted;
      h', b' := SpotBelow(mem, gm, frees, t, h, b, Shift(s, b - 1) % 2, x, s, par, wh, idx);
    }
  }

  lemma {:induction false} SpotBelow(mem: Memory, gm: nat, frees: set<(nat, nat)>, t: Tree, h: nat, b: nat, bit: nat, x: nat, s: nat, par: nat, wh: nat, idx: nat)
    returns (h': nat, b': nat)
    requires t.Node? && t.ring != [] && b > 0 && bit < 2 && Trie(t, h, b) == true && (x, s) in Items(ChildOf(t, bit)) && Large(gm, frees, Items(t)) == true
    requires TreeLinked(mem, t, par, idx) == true
    ensures var spot := SpotOf(ChildOf(t, bit), b - 1, s, t.ring[0], ChildAt(t.ring[0], bit));
            Spotted(mem, Items(t), spot, x, s, idx, h', b') == true && SpotIs(mem, t, par, wh, spot) == true
    decreases t, 0
  {
    hide Trie, TreeLinked, Large, SpotOf, Items, InSome, Word, ChildOf, Spotted, SpotIs, Root, ChildAt;
    var child, n := ChildOf(t, bit), t.ring[0];
    RootItem(t, h, b);
    ChildAlone(gm, frees, t, h, b, bit, par, idx, mem);
    ItemAddress(gm, frees, Items(t), (n, t.size));
    h', b' := SpotFacts(mem, gm, frees, child, 2 * h + bit, b - 1, x, s, n, ChildAt(n, bit), idx);
    SpotAbove(mem, gm, frees, t, h, b, bit, SpotOf(child, b - 1, s, n, ChildAt(n, bit)), x, s, par, wh, idx, h', b');
  }

  lemma SpotAbove(mem: Memory, gm: nat, frees: set<(nat, nat)>, t: Tree, h: nat, b: nat, bit: nat, spot: Spot, x: nat, s: nat, par: nat, wh: nat, idx: nat, h': nat, b': nat)
    requires t.Node? && t.ring != [] && Trie(t, h, b) == true && bit < 2 && b > 0 && Large(gm, frees, Items(t)) == true && TreeLinked(mem, t, par, idx) == true
    requires Items(ChildOf(t, bit)) <= Items(t) && Spotted(mem, Items(ChildOf(t, bit)), spot, x, s, idx, h', b') == true
    requires SpotIs(mem, ChildOf(t, bit), t.ring[0], ChildAt(t.ring[0], bit), spot) == true
    ensures Spotted(mem, Items(t), spot, x, s, idx, h', b') == true && SpotIs(mem, t, par, wh, spot) == true
  {
    hide Trie, TreeLinked, Large, Items, Word, Root, InSome, ChildAt;
    RootsDiffer(mem, gm, frees, t, h, b, bit, par, idx, spot.node, h', b');
    AboveChild(gm, frees, t, h, b, bit);
  }

  /** The child words of a node are not in the bodies of what is below it. */
  lemma AboveChild(gm: nat, frees: set<(nat, nat)>, t: Tree, h: nat, b: nat, bit: nat)
    requires t.Node? && Trie(t, h, b) == true && bit < 2 && Large(gm, frees, Items(t)) == true
    ensures t.ring != [] && !InSome(Items(ChildOf(t, bit)), ChildAt(t.ring[0], 0))
  {
    assert Items(t) + {} == Items(t);
    AroundChild(gm, frees, t, h, b, bit, {});
    BodiesApart(gm, frees, RingItems(t), Items(ChildOf(t, bit)), ChildAt(t.ring[0], 0));
  }

  lemma ItemAddress(gm: nat, frees: set<(nat, nat)>, items: set<(nat, nat)>, x: (nat, nat))
    requires Large(gm, frees, items) == true && x in items
    ensures x.0 > 0
  {
    assert OutsideState(gm, x);
  }

  lemma AddressesDiffer(gm: nat, frees: set<(nat, nat)>, items: set<(nat, nat)>, x: (nat, nat), y: (nat, nat))
    requires Large(gm, frees, items) == true && x in items && y in items && x.1 != y.1
    ensures x.0 != y.0
  {
    assert ApartFrom(x, y);
  }

  /** A node below one child is not the node above and not the root of the other child. */
  lemma RootsDiffer(mem: Memory, gm: nat, frees: set<(nat, nat)>, t: Tree, h: nat, b: nat, bit: nat, par: nat, idx: nat, u: Tree, h': nat, b': nat)
    requires t.Node? && Trie(t, h, b) == true && bit < 2 && b > 0 && Large(gm, frees, Items(t)) == true && TreeLinked(mem, t, par, idx) == true
    requires u.Node? && Trie(u, h', b') == true && Items(u) <= Items(ChildOf(t, bit))
    ensures t.ring != [] && Root(u) != Root(t)
    ensures bit == 1 ==> Word(mem, ChildAt(t.ring[0], 0)) != Root(u)
  {
    RootItem(u, h', b');
    RootItem(t, h, b);
    HalvesDiffer(t, h, b);
    var v := (u.ring[0], u.size);
    assert v in Items(ChildOf(t, bit)) && v.1 != t.size;
    AddressesDiffer(gm, frees, Items(t), v, (t.ring[0], t.size));
    ItemAddress(gm, frees, Items(t), v);
    if bit == 1 && t.left.Node? {
      RootItem(t.left, 2 * h, b - 1);
      AddressesDiffer(gm, frees, Items(t), v, (t.left.ring[0], t.left.size));
    }
  }
}
