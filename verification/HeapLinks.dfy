/**
  The link words of the bins and the boundary tags of the chunks, side by side in one memory:
  writing tags leaves the links of the bins as they are, and writing links leaves the tags and the
  payload of every live block as they are.
*/
module HeapLinks {
  import opened HeapLayout
  import opened HeapWords
  import opened TreeBins
  import opened SmallBins
  import opened Rings
  import opened SmallLinks
  import opened TreeLinks
  import opened BinLinks

  /** The bins hold free chunks only, and their link words say what the bins say. */
  ghost predicate Linked(mem: Memory, gm: nat, small: seq<seq<nat>>, trees: seq<Tree>, frees: set<(nat, nat)>) {
    && |small| == BINS && |trees| == LAST_BIN + 1
    && SmallItems(small) <= frees && Large(gm, frees, AllItems(trees))
    && SmallLinked(mem, gm, small) && TreesLinked(mem, gm, trees)
  }

  /** malloc_state does not lie in the heap. */
  predicate StateOutside(gm: nat, base: nat, end: nat) {
    gm + STATE_BYTES <= base || end <= gm
  }

  lemma FreesSeparated(cm: Layout, base: nat, top: nat, gm: nat)
    requires LayoutOk(cm, base, top) && base > 0 && StateOutside(gm, base, top)
    ensures Separated(gm, Frees(cm))
  {
    hide LayoutOk, Aligned;
    forall x | x in Frees(cm) ensures OutsideState(gm, x) {
      FreeChunkAt(cm, base, top, x);
    }
    forall x, y | x in Frees(cm) && y in Frees(cm) ensures ApartFrom(x, y) {
      if x.0 != y.0 { BlocksApart(cm, base, top, x.0, y.0); }
    }
  }

  // ------------------------------------------------------------------ writes that are no link words

  /** No word of the bins' links has changed. */
  ghost predicate LinkWordsSame(mem: Memory, mem': Memory, gm: nat, items: set<(nat, nat)>) {
    forall w: nat {:trigger Word(mem', w)} :: gm <= w < gm + STATE_BYTES || InSome(items, w) ==> Word(mem', w) == Word(mem, w)
  }

  lemma TreesLinksStay(mem: Memory, mem': Memory, gm: nat, trees: seq<Tree>, frees: set<(nat, nat)>)
    requires |trees| == LAST_BIN + 1 && TreesLinked(mem, gm, trees) && Large(gm, frees, AllItems(trees))
    requires forall w: nat {:trigger Word(mem', w)} :: gm + 600 <= w < gm + STATE_BYTES || InSome(AllItems(trees), w) ==> Word(mem', w) == Word(mem, w)
    ensures TreesLinked(mem', gm, trees)
  {
    forall i | 0 <= i < |trees| ensures BinLinked(mem', gm, trees, i) {
      assert BinLinked(mem, gm, trees, i);
      forall x | x in Items(trees[i]) ensures x in AllItems(trees) {
        InSomeBin(trees, i, x);
      }
      hide AllItems, Items, Large, InSome, TreeLinked;
      LargePart(gm, frees, AllItems(trees), Items(trees[i]));
      forall w: nat | InSome(Items(trees[i]), w) ensures Word(mem', w) == Word(mem, w) {
        SomeMore(Items(trees[i]), AllItems(trees), w);
      }
      TreeStays(mem, mem', gm, frees, trees[i], TreeBinAt(gm, i), i);
    }
  }

  lemma LinkedStays(mem: Memory, mem': Memory, gm: nat, small: seq<seq<nat>>, trees: seq<Tree>, frees: set<(nat, nat)>, frees': set<(nat, nat)>)
    requires Linked(mem, gm, small, trees, frees) && SmallItems(small) + AllItems(trees) <= frees' && Separated(gm, frees')
    requires LinkWordsSame(mem, mem', gm, SmallItems(small) + AllItems(trees))
    ensures Linked(mem', gm, small, trees, frees')
  {
    hide SmallItems, AllItems, InSome, Separated, SmallLinked, TreesLinked;
    var all := SmallItems(small) + AllItems(trees);
    forall w: nat | InSome(SmallItems(small), w) || InSome(AllItems(trees), w) ensures Word(mem', w) == Word(mem, w) {
      if InSome(SmallItems(small), w) { SomeMore(SmallItems(small), all, w); } else { SomeMore(AllItems(trees), all, w); }
    }
    SmallLinksStay(mem, mem', gm, small, frees);
    TreesLinksStay(mem, mem', gm, trees, frees);
  }

  /** No tag lies in the body of a free chunk. */
  lemma TagNotInBody(cm: Layout, base: nat, top: nat, x: (nat, nat), w: nat)
    requires LayoutOk(cm, base, top) && x in Frees(cm) && InBody(x, w)
    ensures !IsTag(cm, top, w)
  {
    FreeChunkAt(cm, base, top, x);
    if w >= 8 { assert Apart(cm, x.0, w - 8) && Apart(cm, w - 8, x.0); }
    assert Apart(cm, x.0, w);
  }

  /** Tags lie in the heap. */
  lemma TagInHeap(cm: Layout, base: nat, top: nat, w: nat)
    requires LayoutOk(cm, base, top) && IsTag(cm, top, w)
    ensures base <= w < top + 16
  {
    ChunkAt(cm, base, top, w);
    if w >= 8 { ChunkAt(cm, base, top, w - 8); }
  }

  /** Writing tags leaves the links of the bins as they are. */
  lemma TagsKeepLinks(mem: Memory, mem': Memory, cm: Layout, base: nat, top: nat, gm: nat, small: seq<seq<nat>>, trees: seq<Tree>, frees: set<(nat, nat)>)
    requires Linked(mem, gm, small, trees, frees) == true && LayoutOk(cm, base, top) == true && base > 0 && Spares(mem, mem', cm, top) == true
    requires SmallItems(small) + AllItems(trees) <= Frees(cm) && StateOutside(gm, base, top + 16)
    ensures Linked(mem', gm, small, trees, Frees(cm)) == true
  {
    var all := SmallItems(small) + AllItems(trees);
    FreesSeparated(cm, base, top, gm);
    hide Linked, LayoutOk, SmallItems, AllItems, Frees, IsTag;
    forall w: nat | gm <= w < gm + STATE_BYTES || InSome(all, w) ensures Word(mem', w) == Word(mem, w) {
      assert SparesWord(mem, mem', cm, top, w);
      if IsTag(cm, top, w) {
        TagInHeap(cm, base, top, w);
        var x :| x in all && InBody(x, w);
        TagNotInBody(cm, base, top, x, w);
      }
    }
    LinkedStays(mem, mem', gm, small, trees, frees, Frees(cm));
  }

  /** So does storing to the payload of a live block. */
  lemma PayloadKeepsLinks(mem: Memory, cm: Layout, base: nat, top: nat, gm: nat, small: seq<seq<nat>>, trees: seq<Tree>, a: nat, w: nat, v: nat)
    requires Linked(mem, gm, small, trees, Frees(cm)) && LayoutOk(cm, base, top) && InPayload(cm, a, w)
    requires StateOutside(gm, base, top + 16)
    ensures Linked(mem[w := v], gm, small, trees, Frees(cm))
  {
    var all := SmallItems(small) + AllItems(trees);
    ChunkAt(cm, base, top, a);
    forall x | x in all ensures !InBody(x, w) {
      assert x in Frees(cm);
      BlocksApart(cm, base, top, a, x.0);
    }
    assert !InSome(all, w);
    hide LayoutOk, SmallItems, AllItems, InSome, Frees, SmallLinked, TreesLinked;
    LinkedStays(mem, mem[w := v], gm, small, trees, Frees(cm), Frees(cm));
  }

  /** And writing top's head and the foot behind top. */
  lemma TopKeepsLinks(mem: Memory, mem': Memory, cm: Layout, base: nat, top: nat, topsize: nat, end: nat, gm: nat, small: seq<seq<nat>>, trees: seq<Tree>)
    requires Linked(mem, gm, small, trees, Frees(cm)) && LayoutOk(cm, base, top)
    requires mem' == SetTop(mem, top, topsize)[top + topsize + 8 := end] && StateOutside(gm, base, top + topsize + 16)
    ensures Linked(mem', gm, small, trees, Frees(cm)) == true
  {
    var all := SmallItems(small) + AllItems(trees);
    forall w: nat | InSome(all, w) ensures w < top {
      var x :| x in all && InBody(x, w);
      FreeChunkAt(cm, base, top, x);
    }
    hide LayoutOk, SmallItems, AllItems, InSome, Frees, SmallLinked, TreesLinked;
    LinkedStays(mem, mem', gm, small, trees, Frees(cm), Frees(cm));
  }

  // ------------------------------------------------------------------ writes of link words

  /** Where link words are written, no tag and no payload changes. */
  ghost predicate OnlyLinks(mem: Memory, mem': Memory, gm: nat, frees: set<(nat, nat)>) {
    OnlyWithin(mem, mem', gm, gm + STATE_BYTES, frees)
  }

  lemma LinksKeepWord(mem: Memory, mem': Memory, cm: Layout, base: nat, top: nat, gm: nat, w: nat)
    requires LayoutOk(cm, base, top) && OnlyLinks(mem, mem', gm, Frees(cm)) && StateOutside(gm, base, top + 16)
    requires IsTag(cm, top, w) || exists a :: InPayload(cm, a, w)
    ensures Word(mem', w) == Word(mem, w)
  {
    if IsTag(cm, top, w) {
      TagInHeap(cm, base, top, w);
    } else {
      var a :| InPayload(cm, a, w);
      ChunkAt(cm, base, top, a);
    }
    forall x | x in Frees(cm) ensures !InBody(x, w) {
      if IsTag(cm, top, w) {
        if InBody(x, w) { TagNotInBody(cm, base, top, x, w); }
      } else {
        var a :| InPayload(cm, a, w);
        BlocksApart(cm, base, top, a, x.0);
      }
    }
  }

  lemma LinksKeepTags(mem: Memory, mem': Memory, cm: Layout, base: nat, top: nat, topsize: nat, gm: nat)
    requires LayoutOk(cm, base, top) && TagsOk(mem, cm, top, topsize) && OnlyLinks(mem, mem', gm, Frees(cm)) && StateOutside(gm, base, top + 16)
    ensures TagsOk(mem', cm, top, topsize) && Preserved(mem, mem', Blocks(cm))
    ensures forall n: nat {:trigger Word(mem', n + 8)} :: n == top || n in cm ==> Word(mem', n + 8) == Word(mem, n + 8)
  {
    hide LayoutOk, OnlyLinks, Frees, Word;
    forall n: nat | n == top || n in cm ensures Word(mem', n + 8) == Word(mem, n + 8) {
      LinksKeepWord(mem, mem', cm, base, top, gm, n + 8);
    }
    LinksKeepWord(mem, mem', cm, base, top, gm, top + 8);
    forall a: nat ensures TagOk(mem', cm, a) {
      TagAt(mem, cm, top, topsize, a);
      if a in cm && cm[a].pfree > 0 { LinksKeepWord(mem, mem', cm, base, top, gm, a); }
    }
    forall a: nat, w: nat | a in Blocks(cm) && a + 16 <= w < a + Blocks(cm)[a] + 8 && w % 8 == 0
      ensures Word(mem', w) == Word(mem, w)
    {
      assert InPayload(cm, a, w);
      LinksKeepWord(mem, mem', cm, base, top, gm, w);
    }
  }

  /** The heads of free chunks tell their sizes. */
  lemma FreeSizesRead(mem: Memory, cm: Layout, base: nat, top: nat, topsize: nat, items: set<(nat, nat)>)
    requires LayoutOk(cm, base, top) && TagsOk(mem, cm, top, topsize) && items <= Frees(cm)
    ensures SizesRead(mem, items)
  {
    hide LayoutOk, TagsOk, ChunkSize;
    forall y | y in items ensures ChunkSize(Word(mem, y.0 + 8)) == y.1 {
      FreeChunkAt(cm, base, top, y);
      ChunkAt(cm, base, top, y.0);
      TagAt(mem, cm, top, topsize, y.0);
      HeadFields(y.1, false, cm[y.0].pfree == 0);
    }
  }

  // -- one kind of bins changes, the other stays

  lemma SmallChangeKeepsTrees(mem: Memory, mem': Memory, gm: nat, frees: set<(nat, nat)>, trees: seq<Tree>, touched: set<(nat, nat)>)
    requires |trees| == LAST_BIN + 1 && TreesLinked(mem, gm, trees) && Large(gm, frees, AllItems(trees))
    requires OnlyWithin(mem, mem', gm + 72, gm + 600, touched) && touched <= frees && touched !! AllItems(trees)
    ensures TreesLinked(mem', gm, trees)
  {
    assert Separated(gm, frees) && AllItems(trees) <= frees;
    hide AllItems, InSome, Large, TreesLinked, Separated;
    forall w: nat | gm + 600 <= w < gm + STATE_BYTES || InSome(AllItems(trees), w) ensures Word(mem', w) == Word(mem, w) {
      if InSome(AllItems(trees), w) {
        BodiesApart(gm, frees, touched, AllItems(trees), w);
        if gm <= w < gm + STATE_BYTES { StateNotInBodies(gm, frees, AllItems(trees), w); }
      } else {
        StateNotInBodies(gm, frees, touched, w);
      }
    }
    TreesLinksStay(mem, mem', gm, trees, frees);
  }

  lemma TreeChangeKeepsSmall(mem: Memory, mem': Memory, gm: nat, frees: set<(nat, nat)>, small: seq<seq<nat>>, touched: set<(nat, nat)>)
    requires |small| == BINS && SmallLinked(mem, gm, small) && Separated(gm, frees) && SmallItems(small) <= frees
    requires OnlyWithin(mem, mem', gm + 600, gm + STATE_BYTES, touched) && touched <= frees && touched !! SmallItems(small)
    ensures SmallLinked(mem', gm, small)
  {
    hide SmallItems, InSome, SmallLinked, Separated;
    forall w: nat | gm + 72 <= w < gm + 600 || InSome(SmallItems(small), w) ensures Word(mem', w) == Word(mem, w) {
      if InSome(SmallItems(small), w) {
        BodiesApart(gm, frees, touched, SmallItems(small), w);
        if gm <= w < gm + STATE_BYTES { StateNotInBodies(gm, frees, SmallItems(small), w); }
      } else {
        StateNotInBodies(gm, frees, touched, w);
      }
    }
    SmallLinksStay(mem, mem', gm, small, frees);
  }

  lemma WithinIsOnlyLinks(mem: Memory, mem': Memory, gm: nat, lo: nat, hi: nat, touched: set<(nat, nat)>, frees: set<(nat, nat)>)
    requires OnlyWithin(mem, mem', lo, hi, touched) && touched <= frees && gm <= lo && hi <= gm + STATE_BYTES
    ensures OnlyLinks(mem, mem', gm, frees)
  {
    hide InSome;
    forall w: nat | Word(mem', w) != Word(mem, w) ensures gm <= w < gm + STATE_BYTES || InSome(frees, w) {
      if InSome(touched, w) { SomeMore(touched, frees, w); }
    }
  }

  lemma SmallChanged(mem: Memory, mem': Memory, gm: nat, small: seq<seq<nat>>, small': seq<seq<nat>>, trees: seq<Tree>, frees: set<(nat, nat)>, touched: set<(nat, nat)>)
    requires Linked(mem, gm, small, trees, frees) && SmallLinked(mem', gm, small') && |small'| == BINS && SmallItems(small') <= frees
    requires OnlyWithin(mem, mem', gm + 72, gm + 600, touched) && touched <= frees && touched !! AllItems(trees)
    ensures Linked(mem', gm, small', trees, frees) && OnlyLinks(mem, mem', gm, frees)
  {
    hide SmallItems, AllItems, InSome, SmallLinked, TreesLinked, Large, OnlyWithin, OnlyLinks;
    SmallChangeKeepsTrees(mem, mem', gm, frees, trees, touched);
    WithinIsOnlyLinks(mem, mem', gm, gm + 72, gm + 600, touched, frees);
  }

  lemma TreesChanged(mem: Memory, mem': Memory, gm: nat, small: seq<seq<nat>>, trees: seq<Tree>, trees': seq<Tree>, frees: set<(nat, nat)>, touched: set<(nat, nat)>)
    requires Linked(mem, gm, small, trees, frees) && TreesLinked(mem', gm, trees') && |trees'| == LAST_BIN + 1 && Large(gm, frees, AllItems(trees'))
    requires OnlyWithin(mem, mem', gm + 600, gm + STATE_BYTES, touched) && touched <= frees && touched !! SmallItems(small)
    ensures Linked(mem', gm, small, trees', frees) && OnlyLinks(mem, mem', gm, frees)
  {
    assert Separated(gm, frees);
    hide SmallItems, AllItems, InSome, SmallLinked, TreesLinked, Large, OnlyWithin, OnlyLinks, Separated;
    TreeChangeKeepsSmall(mem, mem', gm, frees, small, touched);
    WithinIsOnlyLinks(mem, mem', gm, gm + 600, gm + STATE_BYTES, touched, frees);
  }
}
