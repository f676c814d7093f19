/**
  The boundary tags of src/malloc.c: the words in which the layout is recorded.

  The head word of the chunk at a is at a + 8: its size, plus 2 if the chunk is in use (cinuse),
  plus 1 if the chunk before it is in use (pinuse).  The word at a itself is prev_foot: the size
  of the chunk before it, if that one is free.  A used chunk's payload runs from a + 16 up to the
  head of the next chunk; it includes the next chunk's prev_foot word.
*/
module HeapWords {
  import opened Arith
  import opened HeapLayout

  /** The words of the heap, by byte address; fresh memory reads as 0. */
  type Memory = map<nat, nat>

  function Word(mem: Memory, w: nat): nat {
    if w in mem then mem[w] else 0
  }

  function Bit(b: bool): nat {
    if b then 1 else 0
  }

  function Head(size: nat, used: bool, pinuse: bool): nat {
    size + 2 * Bit(used) + Bit(pinuse)
  }

  function ChunkSize(head: nat): nat {
    head - head % 8
  }

  predicate CInuse(head: nat) {
    head / 2 % 2 == 1
  }

  predicate PInuse(head: nat) {
    head % 2 == 1
  }

  function SetPInuse(head: nat): nat {
    head - head % 2 + 1
  }

  function ClearPInuse(head: nat): nat {
    head - head % 2
  }

  /** What is stored in a head word can be read back from it. */
  lemma HeadFields(size: nat, used: bool, pinuse: bool)
    requires Aligned(size)
    ensures ChunkSize(Head(size, used, pinuse)) == size
    ensures CInuse(Head(size, used, pinuse)) == used
    ensures PInuse(Head(size, used, pinuse)) == pinuse
    ensures SetPInuse(Head(size, used, pinuse)) == Head(size, used, true)
    ensures ClearPInuse(Head(size, used, pinuse)) == Head(size, used, false)
  {
    var q, u, b := size / 16, Bit(used), Bit(pinuse);
    assert size == 16 * q;
    FlagBits(q, u, b);
    FlagBits(q, u, 1);
  }

  lemma FlagBits(q: nat, u: nat, b: nat)
    requires u <= 1 && b <= 1
    ensures (16 * q + 2 * u + b) % 8 == 2 * u + b
    ensures (16 * q + 2 * u + b) % 2 == b && (16 * q + 2 * u + b) / 2 % 2 == u
  {
    var h := 16 * q + 2 * u + b;
    DivModUnique(h, 8, 2 * q, 2 * u + b);
    DivModUnique(h, 2, 8 * q + u, b);
    DivModUnique(8 * q + u, 2, 4 * q, u);
  }

  // ------------------------------------------------------------------ the tag macros

  function SetInuseAndPinuse(mem: Memory, p: nat, s: nat): Memory {
    mem[p + 8 := Head(s, true, true)][p + s + 8 := SetPInuse(Word(mem, p + s + 8))]
  }

  function SetSizeAndPinuseOfInuse(mem: Memory, p: nat, s: nat): Memory {
    mem[p + 8 := Head(s, true, true)]
  }

  function SetSizeAndPinuseOfFree(mem: Memory, p: nat, s: nat): Memory {
    mem[p + 8 := Head(s, false, true)][p + s := s]
  }

  function SetFreeWithPinuse(mem: Memory, p: nat, s: nat, n: nat): Memory {
    SetSizeAndPinuseOfFree(mem[n + 8 := ClearPInuse(Word(mem, n + 8))], p, s)
  }

  function SetInuse(mem: Memory, p: nat, s: nat): Memory {
    var m := mem[p + 8 := Head(s, true, PInuse(Word(mem, p + 8)))];
    m[p + s + 8 := SetPInuse(Word(m, p + s + 8))]
  }

  function SetTop(mem: Memory, p: nat, s: nat): Memory {
    mem[p + 8 := Head(s, false, true)]
  }

  /** Heads and prev_foots of aligned addresses do not overlap. */
  lemma WriteHead(mem: Memory, p: nat, v: nat, b: nat)
    requires Aligned(p) && Aligned(b)
    ensures Word(mem[p + 8 := v], b + 8) == if b == p then v else Word(mem, b + 8)
    ensures Word(mem[p + 8 := v], b) == Word(mem, b)
  {
  }

  lemma WriteFoot(mem: Memory, p: nat, v: nat, b: nat)
    requires Aligned(p) && Aligned(b)
    ensures Word(mem[p := v], b) == if b == p then v else Word(mem, b)
    ensures Word(mem[p := v], b + 8) == Word(mem, b + 8)
  {
  }

  lemma SetInuseAndPinuseAt(mem: Memory, p: nat, s: nat, b: nat)
    requires Aligned(p) && Aligned(s) && s > 0 && Aligned(b)
    ensures Word(SetInuseAndPinuse(mem, p, s), b + 8) ==
            if b == p then Head(s, true, true) else if b == p + s then SetPInuse(Word(mem, b + 8)) else Word(mem, b + 8)
    ensures Word(SetInuseAndPinuse(mem, p, s), b) == Word(mem, b)
  {
    AlignedSum(p, s);
    WriteHead(mem, p, Head(s, true, true), b);
    WriteHead(mem[p + 8 := Head(s, true, true)], p + s, SetPInuse(Word(mem, p + s + 8)), b);
  }

  lemma SetSizeAndPinuseOfFreeAt(mem: Memory, p: nat, s: nat, b: nat)
    requires Aligned(p) && Aligned(s) && s > 0 && Aligned(b)
    ensures Word(SetSizeAndPinuseOfFree(mem, p, s), b + 8) == if b == p then Head(s, false, true) else Word(mem, b + 8)
    ensures Word(SetSizeAndPinuseOfFree(mem, p, s), b) == if b == p + s then s else Word(mem, b)
  {
    AlignedSum(p, s);
    WriteHead(mem, p, Head(s, false, true), b);
    WriteFoot(mem[p + 8 := Head(s, false, true)], p + s, s, b);
  }

  lemma SetFreeWithPinuseAt(mem: Memory, p: nat, s: nat, n: nat, b: nat)
    requires Aligned(p) && Aligned(s) && s > 0 && Aligned(n) && n != p && Aligned(b)
    ensures Word(SetFreeWithPinuse(mem, p, s, n), b + 8) ==
            if b == p then Head(s, false, true) else if b == n then ClearPInuse(Word(mem, b + 8)) else Word(mem, b + 8)
    ensures Word(SetFreeWithPinuse(mem, p, s, n), b) == if b == p + s then s else Word(mem, b)
  {
    WriteHead(mem, n, ClearPInuse(Word(mem, n + 8)), b);
    SetSizeAndPinuseOfFreeAt(mem[n + 8 := ClearPInuse(Word(mem, n + 8))], p, s, b);
  }

  lemma SetInuseAt(mem: Memory, p: nat, s: nat, b: nat)
    requires Aligned(p) && Aligned(s) && s > 0 && Aligned(b)
    ensures Word(SetInuse(mem, p, s), b + 8) ==
            if b == p then Head(s, true, PInuse(Word(mem, b + 8)))
            else if b == p + s then SetPInuse(Word(mem, b + 8)) else Word(mem, b + 8)
    ensures Word(SetInuse(mem, p, s), b) == Word(mem, b)
  {
    AlignedSum(p, s);
    var v := Head(s, true, PInuse(Word(mem, p + 8)));
    var m := mem[p + 8 := v];
    WriteHead(mem, p, v, b);
    WriteHead(mem, p, v, p + s);
    WriteHead(m, p + s, SetPInuse(Word(m, p + s + 8)), b);
  }

  lemma SetTopAt(mem: Memory, p: nat, s: nat, b: nat)
    requires Aligned(p) && Aligned(b)
    ensures Word(SetTop(mem, p, s), b + 8) == if b == p then Head(s, false, true) else Word(mem, b + 8)
    ensures Word(SetTop(mem, p, s), b) == Word(mem, b)
  {
    WriteHead(mem, p, Head(s, false, true), b);
  }

  lemma SetSizeAndPinuseOfInuseAt(mem: Memory, p: nat, s: nat, b: nat)
    requires Aligned(p) && Aligned(b)
    ensures Word(SetSizeAndPinuseOfInuse(mem, p, s), b + 8) == if b == p then Head(s, true, true) else Word(mem, b + 8)
    ensures Word(SetSizeAndPinuseOfInuse(mem, p, s), b) == Word(mem, b)
  {
    WriteHead(mem, p, Head(s, true, true), b);
  }

  // ------------------------------------------------------------------ the words agree with the layout

  ghost predicate TagOk(mem: Memory, cm: Layout, a: nat) {
    a in cm ==>
      && Word(mem, a + 8) == Head(cm[a].size, cm[a].used, cm[a].pfree == 0)
      && (cm[a].pfree > 0 ==> Word(mem, a) == cm[a].pfree)
  }

  ghost predicate TagsOk(mem: Memory, cm: Layout, top: nat, topsize: nat) {
    && (forall a: nat {:trigger TagOk(mem, cm, a)} :: TagOk(mem, cm, a))
    && Word(mem, top + 8) == Head(topsize, false, true)
  }

  lemma TagAt(mem: Memory, cm: Layout, top: nat, topsize: nat, a: nat)
    requires TagsOk(mem, cm, top, topsize)
    ensures TagOk(mem, cm, a)
  {
  }

  /** w is a head word, or the prev_foot of a chunk after a free one. */
  predicate IsTag(cm: Layout, top: nat, w: nat) {
    w == top + 8 || (w >= 8 && w - 8 in cm) || (w in cm && cm[w].pfree > 0)
  }

  /** Word w changed only if it is a tag of the new layout. */
  ghost predicate SparesWord(mem: Memory, mem': Memory, cm: Layout, top: nat, w: nat) {
    Word(mem', w) != Word(mem, w) ==> IsTag(cm, top, w)
  }

  ghost predicate Spares(mem: Memory, mem': Memory, cm: Layout, top: nat) {
    forall w: nat {:trigger SparesWord(mem, mem', cm, top, w)} :: SparesWord(mem, mem', cm, top, w)
  }

  predicate InPayload(cm: Layout, a: nat, w: nat) {
    a in cm && cm[a].used && a + 16 <= w < a + cm[a].size + 8
  }

  /** Writing tags never touches the payload of a chunk that is in use. */
  lemma TagsAreNotPayload(mem: Memory, mem': Memory, cm: Layout, base: nat, top: nat, a: nat, w: nat)
    requires LayoutOk(cm, base, top) && Spares(mem, mem', cm, top)
    requires InPayload(cm, a, w) && w % 8 == 0
    ensures Word(mem', w) == Word(mem, w)
  {
    hide LayoutOk, InPayload, IsTag;
    PayloadWordIsNotTag(cm, base, top, a, w);
    assert SparesWord(mem, mem', cm, top, w);
  }

  /** Nothing but these words changed. */
  ghost predicate OnlyAt(mem: Memory, mem': Memory, ws: set<nat>) {
    forall w: nat :: w !in ws ==> Word(mem', w) == Word(mem, w)
  }

  lemma OnlyTags(mem: Memory, mem': Memory, cm: Layout, top: nat, ws: set<nat>)
    requires OnlyAt(mem, mem', ws)
    requires forall w :: w in ws ==> IsTag(cm, top, w)
    ensures Spares(mem, mem', cm, top)
  {
    forall w: nat ensures SparesWord(mem, mem', cm, top, w) {
      assert w !in ws ==> Word(mem', w) == Word(mem, w);
    }
  }

  // ------------------------------------------------------------------ malloc

  /** A free chunk handed out whole: set_inuse_and_pinuse. */
  lemma TakeTags(mem: Memory, cm: Layout, base: nat, top: nat, topsize: nat, a: nat)
    requires LayoutOk(cm, base, top) && TagsOk(mem, cm, top, topsize) && a in cm && !cm[a].used
    ensures var mem', cm' := SetInuseAndPinuse(mem, a, cm[a].size), Take(cm, a);
            TagsOk(mem', cm', top, topsize) && Spares(mem, mem', cm', top)
  {
    hide SetPInuse, SetInuseAndPinuse, Aligned, Head, Word, OnlyAt, Spares;
    var s, n := cm[a].size, a + cm[a].size;
    ChunkAt(cm, base, top, a);
    ChunkAt(cm, base, top, n);
    TagAt(mem, cm, top, topsize, n);
    ChunkAt(cm, base, top, top);
    HeadFields(cm[n].size, cm[n].used, false);
    var mem', cm' := SetInuseAndPinuse(mem, a, s), Take(cm, a);
    TakeSpares(mem, cm, base, top, a);
    SetInuseAndPinuseAt(mem, a, s, top);
    forall b: nat ensures TagOk(mem', cm', b) {
      ChunkAt(cm, base, top, b);
      if b in cm {
        TagAt(mem, cm, top, topsize, b);
        SetInuseAndPinuseAt(mem, a, s, b);
      }
    }
  }

  lemma TakeSpares(mem: Memory, cm: Layout, base: nat, top: nat, a: nat)
    requires LayoutOk(cm, base, top) && a in cm && !cm[a].used
    ensures Spares(mem, SetInuseAndPinuse(mem, a, cm[a].size), Take(cm, a), top)
  {
    hide LayoutOk, Aligned, Spares, SetPInuse, Head;
    ChunkAt(cm, base, top, a);
    OnlyTags(mem, SetInuseAndPinuse(mem, a, cm[a].size), Take(cm, a), top, {a + 8, a + cm[a].size + 8});
  }

  /** A free chunk split: set_size_and_pinuse_of_inuse_chunk, then ..._of_free_chunk for the rest. */
  lemma SplitFreeTags(mem: Memory, cm: Layout, base: nat, top: nat, topsize: nat, a: nat, nb: nat)
    requires LayoutOk(cm, base, top) && TagsOk(mem, cm, top, topsize) && a in cm && !cm[a].used
    requires Aligned(nb) && nb >= MIN_CHUNK && nb + MIN_CHUNK <= cm[a].size
    ensures var mem' := SetSizeAndPinuseOfFree(SetSizeAndPinuseOfInuse(mem, a, nb), a + nb, cm[a].size - nb);
            var cm' := SplitFree(cm, a, nb);
            TagsOk(mem', cm', top, topsize) && Spares(mem, mem', cm', top)
  {
    var n, r, rs := a + cm[a].size, a + nb, cm[a].size - nb;
    ChunkAt(cm, base, top, a);
    ChunkAt(cm, base, top, top);
    AlignedSum(a, nb);
    AlignedSum(cm[a].size, nb);
    assert Apart(cm, a, r);
    var mem1 := SetSizeAndPinuseOfInuse(mem, a, nb);
    var mem', cm' := SetSizeAndPinuseOfFree(mem1, r, rs), SplitFree(cm, a, nb);
    OnlyTags(mem, mem', cm', top, {a + 8, r + 8, n});
    SetSizeAndPinuseOfInuseAt(mem, a, nb, top);
    SetSizeAndPinuseOfFreeAt(mem1, r, rs, top);
    hide SetSizeAndPinuseOfFree, SetSizeAndPinuseOfInuse, Aligned, Head, Word, OnlyAt;
    forall b: nat ensures TagOk(mem', cm', b) {
      ChunkAt(cm, base, top, b);
      if b in cm || b == r {
        TagAt(mem, cm, top, topsize, b);
        SetSizeAndPinuseOfInuseAt(mem, a, nb, b);
        SetSizeAndPinuseOfFreeAt(mem1, r, rs, b);
      }
    }
  }

  /** Top split: the new top's head first, then the chunk's. */
  lemma CarveTopTags(mem: Memory, cm: Layout, base: nat, top: nat, topsize: nat, nb: nat)
    requires LayoutOk(cm, base, top) && TagsOk(mem, cm, top, topsize)
    requires Aligned(nb) && MIN_CHUNK <= nb < topsize
    ensures var mem' := SetSizeAndPinuseOfInuse(SetTop(mem, top + nb, topsize - nb), top, nb);
            var cm' := CarveTop(cm, top, nb);
            TagsOk(mem', cm', top + nb, topsize - nb) && Spares(mem, mem', cm', top + nb)
  {
    var r, rs := top + nb, topsize - nb;
    AlignedSum(top, nb);
    var mem1 := SetTop(mem, r, rs);
    var mem', cm' := SetSizeAndPinuseOfInuse(mem1, top, nb), CarveTop(cm, top, nb);
    OnlyTags(mem, mem', cm', r, {r + 8, top + 8});
    SetTopAt(mem, r, rs, r);
    SetSizeAndPinuseOfInuseAt(mem1, top, nb, r);
    hide SetTop, SetSizeAndPinuseOfInuse, Aligned, Head, Word, OnlyAt;
    forall b: nat ensures TagOk(mem', cm', b) {
      ChunkAt(cm, base, top, b);
      if b in cm || b == top {
        TagAt(mem, cm, top, topsize, b);
        SetTopAt(mem, r, rs, b);
        SetSizeAndPinuseOfInuseAt(mem1, top, nb, b);
      }
    }
  }

  // ------------------------------------------------------------------ free

  /** What free reads about the chunk before a. */
  lemma PrevTags(mem: Memory, cm: Layout, base: nat, top: nat, topsize: nat, a: nat)
    requires LayoutOk(cm, base, top) && TagsOk(mem, cm, top, topsize) && a in cm && cm[a].used
    ensures cm[a].pfree <= a && (cm[a].pfree > 0 ==> a - cm[a].pfree in cm && Word(mem, a) == cm[a].pfree)
    ensures Word(mem, a + 8) == Head(cm[a].size, true, cm[a].pfree == 0)
    ensures Aligned(a - cm[a].pfree) && Aligned(cm[a].pfree) && Aligned(cm[a].size) && Aligned(a)
    ensures Aligned(cm[a].pfree + cm[a].size) && cm[a].size >= MIN_CHUNK
  {
    ChunkAt(cm, base, top, a);
    ChunkAt(cm, base, top, a - cm[a].pfree);
    TagAt(mem, cm, top, topsize, a);
    AlignedSum(cm[a].pfree, cm[a].size);
  }

  lemma FreePlainSpares(mem: Memory, cm: Layout, base: nat, top: nat, a: nat)
    requires LayoutOk(cm, base, top) && a in cm && cm[a].used
    requires a + cm[a].size in cm && cm[a + cm[a].size].used
    ensures cm[a].pfree <= a && (cm[a].pfree > 0 ==> a - cm[a].pfree in cm)
    ensures var mem' := SetFreeWithPinuse(mem, a - cm[a].pfree, cm[a].pfree + cm[a].size, a + cm[a].size);
            Spares(mem, mem', FreePlain(cm, a), top)
  {
    FreePlainShape(cm, base, top, a);
    ChunkAt(cm, base, top, a);
    hide FreePlain, LayoutOk, Aligned, Head, ClearPInuse, Spares;
    var p, ps, n := a - cm[a].pfree, cm[a].pfree + cm[a].size, a + cm[a].size;
    OnlyTags(mem, SetFreeWithPinuse(mem, p, ps, n), FreePlain(cm, a), top, {p + 8, n + 8, n});
  }

  /** The next chunk is in use: set_free_with_pinuse. */
  lemma FreePlainTags(mem: Memory, cm: Layout, base: nat, top: nat, topsize: nat, a: nat)
    requires LayoutOk(cm, base, top) && TagsOk(mem, cm, top, topsize) && a in cm && cm[a].used
    requires a + cm[a].size in cm && cm[a + cm[a].size].used
    ensures cm[a].pfree <= a && (cm[a].pfree > 0 ==> a - cm[a].pfree in cm)
    ensures var mem' := SetFreeWithPinuse(mem, a - cm[a].pfree, cm[a].pfree + cm[a].size, a + cm[a].size);
            TagsOk(mem', FreePlain(cm, a), top, topsize) && Spares(mem, mem', FreePlain(cm, a), top)
  {
    hide FreePlain, SetFreeWithPinuse, ClearPInuse, Aligned, Head, Word, Spares;
    PrevTags(mem, cm, base, top, topsize, a);
    FreePlainShape(cm, base, top, a);
    FreePlainSpares(mem, cm, base, top, a);
    var p, ps, n := a - cm[a].pfree, cm[a].pfree + cm[a].size, a + cm[a].size;
    PInuseIsExact(cm, base, top, a, n);
    ChunkAt(cm, base, top, n);
    ChunkAt(cm, base, top, top);
    TagAt(mem, cm, top, topsize, n);
    HeadFields(cm[n].size, true, true);
    var mem', cm' := SetFreeWithPinuse(mem, p, ps, n), FreePlain(cm, a);
    SetFreeWithPinuseAt(mem, p, ps, n, top);
    forall b: nat ensures TagOk(mem', cm', b) {
      ChunkAt(cm, base, top, b);
      if b in cm {
        TagAt(mem, cm, top, topsize, b);
        SetFreeWithPinuseAt(mem, p, ps, n, b);
      }
    }
  }

  lemma FreeJoinedSpares(mem: Memory, cm: Layout, base: nat, top: nat, a: nat)
    requires LayoutOk(cm, base, top) && a in cm && cm[a].used
    requires a + cm[a].size in cm && !cm[a + cm[a].size].used
    ensures cm[a].pfree <= a && (cm[a].pfree > 0 ==> a - cm[a].pfree in cm)
    ensures var size := cm[a].pfree + cm[a].size + cm[a + cm[a].size].size;
            Spares(mem, SetSizeAndPinuseOfFree(mem, a - cm[a].pfree, size), FreeJoined(cm, a), top)
  {
    hide FreeJoined, LayoutOk, Aligned, Head, Spares, PInuse, CInuse;
    var n := a + cm[a].size;
    FreeJoinedShape(cm, base, top, a);
    ChunkAt(cm, base, top, a);
    ChunkAt(cm, base, top, n);
    var p, nn, size := a - cm[a].pfree, n + cm[n].size, cm[a].pfree + cm[a].size + cm[n].size;
    OnlyTags(mem, SetSizeAndPinuseOfFree(mem, p, size), FreeJoined(cm, a), top, {p + 8, nn});
  }

  /** The next chunk is free: set_size_and_pinuse_of_free_chunk over both. */
  lemma FreeJoinedTags(mem: Memory, cm: Layout, base: nat, top: nat, topsize: nat, a: nat)
    requires LayoutOk(cm, base, top) && TagsOk(mem, cm, top, topsize) && a in cm && cm[a].used
    requires a + cm[a].size in cm && !cm[a + cm[a].size].used
    ensures cm[a].pfree <= a && (cm[a].pfree > 0 ==> a - cm[a].pfree in cm)
    ensures var size := cm[a].pfree + cm[a].size + cm[a + cm[a].size].size;
            var mem' := SetSizeAndPinuseOfFree(mem, a - cm[a].pfree, size);
            TagsOk(mem', FreeJoined(cm, a), top, topsize) && Spares(mem, mem', FreeJoined(cm, a), top)
  {
    hide FreeJoined, SetSizeAndPinuseOfFree, Aligned, Head, Word, Spares;
    var n := a + cm[a].size;
    PrevTags(mem, cm, base, top, topsize, a);
    FreeJoinedShape(cm, base, top, a);
    FreeJoinedSpares(mem, cm, base, top, a);
    ChunkAt(cm, base, top, n);
    ChunkAt(cm, base, top, top);
    AlignedSum(cm[a].pfree + cm[a].size, cm[n].size);
    var p, nn, size := a - cm[a].pfree, n + cm[n].size, cm[a].pfree + cm[a].size + cm[n].size;
    var mem', cm' := SetSizeAndPinuseOfFree(mem, p, size), FreeJoined(cm, a);
    SetSizeAndPinuseOfFreeAt(mem, p, size, top);
    ChunkAt(cm, base, top, nn);
    forall b: nat ensures TagOk(mem', cm', b) {
      ChunkAt(cm, base, top, b);
      if b in cm {
        TagAt(mem, cm, top, topsize, b);
        SetSizeAndPinuseOfFreeAt(mem, p, size, b);
      }
    }
  }

  /** The next chunk is top: only top's head is written. */
  lemma FreeIntoTopTags(mem: Memory, cm: Layout, base: nat, top: nat, topsize: nat, a: nat)
    requires LayoutOk(cm, base, top) && TagsOk(mem, cm, top, topsize) && a in cm && cm[a].used
    requires a + cm[a].size == top
    ensures cm[a].pfree <= a && (cm[a].pfree > 0 ==> a - cm[a].pfree in cm)
    ensures var p, tsize := a - cm[a].pfree, topsize + cm[a].pfree + cm[a].size;
            var mem' := SetTop(mem, p, tsize);
            TagsOk(mem', FreeIntoTop(cm, a), p, tsize) && Spares(mem, mem', FreeIntoTop(cm, a), p)
  {
    PrevTags(mem, cm, base, top, topsize, a);
    JoinPrevKeeps(cm, base, top, a);
    var p, tsize := a - cm[a].pfree, topsize + cm[a].pfree + cm[a].size;
    var mem', cm' := SetTop(mem, p, tsize), FreeIntoTop(cm, a);
    OnlyTags(mem, mem', cm', p, {p + 8});
    SetTopAt(mem, p, tsize, p);
    hide SetTop, Aligned, Head, Word, OnlyAt;
    forall b: nat ensures TagOk(mem', cm', b) {
      ChunkAt(cm, base, top, b);
      if b in cm {
        TagAt(mem, cm, top, topsize, b);
        SetTopAt(mem, p, tsize, b);
      }
    }
  }

  // ------------------------------------------------------------------ realloc and memalign

  /** The head of whatever follows a used chunk has its pinuse bit set already. */
  lemma NextHead(mem: Memory, cm: Layout, base: nat, top: nat, topsize: nat, a: nat)
    requires LayoutOk(cm, base, top) && TagsOk(mem, cm, top, topsize) && a in cm && cm[a].used
    requires Aligned(topsize)
    ensures var w := a + cm[a].size + 8; SetPInuse(Word(mem, w)) == Word(mem, w)
  {
    var n := a + cm[a].size;
    ChunkAt(cm, base, top, a);
    ChunkAt(cm, base, top, n);
    TagAt(mem, cm, top, topsize, n);
    if n in cm {
      PInuseIsExact(cm, base, top, a, n);
      HeadFields(cm[n].size, cm[n].used, true);
    } else {
      HeadFields(topsize, false, true);
    }
  }

  lemma PInuseWasSet(h: nat)
    ensures PInuse(SetPInuse(h)) && SetPInuse(SetPInuse(h)) == SetPInuse(h)
  {
  }

  lemma SplitSpares(mem: Memory, cm: Layout, base: nat, top: nat, a: nat, nb: nat)
    requires LayoutOk(cm, base, top) && a in cm && MIN_CHUNK <= nb && nb + MIN_CHUNK <= cm[a].size
    ensures Spares(mem, SetInuse(SetInuse(mem, a, nb), a + nb, cm[a].size - nb), Split(cm, a, nb), top)
    ensures Spares(mem, SetInuse(SetInuse(mem, a + nb, cm[a].size - nb), a, nb), Split(cm, a, nb), top)
  {
    var r, n := a + nb, a + cm[a].size;
    ChunkAt(cm, base, top, a);
    hide LayoutOk, Aligned, Head, PInuse, SetPInuse, Spares;
    OnlyTags(mem, SetInuse(SetInuse(mem, a, nb), r, cm[a].size - nb), Split(cm, a, nb), top, {a + 8, r + 8, n + 8});
    OnlyTags(mem, SetInuse(SetInuse(mem, r, cm[a].size - nb), a, nb), Split(cm, a, nb), top, {a + 8, r + 8, n + 8});
  }

  /** A used chunk cut in two used ones: set_inuse on the front, then on the rest. */
  lemma SplitUsedTags(mem: Memory, cm: Layout, base: nat, top: nat, topsize: nat, a: nat, nb: nat)
    requires LayoutOk(cm, base, top) && TagsOk(mem, cm, top, topsize) && Aligned(topsize) && a in cm && cm[a].used
    requires Aligned(nb) && nb >= MIN_CHUNK && nb + MIN_CHUNK <= cm[a].size
    ensures var mem' := SetInuse(SetInuse(mem, a, nb), a + nb, cm[a].size - nb);
            TagsOk(mem', Split(cm, a, nb), top, topsize) && Spares(mem, mem', Split(cm, a, nb), top)
  {
    hide SetPInuse, PInuse, SetInuse, Aligned, Head, Word, Spares;
    var r, rs := a + nb, cm[a].size - nb;
    ChunkAt(cm, base, top, a);
    ChunkAt(cm, base, top, top);
    TagAt(mem, cm, top, topsize, a);
    assert Apart(cm, a, r);
    HeadFields(cm[a].size, true, cm[a].pfree == 0);
    NextHead(mem, cm, base, top, topsize, a);
    PInuseWasSet(Word(mem, r + 8));
    AlignedSum(a, nb);
    AlignedSum(cm[a].size, nb);
    SplitSpares(mem, cm, base, top, a, nb);
    var mem1 := SetInuse(mem, a, nb);
    var mem', cm' := SetInuse(mem1, r, rs), Split(cm, a, nb);
    SetInuseAt(mem, a, nb, top);
    SetInuseAt(mem1, r, rs, top);
    forall b: nat ensures TagOk(mem', cm', b) {
      ChunkAt(cm, base, top, b);
      if b in cm || b == r {
        TagAt(mem, cm, top, topsize, b);
        SetInuseAt(mem, a, nb, b);
        SetInuseAt(mem1, r, rs, b);
      }
    }
  }

  /** The same, on the rest first and then on the front. */
  lemma SplitUsedTagsBack(mem: Memory, cm: Layout, base: nat, top: nat, topsize: nat, a: nat, nb: nat)
    requires LayoutOk(cm, base, top) && TagsOk(mem, cm, top, topsize) && Aligned(topsize) && a in cm && cm[a].used
    requires Aligned(nb) && nb >= MIN_CHUNK && nb + MIN_CHUNK <= cm[a].size
    ensures var mem' := SetInuse(SetInuse(mem, a + nb, cm[a].size - nb), a, nb);
            TagsOk(mem', Split(cm, a, nb), top, topsize) && Spares(mem, mem', Split(cm, a, nb), top)
  {
    hide SetPInuse, PInuse, SetInuse, Aligned, Head, Word, Spares;
    var r, rs := a + nb, cm[a].size - nb;
    ChunkAt(cm, base, top, a);
    ChunkAt(cm, base, top, top);
    TagAt(mem, cm, top, topsize, a);
    assert Apart(cm, a, r);
    HeadFields(cm[a].size, true, cm[a].pfree == 0);
    NextHead(mem, cm, base, top, topsize, a);
    AlignedSum(a, nb);
    AlignedSum(cm[a].size, nb);
    HeadFields(rs, true, PInuse(Word(mem, r + 8)));
    SplitSpares(mem, cm, base, top, a, nb);
    var mem1 := SetInuse(mem, r, rs);
    var mem', cm' := SetInuse(mem1, a, nb), Split(cm, a, nb);
    SetInuseAt(mem, r, rs, top);
    SetInuseAt(mem1, a, nb, top);
    SetInuseAt(mem, r, rs, a);
    forall b: nat ensures TagOk(mem', cm', b) {
      ChunkAt(cm, base, top, b);
      if b in cm || b == r {
        TagAt(mem, cm, top, topsize, b);
        SetInuseAt(mem, r, rs, b);
        SetInuseAt(mem1, a, nb, b);
      }
    }
  }

  /** The used chunk before top takes what it needs from top. */
  lemma ResizeLastTags(mem: Memory, cm: Layout, base: nat, top: nat, topsize: nat, a: nat, nb: nat)
    requires LayoutOk(cm, base, top) && TagsOk(mem, cm, top, topsize) && a in cm && cm[a].used
    requires a + cm[a].size == top && Aligned(nb) && cm[a].size < nb < cm[a].size + topsize
    ensures var newtop, newsize := a + nb, cm[a].size + topsize - nb;
            var mem' := SetTop(SetInuse(mem, a, nb), newtop, newsize);
            TagsOk(mem', ResizeLast(cm, a, nb), newtop, newsize) && Spares(mem, mem', ResizeLast(cm, a, nb), newtop)
  {
    var newtop, newsize := a + nb, cm[a].size + topsize - nb;
    ChunkAt(cm, base, top, a);
    TagAt(mem, cm, top, topsize, a);
    HeadFields(cm[a].size, true, cm[a].pfree == 0);
    AlignedSum(a, nb);
    var mem1 := SetInuse(mem, a, nb);
    var mem', cm' := SetTop(mem1, newtop, newsize), ResizeLast(cm, a, nb);
    OnlyTags(mem, mem', cm', newtop, {a + 8, newtop + 8});
    hide SetPInuse, PInuse, SetInuse, SetTop, Aligned, Head, Word, Spares, OnlyAt;
    SetTopAt(mem1, newtop, newsize, newtop);
    forall b: nat ensures TagOk(mem', cm', b) {
      ChunkAt(cm, base, top, b);
      if b in cm {
        TagAt(mem, cm, top, topsize, b);
        SetInuseAt(mem, a, nb, b);
        SetTopAt(mem1, newtop, newsize, b);
      }
    }
  }

  /** A used chunk takes all of the free chunk after it. */
  lemma AbsorbNextTags(mem: Memory, cm: Layout, base: nat, top: nat, topsize: nat, a: nat)
    requires LayoutOk(cm, base, top) && TagsOk(mem, cm, top, topsize) && a in cm && cm[a].used
    requires a + cm[a].size in cm && !cm[a + cm[a].size].used
    ensures var mem' := SetInuse(mem, a, cm[a].size + cm[a + cm[a].size].size);
            TagsOk(mem', AbsorbNext(cm, a), top, topsize) && Spares(mem, mem', AbsorbNext(cm, a), top)
  {
    hide SetPInuse, PInuse, SetInuse, Aligned, Head, Word, Spares;
    var n := a + cm[a].size;
    var nn, size := n + cm[n].size, cm[a].size + cm[n].size;
    ChunkAt(cm, base, top, a);
    ChunkAt(cm, base, top, n);
    ChunkAt(cm, base, top, nn);
    ChunkAt(cm, base, top, top);
    TagAt(mem, cm, top, topsize, a);
    TagAt(mem, cm, top, topsize, nn);
    HeadFields(cm[a].size, true, cm[a].pfree == 0);
    HeadFields(cm[nn].size, true, false);
    AlignedSum(cm[a].size, cm[n].size);
    AbsorbSpares(mem, cm, base, top, a);
    var mem', cm' := SetInuse(mem, a, size), AbsorbNext(cm, a);
    SetInuseAt(mem, a, size, top);
    forall b: nat ensures TagOk(mem', cm', b) {
      ChunkAt(cm, base, top, b);
      if b in cm {
        TagAt(mem, cm, top, topsize, b);
        SetInuseAt(mem, a, size, b);
      }
    }
  }

  lemma AbsorbSpares(mem: Memory, cm: Layout, base: nat, top: nat, a: nat)
    requires LayoutOk(cm, base, top) && a in cm && a + cm[a].size in cm && !cm[a + cm[a].size].used
    ensures Spares(mem, SetInuse(mem, a, cm[a].size + cm[a + cm[a].size].size), AbsorbNext(cm, a), top)
  {
    var n := a + cm[a].size;
    var nn, size := n + cm[n].size, cm[a].size + cm[n].size;
    ChunkAt(cm, base, top, a);
    ChunkAt(cm, base, top, n);
    hide LayoutOk, Aligned, Head, PInuse, SetPInuse, Spares;
    OnlyTags(mem, SetInuse(mem, a, size), AbsorbNext(cm, a), top, {a + 8, nn + 8});
  }

  /** Setting the tags of a longer chunk first makes no difference to setting those of its parts. */
  lemma SplitAfterAbsorb(mem: Memory, a: nat, nb: nat, rsize: nat)
    requires Aligned(nb + rsize) && nb > 0 && rsize > 0
    ensures SetInuse(SetInuse(SetInuse(mem, a, nb + rsize), a, nb), a + nb, rsize) ==
            SetInuse(SetInuse(mem, a, nb), a + nb, rsize)
  {
    hide SetPInuse, PInuse, Head, Aligned;
    var h, z := Word(mem, a + 8), a + nb + rsize + 8;
    HeadFields(nb + rsize, true, PInuse(h));
    PInuseWasSet(Word(mem, z));
    var m0 := SetInuse(mem, a, nb + rsize);
    assert Word(m0, a + 8) == Head(nb + rsize, true, PInuse(h)) && Word(m0, z) == SetPInuse(Word(mem, z));
  }

  /** A used chunk takes a part of the free chunk after it; the rest is a used chunk for now. */
  lemma AbsorbAndSplitTags(mem: Memory, cm: Layout, base: nat, top: nat, topsize: nat, a: nat, nb: nat)
    requires LayoutOk(cm, base, top) && TagsOk(mem, cm, top, topsize) && Aligned(topsize) && a in cm && cm[a].used
    requires a + cm[a].size in cm && !cm[a + cm[a].size].used
    requires Aligned(nb) && nb >= MIN_CHUNK && nb + MIN_CHUNK <= cm[a].size + cm[a + cm[a].size].size
    ensures var rsize := cm[a].size + cm[a + cm[a].size].size - nb;
            var mem', cm' := SetInuse(SetInuse(mem, a, nb), a + nb, rsize), Split(AbsorbNext(cm, a), a, nb);
            TagsOk(mem', cm', top, topsize) && Spares(mem, mem', cm', top)
  {
    var n := a + cm[a].size;
    var size, rsize := cm[a].size + cm[n].size, cm[a].size + cm[n].size - nb;
    ChunkAt(cm, base, top, a);
    ChunkAt(cm, base, top, n);
    AlignedSum(cm[a].size, cm[n].size);
    AbsorbNextKeeps(cm, base, top, a);
    AbsorbNextTags(mem, cm, base, top, topsize, a);
    var mem1, cm1 := SetInuse(mem, a, size), AbsorbNext(cm, a);
    SplitUsedTags(mem1, cm1, base, top, topsize, a, nb);
    SplitAfterAbsorb(mem, a, nb, rsize);
    AbsorbAndSplitSpares(mem, cm, base, top, a, nb);
  }

  lemma AbsorbAndSplitSpares(mem: Memory, cm: Layout, base: nat, top: nat, a: nat, nb: nat)
    requires LayoutOk(cm, base, top) && a in cm && a + cm[a].size in cm && !cm[a + cm[a].size].used
    requires nb >= MIN_CHUNK && nb + MIN_CHUNK <= cm[a].size + cm[a + cm[a].size].size
    ensures var rsize := cm[a].size + cm[a + cm[a].size].size - nb;
            Spares(mem, SetInuse(SetInuse(mem, a, nb), a + nb, rsize), Split(AbsorbNext(cm, a), a, nb), top)
  {
    var n := a + cm[a].size;
    var size := cm[a].size + cm[n].size;
    ChunkAt(cm, base, top, a);
    ChunkAt(cm, base, top, n);
    var mem', cm' := SetInuse(SetInuse(mem, a, nb), a + nb, size - nb), Split(AbsorbNext(cm, a), a, nb);
    assert a in cm' && a + nb in cm' && a + size in cm';
    hide LayoutOk, Aligned, Head, PInuse, SetPInuse, Spares, AbsorbNext, Split;
    OnlyTags(mem, mem', cm', top, {a + 8, a + nb + 8, a + size + 8});
  }

  /** set_inuse on nb bytes at a, free tags for the next rsize bytes, clear_pinuse behind them. */
  function ShiftTags(mem: Memory, a: nat, nb: nat, rsize: nat): Memory {
    var m := SetSizeAndPinuseOfFree(SetInuse(mem, a, nb), a + nb, rsize);
    m[a + nb + rsize + 8 := ClearPInuse(Word(m, a + nb + rsize + 8))]
  }

  lemma ShiftTagsAt(mem: Memory, a: nat, nb: nat, rsize: nat, b: nat)
    requires Aligned(a) && Aligned(nb) && nb > 0 && Aligned(rsize) && rsize > 0 && Aligned(b)
    ensures Word(ShiftTags(mem, a, nb, rsize), b + 8) ==
            if b == a then Head(nb, true, PInuse(Word(mem, b + 8)))
            else if b == a + nb then Head(rsize, false, true)
            else if b == a + nb + rsize then ClearPInuse(Word(mem, b + 8)) else Word(mem, b + 8)
    ensures Word(ShiftTags(mem, a, nb, rsize), b) == if b == a + nb + rsize then rsize else Word(mem, b)
  {
    var r, nn := a + nb, a + nb + rsize;
    AlignedSum(a, nb);
    AlignedSum(r, rsize);
    var m1 := SetInuse(mem, a, nb);
    var m := SetSizeAndPinuseOfFree(m1, r, rsize);
    hide PInuse, SetPInuse, ClearPInuse, Aligned, Head, Word, SetInuse, SetSizeAndPinuseOfFree;
    SetInuseAt(mem, a, nb, b);
    SetInuseAt(mem, a, nb, nn);
    SetSizeAndPinuseOfFreeAt(m1, r, rsize, b);
    SetSizeAndPinuseOfFreeAt(m1, r, rsize, nn);
    WriteHead(m, nn, ClearPInuse(Word(m, nn + 8)), b);
  }

  /** The same with the rest free at once. */
  lemma AbsorbAndReleaseTags(mem: Memory, cm: Layout, base: nat, top: nat, topsize: nat, a: nat, nb: nat)
    requires LayoutOk(cm, base, top) && TagsOk(mem, cm, top, topsize) && a in cm && cm[a].used
    requires a + cm[a].size in cm && !cm[a + cm[a].size].used
    requires Aligned(nb) && nb >= MIN_CHUNK && nb + MIN_CHUNK <= cm[a].size + cm[a + cm[a].size].size
    ensures var mem' := ShiftTags(mem, a, nb, cm[a].size + cm[a + cm[a].size].size - nb);
            TagsOk(mem', ShiftFree(cm, a, nb), top, topsize) && Spares(mem, mem', ShiftFree(cm, a, nb), top)
  {
    hide PInuse, ClearPInuse, ShiftTags, Aligned, Head, Word, Spares, ShiftFree;
    var n := a + cm[a].size;
    var nn, r, rsize := n + cm[n].size, a + nb, cm[a].size + cm[n].size - nb;
    ChunkAt(cm, base, top, a);
    ChunkAt(cm, base, top, n);
    ChunkAt(cm, base, top, nn);
    ChunkAt(cm, base, top, top);
    TagAt(mem, cm, top, topsize, a);
    TagAt(mem, cm, top, topsize, nn);
    HeadFields(cm[a].size, true, cm[a].pfree == 0);
    HeadFields(cm[nn].size, true, false);
    AlignedSum(a, nb);
    AlignedSum(cm[a].size, cm[n].size);
    AlignedSum(cm[a].size + cm[n].size, nb);
    ShiftFreeShape(cm, base, top, a, nb);
    ShiftFreeSpares(mem, cm, base, top, a, nb);
    var mem', cm' := ShiftTags(mem, a, nb, rsize), ShiftFree(cm, a, nb);
    ShiftTagsAt(mem, a, nb, rsize, top);
    forall b: nat ensures TagOk(mem', cm', b) {
      ChunkAt(cm, base, top, b);
      if b in cm || b == r {
        TagAt(mem, cm, top, topsize, b);
        ShiftTagsAt(mem, a, nb, rsize, b);
      }
    }
  }

  /** The words written are tags of the new layout. */
  lemma ShiftTagSpots(cm: Layout, base: nat, top: nat, a: nat, nb: nat)
    requires LayoutOk(cm, base, top) && a in cm && cm[a].used
    requires a + cm[a].size in cm && !cm[a + cm[a].size].used
    requires Aligned(nb) && nb >= MIN_CHUNK && nb + MIN_CHUNK <= cm[a].size + cm[a + cm[a].size].size
    ensures var cm', nn := ShiftFree(cm, a, nb), a + cm[a].size + cm[a + cm[a].size].size;
            IsTag(cm', top, a + 8) && IsTag(cm', top, a + nb + 8) && IsTag(cm', top, nn + 8) && IsTag(cm', top, nn)
  {
    ShiftFreeShape(cm, base, top, a, nb);
    ChunkAt(cm, base, top, a);
    ChunkAt(cm, base, top, a + cm[a].size);
    hide LayoutOk, Aligned, ShiftFree;
  }

  lemma ShiftFreeSpares(mem: Memory, cm: Layout, base: nat, top: nat, a: nat, nb: nat)
    requires LayoutOk(cm, base, top) && a in cm && cm[a].used
    requires a + cm[a].size in cm && !cm[a + cm[a].size].used
    requires Aligned(nb) && nb >= MIN_CHUNK && nb + MIN_CHUNK <= cm[a].size + cm[a + cm[a].size].size
    ensures Spares(mem, ShiftTags(mem, a, nb, cm[a].size + cm[a + cm[a].size].size - nb), ShiftFree(cm, a, nb), top)
  {
    hide LayoutOk, Aligned, Spares, ShiftFree, ShiftTags, OnlyAt, Word, IsTag;
    var n := a + cm[a].size;
    var nn, rsize := n + cm[n].size, cm[a].size + cm[n].size - nb;
    ShiftTagSpots(cm, base, top, a, nb);
    ShiftTagsOnlyAt(mem, a, nb, rsize);
    OnlyTags(mem, ShiftTags(mem, a, nb, rsize), ShiftFree(cm, a, nb), top, {a + 8, a + nb + 8, nn + 8, nn});
  }

  lemma ShiftTagsOnlyAt(mem: Memory, a: nat, nb: nat, rsize: nat)
    ensures var nn := a + nb + rsize; OnlyAt(mem, ShiftTags(mem, a, nb, rsize), {a + 8, a + nb + 8, nn + 8, nn})
  {
    hide Head, PInuse, SetPInuse, ClearPInuse;
  }

  // ------------------------------------------------------------------ what callers stored

  /** The payload words of these blocks read the same. */
  ghost predicate Preserved(mem: Memory, mem': Memory, blocks: map<nat, nat>) {
    forall a: nat, w: nat :: a in blocks && a + 16 <= w < a + blocks[a] + 8 && w % 8 == 0 ==> Word(mem', w) == Word(mem, w)
  }

  /** Writing tags preserves what every block in use holds. */
  lemma TagsPreserve(mem: Memory, mem': Memory, cm: Layout, base: nat, top: nat)
    requires LayoutOk(cm, base, top) && Spares(mem, mem', cm, top)
    ensures Preserved(mem, mem', Blocks(cm))
  {
    forall a: nat, w: nat | a in Blocks(cm) && a + 16 <= w < a + Blocks(cm)[a] + 8 && w % 8 == 0
      ensures Word(mem', w) == Word(mem, w)
    {
      TagsAreNotPayload(mem, mem', cm, base, top, a, w);
    }
  }

  /** Every block of the one lies at the start of a block of the other. */
  ghost predicate Covers(blocks: map<nat, nat>, blocks': map<nat, nat>) {
    forall a :: a in blocks ==> a in blocks' && blocks[a] <= blocks'[a]
  }

  lemma PreservedSame(mem: Memory, blocks: map<nat, nat>)
    ensures Preserved(mem, mem, blocks)
  {
  }

  lemma PreservedPart(mem: Memory, mem': Memory, blocks: map<nat, nat>, blocks': map<nat, nat>)
    requires Preserved(mem, mem', blocks') && Covers(blocks, blocks')
    ensures Preserved(mem, mem', blocks)
  {
  }

  lemma PreservedChain(mem: Memory, mem1: Memory, mem': Memory, blocks: map<nat, nat>, blocks1: map<nat, nat>, blocks': map<nat, nat>)
    requires Preserved(mem, mem1, blocks1) && Preserved(mem1, mem', blocks')
    requires Covers(blocks, blocks1) && Covers(blocks, blocks')
    ensures Preserved(mem, mem', blocks)
  {
  }

  // ------------------------------------------------------------------ each change, words and layout together

  /** The state after a change of the layout, compared to the live blocks before it. */
  ghost predicate Changed(mem: Memory, mem': Memory, cm': Layout, base: nat, top': nat, topsize': nat, frees: set<(nat, nat)>, blocks: map<nat, nat>) {
    && LayoutOk(cm', base, top') && TagsOk(mem', cm', top', topsize')
    && Frees(cm') == frees && Blocks(cm') == blocks && Preserved(mem, mem', blocks) && Spares(mem, mem', cm', top')
  }

  lemma SplitFreeStep(mem: Memory, cm: Layout, base: nat, top: nat, topsize: nat, a: nat, nb: nat)
    requires LayoutOk(cm, base, top) && TagsOk(mem, cm, top, topsize) && a in cm && !cm[a].used
    requires Aligned(nb) && nb >= MIN_CHUNK && nb + MIN_CHUNK <= cm[a].size
    ensures var s := cm[a].size;
            var mem' := SetSizeAndPinuseOfFree(SetSizeAndPinuseOfInuse(mem, a, nb), a + nb, s - nb);
            Changed(mem, mem', SplitFree(cm, a, nb), base, top, topsize,
                    Frees(cm) - {(a, s)} + {(a + nb, s - nb)}, Blocks(cm)[a := nb])
  {
    SplitFreeKeeps(cm, base, top, a, nb);
    SplitFreeTags(mem, cm, base, top, topsize, a, nb);
    MallocBlocks(cm, base, top, a, nb);
    hide LayoutOk, TagsOk, SplitFree, SetSizeAndPinuseOfFree, SetSizeAndPinuseOfInuse, Spares, Preserved, Frees, Blocks;
    TagsPreserve(mem, SetSizeAndPinuseOfFree(SetSizeAndPinuseOfInuse(mem, a, nb), a + nb, cm[a].size - nb),
                 SplitFree(cm, a, nb), base, top);
  }

  lemma FreePlainStep(mem: Memory, cm: Layout, base: nat, top: nat, topsize: nat, a: nat)
    requires LayoutOk(cm, base, top) && TagsOk(mem, cm, top, topsize) && a in cm && cm[a].used
    requires a + cm[a].size in cm && cm[a + cm[a].size].used
    ensures cm[a].pfree <= a && (cm[a].pfree > 0 ==> a - cm[a].pfree in cm)
    ensures var p, ps := a - cm[a].pfree, cm[a].pfree + cm[a].size;
            Changed(mem, SetFreeWithPinuse(mem, p, ps, a + cm[a].size), FreePlain(cm, a), base, top, topsize,
                    Frees(cm) - PrevFree(cm, a) + {(p, ps)}, Blocks(cm) - {a})
  {
    FreePlainKeeps(cm, base, top, a);
    FreePlainTags(mem, cm, base, top, topsize, a);
    FreePlainBlocks(cm, base, top, a);
    hide LayoutOk, TagsOk, FreePlain, SetFreeWithPinuse, Spares, Preserved, Frees, Blocks;
    TagsPreserve(mem, SetFreeWithPinuse(mem, a - cm[a].pfree, cm[a].pfree + cm[a].size, a + cm[a].size),
                 FreePlain(cm, a), base, top);
  }

  lemma FreeJoinedStep(mem: Memory, cm: Layout, base: nat, top: nat, topsize: nat, a: nat)
    requires LayoutOk(cm, base, top) && TagsOk(mem, cm, top, topsize) && a in cm && cm[a].used
    requires a + cm[a].size in cm && !cm[a + cm[a].size].used
    ensures cm[a].pfree <= a && (cm[a].pfree > 0 ==> a - cm[a].pfree in cm)
    ensures var p, n := a - cm[a].pfree, a + cm[a].size;
            var ps := cm[a].pfree + cm[a].size + cm[n].size;
            Changed(mem, SetSizeAndPinuseOfFree(mem, p, ps), FreeJoined(cm, a), base, top, topsize,
                    Frees(cm) - PrevFree(cm, a) - {(n, cm[n].size)} + {(p, ps)}, Blocks(cm) - {a})
  {
    FreeJoinedKeeps(cm, base, top, a);
    FreeJoinedTags(mem, cm, base, top, topsize, a);
    FreeJoinedBlocks(cm, base, top, a);
    hide LayoutOk, TagsOk, FreeJoined, SetSizeAndPinuseOfFree, Spares, Preserved, Frees, Blocks;
    TagsPreserve(mem, SetSizeAndPinuseOfFree(mem, a - cm[a].pfree, cm[a].pfree + cm[a].size + cm[a + cm[a].size].size),
                 FreeJoined(cm, a), base, top);
  }

  lemma FreeIntoTopStep(mem: Memory, cm: Layout, base: nat, top: nat, topsize: nat, a: nat)
    requires LayoutOk(cm, base, top) && TagsOk(mem, cm, top, topsize) && a in cm && cm[a].used
    requires a + cm[a].size == top && Aligned(topsize)
    ensures cm[a].pfree <= a && (cm[a].pfree > 0 ==> a - cm[a].pfree in cm)
    ensures base <= a - cm[a].pfree && Aligned(topsize + (cm[a].pfree + cm[a].size))
    ensures var p, tsize := a - cm[a].pfree, topsize + (cm[a].pfree + cm[a].size);
            Changed(mem, SetTop(mem, p, tsize), FreeIntoTop(cm, a), base, p, tsize,
                    Frees(cm) - PrevFree(cm, a), Blocks(cm) - {a})
  {
    FreeIntoTopKeeps(cm, base, top, a);
    FreeIntoTopTags(mem, cm, base, top, topsize, a);
    FreeIntoTopBlocks(cm, base, top, a);
    PrevTags(mem, cm, base, top, topsize, a);
    AlignedSum(topsize, cm[a].pfree + cm[a].size);
    TagsPreserve(mem, SetTop(mem, a - cm[a].pfree, topsize + cm[a].pfree + cm[a].size), FreeIntoTop(cm, a), base, a - cm[a].pfree);
  }

  lemma ResizeLastStep(mem: Memory, cm: Layout, base: nat, top: nat, topsize: nat, a: nat, nb: nat)
    requires LayoutOk(cm, base, top) && TagsOk(mem, cm, top, topsize) && a in cm && cm[a].used
    requires a + cm[a].size == top && Aligned(nb) && cm[a].size < nb < cm[a].size + topsize && Aligned(topsize)
    ensures var newtop, newsize := a + nb, cm[a].size + topsize - nb;
            && newtop >= base && Aligned(newsize)
            && Changed(mem, SetTop(SetInuse(mem, a, nb), newtop, newsize), ResizeLast(cm, a, nb), base, newtop, newsize,
                       Frees(cm), Blocks(cm)[a := nb])
  {
    ChunkAt(cm, base, top, a);
    ResizeLastKeeps(cm, base, top, a, nb);
    ResizeLastTags(mem, cm, base, top, topsize, a, nb);
    ResizeLastBlocks(cm, a, nb);
    AlignedSum(cm[a].size, topsize);
    AlignedSum(cm[a].size + topsize, nb);
    hide LayoutOk, TagsOk, ResizeLast, SetInuse, SetTop, Spares, Preserved, Frees, Blocks;
    TagsPreserve(mem, SetTop(SetInuse(mem, a, nb), a + nb, cm[a].size + topsize - nb), ResizeLast(cm, a, nb), base, a + nb);
  }

  lemma AbsorbStep(mem: Memory, cm: Layout, base: nat, top: nat, topsize: nat, a: nat)
    requires LayoutOk(cm, base, top) && TagsOk(mem, cm, top, topsize) && a in cm && cm[a].used
    requires a + cm[a].size in cm && !cm[a + cm[a].size].used
    ensures var n := a + cm[a].size;
            var size := cm[a].size + cm[n].size;
            Changed(mem, SetInuse(mem, a, size), AbsorbNext(cm, a), base, top, topsize,
                    Frees(cm) - {(n, cm[n].size)}, Blocks(cm)[a := size])
  {
    AbsorbNextKeeps(cm, base, top, a);
    AbsorbNextTags(mem, cm, base, top, topsize, a);
    AbsorbNextBlocks(cm, base, top, a);
    hide LayoutOk, TagsOk, AbsorbNext, SetInuse, Spares, Preserved, Frees, Blocks;
    TagsPreserve(mem, SetInuse(mem, a, cm[a].size + cm[a + cm[a].size].size), AbsorbNext(cm, a), base, top);
  }

  lemma AbsorbAndSplitStep(mem: Memory, cm: Layout, base: nat, top: nat, topsize: nat, a: nat, nb: nat)
    requires LayoutOk(cm, base, top) && TagsOk(mem, cm, top, topsize) && Aligned(topsize) && a in cm && cm[a].used
    requires a + cm[a].size in cm && !cm[a + cm[a].size].used
    requires Aligned(nb) && nb >= MIN_CHUNK && nb + MIN_CHUNK <= cm[a].size + cm[a + cm[a].size].size
    ensures var n := a + cm[a].size;
            var rsize := cm[a].size + cm[n].size - nb;
            Changed(mem, SetInuse(SetInuse(mem, a, nb), a + nb, rsize), Split(AbsorbNext(cm, a), a, nb), base, top, topsize,
                    Frees(cm) - {(n, cm[n].size)}, Blocks(cm)[a := nb][a + nb := rsize])
  {
    var n := a + cm[a].size;
    var rsize := cm[a].size + cm[n].size - nb;
    AbsorbNextKeeps(cm, base, top, a);
    AbsorbNextBlocks(cm, base, top, a);
    AbsorbAndSplitTags(mem, cm, base, top, topsize, a, nb);
    var cm1 := AbsorbNext(cm, a);
    assert cm1[a].size == nb + rsize && cm1[a].used;
    SplitKeeps(cm1, base, top, a, nb);
    SplitBlocks(cm1, base, top, a, nb);
    assert Blocks(cm)[a := nb + rsize][a := nb] == Blocks(cm)[a := nb];
    hide LayoutOk, TagsOk, AbsorbNext, Split, SetInuse, Spares, Preserved, Frees, Blocks;
    TagsPreserve(mem, SetInuse(SetInuse(mem, a, nb), a + nb, rsize), Split(cm1, a, nb), base, top);
  }

  lemma ShiftFreeStep(mem: Memory, cm: Layout, base: nat, top: nat, topsize: nat, a: nat, nb: nat)
    requires LayoutOk(cm, base, top) && TagsOk(mem, cm, top, topsize) && a in cm && cm[a].used
    requires a + cm[a].size in cm && !cm[a + cm[a].size].used
    requires Aligned(nb) && nb >= MIN_CHUNK && nb + MIN_CHUNK <= cm[a].size + cm[a + cm[a].size].size
    ensures var n := a + cm[a].size;
            var rsize := cm[a].size + cm[n].size - nb;
            Changed(mem, ShiftTags(mem, a, nb, rsize), ShiftFree(cm, a, nb), base, top, topsize,
                    Frees(cm) - {(n, cm[n].size)} + {(a + nb, rsize)}, Blocks(cm)[a := nb])
  {
    ShiftFreeKeeps(cm, base, top, a, nb);
    ShiftFreeBlocks(cm, base, top, a, nb);
    AbsorbAndReleaseTags(mem, cm, base, top, topsize, a, nb);
    hide LayoutOk, TagsOk, ShiftFree, ShiftTags, Spares, Preserved, Frees, Blocks;
    TagsPreserve(mem, ShiftTags(mem, a, nb, cm[a].size + cm[a + cm[a].size].size - nb), ShiftFree(cm, a, nb), base, top);
  }

  lemma PayloadWordIsNotTag(cm: Layout, base: nat, top: nat, a: nat, w: nat)
    requires LayoutOk(cm, base, top) && InPayload(cm, a, w) && w % 8 == 0
    ensures !IsTag(cm, top, w)
  {
    ChunkAt(cm, base, top, a);
    ChunkAt(cm, base, top, w - 8);
    assert Apart(cm, a, w - 8);
    ChunkAt(cm, base, top, w);
    assert Apart(cm, a, w);
    if w in cm && w == a + cm[a].size { PInuseIsExact(cm, base, top, a, w); }
  }

  /** A payload word is no tag. */
  lemma PayloadIsNotTag(mem: Memory, cm: Layout, base: nat, top: nat, topsize: nat, a: nat, w: nat, v: nat)
    requires LayoutOk(cm, base, top) && TagsOk(mem, cm, top, topsize) && InPayload(cm, a, w) && w % 8 == 0
    ensures TagsOk(mem[w := v], cm, top, topsize)
  {
    hide LayoutOk, InPayload, Head;
    PayloadWordIsNotTag(cm, base, top, a, w);
    var mem' := mem[w := v];
    forall b: nat ensures TagOk(mem', cm, b) {
      TagAt(mem, cm, top, topsize, b);
    }
  }
}
