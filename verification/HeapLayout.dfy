/**
  How src/malloc.c divides the symmetric heap, apart from the words that record it: a map from
  chunk addresses to chunks that tiles [base, top), followed by the top chunk.

  Each function here is one change of the layout; malloc, free, realloc and memalign are
  sequences of them.  Sizes and addresses are bytes.
*/
module HeapLayout {
  import opened Arith

  /** pfree is the size of the chunk before this one if that one is free, and 0 if it is in use. */
  datatype Chunk = Chunk(size: nat, used: bool, pfree: nat)

  type Layout = map<nat, Chunk>

  const MIN_CHUNK: nat := 32

  /** A multiple of the malloc alignment. */
  predicate Aligned(x: int) {
    x % 16 == 0
  }

  lemma AlignedSum(x: int, y: int)
    requires Aligned(x) && Aligned(y)
    ensures Aligned(x + y) && Aligned(x - y)
  {
  }

  lemma AlignedBy8(x: int)
    requires Aligned(x)
    ensures x % 8 == 0
  {
  }

  ghost predicate ChunkOk(cm: Layout, base: nat, top: nat, a: nat) {
    a in cm ==>
      var c := cm[a];
      && base <= a && Aligned(a) && Aligned(c.size) && c.size >= MIN_CHUNK
      && a + c.size <= top && (a + c.size == top || a + c.size in cm)
      && (c.pfree > 0 ==> c.pfree <= a && a - c.pfree in cm && !cm[a - c.pfree].used && cm[a - c.pfree].size == c.pfree)
      && (!c.used ==> c.pfree == 0 && a + c.size in cm && cm[a + c.size].used && cm[a + c.size].pfree == c.size)
  }

  /** Of two chunks, the one at the lower address ends before the other begins. */
  predicate Apart(cm: Layout, a: nat, b: nat) {
    a in cm && b in cm && a < b ==> a + cm[a].size <= b
  }

  /** Chunks tile [base, top), no two free chunks touch, and no free chunk touches top. */
  ghost predicate LayoutOk(cm: Layout, base: nat, top: nat) {
    && Aligned(base) && Aligned(top) && base <= top
    && (base < top ==> base in cm)
    && (forall a: nat {:trigger ChunkOk(cm, base, top, a)} :: ChunkOk(cm, base, top, a))
    && (forall a: nat, b: nat {:trigger Apart(cm, a, b)} :: Apart(cm, a, b))
  }

  lemma ChunkAt(cm: Layout, base: nat, top: nat, a: nat)
    requires LayoutOk(cm, base, top)
    ensures ChunkOk(cm, base, top, a)
  {
  }

  predicate IsFree(cm: Layout, x: (nat, nat)) {
    x.0 in cm && !cm[x.0].used && cm[x.0].size == x.1
  }

  /** The free chunks, as (address, size). */
  function Frees(cm: Layout): (r: set<(nat, nat)>)
    ensures forall x :: x in r <==> IsFree(cm, x)
  {
    set a | a in cm && !cm[a].used :: (a, cm[a].size)
  }

  // ------------------------------------------------------------------ tiling

  lemma {:induction false} TilesFrom(cm: Layout, base: nat, top: nat, a: nat, x: nat)
    requires LayoutOk(cm, base, top) && a in cm && a <= x < top
    ensures exists b :: b in cm && b <= x < b + cm[b].size
    decreases top - a
  {
    ChunkAt(cm, base, top, a);
    if x >= a + cm[a].size { TilesFrom(cm, base, top, a + cm[a].size, x); }
  }

  /** Every byte below top lies in exactly one chunk. */
  lemma ChunksTile(cm: Layout, base: nat, top: nat, x: nat)
    requires LayoutOk(cm, base, top) && base <= x < top
    ensures exists b :: b in cm && b <= x < b + cm[b].size
    ensures forall b, c :: b in cm && c in cm && b <= x < b + cm[b].size && c <= x < c + cm[c].size ==> b == c
  {
    TilesFrom(cm, base, top, base, x);
    forall b, c | b in cm && c in cm && b <= x < b + cm[b].size && c <= x < c + cm[c].size ensures b == c {
      assert Apart(cm, b, c) && Apart(cm, c, b);
    }
  }

  /** No two free chunks are neighbours. */
  lemma FreesNeverTouch(cm: Layout, base: nat, top: nat, a: nat)
    requires LayoutOk(cm, base, top) && a in cm && !cm[a].used
    ensures var n := a + cm[a].size; n != top && n in cm && cm[n].used && cm[n].pfree == cm[a].size
  {
    ChunkAt(cm, base, top, a);
    ChunkAt(cm, base, top, a + cm[a].size);
  }

  /** The pinuse bit of a chunk says exactly whether the chunk before it is in use. */
  lemma PInuseIsExact(cm: Layout, base: nat, top: nat, a: nat, b: nat)
    requires LayoutOk(cm, base, top) && a in cm && b in cm && a + cm[a].size == b
    ensures cm[a].used <==> cm[b].pfree == 0
  {
    ChunkAt(cm, base, top, a);
    ChunkAt(cm, base, top, b);
    var c := b - cm[b].pfree;
    if cm[b].pfree > 0 {
      ChunkAt(cm, base, top, c);
      assert Apart(cm, a, c) && Apart(cm, c, a);
    }
  }

  /** What is known about a free chunk. */
  lemma FreeChunkAt(cm: Layout, base: nat, top: nat, x: (nat, nat))
    requires LayoutOk(cm, base, top) && x in Frees(cm)
    ensures IsFree(cm, x) && base <= x.0 && x.0 + x.1 <= top && x.1 >= MIN_CHUNK
    ensures Aligned(x.0) && Aligned(x.0 + 16) && Aligned(x.1) && x.1 % 8 == 0
  {
    ChunkAt(cm, base, top, x.0);
    AlignedSum(x.0, 16);
  }

  // ------------------------------------------------------------------ the changes

  /** Mark the chunk that ends at n, as seen from the chunk at n. */
  function Mark(cm: Layout, n: nat, pfree: nat): Layout {
    if n in cm then cm[n := cm[n].(pfree := pfree)] else cm
  }

  /** Free chunk a is handed out whole. */
  function Take(cm: Layout, a: nat): Layout
    requires a in cm
  {
    Mark(cm[a := cm[a].(used := true)], a + cm[a].size, 0)
  }

  /** Used chunk a becomes used chunks of nb bytes and of the rest. */
  function Split(cm: Layout, a: nat, nb: nat): Layout
    requires a in cm && nb <= cm[a].size
  {
    cm[a := cm[a].(size := nb)][a + nb := Chunk(cm[a].size - nb, true, 0)]
  }

  /** A new used chunk of nb bytes at top. */
  function CarveTop(cm: Layout, top: nat, nb: nat): Layout {
    cm[top := Chunk(nb, true, 0)]
  }

  /** The used chunk before top is resized to nb bytes; top moves. */
  function ResizeLast(cm: Layout, a: nat, nb: nat): Layout
    requires a in cm
  {
    cm[a := cm[a].(size := nb)]
  }

  /** Used chunk a, between used chunks, becomes free. */
  function Release(cm: Layout, a: nat): Layout
    requires a in cm
  {
    Mark(cm[a := cm[a].(used := false)], a + cm[a].size, cm[a].size)
  }

  /** Used chunk a swallows the free chunk before it. */
  function AbsorbPrev(cm: Layout, a: nat): Layout
    requires a in cm && cm[a].pfree <= a && a - cm[a].pfree in cm
  {
    (cm - {a})[a - cm[a].pfree := Chunk(cm[a].pfree + cm[a].size, true, 0)]
  }

  /** Used chunk a swallows the free chunk after it. */
  function AbsorbNext(cm: Layout, a: nat): Layout
    requires a in cm && a + cm[a].size in cm
  {
    var n := a + cm[a].size;
    Mark((cm - {n})[a := cm[a].(size := cm[a].size + cm[n].size)], n + cm[n].size, 0)
  }

  /** The used chunk before top becomes part of top. */
  function DropLast(cm: Layout, a: nat): Layout {
    cm - {a}
  }

  lemma TakeKeeps(cm: Layout, base: nat, top: nat, a: nat)
    requires LayoutOk(cm, base, top) && a in cm && !cm[a].used
    ensures LayoutOk(Take(cm, a), base, top)
    ensures Frees(Take(cm, a)) == Frees(cm) - {(a, cm[a].size)}
  {
    hide Aligned;
    var cm' := Take(cm, a);
    ChunkAt(cm, base, top, a);
    forall b: nat ensures ChunkOk(cm', base, top, b) {
      ChunkAt(cm, base, top, b);
    }
    forall b: nat, c: nat ensures Apart(cm', b, c) {
      assert Apart(cm, b, c);
    }
  }

  lemma SplitKeeps(cm: Layout, base: nat, top: nat, a: nat, nb: nat)
    requires LayoutOk(cm, base, top) && a in cm && cm[a].used
    requires Aligned(nb) && nb >= MIN_CHUNK && nb + MIN_CHUNK <= cm[a].size
    ensures LayoutOk(Split(cm, a, nb), base, top)
    ensures Frees(Split(cm, a, nb)) == Frees(cm)
    ensures a + nb !in cm
  {
    var cm' := Split(cm, a, nb);
    ChunkAt(cm, base, top, a);
    assert Apart(cm, a, a + nb);
    AlignedSum(a, nb);
    AlignedSum(cm[a].size, nb);
    hide Aligned;
    forall b: nat ensures ChunkOk(cm', base, top, b) {
      ChunkAt(cm, base, top, b);
      if b == a + cm[a].size && b in cm { PInuseIsExact(cm, base, top, a, b); }
    }
    forall b: nat, c: nat ensures Apart(cm', b, c) {
      assert Apart(cm, b, c) && Apart(cm, b, a) && Apart(cm, a, b) && Apart(cm, a, c);
    }
  }

  lemma CarveTopKeeps(cm: Layout, base: nat, top: nat, nb: nat)
    requires LayoutOk(cm, base, top) && Aligned(nb) && nb >= MIN_CHUNK
    ensures LayoutOk(CarveTop(cm, top, nb), base, top + nb)
    ensures Frees(CarveTop(cm, top, nb)) == Frees(cm)
    ensures top !in cm
  {
    var cm', top' := CarveTop(cm, top, nb), top + nb;
    ChunkAt(cm, base, top, top);
    AlignedSum(top, nb);
    hide Aligned;
    forall b: nat ensures ChunkOk(cm', base, top', b) {
      ChunkAt(cm, base, top, b);
    }
    forall b: nat, c: nat ensures Apart(cm', b, c) {
      ChunkAt(cm, base, top, b);
      ChunkAt(cm, base, top, c);
      assert Apart(cm, b, c);
    }
  }

  lemma ResizeLastKeeps(cm: Layout, base: nat, top: nat, a: nat, nb: nat)
    requires LayoutOk(cm, base, top) && a in cm && cm[a].used && a + cm[a].size == top
    requires Aligned(nb) && nb >= MIN_CHUNK
    ensures LayoutOk(ResizeLast(cm, a, nb), base, a + nb)
    ensures Frees(ResizeLast(cm, a, nb)) == Frees(cm)
  {
    var cm', top' := ResizeLast(cm, a, nb), a + nb;
    ChunkAt(cm, base, top, a);
    AlignedSum(a, nb);
    hide Aligned;
    forall b: nat ensures ChunkOk(cm', base, top', b) {
      ChunkAt(cm, base, top, b);
      assert Apart(cm, a, b) && Apart(cm, b, a);
    }
    forall b: nat, c: nat ensures Apart(cm', b, c) {
      ChunkAt(cm, base, top, c);
      assert Apart(cm, b, c);
    }
  }

  lemma ReleaseKeeps(cm: Layout, base: nat, top: nat, a: nat)
    requires LayoutOk(cm, base, top) && a in cm && cm[a].used && cm[a].pfree == 0
    requires a + cm[a].size in cm && cm[a + cm[a].size].used
    ensures LayoutOk(Release(cm, a), base, top)
    ensures Frees(Release(cm, a)) == Frees(cm) + {(a, cm[a].size)}
  {
    hide Aligned;
    var cm' := Release(cm, a);
    ChunkAt(cm, base, top, a);
    forall b: nat ensures ChunkOk(cm', base, top, b) {
      ChunkAt(cm, base, top, b);
      if b in cm && b + cm[b].size == a { PInuseIsExact(cm, base, top, b, a); }
      if b in cm && b + cm[b].size == a + cm[a].size { assert Apart(cm, a, b) && Apart(cm, b, a); }
    }
    forall b: nat, c: nat ensures Apart(cm', b, c) {
      assert Apart(cm, b, c);
    }
  }

  lemma AbsorbPrevKeeps(cm: Layout, base: nat, top: nat, a: nat)
    requires LayoutOk(cm, base, top) && a in cm && cm[a].used && cm[a].pfree > 0
    ensures cm[a].pfree <= a && a - cm[a].pfree in cm
    ensures LayoutOk(AbsorbPrev(cm, a), base, top)
    ensures Frees(AbsorbPrev(cm, a)) == Frees(cm) - {(a - cm[a].pfree, cm[a].pfree)}
  {
    ChunkAt(cm, base, top, a);
    var p := a - cm[a].pfree;
    ChunkAt(cm, base, top, p);
    AlignedSum(cm[p].size, cm[a].size);
    hide Aligned;
    var cm' := AbsorbPrev(cm, a);
    forall b: nat ensures ChunkOk(cm', base, top, b) {
      ChunkAt(cm, base, top, b);
      assert Apart(cm, b, a) && Apart(cm, p, b);
      if b in cm && b == a + cm[a].size { PInuseIsExact(cm, base, top, a, b); }
      if b in cm && b + cm[b].size == a { assert Apart(cm, b, p); }
    }
    forall b: nat, c: nat ensures Apart(cm', b, c) {
      assert Apart(cm, b, c) && Apart(cm, a, c) && Apart(cm, b, p);
    }
  }

  lemma AbsorbNextKeeps(cm: Layout, base: nat, top: nat, a: nat)
    requires LayoutOk(cm, base, top) && a in cm && cm[a].used
    requires a + cm[a].size in cm && !cm[a + cm[a].size].used
    ensures LayoutOk(AbsorbNext(cm, a), base, top)
    ensures Frees(AbsorbNext(cm, a)) == Frees(cm) - {(a + cm[a].size, cm[a + cm[a].size].size)}
  {
    var n := a + cm[a].size;
    ChunkAt(cm, base, top, a);
    ChunkAt(cm, base, top, n);
    AlignedSum(cm[a].size, cm[n].size);
    hide Aligned;
    var cm' := AbsorbNext(cm, a);
    forall b: nat ensures ChunkOk(cm', base, top, b) {
      ChunkAt(cm, base, top, b);
      assert Apart(cm, b, a) && Apart(cm, a, b) && Apart(cm, n, b);
      if b in cm && b + cm[b].size == n { assert Apart(cm, b, a); }
      if b in cm && cm[b].pfree > 0 { ChunkAt(cm, base, top, b - cm[b].pfree); }
    }
    forall b: nat, c: nat ensures Apart(cm', b, c) {
      assert Apart(cm, b, c) && Apart(cm, n, c);
    }
  }

  lemma DropLastKeeps(cm: Layout, base: nat, top: nat, a: nat)
    requires LayoutOk(cm, base, top) && a in cm && cm[a].used && cm[a].pfree == 0 && a + cm[a].size == top
    ensures LayoutOk(DropLast(cm, a), base, a)
    ensures Frees(DropLast(cm, a)) == Frees(cm)
  {
    hide Aligned;
    ChunkAt(cm, base, top, a);
    var cm' := DropLast(cm, a);
    forall b: nat ensures ChunkOk(cm', base, a, b) {
      ChunkAt(cm, base, top, b);
      assert Apart(cm, b, a) && Apart(cm, a, b);
      if b in cm && b + cm[b].size == a { PInuseIsExact(cm, base, top, b, a); }
      if b in cm && cm[b].pfree > 0 { ChunkAt(cm, base, top, b - cm[b].pfree); }
    }
    forall b: nat, c: nat ensures Apart(cm', b, c) {
      assert Apart(cm, b, c);
    }
  }

  // ------------------------------------------------------------------ changes put together

  /** Free chunk a becomes a used chunk of nb bytes and a free rest. */
  function SplitFree(cm: Layout, a: nat, nb: nat): Layout
    requires a in cm && nb <= cm[a].size
  {
    Mark(cm[a := Chunk(nb, true, cm[a].pfree)][a + nb := Chunk(cm[a].size - nb, false, 0)],
         a + cm[a].size, cm[a].size - nb)
  }

  lemma SplitFreeKeeps(cm: Layout, base: nat, top: nat, a: nat, nb: nat)
    requires LayoutOk(cm, base, top) && a in cm && !cm[a].used
    requires Aligned(nb) && nb >= MIN_CHUNK && nb + MIN_CHUNK <= cm[a].size
    ensures LayoutOk(SplitFree(cm, a, nb), base, top)
    ensures Frees(SplitFree(cm, a, nb)) == Frees(cm) - {(a, cm[a].size)} + {(a + nb, cm[a].size - nb)}
    ensures a + nb !in cm
  {
    var s := cm[a].size;
    ChunkAt(cm, base, top, a);
    TakeKeeps(cm, base, top, a);
    var cm1 := Take(cm, a);
    SplitKeeps(cm1, base, top, a, nb);
    var cm2 := Split(cm1, a, nb);
    ReleaseKeeps(cm2, base, top, a + nb);
    assert Release(cm2, a + nb) == SplitFree(cm, a, nb);
  }

  /** Chunk a joined with the free chunk before it, if there is one. */
  function JoinPrev(cm: Layout, a: nat): Layout
    requires a in cm && cm[a].pfree <= a && (cm[a].pfree > 0 ==> a - cm[a].pfree in cm)
  {
    if cm[a].pfree > 0 then AbsorbPrev(cm, a) else cm
  }

  function PrevFree(cm: Layout, a: nat): set<(nat, nat)>
    requires a in cm && cm[a].pfree <= a
  {
    if cm[a].pfree > 0 then {(a - cm[a].pfree, cm[a].pfree)} else {}
  }

  lemma JoinPrevKeeps(cm: Layout, base: nat, top: nat, a: nat)
    requires LayoutOk(cm, base, top) && a in cm && cm[a].used
    ensures cm[a].pfree <= a && (cm[a].pfree > 0 ==> a - cm[a].pfree in cm)
    ensures var p, cm' := a - cm[a].pfree, JoinPrev(cm, a);
            && LayoutOk(cm', base, top) && Frees(cm') == Frees(cm) - PrevFree(cm, a)
            && p in cm' && cm'[p] == Chunk(cm[a].pfree + cm[a].size, true, 0)
            && (forall b :: b in cm' && b > a ==> b in cm && cm'[b] == cm[b])
            && (forall b :: b in cm && b > a ==> b in cm')
  {
    ChunkAt(cm, base, top, a);
    if cm[a].pfree > 0 { AbsorbPrevKeeps(cm, base, top, a); }
  }

  /** The three ways a used chunk a is freed: kept apart from what follows, ... */
  function FreePlain(cm: Layout, a: nat): Layout
    requires a in cm && cm[a].pfree <= a && (cm[a].pfree > 0 ==> a - cm[a].pfree in cm)
  {
    Release(JoinPrev(cm, a), a - cm[a].pfree)
  }

  /** ... joined with the free chunk after it, ... */
  function FreeJoined(cm: Layout, a: nat): Layout
    requires a in cm && cm[a].pfree <= a && (cm[a].pfree > 0 ==> a - cm[a].pfree in cm) && a + cm[a].size in cm
  {
    var p, n := a - cm[a].pfree, a + cm[a].size;
    var cm1 := JoinPrev(cm, a);
    if p in cm1 && p + cm1[p].size in cm1 then Release(AbsorbNext(cm1, p), p) else cm
  }

  /** ... or joined with top. */
  function FreeIntoTop(cm: Layout, a: nat): Layout
    requires a in cm && cm[a].pfree <= a && (cm[a].pfree > 0 ==> a - cm[a].pfree in cm)
  {
    DropLast(JoinPrev(cm, a), a - cm[a].pfree)
  }

  lemma FreePlainKeeps(cm: Layout, base: nat, top: nat, a: nat)
    requires LayoutOk(cm, base, top) && a in cm && cm[a].used
    requires a + cm[a].size in cm && cm[a + cm[a].size].used
    ensures cm[a].pfree <= a && (cm[a].pfree > 0 ==> a - cm[a].pfree in cm)
    ensures LayoutOk(FreePlain(cm, a), base, top)
    ensures Frees(FreePlain(cm, a)) ==
            Frees(cm) - PrevFree(cm, a) + {(a - cm[a].pfree, cm[a].pfree + cm[a].size)}
  {
    JoinPrevKeeps(cm, base, top, a);
    ChunkAt(cm, base, top, a);
    ReleaseKeeps(JoinPrev(cm, a), base, top, a - cm[a].pfree);
  }

  lemma FreeJoinedKeeps(cm: Layout, base: nat, top: nat, a: nat)
    requires LayoutOk(cm, base, top) && a in cm && cm[a].used
    requires a + cm[a].size in cm && !cm[a + cm[a].size].used
    ensures cm[a].pfree <= a && (cm[a].pfree > 0 ==> a - cm[a].pfree in cm)
    ensures LayoutOk(FreeJoined(cm, a), base, top)
    ensures var n := a + cm[a].size;
            Frees(FreeJoined(cm, a)) ==
            Frees(cm) - PrevFree(cm, a) - {(n, cm[n].size)}
            + {(a - cm[a].pfree, cm[a].pfree + cm[a].size + cm[n].size)}
  {
    var p, n := a - cm[a].pfree, a + cm[a].size;
    JoinPrevKeeps(cm, base, top, a);
    ChunkAt(cm, base, top, a);
    ChunkAt(cm, base, top, n);
    ChunkAt(cm, base, top, n + cm[n].size);
    var cm1 := JoinPrev(cm, a);
    AbsorbNextKeeps(cm1, base, top, p);
    ReleaseKeeps(AbsorbNext(cm1, p), base, top, p);
  }

  lemma FreeIntoTopKeeps(cm: Layout, base: nat, top: nat, a: nat)
    requires LayoutOk(cm, base, top) && a in cm && cm[a].used && a + cm[a].size == top
    ensures cm[a].pfree <= a && (cm[a].pfree > 0 ==> a - cm[a].pfree in cm)
    ensures LayoutOk(FreeIntoTop(cm, a), base, a - cm[a].pfree)
    ensures Frees(FreeIntoTop(cm, a)) == Frees(cm) - PrevFree(cm, a)
  {
    JoinPrevKeeps(cm, base, top, a);
    DropLastKeeps(JoinPrev(cm, a), base, top, a - cm[a].pfree);
  }

  /** What freeing leaves at every address. */
  lemma FreePlainShape(cm: Layout, base: nat, top: nat, a: nat)
    requires LayoutOk(cm, base, top) && a in cm && cm[a].used
    requires a + cm[a].size in cm && cm[a + cm[a].size].used
    ensures cm[a].pfree <= a && (cm[a].pfree > 0 ==> a - cm[a].pfree in cm)
    ensures var p, ps, n := a - cm[a].pfree, cm[a].pfree + cm[a].size, a + cm[a].size;
            var cm' := FreePlain(cm, a);
            && (forall b :: b in cm' <==> b in cm && (b != a || b == p))
            && (forall b :: b in cm' ==>
                  cm'[b] == if b == p then Chunk(ps, false, 0) else if b == n then cm[b].(pfree := ps) else cm[b])
  {
    JoinPrevKeeps(cm, base, top, a);
    ChunkAt(cm, base, top, a);
  }

  lemma JoinPrevShape(cm: Layout, base: nat, top: nat, a: nat)
    requires LayoutOk(cm, base, top) && a in cm && cm[a].used
    requires a + cm[a].size in cm
    ensures cm[a].pfree <= a && (cm[a].pfree > 0 ==> a - cm[a].pfree in cm)
    ensures cm[a].size > 0 && cm[a + cm[a].size].size > 0
    ensures var p, cm1 := a - cm[a].pfree, JoinPrev(cm, a);
            && (forall b :: b in cm1 <==> b in cm && (b != a || b == p))
            && (forall b :: b in cm1 ==> cm1[b] == if b == p then Chunk(cm[a].pfree + cm[a].size, true, 0) else cm[b])
  {
    JoinPrevKeeps(cm, base, top, a);
    ChunkAt(cm, base, top, a);
    ChunkAt(cm, base, top, a + cm[a].size);
  }

  /** Block p, joined with the free chunk at n after it and freed. */
  lemma AbsorbAndReleaseShape(cm: Layout, p: nat)
    requires p in cm && cm[p].used && cm[p].pfree == 0 && p + cm[p].size in cm && cm[p].size > 0
    requires cm[p + cm[p].size].size > 0
    ensures var n := p + cm[p].size;
            var nn, ps := n + cm[n].size, cm[p].size + cm[n].size;
            var cm' := Release(AbsorbNext(cm, p), p);
            && (forall b :: b in cm' <==> b in cm && b != n)
            && (forall b :: b in cm' ==>
                  cm'[b] == if b == p then Chunk(ps, false, 0) else if b == nn then cm[b].(pfree := ps) else cm[b])
  {
    var cm1 := AbsorbNext(cm, p);
    assert p in cm1 && cm1[p] == Chunk(cm[p].size + cm[p + cm[p].size].size, true, 0);
  }

  lemma FreeJoinedShape(cm: Layout, base: nat, top: nat, a: nat)
    requires LayoutOk(cm, base, top) && a in cm && cm[a].used
    requires a + cm[a].size in cm && !cm[a + cm[a].size].used
    ensures cm[a].pfree <= a && (cm[a].pfree > 0 ==> a - cm[a].pfree in cm)
    ensures var p, n := a - cm[a].pfree, a + cm[a].size;
            var nn, ps := n + cm[n].size, cm[a].pfree + cm[a].size + cm[n].size;
            var cm' := FreeJoined(cm, a);
            && (forall b :: b in cm' <==> b in cm && b != n && (b != a || b == p))
            && (forall b :: b in cm' ==>
                  cm'[b] == if b == p then Chunk(ps, false, 0) else if b == nn then cm[b].(pfree := ps) else cm[b])
  {
    hide LayoutOk, JoinPrev, Release, AbsorbNext;
    JoinPrevShape(cm, base, top, a);
    AbsorbAndReleaseShape(JoinPrev(cm, a), a - cm[a].pfree);
  }

  /** Used chunk a and the free chunk after it become a used chunk of nb bytes and a free rest. */
  function ShiftFree(cm: Layout, a: nat, nb: nat): Layout
    requires a in cm && a + cm[a].size in cm && nb <= cm[a].size + cm[a + cm[a].size].size
  {
    var n := a + cm[a].size;
    var rsize := cm[a].size + cm[n].size - nb;
    Mark((cm - {n})[a := cm[a].(size := nb)][a + nb := Chunk(rsize, false, 0)], n + cm[n].size, rsize)
  }

  lemma ShiftFreeShape(cm: Layout, base: nat, top: nat, a: nat, nb: nat)
    requires LayoutOk(cm, base, top) && a in cm && cm[a].used
    requires a + cm[a].size in cm && !cm[a + cm[a].size].used
    requires Aligned(nb) && nb >= MIN_CHUNK && nb + MIN_CHUNK <= cm[a].size + cm[a + cm[a].size].size
    ensures var n, r := a + cm[a].size, a + nb;
            var nn, rsize := n + cm[n].size, cm[a].size + cm[n].size - nb;
            var cm' := ShiftFree(cm, a, nb);
            && (forall b :: b in cm' <==> b == r || (b in cm && b != n))
            && (forall b :: b in cm' ==>
                  cm'[b] == if b == a then cm[a].(size := nb) else if b == r then Chunk(rsize, false, 0)
                            else if b == nn then cm[b].(pfree := rsize) else cm[b])
  {
    ChunkAt(cm, base, top, a);
    ChunkAt(cm, base, top, a + cm[a].size);
  }

  lemma ShiftFreeKeeps(cm: Layout, base: nat, top: nat, a: nat, nb: nat)
    requires LayoutOk(cm, base, top) && a in cm && cm[a].used
    requires a + cm[a].size in cm && !cm[a + cm[a].size].used
    requires Aligned(nb) && nb >= MIN_CHUNK && nb + MIN_CHUNK <= cm[a].size + cm[a + cm[a].size].size
    ensures LayoutOk(ShiftFree(cm, a, nb), base, top)
    ensures var n := a + cm[a].size;
            Frees(ShiftFree(cm, a, nb)) ==
            Frees(cm) - {(n, cm[n].size)} + {(a + nb, cm[a].size + cm[n].size - nb)}
  {
    var n := a + cm[a].size;
    ChunkAt(cm, base, top, a);
    ChunkAt(cm, base, top, n);
    ChunkAt(cm, base, top, n + cm[n].size);
    AbsorbNextKeeps(cm, base, top, a);
    var cm1 := AbsorbNext(cm, a);
    SplitKeeps(cm1, base, top, a, nb);
    var cm2 := Split(cm1, a, nb);
    ReleaseKeeps(cm2, base, top, a + nb);
    assert Release(cm2, a + nb) == ShiftFree(cm, a, nb);
  }

  // ------------------------------------------------------------------ the live blocks

  /** The chunks in use, with their sizes: what the layout means to the callers of the heap. */
  function Blocks(cm: Layout): (r: map<nat, nat>)
    ensures forall a :: a in r <==> a in cm && cm[a].used
    ensures forall a :: a in r ==> r[a] == cm[a].size
  {
    map a | a in cm && cm[a].used :: cm[a].size
  }

  lemma MallocBlocks(cm: Layout, base: nat, top: nat, a: nat, nb: nat)
    requires LayoutOk(cm, base, top)
    ensures a in cm && !cm[a].used ==> Blocks(Take(cm, a)) == Blocks(cm)[a := cm[a].size]
    ensures a in cm && !cm[a].used && 0 < nb < cm[a].size ==> Blocks(SplitFree(cm, a, nb)) == Blocks(cm)[a := nb]
    ensures Blocks(CarveTop(cm, top, nb)) == Blocks(cm)[top := nb]
    ensures a in cm ==> a !in Blocks(cm) || cm[a].used
  {
    ChunkAt(cm, base, top, a);
    if a in cm && 0 < nb < cm[a].size { assert Apart(cm, a, a + nb); }
  }

  lemma FreePlainBlocks(cm: Layout, base: nat, top: nat, a: nat)
    requires LayoutOk(cm, base, top) && a in cm && cm[a].used
    requires a + cm[a].size in cm && cm[a + cm[a].size].used
    ensures cm[a].pfree <= a && (cm[a].pfree > 0 ==> a - cm[a].pfree in cm)
    ensures Blocks(FreePlain(cm, a)) == Blocks(cm) - {a}
  {
    hide FreePlain, LayoutOk, Aligned;
    FreePlainShape(cm, base, top, a);
    ChunkAt(cm, base, top, a);
  }

  lemma FreeJoinedBlocks(cm: Layout, base: nat, top: nat, a: nat)
    requires LayoutOk(cm, base, top) && a in cm && cm[a].used
    requires a + cm[a].size in cm && !cm[a + cm[a].size].used
    ensures cm[a].pfree <= a && (cm[a].pfree > 0 ==> a - cm[a].pfree in cm)
    ensures Blocks(FreeJoined(cm, a)) == Blocks(cm) - {a}
  {
    hide FreeJoined, LayoutOk, Aligned;
    FreeJoinedShape(cm, base, top, a);
    ChunkAt(cm, base, top, a);
  }

  lemma FreeIntoTopBlocks(cm: Layout, base: nat, top: nat, a: nat)
    requires LayoutOk(cm, base, top) && a in cm && cm[a].used && a + cm[a].size == top
    ensures cm[a].pfree <= a && (cm[a].pfree > 0 ==> a - cm[a].pfree in cm)
    ensures Blocks(FreeIntoTop(cm, a)) == Blocks(cm) - {a}
  {
    ChunkAt(cm, base, top, a);
  }

  lemma SplitBlocks(cm: Layout, base: nat, top: nat, a: nat, nb: nat)
    requires LayoutOk(cm, base, top) && a in cm && cm[a].used && 0 < nb < cm[a].size
    ensures Blocks(Split(cm, a, nb)) == Blocks(cm)[a := nb][a + nb := cm[a].size - nb]
  {
  }

  lemma ResizeLastBlocks(cm: Layout, a: nat, nb: nat)
    requires a in cm && cm[a].used
    ensures Blocks(ResizeLast(cm, a, nb)) == Blocks(cm)[a := nb]
  {
  }

  lemma AbsorbNextBlocks(cm: Layout, base: nat, top: nat, a: nat)
    requires LayoutOk(cm, base, top) && a in cm && cm[a].used
    requires a + cm[a].size in cm && !cm[a + cm[a].size].used
    ensures Blocks(AbsorbNext(cm, a)) == Blocks(cm)[a := cm[a].size + cm[a + cm[a].size].size]
  {
    ChunkAt(cm, base, top, a);
  }

  lemma ShiftFreeBlocks(cm: Layout, base: nat, top: nat, a: nat, nb: nat)
    requires LayoutOk(cm, base, top) && a in cm && cm[a].used
    requires a + cm[a].size in cm && !cm[a + cm[a].size].used
    requires Aligned(nb) && nb >= MIN_CHUNK && nb + MIN_CHUNK <= cm[a].size + cm[a + cm[a].size].size
    ensures Blocks(ShiftFree(cm, a, nb)) == Blocks(cm)[a := nb]
  {
    var n := a + cm[a].size;
    ShiftFreeShape(cm, base, top, a, nb);
    ChunkAt(cm, base, top, a);
    ChunkAt(cm, base, top, n);
    assert Apart(cm, a, a + nb) && Apart(cm, n, a + nb);
    hide ShiftFree;
  }

  /** A split point inside block a or the free chunk behind it is no chunk yet, unless it is where they meet. */
  lemma RestApart(cm: Layout, base: nat, top: nat, a: nat, nb: nat, nsize: nat)
    requires LayoutOk(cm, base, top) && a in cm && cm[a].used && IsFree(cm, (a + cm[a].size, nsize))
    requires 0 < nb < cm[a].size + nsize
    ensures a + nb in cm ==> nb == cm[a].size
  {
    assert Apart(cm, a, a + nb) && Apart(cm, a + cm[a].size, a + nb);
  }

  lemma BlocksApart(cm: Layout, base: nat, top: nat, a: nat, b: nat)
    requires LayoutOk(cm, base, top) && a in cm && b in cm && a != b
    ensures a + cm[a].size <= b || b + cm[b].size <= a
  {
    assert Apart(cm, a, b) && Apart(cm, b, a);
  }

  // ------------------------------------------------------------------ conservation

  /** The bytes of the chunks from a up to top that are in use, or that are free. */
  ghost function Bytes(cm: Layout, a: nat, top: nat, used: bool): nat
    decreases top - a
  {
    if a >= top || a !in cm || cm[a].size == 0 then 0
    else (if cm[a].used == used then cm[a].size else 0) + Bytes(cm, a + cm[a].size, top, used)
  }

  /** They add up to all bytes between a and top. */
  lemma {:induction false} BytesFill(cm: Layout, base: nat, top: nat, a: nat)
    requires LayoutOk(cm, base, top) && (a in cm || a == top)
    ensures Bytes(cm, a, top, true) + Bytes(cm, a, top, false) == top - a
    decreases top - a
  {
    ChunkAt(cm, base, top, a);
    if a < top { BytesFill(cm, base, top, a + cm[a].size); }
  }
}
