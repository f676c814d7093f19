/**
  The allocator of the symmetric heap: src/malloc.c as this repository configures it (no mmap,
  no locks, no footers, memory from shmem_internal_get_next of src/symmetric_heap_c.c), working in
  place on the fields of its malloc_state and on the words of the heap.

  The ghost field cm is the division of the heap into chunks.  What callers rely on is
  Blocks(cm), the map of live blocks, and that nobody touches the payload of a live block.
*/
module Heap {
  import opened Arith
  import opened MemBytes
  import opened HeapLayout
  import opened HeapWords
  import opened SmallBins
  import opened TreeBins
  import opened Rings
  import opened SmallLinks
  import opened TreeLinks
  import opened BinLinks
  import opened HeapLinks
  import opened TreeSearch
  import opened Wrappers

  const MAX_SIZE_T: nat := WORD - 1
  const HALF_MAX: nat := TOP_BIT - 1
  const TOP_FOOT_SIZE: nat := 80
  const PADDING: nat := 96              // TOP_FOOT_SIZE + MALLOC_ALIGNMENT
  const MIN_REQUEST: nat := 23
  const MAX_REQUEST: nat := WORD - 128
  const MAX_SMALL_REQUEST: nat := 232
  const CMFAIL: int := -1

  function PadRequest(bytes: nat): nat {
    (bytes + 23) / 16 * 16
  }

  function Request2Size(bytes: nat): nat {
    if bytes < MIN_REQUEST then MIN_CHUNK else PadRequest(bytes)
  }

  /** Room for the request and the overhead of one word, in multiples of the alignment. */
  lemma RequestFits(bytes: nat)
    ensures Aligned(Request2Size(bytes)) && Request2Size(bytes) >= MIN_CHUNK
    ensures bytes + 8 <= Request2Size(bytes) <= bytes + 32
    ensures bytes <= MAX_SMALL_REQUEST ==> Request2Size(bytes) <= 240
    ensures bytes > MAX_SMALL_REQUEST ==> Request2Size(bytes) >= 256
  {
    var q := (bytes + 23) / 16;
    DivModUnique(q * 16, 16, q, 0);
  }

  /** s rounded up to a multiple of unit. */
  function RoundUp(s: nat, unit: nat): nat
    requires unit > 0
  {
    (s + unit - 1) / unit * unit
  }

  lemma RoundedUp(s: nat, unit: nat)
    requires unit > 0 && Aligned(unit)
    ensures s <= RoundUp(s, unit) < s + unit && Aligned(RoundUp(s, unit))
  {
    var q := (s + unit - 1) / unit;
    FloorMultiple(s + unit - 1, unit);
    MultipleIsAligned(q, unit);
  }

  lemma MultipleIsAligned(q: nat, unit: nat)
    requires Aligned(unit)
    ensures Aligned(q * unit)
  {
    var k := unit / 16;
    assert unit == 16 * k;
    assert q * unit == (q * k) * 16;
    DivModUnique(q * unit, 16, q * k, 0);
  }

  /** The size sys_alloc asks for, in 64-bit arithmetic. */
  function AllocationSize(nb: nat, gran: nat): nat
    requires gran > 0
  {
    var x := (nb + PADDING + gran - 1) % WORD;
    FloorMultiple(x, gran);
    x - x % gran
  }

  /** When 64 bits are not enough for the padded request, the wrapped size is no more than nb. */
  lemma AllocationSizeIsRight(nb: nat, gran: nat)
    requires nb < WORD && 0 < gran < MAX_CHUNK && Aligned(gran)
    ensures AllocationSize(nb, gran) > nb ==> AllocationSize(nb, gran) == RoundUp(nb + PADDING, gran) && nb < MAX_SIZE_T
  {
    var x := nb + PADDING + gran - 1;
    if x >= WORD {
      DivModUnique(x, WORD, 1, x - WORD);
      FloorMultiple(x - WORD, gran);
    } else {
      SmallMod(x, WORD);
      FloorMultiple(x, gran);
    }
  }

  /** Exactly one bit of x is set. */
  predicate PowerOfTwo(x: nat) {
    x == 1 || (x > 1 && x % 2 == 0 && PowerOfTwo(x / 2))
  }

  /** The larger of two powers of two is a multiple of the smaller. */
  lemma {:induction false} PowersDivide(x: nat, y: nat)
    requires PowerOfTwo(x) && PowerOfTwo(y) && y <= x
    ensures x % y == 0
  {
    if y > 1 {
      PowersDivide(x / 2, y / 2);
      var q := x / 2 / (y / 2);
      assert x / 2 == q * (y / 2) && x == 2 * (x / 2) && y == 2 * (y / 2);
      assert q * y == 2 * (q * (y / 2));
      DivModUnique(x, y, q, 0);
    }
  }

  lemma MultipleOf32(x: nat)
    requires PowerOfTwo(x) && x >= 32
    ensures Aligned(x)
  {
    assert PowerOfTwo(16) by { assert PowerOfTwo(2); assert PowerOfTwo(4); assert PowerOfTwo(8); }
    PowersDivide(x, 16);
  }

  predicate IsMultiple(x: nat, y: nat) {
    y > 0 && x % y == 0
  }

  lemma SixteenIsPower()
    ensures PowerOfTwo(16) && PowerOfTwo(32)
  {
    assert PowerOfTwo(2) && PowerOfTwo(4);
    assert PowerOfTwo(8);
  }

  lemma PowerAbove16(x: nat)
    requires PowerOfTwo(x) && x > 16
    ensures x >= 32
  {
    SixteenIsPower();
    PowersDivide(x, 16);
  }

  /** A multiple of 16 is a multiple of every power of two up to 16. */
  lemma SmallAlignment(r: nat, alignment: nat)
    requires Aligned(r) && alignment <= 16
    ensures IsMultiple(r, 16) && (PowerOfTwo(alignment) ==> IsMultiple(r, alignment))
  {
    SixteenIsPower();
    if PowerOfTwo(alignment) {
      PowersDivide(16, alignment);
      var q, c := r / 16, 16 / alignment;
      assert 16 == c * alignment;
      assert r == (q * c) * alignment by { assert r == q * 16; assert q * (c * alignment) == (q * c) * alignment; }
      DivModUnique(r, alignment, q * c, 0);
    }
  }

  /** The first aligned spot at or after m. */
  lemma AlignedSpot(m: nat, alignment: nat)
    requires m >= 16 && Aligned(m) && alignment > 0 && Aligned(alignment)
    ensures m <= RoundUp(m, alignment) < m + alignment
    ensures IsMultiple(RoundUp(m, alignment), alignment) && IsMultiple(RoundUp(m, alignment) + alignment, alignment)
    ensures Aligned(RoundUp(m, alignment) - m) && Aligned(RoundUp(m, alignment) - m + alignment)
    ensures !IsMultiple(m, alignment) ==> RoundUp(m, alignment) > m
  {
    RoundedUp(m, alignment);
    var q := (m + alignment - 1) / alignment;
    DivModUnique(q * alignment, alignment, q, 0);
    assert (q + 1) * alignment == q * alignment + alignment;
    DivModUnique(q * alignment + alignment, alignment, q + 1, 0);
    AlignedSum(RoundUp(m, alignment), m);
    AlignedSum(RoundUp(m, alignment) - m, alignment);
  }

  lemma {:induction false} Pow2IsPower(k: nat)
    ensures PowerOfTwo(Pow2(k))
  {
    if k > 0 { Pow2IsPower(k - 1); }
  }

  /** A power of two below 2^63 can be doubled. */
  lemma PowerGap(b: nat)
    requires PowerOfTwo(b) && b < TOP_BIT
    ensures 2 * b <= TOP_BIT && PowerOfTwo(2 * b)
  {
    Pow2Values();
    Pow2IsPower(63);
    IsDouble(b);
    hide PowerOfTwo, Pow2;
    PowersDivide(TOP_BIT, b);
    DoubleFits(TOP_BIT, b);
  }

  lemma IsDouble(b: nat)
    requires PowerOfTwo(b)
    ensures PowerOfTwo(2 * b) && b > 0
  {
  }

  lemma DoubleFits(x: nat, b: nat)
    requires 0 < b < x && x % b == 0
    ensures 2 * b <= x
  {
    var q := x / b;
    assert x == q * b;
    if q >= 2 { MulTwice(q, b); }
  }

  /** 32 doubled k times, in 64 bits. */
  function Doubled(k: nat): nat {
    (MIN_CHUNK * Pow2(k)) % WORD
  }

  lemma {:induction false} HighPowersVanish(k: nat)
    requires k >= 59
    ensures (MIN_CHUNK * Pow2(k)) % WORD == 0
  {
    Pow2Values();
    if k == 59 {
      Pow2Product(5, 59);
      assert Pow2(5) == 32 by { assert Pow2(2) == 4; assert Pow2(4) == 16; }
    } else {
      HighPowersVanish(k - 1);
      var x := MIN_CHUNK * Pow2(k - 1);
      var q := x / WORD;
      assert MIN_CHUNK * Pow2(k) == 2 * x;
      assert x == q * WORD && 2 * x == (2 * q) * WORD;
      ModPlusMultiple(0, WORD, 2 * q);
    }
  }

  /** The doubling reaches an alignment exactly when it is at most 2^63; above that it would go on for ever. */
  lemma DoublingEnds(alignment: nat)
    ensures (exists k: nat :: Doubled(k) >= alignment) <==> alignment <= TOP_BIT
  {
    Pow2Values();
    Pow2Product(5, 58);
    assert Pow2(5) == 32 by { assert Pow2(2) == 4; assert Pow2(4) == 16; }
    SmallMod(TOP_BIT, WORD);
    assert Doubled(58) == TOP_BIT;
    forall k: nat ensures Doubled(k) <= TOP_BIT {
      if k >= 59 {
        HighPowersVanish(k);
      } else {
        Pow2Grows(k, 58);
        assert MIN_CHUNK * Pow2(k) <= TOP_BIT;
        SmallMod(MIN_CHUNK * Pow2(k), WORD);
      }
    }
  }

  /** a is the least power of two that is at least the alignment and at least a smallest chunk. */
  ghost predicate IsLeastPower(a: nat, alignment: nat) {
    && PowerOfTwo(a) && a >= MIN_CHUNK && a >= alignment
    && forall b: nat :: PowerOfTwo(b) && b >= MIN_CHUNK && b >= alignment ==> a <= b
  }

  lemma HalfIsTooSmall(a: nat, alignment: nat)
    requires PowerOfTwo(a) && a >= MIN_CHUNK && a >= alignment
    requires a == MIN_CHUNK || a == alignment || a < 2 * alignment
    ensures IsLeastPower(a, alignment) == true
  {
    forall b: nat | PowerOfTwo(b) && b >= MIN_CHUNK && b >= alignment ensures a <= b {
      if b < a { PowersDouble(a, b); }
    }
  }

  /** Of two powers of two the larger is at least twice the smaller. */
  lemma {:induction false} PowersDouble(a: nat, b: nat)
    requires PowerOfTwo(a) && PowerOfTwo(b) && b < a
    ensures 2 * b <= a
  {
    if b > 1 { PowersDouble(a / 2, b / 2); }
  }

  /** The alignment memalign works with: the least power of two that is large enough. */
  method RoundAlignment(alignment: nat) returns (a: nat)
    requires alignment <= TOP_BIT
    ensures IsLeastPower(a, alignment) == true && a <= TOP_BIT
  {
    hide IsLeastPower;
    a := if alignment < MIN_CHUNK then MIN_CHUNK else alignment;
    assert PowerOfTwo(32) by { assert PowerOfTwo(4); assert PowerOfTwo(8); assert PowerOfTwo(16); }
    if !PowerOfTwo(a) {
      var b := 32;
      while b < a
        invariant PowerOfTwo(b) && MIN_CHUNK <= b <= TOP_BIT && (b == MIN_CHUNK || b < 2 * a)
        decreases a - b
      {
        PowerGap(b);
        b := 2 * b;
      }
      a := b;
    }
    HalfIsTooSmall(a, alignment);
  }

  lemma RestIsGone(blocks: map<nat, nat>, p: nat, nb: nat, rsize: nat)
    requires p in blocks && nb > 0 && p + nb !in blocks
    ensures blocks[p := nb][p + nb := rsize] - {p + nb} == blocks[p := nb]
    ensures Covers(blocks[p := nb], blocks[p := nb][p + nb := rsize])
  {
  }

  function Least(x: nat, y: nat): nat {
    if x <= y then x else y
  }

  lemma NextHeadOfChunk(mem: Memory, cm: Layout, base: nat, top: nat, topsize: nat, a: nat, n: nat)
    requires LayoutOk(cm, base, top) && TagsOk(mem, cm, top, topsize) && a in cm && cm[a].used && n == a + cm[a].size && n in cm
    ensures CInuse(Word(mem, n + 8)) == cm[n].used && PInuse(Word(mem, n + 8))
    ensures ChunkSize(Word(mem, n + 8)) == cm[n].size && cm[n].size % 8 == 0
  {
    hide Aligned, Head, CInuse, PInuse, ChunkSize;
    ChunkAt(cm, base, top, n);
    TagAt(mem, cm, top, topsize, n);
    PInuseIsExact(cm, base, top, a, n);
    HeadFields(cm[n].size, cm[n].used, true);
    AlignedBy8(cm[n].size);
  }

  lemma HeadOfTop(mem: Memory, cm: Layout, top: nat, topsize: nat)
    requires TagsOk(mem, cm, top, topsize) && Aligned(topsize)
    ensures !CInuse(Word(mem, top + 8)) && PInuse(Word(mem, top + 8))
  {
    HeadFields(topsize, false, true);
  }

  /** What sys_trim releases of x spare bytes: whole units, keeping at least one byte. */
  function TrimSize(x: nat, unit: nat): (r: nat)
    requires x > 0 && unit > 0
  {
    FloorMultiple(x - 1, unit);
    (x - 1) / unit * unit
  }

  lemma TrimmedSize(x: nat, unit: nat)
    requires x > 0 && unit > 0 && Aligned(unit)
    ensures x - unit <= TrimSize(x, unit) < x && TrimSize(x, unit) % unit == 0 && Aligned(TrimSize(x, unit))
    ensures TrimSize(x, unit) == ((x + unit - 1) / unit - 1) * unit
  {
    FloorMultiple(x - 1, unit);
    var q, r := (x - 1) / unit, (x - 1) % unit;
    MultipleIsAligned(q, unit);
    DivModUnique(q * unit, unit, q, 0);
    assert (q + 1) * unit == q * unit + unit;
    DivModUnique(x + unit - 1, unit, q + 1, r);
  }

  lemma LayoutBounds(cm: Layout, base: nat, top: nat)
    requires LayoutOk(cm, base, top)
    ensures base <= top && Aligned(top) && top !in cm
  {
    ChunkAt(cm, base, top, top);
  }

  /** Writing top's head and the foot behind top changes no chunk. */
  lemma TopMoved(mem: Memory, mem': Memory, cm: Layout, base: nat, top: nat, topsize: nat)
    requires LayoutOk(cm, base, top) && Aligned(topsize) && topsize > 0
    requires mem' == SetTop(mem, top, topsize)[top + topsize + 8 := TOP_FOOT_SIZE]
    requires forall a: nat {:trigger TagOk(mem, cm, a)} :: TagOk(mem, cm, a)
    ensures TagsOk(mem', cm, top, topsize) && Preserved(mem, mem', Blocks(cm))
  {
    var mem1 := SetTop(mem, top, topsize);
    AlignedSum(top, topsize);
    WriteHead(mem1, top + topsize, TOP_FOOT_SIZE, top);
    SetTopAt(mem, top, topsize, top);
    forall a: nat ensures TagOk(mem', cm, a) {
      assert TagOk(mem, cm, a);
      ChunkAt(cm, base, top, a);
      if a in cm {
        SetTopAt(mem, top, topsize, a);
        WriteHead(mem1, top + topsize, TOP_FOOT_SIZE, a);
      }
    }
    forall a: nat, w: nat | a in Blocks(cm) && a + 16 <= w < a + Blocks(cm)[a] + 8 && w % 8 == 0
      ensures Word(mem', w) == Word(mem, w)
    {
      ChunkAt(cm, base, top, a);
    }
  }

  lemma SplitRestIsNew(cm: Layout, base: nat, top: nat, a: nat, nb: nat)
    requires LayoutOk(cm, base, top) && a in cm && !cm[a].used
    requires Aligned(nb) && nb >= MIN_CHUNK && nb + MIN_CHUNK <= cm[a].size
    ensures (a + nb, cm[a].size - nb) !in Frees(cm) && a !in Blocks(cm)
  {
    SplitFreeKeeps(cm, base, top, a, nb);
  }

  lemma LargeIs(gm: nat, frees: set<(nat, nat)>, items: set<(nat, nat)>)
    requires Separated(gm, frees) && items <= frees && forall x :: x in items ==> x.1 >= 64
    ensures Large(gm, frees, items) == true
  {
  }

  lemma SmallBinsLength(bins: seq<seq<nat>>, a: nat, s: nat)
    requires |bins| == BINS && IsSmall(s)
    ensures |InsertSmall(bins, a, s)| == BINS && |UnlinkSmall(bins, a, s)| == BINS
  {
  }

  // ------------------------------------------------------------------ which chunk malloc takes

  /** The designated victim: its address and size, both 0 when there is none. */
  datatype Victim = Victim(addr: nat, size: nat)

  /** x is a smallest one of the chunks of at least nb bytes. */
  ghost predicate IsSmallestFit(chunks: set<(nat, nat)>, nb: nat, x: (nat, nat)) {
    x in chunks && x.1 >= nb && forall y :: y in chunks && y.1 >= nb ==> x.1 <= y.1
  }

  /**
    A binned chunk of s bytes is taken rather than dv: when dv is too small, and otherwise, for a
    small request, when it leaves nothing to split off, for a large one, when it is smaller than dv.
  */
  predicate Preferred(s: nat, dv0: Victim, nb: nat) {
    dv0.size < nb || (if nb < 256 then s < nb + 16 else s < dv0.size)
  }

  /** The rest of a chunk taken for a small request becomes dv; that for a large request is binned. */
  function DvAfter(dv0: Victim, nb: nat, p: nat, s: nat): Victim {
    if nb < 256 && s >= nb + MIN_CHUNK then Victim(p + nb, s - nb) else dv0
  }

  /** The chunk at p is a smallest sufficient one of the bins, and preferred to dv. */
  ghost predicate FromBin(chunks: set<(nat, nat)>, dv0: Victim, nb: nat, p: nat, dv1: Victim) {
    exists s: nat :: IsSmallestFit(chunks, nb, (p, s)) && Preferred(s, dv0, nb) && dv1 == DvAfter(dv0, nb, p, s)
  }

  ghost predicate NonePreferred(chunks: set<(nat, nat)>, dv0: Victim, nb: nat) {
    forall x :: x in chunks && x.1 >= nb ==> !Preferred(x.1, dv0, nb)
  }

  /** The front of dv, or, when that is too small, of top or of new memory. */
  ghost predicate FromDvOrTop(dv0: Victim, top0: nat, nb: nat, p: nat, dv1: Victim, top1: nat) {
    if nb <= dv0.size then
      p == dv0.addr && top1 == top0 && dv1 == if dv0.size >= nb + MIN_CHUNK then Victim(p + nb, dv0.size - nb) else Victim(0, 0)
    else
      (top0 != 0 ==> p == top0) && top1 == p + nb && dv1 == dv0
  }

  /** Neither dv nor top has room. */
  predicate Needs(dvsize: nat, top: nat, topsize: nat, nb: nat) {
    dvsize < nb && (top == 0 || topsize <= nb)
  }

  class SymmetricHeap {
    // the memory handed to the allocator, and how much of it has been handed out
    const base: nat
    const length: nat
    var curr: int
    // where malloc_state is, outside that memory
    const gm: nat
    // malloc_params
    const gran: nat
    const trimThreshold: nat
    // malloc_state
    var mem: Memory
    ghost var smallbins: seq<seq<nat>>
    var smallmap: set<nat>
    ghost var treebins: seq<Tree>
    var treemap: set<nat>
    var dv: nat
    var dvsize: nat
    var top: nat
    var topsize: nat
    var segBase: nat
    var segSize: nat
    var footprint: nat
    var contiguous: bool
    var trimCheck: nat
    ghost var cm: Layout

    // ---------------------------------------------------------------- the invariant

    /** One segment, from the heap's base up to `end`; chunks, top and the foot fill it, as the tags in m say. */
    ghost predicate ShapeAt(end: int, m: Memory)
      reads `top, `topsize, `segBase, `segSize, `footprint, `cm
    {
      && base > 0 && Aligned(base) && length < MAX_CHUNK && 0 < gran < MAX_CHUNK && Aligned(gran)
      && if top == 0 then
           && cm == map[] && end == base && segSize == 0 && topsize == 0 && footprint == 0
         else
           && segBase == base && end == base + segSize && segSize <= length && footprint == segSize
           && top + topsize + TOP_FOOT_SIZE == base + segSize
           && topsize > 0 && Aligned(topsize)
           && LayoutOk(cm, base, top) && TagsOk(m, cm, top, topsize)
    }

    /** And the link words of the bins say what the bins say. */
    ghost predicate LayoutHoldsAt(end: int)
      reads `mem, `top, `topsize, `segBase, `segSize, `footprint, `cm, `smallbins, `treebins
    {
      && ShapeAt(end, mem)
      && StateOutside(gm, base, base + length) && Linked(mem, gm, smallbins, treebins, Frees(cm))
    }

    /** All that get_next has handed out is the segment. */
    ghost predicate LayoutHolds()
      reads `curr, `mem, `top, `topsize, `segBase, `segSize, `footprint, `cm, `smallbins, `treebins
    {
      LayoutHoldsAt(curr)
    }

    ghost function Binned(): set<(nat, nat)>
      reads `smallbins, `treebins
    {
      SmallItems(smallbins) + AllItems(treebins)
    }

    function DvSet(): set<(nat, nat)>
      reads `dv, `dvsize
    {
      if dvsize == 0 then {} else {(dv, dvsize)}
    }

    function Dv(): Victim
      reads `dv, `dvsize
    {
      Victim(dv, dvsize)
    }

    /** The free chunks are the binned ones and dv, each of them once. */
    ghost predicate BinsHold(frees: set<(nat, nat)>)
      reads `smallbins, `smallmap, `treebins, `treemap, `dv, `dvsize
    {
      && SmallOk(smallbins, smallmap) && BinsOk(treebins, treemap)
      && (dvsize == 0 <==> dv == 0)
      && Binned() !! DvSet()
      && frees == Binned() + DvSet()
    }

    ghost predicate Valid()
      reads this
    {
      LayoutHolds() && BinsHold(Frees(cm))
    }

    constructor (heapBase: nat, heapLength: nat, stateAddress: nat, granularity: nat, threshold: nat)
      requires heapBase > 0 && Aligned(heapBase) && heapLength < MAX_CHUNK
      requires StateOutside(stateAddress, heapBase, heapBase + heapLength)
      requires 0 < granularity < MAX_CHUNK && Aligned(granularity)
      ensures Valid() == true && Blocks(cm) == map[] && base == heapBase && length == heapLength && gran == granularity
    {
      base, length, curr, gm := heapBase, heapLength, heapBase, stateAddress;
      gran, trimThreshold := granularity, threshold;
      mem := map[];
      smallbins, smallmap := seq(BINS, _ => []), {};
      treebins, treemap := seq(LAST_BIN + 1, _ => Leaf), {};
      dv, dvsize, top, topsize, segBase, segSize, footprint := 0, 0, 0, 0, 0, 0, 0;
      contiguous, trimCheck := true, 0;
      cm := map[];
      new;
      forall i | 0 <= i < |treebins| ensures BinOk(treebins, treemap, i) && BinLinked(mem, gm, treebins, i) {
      }
    }

    // ---------------------------------------------------------------- bins

    /** The payload of every block in use reads as it did in that memory. */
    ghost predicate Kept(oldMem: Memory)
      reads `mem, `cm
    {
      Preserved(oldMem, mem, Blocks(cm))
    }

    /** The heads of the chunks and of top read as they did in that memory. */
    ghost predicate HeadsKept(oldMem: Memory)
      reads `mem, `cm, `top
    {
      forall n: nat {:trigger Word(mem, n + 8)} :: n == top || n in cm ==> Word(mem, n + 8) == Word(oldMem, n + 8)
    }

    /** What the link operations ask for. */
    lemma LinksAre()
      requires LayoutHolds() == true && top != 0
      ensures Linked(mem, gm, smallbins, treebins, Frees(cm)) == true
      ensures |smallbins| == BINS && |treebins| == LAST_BIN + 1 && Binned() <= Frees(cm)
      ensures SmallLinked(mem, gm, smallbins) == true && TreesLinked(mem, gm, treebins) == true
      ensures Separated(gm, Frees(cm)) == true && SizesRead(mem, AllItems(treebins)) == true
    {
      hide LayoutOk, TagsOk, SmallLinked, TreesLinked, Separated, SmallItems, AllItems, Frees;
      FreeSizesRead(mem, cm, base, top, topsize, AllItems(treebins));
    }

    /** The links written are the new links of the bins: the layout and the payloads are untouched. */
    lemma LinksWritten(was: Memory, m0: Memory)
      requires ShapeAt(curr, m0) == true && StateOutside(gm, base, base + length) && top != 0 && Preserved(was, m0, Blocks(cm)) == true
      requires Linked(mem, gm, smallbins, treebins, Frees(cm)) == true && OnlyLinks(m0, mem, gm, Frees(cm)) == true
      ensures LayoutHolds() == true && Kept(was) == true && HeadsKept(m0) == true
    {
      hide LayoutOk, TagsOk, Linked, OnlyLinks, Frees, Blocks, Preserved, Aligned, Word;
      LinksKeepTags(m0, mem, cm, base, top, topsize, gm);
      PreservedChain(was, m0, mem, Blocks(cm), Blocks(cm), Blocks(cm));
    }

    /** The chunks of the two kinds of bins are different. */
    lemma BinsAre(frees: set<(nat, nat)>)
      requires BinsHold(frees) == true
      ensures SmallOk(smallbins, smallmap) == true && BinsOk(treebins, treemap) == true
      ensures SmallItems(smallbins) !! AllItems(treebins) && Binned() !! DvSet() && frees == Binned() + DvSet()
      ensures |smallbins| == BINS && |treebins| == LAST_BIN + 1
      ensures forall x :: x in AllItems(treebins) ==> x.1 >= 64
    {
      forall x | x in AllItems(treebins) ensures x !in SmallItems(smallbins) && x.1 >= 64 {
        SizesTellBins(smallbins, smallmap, treebins, treemap, x);
      }
    }

    /** Both bins' ways of linking a free chunk. */
    method InsertChunk(a: nat, s: nat, ghost frees: set<(nat, nat)>, ghost was: Memory)
      requires LayoutHolds() == true && top != 0 && (a, s) in Frees(cm) && Kept(was) == true
      requires BinsHold(frees) == true && (a, s) !in frees && s % 8 == 0 && s < MAX_CHUNK
      modifies `mem, `smallbins, `smallmap, `treebins, `treemap
      ensures LayoutHolds() == true && Kept(was) == true
      ensures BinsHold(frees + {(a, s)}) == true
    {
      hide LayoutHoldsAt, LayoutHolds, BinsHold, Kept, Frees;
      if IsSmall(s) {
        InsertSmallPart(a, s, frees, was);
      } else {
        InsertLargePart(a, s, frees, was);
      }
    }

    method InsertSmallPart(a: nat, s: nat, ghost frees: set<(nat, nat)>, ghost was: Memory)
      requires LayoutHolds() == true && top != 0 && (a, s) in Frees(cm) && Kept(was) == true
      requires BinsHold(frees) == true && (a, s) !in frees && s % 8 == 0 && IsSmall(s)
      modifies `mem, `smallbins, `smallmap
      ensures LayoutHolds() == true && Kept(was) == true
      ensures BinsHold(frees + {(a, s)}) == true
    {
      hide ShapeAt, SmallItems, AllItems, SmallOk, BinsOk, SmallLinked, TreesLinked, Separated, Linked, OnlyLinks, OnlyWithin, SizesRead, InsertSmall, Frees, Blocks, Preserved;
      LinksAre();
      BinsAre(frees);
      InsertSmallAdds(smallbins, smallmap, a, s);
      ghost var m0, small0 := mem, smallbins;
      mem, smallmap := InsertSmallChunk(mem, gm, smallmap, a, s, smallbins, Frees(cm));
      smallbins := InsertSmall(smallbins, a, s);
      SmallBinsLength(small0, a, s);
      SmallChanged(m0, mem, gm, small0, smallbins, treebins, Frees(cm), SmallItems(small0) + {(a, s)});
      LinksWritten(was, m0);
    }

    method InsertLargePart(a: nat, s: nat, ghost frees: set<(nat, nat)>, ghost was: Memory)
      requires LayoutHolds() == true && top != 0 && (a, s) in Frees(cm) && Kept(was) == true
      requires BinsHold(frees) == true && (a, s) !in frees && !IsSmall(s) && s < MAX_CHUNK
      modifies `mem, `treebins, `treemap
      ensures LayoutHolds() == true && Kept(was) == true
      ensures BinsHold(frees + {(a, s)}) == true
    {
      hide ShapeAt, SmallItems, AllItems, SmallOk, BinsOk, SmallLinked, TreesLinked, Separated, Linked, OnlyLinks, OnlyWithin, SizesRead, TreeBins.InsertLarge, Frees, Blocks, Preserved;
      LinksAre();
      BinsAre(frees);
      InsertLargeAdds(treebins, treemap, a, s);
      ghost var m0, trees0 := mem, treebins;
      mem, treemap := InsertLargeChunk(mem, gm, treemap, a, s, treebins, Frees(cm));
      treebins := TreeBins.InsertLarge(treebins, a, s);
      LargeIs(gm, Frees(cm), AllItems(treebins));
      TreesChanged(m0, mem, gm, smallbins, trees0, treebins, Frees(cm), AllItems(trees0) + {(a, s)});
      LinksWritten(was, m0);
    }

    /** Take a binned chunk out of its bin. */
    method UnlinkChunk(a: nat, s: nat, ghost frees: set<(nat, nat)>)
      requires LayoutHolds() == true && top != 0
      requires BinsHold(frees) == true && (a, s) in frees && (a, s) !in DvSet()
      modifies `mem, `smallbins, `smallmap, `treebins, `treemap
      ensures LayoutHolds() == true && Kept(old(mem)) == true && HeadsKept(old(mem)) == true
      ensures BinsHold(frees - {(a, s)}) == true
    {
      BinsAre(frees);
      SizesTellBins(smallbins, smallmap, treebins, treemap, (a, s));
      hide LayoutHoldsAt, LayoutHolds, BinsHold, Kept, HeadsKept, Frees, SmallItems, AllItems;
      if IsSmall(s) {
        UnlinkSmallPart(a, s, frees);
      } else {
        UnlinkLargePart(a, s, frees);
      }
    }

    method UnlinkSmallPart(a: nat, s: nat, ghost frees: set<(nat, nat)>)
      requires LayoutHolds() == true && top != 0 && BinsHold(frees) == true && (a, s) in SmallItems(smallbins) && IsSmall(s)
      modifies `mem, `smallbins, `smallmap
      ensures LayoutHolds() == true && Kept(old(mem)) == true && HeadsKept(old(mem)) == true
      ensures BinsHold(frees - {(a, s)}) == true
    {
      hide ShapeAt, SmallItems, AllItems, SmallOk, BinsOk, SmallLinked, TreesLinked, Separated, Linked, OnlyLinks, OnlyWithin, SizesRead, UnlinkSmall, Frees, Blocks, Preserved, HeadsKept;
      LinksAre();
      BinsAre(frees);
      UnlinkSmallRemoves(smallbins, smallmap, a, s);
      ghost var m0, small0 := mem, smallbins;
      mem, smallmap := UnlinkSmallChunk(mem, gm, smallmap, a, s, smallbins, Frees(cm));
      smallbins := UnlinkSmall(smallbins, a, s);
      SmallBinsLength(small0, a, s);
      SmallChanged(m0, mem, gm, small0, smallbins, treebins, Frees(cm), SmallItems(small0));
      PreservedSame(m0, Blocks(cm));
      LinksWritten(m0, m0);
    }

    method UnlinkLargePart(a: nat, s: nat, ghost frees: set<(nat, nat)>)
      requires LayoutHolds() == true && top != 0 && BinsHold(frees) == true && (a, s) in AllItems(treebins)
      modifies `mem, `treebins, `treemap
      ensures LayoutHolds() == true && Kept(old(mem)) == true && HeadsKept(old(mem)) == true
      ensures BinsHold(frees - {(a, s)}) == true
    {
      hide ShapeAt, SmallItems, AllItems, SmallOk, BinsOk, SmallLinked, TreesLinked, Separated, Linked, OnlyLinks, OnlyWithin, SizesRead, TreeBins.UnlinkLarge, Frees, Blocks, Preserved, HeadsKept;
      LinksAre();
      BinsAre(frees);
      UnlinkLargeRemoves(treebins, treemap, a, s);
      ghost var m0, trees0 := mem, treebins;
      mem, treemap := UnlinkLargeChunk(mem, gm, treemap, a, s, treebins, Frees(cm));
      treebins := TreeBins.UnlinkLarge(treebins, a, s);
      LargeIs(gm, Frees(cm), AllItems(treebins));
      TreesChanged(m0, mem, gm, smallbins, trees0, treebins, Frees(cm), AllItems(trees0));
      PreservedSame(m0, Blocks(cm));
      LinksWritten(m0, m0);
    }

    // ---------------------------------------------------------------- tags

    /** After tags have been written, the links of the bins are as before. */
    lemma TagsWritten(was: Memory, cm0: Layout)
      requires Linked(was, gm, smallbins, treebins, Frees(cm0)) == true && LayoutOk(cm, base, top) == true && base > 0
      requires Spares(was, mem, cm, top) == true && Binned() <= Frees(cm) && StateOutside(gm, base, top + 16)
      ensures Linked(mem, gm, smallbins, treebins, Frees(cm)) == true
    {
      hide LayoutOk, Spares, Linked, SmallItems, AllItems, Frees;
      TagsKeepLinks(was, mem, cm, base, top, gm, smallbins, treebins, Frees(cm0));
    }

    /** set_inuse_and_pinuse on a free chunk of s bytes. */
    method TakeWhole(a: nat, s: nat)
      requires LayoutHolds() == true && top != 0 && a in cm && !cm[a].used && s == cm[a].size && (a, s) !in Binned()
      modifies `mem, `cm
      ensures LayoutHolds() == true && Kept(old(mem)) == true
      ensures Frees(cm) == Frees(old(cm)) - {(a, s)}
      ensures a !in Blocks(old(cm)) && Blocks(cm) == Blocks(old(cm))[a := s]
    {
      hide LayoutOk, TagsOk, Spares, Take, SetInuseAndPinuse, Preserved, Frees, Blocks, SmallLinked, TreesLinked, Linked, Separated, SizesRead, SmallItems, AllItems;
      LinksAre();
      TakeKeeps(cm, base, top, a);
      TakeTags(mem, cm, base, top, topsize, a);
      MallocBlocks(cm, base, top, a, 0);
      ghost var was, cm0 := mem, cm;
      mem := SetInuseAndPinuse(mem, a, s);
      cm := Take(cm, a);
      TagsPreserve(was, mem, cm, base, top);
      TagsWritten(was, cm0);
    }

    /** A free chunk of s bytes: nb bytes handed out, the rest at a + nb free. */
    method SplitChunk(a: nat, nb: nat, s: nat)
      requires LayoutHolds() == true && top != 0 && a in cm && !cm[a].used && s == cm[a].size && (a, s) !in Binned()
      requires Aligned(nb) && nb >= MIN_CHUNK && nb + MIN_CHUNK <= s
      modifies `mem, `cm
      ensures LayoutHolds() == true && Kept(old(mem)) == true
      ensures Frees(cm) == Frees(old(cm)) - {(a, s)} + {(a + nb, s - nb)}
      ensures a !in Blocks(old(cm)) && Blocks(cm) == Blocks(old(cm))[a := nb]
      ensures (a + nb, s - nb) !in Frees(old(cm))
    {
      hide LayoutOk, TagsOk, Spares, SplitFree, SetSizeAndPinuseOfFree, SetSizeAndPinuseOfInuse, Preserved, Frees, Blocks, SmallLinked, TreesLinked, Linked, Separated, SizesRead, SmallItems, AllItems;
      LinksAre();
      SplitRestIsNew(cm, base, top, a, nb);
      SplitFreeStep(mem, cm, base, top, topsize, a, nb);
      ghost var was, cm0 := mem, cm;
      mem := SetSizeAndPinuseOfInuse(mem, a, nb);
      mem := SetSizeAndPinuseOfFree(mem, a + nb, s - nb);
      cm := SplitFree(cm, a, nb);
      TagsWritten(was, cm0);
    }

    /** nb bytes handed out from the front of top. */
    method SplitTop(nb: nat) returns (p: nat)
      requires LayoutHolds() == true && top != 0 && Aligned(nb) && MIN_CHUNK <= nb < topsize
      modifies `mem, `cm, `top, `topsize
      ensures LayoutHolds() == true && top != 0 && Kept(old(mem)) == true && p == old(top) && Aligned(p) && top == p + nb
      ensures p !in Blocks(old(cm)) && Frees(cm) == Frees(old(cm)) && Blocks(cm) == Blocks(old(cm))[p := nb]
    {
      hide LayoutOk, TagsOk, Spares, CarveTop, SetTop, SetSizeAndPinuseOfInuse, Preserved, Frees, Blocks, Aligned, SmallLinked, TreesLinked, Linked, Separated, SizesRead, SmallItems, AllItems;
      LinksAre();
      LayoutBounds(cm, base, top);
      CarveTopKeeps(cm, base, top, nb);
      CarveTopTags(mem, cm, base, top, topsize, nb);
      MallocBlocks(cm, base, top, top, nb);
      AlignedSum(topsize, nb);
      ghost var was, cm0 := mem, cm;
      p := top;
      topsize := topsize - nb;
      top := top + nb;
      mem := SetTop(mem, top, topsize);
      mem := SetSizeAndPinuseOfInuse(mem, p, nb);
      cm := CarveTop(cm, p, nb);
      TagsPreserve(was, mem, cm, base, top);
      TagsWritten(was, cm0);
    }

    /** Block a and a free chunk before it, if there is one, are the psize bytes at p. */
    ghost predicate Joined(a: nat, p: nat, psize: nat)
      reads `cm
    {
      && a in cm && cm[a].used && cm[a].pfree <= a && cm[a].size > 0
      && p == a - cm[a].pfree && psize == cm[a].pfree + cm[a].size
      && (cm[a].pfree > 0 ==> IsFree(cm, (p, cm[a].pfree)))
    }

    /** The free chunk before block a, as a set. */
    ghost function Before(a: nat): set<(nat, nat)>
      reads `cm
    {
      if a in cm && 0 < cm[a].pfree <= a then {(a - cm[a].pfree, cm[a].pfree)} else {}
    }

    /** The chunk behind block a, if it is in use, or if it is free. */
    ghost predicate NextUsed(a: nat, next: nat)
      reads `cm
    {
      a in cm && next == a + cm[a].size && next in cm && cm[next].used
    }

    ghost predicate NextFree(a: nat, next: nat, nsize: nat)
      reads `cm
    {
      a in cm && next == a + cm[a].size && IsFree(cm, (next, nsize))
    }

    /** Block a, joined with a free chunk before it into psize bytes at p, becomes free; next is in use. */
    method WriteFree(p: nat, psize: nat, next: nat, ghost a: nat)
      requires LayoutHolds() == true && top != 0 && Joined(a, p, psize) == true && NextUsed(a, next) == true
      requires Before(a) !! Binned()
      modifies `mem, `cm
      ensures LayoutHolds() == true && Kept(old(mem)) == true
      ensures Frees(cm) == Frees(old(cm)) - old(Before(a)) + {(p, psize)} && Blocks(cm) == Blocks(old(cm)) - {a}
    {
      hide LayoutOk, TagsOk, Spares, FreePlain, SetFreeWithPinuse, Preserved, Frees, Blocks, SmallLinked, TreesLinked, Linked, Separated, SizesRead, SmallItems, AllItems;
      LinksAre();
      FreePlainStep(mem, cm, base, top, topsize, a);
      ghost var was, cm0 := mem, cm;
      mem := SetFreeWithPinuse(mem, p, psize, next);
      cm := FreePlain(cm, a);
      TagsWritten(was, cm0);
    }

    /** The same when the next chunk is free: it is joined too. */
    method WriteFreeJoined(p: nat, psize: nat, ghost nsize: nat, ghost a: nat)
      requires LayoutHolds() == true && top != 0 && psize >= nsize && Joined(a, p, psize - nsize) == true
      requires a in cm && NextFree(a, a + cm[a].size, nsize) == true
      requires Before(a) !! Binned() && (a + cm[a].size, nsize) !in Binned()
      modifies `mem, `cm
      ensures LayoutHolds() == true && Kept(old(mem)) == true
      ensures Frees(cm) == Frees(old(cm)) - old(Before(a)) - {(a + old(cm)[a].size, nsize)} + {(p, psize)}
      ensures Blocks(cm) == Blocks(old(cm)) - {a}
    {
      hide LayoutOk, TagsOk, Spares, FreeJoined, SetSizeAndPinuseOfFree, Preserved, Frees, Blocks, SmallLinked, TreesLinked, Linked, Separated, SizesRead, SmallItems, AllItems;
      LinksAre();
      FreeJoinedStep(mem, cm, base, top, topsize, a);
      ghost var was, cm0 := mem, cm;
      mem := SetSizeAndPinuseOfFree(mem, p, psize);
      cm := FreeJoined(cm, a);
      TagsWritten(was, cm0);
    }

    /** The same when the next chunk is top: the block becomes part of top. */
    method WriteFreeIntoTop(p: nat, psize: nat, ghost a: nat)
      requires LayoutHolds() == true && top != 0 && Joined(a, p, psize) == true && a in cm && a + cm[a].size == top
      requires Before(a) !! Binned()
      modifies `mem, `cm, `top, `topsize
      ensures LayoutHolds() == true && top != 0 && Kept(old(mem)) == true
      ensures Frees(cm) == Frees(old(cm)) - old(Before(a)) && Blocks(cm) == Blocks(old(cm)) - {a}
    {
      hide LayoutOk, TagsOk, Spares, FreeIntoTop, SetTop, Preserved, Frees, Blocks, SmallLinked, TreesLinked, Linked, Separated, SizesRead, SmallItems, AllItems;
      LinksAre();
      FreeIntoTopStep(mem, cm, base, top, topsize, a);
      ghost var was, cm0 := mem, cm;
      topsize := topsize + psize;
      top := p;
      mem := SetTop(mem, p, topsize);
      cm := FreeIntoTop(cm, a);
      TagsWritten(was, cm0);
    }

    /** A block cut in two blocks: set_inuse on both parts, in either order. */
    method SplitBlock(p: nat, nb: nat, rsize: nat, frontFirst: bool)
      requires LayoutHolds() == true && top != 0 && p in cm && cm[p].used && cm[p].size == nb + rsize
      requires Aligned(nb) && nb >= MIN_CHUNK && rsize >= MIN_CHUNK
      modifies `mem, `cm
      ensures LayoutHolds() == true && Kept(old(mem)) == true && Frees(cm) == Frees(old(cm))
      ensures p + nb !in old(cm) && Blocks(cm) == Blocks(old(cm))[p := nb][p + nb := rsize]
    {
      hide LayoutOk, TagsOk, Spares, Split, SetInuse, Preserved, Frees, Blocks, SmallLinked, TreesLinked, Linked, Separated, SizesRead, SmallItems, AllItems;
      LinksAre();
      SplitKeeps(cm, base, top, p, nb);
      SplitUsedTags(mem, cm, base, top, topsize, p, nb);
      SplitUsedTagsBack(mem, cm, base, top, topsize, p, nb);
      SplitBlocks(cm, base, top, p, nb);
      ghost var was, cm0 := mem, cm;
      if frontFirst {
        mem := SetInuse(mem, p, nb);
        mem := SetInuse(mem, p + nb, rsize);
      } else {
        mem := SetInuse(mem, p + nb, rsize);
        mem := SetInuse(mem, p, nb);
      }
      cm := Split(cm, p, nb);
      TagsPreserve(was, mem, cm, base, top);
      TagsWritten(was, cm0);
    }

    /** Every free chunk is dv, or in the small bin of its size, or in the tree of its size: one of them. */
    lemma WhereFreeChunksAre(x: (nat, nat))
      requires Valid() == true
      ensures x in Frees(cm) <==>
              x in DvSet() || x in SmallItems(smallbins) || x in AllItems(treebins)
      ensures x in SmallItems(smallbins) ==> IsSmall(x.1) && x.0 in smallbins[x.1 / 8] && x !in AllItems(treebins)
      ensures x in AllItems(treebins) ==> !IsSmall(x.1) && x in Items(treebins[TreeIndex(x.1)])
      ensures x in DvSet() ==> x !in SmallItems(smallbins) && x !in AllItems(treebins)
    {
      SizesTellBins(smallbins, smallmap, treebins, treemap, x);
      if x in SmallItems(smallbins) { SmallPlace(smallbins, x); }
      if x in AllItems(treebins) {
        var i :| 0 <= i < |treebins| && x in Items(treebins[i]);
        assert BinOk(treebins, treemap, i);
      }
    }

    /** Bytes in use, bytes free, top and the foot add up to the footprint. */
    lemma BytesAddUp()
      requires Valid() == true && top != 0
      ensures Bytes(cm, base, top, true) + Bytes(cm, base, top, false) + topsize + TOP_FOOT_SIZE == footprint
    {
      BytesFill(cm, base, top, base);
    }

    /** Live blocks are aligned, lie inside the heap, and do not overlap. */
    lemma BlocksAreDisjoint(a: nat, b: nat)
      requires Valid() == true && a in Blocks(cm) && b in Blocks(cm)
      ensures Aligned(a + 16) && base <= a && a + Blocks(cm)[a] <= base + length
      ensures a != b ==> a + Blocks(cm)[a] <= b || b + Blocks(cm)[b] <= a
    {
      ChunkAt(cm, base, top, a);
      AlignedSum(a, 16);
      if a != b { BlocksApart(cm, base, top, a, b); }
    }

    // ---------------------------------------------------------------- malloc

    /**
      r is a new block of at least nb bytes, aligned, with less than a chunk to spare; every
      other block is as before, and no payload has changed.
    */
    ghost predicate Allocated(r: nat, nb: nat, oldMem: Memory, oldCm: Layout)
      reads `mem, `cm
    {
      && r >= 16 && Aligned(r)
      && (r - 16) !in Blocks(oldCm) && (r - 16) in Blocks(cm)
      && Blocks(cm) == Blocks(oldCm)[r - 16 := Blocks(cm)[r - 16]]
      && nb <= Blocks(cm)[r - 16] < nb + MIN_CHUNK
      && Preserved(oldMem, mem, Blocks(oldCm))
    }

    /** A listed free chunk really is one. */
    lemma FreeIsThere(x: (nat, nat))
      requires Valid() == true && x in Frees(cm)
      ensures top != 0 && IsFree(cm, x) && x.0 > 0 && MIN_CHUNK <= x.1 < MAX_CHUNK
      ensures Aligned(x.0) && Aligned(x.0 + 16) && Aligned(x.1) && x.1 % 8 == 0
    {
      hide LayoutOk, Aligned;
      assert top != 0;
      FreeChunkAt(cm, base, top, x);
    }

    lemma DvIsThere()
      requires Valid() == true
      ensures dvsize % 8 == 0 && Aligned(dvsize) && dvsize < MAX_CHUNK && (dvsize == 0 <==> dv == 0)
      ensures dvsize > 0 ==> (dv, dvsize) in Frees(cm) && IsFree(cm, (dv, dvsize)) && dv > 0 && Aligned(dv) && top != 0
    {
      if dvsize > 0 { FreeIsThere((dv, dvsize)); }
    }

    /** A new designated victim, or, with s == 0, none. */
    method SetDv(p: nat, s: nat, ghost frees: set<(nat, nat)>)
      requires BinsHold(frees) == true && (s == 0 <==> p == 0) && (s != 0 ==> (p, s) !in frees - DvSet())
      modifies `dv, `dvsize
      ensures BinsHold(if s == 0 then frees - old(DvSet()) else frees - old(DvSet()) + {(p, s)}) == true
      ensures Dv() == Victim(p, s)
    {
      dvsize := s;
      dv := p;
    }

    /** Make p the designated victim; the old one, which is small, goes to its bin. */
    method ReplaceDv(p: nat, s: nat, ghost frees: set<(nat, nat)>, ghost was: Memory)
      requires LayoutHolds() == true && top != 0 && frees <= Frees(cm) && Kept(was) == true
      requires BinsHold(frees) == true && (p, s) !in frees && p != 0 && s != 0 && IsSmall(dvsize) && dvsize % 8 == 0
      modifies `mem, `smallbins, `smallmap, `treebins, `treemap, `dv, `dvsize
      ensures LayoutHolds() == true && Kept(was) == true
      ensures BinsHold(frees + {(p, s)}) == true && Dv() == Victim(p, s)
    {
      hide LayoutHoldsAt, LayoutHolds, Kept, SmallItems, AllItems, SmallOk, BinsOk, Frees;
      var d, dvs := dv, dvsize;
      dvsize := s;
      dv := p;
      ghost var rest := if dvs == 0 then frees else frees - {(d, dvs)};
      assert BinsHold(rest + {(p, s)});
      if dvs != 0 {
        InsertChunk(d, dvs, rest + {(p, s)}, was);
        assert rest + {(p, s)} + {(d, dvs)} == frees + {(p, s)};
      }
    }

    lemma IsAllocated(p: nat, size: nat, nb: nat, oldMem: Memory, oldCm: Layout)
      requires Aligned(p + 16) && p !in Blocks(oldCm) && Blocks(cm) == Blocks(oldCm)[p := size]
      requires nb <= size < nb + MIN_CHUNK && Kept(oldMem) == true
      ensures Allocated(p + 16, nb, oldMem, oldCm) == true
    {
      PreservedPart(oldMem, mem, Blocks(oldCm), Blocks(cm));
    }

    lemma KeptMeans(mem1: Memory)
      requires Kept(mem1) == true
      ensures Preserved(mem1, mem, Blocks(cm)) == true
    {
    }

    /** Allocating after something that preserved all blocks is allocating. */
    lemma AllocatedAfter(r: nat, nb: nat, was: Memory, mem1: Memory, oldCm: Layout)
      requires Allocated(r, nb, mem1, oldCm) == true && Preserved(was, mem1, Blocks(oldCm)) == true
      ensures Allocated(r, nb, was, oldCm) == true
    {
    }

    /** Hand out free chunk p of s bytes, which has just been unlinked; a large enough rest becomes dv. */
    method UseForSmall(p: nat, s: nat, nb: nat, ghost frees: set<(nat, nat)>) returns (r: nat)
      requires LayoutHolds() == true && top != 0 && IsFree(cm, (p, s)) && Aligned(p + 16)
      requires (p, s) in frees && Frees(cm) == frees && BinsHold(frees - {(p, s)}) == true
      requires Aligned(nb) && MIN_CHUNK <= nb <= s && IsSmall(dvsize) && dvsize % 8 == 0
      modifies this
      ensures Valid() == true && top != 0 && Allocated(r, nb, old(mem), old(cm)) == true && curr == old(curr) && r == p + 16
      ensures Dv() == if s >= nb + MIN_CHUNK then Victim(p + nb, s - nb) else old(Dv())
    {
      hide Blocks, Frees, LayoutHolds, BinsHold, Kept, Allocated, Aligned, Binned, DvSet;
      BinsAre(frees - {(p, s)});
      var rsize := s - nb;
      ghost var was, cm0 := mem, cm;
      if rsize < MIN_CHUNK {
        TakeWhole(p, s);
        IsAllocated(p, s, nb, was, cm0);
      } else {
        SplitChunk(p, nb, s);
        ReplaceDv(p + nb, rsize, frees - {(p, s)}, was);
        IsAllocated(p, nb, nb, was, cm0);
      }
      r := p + 16;
    }

    /** No free chunk has nb bytes. */
    ghost predicate NoneFits(nb: nat)
      reads `cm
    {
      forall x :: x in Frees(cm) ==> x.1 < nb
    }

    lemma NoSmallFits(nb: nat)
      requires Valid() == true && MIN_CHUNK <= nb <= 240 && nb > dvsize && treemap == {}
      requires forall j :: j in smallmap ==> j < nb / 8
      ensures NoneFits(nb)
    {
      forall x | x in Frees(cm) ensures x.1 < nb {
        if x in SmallItems(smallbins) {
          SmallPlace(smallbins, x);
          assert ListOk(smallbins, smallmap, x.1 / 8);
        } else if x in AllItems(treebins) {
          var i :| 0 <= i < |treebins| && x in Items(treebins[i]);
          assert BinOk(treebins, treemap, i);
        }
      }
    }

    /** The front of a marked small bin. */
    lemma FirstIs(i: nat) returns (p: nat)
      requires Valid() == true && i in smallmap
      ensures i < BINS && |smallbins| == BINS && smallbins[i] != [] && p == smallbins[i][0] && (p, 8 * i) in SmallItems(smallbins)
      ensures (p, 8 * i) in Frees(cm) && top != 0
      ensures IsFree(cm, (p, 8 * i)) && p > 0 && Aligned(p) && Aligned(p + 16) && Aligned(8 * i)
    {
      assert ListOk(smallbins, smallmap, i);
      p := smallbins[i][0];
      InSmall(smallbins, i, p);
      FreeIsThere((p, 8 * i));
    }

    /** Unlink the front of a marked small bin. */
    method UnlinkFirst(i: nat) returns (p: nat)
      requires Valid() == true && i in smallmap
      modifies `mem, `smallbins, `smallmap
      ensures LayoutHolds() == true && top != 0 && Preserved(old(mem), mem, Blocks(cm)) == true
      ensures BinsHold(Frees(cm) - {(p, 8 * i)}) == true && (p, 8 * i) in Frees(cm) && (p, 8 * i) in old(SmallItems(smallbins))
      ensures IsFree(cm, (p, 8 * i)) && p > 0 && Aligned(p) && Aligned(p + 16) && Aligned(8 * i)
    {
      hide LayoutHoldsAt, LayoutHolds, BinsHold, SmallItems, Frees, Blocks, Preserved, Aligned, IsFree;
      ghost var first := FirstIs(i);
      p := UnlinkFirstPart(i, first, Frees(cm));
    }

    method UnlinkFirstPart(i: nat, ghost first: nat, ghost frees: set<(nat, nat)>) returns (p: nat)
      requires LayoutHolds() == true && top != 0 && BinsHold(frees) == true && i in smallmap && i < BINS
      requires |smallbins| == BINS && smallbins[i] != [] && first == smallbins[i][0] && (first, 8 * i) in SmallItems(smallbins)
      modifies `mem, `smallbins, `smallmap
      ensures p == first && LayoutHolds() == true && Preserved(old(mem), mem, Blocks(cm)) == true
      ensures BinsHold(frees - {(p, 8 * i)}) == true
    {
      hide ShapeAt, SmallItems, AllItems, SmallOk, BinsOk, SmallLinked, TreesLinked, Separated, Linked, OnlyLinks, OnlyWithin, SizesRead, UnlinkSmall, Frees, Blocks, Preserved, HeadsKept;
      LinksAre();
      BinsAre(frees);
      UnlinkSmallRemoves(smallbins, smallmap, first, 8 * i);
      ghost var m0, small0 := mem, smallbins;
      mem, smallmap, p := UnlinkFirstSmallChunk(mem, gm, smallmap, i, smallbins, Frees(cm));
      smallbins := UnlinkSmall(smallbins, p, 8 * i);
      SmallBinsLength(small0, p, 8 * i);
      SmallChanged(m0, mem, gm, small0, smallbins, treebins, Frees(cm), SmallItems(small0));
      PreservedSame(m0, Blocks(cm));
      LinksWritten(m0, m0);
    }

    ghost predicate Unmoved(oldCm: Layout, oldMem: Memory, oldTop: nat, oldTopsize: nat)
      reads `mem, `cm, `top, `topsize
    {
      cm == oldCm && mem == oldMem && top == oldTop && topsize == oldTopsize
    }

    /** A small chunk with nothing to spare. */
    method TakeFirst(i: nat, nb: nat) returns (r: nat)
      requires Valid() == true && i in smallmap && nb <= 8 * i < nb + 16 && Aligned(nb) && nb >= MIN_CHUNK
      modifies this
      ensures Valid() == true && curr == old(curr) && Allocated(r, nb, old(mem), old(cm)) == true
      ensures r >= 16 && (r - 16, 8 * i) in old(SmallItems(smallbins)) && Dv() == old(Dv())
    {
      hide Blocks, Frees, LayoutHoldsAt, LayoutHolds, BinsHold, Kept, Allocated, Aligned, Preserved, DvSet, Binned;
      ghost var frees, was, cm0 := Frees(cm), mem, cm;
      var p := UnlinkFirst(i);
      ghost var mem1 := mem;
      BinsAre(frees - {(p, 8 * i)});
      TakeWhole(p, 8 * i);
      IsAllocated(p, 8 * i, nb, mem1, cm0);
      AllocatedAfter(p + 16, nb, was, mem1, cm0);
      r := p + 16;
    }

    /** The front of the next larger small bin in use. */
    method SplitFirst(i: nat, nb: nat) returns (r: nat)
      requires Valid() == true && i in smallmap && nb < 8 * i && Aligned(nb) && MIN_CHUNK <= nb <= 240 && nb > dvsize
      modifies this
      ensures Valid() == true && curr == old(curr) && Allocated(r, nb, old(mem), old(cm)) == true
      ensures r >= 16 && (r - 16, 8 * i) in old(SmallItems(smallbins)) && Dv() == DvAfter(old(Dv()), nb, r - 16, 8 * i)
    {
      hide Blocks, Frees, LayoutHoldsAt, LayoutHolds, BinsHold, Kept, Allocated, Aligned, Preserved, DvSet;
      ghost var frees, was, cm0 := Frees(cm), mem, cm;
      DvIsThere();
      var p := UnlinkFirst(i);
      ghost var mem1 := mem;
      r := UseForSmall(p, 8 * i, nb, frees);
      AllocatedAfter(r, nb, was, mem1, cm0);
    }

    /** tmalloc_small: the smallest chunk of all trees. */
    method TmallocSmall(nb: nat) returns (r: nat, ghost s: nat)
      requires Valid() == true && treemap != {} && Aligned(nb) && MIN_CHUNK <= nb <= 240 && nb > dvsize
      modifies this
      ensures Valid() == true && curr == old(curr) && Allocated(r, nb, old(mem), old(cm)) == true
      ensures r >= 16 && IsBestFit(old(treebins), nb, Some((r - 16, s))) == true && Dv() == DvAfter(old(Dv()), nb, r - 16, s)
    {
      ghost var frees, was, cm0 := Frees(cm), mem, cm;
      hide LayoutHoldsAt, LayoutHolds, BinsHold, Kept, Allocated, Blocks, Frees, DvSet, AllItems, IsBestFit, BinsTell;
      BinsAreTold();
      var v, rsize := SmallestChunk(mem, gm, treemap, nb, treebins);
      s := nb + rsize;
      NotDv((v, nb + rsize));
      FreeIsThere((v, nb + rsize));
      DvIsThere();
      UnlinkChunk(v, nb + rsize, frees);
      ghost var mem1 := mem;
      KeptMeans(was);
      r := UseForSmall(v, nb + rsize, nb, frees);
      AllocatedAfter(r, nb, was, mem1, cm0);
    }

    /** The lowest marked bin that is large enough holds the smallest sufficient chunks of all bins. */
    lemma SmallestIsInBin(i: nat, nb: nat, p: nat)
      requires Valid() == true && (p, 8 * i) in SmallItems(smallbins) && 8 * i >= nb && i < BINS
      requires forall j :: j in smallmap && 8 * j >= nb ==> i <= j
      ensures IsSmallestFit(Binned(), nb, (p, 8 * i)) == true
    {
      forall x | x in Binned() && x.1 >= nb ensures 8 * i <= x.1 {
        BinnedPlace(x);
      }
    }

    /** A binned chunk is in the marked small bin of its size, or it is larger than all of those. */
    lemma BinnedPlace(x: (nat, nat))
      requires Valid() == true && x in Binned()
      ensures x in Frees(cm) && x.1 % 8 == 0
      ensures if x in SmallItems(smallbins) then x.1 / 8 in smallmap && x.1 < 256 else x.1 >= 256 && x in AllItems(treebins)
    {
      hide LayoutOk, TagsOk, Linked;
      FreeIsThere(x);
      SizesTellBins(smallbins, smallmap, treebins, treemap, x);
      if x in SmallItems(smallbins) {
        SmallPlace(smallbins, x);
        assert ListOk(smallbins, smallmap, x.1 / 8);
      }
    }

    lemma SmallestIsInTrees(nb: nat, p: nat, s: nat)
      requires Valid() == true && IsBestFit(treebins, nb, Some((p, s))) == true && forall j :: j in smallmap ==> 8 * j < nb
      ensures IsSmallestFit(Binned(), nb, (p, s)) == true
    {
      hide LayoutOk, TagsOk, Linked;
      forall x | x in Binned() && x.1 >= nb ensures s <= x.1 {
        BinnedPlace(x);
      }
    }

    /** With the two bins of exact fits empty, nothing is preferred to a dv that is large enough. */
    lemma NoExactFit(nb: nat)
      requires Valid() == true && nb <= 240 && nb % 16 == 0 && nb / 8 !in smallmap && nb / 8 + 1 !in smallmap && nb <= dvsize
      ensures NonePreferred(Binned(), Dv(), nb)
    {
      hide LayoutHoldsAt, LayoutHolds, BinsHold, Frees, Binned, SmallItems, AllItems;
      forall x | x in Binned() && x.1 >= nb ensures x.1 >= nb + 16 {
        BinnedPlace(x);
      }
    }

    lemma NoneFitsNoneIsPreferred(nb: nat)
      requires Valid() == true && NoneFits(nb)
      ensures NonePreferred(Binned(), Dv(), nb)
    {
      forall x | x in Binned() ensures x.1 < nb {
        BinnedPlace(x);
      }
    }

    /**
      A request below 256 bytes from the small bins, or, with no small chunk left, from a tree: in
      either case a smallest sufficient chunk of all, unless dv is to be used.
    */
    method MallocSmall(nb: nat) returns (r: nat)
      requires Valid() == true && Aligned(nb) && MIN_CHUNK <= nb <= 240
      modifies this
      ensures Valid() == true && curr == old(curr)
      ensures r == 0 ==> nb <= dvsize || NoneFits(nb)
      ensures r == 0 ==> Unmoved(old(cm), old(mem), old(top), old(topsize)) && contiguous == old(contiguous)
      ensures r == 0 ==> Binned() == old(Binned()) && Dv() == old(Dv()) && NonePreferred(Binned(), Dv(), nb)
      ensures r != 0 ==> Allocated(r, nb, old(mem), old(cm)) == true
      ensures r != 0 ==> r >= 16 && FromBin(old(Binned()), old(Dv()), nb, r - 16, Dv()) == true
    {
      hide LayoutHoldsAt, LayoutHolds, BinsHold, Allocated, Binned, SmallItems, AllItems, IsSmallestFit, FromBin, NonePreferred, NoneFits, IsBestFit;
      ghost var chunks, dv0 := Binned(), Dv();
      assert nb % 16 == 0;
      SmallMarks();
      var idx := nb / 8;
      r := 0;
      if idx in smallmap || idx + 1 in smallmap {
        var i := if idx in smallmap then idx else idx + 1;
        forall p: nat | (p, 8 * i) in SmallItems(smallbins) ensures IsSmallestFit(chunks, nb, (p, 8 * i)) == true {
          SmallestIsInBin(i, nb, p);
        }
        r := TakeFirst(i, nb);
        IsFromBin(chunks, dv0, nb, r - 16, 8 * i, Dv());
      } else if nb > dvsize {
        if j :| j in smallmap && j > idx {
          var i := LeastMarkedAbove(smallmap, idx);
          forall p: nat | (p, 8 * i) in SmallItems(smallbins) ensures IsSmallestFit(chunks, nb, (p, 8 * i)) == true {
            SmallestIsInBin(i, nb, p);
          }
          r := SplitFirst(i, nb);
          IsFromBin(chunks, dv0, nb, r - 16, 8 * i, Dv());
        } else if treemap != {} {
          ghost var trees := treebins;
          forall p: nat, s: nat | IsBestFit(trees, nb, Some((p, s))) == true ensures IsSmallestFit(chunks, nb, (p, s)) == true {
            SmallestIsInTrees(nb, p, s);
          }
          ghost var s: nat;
          r, s := TmallocSmall(nb);
          IsFromBin(chunks, dv0, nb, r - 16, s, Dv());
        } else {
          NoSmallFits(nb);
          NoneFitsNoneIsPreferred(nb);
        }
      } else {
        NoExactFit(nb);
      }
    }

    lemma SmallMarks()
      requires Valid() == true
      ensures forall i :: i in smallmap ==> i < BINS
    {
    }

    /** Hand out free chunk p of s bytes, which has just been unlinked; a large enough rest is binned. */
    method UseForLarge(p: nat, s: nat, nb: nat, ghost frees: set<(nat, nat)>) returns (r: nat)
      requires LayoutHolds() == true && top != 0 && IsFree(cm, (p, s)) && Aligned(p + 16) && s < MAX_CHUNK && Aligned(s)
      requires (p, s) in frees && Frees(cm) == frees && BinsHold(frees - {(p, s)}) == true
      requires Aligned(nb) && MIN_CHUNK <= nb <= s
      modifies `mem, `cm, `smallbins, `smallmap, `treebins, `treemap
      ensures LayoutHolds() == true && BinsHold(Frees(cm)) == true
      ensures Allocated(r, nb, old(mem), old(cm)) == true && r == p + 16
    {
      hide Blocks, Frees, LayoutHolds, BinsHold, Kept, Allocated, Aligned, Binned, DvSet;
      BinsAre(frees - {(p, s)});
      AlignedSum(s, nb);
      AlignedBy8(s - nb);
      var rsize := s - nb;
      ghost var was, cm0 := mem, cm;
      if rsize < MIN_CHUNK {
        TakeWhole(p, s);
        IsAllocated(p, s, nb, was, cm0);
      } else {
        SplitChunk(p, nb, s);
        InsertChunk(p + nb, rsize, frees - {(p, s)}, was);
        IsAllocated(p, nb, nb, was, cm0);
      }
      r := p + 16;
    }

    /** tmalloc_large: the best fit of all trees, unless dv fits at least as well. */
    method TmallocLarge(nb: nat) returns (r: nat)
      requires Valid() == true && Aligned(nb) && 256 <= nb < WORD
      modifies this
      ensures Valid() == true && curr == old(curr)
      ensures r == 0 ==> Unmoved(old(cm), old(mem), old(top), old(topsize)) && contiguous == old(contiguous)
      ensures r == 0 ==> nb <= dvsize || NoneFits(nb)
      ensures r == 0 ==> Binned() == old(Binned()) && Dv() == old(Dv()) && NonePreferred(Binned(), Dv(), nb)
      ensures r != 0 ==> Allocated(r, nb, old(mem), old(cm)) == true
      ensures r != 0 ==> r >= 16 && FromBin(old(Binned()), old(Dv()), nb, r - 16, Dv()) == true
    {
      hide Blocks, Frees, LayoutHoldsAt, LayoutHolds, BinsHold, Kept, Allocated, Aligned, AllItems, IsBestFit, BinsTell, DvSet, FromBin, NonePreferred, NoneFits, Binned, IsSmallestFit;
      BinsAreTold();
      var v, rsize := BestFit(mem, gm, treemap, nb, treebins);
      r := 0;
      DvIsThere();
      WrappedRemainder(dvsize, nb);
      if v != 0 && rsize < Remainder(dvsize, nb) {
        ghost var chunks, dv0 := Binned(), Dv();
        BestIsThere(v, rsize, nb);
        LargestSmallIsTooSmall(nb, v, nb + rsize);
        r := TakeBest(v, nb + rsize, nb);
        IsFromBin(chunks, dv0, nb, v, nb + rsize, Dv());
      } else {
        NoLargeFits(nb, Found(v, rsize, nb), rsize);
      }
    }

    /** The words tell a search of the tree bins what the bins hold. */
    lemma BinsAreTold()
      requires Valid() == true
      ensures BinsOk(treebins, treemap) == true && BinsTell(mem, gm, treebins) == true
    {
      hide BinsHold, SmallItems, AllItems, BinsOk, BinsTell, TreesLinked, SizesRead, Separated, SmallLinked;
      BinsAre(Frees(cm));
      if top == 0 {
        assert Frees(cm) == {};
        NothingToRead();
      } else {
        LinksAre();
      }
      AllBinsTell(mem, gm, Frees(cm), treebins, treemap);
    }

    /** Before the first block there is nothing in the bins. */
    lemma NothingToRead()
      requires BinsHold(Frees(cm)) == true && Frees(cm) == {}
      ensures AllItems(treebins) == {} && SizesRead(mem, AllItems(treebins)) == true
    {
      hide SmallItems, AllItems, SmallOk, BinsOk;
      assert AllItems(treebins) <= Binned() <= {};
    }

    lemma BestIsThere(v: nat, rsize: nat, nb: nat)
      requires Valid() == true && v > 0 && IsBestFit(treebins, nb, Found(v, rsize, nb))
      ensures (v, nb + rsize) in AllItems(treebins)
    {
    }

    /** A request of 256 bytes or more finds its smallest chunk in the trees. */
    lemma LargestSmallIsTooSmall(nb: nat, p: nat, s: nat)
      requires Valid() == true && nb >= 256 && IsBestFit(treebins, nb, Some((p, s)))
      ensures IsSmallestFit(Binned(), nb, (p, s)) == true
    {
      hide LayoutOk, TagsOk, Linked;
      forall x | x in Binned() && x.1 >= nb ensures s <= x.1 {
        BinnedPlace(x);
      }
    }

    method TakeBest(p: nat, s: nat, nb: nat) returns (r: nat)
      requires Valid() == true && (p, s) in AllItems(treebins) && Aligned(nb) && MIN_CHUNK <= nb <= s
      modifies this
      ensures Valid() == true && curr == old(curr) && r == p + 16 && Allocated(r, nb, old(mem), old(cm)) == true
      ensures Dv() == old(Dv())
    {
      hide Blocks, Frees, LayoutHoldsAt, LayoutHolds, BinsHold, Kept, Allocated, Aligned, AllItems, DvSet;
      ghost var frees, was, cm0 := Frees(cm), mem, cm;
      NotDv((p, s));
      FreeIsThere((p, s));
      UnlinkChunk(p, s, frees);
      ghost var mem1 := mem;
      KeptMeans(was);
      r := UseForLarge(p, s, nb, frees);
      AllocatedAfter(r, nb, was, mem1, cm0);
    }

    lemma NotDv(x: (nat, nat))
      requires Valid() == true && x in AllItems(treebins)
      ensures x in Frees(cm) && x !in DvSet()
    {
    }

    /** What the search of the trees means for all free chunks. */
    lemma NoLargeFits(nb: nat, v: Option<(nat, nat)>, rsize: nat)
      requires Valid() == true && 256 <= nb < WORD && Fits(v, rsize, nb) && IsBestFit(treebins, nb, v)
      requires v.None? || (nb <= dvsize && rsize >= dvsize - nb)
      ensures (nb <= dvsize || NoneFits(nb)) && NonePreferred(Binned(), Dv(), nb)
    {
      hide LayoutOk, TagsOk, Linked;
      if nb > dvsize {
        forall x | x in Frees(cm) ensures x.1 < nb {
          SizesTellBins(smallbins, smallmap, treebins, treemap, x);
        }
      }
      forall x | x in Binned() && x.1 >= nb ensures nb <= dvsize <= x.1 {
        BinnedPlace(x);
      }
    }

    /** The designated victim, split or used up. */
    method MallocFromDv(nb: nat) returns (r: nat)
      requires Valid() == true && Aligned(nb) && MIN_CHUNK <= nb <= dvsize
      modifies this
      ensures Valid() == true && curr == old(curr) && Allocated(r, nb, old(mem), old(cm)) == true
      ensures r >= 16 && FromDvOrTop(old(Dv()), old(top), nb, r - 16, Dv(), top)
    {
      hide LayoutHolds, BinsHold, Kept, Allocated, Aligned;
      var rsize, p, dvs := dvsize - nb, dv, dvsize;
      if rsize >= MIN_CHUNK {
        SplitDv(p, dvs, nb);
      } else {
        ExhaustDv(p, dvs, nb);
      }
      r := p + 16;
    }

    method SplitDv(p: nat, dvs: nat, nb: nat)
      requires Valid() == true && p == dv && dvs == dvsize && Aligned(nb) && nb >= MIN_CHUNK && nb + MIN_CHUNK <= dvsize
      modifies `mem, `cm, `dv, `dvsize
      ensures LayoutHolds() == true && BinsHold(Frees(cm)) == true && Allocated(p + 16, nb, old(mem), old(cm)) == true
      ensures Dv() == Victim(p + nb, dvs - nb)
    {
      hide Blocks, Frees, LayoutHolds, BinsHold, Kept, Allocated, Aligned;
      ghost var frees, was, cm0 := Frees(cm), mem, cm;
      DvIsThere();
      FreeIsThere((dv, dvsize));
      BinsAre(frees);
      SplitChunk(p, nb, dvs);
      SetDv(p + nb, dvs - nb, frees);
      IsAllocated(p, nb, nb, was, cm0);
    }

    method ExhaustDv(p: nat, dvs: nat, nb: nat)
      requires Valid() == true && p == dv && dvs == dvsize && Aligned(nb) && MIN_CHUNK <= nb <= dvsize < nb + MIN_CHUNK
      modifies `mem, `cm, `dv, `dvsize
      ensures LayoutHolds() == true && BinsHold(Frees(cm)) == true && Allocated(p + 16, nb, old(mem), old(cm)) == true
      ensures Dv() == Victim(0, 0)
    {
      hide Blocks, Frees, LayoutHolds, BinsHold, Kept, Allocated, Aligned;
      ghost var frees, was, cm0 := Frees(cm), mem, cm;
      DvIsThere();
      FreeIsThere((dv, dvsize));
      BinsAre(frees);
      SetDv(0, 0, frees);
      TakeWhole(p, dvs);
      IsAllocated(p, dvs, nb, was, cm0);
    }

    /** Top, split. */
    method MallocFromTop(nb: nat) returns (r: nat)
      requires Valid() == true && Aligned(nb) && MIN_CHUNK <= nb < topsize
      modifies this
      ensures Valid() == true && curr == old(curr) && top != 0 && r != 0 && Allocated(r, nb, old(mem), old(cm)) == true
      ensures r == old(top) + 16 && top == old(top) + nb && Dv() == old(Dv())
    {
      ghost var was, cm0 := mem, cm;
      hide Blocks, Frees, BinsHold, Kept, Allocated;
      var p := SplitTop(nb);
      AlignedSum(p, 16);
      IsAllocated(p, nb, nb, was, cm0);
      r := p + 16;
    }

    // ---------------------------------------------------------------- memory for the allocator

    /**
      shmem_internal_get_next: hand out incr bytes, or take bytes back when incr is negative.
      It fails without effect when the heap would overrun its length.
    */
    method GetNext(incr: int) returns (r: int)
      modifies `curr
      ensures old(curr) + incr < base ==> curr == base && r == old(curr)
      ensures base <= old(curr) + incr <= base + length ==> curr == old(curr) + incr && r == old(curr)
      ensures old(curr) + incr > base + length ==> curr == old(curr) && r == CMFAIL
    {
      var orig := curr;
      curr := curr + incr;
      if curr < base {
        curr := base;
      } else if curr - base > length {
        curr := orig;
        orig := CMFAIL;
      }
      r := orig;
    }

    /** init_top: top is the psize bytes at p, followed by the foot. */
    method InitTop(p: nat, psize: nat)
      modifies `top, `topsize, `mem, `trimCheck
      ensures top == p && topsize == psize && trimCheck == trimThreshold
      ensures mem == SetTop(old(mem), p, psize)[p + psize + 8 := TOP_FOOT_SIZE]
    {
      top := p;
      topsize := psize;
      mem := SetTop(mem, p, psize);
      mem := mem[p + psize + 8 := TOP_FOOT_SIZE];
      trimCheck := trimThreshold;
    }

    /** Take tsize bytes at the end of the segment, or as the first segment, into the heap. */
    method Adopt(tbase: nat, tsize: nat)
      requires LayoutHoldsAt(tbase) == true && curr == tbase + tsize && curr <= base + length
      requires Aligned(tsize) && tsize > TOP_FOOT_SIZE
      modifies `mem, `top, `topsize, `segBase, `segSize, `footprint, `trimCheck
      ensures LayoutHolds() == true && top != 0 && Kept(old(mem)) == true
      ensures topsize == if old(top) == 0 then tsize - TOP_FOOT_SIZE else old(topsize) + tsize
      ensures top == if old(top) == 0 then tbase else old(top)
    {
      hide Linked, SmallItems, AllItems, Preserved, Blocks, SetTop;
      ghost var was := mem;
      footprint := footprint + tsize;
      if top == 0 {
        segBase := tbase;
        segSize := tsize;
        AlignedSum(tsize, TOP_FOOT_SIZE);
        InitTop(tbase, tsize - TOP_FOOT_SIZE);
        TopMoved(was, mem, cm, base, top, topsize);
        TopKeepsLinks(was, mem, cm, base, top, topsize, TOP_FOOT_SIZE, gm, smallbins, treebins);
      } else if tbase == segBase + segSize {
        segSize := segSize + tsize;
        AlignedSum(topsize, tsize);
        InitTop(top, topsize + tsize);
        TopMoved(was, mem, cm, base, top, topsize);
        TopKeepsLinks(was, mem, cm, base, top, topsize, TOP_FOOT_SIZE, gm, smallbins, treebins);
      } else {
        // a second segment: add_segment or prepend_alloc
        assert false;
      }
    }

    /** The first segment starts where the heap starts and ends on a page boundary. */
    method FirstSegment(nb: nat, asize: nat) returns (tbase: int, tsize: nat, br: int)
      requires base <= curr <= base + length && base > 0 && Aligned(curr) && 0 < gran && Aligned(gran)
      requires nb >= MIN_CHUNK && nb + PADDING <= asize < nb + PADDING + gran && Aligned(asize)
      modifies `curr
      ensures tbase == CMFAIL ==> curr == old(curr) && br == CMFAIL
      ensures tbase != CMFAIL ==> tbase == old(curr) && curr == tbase + tsize && curr <= base + length && Aligned(tsize)
      ensures tbase != CMFAIL ==> nb + PADDING <= tsize < nb + PADDING + 2 * gran
    {
      tbase, tsize, br := CMFAIL, 0, CMFAIL;
      var ssize := asize;
      var b := GetNext(0);
      if b != CMFAIL {
        if b % gran != 0 {
          RoundedUp(b, gran);
          AlignedSum(RoundUp(b, gran), b);
          AlignedSum(ssize, RoundUp(b, gran) - b);
          ssize := ssize + (RoundUp(b, gran) - b);
        }
        if ssize > nb && ssize < HALF_MAX {
          br := GetNext(ssize);
          if br == b { tbase, tsize := br, ssize; }
        }
      }
    }

    /** A later request extends the segment by what top lacks. */
    method ExtendSegment(nb: nat) returns (tbase: int, tsize: nat, br: int)
      requires base <= curr <= base + length && base > 0 && curr == segBase + segSize && 0 < gran && Aligned(gran)
      requires MIN_CHUNK <= nb && topsize <= nb
      modifies `curr
      ensures tbase == CMFAIL ==> curr == old(curr) && br == CMFAIL
      ensures tbase != CMFAIL ==> tbase == old(curr) && curr == tbase + tsize && curr <= base + length && Aligned(tsize)
      ensures tbase != CMFAIL ==> nb - topsize + PADDING <= tsize < nb - topsize + PADDING + gran
    {
      tbase, tsize, br := CMFAIL, 0, CMFAIL;
      var ssize := RoundUp(nb - topsize + PADDING, gran);
      RoundedUp(nb - topsize + PADDING, gran);
      if ssize < HALF_MAX {
        br := GetNext(ssize);
        if br == segBase + segSize { tbase, tsize := br, ssize; }
      }
    }

    /** The contiguous attempt of sys_alloc; when it fails it is not made again. */
    method GrowContiguous(nb: nat, asize: nat) returns (tbase: int, tsize: nat)
      requires LayoutHolds() == true && (top != 0 ==> topsize <= nb) && nb >= MIN_CHUNK && asize == RoundUp(nb + PADDING, gran)
      modifies `curr, `contiguous
      ensures LayoutHoldsAt(old(curr)) == true
      ensures tbase == CMFAIL ==> curr == old(curr)
      ensures tbase != CMFAIL ==> tbase == old(curr) && curr == tbase + tsize && curr <= base + length && Aligned(tsize)
      ensures tbase != CMFAIL ==> tbase >= 0 && tsize > TOP_FOOT_SIZE && tsize >= nb + PADDING - if top == 0 then 0 else topsize
      ensures tbase != CMFAIL ==> tsize < nb + PADDING + 2 * gran
      ensures contiguous == (old(contiguous) && tbase != CMFAIL)
    {
      hide LayoutOk, TagsOk, Aligned;
      tbase, tsize := CMFAIL, 0;
      if contiguous {
        var br;
        RoundedUp(nb + PADDING, gran);
        if top == 0 {
          tbase, tsize, br := FirstSegment(nb, asize);
        } else {
          tbase, tsize, br := ExtendSegment(nb);
        }
        if tbase == CMFAIL {
          // get_next never hands out anything but the next bytes, so there is no partial success to extend
          assert br == CMFAIL;
          contiguous := false;
        }
      }
    }

    /** The noncontiguous attempt of sys_alloc, once the contiguous one has been switched off. */
    method GrowAnywhere(nb: nat, asize: nat) returns (tbase: int, tsize: nat)
      requires LayoutHolds() == true && nb >= MIN_CHUNK && asize == RoundUp(nb + PADDING, gran)
      modifies `curr
      ensures LayoutHoldsAt(old(curr)) == true
      ensures tbase == CMFAIL ==> curr == old(curr)
      ensures tbase != CMFAIL ==> tbase == old(curr) && curr == tbase + tsize && curr <= base + length && Aligned(tsize)
      ensures tbase != CMFAIL ==> tbase >= 0 && tsize > TOP_FOOT_SIZE && nb + PADDING <= tsize < nb + PADDING + gran
      ensures tbase == CMFAIL ==> old(curr) + asize > base + length
    {
      tbase, tsize := CMFAIL, 0;
      RoundedUp(nb + PADDING, gran);
      if asize < HALF_MAX {
        var br := GetNext(asize);
        var end := GetNext(0);
        if br != CMFAIL && end != CMFAIL && br < end {
          var ssize := end - br;
          if ssize > nb + TOP_FOOT_SIZE { tbase, tsize := br, ssize; }
        }
      }
    }

    /** The segment grows by what the request needs, rounded up, or nothing happens. */
    method Grow(nb: nat, asize: nat) returns (grown: bool)
      requires Valid() == true && (top != 0 ==> topsize <= nb) && nb >= MIN_CHUNK && asize == RoundUp(nb + PADDING, gran)
      modifies `curr, `contiguous, `mem, `top, `topsize, `segBase, `segSize, `footprint, `trimCheck
      ensures Valid() == true
      ensures !grown ==> Unmoved(old(cm), old(mem), old(top), old(topsize)) && curr == old(curr)
      ensures !grown ==> curr + asize > base + length
      ensures grown ==> nb < topsize && cm == old(cm) && Kept(old(mem)) == true && (old(top) != 0 ==> top == old(top))
      ensures grown ==> old(curr) <= curr < old(curr) + nb + PADDING + 2 * gran
    {
      hide LayoutHoldsAt, BinsHold, Frees, Blocks, Kept, Aligned, AllocationSize, RoundUp;
      var tbase, tsize := GrowContiguous(nb, asize);
      if tbase == CMFAIL { tbase, tsize := GrowAnywhere(nb, asize); }
      grown := tbase != CMFAIL;
      if grown { Adopt(tbase, tsize); }
    }

    /** sys_alloc: grow the segment and serve the request from the new top. */
    method SysAlloc(nb: nat) returns (r: nat)
      requires Valid() == true && (top != 0 ==> topsize <= nb) && MIN_CHUNK <= nb < WORD && (Aligned(nb) || nb == MAX_SIZE_T)
      modifies this
      ensures Valid() == true
      ensures r == 0 ==> Unmoved(old(cm), old(mem), old(top), old(topsize)) && curr == old(curr)
      ensures r == 0 ==> gran > 0 && (AllocationSize(nb, gran) <= nb || curr + AllocationSize(nb, gran) > base + length)
      ensures r != 0 ==> top != 0 && nb < MAX_SIZE_T && Allocated(r, nb, old(mem), old(cm)) == true
      ensures r != 0 ==> r >= 16 && top == r - 16 + nb && (old(top) != 0 ==> r - 16 == old(top)) && Dv() == old(Dv())
      ensures old(curr) <= curr < old(curr) + nb + PADDING + 2 * gran
    {
      hide LayoutHoldsAt, LayoutHolds, BinsHold, Frees, Blocks, Kept, Allocated, Aligned, AllocationSize, RoundUp;
      r := 0;
      SizesAreSmall();
      var asize := AllocationSize(nb, gran);
      AllocationSizeIsRight(nb, gran);
      if asize > nb {
        ghost var was, cm0 := mem, cm;
        var grown := Grow(nb, asize);
        if grown { r := ServeFromTop(nb, was, cm0); }
      }
    }

    /** With top grown, the request always fits. */
    method ServeFromTop(nb: nat, ghost was: Memory, ghost cm0: Layout) returns (r: nat)
      requires Valid() == true && Aligned(nb) && MIN_CHUNK <= nb < topsize && cm == cm0 && Kept(was) == true
      modifies this
      ensures Valid() == true && top != 0 && curr == old(curr) && r != 0 && Allocated(r, nb, was, cm0) == true
      ensures r == old(top) + 16 && top == old(top) + nb && Dv() == old(Dv())
    {
      ghost var mem1 := mem;
      KeptMeans(was);
      r := MallocFromTop(nb);
      AllocatedAfter(r, nb, was, mem1, cm0);
    }

    /** dlmalloc: the chunk comes from the bins, from dv, from top, or from new memory, in this order. */
    method Malloc(bytes: nat) returns (r: nat)
      requires Valid() == true && bytes < WORD
      modifies this
      ensures Valid() == true
      ensures r != 0 ==> bytes < MAX_REQUEST && Allocated(r, Request2Size(bytes), old(mem), old(cm)) == true
      ensures r != 0 && old(NonePreferred(Binned(), Dv(), Request2Size(bytes))) ==>
                r >= 16 && FromDvOrTop(old(Dv()), old(top), Request2Size(bytes), r - 16, Dv(), top)
      ensures r != 0 && !old(NonePreferred(Binned(), Dv(), Request2Size(bytes))) ==>
                r >= 16 && FromBin(old(Binned()), old(Dv()), Request2Size(bytes), r - 16, Dv()) == true
      ensures curr != old(curr) ==>
                && old(NonePreferred(Binned(), Dv(), Request2Size(bytes))) && Needs(old(dvsize), old(top), old(topsize), Request2Size(bytes))
                && 0 < curr - old(curr) < Request2Size(bytes) + PADDING + 2 * gran
      ensures r == 0 ==> Unmoved(old(cm), old(mem), old(top), old(topsize)) && curr == old(curr)
      ensures r == 0 && bytes < MAX_REQUEST ==> NoRoomFor(Request2Size(bytes)) == true && NoneFits(Request2Size(bytes)) == true
    {
      hide LayoutHoldsAt, LayoutHolds, BinsHold, Kept, Allocated, NoneFits, Aligned, AllocationSize, NonePreferred, FromBin, FromDvOrTop, Binned;
      var nb: nat;
      r := 0;
      RequestFits(bytes);
      if bytes <= MAX_SMALL_REQUEST {
        nb := if bytes < MIN_REQUEST then MIN_CHUNK else PadRequest(bytes);
        r := MallocSmall(nb);
      } else if bytes >= MAX_REQUEST {
        nb := MAX_SIZE_T;
      } else {
        nb := PadRequest(bytes);
        r := TmallocLarge(nb);
      }
      if r == 0 {
        r := MallocUnbinned(nb);
      } else {
        TakenIsPreferred(old(Binned()), old(Dv()), nb, r - 16, Dv());
      }
    }

    /** When malloc fails, no free chunk and not even top has nb bytes, and the padded request does not fit the rest. */
    ghost predicate NoRoomFor(nb: nat)
      requires 0 < gran
      reads `cm, `top, `topsize, `curr
    {
      && (top != 0 ==> topsize <= nb)
      && (AllocationSize(nb, gran) <= nb || curr + AllocationSize(nb, gran) > base + length)
    }

    /** The request is too large, or there is no room for it. */
    ghost predicate CannotServe(bytes: nat)
      requires 0 < gran
      reads `cm, `top, `topsize, `curr
    {
      bytes >= MAX_REQUEST || (NoRoomFor(Request2Size(bytes)) && NoneFits(Request2Size(bytes)))
    }

    /** The part of malloc after the bins. */
    method MallocUnbinned(nb: nat) returns (r: nat)
      requires Valid() == true && MIN_CHUNK <= nb < WORD && (Aligned(nb) || nb == MAX_SIZE_T)
      modifies this
      ensures Valid() == true && gran > 0
      ensures nb == MAX_SIZE_T ==> r == 0
      ensures r != 0 ==> Allocated(r, nb, old(mem), old(cm)) == true
      ensures r == 0 ==> Unmoved(old(cm), old(mem), old(top), old(topsize)) && curr == old(curr)
      ensures r == 0 ==> NoRoomFor(nb) == true && nb > old(dvsize)
      ensures curr != old(curr) ==> r != 0 && Needs(old(dvsize), old(top), old(topsize), nb) && 0 < curr - old(curr) < nb + PADDING + 2 * gran
      ensures r != 0 ==> r >= 16 && FromDvOrTop(old(Dv()), old(top), nb, r - 16, Dv(), top)
    {
      DvIsThere();
      SizesAreSmall();
      hide LayoutHoldsAt, LayoutHolds, BinsHold, Kept, Allocated, Aligned, AllocationSize;
      if nb <= dvsize {
        r := MallocFromDv(nb);
      } else if nb < topsize {
        r := MallocFromTop(nb);
      } else {
        r := SysAlloc(nb);
      }
    }

    lemma SizesAreSmall()
      requires Valid() == true
      ensures topsize < MAX_CHUNK && 0 < gran < MAX_CHUNK && Aligned(gran) && (topsize > 0 ==> top != 0)
    {
    }

    // ---------------------------------------------------------------- free

    /** Is the block at a + 16 one malloc handed out and nobody freed? */
    ghost predicate IsLive(a: nat)
      reads `cm
    {
      a in cm && cm[a].used
    }

    /** What the tags of a live block say. */
    lemma LiveTags(a: nat)
      requires LayoutHolds() == true && a in cm && cm[a].used
      ensures top != 0 && cm[a].pfree <= a && Aligned(a) && Aligned(cm[a].size) && cm[a].size >= MIN_CHUNK
      ensures cm[a].pfree > 0 ==> IsFree(cm, (a - cm[a].pfree, cm[a].pfree)) && Word(mem, a) == cm[a].pfree
      ensures ChunkSize(Word(mem, a + 8)) == cm[a].size && PInuse(Word(mem, a + 8)) == (cm[a].pfree == 0)
      ensures a - cm[a].pfree > 0 && a + cm[a].size <= top && cm[a].pfree + cm[a].size < MAX_CHUNK
      ensures (cm[a].pfree + cm[a].size) % 8 == 0
    {
      hide LayoutOk, TagsOk, Linked, Aligned, Head, Word, ChunkSize, PInuse;
      PrevTags(mem, cm, base, top, topsize, a);
      HeadFields(cm[a].size, true, cm[a].pfree == 0);
      ChunkAt(cm, base, top, a);
      ChunkAt(cm, base, top, a - cm[a].pfree);
      AlignedBy8(cm[a].pfree + cm[a].size);
    }

    /** What the head behind a live block says. */
    lemma NextTags(a: nat)
      requires LayoutHolds() == true && a in cm && cm[a].used
      ensures var n := a + cm[a].size;
              && (n == top || n in cm) && (n in cm ==> n != top)
              && CInuse(Word(mem, n + 8)) == (n in cm && cm[n].used)
              && (n in cm && !cm[n].used ==> IsFree(cm, (n, cm[n].size)) && ChunkSize(Word(mem, n + 8)) == cm[n].size)
              && (n in cm && !cm[n].used ==> cm[a].pfree + cm[a].size + cm[n].size < MAX_CHUNK && cm[n].size % 8 == 0)
              && PInuse(Word(mem, n + 8))
    {
      hide LayoutOk, TagsOk, Linked, Aligned, Head, Word, CInuse, PInuse, ChunkSize;
      var n := a + cm[a].size;
      ChunkAt(cm, base, top, a);
      ChunkAt(cm, base, top, a - cm[a].pfree);
      ChunkAt(cm, base, top, n);
      if n in cm {
        NextHeadOfChunk(mem, cm, base, top, topsize, a, n);
      } else {
        HeadOfTop(mem, cm, top, topsize);
      }
    }

    /** No free chunk is what block a becomes with its free neighbours. */
    lemma JoinedIsNew(a: nat, p: nat, psize: nat, more: nat)
      requires Joined(a, p, psize) == true
      ensures (p, psize + more) !in Frees(cm)
    {
    }

    /** What was kept up to mem1 for these blocks, and since then for all but a, is kept. */
    lemma KeptLess(was: Memory, mem1: Memory, blocks: map<nat, nat>, a: nat)
      requires Preserved(was, mem1, blocks) == true && Kept(mem1) == true && Blocks(cm) == blocks - {a}
      ensures Kept(was) == true
    {
      PreservedChain(was, mem1, mem, Blocks(cm), blocks, Blocks(cm));
    }

    /** Neither neighbour of block a is free, or the one before is and has been unlinked. */
    method FreePlainly(p: nat, psize: nat, next: nat, ghost a: nat)
      requires LayoutHolds() == true && top != 0 && Joined(a, p, psize) == true && NextUsed(a, next) == true
      requires BinsHold(Frees(cm) - Before(a)) == true && psize % 8 == 0 && psize < MAX_CHUNK
      modifies `mem, `cm, `smallbins, `smallmap, `treebins, `treemap
      ensures Valid() == true && Kept(old(mem)) == true && Blocks(cm) == Blocks(old(cm)) - {a}
    {
      hide LayoutHoldsAt, LayoutHolds, BinsHold, Kept, Aligned, Blocks, Frees, Before, Joined, NextUsed;
      ghost var frees, was := Frees(cm) - Before(a), mem;
      BinsAre(frees);
      JoinedIsNew(a, p, psize, 0);
      WriteFree(p, psize, next, a);
      InsertChunk(p, psize, frees, was);
    }

    /** The chunk before is dv, which grows. */
    method FreeAfterDv(p: nat, psize: nat, next: nat, ghost a: nat)
      requires LayoutHolds() == true && top != 0 && Joined(a, p, psize) == true && NextUsed(a, next) == true
      requires BinsHold(Frees(cm)) == true && Before(a) == DvSet() && p > 0 && psize > 0
      modifies `mem, `cm, `dv, `dvsize
      ensures Valid() == true && Kept(old(mem)) == true && Blocks(cm) == Blocks(old(cm)) - {a}
      ensures Dv() == Victim(p, psize)
    {
      hide LayoutHoldsAt, LayoutHolds, BinsHold, Kept, Aligned, Blocks, Frees, Before, Joined, NextUsed, DvSet;
      BinsAre(Frees(cm));
      JoinedIsNew(a, p, psize, 0);
      SetDv(p, psize, Frees(cm));
      WriteFree(p, psize, next, a);
    }

    /** The next chunk is top; a dv before the block goes into top with it. */
    method FreeToTop(p: nat, psize: nat, ghost a: nat)
      requires LayoutHolds() == true && top != 0 && Joined(a, p, psize) == true && a in cm && a + cm[a].size == top
      requires if p == dv then BinsHold(Frees(cm)) == true && Before(a) == DvSet() else BinsHold(Frees(cm) - Before(a)) == true
      modifies `mem, `cm, `top, `topsize, `dv, `dvsize
      ensures Valid() == true && top != 0 && Kept(old(mem)) == true && Blocks(cm) == Blocks(old(cm)) - {a}
      ensures Dv() == if p == old(dv) then Victim(0, 0) else old(Dv())
    {
      hide LayoutHoldsAt, LayoutHolds, BinsHold, Kept, Aligned, Blocks, Frees, Before, Joined, DvSet;
      BinsAre(if p == dv then Frees(cm) else Frees(cm) - Before(a));
      if p == dv { SetDv(0, 0, Frees(cm)); }
      WriteFreeIntoTop(p, psize, a);
    }

    /** The next chunk is dv, which grows backwards. */
    method FreeToDv(p: nat, psize: nat, ghost a: nat)
      requires LayoutHolds() == true && top != 0 && Joined(a, p, psize) == true && p > 0 && psize > 0
      requires a in cm && a + cm[a].size == dv && NextFree(a, dv, dvsize) == true
      requires BinsHold(Frees(cm) - Before(a)) == true && DvSet() == {(dv, dvsize)}
      modifies `mem, `cm, `dv, `dvsize
      ensures Valid() == true && Kept(old(mem)) == true && Blocks(cm) == Blocks(old(cm)) - {a}
      ensures Dv() == Victim(p, psize + old(dvsize))
    {
      hide LayoutHoldsAt, LayoutHolds, BinsHold, Kept, Aligned, Blocks, Frees, Before, Joined, NextFree, DvSet;
      ghost var frees, nsize := Frees(cm) - Before(a), dvsize;
      BinsAre(frees);
      JoinedIsNew(a, p, psize, dvsize);
      var dsize := dvsize + psize;
      SetDv(p, dsize, frees);
      WriteFreeJoined(p, dsize, nsize, a);
    }

    /** The next chunk is free and in a bin. */
    method FreeJoining(p: nat, psize: nat, next: nat, nsize: nat, ghost a: nat)
      requires LayoutHolds() == true && top != 0 && Joined(a, p, psize) == true
      requires a in cm && next == a + cm[a].size && NextFree(a, next, nsize) == true
      requires (next, nsize) in Frees(cm) - Before(a) && (next, nsize) !in DvSet()
      requires BinsHold(Frees(cm) - Before(a)) == true && (psize + nsize) % 8 == 0 && psize + nsize < MAX_CHUNK
      modifies `mem, `cm, `smallbins, `smallmap, `treebins, `treemap
      ensures Valid() == true && Kept(old(mem)) == true && Blocks(cm) == Blocks(old(cm)) - {a}
    {
      hide LayoutHoldsAt, LayoutHolds, BinsHold, Kept, Aligned, Blocks, Frees, Before, Joined, NextFree, DvSet;
      ghost var frees, was, blocks := Frees(cm) - Before(a), mem, Blocks(cm);
      JoinedIsNew(a, p, psize, nsize);
      UnlinkChunk(next, nsize, frees);
      ghost var mem1 := mem;
      KeptMeans(was);
      BinsAre(frees - {(next, nsize)});
      WriteFreeJoined(p, psize + nsize, nsize, a);
      KeptLess(was, mem1, blocks, a);
      InsertChunk(p, psize + nsize, frees - {(next, nsize)}, was);
    }

    /** The chunk before is dv and the next one is free and in a bin. */
    method FreeBetweenDv(p: nat, psize: nat, next: nat, nsize: nat, ghost a: nat)
      requires LayoutHolds() == true && top != 0 && Joined(a, p, psize) == true && p > 0 && psize > 0
      requires a in cm && next == a + cm[a].size && NextFree(a, next, nsize) == true
      requires (next, nsize) in Frees(cm) && (next, nsize) !in DvSet()
      requires BinsHold(Frees(cm)) == true && Before(a) == DvSet()
      modifies `mem, `cm, `smallbins, `smallmap, `treebins, `treemap, `dv, `dvsize
      ensures Valid() == true && Kept(old(mem)) == true && Blocks(cm) == Blocks(old(cm)) - {a}
      ensures Dv() == Victim(p, psize + nsize)
    {
      hide LayoutHoldsAt, LayoutHolds, BinsHold, Kept, Aligned, Blocks, Frees, Before, Joined, NextFree, DvSet;
      ghost var frees, was, blocks := Frees(cm), mem, Blocks(cm);
      JoinedIsNew(a, p, psize, nsize);
      UnlinkChunk(next, nsize, frees);
      ghost var mem1 := mem;
      KeptMeans(was);
      ghost var rest := frees - {(next, nsize)} - DvSet();
      BinsAre(frees - {(next, nsize)});
      SetDv(p, psize + nsize, frees - {(next, nsize)});
      WriteFreeJoined(p, psize + nsize, nsize, a);
      KeptLess(was, mem1, blocks, a);
      assert Frees(cm) == rest + {(p, psize + nsize)};
    }

    /** Size of the free chunk at n, 0 when there is none. */
    ghost function FreeSize(n: nat): nat
      reads `cm
    {
      if n in cm && !cm[n].used then cm[n].size else 0
    }

    /**
      dv after the psize bytes at p have been freed: if dv is among them, or is the chunk after them,
      it is now all of them with what is free behind, or has gone into top with them.
    */
    ghost function DvFreed(p: nat, psize: nat, next: nat): Victim
      reads `cm, `top, `dv, `dvsize
    {
      if dv == p || (dv == next && FreeSize(next) > 0)
      then (if next == top then Victim(0, 0) else Victim(p, psize + FreeSize(next)))
      else Dv()
    }

    lemma FreeSizeIs(a: nat, p: nat, psize: nat, next: nat, nextHead: nat)
      requires Around(a, p, psize, next, nextHead) == true && LayoutHolds() == true
      ensures if CInuse(nextHead) || next == top then FreeSize(next) == 0 else FreeSize(next) == ChunkSize(nextHead) > 0
      ensures CInuse(nextHead) ==> next != top
    {
      hide CInuse, ChunkSize, Linked, TagsOk, LayoutOk;
      LayoutBounds(cm, base, top);
      ChunkAt(cm, base, top, next);
    }

    /** What dispose_chunk finds around block a. */
    ghost predicate Around(a: nat, p: nat, psize: nat, next: nat, nextHead: nat)
      reads `cm, `dv, `dvsize, `top
    {
      && top != 0 && Joined(a, p, psize) && p > 0 && psize > 0 && psize % 8 == 0 && psize < MAX_CHUNK
      && a in cm && next == a + cm[a].size && (next == top || next in cm)
      && (p == dv ==> Before(a) == DvSet())
      && (CInuse(nextHead) ==> NextUsed(a, next))
      && (!CInuse(nextHead) && next != top ==>
            var nsize := ChunkSize(nextHead);
            && NextFree(a, next, nsize) && (next, nsize) in Frees(cm) - Before(a)
            && (psize + nsize) % 8 == 0 && psize + nsize < MAX_CHUNK
            && (next == dv ==> nsize == dvsize && DvSet() == {(dv, dvsize)} && p != dv)
            && (next != dv ==> (next, nsize) !in DvSet()))
    }

    /** When the next chunk is dv, its size is dv's. */
    lemma DvIsSized(a: nat, p: nat, psize: nat, next: nat, nextHead: nat)
      requires Around(a, p, psize, next, nextHead) == true
      ensures !CInuse(nextHead) && next != top && next == dv ==> ChunkSize(nextHead) == dvsize
    {
      hide CInuse, ChunkSize, Joined, NextUsed, NextFree, DvSet, Before;
    }

    lemma PrevNeighbour(a: nat, p: nat, psize: nat)
      requires Valid() == true && IsLive(a) && cm[a].pfree <= a && p == a - cm[a].pfree && psize == cm[a].pfree + cm[a].size
      ensures top != 0 && Joined(a, p, psize) && p > 0 && psize > 0 && psize % 8 == 0 && psize < MAX_CHUNK
      ensures p == dv ==> Before(a) == DvSet()
      ensures p != a ==> Before(a) == {(p, psize - cm[a].size)} && (p, psize - cm[a].size) in Frees(cm)
      ensures p == a ==> Before(a) == {} && p != dv
      ensures p != dv ==> Before(a) !! DvSet()
    {
      hide LayoutHoldsAt, LayoutHolds, BinsHold, Aligned, Head, Word, CInuse, PInuse, ChunkSize;
      LiveTags(a);
      DvIsThere();
    }

    lemma Neighbours(a: nat, p: nat, psize: nat, next: nat)
      requires Valid() == true && IsLive(a) && cm[a].pfree <= a && p == a - cm[a].pfree && psize == cm[a].pfree + cm[a].size
      requires next == a + cm[a].size
      ensures Around(a, p, psize, next, Word(mem, next + 8)) == true
      ensures p != a ==> Before(a) == {(p, psize - cm[a].size)} && (p, psize - cm[a].size) in Frees(cm)
      ensures p == a ==> Before(a) == {} && p != dv
      ensures p != dv ==> Before(a) !! DvSet()
    {
      hide LayoutHoldsAt, LayoutHolds, BinsHold, Aligned, Head, Word, CInuse, PInuse, ChunkSize, Joined;
      PrevNeighbour(a, p, psize);
      NextTags(a);
      DvIsThere();
    }

    lemma NextHeadKept(was: Memory, a: nat, p: nat, psize: nat, next: nat)
      requires HeadsKept(was) == true && Around(a, p, psize, next, Word(was, next + 8)) == true && Kept(was) == true
      ensures Word(mem, next + 8) == Word(was, next + 8) && Preserved(was, mem, Blocks(cm)) == true
    {
      hide Word, Blocks, Preserved, Joined, Before, NextUsed, NextFree, DvSet;
    }

    /** The forward half of dispose_chunk, with the chunk before the block unlinked or in use. */
    method DisposeForward(p: nat, psize: nat, next: nat, ghost a: nat)
      requires LayoutHolds() == true && Around(a, p, psize, next, Word(mem, next + 8)) == true && p != dv
      requires BinsHold(Frees(cm) - Before(a)) == true
      modifies `mem, `cm, `top, `topsize, `smallbins, `smallmap, `treebins, `treemap, `dv, `dvsize
      ensures Valid() == true && top != 0 && Kept(old(mem)) == true && Blocks(cm) == Blocks(old(cm)) - {a}
      ensures Dv() == old(DvFreed(p, psize, next))
    {
      hide LayoutHoldsAt, LayoutHolds, BinsHold, Kept, Blocks, Frees, Before, Joined, NextUsed, NextFree, DvSet, Word, CInuse, ChunkSize;
      FreeSizeIs(a, p, psize, next, Word(mem, next + 8));
      DvIsSized(a, p, psize, next, Word(mem, next + 8));
      if CInuse(Word(mem, next + 8)) {
        FreePlainly(p, psize, next, a);
      } else if next == top {
        FreeToTop(p, psize, a);
      } else if next == dv {
        FreeToDv(p, psize, a);
      } else {
        FreeJoining(p, psize, next, ChunkSize(Word(mem, next + 8)), a);
      }
    }

    /** The same when the chunk before the block is dv, which stays dv. */
    method DisposeAfterDv(p: nat, psize: nat, next: nat, ghost a: nat)
      requires LayoutHolds() == true && Around(a, p, psize, next, Word(mem, next + 8)) == true && p == dv
      requires BinsHold(Frees(cm)) == true
      modifies `mem, `cm, `top, `topsize, `smallbins, `smallmap, `treebins, `treemap, `dv, `dvsize
      ensures Valid() == true && top != 0 && Kept(old(mem)) == true && Blocks(cm) == Blocks(old(cm)) - {a}
      ensures Dv() == old(DvFreed(p, psize, next))
    {
      hide LayoutHoldsAt, LayoutHolds, BinsHold, Kept, Blocks, Frees, Before, Joined, NextUsed, NextFree, DvSet, Word, CInuse, ChunkSize;
      FreeSizeIs(a, p, psize, next, Word(mem, next + 8));
      DvIsSized(a, p, psize, next, Word(mem, next + 8));
      if CInuse(Word(mem, next + 8)) {
        FreeAfterDv(p, psize, next, a);
      } else if next == top {
        FreeToTop(p, psize, a);
      } else {
        FreeBetweenDv(p, psize, next, ChunkSize(Word(mem, next + 8)), a);
      }
    }

    /**
      dispose_chunk: block p0 of psize0 bytes, joined with the free chunks around it, becomes
      free, or becomes part of top.
    */
    method DisposeChunk(p0: nat, psize0: nat)
      requires Valid() == true && IsLive(p0) && psize0 == cm[p0].size
      modifies `mem, `cm, `top, `topsize, `smallbins, `smallmap, `treebins, `treemap, `dv, `dvsize
      ensures Valid() == true && top != 0 && Kept(old(mem)) == true && Blocks(cm) == Blocks(old(cm)) - {p0}
      ensures old(cm[p0].pfree) <= p0 && Dv() == old(DvFreed(p0 - cm[p0].pfree, cm[p0].pfree + psize0, p0 + psize0))
    {
      hide LayoutHoldsAt, LayoutHolds, BinsHold, Kept, Aligned, Blocks, Frees, Word, PInuse, ChunkSize, Around, DvSet, DvFreed, Dv, Before;
      ghost var a := p0;
      LiveTags(a);
      var p, psize, next := p0, psize0, p0 + psize0;
      if !PInuse(Word(mem, p + 8)) {
        psize := psize + Word(mem, p0);
        p := p - Word(mem, p0);
      }
      Neighbours(a, p, psize, next);
      if p == dv {
        DisposeAfterDv(p, psize, next, a);
      } else {
        ghost var was, blocks := mem, Blocks(cm);
        if p != p0 {
          UnlinkChunk(p, psize - psize0, Frees(cm));
          NextHeadKept(was, a, p, psize, next);
        } else {
          PreservedSame(mem, Blocks(cm));
          assert Frees(cm) - Before(a) == Frees(cm);
        }
        ghost var mem1 := mem;
        DisposeForward(p, psize, next, a);
        KeptLess(was, mem1, blocks, a);
      }
    }

    /** Give extra bytes at the end of the segment back to the bump pointer. */
    method GiveBack(extra: nat) returns (released: nat)
      requires LayoutHolds() == true && top != 0 && extra < topsize && Aligned(extra)
      modifies `curr, `mem, `top, `topsize, `segSize, `footprint, `trimCheck
      ensures LayoutHolds() == true && top == old(top) && topsize == old(topsize) - extra && curr == old(curr) - extra
      ensures Kept(old(mem)) == true && released == extra
      ensures trimCheck == if released == 0 then old(trimCheck) else trimThreshold
    {
      hide Linked, SmallItems, AllItems, Preserved, Blocks, Frees, SetTop, LayoutOk;
      released := 0;
      ghost var was := mem;
      PreservedSame(mem, Blocks(cm));
      AlignedSum(topsize, extra);
      LayoutBounds(cm, base, top);
      var oldEnd := GetNext(0);
      if oldEnd == segBase + segSize {
        var back: int := extra;
        var r := GetNext(-back);
        var newEnd := GetNext(0);
        if r != CMFAIL && newEnd < oldEnd { released := oldEnd - newEnd; }
      }
      if released != 0 {
        segSize := segSize - released;
        footprint := footprint - released;
        InitTop(top, topsize - released);
        TopMoved(was, mem, cm, base, top, topsize);
        TopKeepsLinks(was, mem, cm, base, top, topsize, TOP_FOOT_SIZE, gm, smallbins, treebins);
      }
    }

    /** sys_trim goes to work: there is a top and it has more than pad bytes beyond the foot. */
    predicate Trims(pad: nat)
      reads `top, `topsize
    {
      pad < MAX_REQUEST && top != 0 && topsize > pad + TOP_FOOT_SIZE
    }

    /**
      sys_trim: give whole units at the end of top back, as many as leave more than pad bytes in it.
      When there is nothing to give, trim_check is raised so that it is not tried again.
    */
    method SysTrim(pad: nat) returns (trimmed: bool)
      requires Valid() == true
      modifies `curr, `mem, `top, `topsize, `segSize, `footprint, `trimCheck
      ensures Valid() == true && cm == old(cm) && top == old(top) && Kept(old(mem)) == true
      ensures trimmed <==> curr < old(curr)
      ensures old(curr) - curr == old(topsize) - topsize >= 0 && (old(curr) - curr) % gran == 0
      ensures if old(Trims(pad)) then 0 < topsize - (pad + TOP_FOOT_SIZE) <= gran else topsize == old(topsize)
      ensures trimCheck == if trimmed then trimThreshold
                           else if pad < MAX_REQUEST && top != 0 && topsize > old(trimCheck) then MAX_SIZE_T
                           else old(trimCheck)
    {
      SizesAreSmall();
      PreservedSame(mem, Blocks(cm));
      hide LayoutHoldsAt, LayoutHolds, BinsHold, Frees, Blocks, Aligned;
      var released := 0;
      if pad < MAX_REQUEST && top != 0 {
        if topsize > pad + TOP_FOOT_SIZE {
          TrimmedSize(topsize - (pad + TOP_FOOT_SIZE), gran);
          var extra := TrimSize(topsize - (pad + TOP_FOOT_SIZE), gran);
          released := GiveBack(extra);
        }
        if released == 0 && topsize > trimCheck { trimCheck := MAX_SIZE_T; }
      }
      trimmed := released != 0;
    }

    /** The block at addr is right before top. */
    ghost predicate EndsAtTop(addr: nat)
      reads `cm, `top
    {
      addr >= 16 && addr - 16 in cm && addr - 16 + cm[addr - 16].size == top
    }

    /**
      What the trim check leaves: top is within the threshold or too small to give back a unit, and
      only what exceeded the threshold has been given back, in whole units.
    */
    ghost predicate TrimChecked(threshold: nat, given: int)
      reads `topsize
    {
      && (topsize <= threshold || topsize <= TOP_FOOT_SIZE + gran)
      && (given != 0 ==> given > 0 && gran > 0 && given % gran == 0 && topsize + given > threshold && topsize > TOP_FOOT_SIZE)
    }

    /** dlfree: a block that goes into top may set off a trim; no other one does. */
    method Free(addr: nat)
      requires Valid() == true && (addr != 0 ==> addr >= 16 && IsLive(addr - 16))
      modifies this
      ensures Valid() == true && Kept(old(mem)) == true
      ensures Blocks(cm) == if addr == 0 then Blocks(old(cm)) else Blocks(old(cm)) - {addr - 16}
      ensures addr != 0 ==>
                && old(cm[addr - 16].pfree) <= addr - 16
                && Dv() == old(DvFreed(addr - 16 - cm[addr - 16].pfree, cm[addr - 16].pfree + cm[addr - 16].size, addr - 16 + cm[addr - 16].size))
      ensures if addr != 0 && old(EndsAtTop(addr)) then TrimChecked(old(trimCheck), old(curr) - curr) else curr == old(curr)
    {
      hide LayoutHoldsAt, LayoutHolds, BinsHold, Frees, Blocks, Aligned, Preserved, Word;
      PreservedSame(mem, Blocks(cm));
      if addr != 0 {
        var p := addr - 16;
        LiveTags(p);
        hide Kept, TrimChecked;
        var psize := ChunkSize(Word(mem, p + 8));
        var intoTop := p + psize == top;
        ghost var was := mem;
        DisposeChunk(p, psize);
        if intoTop { TrimIfLarge(was); }
      }
    }

    /** After a block has gone into top: trim when top is beyond the threshold. */
    method TrimIfLarge(ghost was: Memory)
      requires Valid() == true && Kept(was) == true
      modifies `curr, `mem, `top, `topsize, `segSize, `footprint, `trimCheck
      ensures Valid() == true && Kept(was) == true && cm == old(cm)
      ensures TrimChecked(old(trimCheck), old(curr) - curr)
    {
      hide LayoutHoldsAt, LayoutHolds, BinsHold, Frees, Blocks, Aligned, Preserved, Word;
      SizesAreSmall();
      if topsize > trimCheck {
        ghost var mem1 := mem;
        var trimmed := SysTrim(0);
        PreservedChain(was, mem1, mem, Blocks(cm), Blocks(cm), Blocks(cm));
      }
    }

    // ---------------------------------------------------------------- realloc

    /** Block p takes what it lacks from top. */
    method GrowIntoTop(p: nat, oldsize: nat, nb: nat)
      requires LayoutHolds() == true && IsLive(p) && cm[p].size == oldsize && p + oldsize == top && top != 0
      requires Aligned(nb) && oldsize < nb < oldsize + topsize
      modifies `mem, `cm, `top, `topsize
      ensures LayoutHolds() == true && top != 0 && Kept(old(mem)) == true
      ensures Frees(cm) == Frees(old(cm)) && Blocks(cm) == Blocks(old(cm))[p := nb]
    {
      hide LayoutOk, TagsOk, Spares, ResizeLast, SetInuse, SetTop, Preserved, Frees, Blocks, Aligned, SmallLinked, TreesLinked, Linked, Separated, SizesRead, SmallItems, AllItems;
      LinksAre();
      ResizeLastStep(mem, cm, base, top, topsize, p, nb);
      ghost var was, cm0 := mem, cm;
      var newsize := oldsize + topsize;
      mem := SetInuse(mem, p, nb);
      topsize := newsize - nb;
      top := p + nb;
      mem := SetTop(mem, top, topsize);
      cm := ResizeLast(cm, p, nb);
      TagsWritten(was, cm0);
    }

    /** Block p takes all of the free chunk behind it. */
    method TakeNext(p: nat, size: nat, ghost nsize: nat)
      requires LayoutHolds() == true && top != 0 && IsLive(p) && NextFree(p, p + cm[p].size, nsize) == true
      requires size == cm[p].size + nsize && (p + cm[p].size, nsize) !in Binned()
      modifies `mem, `cm
      ensures LayoutHolds() == true && Kept(old(mem)) == true
      ensures Frees(cm) == Frees(old(cm)) - {(p + old(cm)[p].size, nsize)} && Blocks(cm) == Blocks(old(cm))[p := size]
    {
      hide LayoutOk, TagsOk, Spares, AbsorbNext, SetInuse, Preserved, Frees, Blocks, SmallLinked, TreesLinked, Linked, Separated, SizesRead, SmallItems, AllItems;
      LinksAre();
      AbsorbStep(mem, cm, base, top, topsize, p);
      ghost var was, cm0 := mem, cm;
      mem := SetInuse(mem, p, size);
      cm := AbsorbNext(cm, p);
      TagsWritten(was, cm0);
    }

    /** Block p takes what it lacks from the free chunk behind it; the rest is a block for now. */
    method TakePartOfNext(p: nat, nb: nat, rsize: nat, ghost nsize: nat)
      requires LayoutHolds() == true && top != 0 && IsLive(p) && NextFree(p, p + cm[p].size, nsize) == true
      requires nb + rsize == cm[p].size + nsize && Aligned(nb) && nb >= MIN_CHUNK && rsize >= MIN_CHUNK
      requires (p + cm[p].size, nsize) !in Binned()
      modifies `mem, `cm
      ensures LayoutHolds() == true && Kept(old(mem)) == true
      ensures Frees(cm) == Frees(old(cm)) - {(p + old(cm)[p].size, nsize)}
      ensures Blocks(cm) == Blocks(old(cm))[p := nb][p + nb := rsize]
    {
      hide LayoutOk, TagsOk, Spares, Split, SetInuse, Preserved, Frees, Blocks, Aligned, SmallLinked, TreesLinked, Linked, Separated, SizesRead, SmallItems, AllItems;
      LinksAre();
      AbsorbAndSplitStep(mem, cm, base, top, topsize, p, nb);
      ghost var was, cm0 := mem, cm;
      mem := SetInuse(mem, p, nb);
      mem := SetInuse(mem, p + nb, rsize);
      cm := Split(AbsorbNext(cm, p), p, nb);
      TagsWritten(was, cm0);
    }

    /** Block p takes what it lacks from the free chunk behind it; the rest stays free. */
    method ShiftNext(p: nat, nb: nat, rsize: nat, ghost nsize: nat)
      requires LayoutHolds() == true && top != 0 && IsLive(p) && NextFree(p, p + cm[p].size, nsize) == true
      requires nb + rsize == cm[p].size + nsize && Aligned(nb) && nb >= MIN_CHUNK && rsize >= MIN_CHUNK
      requires (p + cm[p].size, nsize) !in Binned()
      modifies `mem, `cm
      ensures LayoutHolds() == true && Kept(old(mem)) == true
      ensures Frees(cm) == Frees(old(cm)) - {(p + old(cm)[p].size, nsize)} + {(p + nb, rsize)}
      ensures Blocks(cm) == Blocks(old(cm))[p := nb]
    {
      hide LayoutOk, TagsOk, Spares, ShiftFree, SetInuse, SetSizeAndPinuseOfFree, Preserved, Frees, Blocks, Aligned, ClearPInuse, Word, SmallLinked, TreesLinked, Linked, Separated, SizesRead, SmallItems, AllItems;
      LinksAre();
      ShiftFreeStep(mem, cm, base, top, topsize, p, nb);
      ghost var was, cm0 := mem, cm;
      mem := SetInuse(mem, p, nb);
      mem := SetSizeAndPinuseOfFree(mem, p + nb, rsize);
      mem := mem[p + nb + rsize + 8 := ClearPInuse(Word(mem, p + nb + rsize + 8))];
      assert mem == ShiftTags(was, p, nb, rsize);
      cm := ShiftFree(cm, p, nb);
      TagsWritten(was, cm0);
    }

    /**
      Block p now has at least nb bytes and less than a chunk more; every other block is as
      before; no payload has changed, that of p as far as both sizes go.
    */
    ghost predicate Resized(p: nat, nb: nat, oldMem: Memory, oldCm: Layout)
      reads `mem, `cm
    {
      && p in Blocks(oldCm) && p in Blocks(cm) && nb <= Blocks(cm)[p] < nb + MIN_CHUNK
      && Blocks(cm) == Blocks(oldCm)[p := Blocks(cm)[p]]
      && Preserved(oldMem, mem, Blocks(oldCm)[p := Least(Blocks(oldCm)[p], Blocks(cm)[p])])
    }

    lemma IsResized(p: nat, size: nat, nb: nat, oldMem: Memory, oldCm: Layout)
      requires p in Blocks(oldCm) && Blocks(cm) == Blocks(oldCm)[p := size] && nb <= size < nb + MIN_CHUNK && Kept(oldMem) == true
      ensures Resized(p, nb, oldMem, oldCm) == true
    {
      PreservedPart(oldMem, mem, Blocks(oldCm)[p := Least(Blocks(oldCm)[p], size)], Blocks(cm));
    }

    /** Resizing after something that preserved all blocks is resizing. */
    lemma ResizedAfter(p: nat, nb: nat, was: Memory, mem1: Memory, oldCm: Layout)
      requires Resized(p, nb, mem1, oldCm) == true && Preserved(was, mem1, Blocks(oldCm)) == true
      ensures Resized(p, nb, was, oldCm) == true
    {
    }

    /** The rest of a split block is given back. */
    method DisposeRest(p: nat, nb: nat, rsize: nat, ghost oldMem: Memory, ghost oldCm: Layout)
      requires Valid() == true && Preserved(oldMem, mem, Blocks(cm)) == true && p in Blocks(oldCm)
      requires p + nb !in Blocks(oldCm) && nb > 0 && Blocks(cm) == Blocks(oldCm)[p := nb][p + nb := rsize]
      modifies `mem, `cm, `top, `topsize, `smallbins, `smallmap, `treebins, `treemap, `dv, `dvsize
      ensures Valid() == true && Blocks(cm) == Blocks(oldCm)[p := nb] && Kept(oldMem) == true
    {
      hide LayoutHoldsAt, LayoutHolds, BinsHold, Frees, Preserved, Kept, Blocks;
      ghost var mem1, blocks1 := mem, Blocks(cm);
      RestIsGone(Blocks(oldCm), p, nb, rsize);
      IsInUse(p + nb, rsize);
      DisposeChunk(p + nb, rsize);
      KeptFrom(oldMem, mem1, blocks1);
    }

    lemma IsInUse(a: nat, size: nat)
      requires a in Blocks(cm) && Blocks(cm)[a] == size
      ensures IsLive(a) && cm[a].size == size
    {
    }

    lemma KeptFrom(oldMem: Memory, mem1: Memory, blocks1: map<nat, nat>)
      requires Preserved(oldMem, mem1, blocks1) && Kept(mem1) == true && Covers(Blocks(cm), blocks1)
      ensures Kept(oldMem) == true
    {
      PreservedChain(oldMem, mem1, mem, Blocks(cm), blocks1, Blocks(cm));
    }

    /** Big enough already; a large enough rest is split off and given back. */
    method Shrink(p: nat, oldsize: nat, nb: nat)
      requires Valid() == true && IsLive(p) && cm[p].size == oldsize && Aligned(nb) && MIN_CHUNK <= nb <= oldsize
      modifies `mem, `cm, `top, `topsize, `smallbins, `smallmap, `treebins, `treemap, `dv, `dvsize
      ensures Valid() == true && Resized(p, nb, old(mem), old(cm)) == true
    {
      hide LayoutHoldsAt, LayoutHolds, BinsHold, Frees, Blocks, Preserved, Resized, Aligned;
      ghost var was, cm0, frees := mem, cm, Frees(cm);
      LiveTags(p);
      PreservedSame(mem, Blocks(cm));
      SameBlock(p, oldsize);
      var rsize := oldsize - nb;
      if rsize >= MIN_CHUNK {
        SplitBlock(p, nb, rsize, true);
        DisposeRest(p, nb, rsize, was, cm0);
        IsResized(p, nb, nb, was, cm0);
      } else {
        IsResized(p, oldsize, nb, was, cm0);
      }
    }

    lemma SameBlock(p: nat, size: nat)
      requires IsLive(p) && cm[p].size == size
      ensures p in Blocks(cm) && Blocks(cm) == Blocks(cm)[p := size]
    {
    }

    /** The next chunk is top. */
    method ReallocTop(p: nat, oldsize: nat, nb: nat)
      requires Valid() == true && IsLive(p) && cm[p].size == oldsize && p + oldsize == top && top != 0
      requires Aligned(nb) && oldsize < nb < oldsize + topsize
      modifies `mem, `cm, `top, `topsize
      ensures Valid() == true && Resized(p, nb, old(mem), old(cm)) == true
    {
      hide LayoutHoldsAt, LayoutHolds, BinsHold, Frees, Blocks, Preserved, Resized, Aligned, Kept;
      ghost var was, cm0 := mem, cm;
      SameBlock(p, oldsize);
      GrowIntoTop(p, oldsize, nb);
      IsResized(p, nb, nb, was, cm0);
    }

    /** The next chunk is dv: it is used up, or keeps the rest. */
    method ReallocDv(p: nat, oldsize: nat, nb: nat)
      requires Valid() == true && IsLive(p) && cm[p].size == oldsize && p + oldsize == dv && dv != 0
      requires NextFree(p, dv, dvsize) == true
      requires Aligned(nb) && oldsize < nb <= oldsize + dvsize && nb >= MIN_CHUNK && top != 0
      modifies `mem, `cm, `dv, `dvsize
      ensures Valid() == true && Resized(p, nb, old(mem), old(cm)) == true
    {
      hide LayoutHoldsAt, LayoutHolds, BinsHold, Resized, Aligned, NextFree;
      var dvs := dvsize;
      var dsize := oldsize + dvs - nb;
      if dsize >= MIN_CHUNK {
        ShiftDv(p, oldsize, nb, dsize);
      } else {
        TakeDv(p, oldsize, nb, oldsize + dvs);
      }
    }

    method ShiftDv(p: nat, oldsize: nat, nb: nat, dsize: nat)
      requires Valid() == true && IsLive(p) && cm[p].size == oldsize && p + oldsize == dv && dv != 0
      requires NextFree(p, dv, dvsize) == true && top != 0
      requires Aligned(nb) && oldsize < nb && nb >= MIN_CHUNK && dsize >= MIN_CHUNK && nb + dsize == oldsize + dvsize
      modifies `mem, `cm, `dv, `dvsize
      ensures Valid() == true && Resized(p, nb, old(mem), old(cm)) == true
    {
      hide LayoutHoldsAt, LayoutHolds, BinsHold, Frees, Blocks, Preserved, Resized, Aligned, Kept, NextFree, DvSet, Binned, SmallOk, BinsOk;
      SameBlock(p, oldsize);
      DvSetIs();
      RestIsNew(p, oldsize, dvsize, nb);
      ghost var was, cm0, frees, dvs0 := mem, cm, Frees(cm), dvsize;
      BinsAre(frees);
      SetDv(p + nb, dsize, frees);
      ShiftNext(p, nb, dsize, dvs0);
      IsResized(p, nb, nb, was, cm0);
    }

    method TakeDv(p: nat, oldsize: nat, nb: nat, newsize: nat)
      requires Valid() == true && IsLive(p) && cm[p].size == oldsize && p + oldsize == dv && dv != 0
      requires NextFree(p, dv, dvsize) == true && top != 0
      requires newsize == oldsize + dvsize && nb <= newsize < nb + MIN_CHUNK
      modifies `mem, `cm, `dv, `dvsize
      ensures Valid() == true && Resized(p, nb, old(mem), old(cm)) == true
    {
      hide LayoutHoldsAt, LayoutHolds, BinsHold, Frees, Blocks, Preserved, Resized, Aligned, Kept, NextFree, DvSet, Binned, SmallOk, BinsOk;
      SameBlock(p, oldsize);
      DvSetIs();
      ghost var was, cm0, frees, dvs0 := mem, cm, Frees(cm), dvsize;
      BinsAre(frees);
      SetDv(0, 0, frees);
      TakeNext(p, newsize, dvs0);
      IsResized(p, newsize, nb, was, cm0);
    }

    lemma DvSetIs()
      requires BinsHold(Frees(cm)) == true && dv != 0
      ensures DvSet() == {(dv, dvsize)}
    {
    }

    /** What is left of the next free chunk is not one of the old free chunks, nor an old block. */
    lemma RestIsNew(p: nat, oldsize: nat, nsize: nat, nb: nat)
      requires LayoutHolds() == true && IsLive(p) && cm[p].size == oldsize && NextFree(p, p + oldsize, nsize) == true
      requires oldsize < nb < oldsize + nsize && top != 0
      ensures p + nb !in cm
      ensures (p + nb, oldsize + nsize - nb) !in Frees(cm) && p + nb !in Blocks(cm)
    {
      hide LayoutOk, TagsOk;
      RestApart(cm, base, top, p, nb, nsize);
    }

    /** The next chunk is free and in a bin: it is used up, or its rest is given back. */
    method ReallocNext(p: nat, oldsize: nat, next: nat, nsize: nat, nb: nat)
      requires Valid() == true && IsLive(p) && cm[p].size == oldsize && next == p + oldsize && NextFree(p, next, nsize) == true
      requires next != dv && Aligned(nb) && oldsize < nb <= oldsize + nsize && nb >= MIN_CHUNK && top != 0
      modifies `mem, `cm, `top, `topsize, `smallbins, `smallmap, `treebins, `treemap, `dv, `dvsize
      ensures Valid() == true && Resized(p, nb, old(mem), old(cm)) == true
    {
      hide LayoutHoldsAt, LayoutHolds, BinsHold, Resized, Aligned, NextFree, Frees;
      var rsize := oldsize + nsize - nb;
      if rsize < MIN_CHUNK {
        AbsorbBinned(p, oldsize, next, nsize, nb);
      } else {
        AbsorbBinnedPart(p, oldsize, next, nsize, nb, rsize);
      }
    }

    method AbsorbBinned(p: nat, oldsize: nat, next: nat, nsize: nat, nb: nat)
      requires Valid() == true && IsLive(p) && cm[p].size == oldsize && next == p + oldsize && NextFree(p, next, nsize) == true
      requires next != dv && nb <= oldsize + nsize < nb + MIN_CHUNK && top != 0
      modifies `mem, `cm, `smallbins, `smallmap, `treebins, `treemap
      ensures Valid() == true && Resized(p, nb, old(mem), old(cm)) == true
    {
      hide LayoutHoldsAt, LayoutHolds, BinsHold, Frees, Blocks, Preserved, Resized, Aligned, NextFree, DvSet, Kept;
      SameBlock(p, oldsize);
      NextIsBinned(p, next, nsize);
      ghost var was, cm0, frees := mem, cm, Frees(cm);
      UnlinkChunk(next, nsize, frees);
      ghost var mem1 := mem;
      KeptMeans(was);
      BinsAre(frees - {(next, nsize)});
      TakeNext(p, oldsize + nsize, nsize);
      IsResized(p, oldsize + nsize, nb, mem1, cm0);
      ResizedAfter(p, nb, was, mem1, cm0);
    }

    method AbsorbBinnedPart(p: nat, oldsize: nat, next: nat, nsize: nat, nb: nat, rsize: nat)
      requires Valid() == true && IsLive(p) && cm[p].size == oldsize && next == p + oldsize && NextFree(p, next, nsize) == true
      requires next != dv && Aligned(nb) && oldsize < nb && nb >= MIN_CHUNK && rsize >= MIN_CHUNK && top != 0
      requires nb + rsize == oldsize + nsize
      modifies `mem, `cm, `top, `topsize, `smallbins, `smallmap, `treebins, `treemap, `dv, `dvsize
      ensures Valid() == true && Resized(p, nb, old(mem), old(cm)) == true
    {
      hide LayoutHoldsAt, LayoutHolds, BinsHold, Frees, Blocks, Preserved, Resized, Aligned, NextFree, DvSet;
      SameBlock(p, oldsize);
      RestIsNew(p, oldsize, nsize, nb);
      NextIsBinned(p, next, nsize);
      ghost var was, cm0, frees := mem, cm, Frees(cm);
      UnlinkChunk(next, nsize, frees);
      ghost var mem1 := mem;
      KeptMeans(was);
      BinsAre(frees - {(next, nsize)});
      TakePartOfNext(p, nb, rsize, nsize);
      KeptMeans(mem1);
      DisposeRest(p, nb, rsize, mem1, cm0);
      IsResized(p, nb, nb, mem1, cm0);
      ResizedAfter(p, nb, was, mem1, cm0);
    }

    lemma NextIsBinned(p: nat, next: nat, nsize: nat)
      requires Valid() == true && NextFree(p, next, nsize) == true && next != dv
      ensures (next, nsize) in Frees(cm) && (next, nsize) !in DvSet()
    {
    }

    /** Can p be given nb bytes where it is? */
    ghost predicate FitsInPlace(p: nat, nb: nat)
      reads `cm, `top, `topsize
    {
      p in cm &&
      var size, n := cm[p].size, p + cm[p].size;
      size >= nb || (n == top && size + topsize > nb) || (n in cm && !cm[n].used && size + cm[n].size >= nb)
    }

    /** The part of try_realloc_chunk for a chunk that is too small. */
    method GrowInPlace(p: nat, oldsize: nat, next: nat, nb: nat) returns (ok: bool)
      requires Valid() == true && IsLive(p) && cm[p].size == oldsize && next == p + oldsize
      requires Aligned(nb) && nb >= MIN_CHUNK && oldsize < nb
      modifies `mem, `cm, `top, `topsize, `smallbins, `smallmap, `treebins, `treemap, `dv, `dvsize
      ensures Valid() == true && ok == old(FitsInPlace(p, nb))
      ensures ok ==> Resized(p, nb, old(mem), old(cm)) == true
      ensures !ok ==> cm == old(cm) && mem == old(mem)
    {
      hide LayoutHoldsAt, LayoutHolds, BinsHold, Frees, Blocks, Resized, Aligned, Word, ChunkSize, CInuse, PInuse;
      LiveTags(p);
      NextTags(p);
      DvIsThere();
      ok := false;
      if next == top {
        if oldsize + topsize > nb {
          ReallocTop(p, oldsize, nb);
          ok := true;
        }
      } else if next == dv {
        if oldsize + dvsize >= nb {
          ReallocDv(p, oldsize, nb);
          ok := true;
        }
      } else if !CInuse(Word(mem, next + 8)) {
        var nsize := ChunkSize(Word(mem, next + 8));
        if oldsize + nsize >= nb {
          ReallocNext(p, oldsize, next, nsize, nb);
          ok := true;
        }
      }
    }

    /** try_realloc_chunk: resize block p where it is, exactly when that is possible. */
    method TryRealloc(p: nat, nb: nat) returns (ok: bool)
      requires Valid() == true && IsLive(p) && Aligned(nb) && nb >= MIN_CHUNK
      modifies `mem, `cm, `top, `topsize, `smallbins, `smallmap, `treebins, `treemap, `dv, `dvsize
      ensures Valid() == true && ok == old(FitsInPlace(p, nb))
      ensures ok ==> Resized(p, nb, old(mem), old(cm)) == true
      ensures !ok ==> cm == old(cm) && mem == old(mem)
    {
      hide LayoutHoldsAt, LayoutHolds, BinsHold, Frees, Blocks, Resized, Aligned, Word, ChunkSize;
      LiveTags(p);
      var oldsize := ChunkSize(Word(mem, p + 8));
      if oldsize >= nb {
        Shrink(p, oldsize, nb);
        ok := true;
      } else {
        ok := GrowInPlace(p, oldsize, p + oldsize, nb);
      }
    }

    /** A caller stores into a block it owns: the heap does not notice. */
    method Store(a: nat, w: nat, v: nat)
      requires Valid() == true && IsLive(a) && InPayload(cm, a, w) && w % 8 == 0
      modifies `mem
      ensures Valid() == true && mem == old(mem)[w := v]
    {
      hide Linked, SmallItems, AllItems, SmallOk, BinsOk, TagsOk, LayoutOk;
      assert top != 0;
      PayloadIsNotTag(mem, cm, base, top, topsize, a, w, v);
      PayloadKeepsLinks(mem, cm, base, top, gm, smallbins, treebins, a, w, v);
      mem := mem[w := v];
    }

    /** memcpy between two blocks: whole words, then the rest of the last one. */
    method CopyPayload(to: nat, from: nat, bytes: nat)
      requires Valid() == true && to >= 16 && from >= 16 && to != from && IsLive(to - 16) && IsLive(from - 16)
      requires bytes + 8 <= cm[to - 16].size && bytes + 8 <= cm[from - 16].size
      modifies `mem
      ensures Valid() == true
      ensures SameBytes(mem, to, old(mem), from, bytes)
      ensures forall x: nat {:trigger Byte(mem, x)} :: x < to || x >= to + bytes ==> Byte(mem, x) == Byte(old(mem), x)
      ensures Preserved(old(mem), mem, Blocks(cm) - {to - 16}) == true
    {
      hide LayoutHoldsAt, LayoutHolds, BinsHold, Frees, Aligned, Preserved, Mix, Byte, Word;
      ghost var was := mem;
      TwoBlocks(to - 16, from - 16);
      PayloadIsAligned(to - 16);
      PayloadIsAligned(from - 16);
      PreservedSame(mem, Blocks(cm) - {to - 16});
      var i := 0;
      while 8 * i + 8 <= bytes
        invariant Valid() == true && 8 * i <= bytes
        invariant forall k: nat {:trigger Word(mem, to + 8 * k)} :: k < i ==> Word(mem, to + 8 * k) == Word(was, from + 8 * k)
        invariant forall w: nat {:trigger Word(mem, w)} :: w < to || w >= to + 8 * i ==> Word(mem, w) == Word(was, w)
        invariant Preserved(was, mem, Blocks(cm) - {to - 16}) == true
      {
        WordInBlock(from - 16, 8 * i, bytes);
        assert Word(mem, from + 8 * i) == Word(was, from + 8 * i);
        StoreWord(to, 8 * i, Word(mem, from + 8 * i), bytes, was);
        i := i + 1;
      }
      if 8 * i < bytes {
        WordInBlock(from - 16, 8 * i, bytes);
        assert Word(mem, from + 8 * i) == Word(was, from + 8 * i) && Word(mem, to + 8 * i) == Word(was, to + 8 * i);
        StoreWord(to, 8 * i, Mix(Word(mem, to + 8 * i), Word(mem, from + 8 * i), bytes - 8 * i), bytes, was);
      }
      CopyIsDone(was, mem, to, from, bytes, i);
    }

    /** One store of the copy. */
    method StoreWord(to: nat, offset: nat, v: nat, ghost bytes: nat, ghost was: Memory)
      requires Valid() == true && to >= 16 && IsLive(to - 16) && offset < bytes && bytes + 8 <= cm[to - 16].size && offset % 8 == 0
      requires Preserved(was, mem, Blocks(cm) - {to - 16}) == true
      modifies `mem
      ensures Valid() == true && Word(mem, to + offset) == v
      ensures forall w: nat {:trigger Word(mem, w)} :: w != to + offset ==> Word(mem, w) == Word(old(mem), w)
      ensures Preserved(was, mem, Blocks(cm) - {to - 16}) == true
    {
      hide LayoutHoldsAt, LayoutHolds, BinsHold, Frees, Preserved;
      WordInBlock(to - 16, offset, bytes);
      ghost var mem1 := mem;
      Store(to - 16, to + offset, v);
      OtherBlocksKeep(to - 16, to + offset, was, mem1, mem);
    }

    lemma PayloadIsAligned(a: nat)
      requires LayoutHolds() == true && IsLive(a)
      ensures a % 8 == 0 && (a + 16) % 8 == 0
    {
      hide LayoutOk, TagsOk, Aligned;
      LiveTags(a);
      AlignedBy8(a);
    }

    /** Two blocks do not overlap. */
    lemma TwoBlocks(a: nat, b: nat)
      requires LayoutHolds() == true && IsLive(a) && IsLive(b) && a != b
      ensures a + cm[a].size <= b || b + cm[b].size <= a
      ensures Aligned(a) && Aligned(b) && Aligned(cm[a].size) && Aligned(cm[b].size)
    {
      hide LayoutOk, TagsOk, Aligned;
      LiveTags(a);
      LiveTags(b);
      assert LayoutOk(cm, base, top);
      BlocksApart(cm, base, top, a, b);
    }

    lemma WordInBlock(a: nat, offset: nat, bytes: nat)
      requires LayoutHolds() == true && IsLive(a) && offset < bytes && bytes + 8 <= cm[a].size && offset % 8 == 0
      ensures InPayload(cm, a, a + 16 + offset) && (a + 16 + offset) % 8 == 0
    {
      hide LayoutOk, TagsOk, Aligned;
      LiveTags(a);
      AlignedBy8(a);
    }

    lemma OtherBlocksKeep(a: nat, w: nat, was: Memory, mem1: Memory, mem2: Memory)
      requires LayoutHolds() == true && IsLive(a) && InPayload(cm, a, w)
      requires Preserved(was, mem1, Blocks(cm) - {a}) == true && forall x :: x != w ==> Word(mem2, x) == Word(mem1, x)
      ensures Preserved(was, mem2, Blocks(cm) - {a}) == true
    {
      forall b: nat, x: nat | b in Blocks(cm) - {a} && b + 16 <= x < b + (Blocks(cm) - {a})[b] + 8 && x % 8 == 0
        ensures Word(mem2, x) == Word(was, x)
      {
        TwoBlocks(a, b);
      }
    }

    /** The contents of the block at addr, of oldsize bytes, as far as bytes go, are now at r. */
    ghost predicate Moved(r: nat, addr: nat, bytes: nat, oldsize: nat, oldMem: Memory)
      reads `mem
    {
      oldsize >= 8 && SameBytes(mem, r, oldMem, addr, Least(bytes, oldsize - 8))
    }

    /**
      The block at addr is now at r, with room for `bytes` and less than a chunk to spare, and
      with its old contents as far as both sizes go; every other block is as before, its contents
      included.
    */
    ghost predicate Reallocated(r: nat, addr: nat, bytes: nat, oldMem: Memory, oldCm: Layout)
      reads `mem, `cm
    {
      && r >= 16 && addr >= 16 && bytes < MAX_REQUEST && (addr - 16) in Blocks(oldCm)
      && (r - 16) in Blocks(cm) && Request2Size(bytes) <= Blocks(cm)[r - 16] < Request2Size(bytes) + MIN_CHUNK
      && Blocks(cm) == (Blocks(oldCm) - {addr - 16})[r - 16 := Blocks(cm)[r - 16]]
      && (r == addr || (r - 16) !in Blocks(oldCm))
      && Moved(r, addr, bytes, Blocks(oldCm)[addr - 16], oldMem)
      && Preserved(oldMem, mem, Blocks(oldCm) - {addr - 16})
    }

    lemma StaysInPlace(addr: nat, bytes: nat, was: Memory, cm0: Layout)
      requires addr >= 16 && Aligned(addr - 16) && bytes < MAX_REQUEST
      requires Resized(addr - 16, Request2Size(bytes), was, cm0) == true && Blocks(cm0)[addr - 16] >= 8
      ensures Reallocated(addr, addr, bytes, was, cm0) == true
    {
      hide Aligned, Request2Size;
      var p := addr - 16;
      RequestFits(bytes);
      var kept := Blocks(cm0)[p := Least(Blocks(cm0)[p], Blocks(cm)[p])];
      AlignedBy8(p);
      hide Byte;
      forall j: nat | j < Least(bytes, Blocks(cm0)[p] - 8) ensures SameByte(mem, addr, was, addr, j) {
        PreservedByte(was, mem, kept, p, addr + j);
      }
      PreservedPart(was, mem, Blocks(cm0) - {p}, kept);
    }

    /** The new block holds the contents, all other blocks are untouched. */
    ghost predicate CopyDone(r: nat, addr: nat, bytes: nat, was: Memory, mem2: Memory, blocks: map<nat, nat>, size: nat) {
      && r >= 16 && addr >= 16 && (addr - 16) in blocks && (r - 16) !in blocks && Aligned(r - 16) && bytes + 8 <= size && blocks[addr - 16] >= 8
      && SameBytes(mem2, r, was, addr, Least(bytes, blocks[addr - 16] - 8))
      && Preserved(was, mem2, blocks)
    }

    lemma Copied(r: nat, addr: nat, bytes: nat, n: nat, was: Memory, mem1: Memory, mem2: Memory, blocks: map<nat, nat>, size: nat)
      requires r >= 16 && addr >= 16 && (addr - 16) in blocks && (r - 16) !in blocks && Aligned(r - 16) && Aligned(addr - 16)
      requires blocks[addr - 16] >= MIN_CHUNK && n == Least(blocks[addr - 16] - 8, bytes) && bytes + 8 <= size
      requires SameBytes(mem2, r, mem1, addr, n)
      requires Preserved(was, mem1, blocks) == true && Preserved(mem1, mem2, blocks[r - 16 := size] - {r - 16}) == true
      ensures CopyDone(r, addr, bytes, was, mem2, blocks, size) == true
    {
      hide Byte;
      AlignedBy8(addr - 16);
      forall j: nat | j < n ensures SameByte(mem2, r, was, addr, j) {
        PreservedByte(was, mem1, blocks, addr - 16, addr + j);
        assert SameByte(mem2, r, mem1, addr, j);
      }
      hide Preserved, Word;
      PreservedChain(was, mem1, mem2, blocks, blocks, blocks[r - 16 := size] - {r - 16});
    }

    lemma FreedAfterCopy(r: nat, addr: nat, bytes: nat, was: Memory, mem2: Memory, cm0: Layout, size: nat)
      requires CopyDone(r, addr, bytes, was, mem2, Blocks(cm0), size) == true && Kept(mem2) == true
      requires bytes < MAX_REQUEST && Request2Size(bytes) <= size < Request2Size(bytes) + MIN_CHUNK
      requires Blocks(cm) == Blocks(cm0)[r - 16 := size] - {addr - 16}
      ensures Reallocated(r, addr, bytes, was, cm0) == true
    {
      hide Moved, Word, Preserved, Aligned;
      MovedAfterCopy(r, addr, bytes, was, mem2, cm0, size);
      PreservedChain(was, mem2, mem, Blocks(cm0) - {addr - 16}, Blocks(cm0), Blocks(cm));
    }

    lemma MovedAfterCopy(r: nat, addr: nat, bytes: nat, was: Memory, mem2: Memory, cm0: Layout, size: nat)
      requires CopyDone(r, addr, bytes, was, mem2, Blocks(cm0), size) == true && Preserved(mem2, mem, Blocks(cm))
      requires Blocks(cm) == Blocks(cm0)[r - 16 := size] - {addr - 16}
      ensures Moved(r, addr, bytes, Blocks(cm0)[addr - 16], was) == true
    {
      hide Byte;
      AlignedBy8(r - 16);
      forall j: nat | j < Least(bytes, Blocks(cm0)[addr - 16] - 8) ensures SameByte(mem, r, was, addr, j) {
        PreservedByte(mem2, mem, Blocks(cm), r - 16, r + j);
        assert SameByte(mem2, r, was, addr, j);
      }
    }

    /** What the new block's allocation says, taken apart. */
    lemma AllocatedParts(r: nat, nb: nat, was: Memory, cm0: Layout)
      requires Allocated(r, nb, was, cm0) == true
      ensures r >= 16 && Aligned(r) && Aligned(r - 16) && (r - 16) !in Blocks(cm0) && IsLive(r - 16)
      ensures nb <= cm[r - 16].size < nb + MIN_CHUNK && Blocks(cm) == Blocks(cm0)[r - 16 := cm[r - 16].size]
      ensures Preserved(was, mem, Blocks(cm0))
      ensures forall a :: a in Blocks(cm0) ==> IsLive(a) && cm[a].size == Blocks(cm0)[a]
    {
      AlignedSum(r, 16);
    }

    /** Allocate, copy what both blocks have room for, and free the old block. */
    method ReallocElsewhere(addr: nat, bytes: nat) returns (r: nat)
      requires Valid() == true && addr >= 16 && IsLive(addr - 16) && bytes < MAX_REQUEST
      modifies this
      ensures Valid() == true
      ensures r == 0 ==> cm == old(cm) && mem == old(mem) && 0 < gran && CannotServe(bytes) == true
      ensures r != 0 ==> Reallocated(r, addr, bytes, old(mem), old(cm)) == true
    {
      hide LayoutHoldsAt, LayoutHolds, BinsHold, Frees, Aligned, Allocated, Reallocated, NoneFits, NoRoomFor, Kept, Word, Preserved, FromBin, FromDvOrTop, NonePreferred, Needs, Binned, Dv;
      ghost var was, cm0 := mem, cm;
      RequestFits(bytes);
      assert addr - 16 in Blocks(cm0);
      r := Malloc(bytes);
      if r != 0 {
        AllocatedParts(r, Request2Size(bytes), was, cm0);
        CopyAndFree(r, addr, bytes, was, cm0);
      }
      SizesAreSmall();
    }

    method CopyAndFree(r: nat, addr: nat, bytes: nat, ghost was: Memory, ghost cm0: Layout)
      requires Valid() == true && addr >= 16 && r >= 16 && IsLive(addr - 16) && IsLive(r - 16) && bytes < MAX_REQUEST
      requires (r - 16) !in Blocks(cm0) && (addr - 16) in Blocks(cm0)
      requires Request2Size(bytes) <= cm[r - 16].size < Request2Size(bytes) + MIN_CHUNK
      requires Blocks(cm) == Blocks(cm0)[r - 16 := cm[r - 16].size] && Preserved(was, mem, Blocks(cm0)) == true
      modifies this
      ensures Valid() == true && Reallocated(r, addr, bytes, was, cm0) == true
    {
      hide LayoutHoldsAt, LayoutHolds, BinsHold, Frees, Aligned, Reallocated, Kept, Word, Preserved, CopyDone, ChunkSize;
      ghost var mem1, size := mem, cm[r - 16].size;
      RequestFits(bytes);
      LiveTags(addr - 16);
      LiveTags(r - 16);
      assert cm[addr - 16].size == Blocks(cm0)[addr - 16];
      var oc := ChunkSize(Word(mem, addr - 16 + 8)) - 8;
      var n := if oc < bytes then oc else bytes;
      CopyPayload(r, addr, n);
      ghost var mem2 := mem;
      Copied(r, addr, bytes, n, was, mem1, mem2, Blocks(cm0), size);
      Free(addr);
      FreedAfterCopy(r, addr, bytes, was, mem2, cm0, size);
    }

    lemma BlockSize(a: nat)
      requires IsLive(a)
      ensures a in Blocks(cm) && Blocks(cm)[a] == cm[a].size
    {
    }

    /** dlrealloc: in place exactly when that is possible, otherwise to a new block if there is one. */
    method Realloc(addr: nat, bytes: nat) returns (r: nat)
      requires Valid() == true && (addr != 0 ==> addr >= 16 && IsLive(addr - 16)) && bytes < WORD
      modifies this
      ensures Valid() == true
      ensures addr == 0 && r != 0 ==> bytes < MAX_REQUEST && Allocated(r, Request2Size(bytes), old(mem), old(cm)) == true
      ensures addr != 0 && r != 0 ==> Reallocated(r, addr, bytes, old(mem), old(cm)) == true
      ensures r == 0 ==> cm == old(cm) && mem == old(mem) && 0 < gran && CannotServe(bytes) == true
      ensures addr != 0 && bytes < MAX_REQUEST && old(FitsInPlace(addr - 16, Request2Size(bytes))) ==> r == addr
    {
      hide LayoutHoldsAt, LayoutHolds, BinsHold, Frees, Blocks, Aligned, Reallocated, Resized, FitsInPlace, Word, ChunkSize, Allocated, NoneFits, NoRoomFor, FromBin, FromDvOrTop, NonePreferred, Needs, Binned, Dv;
      r := 0;
      if addr == 0 {
        r := Malloc(bytes);
      } else if bytes < MAX_REQUEST {
        ghost var was, cm0 := mem, cm;
        RequestFits(bytes);
        LiveTags(addr - 16);
        BlockSize(addr - 16);
        var ok := TryRealloc(addr - 16, Request2Size(bytes));
        if ok {
          r := addr;
          StaysInPlace(addr, bytes, was, cm0);
        } else {
          r := ReallocElsewhere(addr, bytes);
        }
      }
      SizesAreSmall();
    }

    // ---------------------------------------------------------------- memalign

    /** Since then there is one more block, of size bytes at p; the others and their payloads are as before. */
    ghost predicate NewBlock(p: nat, size: nat, oldMem: Memory, oldCm: Layout)
      reads `mem, `cm
    {
      && p !in Blocks(oldCm) && Blocks(cm) == Blocks(oldCm)[p := size] && Preserved(oldMem, mem, Blocks(oldCm))
    }

    /** The new block has at least nb bytes and at most one smallest chunk more. */
    ghost predicate NewUpTo(p: nat, nb: nat, oldMem: Memory, oldCm: Layout)
      reads `mem, `cm
    {
      p in Blocks(cm) && nb <= Blocks(cm)[p] <= nb + MIN_CHUNK && NewBlock(p, Blocks(cm)[p], oldMem, oldCm)
    }

    lemma IsNewUpTo(p: nat, size: nat, nb: nat, oldMem: Memory, oldCm: Layout)
      requires NewBlock(p, size, oldMem, oldCm) == true && nb <= size <= nb + MIN_CHUNK
      ensures NewUpTo(p, nb, oldMem, oldCm) == true
    {
      assert p in Blocks(cm);
    }

    lemma NewBlockIsLive(p: nat, size: nat, oldMem: Memory, oldCm: Layout)
      requires NewBlock(p, size, oldMem, oldCm) == true
      ensures IsLive(p) && cm[p].size == size && p in Blocks(cm)
    {
      assert p in Blocks(cm) && Blocks(cm)[p] == size;
    }

    /** One of the two parts of the new block has been given back. */
    lemma PartGiven(p: nat, q: nat, ps: nat, qs: nat, oldMem: Memory, oldCm: Layout, mem1: Memory, blocks1: map<nat, nat>, mem2: Memory, keep: nat, keepSize: nat)
      requires p !in Blocks(oldCm) && q !in Blocks(oldCm) && p != q
      requires (keep == p && keepSize == ps) || (keep == q && keepSize == qs)
      requires Preserved(oldMem, mem1, Blocks(oldCm)) && blocks1 == Blocks(oldCm)[p := ps][q := qs]
      requires Preserved(mem1, mem2, blocks1) && Kept(mem2) == true
      requires Blocks(cm) == blocks1 - {if keep == p then q else p}
      ensures NewBlock(keep, keepSize, oldMem, oldCm) == true
    {
      hide Preserved, Word, Blocks;
      assert Covers(Blocks(oldCm), blocks1) && Covers(Blocks(oldCm), Blocks(cm));
      PreservedChain(oldMem, mem1, mem2, Blocks(oldCm), Blocks(oldCm), blocks1);
      PreservedChain(oldMem, mem2, mem, Blocks(oldCm), Blocks(oldCm), Blocks(cm));
    }

    /** The lead bytes in front of an aligned spot are given back. */
    method GiveLead(p: nat, lead: nat, newsize: nat, ghost oldMem: Memory, ghost oldCm: Layout)
      requires Valid() == true && NewBlock(p, lead + newsize, oldMem, oldCm) == true
      requires Aligned(lead) && lead >= MIN_CHUNK && newsize >= MIN_CHUNK
      modifies `mem, `cm, `top, `topsize, `smallbins, `smallmap, `treebins, `treemap, `dv, `dvsize
      ensures Valid() == true && NewBlock(p + lead, newsize, oldMem, oldCm) == true
    {
      hide LayoutHoldsAt, LayoutHolds, BinsHold, Frees, Aligned, Preserved, Kept;
      ghost var mem1, cm0 := mem, cm;
      NewBlockIsLive(p, lead + newsize, oldMem, oldCm);
      LiveTags(p);
      SplitBlock(p, lead, newsize, false);
      KeptMeans(mem1);
      ghost var mem2, blocks1 := mem, Blocks(cm);
      assert blocks1 == Blocks(oldCm)[p := lead][p + lead := newsize];
      DisposeChunk(p, lead);
      PartGiven(p, p + lead, lead, newsize, oldMem, oldCm, mem1, blocks1, mem2, p + lead, newsize);
    }

    /** The spare bytes at the end are given back. */
    method GiveTail(p: nat, nb: nat, rest: nat, ghost oldMem: Memory, ghost oldCm: Layout)
      requires Valid() == true && NewBlock(p, nb + rest, oldMem, oldCm) == true
      requires Aligned(nb) && nb >= MIN_CHUNK && rest >= MIN_CHUNK
      modifies `mem, `cm, `top, `topsize, `smallbins, `smallmap, `treebins, `treemap, `dv, `dvsize
      ensures Valid() == true && NewBlock(p, nb, oldMem, oldCm) == true
    {
      hide LayoutHoldsAt, LayoutHolds, BinsHold, Frees, Aligned, Preserved, Kept;
      ghost var mem1, cm0 := mem, cm;
      NewBlockIsLive(p, nb + rest, oldMem, oldCm);
      LiveTags(p);
      SplitBlock(p, nb, rest, true);
      KeptMeans(mem1);
      ghost var mem2, blocks1 := mem, Blocks(cm);
      assert blocks1 == Blocks(oldCm)[p := nb][p + nb := rest];
      DisposeChunk(p + nb, rest);
      PartGiven(p, p + nb, nb, rest, oldMem, oldCm, mem1, blocks1, mem2, p, nb);
    }

    /** What internal_memalign asks malloc for. */
    function AlignedRequest(alignment: nat, bytes: nat): nat {
      Request2Size(bytes) + alignment + MIN_CHUNK - 8
    }

    /** internal_memalign, for an alignment that is a power of two of at least 32. */
    method AlignedMalloc(alignment: nat, bytes: nat) returns (r: nat)
      requires Valid() == true && PowerOfTwo(alignment) && MIN_CHUNK <= alignment <= TOP_BIT && bytes < WORD
      modifies this
      ensures Valid() == true && 0 < gran
      ensures r == 0 ==> cm == old(cm) && mem == old(mem) && curr == old(curr)
      ensures r == 0 ==> bytes >= MAX_REQUEST - alignment || CannotServe(AlignedRequest(alignment, bytes)) == true
      ensures r != 0 ==> r >= 16 && IsMultiple(r, alignment)
      ensures r != 0 ==> NewUpTo(r - 16, Request2Size(bytes), old(mem), old(cm)) == true
    {
      hide LayoutHoldsAt, LayoutHolds, BinsHold, Frees, Aligned, Allocated, NoneFits, NoRoomFor, Kept, Word, Preserved, NewBlock, NewUpTo, Blocks, ChunkSize, PowerOfTwo, FromBin, FromDvOrTop, NonePreferred, Needs, Binned, Dv, IsMultiple, Request2Size;
      r := 0;
      SizesAreSmall();
      if bytes < MAX_REQUEST - alignment {
        ghost var was, cm0 := mem, cm;
        var nb := Request2Size(bytes);
        RequestFits(bytes);
        var req := AlignedRequest(alignment, bytes);
        RequestFits(req);
        MultipleOf32(alignment);
        var m := Malloc(req);
        if m != 0 {
          BecomesNew(m, Request2Size(req), was, cm0);
          var p := AlignBlock(m, alignment, nb, was, cm0);
          r := TrimBlock(p, nb, was, cm0);
        }
      }
    }

    lemma BecomesNew(m: nat, nb: nat, was: Memory, cm0: Layout)
      requires Allocated(m, nb, was, cm0) == true
      ensures m >= 16 && IsLive(m - 16) && nb <= cm[m - 16].size < nb + MIN_CHUNK && Aligned(m) && Aligned(m - 16)
      ensures NewBlock(m - 16, cm[m - 16].size, was, cm0) == true
    {
      AlignedSum(m, 16);
      assert m - 16 in Blocks(cm);
    }

    /** Move to an aligned spot inside the block, at least a chunk away from its front. */
    method AlignBlock(m: nat, alignment: nat, nb: nat, ghost was: Memory, ghost cm0: Layout) returns (p: nat)
      requires Valid() == true && m >= 16 && IsLive(m - 16) && Aligned(m) && alignment > 0 && Aligned(alignment) && nb >= MIN_CHUNK
      requires NewBlock(m - 16, cm[m - 16].size, was, cm0) == true && cm[m - 16].size >= nb + alignment + MIN_CHUNK
      modifies `mem, `cm, `top, `topsize, `smallbins, `smallmap, `treebins, `treemap, `dv, `dvsize
      ensures Valid() == true && IsLive(p) && IsMultiple(p + 16, alignment) && cm[p].size >= nb
      ensures NewBlock(p, cm[p].size, was, cm0) == true
    {
      hide LayoutHoldsAt, LayoutHolds, BinsHold, Frees, Aligned, Kept, Word, Preserved, NewBlock, Blocks, ChunkSize, IsMultiple, RoundUp, InPayload;
      p := m - 16;
      LiveTags(p);
      AlignedSpot(m, alignment);
      if !IsMultiple(m, alignment) {
        var br := RoundUp(m, alignment) - 16;
        var pos := if br - p >= MIN_CHUNK then br else br + alignment;
        var leadsize := pos - p;
        var newsize := ChunkSize(Word(mem, p + 8)) - leadsize;
        GiveLead(p, leadsize, newsize, was, cm0);
        NewBlockIsLive(pos, newsize, was, cm0);
        p := pos;
      }
    }

    /** Give back spare room at the end. */
    method TrimBlock(p: nat, nb: nat, ghost was: Memory, ghost cm0: Layout) returns (r: nat)
      requires Valid() == true && IsLive(p) && cm[p].size >= nb && Aligned(nb) && nb >= MIN_CHUNK
      requires NewBlock(p, cm[p].size, was, cm0) == true
      modifies `mem, `cm, `top, `topsize, `smallbins, `smallmap, `treebins, `treemap, `dv, `dvsize
      ensures Valid() == true && r == p + 16
      ensures NewUpTo(p, nb, was, cm0) == true
    {
      hide LayoutHoldsAt, LayoutHolds, BinsHold, Frees, Aligned, Kept, Word, Preserved, NewBlock, Blocks, ChunkSize;
      LiveTags(p);
      var size := ChunkSize(Word(mem, p + 8));
      if size > nb + MIN_CHUNK {
        GiveTail(p, nb, size - nb, was, cm0);
        IsNewUpTo(p, nb, nb, was, cm0);
      } else {
        IsNewUpTo(p, size, nb, was, cm0);
      }
      r := p + 16;
    }

    /**
      dlmemalign: a block whose address is a multiple of a, the alignment rounded up to the next power
      of two from 32.  An alignment above 2^63 that is not a power of two would never stop doubling.
    */
    method Memalign(alignment: nat, bytes: nat) returns (r: nat, ghost a: nat)
      requires Valid() == true && alignment <= TOP_BIT && bytes < WORD
      modifies this
      ensures Valid() == true && 0 < gran
      ensures r == 0 ==> cm == old(cm) && mem == old(mem) && curr == old(curr)
      ensures r == 0 && alignment <= 16 ==> CannotServe(bytes) == true
      ensures r == 0 && alignment > 16 ==> bytes >= MAX_REQUEST - a || CannotServe(AlignedRequest(a, bytes)) == true
      ensures if alignment <= 16 then a == 16 else IsLeastPower(a, alignment) == true
      ensures r != 0 ==> r >= 16 && IsMultiple(r, a)
      ensures r != 0 && PowerOfTwo(alignment) ==> IsMultiple(r, alignment)
      ensures r != 0 ==> NewUpTo(r - 16, Request2Size(bytes), old(mem), old(cm)) == true
    {
      hide LayoutHoldsAt, LayoutHolds, BinsHold, Frees, Aligned, Kept, Word, Preserved, NewBlock, NewUpTo, Blocks, IsMultiple, PowerOfTwo, Allocated, NoneFits, NoRoomFor, FromBin, FromDvOrTop, NonePreferred, Needs, Binned, Dv;
      SizesAreSmall();
      if alignment <= 16 {
        ghost var was, cm0 := mem, cm;
        a := 16;
        SixteenIsPower();
        r := Malloc(bytes);
        if r != 0 {
          BecomesNew(r, Request2Size(bytes), was, cm0);
          IsNewUpTo(r - 16, cm[r - 16].size, Request2Size(bytes), was, cm0);
          SmallAlignment(r, alignment);
        }
      } else {
        var al := RoundAlignment(alignment);
        a := al;
        r := AlignedMalloc(al, bytes);
        if PowerOfTwo(alignment) { PowerAbove16(alignment); }
        assert PowerOfTwo(alignment) ==> a == alignment;
      }
    }
  }

  lemma CopyIsDone(was: Memory, mem: Memory, to: nat, from: nat, bytes: nat, i: nat)
    requires to % 8 == 0 && from % 8 == 0 && 8 * i <= bytes < 8 * i + 8
    requires forall k: nat {:trigger Word(mem, to + 8 * k)} :: k < i ==> Word(mem, to + 8 * k) == Word(was, from + 8 * k)
    requires forall w: nat {:trigger Word(mem, w)} :: w < to || w >= to + 8 * i + 8 || (w >= to + 8 * i && 8 * i == bytes) ==> Word(mem, w) == Word(was, w)
    requires 8 * i < bytes ==> Word(mem, to + 8 * i) == Mix(Word(was, to + 8 * i), Word(was, from + 8 * i), bytes - 8 * i)
    ensures SameBytes(mem, to, was, from, bytes)
    ensures forall x: nat {:trigger Byte(mem, x)} :: x < to || x >= to + bytes ==> Byte(mem, x) == Byte(was, x)
  {
    hide Byte, Mix, Word;
    forall j: nat | j < bytes ensures SameByte(mem, to, was, from, j) {
      CopiedBytes(was, mem, to, from, bytes, i, j);
    }
    forall x: nat | x < to || x >= to + bytes ensures Byte(mem, x) == Byte(was, x) {
      OtherBytesKept(was, mem, to, from, bytes, i, x);
    }
  }

  lemma TakenIsPreferred(chunks: set<(nat, nat)>, dv0: Victim, nb: nat, p: nat, dv1: Victim)
    requires FromBin(chunks, dv0, nb, p, dv1) == true
    ensures !NonePreferred(chunks, dv0, nb)
  {
    var s: nat :| IsSmallestFit(chunks, nb, (p, s)) && Preferred(s, dv0, nb) && dv1 == DvAfter(dv0, nb, p, s);
    var x := (p, s);
    assert x in chunks && x.1 >= nb;
  }

  lemma IsFromBin(chunks: set<(nat, nat)>, dv0: Victim, nb: nat, p: nat, s: nat, dv1: Victim)
    requires IsSmallestFit(chunks, nb, (p, s)) == true && Preferred(s, dv0, nb) && dv1 == DvAfter(dv0, nb, p, s)
    ensures FromBin(chunks, dv0, nb, p, dv1) == true
  {
  }

  /** Small bins hold sizes below 256, tree bins hold the others. */
  lemma SizesTellBins(small: seq<seq<nat>>, smallmap: set<nat>, trees: seq<Tree>, treemap: set<nat>, x: (nat, nat))
    requires SmallOk(small, smallmap) && BinsOk(trees, treemap)
    ensures x in SmallItems(small) ==> IsSmall(x.1) && x.1 % 8 == 0
    ensures x in AllItems(trees) ==> !IsSmall(x.1) && x.1 < MAX_CHUNK
  {
    if x in AllItems(trees) {
      var i :| 0 <= i < |trees| && x in Items(trees[i]);
      assert BinOk(trees, treemap, i);
    }
  }
}
