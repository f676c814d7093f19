/**
  How the ring algorithms of src/collectives.c cut a buffer of `count` elements into n chunks:
  the first count % n chunks get one extra element.  Displacements are in elements.
*/
module ChunkLayout {

  function ChunkCount(c: nat, count: nat, n: nat): nat
    requires n > 0
  {
    count / n + (if c < count % n then 1 else 0)
  }

  /** The displacement as the code computes it, from the chunk's own size. */
  function ChunkDisp(c: nat, count: nat, n: nat): nat
    requires n > 0
  {
    if c < count % n then c * ChunkCount(c, count, n) else c * ChunkCount(c, count, n) + count % n
  }

  predicate InChunk(e: nat, c: nat, count: nat, n: nat)
    requires n > 0
  {
    ChunkDisp(c, count, n) <= e < ChunkDisp(c, count, n) + ChunkCount(c, count, n)
  }

  /** Each chunk starts where the one before it ends; the chunks start at 0 and end at count. */
  lemma ChunksAreAdjacent(c: nat, count: nat, n: nat)
    requires n > 0
    ensures ChunkDisp(0, count, n) == 0
    ensures ChunkDisp(c, count, n) + ChunkCount(c, count, n) == ChunkDisp(c + 1, count, n)
    ensures ChunkDisp(n, count, n) == count
  {
    var q, rem := count / n, count % n;
    assert count == n * q + rem;
    assert (c + 1) * q == c * q + q;
    assert c * (q + 1) == c * q + c;
    assert (c + 1) * (q + 1) == c * q + c + q + 1;
  }

  lemma {:induction false} DispGrows(b: nat, c: nat, count: nat, n: nat)
    requires n > 0 && b <= c
    ensures ChunkDisp(b, count, n) <= ChunkDisp(c, count, n)
    decreases c - b
  {
    if b < c {
      ChunksAreAdjacent(b, count, n);
      DispGrows(b + 1, c, count, n);
    }
  }

  /** The chunk that element e lies in, searched downwards from chunk c. */
  function OwnerBelow(e: nat, c: nat, count: nat, n: nat): (r: nat)
    requires n > 0
    ensures r <= c
    ensures r > 0 ==> ChunkDisp(r, count, n) <= e
    ensures forall b :: r < b <= c ==> e < ChunkDisp(b, count, n)
  {
    if c == 0 || ChunkDisp(c, count, n) <= e then c else OwnerBelow(e, c - 1, count, n)
  }

  function Owner(e: nat, count: nat, n: nat): nat
    requires n > 0
  {
    OwnerBelow(e, n - 1, count, n)
  }

  /**
    The chunks tile the buffer: every element lies in exactly one of the n chunks, for every
    count and n, including fewer elements than PEs.
  */
  lemma ChunksTile(e: nat, c: nat, count: nat, n: nat)
    requires n > 0 && e < count && c < n
    ensures Owner(e, count, n) < n
    ensures InChunk(e, c, count, n) <==> c == Owner(e, count, n)
  {
    var o := Owner(e, count, n);
    ChunksAreAdjacent(o, count, n);
    ChunksAreAdjacent(c, count, n);
    assert e < ChunkDisp(o + 1, count, n);
    if c < o { DispGrows(c + 1, o, count, n); }
    if o < c { DispGrows(o + 1, c, count, n); }
  }
}
