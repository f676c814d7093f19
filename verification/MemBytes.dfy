/** The bytes of a memory of 64-bit words, least significant first, and the write of part of a word. */
module MemBytes {
  import opened Arith
  import opened HeapLayout
  import opened HeapWords

  function Pow256(n: nat): (r: nat)
    ensures r >= 1
  {
    if n == 0 then 1 else 256 * Pow256(n - 1)
  }

  function Quotient(v: nat, p: nat): nat
    requires p > 0
  {
    v / p
  }

  function Rest(v: nat, p: nat): (r: nat)
    requires p > 0
    ensures r < p
  {
    v % p
  }

  /** Byte number o of a word. */
  function ByteOf(v: nat, o: nat): nat {
    Rest(Quotient(v, Pow256(o)), 256)
  }

  /** The byte at address x. */
  function Byte(mem: Memory, x: nat): nat {
    ByteOf(Word(mem, x - x % 8), x % 8)
  }

  function HighLow(high: nat, p: nat, low: nat): nat {
    high * p + low
  }

  /** d with its lowest r bytes replaced by those of s. */
  function Mix(d: nat, s: nat, r: nat): nat {
    HighLow(Quotient(d, Pow256(r)), Pow256(r), Rest(s, Pow256(r)))
  }

  lemma {:induction false} Pow256Product(i: nat, j: nat)
    ensures Pow256(i) * Pow256(j) == Pow256(i + j)
  {
    if i > 0 {
      Pow256Product(i - 1, j);
      assert Pow256(i) * Pow256(j) == 256 * (Pow256(i - 1) * Pow256(j));
    }
  }

  lemma Parts(v: nat, p: nat)
    requires p > 0
    ensures v == HighLow(Quotient(v, p), p, Rest(v, p))
  {
  }

  lemma Sums(a: nat, m: nat, q: nat, p: nat)
    ensures (a * m + q) * p == a * (p * m) + q * p
  {
    assert (a * m + q) * p == (a * m) * p + q * p;
    assert (a * m) * p == a * (p * m);
  }

  /** What is above a multiple of 256 p does not show in the byte at p. */
  lemma LowQuotient(a: nat, p: nat, m: nat, t: nat)
    requires p > 0
    ensures Rest(Quotient(HighLow(a, p * (256 * m), t), p), 256) == Rest(Quotient(t, p), 256)
  {
    var q, r := t / p, t % p;
    Parts(t, p);
    Sums(a, 256 * m, q, p);
    DivModUnique(HighLow(a, p * (256 * m), t), p, a * (256 * m) + q, r);
    assert a * (256 * m) == (a * m) * 256;
    ModPlusMultiple(q, 256, a * m);
  }

  lemma RestIsSmall(r: nat, c: nat, p: nat, t: nat)
    requires r < c && t < p
    ensures r * p + t < p * c
  {
    var d := c - 1 - r;
    assert c * p == (r + 1 + d) * p;
    assert (r + 1 + d) * p == r * p + p + d * p;
    assert d * p >= 0;
  }

  lemma HighQuotient(q: nat, c: nat, r: nat, p: nat, t: nat)
    requires r < c && t < p
    ensures p * c > 0 && Quotient(HighLow(HighLow(q, c, r), p, t), p * c) == q
  {
    RestIsSmall(r, c, p, t);
    Sums(q, c, r, p);
    DivModUnique(HighLow(HighLow(q, c, r), p, t), p * c, q, r * p + t);
  }

  /** Below byte r the bytes are those of the low part. */
  lemma LowByte(a: nat, t: nat, r: nat, o: nat)
    requires o < r
    ensures ByteOf(HighLow(a, Pow256(r), t), o) == ByteOf(t, o)
  {
    var m := Pow256(r - o - 1);
    Pow256Product(o, r - o);
    assert Pow256(r - o) == 256 * m;
    hide Pow256, HighLow, Quotient, Rest;
    LowQuotient(a, Pow256(o), m, t);
  }

  /** From byte r on, the bytes are those of the high part. */
  lemma HighByte(a: nat, t: nat, r: nat, o: nat)
    requires r <= o && t < Pow256(r)
    ensures ByteOf(HighLow(a, Pow256(r), t), o) == ByteOf(a, o - r)
  {
    var c := Pow256(o - r);
    Pow256Product(r, o - r);
    Parts(a, c);
    hide Pow256, HighLow, Quotient, Rest;
    HighQuotient(Quotient(a, c), c, Rest(a, c), Pow256(r), t);
  }

  /** The mixed word has the low bytes of the one and the high bytes of the other. */
  lemma MixBytes(d: nat, s: nat, r: nat, o: nat)
    ensures ByteOf(Mix(d, s, r), o) == if o < r then ByteOf(s, o) else ByteOf(d, o)
  {
    hide Pow256, ByteOf, HighLow, Quotient, Rest;
    var p := Pow256(r);
    Parts(s, p);
    Parts(d, p);
    if o < r {
      LowByte(Quotient(d, p), Rest(s, p), r, o);
      LowByte(Quotient(s, p), Rest(s, p), r, o);
    } else {
      HighByte(Quotient(d, p), Rest(s, p), r, o);
      HighByte(Quotient(d, p), Rest(d, p), r, o);
    }
  }

  predicate SameByte(mem: Memory, a: nat, mem': Memory, a': nat, j: nat) {
    Byte(mem, a + j) == Byte(mem', a' + j)
  }

  /** The n bytes at a in one memory are the n bytes at a' in another. */
  ghost predicate SameBytes(mem: Memory, a: nat, mem': Memory, a': nat, n: nat) {
    forall j: nat {:trigger SameByte(mem, a, mem', a', j)} :: j < n ==> SameByte(mem, a, mem', a', j)
  }

  /** Equal words have equal bytes. */
  lemma ByteOfWord(mem: Memory, a: nat, k: nat, o: nat)
    requires a % 8 == 0 && o < 8
    ensures Byte(mem, a + 8 * k + o) == ByteOf(Word(mem, a + 8 * k), o)
  {
    hide ByteOf, Word;
    assert (a + 8 * k + o) % 8 == o by { DivModUnique(a + 8 * k + o, 8, a / 8 + k, o); }
  }

  /** What is preserved is preserved byte by byte. */
  lemma PreservedByte(mem: Memory, mem': Memory, blocks: map<nat, nat>, a: nat, x: nat)
    requires Preserved(mem, mem', blocks) && a in blocks && a % 8 == 0 && a + 16 <= x < a + blocks[a] + 8
    ensures Byte(mem', x) == Byte(mem, x)
  {
    hide ByteOf;
    var w: nat := x - x % 8;
    assert a + 16 <= w && w % 8 == 0;
  }

  /** i whole words copied, then the first bytes of the next. */
  lemma CopiedBytes(was: Memory, mem: Memory, to: nat, from: nat, bytes: nat, i: nat, j: nat)
    requires to % 8 == 0 && from % 8 == 0 && 8 * i <= bytes < 8 * i + 8 && j < bytes
    requires forall k: nat {:trigger Word(mem, to + 8 * k)} :: k < i ==> Word(mem, to + 8 * k) == Word(was, from + 8 * k)
    requires 8 * i < bytes ==> Word(mem, to + 8 * i) == Mix(Word(was, to + 8 * i), Word(was, from + 8 * i), bytes - 8 * i)
    ensures Byte(mem, to + j) == Byte(was, from + j)
  {
    hide Byte, ByteOf, Mix, Word;
    var k, o := j / 8, j % 8;
    assert j == 8 * k + o;
    ByteOfWord(mem, to, k, o);
    ByteOfWord(was, from, k, o);
    if k < i {
      assert Word(mem, to + 8 * k) == Word(was, from + 8 * k);
    } else {
      assert k == i;
      MixBytes(Word(was, to + 8 * i), Word(was, from + 8 * i), bytes - 8 * i, o);
    }
  }

  lemma OtherBytesKept(was: Memory, mem: Memory, to: nat, from: nat, bytes: nat, i: nat, x: nat)
    requires to % 8 == 0 && from % 8 == 0 && 8 * i <= bytes < 8 * i + 8 && (x < to || x >= to + bytes)
    requires forall w: nat {:trigger Word(mem, w)} :: w < to || w >= to + 8 * i + 8 || (w >= to + 8 * i && 8 * i == bytes) ==> Word(mem, w) == Word(was, w)
    requires 8 * i < bytes ==> Word(mem, to + 8 * i) == Mix(Word(was, to + 8 * i), Word(was, from + 8 * i), bytes - 8 * i)
    ensures Byte(mem, x) == Byte(was, x)
  {
    hide ByteOf, Mix, Word;
    var o := x % 8;
    var w: nat := x - o;
    assert w % 8 == 0;
    if x >= to {
      assert w >= to + 8 * i;
      if w < to + 8 * i + 8 && 8 * i < bytes {
        assert w == to + 8 * i;
        MixBytes(Word(was, w), Word(was, from + 8 * i), bytes - 8 * i, o);
      }
    }
  }
}
