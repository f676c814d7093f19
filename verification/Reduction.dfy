/**
  What a reduction means: the fold of one contribution per PE under an associative and
  commutative operator, taken in rank order.  Every all-reduce algorithm combines the
  contributions in its own order; the lemmas here show that the order does not matter.
*/
module Reduction {

  predicate Pair<T>(x: T, y: T) { true }
  predicate Triple<T>(x: T, y: T, z: T) { true }

  ghost predicate AssociativeCommutative<T(!new)>(op: (T, T) -> T) {
    && (forall x, y {:trigger Pair(x, y)} :: op(x, y) == op(y, x))
    && (forall x, y, z {:trigger Triple(x, y, z)} :: op(op(x, y), z) == op(x, op(y, z)))
  }

  /** xs[0] op xs[1] op ... op xs[m - 1], from the left. */
  function RankFold<T>(op: (T, T) -> T, xs: seq<T>, m: nat): T
    requires 0 < m <= |xs|
  {
    if m == 1 then xs[0] else op(RankFold(op, xs, m - 1), xs[m - 1])
  }

  ghost function Pick(s: set<nat>): (p: nat)
    requires s != {}
    ensures p in s
  {
    var p :| p in s; p
  }

  /** The fold of the contributions of a set of PEs, in some order. */
  ghost function SetFold<T>(op: (T, T) -> T, xs: seq<T>, s: set<nat>): T
    requires s != {} && forall p :: p in s ==> p < |xs|
    decreases |s|
  {
    var p := Pick(s);
    if s == {p} then xs[p] else op(SetFold(op, xs, s - {p}), xs[p])
  }

  /** Any member may be the one folded in last. */
  lemma {:induction false} SetFoldLast<T(!new)>(op: (T, T) -> T, xs: seq<T>, s: set<nat>, q: nat)
    requires AssociativeCommutative(op) && q in s && s != {q}
    requires forall p :: p in s ==> p < |xs|
    ensures s - {q} != {}
    ensures SetFold(op, xs, s) == op(SetFold(op, xs, s - {q}), xs[q])
    decreases |s|
  {
    assert s == s - {q} + {q};
    var p := Pick(s);
    if p != q {
      var rest := s - {p} - {q};
      if rest == {} {
        assert s - {p} == {q} && s - {q} == {p};
        assert Pair(xs[p], xs[q]);
      } else {
        SetFoldLast(op, xs, s - {p}, q);
        SetFoldLast(op, xs, s - {q}, p);
        assert s - {q} - {p} == rest;
        var r := SetFold(op, xs, rest);
        assert Triple(r, xs[q], xs[p]) && Triple(r, xs[p], xs[q]) && Pair(xs[p], xs[q]);
      }
    }
  }

  lemma SetFoldOne<T>(op: (T, T) -> T, xs: seq<T>, q: nat)
    requires q < |xs|
    ensures SetFold(op, xs, {q}) == xs[q]
  {
    assert Pick({q}) == q;
  }

  /** Two disjoint groups of contributions combine into one. */
  lemma {:induction false} SetFoldUnion<T(!new)>(op: (T, T) -> T, xs: seq<T>, a: set<nat>, b: set<nat>)
    requires AssociativeCommutative(op) && a != {} && b != {} && a !! b
    requires forall p :: p in a + b ==> p < |xs|
    ensures SetFold(op, xs, a + b) == op(SetFold(op, xs, a), SetFold(op, xs, b))
    decreases |b|
  {
    var q :| q in b;
    assert a + b != {q} by { var p :| p in a; assert p in a + b && p != q; }
    SetFoldLast(op, xs, a + b, q);
    if b == {q} {
      assert a + b - {q} == a;
      SetFoldOne(op, xs, q);
    } else {
      assert a + b - {q} == a + (b - {q});
      SetFoldLast(op, xs, b, q);
      SetFoldUnion(op, xs, a, b - {q});
      assert Triple(SetFold(op, xs, a), SetFold(op, xs, b - {q}), xs[q]);
    }
  }

  function Ranks(n: nat): (r: set<nat>)
    ensures forall p :: p in r <==> 0 <= p < n
  {
    if n == 0 then {} else Ranks(n - 1) + {n - 1}
  }

  /** The fold over all PEs, in whatever order, is the fold in rank order. */
  lemma {:induction false} SetFoldIsRankFold<T(!new)>(op: (T, T) -> T, xs: seq<T>, m: nat)
    requires AssociativeCommutative(op) && 0 < m <= |xs|
    ensures 0 in Ranks(m) && SetFold(op, xs, Ranks(m)) == RankFold(op, xs, m)
  {
    assert 0 in Ranks(m);
    if m == 1 {
      assert Ranks(1) == {0};
      SetFoldOne(op, xs, 0);
    } else {
      assert Ranks(m) - {m - 1} == Ranks(m - 1);
      assert 0 in Ranks(m - 1);
      SetFoldLast(op, xs, Ranks(m), m - 1);
      SetFoldIsRankFold(op, xs, m - 1);
    }
  }

  // ------------------------------------------------------------------ whole buffers

  /** op on two buffers, element by element. */
  function Zip<T>(op: (T, T) -> T, out: seq<T>, arg: seq<T>): (r: seq<T>)
    ensures |r| == if |out| <= |arg| then |out| else |arg|
    ensures forall e :: 0 <= e < |r| ==> r[e] == op(out[e], arg[e])
  {
    seq(if |out| <= |arg| then |out| else |arg|, e requires 0 <= e < |out| && e < |arg| => op(out[e], arg[e]))
  }

  function ZipOp<T>(op: (T, T) -> T): (seq<T>, seq<T>) -> seq<T> {
    (x, y) => Zip(op, x, y)
  }

  lemma ZipCommutes<T(!new)>(op: (T, T) -> T, x: seq<T>, y: seq<T>)
    requires AssociativeCommutative(op)
    ensures Zip(op, x, y) == Zip(op, y, x)
  {
    forall e | 0 <= e < |x| && e < |y| ensures op(x[e], y[e]) == op(y[e], x[e]) {
      assert Pair(x[e], y[e]);
    }
  }

  lemma ZipAssociates<T(!new)>(op: (T, T) -> T, x: seq<T>, y: seq<T>, w: seq<T>)
    requires AssociativeCommutative(op)
    ensures Zip(op, Zip(op, x, y), w) == Zip(op, x, Zip(op, y, w))
  {
    forall e | 0 <= e < |x| && e < |y| && e < |w| ensures op(op(x[e], y[e]), w[e]) == op(x[e], op(y[e], w[e])) {
      assert Triple(x[e], y[e], w[e]);
    }
  }

  /** Buffers combine associatively and commutatively when their elements do. */
  lemma ZipIsAssociativeCommutative<T(!new)>(op: (T, T) -> T)
    requires AssociativeCommutative(op)
    ensures AssociativeCommutative(ZipOp(op))
  {
    forall x: seq<T>, y: seq<T> ensures ZipOp(op)(x, y) == ZipOp(op)(y, x) {
      ZipCommutes(op, x, y);
    }
    forall x: seq<T>, y: seq<T>, w: seq<T>
      ensures ZipOp(op)(ZipOp(op)(x, y), w) == ZipOp(op)(x, ZipOp(op)(y, w))
    {
      ZipAssociates(op, x, y, w);
    }
  }

  /** Element e of every buffer, in rank order. */
  function Elements<T>(bufs: seq<seq<T>>, e: nat): (xs: seq<T>)
    requires forall p :: 0 <= p < |bufs| ==> e < |bufs[p]|
    ensures |xs| == |bufs|
    ensures forall p :: 0 <= p < |bufs| ==> xs[p] == bufs[p][e]
  {
    seq(|bufs|, p requires 0 <= p < |bufs| => bufs[p][e])
  }

  /** Element e of the fold of buffers is the fold of their elements e. */
  lemma {:induction false} ZipFoldsElements<T>(op: (T, T) -> T, bufs: seq<seq<T>>, count: nat, m: nat, e: nat)
    requires 0 < m <= |bufs| && e < count && forall p :: 0 <= p < |bufs| ==> |bufs[p]| == count
    ensures |RankFold(ZipOp(op), bufs, m)| == count
    ensures RankFold(ZipOp(op), bufs, m)[e] == RankFold(op, Elements(bufs, e), m)
  {
    if m > 1 { ZipFoldsElements(op, bufs, count, m - 1, e); }
  }

  /** The local reduction loop: fold one buffer into another in place. */
  method ReduceLocal<T>(op: (T, T) -> T, count: nat, arg: array<T>, out: array<T>)
    requires count <= arg.Length && count <= out.Length && arg != out
    modifies out
    ensures out[..count] == Zip(op, old(out[..count]), arg[..count])
    ensures out[count..] == old(out[count..])
  {
    for i := 0 to count
      invariant forall e :: 0 <= e < i ==> out[e] == op(old(out[e]), arg[e])
      invariant forall e :: i <= e < out.Length ==> out[e] == old(out[e])
    {
      out[i] := op(out[i], arg[i]);
    }
  }
}
