/**
  The fixed-size gather as its callers see it (src/shmem_collectives.h): whichever algorithm the
  dispatcher picks, a PE that returns holds the contributions of all PEs in rank order.
*/
module FixedGather {
  import opened Arith
  import opened ChunkLayout
  import opened Trees
  import LinearGather
  import RecDblGather
  import RingCollective

  // ------------------------------------------------------------------ the dispatcher

  /** The bitwise and of two numbers. */
  function BitAnd(a: nat, b: nat): nat {
    if a == 0 || b == 0 then 0 else 2 * BitAnd(a / 2, b / 2) + (a % 2) * (b % 2)
  }

  lemma {:induction false} BitAndSelf(a: nat)
    ensures BitAnd(a, a) == a
  {
    if a > 0 {
      BitAndSelf(a / 2);
      var bit := a % 2;
      assert bit == 0 || bit == 1;
      assert bit * bit == bit;
      assert a == 2 * (a / 2) + bit;
    }
  }

  /** The source's bit test of n against n - 1 holds exactly for the powers of two. */
  lemma {:induction false} PowerOfTwoTest(n: nat)
    requires n > 0
    ensures BitAnd(n, n - 1) == 0 <==> exists k: nat :: n == Pow2(k)
  {
    var m := n / 2;
    if n == 1 {
      assert n == Pow2(0);
    } else if n % 2 == 0 {
      PowerOfTwoTest(m);
      assert (n - 1) / 2 == m - 1;
      if k: nat :| m == Pow2(k) { assert n == Pow2(k + 1); }
      if k: nat :| n == Pow2(k) { assert m == Pow2(k - 1); }
    } else {
      BitAndSelf(m);
      assert (n - 1) / 2 == m;
      forall k: nat ensures n != Pow2(k) {
        if k > 0 { assert Pow2(k) == 2 * Pow2(k - 1); }
      }
    }
  }

  datatype GatherType = Auto | UseLinear | UseRing | UseRecDbl

  datatype Algorithm = ByLinear | ByRing | ByRecDbl

  /** shmem_internal_fcollect */
  function Dispatch(kind: GatherType, n: nat): Algorithm
    requires n > 0
  {
    match kind
    case Auto => ByRing
    case UseLinear => ByLinear
    case UseRing => ByRing
    case UseRecDbl => if BitAnd(n, n - 1) == 0 then ByRecDbl else ByRing
  }

  /** Recursive doubling is chosen only where it works, the linear algorithm only where it is asked for. */
  lemma RecDblGetsPowersOfTwo(kind: GatherType, n: nat)
    requires n > 0
    ensures Dispatch(kind, n).ByRecDbl? <==> kind.UseRecDbl? && exists k: nat :: n == Pow2(k)
    ensures Dispatch(kind, n).ByLinear? <==> kind.UseLinear?
  {
    PowerOfTwoTest(n);
  }

  // ------------------------------------------------------------------ what a call returns

  /** src[p] is the block of `len` elements that PE p contributes. */
  datatype Call<!T> = Call(len: nat, src: seq<seq<T>>)

  predicate WellFormed<T>(call: Call<T>) {
    |call.src| >= 2 && forall p :: 0 <= p < |call.src| ==> |call.src[p]| == call.len
  }

  /** The blocks one after the other. */
  predicate IsGather<T(==)>(call: Call<T>, result: seq<T>)
    requires WellFormed(call)
  {
    && |result| == |call.src| * call.len
    && forall e {:trigger result[e]} :: 0 <= e < |result| ==> InBlocks(e, |call.src|, call.len) && result[e] == call.src[e / call.len][e % call.len]
  }

  /** Element e of n blocks of `len` lies in one of them. */
  predicate InBlocks(e: nat, n: nat, len: nat) {
    len > 0 && e / len < n && e % len < len
  }

  lemma ElementHasBlock(e: nat, n: nat, len: nat)
    requires e < n * len
    ensures InBlocks(e, n, len)
    ensures e / len * len <= e < (e / len + 1) * len
  {
    var q := e / len;
    BlocksAscend(n, q, len);
    assert q * len <= e < q * len + len;
  }

  lemma BlocksAscend(n: nat, q: nat, len: nat)
    ensures n <= q ==> n * len <= q * len
    ensures (q + 1) * len == q * len + len
  {
    if n <= q { assert q * len == n * len + (q - n) * len; }
  }

  /** The blocks of `t` written one after the other give `result`. */
  predicate Flattens<T(==)>(t: seq<seq<T>>, len: nat, result: seq<T>) {
    |result| == |t| * len && ElementsLie(t, len, result)
  }

  predicate ElementsLie<T(==)>(t: seq<seq<T>>, len: nat, result: seq<T>) {
    forall e {:trigger result[e]} :: 0 <= e < |result| ==>
      InBlocks(e, |t|, len) && e % len < |t[e / len]| && result[e] == t[e / len][e % len]
  }

  ghost predicate LinearReturns<T(!new)>(call: Call<T>, tree: Tree, run: seq<LinearGather.State<seq<T>>>, p: nat, result: seq<T>)
    requires p < |call.src|
  {
    var cfg := LinearGather.Config(tree, call.src);
    && LinearGather.IsRun(cfg, run) && LinearGather.Shape(cfg, run[|run| - 1])
    && run[|run| - 1].stage[p].Done? && Flattens(run[|run| - 1].target[p], call.len, result)
  }

  ghost predicate RecDblReturns<T(!new)>(call: Call<T>, k: nat, run: seq<RecDblGather.State<seq<T>>>, p: nat, result: seq<T>)
    requires p < |call.src|
  {
    var cfg := RecDblGather.Config(k, call.src);
    && RecDblGather.IsRun(cfg, run) && RecDblGather.Shape(cfg, run[|run| - 1])
    && run[|run| - 1].stage[p].Done? && Flattens(run[|run| - 1].target[p], call.len, result)
  }

  /** The ring cuts a buffer of n * len elements into n chunks and sends chunk p of PE p's. */
  ghost predicate RingReturns<T(!new)>(call: Call<T>, cfg: RingCollective.Config<T>, run: seq<RingCollective.State<T>>, p: nat, result: seq<T>)
    requires WellFormed(call) && p < |call.src|
  {
    && cfg.kind.Gather? && cfg.n == |call.src| && cfg.count == |call.src| * call.len
    && RingCollective.WellFormed(cfg)
    && (forall e {:trigger InBlocks(e, cfg.n, call.len)} :: 0 <= e < cfg.count && InBlocks(e, cfg.n, call.len)
          ==> cfg.src[e / call.len][e] == call.src[e / call.len][e % call.len])
    && RingCollective.IsRun(cfg, run) && RingCollective.Shape(cfg, run[|run| - 1])
    && run[|run| - 1].pc[p].Done? && run[|run| - 1].target[p] == result
  }

  /** Some run of the algorithm ends with PE p back from the call and `result` in its target. */
  ghost predicate Returns<T(!new)>(alg: Algorithm, call: Call<T>, p: nat, result: seq<T>)
    requires WellFormed(call) && p < |call.src|
  {
    match alg
    case ByLinear => exists tree, run :: LinearReturns(call, tree, run, p, result)
    case ByRing => exists cfg, run :: RingReturns(call, cfg, run, p, result)
    case ByRecDbl => exists k: nat, run :: RecDblReturns(call, k, run, p, result)
  }

  // ------------------------------------------------------------------ they all return the same

  /** Equal blocks: the ring's chunk c is the elements c * len to (c + 1) * len. */
  lemma EvenChunks(e: nat, n: nat, len: nat)
    requires n > 0 && e < n * len
    ensures Owner(e, n * len, n) == e / len < n
  {
    var count, c := n * len, e / len;
    ElementHasBlock(e, n, len);
    EvenDivision(n, len);
    assert ChunkCount(c, count, n) == len && ChunkDisp(c, count, n) == c * len;
    assert (c + 1) * len == c * len + len;
    ChunksTile(e, c, count, n);
  }

  lemma EvenDivision(n: nat, len: nat)
    requires n > 0
    ensures (n * len) / n == len && (n * len) % n == 0
  {
    DivModUnique(n * len, n, len, 0);
  }

  lemma RingIsRight<T(!new)>(call: Call<T>, cfg: RingCollective.Config<T>, run: seq<RingCollective.State<T>>, p: nat, result: seq<T>)
    requires WellFormed(call) && p < |call.src| && RingReturns(call, cfg, run, p, result)
    ensures IsGather(call, result)
  {
    forall e | 0 <= e < |result|
      ensures InBlocks(e, cfg.n, call.len) && result[e] == call.src[e / call.len][e % call.len]
    {
      ElementHasBlock(e, cfg.n, call.len);
      EvenChunks(e, cfg.n, call.len);
      RingCollective.GatherResult(cfg, run, |run| - 1, p, e);
    }
  }

  lemma FlatIsGather<T>(call: Call<T>, t: seq<seq<T>>, result: seq<T>)
    requires WellFormed(call) && t == call.src && Flattens(t, call.len, result)
    ensures IsGather(call, result)
  {
    forall e | 0 <= e < |result|
      ensures InBlocks(e, |call.src|, call.len) && result[e] == call.src[e / call.len][e % call.len]
    {
      var x := result[e];
      assert InBlocks(e, |t|, call.len);
      var b, i := e / call.len, e % call.len;
      assert x == t[b][i];
    }
  }

  lemma LinearIsRight<T(!new)>(call: Call<T>, tree: Tree, run: seq<LinearGather.State<seq<T>>>, p: nat, result: seq<T>)
    requires WellFormed(call) && p < |call.src| && LinearReturns(call, tree, run, p, result)
    ensures IsGather(call, result)
  {
    LinearGather.GatherResult(LinearGather.Config(tree, call.src), run, |run| - 1, p);
    FlatIsGather(call, run[|run| - 1].target[p], result);
  }

  lemma RecDblIsRight<T(!new)>(call: Call<T>, k: nat, run: seq<RecDblGather.State<seq<T>>>, p: nat, result: seq<T>)
    requires WellFormed(call) && p < |call.src| && RecDblReturns(call, k, run, p, result)
    ensures IsGather(call, result)
  {
    RecDblGather.GatherResult(RecDblGather.Config(k, call.src), run, |run| - 1, p);
    FlatIsGather(call, run[|run| - 1].target[p], result);
  }

  /** Every algorithm, in every interleaving, gives every PE the blocks in rank order. */
  lemma EveryAlgorithmGathers<T(!new)>(alg: Algorithm, call: Call<T>, p: nat, result: seq<T>)
    requires WellFormed(call) && p < |call.src| && Returns(alg, call, p, result)
    ensures IsGather(call, result)
  {
    match alg
    case ByLinear =>
      var tree, run :| LinearReturns(call, tree, run, p, result);
      LinearIsRight(call, tree, run, p, result);
    case ByRing =>
      var cfg, run :| RingReturns(call, cfg, run, p, result);
      RingIsRight(call, cfg, run, p, result);
    case ByRecDbl =>
      var k: nat, run :| RecDblReturns(call, k, run, p, result);
      RecDblIsRight(call, k, run, p, result);
  }

  /** The dispatcher's choice does not change the result, nor does the PE one asks. */
  lemma DispatchDoesNotMatter<T(!new)>(call: Call<T>, kind: GatherType, p: nat, result: seq<T>,
      kind': GatherType, q: nat, result': seq<T>)
    requires WellFormed(call) && p < |call.src| && q < |call.src|
    requires Returns(Dispatch(kind, |call.src|), call, p, result)
    requires Returns(Dispatch(kind', |call.src|), call, q, result')
    ensures result == result'
  {
    hide IsGather, Returns, WellFormed, Dispatch;
    EveryAlgorithmGathers(Dispatch(kind, |call.src|), call, p, result);
    EveryAlgorithmGathers(Dispatch(kind', |call.src|), call, q, result');
    GatherIsUnique(call, result, result');
  }

  lemma GatherIsUnique<T>(call: Call<T>, result: seq<T>, result': seq<T>)
    requires WellFormed(call) && IsGather(call, result) && IsGather(call, result')
    ensures result == result'
  {
    forall e | 0 <= e < |result| ensures result[e] == result'[e] {
      assert result[e] == call.src[e / call.len][e % call.len];
      assert result'[e] == call.src[e / call.len][e % call.len];
    }
  }

  // ------------------------------------------------------------------ every call returns

  function Fill<T>(n: nat, x: T): (r: seq<T>)
    ensures |r| == n && forall i :: 0 <= i < n ==> r[i] == x
  {
    seq(n, _ => x)
  }

  /** Element e of the blocks one after the other. */
  function ElementOf<T>(call: Call<T>, e: nat): T
    requires WellFormed(call) && InBlocks(e, |call.src|, call.len)
  {
    call.src[e / call.len][e % call.len]
  }

  /** The blocks one after the other, as one buffer. */
  lemma Flattened<T>(call: Call<T>) returns (result: seq<T>)
    requires WellFormed(call)
    ensures Flattens(call.src, call.len, result) == true && |result| == |call.src| * call.len
  {
    var n, len := |call.src|, call.len;
    var size := n * len;
    forall e | 0 <= e < size ensures InBlocks(e, n, len) {
      ElementHasBlock(e, n, len);
    }
    hide InBlocks, ElementOf;
    result := seq(size, e requires 0 <= e < size && InBlocks(e, n, len) => ElementOf(call, e));
    assert forall e {:trigger result[e]} :: 0 <= e < size ==> InBlocks(e, n, len) && result[e] == ElementOf(call, e);
    IsFlat(call, result);
  }

  lemma IsFlat<T>(call: Call<T>, result: seq<T>)
    requires WellFormed(call)
    requires forall e {:trigger result[e]} :: 0 <= e < |result| ==> InBlocks(e, |call.src|, call.len) && result[e] == ElementOf(call, e)
    ensures ElementsLie(call.src, call.len, result) == true
  {
    forall e | 0 <= e < |result|
      ensures InBlocks(e, |call.src|, call.len) && e % call.len < |call.src[e / call.len]| && result[e] == call.src[e / call.len][e % call.len]
    {
      var x := result[e];
      assert InBlocks(e, |call.src|, call.len) && x == ElementOf(call, e);
      BlockHasElement(call, e);
    }
  }

  lemma BlockHasElement<T>(call: Call<T>, e: nat)
    requires WellFormed(call) && InBlocks(e, |call.src|, call.len)
    ensures e % call.len < |call.src[e / call.len]| && ElementOf(call, e) == call.src[e / call.len][e % call.len]
  {
    var b := e / call.len;
    assert |call.src[b]| == call.len;
  }

  lemma LinearCallReturns<T(!new)>(call: Call<T>, p: nat) returns (run: seq<LinearGather.State<seq<T>>>, result: seq<T>)
    requires WellFormed(call) && p < |call.src|
    ensures LinearReturns(call, StarTree(|call.src|), run, p, result)
  {
    var n := |call.src|;
    StarTreeIsValid(n);
    var cfg := LinearGather.Config(StarTree(n), call.src);
    var s := LinearGather.State(Fill(n, LinearGather.Push), Fill(n, call.src), 0, Fill(n, 0), map[],
                                Fill(n, false), Fill(n, false), Fill(n, false), Fill(n, false));
    assert LinearGather.Init(cfg, s);
    run := LinearGather.RunsComplete(cfg, [s]);
    LinearGather.GatherResult(cfg, run, |run| - 1, p);
    result := Flattened(call);
  }

  lemma RecDblCallReturns<T(!new)>(call: Call<T>, k: nat, p: nat) returns (run: seq<RecDblGather.State<seq<T>>>, result: seq<T>)
    requires WellFormed(call) && p < |call.src| && |call.src| == Pow2(k)
    ensures RecDblReturns(call, k, run, p, result)
  {
    var n := |call.src|;
    var cfg := RecDblGather.Config(k, call.src);
    var s := RecDblGather.State(Fill(n, RecDblGather.Copy), Fill(n, 0), Fill(n, 0), Fill(n, call.src), Fill(n, Fill(k, 0)), map[], {}, {});
    assert RecDblGather.Init(cfg, s);
    run := RecDblGather.RunsComplete(cfg, [s]);
    RecDblGather.GatherResult(cfg, run, |run| - 1, p);
    result := Flattened(call);
  }

  lemma RingCallReturns<T(!new)>(call: Call<T>, p: nat)
    returns (cfg: RingCollective.Config<T>, run: seq<RingCollective.State<T>>, result: seq<T>)
    requires WellFormed(call) && p < |call.src|
    ensures RingReturns(call, cfg, run, p, result)
  {
    var n := |call.src|;
    var flat := Flattened(call);
    cfg := RingCollective.Config(RingCollective.Gather, n, n * call.len, (x, y) => x, Fill(n, flat), false);
    var s := RingCollective.State(Fill(n, RingCollective.Start), Fill(n, 0), Fill(n, flat), Fill(n, flat), Fill(n, 0), Fill(n, 0), Fill(n, 0), Fill(n, 0));
    assert RingCollective.Init(cfg, s);
    run := RingCollective.RunsComplete(cfg, [s]);
    result := run[|run| - 1].target[p];
  }

  /** Whatever the dispatcher picks, there is a run in which the call returns. */
  lemma EveryCallReturns<T(!new)>(kind: GatherType, call: Call<T>, p: nat) returns (result: seq<T>)
    requires WellFormed(call) && p < |call.src|
    ensures Returns(Dispatch(kind, |call.src|), call, p, result) && IsGather(call, result)
  {
    match Dispatch(kind, |call.src|) {
      case ByLinear =>
        var run;
        run, result := LinearCallReturns(call, p);
      case ByRing =>
        var cfg, run;
        cfg, run, result := RingCallReturns(call, p);
      case ByRecDbl =>
        RecDblGetsPowersOfTwo(kind, |call.src|);
        var k: nat :| |call.src| == Pow2(k);
        var run;
        run, result := RecDblCallReturns(call, k, p);
    }
    EveryAlgorithmGathers(Dispatch(kind, |call.src|), call, p, result);
  }
}
