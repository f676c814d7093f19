/**
  The all-reduce as its callers see it (src/shmem_collectives.h): whichever algorithm the
  dispatcher picks, a PE that returns holds, element by element, the fold of all contributions.
*/
module AllReduce {
  import opened Arith
  import opened Reduction
  import opened Trees
  import RecDblReduce
  import RingCollective
  import TreeReduce

  datatype ReduceType = Auto | UseLinear | UseRing | UseTree | UseRecDbl

  datatype Algorithm = LinearReduce | RingReduce | TreeReduction | RecDblReduction

  /** shmem_internal_op_to_all */
  function Dispatch(kind: ReduceType, atomics: bool, n: nat, bytes: nat, crossover: nat, sizeCrossover: nat): Algorithm {
    match kind
    case Auto =>
      if atomics then (if n < crossover then LinearReduce else TreeReduction)
      else if bytes < sizeCrossover then RecDblReduction else RingReduce
    case UseLinear => if atomics then LinearReduce else RecDblReduction
    case UseRing => RingReduce
    case UseTree => if atomics then TreeReduction else RecDblReduction
    case UseRecDbl => RecDblReduction
  }

  /**
    The linear and the tree algorithm, which accumulate by remote atomics, are picked only where
    the transport has them for this operator and type, and there unless another is asked for;
    the others are then told apart by the setting, the number of PEs and the size of the buffer.
  */
  lemma DispatchPicks(kind: ReduceType, atomics: bool, n: nat, bytes: nat, crossover: nat, sizeCrossover: nat)
    ensures var alg := Dispatch(kind, atomics, n, bytes, crossover, sizeCrossover);
            && (alg.LinearReduce? || alg.TreeReduction? <==> atomics && !kind.UseRing? && !kind.UseRecDbl?)
            && (alg.LinearReduce? ==> kind.UseLinear? || (kind.Auto? && n < crossover))
            && (alg.TreeReduction? ==> kind.UseTree? || (kind.Auto? && n >= crossover))
            && (alg.RingReduce? <==> kind.UseRing? || (kind.Auto? && !atomics && bytes >= sizeCrossover))
  {
  }

  /**
    What is reduced: n PEs, `count` elements each, and whether the transport has a remote atomic
    of this operator and type.
  */
  datatype Call<!T> = Call(n: nat, count: nat, op: (T, T) -> T, src: seq<seq<T>>, inPlace: bool, atomics: bool)

  ghost predicate WellFormed<T(!new)>(call: Call<T>) {
    && call.n >= 2 && |call.src| == call.n && AssociativeCommutative(call.op)
    && (forall p :: 0 <= p < call.n ==> |call.src[p]| == call.count)
  }

  /** The trees a call may use. */
  predicate IsCodeTree(t: Tree, n: nat, radix: nat)
    requires n >= 2 && radix >= 2
  {
    t == KaryTree(radix, n) || t == FullTree(radix, n) || t == StarTree(n)
  }

  ghost predicate TreeReturns<T(!new)>(call: Call<T>, up: Tree, down: Tree, run: seq<TreeReduce.State<seq<T>>>, p: nat, result: seq<T>)
    requires p < call.n
  {
    var cfg := TreeReduce.Config(up, down, ZipOp(call.op), call.src, call.inPlace);
    && call.atomics
    && TreeReduce.IsRun(cfg, run) && TreeReduce.Shape(cfg, run[|run| - 1]) && |call.src| == call.n
    && run[|run| - 1].stage[p] == 12 && run[|run| - 1].tgt[p] == result
  }

  ghost predicate RingReturns<T(!new)>(call: Call<T>, run: seq<RingCollective.State<T>>, p: nat, result: seq<T>)
    requires p < call.n
  {
    var cfg := RingCollective.Config(RingCollective.AllReduce, call.n, call.count, call.op, call.src, call.inPlace);
    && RingCollective.IsRun(cfg, run) && RingCollective.Shape(cfg, run[|run| - 1])
    && run[|run| - 1].pc[p].Done? && run[|run| - 1].target[p] == result
  }

  ghost predicate RecDblReturns<T(!new)>(call: Call<T>, k: nat, run: seq<RecDblReduce.State<seq<T>>>, p: nat, result: seq<T>)
    requires p < call.n
  {
    var cfg := RecDblReduce.Config(call.n, k, ZipOp(call.op), call.src, call.inPlace);
    && RecDblReduce.IsRun(cfg, run) && RecDblReduce.Shape(cfg, run[|run| - 1])
    && run[|run| - 1].stage[p].Done? && run[|run| - 1].tgt[p] == result
  }

  /** Some run of the algorithm ends with PE p back from the call and `result` in its target. */
  ghost predicate Returns<T(!new)>(alg: Algorithm, call: Call<T>, p: nat, result: seq<T>)
    requires call.n >= 2 && p < call.n
  {
    match alg
    case RingReduce => exists run :: RingReturns(call, run, p, result)
    case RecDblReduction => exists k: nat, run :: RecDblReturns(call, k, run, p, result)
    case TreeReduction => exists radix: nat, up, down, run ::
      radix >= 2 && IsCodeTree(up, call.n, radix) && IsCodeTree(down, call.n, radix) && TreeReturns(call, up, down, run, p, result)
    case LinearReduce => exists radix: nat, down, run ::
      radix >= 2 && IsCodeTree(down, call.n, radix) && TreeReturns(call, StarTree(call.n), down, run, p, result)
  }

  /** The result every caller expects: element by element, the contributions in rank order. */
  ghost predicate IsReduction<T(!new)>(call: Call<T>, result: seq<T>)
    requires WellFormed(call)
  {
    |result| == call.count && forall e :: 0 <= e < call.count ==> result[e] == RankFold(call.op, Elements(call.src, e), call.n)
  }

  /** Folding whole buffers is folding their elements. */
  lemma BufferFoldIsReduction<T(!new)>(call: Call<T>)
    requires WellFormed(call)
    ensures AssociativeCommutative(ZipOp(call.op))
    ensures IsReduction(call, RankFold(ZipOp(call.op), call.src, call.n))
  {
    ZipIsAssociativeCommutative(call.op);
    var result := RankFold(ZipOp(call.op), call.src, call.n);
    FoldLength(call, call.n);
    forall e | 0 <= e < call.count ensures result[e] == RankFold(call.op, Elements(call.src, e), call.n) {
      ZipFoldsElements(call.op, call.src, call.count, call.n, e);
    }
  }

  lemma {:induction false} FoldLength<T(!new)>(call: Call<T>, m: nat)
    requires WellFormed(call) && 0 < m <= call.n
    ensures |RankFold(ZipOp(call.op), call.src, m)| == call.count
  {
    if m > 1 { FoldLength(call, m - 1); }
  }

  lemma RingIsRight<T(!new)>(call: Call<T>, run: seq<RingCollective.State<T>>, p: nat, result: seq<T>)
    requires WellFormed(call) && p < call.n && RingReturns(call, run, p, result)
    ensures IsReduction(call, result)
  {
    var cfg := RingCollective.Config(RingCollective.AllReduce, call.n, call.count, call.op, call.src, call.inPlace);
    forall e | 0 <= e < call.count ensures result[e] == RankFold(call.op, Elements(call.src, e), call.n) {
      RingCollective.AllReduceResult(cfg, run, |run| - 1, p, e);
      assert RingCollective.Column(cfg, e) == Elements(call.src, e);
    }
  }

  lemma TreeIsRight<T(!new)>(call: Call<T>, up: Tree, down: Tree, run: seq<TreeReduce.State<seq<T>>>, p: nat, result: seq<T>)
    requires WellFormed(call) && p < call.n && TreeReturns(call, up, down, run, p, result)
    ensures IsReduction(call, result)
  {
    BufferFoldIsReduction(call);
    var cfg := TreeReduce.Config(up, down, ZipOp(call.op), call.src, call.inPlace);
    TreeReduce.AllReduceResult(cfg, run, |run| - 1, p);
  }

  lemma RecDblIsRight<T(!new)>(call: Call<T>, k: nat, run: seq<RecDblReduce.State<seq<T>>>, p: nat, result: seq<T>)
    requires WellFormed(call) && p < call.n && RecDblReturns(call, k, run, p, result)
    ensures IsReduction(call, result)
  {
    BufferFoldIsReduction(call);
    var cfg := RecDblReduce.Config(call.n, k, ZipOp(call.op), call.src, call.inPlace);
    RecDblReduce.AllReduceResult(cfg, run, |run| - 1, p);
  }

  /** Every algorithm, in every interleaving, gives every PE the reduction. */
  lemma EveryAlgorithmReduces<T(!new)>(alg: Algorithm, call: Call<T>, p: nat, result: seq<T>)
    requires WellFormed(call) && p < call.n && Returns(alg, call, p, result)
    ensures IsReduction(call, result)
  {
    match alg
    case RingReduce =>
      var run :| RingReturns(call, run, p, result);
      RingIsRight(call, run, p, result);
    case RecDblReduction =>
      var k: nat, run :| RecDblReturns(call, k, run, p, result);
      RecDblIsRight(call, k, run, p, result);
    case TreeReduction =>
      var radix: nat, up, down, run :| radix >= 2 && IsCodeTree(up, call.n, radix) && IsCodeTree(down, call.n, radix)
        && TreeReturns(call, up, down, run, p, result);
      TreeIsRight(call, up, down, run, p, result);
    case LinearReduce =>
      var radix: nat, down, run :| radix >= 2 && IsCodeTree(down, call.n, radix)
        && TreeReturns(call, StarTree(call.n), down, run, p, result);
      TreeIsRight(call, StarTree(call.n), down, run, p, result);
  }

  /** The dispatcher's choice does not change the result, nor does the PE one asks. */
  lemma DispatchDoesNotMatter<T(!new)>(call: Call<T>,
      kind: ReduceType, bytes: nat, crossover: nat, sizeCrossover: nat, p: nat, result: seq<T>,
      kind': ReduceType, bytes': nat, crossover': nat, sizeCrossover': nat, q: nat, result': seq<T>)
    requires WellFormed(call) && p < call.n && q < call.n
    requires Returns(Dispatch(kind, call.atomics, call.n, bytes, crossover, sizeCrossover), call, p, result)
    requires Returns(Dispatch(kind', call.atomics, call.n, bytes', crossover', sizeCrossover'), call, q, result')
    ensures result == result'
  {
    EveryAlgorithmReduces(Dispatch(kind, call.atomics, call.n, bytes, crossover, sizeCrossover), call, p, result);
    EveryAlgorithmReduces(Dispatch(kind', call.atomics, call.n, bytes', crossover', sizeCrossover'), call, q, result');
  }

  // ------------------------------------------------------------------ every call returns

  function Fill<T>(n: nat, x: T): (r: seq<T>)
    ensures |r| == n && forall i :: 0 <= i < n ==> r[i] == x
  {
    seq(n, _ => x)
  }

  lemma RingCallReturns<T(!new)>(call: Call<T>, p: nat) returns (run: seq<RingCollective.State<T>>, result: seq<T>)
    requires WellFormed(call) && p < call.n
    ensures RingReturns(call, run, p, result)
  {
    var n := call.n;
    var cfg := RingCollective.Config(RingCollective.AllReduce, n, call.count, call.op, call.src, call.inPlace);
    var s := RingCollective.State(Fill(n, RingCollective.Start), Fill(n, 0), call.src, call.src, Fill(n, 0), Fill(n, 0), Fill(n, 0), Fill(n, 0));
    assert RingCollective.Init(cfg, s);
    run := RingCollective.RunsComplete(cfg, [s]);
    result := run[|run| - 1].target[p];
  }

  lemma TreeCallReturns<T(!new)>(call: Call<T>, up: Tree, down: Tree, p: nat) returns (run: seq<TreeReduce.State<seq<T>>>, result: seq<T>)
    requires WellFormed(call) && call.atomics && p < call.n && IsCodeTree(up, call.n, 2) && IsCodeTree(down, call.n, 2)
    ensures TreeReturns(call, up, down, run, p, result)
  {
    var n := call.n;
    var cfg := TreeReduce.Config(up, down, ZipOp(call.op), call.src, call.inPlace);
    BufferFoldIsReduction(call);
    TreeReduce.EveryTreeWorks(n, 2);
    assert TreeReduce.WellFormed(cfg);
    var stages := seq(n, q requires 0 <= q < n => TreeReduce.FirstStage(cfg, q));
    var s := TreeReduce.State(stages, call.src, Fill(n, 0), Fill(n, 0), Fill(n, 0), map[], map[],
                              Fill(n, false), Fill(n, false), Fill(n, false), Fill(n, false), Fill(n, false));
    assert TreeReduce.Init(cfg, s);
    run := TreeReduce.RunsComplete(cfg, [s]);
    result := run[|run| - 1].tgt[p];
  }

  /** The largest power of two up to n. */
  lemma {:induction false} PowerUpTo(n: nat) returns (k: nat)
    requires n >= 2
    ensures k >= 1 && Pow2(k) <= n < 2 * Pow2(k)
  {
    if n < 4 {
      k := 1;
      assert Pow2(1) == 2 * Pow2(0);
    } else {
      k := PowerUpTo(n / 2);
      k := k + 1;
    }
  }

  lemma RecDblCallReturns<T(!new)>(call: Call<T>, p: nat) returns (k: nat, run: seq<RecDblReduce.State<seq<T>>>, result: seq<T>)
    requires WellFormed(call) && p < call.n
    ensures RecDblReturns(call, k, run, p, result)
  {
    k := PowerUpTo(call.n);
    var n := call.n;
    var cfg := RecDblReduce.Config(n, k, ZipOp(call.op), call.src, call.inPlace);
    BufferFoldIsReduction(call);
    assert RecDblReduce.WellFormed(cfg);
    var s := RecDblReduce.State(Fill(n, RecDblReduce.Start), Fill(n, 0), call.src, call.src, Fill(n, Fill(k + 1, 0)), map[], {}, {}, {});
    assert RecDblReduce.Init(cfg, s);
    run := RecDblReduce.RunsComplete(cfg, [s]);
    result := run[|run| - 1].tgt[p];
  }

  /** Every algorithm that the transport allows can be run until the call returns. */
  lemma AlgorithmReturns<T(!new)>(alg: Algorithm, call: Call<T>, p: nat) returns (result: seq<T>)
    requires WellFormed(call) && p < call.n && (alg.LinearReduce? || alg.TreeReduction? ==> call.atomics)
    ensures Returns(alg, call, p, result) && IsReduction(call, result)
  {
    match alg {
      case RingReduce =>
        var run;
        run, result := RingCallReturns(call, p);
      case RecDblReduction =>
        var k, run;
        k, run, result := RecDblCallReturns(call, p);
      case TreeReduction =>
        var run, radix: nat, t := [], 2, KaryTree(2, call.n);
        run, result := TreeCallReturns(call, t, t, p);
        assert radix >= 2 && IsCodeTree(t, call.n, radix) && TreeReturns(call, t, t, run, p, result);
      case LinearReduce =>
        var run, radix: nat, t := [], 2, StarTree(call.n);
        run, result := TreeCallReturns(call, t, t, p);
        assert radix >= 2 && IsCodeTree(t, call.n, radix) && TreeReturns(call, t, t, run, p, result);
    }
    EveryAlgorithmReduces(alg, call, p, result);
  }

  /** Whatever the settings, what the dispatcher picks can be run until the call returns. */
  lemma EveryCallReturns<T(!new)>(kind: ReduceType, call: Call<T>, bytes: nat, crossover: nat, sizeCrossover: nat, p: nat)
    returns (result: seq<T>)
    requires WellFormed(call) && p < call.n
    ensures Returns(Dispatch(kind, call.atomics, call.n, bytes, crossover, sizeCrossover), call, p, result) && IsReduction(call, result)
  {
    DispatchPicks(kind, call.atomics, call.n, bytes, crossover, sizeCrossover);
    result := AlgorithmReturns(Dispatch(kind, call.atomics, call.n, bytes, crossover, sizeCrossover), call, p);
  }
}
