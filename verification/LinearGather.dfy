/**
  The linear fixed-size gather of src/collectives.c (fcollect_linear), one call from zeroed pSync
  words.

  Every PE but the first puts its block into the first PE's target, fences and adds one to that
  PE's count.  The first PE copies its own block, adds one too, waits for the count to be exactly
  the number of PEs, and broadcasts its target along a tree (a star in the linear broadcast).

  Every remote operation is under way from the step that issues it to a later landing; the fence
  only makes the add land after the put, and a broadcast flag after its data.  PEs are named by
  their rank; T stands for one PE's block.
*/
module LinearGather {
  import opened Progress
  import opened Trees

  datatype Config<!T> = Config(tree: Tree, src: seq<T>)

  function N<T>(cfg: Config<T>): nat {
    |cfg.src|
  }

  ghost predicate WellFormed<T(!new)>(cfg: Config<T>) {
    N(cfg) >= 2 && ValidTree(cfg.tree) && cfg.tree.n == N(cfg)
  }

  /** The first PE goes through all of these but Hear, the others skip Await and ResetCount. */
  datatype Stage = Push | Count | Await | ResetCount | Hear | Forward | FlagKids | ResetFlag | Done

  function Order(stage: Stage): nat {
    match stage
    case Push => 0
    case Count => 1
    case Await => 2
    case ResetCount => 3
    case Hear => 4
    case Forward => 5
    case FlagKids => 6
    case ResetFlag => 7
    case Done => 8
  }

  /**
    count is the word of the first PE that is added to, word[p] the broadcast flag of p.  dataIn
    and countIn say that p's block and p's add have landed, bDataIn and bFlagIn that the broadcast
    and its flag have landed at p; bsent[p] is what p has put to its children.
  */
  datatype State<T> = State(
    stage: seq<Stage>, target: seq<seq<T>>, count: int, word: seq<int>, bsent: map<nat, seq<T>>,
    dataIn: seq<bool>, countIn: seq<bool>, bDataIn: seq<bool>, bFlagIn: seq<bool>)

  ghost predicate Shape<T(!new)>(cfg: Config<T>, s: State<T>) {
    && WellFormed(cfg)
    && |s.stage| == |s.target| == |s.word| == N(cfg)
    && |s.dataIn| == |s.countIn| == |s.bDataIn| == |s.bFlagIn| == N(cfg)
    && (forall p :: 0 <= p < N(cfg) ==> |s.target[p]| == N(cfg))
  }

  ghost predicate Init<T(!new)>(cfg: Config<T>, s: State<T>) {
    && Shape(cfg, s)
    && (forall p :: 0 <= p < N(cfg) ==> s.stage[p] == Push && s.word[p] == 0)
    && (forall p :: 0 <= p < N(cfg) ==> !s.dataIn[p] && !s.countIn[p] && !s.bDataIn[p] && !s.bFlagIn[p])
    && s.count == 0 && s.bsent == map[]
  }

  ghost predicate CanAdvance<T(!new)>(cfg: Config<T>, s: State<T>, p: nat)
    requires Shape(cfg, s) && p < N(cfg)
  {
    match s.stage[p]
    case Await => s.count == N(cfg)
    case Hear => s.word[p] != 0
    case Done => false
    case _ => true
  }

  function NextStage<T>(cfg: Config<T>, p: nat, stage: Stage): Stage
    requires |cfg.tree.kids| == N(cfg) && p < N(cfg)
  {
    match stage
    case Push => Count
    case Count => if p == 0 then Await else Hear
    case Await => ResetCount
    case ResetCount => Forward
    case Hear => if cfg.tree.kids[p] == [] then ResetFlag else Forward
    case Forward => FlagKids
    case FlagKids => ResetFlag
    case ResetFlag => Done
    case Done => Done
  }

  ghost function Advance<T(!new)>(cfg: Config<T>, s: State<T>, p: nat): State<T>
    requires Shape(cfg, s) && p < N(cfg) && CanAdvance(cfg, s, p)
  {
    var s' := s.(stage := s.stage[p := NextStage(cfg, p, s.stage[p])]);
    match s.stage[p]
    case Push => if p == 0 then LandData(cfg, s', 0) else s'
    case ResetCount => s'.(count := 0)
    case Forward => s'.(bsent := s.bsent[p := s.target[p]])
    case ResetFlag => s'.(word := s.word[p := 0])
    case _ => s'
  }

  ghost predicate CanLandData<T(!new)>(cfg: Config<T>, s: State<T>, c: nat)
    requires Shape(cfg, s) && c < N(cfg)
  {
    c > 0 && Order(s.stage[c]) >= 1 && !s.dataIn[c]
  }

  ghost function LandData<T(!new)>(cfg: Config<T>, s: State<T>, c: nat): State<T>
    requires Shape(cfg, s) && c < N(cfg)
  {
    s.(target := s.target[0 := s.target[0][c := cfg.src[c]]], dataIn := s.dataIn[c := true])
  }

  ghost predicate CanLandCount<T(!new)>(cfg: Config<T>, s: State<T>, c: nat)
    requires Shape(cfg, s) && c < N(cfg)
  {
    Order(s.stage[c]) >= 2 && s.dataIn[c] && !s.countIn[c]
  }

  ghost function LandCount<T(!new)>(cfg: Config<T>, s: State<T>, c: nat): State<T>
    requires Shape(cfg, s) && c < N(cfg)
  {
    s.(count := s.count + 1, countIn := s.countIn[c := true])
  }

  ghost predicate CanLandBData<T(!new)>(cfg: Config<T>, s: State<T>, c: nat)
    requires Shape(cfg, s) && c < N(cfg)
  {
    c > 0 && cfg.tree.parent[c] in s.bsent && !s.bDataIn[c]
  }

  ghost function LandBData<T(!new)>(cfg: Config<T>, s: State<T>, c: nat): State<T>
    requires Shape(cfg, s) && c < N(cfg) && CanLandBData(cfg, s, c)
  {
    s.(target := s.target[c := s.bsent[cfg.tree.parent[c]]], bDataIn := s.bDataIn[c := true])
  }

  ghost predicate CanLandBFlag<T(!new)>(cfg: Config<T>, s: State<T>, c: nat)
    requires Shape(cfg, s) && c < N(cfg)
  {
    c > 0 && Order(s.stage[cfg.tree.parent[c]]) >= 7 && s.bDataIn[c] && !s.bFlagIn[c]
  }

  ghost function LandBFlag<T(!new)>(cfg: Config<T>, s: State<T>, c: nat): State<T>
    requires Shape(cfg, s) && c < N(cfg)
  {
    s.(word := s.word[c := 1], bFlagIn := s.bFlagIn[c := true])
  }

  datatype Event = PeStep(p: nat) | DataLands(p: nat) | CountLands(p: nat) | BDataLands(p: nat) | BFlagLands(p: nat)

  ghost predicate Step<T(!new)>(cfg: Config<T>, s: State<T>, e: Event, s': State<T>) {
    && Shape(cfg, s) && e.p < N(cfg)
    && match e
       case PeStep(p) => CanAdvance(cfg, s, p) && s' == Advance(cfg, s, p)
       case DataLands(c) => CanLandData(cfg, s, c) && s' == LandData(cfg, s, c)
       case CountLands(c) => CanLandCount(cfg, s, c) && s' == LandCount(cfg, s, c)
       case BDataLands(c) => CanLandBData(cfg, s, c) && s' == LandBData(cfg, s, c)
       case BFlagLands(c) => CanLandBFlag(cfg, s, c) && s' == LandBFlag(cfg, s, c)
  }

  ghost predicate Next<T(!new)>(cfg: Config<T>, s: State<T>, s': State<T>) {
    exists e :: Step(cfg, s, e, s')
  }

  ghost predicate IsRun<T(!new)>(cfg: Config<T>, run: seq<State<T>>) {
    |run| > 0 && Init(cfg, run[0]) && forall k :: 0 < k < |run| ==> Next(cfg, run[k - 1], run[k])
  }

  // ------------------------------------------------------------------ the invariant

  function Ranks(n: nat): (r: seq<nat>)
    ensures |r| == n && forall i :: 0 <= i < n ==> r[i] == i
  {
    seq(n, i => i)
  }

  function Counted(countIn: seq<bool>): nat {
    CountHere(Ranks(|countIn|), countIn)
  }

  /** What the gather part has done for p. */
  ghost predicate PushOk<T(!new)>(cfg: Config<T>, s: State<T>, p: nat)
    requires Shape(cfg, s) && p < N(cfg)
  {
    && (p > 0 ==> !s.stage[p].Await? && !s.stage[p].ResetCount?)
    && (p == 0 ==> !s.stage[p].Hear?)
    && (s.dataIn[p] ==> Order(s.stage[p]) >= 1 && s.target[0][p] == cfg.src[p])
    && (p == 0 && Order(s.stage[p]) >= 1 ==> s.dataIn[p])
    && (s.countIn[p] ==> Order(s.stage[p]) >= 2 && s.dataIn[p])
    && (Order(s.stage[0]) >= 3 ==> s.countIn[p])
  }

  /** What the broadcast has done for p. */
  ghost predicate CastOk<T(!new)>(cfg: Config<T>, s: State<T>, p: nat)
    requires Shape(cfg, s) && p < N(cfg)
  {
    && (Order(s.stage[p]) >= 5 ==> s.target[p] == cfg.src && (p > 0 ==> s.bFlagIn[p]))
    && (p in s.bsent ==> s.bsent[p] == cfg.src && Order(s.stage[p]) >= 6)
    && (Order(s.stage[p]) >= 6 && cfg.tree.kids[p] != [] ==> p in s.bsent)
    && (s.bDataIn[p] ==> p > 0 && s.target[p] == cfg.src && cfg.tree.parent[p] in s.bsent)
    && (s.bFlagIn[p] ==> s.bDataIn[p] && Order(s.stage[cfg.tree.parent[p]]) >= 7)
    && s.word[p] == if s.bFlagIn[p] && !s.stage[p].Done? then 1 else 0
  }

  ghost predicate CountOk<T(!new)>(cfg: Config<T>, s: State<T>)
    requires Shape(cfg, s)
  {
    s.count == if Order(s.stage[0]) <= 3 then Counted(s.countIn) else 0
  }

  /** Parents are ranks, and whoever has a parent makes it a PE with children. */
  ghost predicate TreeOk<T(!new)>(cfg: Config<T>)
    requires WellFormed(cfg)
  {
    forall c {:trigger cfg.tree.parent[c]} :: 0 < c < N(cfg) ==> cfg.tree.parent[c] < c && cfg.tree.kids[cfg.tree.parent[c]] != []
  }

  lemma TreesAreOk<T(!new)>(cfg: Config<T>)
    requires WellFormed(cfg)
    ensures TreeOk(cfg)
  {
    forall c | 0 < c < N(cfg) ensures cfg.tree.parent[c] < c && cfg.tree.kids[cfg.tree.parent[c]] != [] {
      assert IsKid(cfg.tree, cfg.tree.parent[c], c);
    }
  }

  ghost predicate Inv<T(!new)>(cfg: Config<T>, s: State<T>) {
    && Shape(cfg, s) && TreeOk(cfg) && CountOk(cfg, s)
    && (forall p {:trigger PushOk(cfg, s, p)} :: 0 <= p < N(cfg) ==> PushOk(cfg, s, p))
    && (forall p {:trigger CastOk(cfg, s, p)} :: 0 <= p < N(cfg) ==> CastOk(cfg, s, p))
  }

  lemma InitIsInv<T(!new)>(cfg: Config<T>, s: State<T>)
    requires Init(cfg, s)
    ensures Inv(cfg, s) == true
  {
    TreesAreOk(cfg);
    CountNone(Ranks(N(cfg)), s.countIn);
  }

  /** When the count is full, every block is in. */
  lemma FullCount<T(!new)>(cfg: Config<T>, s: State<T>, p: nat)
    requires Inv(cfg, s) && s.stage[0].Await? && s.count == N(cfg) && p < N(cfg)
    ensures s.countIn[p]
  {
    CountFull(Ranks(N(cfg)), s.countIn, p);
  }

  /** When the first PE begins the broadcast, its target is complete. */
  lemma TargetIsComplete<T(!new)>(cfg: Config<T>, s: State<T>)
    requires Inv(cfg, s) && Order(s.stage[0]) >= 3
    ensures s.target[0] == cfg.src
  {
    forall p | 0 <= p < N(cfg) ensures s.target[0][p] == cfg.src[p] {
      assert PushOk(cfg, s, p);
    }
  }

  lemma AdvanceKeepsPush<T(!new)>(cfg: Config<T>, s: State<T>, p: nat, q: nat)
    requires Inv(cfg, s) && p < N(cfg) && CanAdvance(cfg, s, p) && q < N(cfg)
    ensures PushOk(cfg, Advance(cfg, s, p), q) == true
  {
    hide CastOk, CountOk, TreeOk;
    assert PushOk(cfg, s, p) && PushOk(cfg, s, q);
    if s.stage[p].Await? { FullCount(cfg, s, q); }
  }

  lemma AdvanceKeepsOwnCast<T(!new)>(cfg: Config<T>, s: State<T>, p: nat)
    requires Inv(cfg, s) && p < N(cfg) && CanAdvance(cfg, s, p)
    ensures CastOk(cfg, Advance(cfg, s, p), p) == true
  {
    hide CountOk, PushOk;
    assert CastOk(cfg, s, p) && PushOk(cfg, s, p);
    OnlyFirstAwaits(cfg, s, p);
    if s.stage[p].ResetCount? { TargetIsComplete(cfg, s); }
  }

  lemma OnlyFirstAwaits<T(!new)>(cfg: Config<T>, s: State<T>, p: nat)
    requires Shape(cfg, s) && p < N(cfg) && PushOk(cfg, s, p)
    ensures p > 0 ==> !s.stage[p].Await? && !s.stage[p].ResetCount?
    ensures p == 0 ==> !s.stage[p].Hear?
  {
  }

  /** A step of p moves its stage on, lands nothing of the broadcast, and sends only p's own. */
  lemma AdvanceMoves<T(!new)>(cfg: Config<T>, s: State<T>, p: nat)
    requires Shape(cfg, s) && p < N(cfg) && CanAdvance(cfg, s, p)
    ensures var s' := Advance(cfg, s, p);
            && s'.stage == s.stage[p := NextStage(cfg, p, s.stage[p])] && Order(s.stage[p]) < Order(s'.stage[p])
            && s'.bDataIn == s.bDataIn && s'.bFlagIn == s.bFlagIn
            && s'.bsent == if s.stage[p].Forward? then s.bsent[p := s.target[p]] else s.bsent
  {
  }

  lemma AdvanceSpares<T(!new)>(cfg: Config<T>, s: State<T>, p: nat, q: nat)
    requires Shape(cfg, s) && p < N(cfg) && CanAdvance(cfg, s, p) && q < N(cfg) && q != p
    ensures var s' := Advance(cfg, s, p); Shape(cfg, s') && s'.target[q] == s.target[q] && s'.word[q] == s.word[q]
  {
  }

  lemma AdvanceKeepsOtherCast<T(!new)>(cfg: Config<T>, s: State<T>, p: nat, q: nat)
    requires Inv(cfg, s) && p < N(cfg) && CanAdvance(cfg, s, p) && q < N(cfg) && q != p
    ensures CastOk(cfg, Advance(cfg, s, p), q) == true
  {
    hide CountOk, PushOk, Advance;
    AdvanceMoves(cfg, s, p);
    AdvanceSpares(cfg, s, p, q);
    assert CastOk(cfg, s, p) && CastOk(cfg, s, q);
  }

  lemma AdvanceKeepsCast<T(!new)>(cfg: Config<T>, s: State<T>, p: nat, q: nat)
    requires Inv(cfg, s) && p < N(cfg) && CanAdvance(cfg, s, p) && q < N(cfg)
    ensures CastOk(cfg, Advance(cfg, s, p), q) == true
  {
    hide CastOk, CountOk, PushOk;
    if q == p { AdvanceKeepsOwnCast(cfg, s, p); } else { AdvanceKeepsOtherCast(cfg, s, p, q); }
  }

  lemma AdvanceKeepsInv<T(!new)>(cfg: Config<T>, s: State<T>, p: nat)
    requires Inv(cfg, s) && p < N(cfg) && CanAdvance(cfg, s, p)
    ensures Inv(cfg, Advance(cfg, s, p)) == true
  {
    hide CastOk;
    var s' := Advance(cfg, s, p);
    assert PushOk(cfg, s, p);
    forall q | 0 <= q < N(cfg) ensures PushOk(cfg, s', q) {
      AdvanceKeepsPush(cfg, s, p, q);
    }
    forall q | 0 <= q < N(cfg) ensures CastOk(cfg, s', q) {
      AdvanceKeepsCast(cfg, s, p, q);
    }
  }

  lemma LandDataKeepsInv<T(!new)>(cfg: Config<T>, s: State<T>, c: nat)
    requires Inv(cfg, s) && c < N(cfg) && CanLandData(cfg, s, c)
    ensures Inv(cfg, LandData(cfg, s, c)) == true
  {
    var s' := LandData(cfg, s, c);
    assert PushOk(cfg, s, c);
    forall q | 0 <= q < N(cfg) ensures PushOk(cfg, s', q) {
      assert PushOk(cfg, s, q);
    }
    forall q | 0 <= q < N(cfg) ensures CastOk(cfg, s', q) {
      assert CastOk(cfg, s, q);
    }
  }

  lemma LandCountKeepsInv<T(!new)>(cfg: Config<T>, s: State<T>, c: nat)
    requires Inv(cfg, s) && c < N(cfg) && CanLandCount(cfg, s, c)
    ensures Inv(cfg, LandCount(cfg, s, c)) == true
  {
    hide CountHere;
    var s' := LandCount(cfg, s, c);
    assert PushOk(cfg, s, c);
    assert Ranks(N(cfg))[c] == c;
    CountOneMore(Ranks(N(cfg)), s.countIn, c);
    forall q | 0 <= q < N(cfg) ensures PushOk(cfg, s', q) {
      assert PushOk(cfg, s, q);
    }
    forall q | 0 <= q < N(cfg) ensures CastOk(cfg, s', q) {
      assert CastOk(cfg, s, q);
    }
  }

  lemma LandBDataKeepsInv<T(!new)>(cfg: Config<T>, s: State<T>, c: nat)
    requires Inv(cfg, s) && c < N(cfg) && CanLandBData(cfg, s, c)
    ensures Inv(cfg, LandBData(cfg, s, c)) == true
  {
    hide CountOk;
    var s' := LandBData(cfg, s, c);
    assert CastOk(cfg, s, cfg.tree.parent[c]) && CastOk(cfg, s, c);
    assert CountOk(cfg, s') by { KeepsCount(cfg, s, s'); }
    forall q | 0 <= q < N(cfg) ensures PushOk(cfg, s', q) {
      assert PushOk(cfg, s, q);
    }
    forall q | 0 <= q < N(cfg) ensures CastOk(cfg, s', q) {
      assert CastOk(cfg, s, q);
    }
  }

  lemma KeepsCount<T(!new)>(cfg: Config<T>, s: State<T>, s': State<T>)
    requires Shape(cfg, s) && Shape(cfg, s') && CountOk(cfg, s)
    requires s'.count == s.count && s'.countIn == s.countIn && s'.stage[0] == s.stage[0]
    ensures CountOk(cfg, s')
  {
  }

  lemma LandBFlagKeepsInv<T(!new)>(cfg: Config<T>, s: State<T>, c: nat)
    requires Inv(cfg, s) && c < N(cfg) && CanLandBFlag(cfg, s, c)
    ensures Inv(cfg, LandBFlag(cfg, s, c)) == true
  {
    hide CountOk;
    var s' := LandBFlag(cfg, s, c);
    assert CastOk(cfg, s, c);
    assert CountOk(cfg, s') by { KeepsCount(cfg, s, s'); }
    forall q | 0 <= q < N(cfg) ensures PushOk(cfg, s', q) {
      assert PushOk(cfg, s, q);
    }
    forall q | 0 <= q < N(cfg) ensures CastOk(cfg, s', q) {
      assert CastOk(cfg, s, q);
    }
  }

  lemma {:induction false} RunKeepsInv<T(!new)>(cfg: Config<T>, run: seq<State<T>>, k: nat)
    requires IsRun(cfg, run) && k < |run|
    ensures Inv(cfg, run[k]) == true
  {
    hide PushOk, CastOk, CountOk, TreeOk;
    if k == 0 {
      InitIsInv(cfg, run[0]);
    } else {
      RunKeepsInv(cfg, run, k - 1);
      var e :| Step(cfg, run[k - 1], e, run[k]);
      match e
      case PeStep(p) => AdvanceKeepsInv(cfg, run[k - 1], p);
      case DataLands(c) => LandDataKeepsInv(cfg, run[k - 1], c);
      case CountLands(c) => LandCountKeepsInv(cfg, run[k - 1], c);
      case BDataLands(c) => LandBDataKeepsInv(cfg, run[k - 1], c);
      case BFlagLands(c) => LandBFlagKeepsInv(cfg, run[k - 1], c);
    }
  }

  // ------------------------------------------------------------------ what a run guarantees

  /** A PE that is back holds the contributions of all PEs in rank order. */
  lemma GatherResult<T(!new)>(cfg: Config<T>, run: seq<State<T>>, k: nat, p: nat)
    requires IsRun(cfg, run) && k < |run| && p < N(cfg)
    ensures Shape(cfg, run[k])
    ensures run[k].stage[p].Done? ==> run[k].target[p] == cfg.src
  {
    RunKeepsInv(cfg, run, k);
    assert CastOk(cfg, run[k], p);
  }

  /** The count never exceeds the number of PEs, so the wait for equality cannot be overshot. */
  lemma CountNeverOvershoots<T(!new)>(cfg: Config<T>, run: seq<State<T>>, k: nat)
    requires IsRun(cfg, run) && k < |run|
    ensures 0 <= run[k].count <= N(cfg)
  {
    RunKeepsInv(cfg, run, k);
  }

  /** A PE that is back has a zero flag word, the first PE also a zero count, and they stay so. */
  lemma PSyncIsRestored<T(!new)>(cfg: Config<T>, run: seq<State<T>>, k: nat, p: nat, c: nat)
    requires IsRun(cfg, run) && k < |run| && p < N(cfg) && c < N(cfg)
    ensures Shape(cfg, run[k])
    ensures run[k].stage[p].Done? ==> run[k].word[p] == 0 && !CanLandBFlag(cfg, run[k], p)
    ensures run[k].stage[0].Done? ==> run[k].count == 0 && !CanLandCount(cfg, run[k], c)
  {
    RunKeepsInv(cfg, run, k);
    assert CastOk(cfg, run[k], p) && PushOk(cfg, run[k], c);
  }

  ghost predicate Stuck<T(!new)>(cfg: Config<T>, s: State<T>)
    requires Shape(cfg, s)
  {
    forall p {:trigger CanAdvance(cfg, s, p)} :: 0 <= p < N(cfg) ==>
      && !CanAdvance(cfg, s, p) && !CanLandData(cfg, s, p) && !CanLandCount(cfg, s, p)
      && !CanLandBData(cfg, s, p) && !CanLandBFlag(cfg, s, p)
  }

  lemma StuckRootIsDone<T(!new)>(cfg: Config<T>, s: State<T>)
    requires Inv(cfg, s) && Stuck(cfg, s)
    ensures s.stage[0].Done?
  {
    assert PushOk(cfg, s, 0) && !CanAdvance(cfg, s, 0);
    if s.stage[0].Await? {
      forall i | 0 <= i < N(cfg) ensures s.countIn[Ranks(N(cfg))[i]] {
        assert PushOk(cfg, s, i) && !CanAdvance(cfg, s, i);
      }
      CountAll(Ranks(N(cfg)), s.countIn);
    }
  }

  lemma {:induction false} StuckIsDone<T(!new)>(cfg: Config<T>, s: State<T>, p: nat)
    requires Inv(cfg, s) && Stuck(cfg, s) && p < N(cfg)
    ensures s.stage[p].Done?
  {
    hide CountOk;
    if p == 0 {
      StuckRootIsDone(cfg, s);
    } else {
      var r := cfg.tree.parent[p];
      StuckIsDone(cfg, s, r);
      assert CastOk(cfg, s, r) && CastOk(cfg, s, p) && PushOk(cfg, s, p) && !CanAdvance(cfg, s, p);
    }
  }

  /** No deadlock: the only state in which nothing can happen is the one where every PE is back. */
  lemma NoDeadlock<T(!new)>(cfg: Config<T>, run: seq<State<T>>, k: nat, p: nat)
    requires IsRun(cfg, run) && k < |run| && Shape(cfg, run[k]) && Stuck(cfg, run[k]) && p < N(cfg)
    ensures run[k].stage[p].Done?
  {
    RunKeepsInv(cfg, run, k);
    StuckIsDone(cfg, run[k], p);
  }

  // ------------------------------------------------------------------ every run ends

  /** The steps left to PE p and to its messages. */
  function Todo<T>(s: State<T>, p: nat): nat
    requires p < |s.stage| == |s.dataIn| == |s.countIn| == |s.bDataIn| == |s.bFlagIn|
  {
    8 - Order(s.stage[p]) + Open(s.dataIn[p]) + Open(s.countIn[p]) + Open(s.bDataIn[p]) + Open(s.bFlagIn[p])
  }

  ghost function Todos<T(!new)>(cfg: Config<T>, s: State<T>): (ms: seq<nat>)
    requires Shape(cfg, s)
    ensures |ms| == N(cfg) && forall p :: 0 <= p < N(cfg) ==> ms[p] == Todo(s, p)
  {
    seq(N(cfg), p requires 0 <= p < N(cfg) => Todo(s, p))
  }

  /** Every step does some of the work left to one PE, and adds none to the others. */
  lemma StepIsProgress<T(!new)>(cfg: Config<T>, s: State<T>, e: Event, s': State<T>)
    requires Step(cfg, s, e, s') == true && Shape(cfg, s) && Shape(cfg, s') && e.p < N(cfg)
    ensures Sum(Todos(cfg, s')) < Sum(Todos(cfg, s))
  {
    hide Step, Todo, Open;
    forall q | 0 <= q < N(cfg) ensures if q == e.p then Todo(s', q) < Todo(s, q) else Todo(s', q) == Todo(s, q) {
      StepDoes(cfg, s, e, s', q);
    }
    StepDoes(cfg, s, e, s', e.p);
    SumDrops(Todos(cfg, s), Todos(cfg, s'), e.p);
  }

  lemma StepDoes<T(!new)>(cfg: Config<T>, s: State<T>, e: Event, s': State<T>, q: nat)
    requires Step(cfg, s, e, s') == true && Shape(cfg, s) && Shape(cfg, s') && e.p < N(cfg) && q < N(cfg)
    ensures if q == e.p then Todo(s', q) < Todo(s, q) else Todo(s', q) == Todo(s, q)
  {
    match e
    case PeStep(p) => AdvanceDoes(cfg, s, p, q);
    case DataLands(_) =>
    case CountLands(_) =>
    case BDataLands(_) =>
    case BFlagLands(_) =>
  }

  lemma AdvanceDoes<T(!new)>(cfg: Config<T>, s: State<T>, p: nat, q: nat)
    requires Shape(cfg, s) && p < N(cfg) && CanAdvance(cfg, s, p) && q < N(cfg)
    ensures var s' := Advance(cfg, s, p); if q == p then Todo(s', q) < Todo(s, q) else Todo(s', q) == Todo(s, q)
  {
  }

  /** No run is longer than this. */
  lemma {:induction false} RunsAreBounded<T(!new)>(cfg: Config<T>, run: seq<State<T>>, k: nat)
    requires IsRun(cfg, run) && k < |run|
    ensures Shape(cfg, run[k]) && k + Sum(Todos(cfg, run[k])) <= N(cfg) * 12
  {
    RunKeepsInv(cfg, run, k);
    if k == 0 {
      SumBound(Todos(cfg, run[0]), 12);
    } else {
      RunsAreBounded(cfg, run, k - 1);
      var e :| Step(cfg, run[k - 1], e, run[k]);
      StepIsProgress(cfg, run[k - 1], e, run[k]);
    }
  }

  ghost predicate AllBack<T(!new)>(cfg: Config<T>, s: State<T>)
    requires Shape(cfg, s)
  {
    forall p :: 0 <= p < N(cfg) ==> s.stage[p].Done?
  }

  /** Every run can be continued until every PE is back. */
  lemma {:induction false} RunsComplete<T(!new)>(cfg: Config<T>, run: seq<State<T>>) returns (run': seq<State<T>>)
    requires IsRun(cfg, run)
    ensures IsRun(cfg, run') && run <= run' && Shape(cfg, run'[|run'| - 1])
    ensures AllBack(cfg, run'[|run'| - 1])
    decreases N(cfg) * 12 - |run|
  {
    var s := run[|run| - 1];
    RunsAreBounded(cfg, run, |run| - 1);
    if Stuck(cfg, s) {
      run' := run;
      forall p | 0 <= p < N(cfg) ensures s.stage[p].Done? {
        NoDeadlock(cfg, run, |run| - 1, p);
      }
    } else {
      var s' := NextState(cfg, s);
      RunsAreBounded(cfg, run + [s'], |run|);
      run' := RunsComplete(cfg, run + [s']);
    }
  }

  lemma NextState<T(!new)>(cfg: Config<T>, s: State<T>) returns (s': State<T>)
    requires Shape(cfg, s) && !Stuck(cfg, s)
    ensures Next(cfg, s, s')
  {
    var p :| 0 <= p < N(cfg) && (CanAdvance(cfg, s, p) || CanLandData(cfg, s, p) || CanLandCount(cfg, s, p)
                                 || CanLandBData(cfg, s, p) || CanLandBFlag(cfg, s, p));
    var e;
    if CanAdvance(cfg, s, p) {
      e, s' := PeStep(p), Advance(cfg, s, p);
    } else if CanLandData(cfg, s, p) {
      e, s' := DataLands(p), LandData(cfg, s, p);
    } else if CanLandCount(cfg, s, p) {
      e, s' := CountLands(p), LandCount(cfg, s, p);
    } else if CanLandBData(cfg, s, p) {
      e, s' := BDataLands(p), LandBData(cfg, s, p);
    } else {
      e, s' := BFlagLands(p), LandBFlag(cfg, s, p);
    }
    assert Step(cfg, s, e, s');
  }
}
