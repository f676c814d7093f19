/**
  The recursive-doubling gather of src/collectives.c (fcollect_recdbl), for a power of two of PEs.

  In round i a PE puts the 2^i blocks it has gathered so far to the PE whose rank differs in bit i,
  fences, adds one to that PE's word i, waits for its own word i to be nonzero and takes the one
  off again.  A put is under way from the step that issues it to a later landing; the fence only
  makes the flag land after the data.  T stands for one PE's contribution, a block of `len` bytes.
*/
module RecDblGather {
  import opened Arith
  import opened Hypercube
  import opened Progress

  /** 2^k PEs; src[p] is the contribution of PE p. */
  datatype Config<!T> = Config(k: nat, src: seq<T>)

  ghost predicate WellFormed<T(!new)>(cfg: Config<T>) {
    |cfg.src| == Pow2(cfg.k)
  }

  function N<T>(cfg: Config<T>): nat {
    |cfg.src|
  }

  /** Where a PE stands: in the copy, in the round of that number, in the final quiet, or back. */
  datatype Stage = Copy | Put | Flag | Wait | Clear | Quiet | Done

  /** A put under way: the blocks from `lo` on. */
  datatype Message<T> = Message(lo: nat, blocks: seq<T>)

  /**
    lo[p] is the first block p holds.  sent[(p, i)] is the put p has issued in round i; dataIn and
    flagIn hold (p, i) once that put and its flag have landed.
  */
  datatype State<T> = State(
    stage: seq<Stage>, round: seq<nat>, lo: seq<int>, target: seq<seq<T>>, sync: seq<seq<int>>,
    sent: map<(nat, nat), Message<T>>, dataIn: set<(nat, nat)>, flagIn: set<(nat, nat)>)

  ghost predicate Shape<T(!new)>(cfg: Config<T>, s: State<T>) {
    && WellFormed(cfg)
    && |s.stage| == |s.round| == |s.lo| == |s.target| == |s.sync| == N(cfg)
    && (forall p :: 0 <= p < N(cfg) ==> |s.target[p]| == N(cfg) && |s.sync[p]| == cfg.k)
  }

  predicate InRound(stage: Stage) {
    stage.Put? || stage.Flag? || stage.Wait? || stage.Clear?
  }

  ghost predicate Init<T(!new)>(cfg: Config<T>, s: State<T>) {
    && Shape(cfg, s)
    && (forall p :: 0 <= p < N(cfg) ==> s.stage[p] == Copy && s.round[p] == 0)
    && (forall p, i :: 0 <= p < N(cfg) && 0 <= i < cfg.k ==> s.sync[p][i] == 0)
    && s.sent == map[] && s.dataIn == s.flagIn == {}
  }

  // ------------------------------------------------------------------ the steps

  ghost predicate CanAdvance<T(!new)>(cfg: Config<T>, s: State<T>, p: nat)
    requires Shape(cfg, s) && p < N(cfg)
  {
    match s.stage[p]
    case Copy => true
    case Put => s.round[p] < cfg.k && 0 <= s.lo[p] <= s.lo[p] + Pow2(s.round[p]) <= N(cfg)
    case Flag => true
    case Wait => s.round[p] < cfg.k && s.sync[p][s.round[p]] != 0
    case Clear => s.round[p] < cfg.k
    case Quiet => forall i :: 0 <= i < cfg.k ==> (p, i) in s.dataIn && (p, i) in s.flagIn
    case Done => false
  }

  /** The stage that begins round i, if there is one. */
  function Loop(i: nat, k: nat): Stage {
    if i < k then Put else Quiet
  }

  ghost function Advance<T(!new)>(cfg: Config<T>, s: State<T>, p: nat): State<T>
    requires Shape(cfg, s) && p < N(cfg) && CanAdvance(cfg, s, p)
  {
    var i := s.round[p];
    match s.stage[p]
    case Copy =>
      s.(stage := s.stage[p := Loop(0, cfg.k)], round := s.round[p := 0], lo := s.lo[p := p],
         target := s.target[p := s.target[p][p := cfg.src[p]]])
    case Put =>
      s.(stage := s.stage[p := Flag],
         sent := s.sent[(p, i) := Message(s.lo[p], s.target[p][s.lo[p]..s.lo[p] + Pow2(i)])])
    case Flag => s.(stage := s.stage[p := Wait])
    case Wait => s.(stage := s.stage[p := Clear])
    case Clear =>
      s.(stage := s.stage[p := Loop(i + 1, cfg.k)], round := s.round[p := i + 1],
         lo := s.lo[p := if p > Flip(p, i) then s.lo[p] - Pow2(i) else s.lo[p]],
         sync := s.sync[p := s.sync[p][i := s.sync[p][i] - 1]])
    case Quiet => s.(stage := s.stage[p := Done])
  }

  /** p has issued the flag of round i. */
  ghost predicate Flagged<T(!new)>(cfg: Config<T>, s: State<T>, p: nat, i: nat)
    requires Shape(cfg, s) && p < N(cfg)
  {
    && !s.stage[p].Copy?
    && (s.round[p] > i || (s.round[p] == i && (s.stage[p].Wait? || s.stage[p].Clear?)))
  }

  ghost predicate CanLandData<T(!new)>(cfg: Config<T>, s: State<T>, p: nat, i: nat)
    requires Shape(cfg, s) && p < N(cfg)
  {
    && (p, i) in s.sent && (p, i) !in s.dataIn && Flip(p, i) < N(cfg)
  }

  ghost predicate CanLandFlag<T(!new)>(cfg: Config<T>, s: State<T>, p: nat, i: nat)
    requires Shape(cfg, s) && p < N(cfg)
  {
    && i < cfg.k && Flagged(cfg, s, p, i) && (p, i) in s.dataIn && (p, i) !in s.flagIn && Flip(p, i) < N(cfg)
  }

  /** t with the message written over it. */
  function Overwrite<T>(t: seq<T>, m: Message<T>): (r: seq<T>)
    ensures |r| == |t|
  {
    seq(|t|, b requires 0 <= b < |t| => if m.lo <= b < m.lo + |m.blocks| then m.blocks[b - m.lo] else t[b])
  }

  ghost function LandData<T(!new)>(cfg: Config<T>, s: State<T>, p: nat, i: nat): State<T>
    requires Shape(cfg, s) && p < N(cfg) && CanLandData(cfg, s, p, i)
  {
    var q := Flip(p, i);
    s.(target := s.target[q := Overwrite(s.target[q], s.sent[(p, i)])], dataIn := s.dataIn + {(p, i)})
  }

  ghost function LandFlag<T(!new)>(cfg: Config<T>, s: State<T>, p: nat, i: nat): State<T>
    requires Shape(cfg, s) && p < N(cfg) && CanLandFlag(cfg, s, p, i)
  {
    var q := Flip(p, i);
    s.(sync := s.sync[q := s.sync[q][i := s.sync[q][i] + 1]], flagIn := s.flagIn + {(p, i)})
  }

  datatype Event = PeStep(p: nat) | DataLands(p: nat, i: nat) | FlagLands(p: nat, i: nat)

  ghost predicate Step<T(!new)>(cfg: Config<T>, s: State<T>, e: Event, s': State<T>) {
    && Shape(cfg, s) && e.p < N(cfg)
    && match e
       case PeStep(p) => CanAdvance(cfg, s, p) && s' == Advance(cfg, s, p)
       case DataLands(p, i) => CanLandData(cfg, s, p, i) && s' == LandData(cfg, s, p, i)
       case FlagLands(p, i) => CanLandFlag(cfg, s, p, i) && s' == LandFlag(cfg, s, p, i)
  }

  ghost predicate Next<T(!new)>(cfg: Config<T>, s: State<T>, s': State<T>) {
    exists e :: Step(cfg, s, e, s')
  }

  ghost predicate IsRun<T(!new)>(cfg: Config<T>, run: seq<State<T>>) {
    |run| > 0 && Init(cfg, run[0]) && forall j :: 0 < j < |run| ==> Next(cfg, run[j - 1], run[j])
  }

  // ------------------------------------------------------------------ groups of blocks

  /** The first rank of p's aligned group of 2^i. */
  function Lo(p: nat, i: nat): nat {
    Shift(p, i) * Pow2(i)
  }

  /** Groups are inside the active set, and the partner's group is the other half of the next one. */
  lemma GroupsPair(p: nat, i: nat, k: nat)
    requires p < Pow2(k) && i < k
    ensures Flip(p, i) < Pow2(k) && Flip(Flip(p, i), i) == p && Flip(p, i) != p
    ensures Lo(p, i) + Pow2(i) <= Pow2(k)
    ensures p < Flip(p, i) ==> Lo(Flip(p, i), i) == Lo(p, i) + Pow2(i) && Lo(p, i + 1) == Lo(p, i)
    ensures p > Flip(p, i) ==> Lo(Flip(p, i), i) == Lo(p, i) - Pow2(i) && Lo(p, i + 1) == Lo(p, i) - Pow2(i)
  {
    FlipTwice(p, i);
    FlipStaysBelow(p, i, k);
    FlipSwapsHalves(p, i);
    ShiftHalves(p, i);
    Halves(Shift(p, i), Pow2(i));
    GroupInside(p, i, k);
  }

  lemma Halves(a: nat, m: nat)
    ensures a % 2 == 0 ==> Flip(a, 0) == a + 1 && (a + 1) * m == a * m + m && (a / 2) * (2 * m) == a * m
    ensures a % 2 == 1 ==> Flip(a, 0) == a - 1 && (a - 1) * m == a * m - m && (a / 2) * (2 * m) == a * m - m
  {
    var h := a / 2;
    assert h * (2 * m) == (2 * h) * m;
  }

  lemma {:induction false} GroupInside(p: nat, i: nat, k: nat)
    requires p < Pow2(k) && i <= k
    ensures Lo(p, i) + Pow2(i) <= Pow2(k)
  {
    if i > 0 {
      GroupInside(p / 2, i - 1, k - 1);
      DoubleProduct(Shift(p, i), Pow2(i - 1));
    }
  }

  lemma WholeGroup(p: nat, k: nat)
    requires p < Pow2(k)
    ensures Lo(p, k) == 0
  {
    ShiftToZero(p, k);
  }

  /** A PE's groups grow by enclosing the smaller ones. */
  lemma {:induction false} GroupsNest(p: nat, j: nat, i: nat, k: nat)
    requires p < Pow2(k) && j <= i <= k
    ensures Lo(p, i) <= Lo(p, j) && Lo(p, j) + Pow2(j) <= Lo(p, i) + Pow2(i)
    decreases i
  {
    if j < i {
      GroupsNest(p, j, i - 1, k);
      GroupsPair(p, i - 1, k);
    }
  }

  /** Two ranges without a common block. */
  predicate Disjoint(lo: int, m: nat, lo': int, m': nat) {
    lo + m <= lo' || lo' + m' <= lo
  }

  /** The partner's group of round i is outside all the groups p has had up to round i. */
  lemma PartnerGroupIsOutside(p: nat, j: nat, i: nat, k: nat)
    requires p < Pow2(k) && j <= i < k
    ensures Disjoint(Lo(Flip(p, i), i), Pow2(i), Lo(p, j), Pow2(j))
  {
    GroupsNest(p, j, i, k);
    GroupsPair(p, i, k);
  }

  // ------------------------------------------------------------------ the invariant

  /** t holds blocks lo .. lo + m - 1. */
  ghost predicate Holds<T(!new)>(cfg: Config<T>, t: seq<T>, lo: int, m: nat) {
    0 <= lo <= lo + m <= |t| == N(cfg) && forall b :: lo <= b < lo + m ==> t[b] == cfg.src[b]
  }

  ghost predicate PeOk<T(!new)>(cfg: Config<T>, s: State<T>, p: nat)
    requires Shape(cfg, s) && p < N(cfg)
  {
    && s.round[p] <= cfg.k
    && (InRound(s.stage[p]) ==> s.round[p] < cfg.k)
    && (s.stage[p].Copy? ==> s.round[p] == 0)
    && (s.stage[p].Quiet? || s.stage[p].Done? ==> s.round[p] == cfg.k)
    && (!s.stage[p].Copy? ==> s.lo[p] == Lo(p, s.round[p]) && Holds(cfg, s.target[p], s.lo[p], Pow2(s.round[p])))
    && (s.stage[p].Clear? ==> (Flip(p, s.round[p]), s.round[p]) in s.flagIn)
    && (s.stage[p].Done? ==> forall i :: 0 <= i < cfg.k ==> (p, i) in s.flagIn)
  }

  /** p has issued the put of round i. */
  ghost predicate Issued<T(!new)>(cfg: Config<T>, s: State<T>, p: nat, i: nat)
    requires Shape(cfg, s) && p < N(cfg)
  {
    Flagged(cfg, s, p, i) || (s.stage[p].Flag? && s.round[p] == i)
  }

  ghost predicate MessageOk<T(!new)>(cfg: Config<T>, s: State<T>, p: nat, i: nat)
    requires Shape(cfg, s) && p < N(cfg) && i < cfg.k
  {
    var q := Flip(p, i);
    && ((p, i) in s.sent <==> Issued(cfg, s, p, i))
    && ((p, i) in s.sent ==> s.sent[(p, i)].lo == Lo(p, i) && Lo(p, i) + Pow2(i) <= N(cfg)
                             && s.sent[(p, i)].blocks == cfg.src[Lo(p, i)..Lo(p, i) + Pow2(i)])
    && ((p, i) in s.dataIn ==> (p, i) in s.sent && q < N(cfg) && Holds(cfg, s.target[q], Lo(p, i), Pow2(i)))
    && ((p, i) in s.flagIn ==> (p, i) in s.dataIn && Flagged(cfg, s, p, i))
  }

  /** Word i of p: one if the partner's flag has landed, less one once p has taken it off. */
  ghost predicate WordOk<T(!new)>(cfg: Config<T>, s: State<T>, p: nat, i: nat)
    requires Shape(cfg, s) && p < N(cfg) && i < cfg.k
  {
    var q := Flip(p, i);
    && (s.round[p] > i ==> (q, i) in s.flagIn)
    && s.sync[p][i] == if (q, i) in s.flagIn && s.round[p] <= i then 1 else 0
  }

  ghost predicate Inv<T(!new)>(cfg: Config<T>, s: State<T>) {
    && Shape(cfg, s)
    && (forall p {:trigger PeOk(cfg, s, p)} :: 0 <= p < N(cfg) ==> PeOk(cfg, s, p))
    && (forall p, i {:trigger MessageOk(cfg, s, p, i)} :: 0 <= p < N(cfg) && 0 <= i < cfg.k ==> MessageOk(cfg, s, p, i))
    && (forall p, i {:trigger WordOk(cfg, s, p, i)} :: 0 <= p < N(cfg) && 0 <= i < cfg.k ==> WordOk(cfg, s, p, i))
  }

  lemma InitIsInv<T(!new)>(cfg: Config<T>, s: State<T>)
    requires Init(cfg, s)
    ensures Inv(cfg, s) == true
  {
  }

  /** What a step of p's own leaves alone: the other PEs, and everything that has landed. */
  lemma AdvanceKeepsOthers<T(!new)>(cfg: Config<T>, s: State<T>, p: nat, q: nat)
    requires Inv(cfg, s) && p < N(cfg) && CanAdvance(cfg, s, p) && q < N(cfg) && q != p
    ensures PeOk(cfg, Advance(cfg, s, p), q) == true
  {
    hide Flip, Lo, Pow2;
    assert PeOk(cfg, s, q);
  }

  lemma AdvanceKeepsPe<T(!new)>(cfg: Config<T>, s: State<T>, p: nat)
    requires Inv(cfg, s) && p < N(cfg) && CanAdvance(cfg, s, p)
    ensures PeOk(cfg, Advance(cfg, s, p), p) == true
  {
    hide Flip, Lo, Shift;
    var i := s.round[p];
    assert PeOk(cfg, s, p);
    if s.stage[p].Copy? {
      LoneGroup(p);
    } else if s.stage[p].Wait? {
      assert WordOk(cfg, s, p, i);
    } else if s.stage[p].Clear? {
      GroupsPair(p, i, cfg.k);
      assert MessageOk(cfg, s, Flip(p, i), i);
    } else if s.stage[p].Quiet? {
      assert forall j :: 0 <= j < cfg.k ==> (p, j) in s.flagIn;
    }
  }

  lemma LoneGroup(p: nat)
    ensures Lo(p, 0) == p && Pow2(0) == 1
  {
  }

  lemma AdvanceKeepsMessages<T(!new)>(cfg: Config<T>, s: State<T>, p: nat, q: nat, i: nat)
    requires Inv(cfg, s) && p < N(cfg) && CanAdvance(cfg, s, p) && q < N(cfg) && i < cfg.k
    ensures MessageOk(cfg, Advance(cfg, s, p), q, i) == true
  {
    hide Flip, Lo, Shift, Pow2, Holds;
    assert PeOk(cfg, s, p) && MessageOk(cfg, s, q, i);
    if (q, i) in s.dataIn { AdvanceKeepsHeld(cfg, s, p, Flip(q, i), Lo(q, i), Pow2(i)); }
    if q == p && s.stage[p].Put? && i == s.round[p] {
      HeldIsSource(cfg, s.target[p], s.lo[p], Pow2(i));
    }
  }

  lemma HeldIsSource<T(!new)>(cfg: Config<T>, t: seq<T>, lo: nat, m: nat)
    requires |t| == N(cfg) == |cfg.src| && lo + m <= N(cfg) && Holds(cfg, t, lo, m)
    ensures t[lo..lo + m] == cfg.src[lo..lo + m]
  {
  }

  /** A step changes a target only by the PE's own block. */
  lemma AdvanceKeepsHeld<T(!new)>(cfg: Config<T>, s: State<T>, p: nat, q: nat, lo: nat, m: nat)
    requires Inv(cfg, s) && p < N(cfg) && CanAdvance(cfg, s, p) && q < N(cfg) && lo + m <= N(cfg) && Holds(cfg, s.target[q], lo, m)
    ensures |Advance(cfg, s, p).target| == N(cfg) && |Advance(cfg, s, p).target[q]| == N(cfg)
    ensures Holds(cfg, Advance(cfg, s, p).target[q], lo, m)
  {
    hide MessageOk, PeOk, Flip, Lo, Pow2;
  }

  lemma AdvanceKeepsWords<T(!new)>(cfg: Config<T>, s: State<T>, p: nat, q: nat, i: nat)
    requires Inv(cfg, s) && p < N(cfg) && CanAdvance(cfg, s, p) && q < N(cfg) && i < cfg.k
    ensures WordOk(cfg, Advance(cfg, s, p), q, i) == true
  {
    hide Flip, Lo, Shift, Pow2;
    assert PeOk(cfg, s, p) && WordOk(cfg, s, q, i);
  }

  /** A PE's own step. */
  lemma AdvanceKeepsInv<T(!new)>(cfg: Config<T>, s: State<T>, p: nat)
    requires Inv(cfg, s) && p < N(cfg) && CanAdvance(cfg, s, p)
    ensures Inv(cfg, Advance(cfg, s, p)) == true
  {
    hide PeOk, MessageOk, WordOk, CanAdvance;
    var s' := Advance(cfg, s, p);
    AdvanceKeepsShape(cfg, s, p);
    forall q | 0 <= q < N(cfg) ensures PeOk(cfg, s', q) {
      if q == p { AdvanceKeepsPe(cfg, s, p); } else { AdvanceKeepsOthers(cfg, s, p, q); }
    }
    forall q, i | 0 <= q < N(cfg) && 0 <= i < cfg.k ensures MessageOk(cfg, s', q, i) {
      AdvanceKeepsMessages(cfg, s, p, q, i);
    }
    forall q, i | 0 <= q < N(cfg) && 0 <= i < cfg.k ensures WordOk(cfg, s', q, i) {
      AdvanceKeepsWords(cfg, s, p, q, i);
    }
  }

  lemma AdvanceKeepsShape<T(!new)>(cfg: Config<T>, s: State<T>, p: nat)
    requires Shape(cfg, s) && p < N(cfg) && CanAdvance(cfg, s, p)
    ensures Shape(cfg, Advance(cfg, s, p))
  {
  }

  lemma LandDataKeepsInv<T(!new)>(cfg: Config<T>, s: State<T>, p: nat, i: nat)
    requires Inv(cfg, s) && p < N(cfg) && i < cfg.k && CanLandData(cfg, s, p, i)
    ensures Inv(cfg, LandData(cfg, s, p, i)) == true
  {
    var s' := LandData(cfg, s, p, i);
    assert MessageOk(cfg, s, p, i);
    forall q | 0 <= q < N(cfg) ensures PeOk(cfg, s', q) {
      assert PeOk(cfg, s, q);
    }
    forall q, j | 0 <= q < N(cfg) && 0 <= j < cfg.k ensures MessageOk(cfg, s', q, j) {
      assert MessageOk(cfg, s, q, j);
    }
    forall q, j | 0 <= q < N(cfg) && 0 <= j < cfg.k ensures WordOk(cfg, s', q, j) {
      assert WordOk(cfg, s, q, j);
    }
  }

  lemma LandFlagKeepsInv<T(!new)>(cfg: Config<T>, s: State<T>, p: nat, i: nat)
    requires Inv(cfg, s) && p < N(cfg) && CanLandFlag(cfg, s, p, i)
    ensures Inv(cfg, LandFlag(cfg, s, p, i)) == true
  {
    var s' := LandFlag(cfg, s, p, i);
    assert MessageOk(cfg, s, p, i);
    GroupsPair(p, i, cfg.k);
    forall q | 0 <= q < N(cfg) ensures PeOk(cfg, s', q) {
      assert PeOk(cfg, s, q);
    }
    forall q, j | 0 <= q < N(cfg) && 0 <= j < cfg.k ensures MessageOk(cfg, s', q, j) {
      assert MessageOk(cfg, s, q, j);
    }
    forall q, j | 0 <= q < N(cfg) && 0 <= j < cfg.k ensures WordOk(cfg, s', q, j) {
      assert WordOk(cfg, s, q, j);
      GroupsPair(q, j, cfg.k);
    }
  }

  /** Every state of every run satisfies the invariant, and only rounds below k are ever sent. */
  lemma {:induction false} RunKeepsInv<T(!new)>(cfg: Config<T>, run: seq<State<T>>, j: nat)
    requires IsRun(cfg, run) && j < |run|
    ensures Inv(cfg, run[j]) == true
    ensures forall id :: id in run[j].sent ==> id.1 < cfg.k
  {
    if j == 0 {
      InitIsInv(cfg, run[0]);
    } else {
      RunKeepsInv(cfg, run, j - 1);
      var e :| Step(cfg, run[j - 1], e, run[j]);
      match e
      case PeStep(p) => AdvanceKeepsInv(cfg, run[j - 1], p);
      case DataLands(p, i) =>
        assert (p, i) in run[j - 1].sent;
        LandDataKeepsInv(cfg, run[j - 1], p, i);
      case FlagLands(p, i) => LandFlagKeepsInv(cfg, run[j - 1], p, i);
    }
  }

  // ------------------------------------------------------------------ what a run guarantees

  /** A PE that is back holds the contributions of all PEs in rank order. */
  lemma GatherResult<T(!new)>(cfg: Config<T>, run: seq<State<T>>, j: nat, p: nat)
    requires IsRun(cfg, run) && j < |run| && p < N(cfg)
    ensures Shape(cfg, run[j])
    ensures run[j].stage[p].Done? ==> run[j].target[p] == cfg.src
  {
    RunKeepsInv(cfg, run, j);
    assert PeOk(cfg, run[j], p);
    WholeGroup(p, cfg.k);
  }

  /** A PE that starts round i holds exactly its aligned group of 2^i contributions as what it sends. */
  lemma RoundHoldsGroup<T(!new)>(cfg: Config<T>, run: seq<State<T>>, j: nat, p: nat, b: nat)
    requires IsRun(cfg, run) && j < |run| && p < N(cfg)
    ensures Shape(cfg, run[j])
    ensures var s := run[j];
      s.stage[p].Put? && Shift(b, s.round[p]) == Shift(p, s.round[p])
      ==> s.lo[p] <= b < s.lo[p] + Pow2(s.round[p]) && b < N(cfg) && s.target[p][b] == cfg.src[b]
  {
    RunKeepsInv(cfg, run, j);
    var s := run[j];
    assert PeOk(cfg, s, p);
    if s.stage[p].Put? && Shift(b, s.round[p]) == Shift(p, s.round[p]) {
      ShiftIsQuotient(b, s.round[p]);
      Halves(Shift(p, s.round[p]), Pow2(s.round[p]));
    }
  }

  /**
    No interfering write.  While a put is under way, its receiver has not gone past the round of
    the put, and the blocks that will be written are neither among those the receiver holds (or
    will copy from its source), nor among those of a put of its own that is still under way, nor
    among those of another put that is under way to it.
  */
  lemma NothingHeldIsOverwritten<T(!new)>(cfg: Config<T>, run: seq<State<T>>, j: nat, p: nat, i: nat)
    requires IsRun(cfg, run) && j < |run| && (p, i) in run[j].sent && (p, i) !in run[j].dataIn && p < N(cfg)
    ensures Shape(cfg, run[j]) && Flip(p, i) < N(cfg)
    ensures var s, q := run[j], Flip(p, i); var m := s.sent[(p, i)];
            && s.round[q] <= i
            && Disjoint(m.lo, |m.blocks|, if s.stage[q].Copy? then q else s.lo[q], Pow2(s.round[q]))
            && (forall h :: (q, h) in s.sent && (q, h) !in s.dataIn ==>
                  Disjoint(m.lo, |m.blocks|, s.sent[(q, h)].lo, |s.sent[(q, h)].blocks|))
            && (forall r, h :: (r, h) in s.sent && (r, h) !in s.dataIn && (r, h) != (p, i) && r < N(cfg) && Flip(r, h) == q ==>
                  Disjoint(m.lo, |m.blocks|, s.sent[(r, h)].lo, |s.sent[(r, h)].blocks|))
  {
    RunKeepsInv(cfg, run, j);
    var s, q := run[j], Flip(p, i);
    assert (p, i).1 < cfg.k;
    GroupsPair(p, i, cfg.k);
    MessageRange(cfg, s, p, i);
    assert PeOk(cfg, s, q) && WordOk(cfg, s, q, i) && MessageOk(cfg, s, p, i);
    assert s.round[q] <= i;
    LoneGroup(q);
    PartnerGroupIsOutside(q, s.round[q], i, cfg.k);
    var m := s.sent[(p, i)];
    forall h | (q, h) in s.sent && (q, h) !in s.dataIn
      ensures Disjoint(m.lo, |m.blocks|, s.sent[(q, h)].lo, |s.sent[(q, h)].blocks|)
    {
      assert (q, h).1 < cfg.k;
      MessageRange(cfg, s, q, h);
      PartnerGroupIsOutside(q, h, i, cfg.k);
    }
    forall r, h | (r, h) in s.sent && (r, h) !in s.dataIn && (r, h) != (p, i) && r < N(cfg) && Flip(r, h) == q
      ensures Disjoint(m.lo, |m.blocks|, s.sent[(r, h)].lo, |s.sent[(r, h)].blocks|)
    {
      assert (r, h).1 < cfg.k;
      GroupsPair(r, h, cfg.k);
      MessageRange(cfg, s, r, h);
      PartnersDiffer(q, i, h, cfg.k);
    }
  }

  /** A put of round h carries its sender's group of that round, and rounds are sent in order. */
  lemma MessageRange<T(!new)>(cfg: Config<T>, s: State<T>, p: nat, h: nat)
    requires Inv(cfg, s) && p < N(cfg) && h < cfg.k && (p, h) in s.sent
    ensures s.sent[(p, h)].lo == Lo(p, h) && |s.sent[(p, h)].blocks| == Pow2(h) && h <= s.round[p]
  {
    assert MessageOk(cfg, s, p, h);
  }

  /** The groups that two different partners of q send are apart: one round's lies in q's own group of the other. */
  lemma PartnersDiffer(q: nat, i: nat, h: nat, k: nat)
    requires q < Pow2(k) && i < k && h < k && i != h
    ensures Disjoint(Lo(Flip(q, i), i), Pow2(i), Lo(Flip(q, h), h), Pow2(h))
  {
    hide Lo, Flip;
    if i < h { EarlierIsInside(q, i, h, k); } else { EarlierIsInside(q, h, i, k); }
  }

  lemma EarlierIsInside(q: nat, a: nat, b: nat, k: nat)
    requires q < Pow2(k) && a < b < k
    ensures Disjoint(Lo(Flip(q, b), b), Pow2(b), Lo(Flip(q, a), a), Pow2(a))
  {
    hide Lo, Flip;
    GroupsPair(q, a, k);
    GroupsNest(q, a + 1, b, k);
    PartnerGroupIsOutside(q, b, b, k);
    assert Pow2(a + 1) == 2 * Pow2(a);
  }

  /** Once a PE is back, its pSync words are zero and stay so, and nothing it sent is under way. */
  lemma PSyncIsRestored<T(!new)>(cfg: Config<T>, run: seq<State<T>>, j: nat, p: nat, i: nat)
    requires IsRun(cfg, run) && j < |run| && p < N(cfg) && i < cfg.k
    ensures Shape(cfg, run[j])
    ensures 0 <= run[j].sync[p][i] <= 1
    ensures run[j].stage[p].Done? ==> run[j].sync[p][i] == 0 && (p, i) in run[j].dataIn && (p, i) in run[j].flagIn
  {
    RunKeepsInv(cfg, run, j);
    assert PeOk(cfg, run[j], p) && WordOk(cfg, run[j], p, i) && MessageOk(cfg, run[j], p, i);
  }

  ghost predicate Stuck<T(!new)>(cfg: Config<T>, s: State<T>)
    requires Shape(cfg, s)
  {
    && (forall p {:trigger s.stage[p]} :: 0 <= p < N(cfg) ==> !CanAdvance(cfg, s, p))
    && (forall p, i {:trigger CanLandData(cfg, s, p, i)} :: 0 <= p < N(cfg) && 0 <= i < cfg.k ==> !CanLandData(cfg, s, p, i))
    && (forall p, i {:trigger CanLandFlag(cfg, s, p, i)} :: 0 <= p < N(cfg) && 0 <= i < cfg.k ==> !CanLandFlag(cfg, s, p, i))
  }

  /** The PE that finished round i - 1 first had been answered by its partner. */
  lemma StuckPair<T(!new)>(cfg: Config<T>, s: State<T>, p: nat, q: nat, i: nat)
    requires Inv(cfg, s) && Stuck(cfg, s) && p < N(cfg) && q < N(cfg) && i < cfg.k
    requires q == Flip(p, i) && p == Flip(q, i) && s.round[q] >= i && !s.stage[p].Copy? && !s.stage[q].Copy?
    ensures s.round[p] != i
  {
    hide Flip, Lo, Shift, Pow2, Holds;
    StuckWaits(cfg, s, p);
    StuckWaits(cfg, s, q);
    assert MessageOk(cfg, s, q, i) && WordOk(cfg, s, p, i);
    assert !CanLandData(cfg, s, q, i) && !CanLandFlag(cfg, s, q, i);
  }

  /** A PE that cannot move waits for its word or is in the final quiet or back. */
  lemma StuckWaits<T(!new)>(cfg: Config<T>, s: State<T>, p: nat)
    requires Inv(cfg, s) && Stuck(cfg, s) && p < N(cfg)
    ensures s.stage[p].Wait? || s.stage[p].Quiet? || s.stage[p].Done?
    ensures s.stage[p].Wait? ==> s.round[p] < cfg.k && s.sync[p][s.round[p]] == 0
    ensures s.round[p] < cfg.k ==> s.stage[p].Wait?
  {
    hide Flip, Lo, Shift, Pow2;
    assert PeOk(cfg, s, p) && !CanAdvance(cfg, s, p);
  }

  /** In a stuck state every PE has finished every round. */
  lemma {:induction false} StuckPastRound<T(!new)>(cfg: Config<T>, s: State<T>, p: nat, i: nat)
    requires Inv(cfg, s) && Stuck(cfg, s) && p < N(cfg) && i <= cfg.k
    ensures s.round[p] >= i && !s.stage[p].Copy?
    decreases i
  {
    hide Flip, Lo, Shift, PeOk, MessageOk, WordOk, Stuck;
    StuckWaits(cfg, s, p);
    if i > 0 {
      StuckPastRound(cfg, s, p, i - 1);
      GroupsPair(p, i - 1, cfg.k);
      var q := Flip(p, i - 1);
      StuckPastRound(cfg, s, q, i - 1);
      StuckPair(cfg, s, p, q, i - 1);
    }
  }

  /** No deadlock: the only state in which nothing can happen is the one where every PE is back. */
  lemma NoDeadlock<T(!new)>(cfg: Config<T>, run: seq<State<T>>, j: nat, p: nat)
    requires IsRun(cfg, run) && j < |run| && Shape(cfg, run[j]) && Stuck(cfg, run[j]) && p < N(cfg)
    ensures run[j].stage[p].Done?
  {
    RunKeepsInv(cfg, run, j);
    var s := run[j];
    StuckPastRound(cfg, s, p, cfg.k);
    assert PeOk(cfg, s, p) && !CanAdvance(cfg, s, p);
    if s.stage[p].Quiet? {
      forall i | 0 <= i < cfg.k ensures (p, i) in s.dataIn && (p, i) in s.flagIn {
        GroupsPair(p, i, cfg.k);
        assert MessageOk(cfg, s, p, i);
        assert !CanLandData(cfg, s, p, i) && !CanLandFlag(cfg, s, p, i);
      }
    }
  }

  // ------------------------------------------------------------------ every run ends

  /** The steps PE p still has to make. */
  function StepsLeft(stage: Stage, round: nat, k: nat): nat {
    var left := if round < k then 4 * (k - round) else 0;
    match stage
    case Copy => 4 * k + 2
    case Put => left + 1
    case Flag => left
    case Wait => if left > 0 then left - 1 else 0
    case Clear => if left > 1 then left - 2 else 0
    case Quiet => 1
    case Done => 0
  }

  /** The steps left to PE p and to what it sends. */
  ghost function Todo<T(!new)>(cfg: Config<T>, s: State<T>, p: nat): nat
    requires Shape(cfg, s) && p < N(cfg)
  {
    StepsLeft(s.stage[p], s.round[p], cfg.k) + Missing(p, cfg.k, s.dataIn) + Missing(p, cfg.k, s.flagIn)
  }

  ghost function Todos<T(!new)>(cfg: Config<T>, s: State<T>): (ms: seq<nat>)
    requires Shape(cfg, s)
    ensures |ms| == N(cfg) && forall p :: 0 <= p < N(cfg) ==> ms[p] == Todo(cfg, s, p)
  {
    seq(N(cfg), p requires 0 <= p < N(cfg) => Todo(cfg, s, p))
  }

  /** Puts are issued in rounds only. */
  ghost predicate SentInRounds<T(!new)>(cfg: Config<T>, s: State<T>) {
    forall p, i {:trigger (p, i) in s.sent} :: (p, i) in s.sent ==> i < cfg.k
  }

  lemma {:induction false} RunSendsInRounds<T(!new)>(cfg: Config<T>, run: seq<State<T>>, j: nat)
    requires IsRun(cfg, run) && j < |run|
    ensures SentInRounds(cfg, run[j])
  {
    if j > 0 {
      RunSendsInRounds(cfg, run, j - 1);
      assert Next(cfg, run[j - 1], run[j]);
      var e :| Step(cfg, run[j - 1], e, run[j]);
    }
  }

  lemma StepDoes<T(!new)>(cfg: Config<T>, s: State<T>, e: Event, s': State<T>, q: nat)
    requires Step(cfg, s, e, s') == true && Inv(cfg, s) == true && SentInRounds(cfg, s) && Shape(cfg, s) && Shape(cfg, s') && e.p < N(cfg) && q < N(cfg)
    ensures if q == e.p then Todo(cfg, s', q) < Todo(cfg, s, q) else Todo(cfg, s', q) == Todo(cfg, s, q)
  {
    hide PeOk, MessageOk, WordOk, Flagged;
    match e
    case PeStep(p) =>
      AdvanceDoes(cfg, s, p, q);
    case DataLands(p, i) =>
      if q == p { MissingDrops(p, cfg.k, s.dataIn, i); } else { MissingStays(q, cfg.k, s.dataIn, p, i); }
    case FlagLands(p, i) =>
      if q == p { MissingDrops(p, cfg.k, s.flagIn, i); } else { MissingStays(q, cfg.k, s.flagIn, p, i); }
  }

  lemma AdvanceDoes<T(!new)>(cfg: Config<T>, s: State<T>, p: nat, q: nat)
    requires Inv(cfg, s) == true && Shape(cfg, s) && p < N(cfg) && CanAdvance(cfg, s, p) && q < N(cfg) && Shape(cfg, Advance(cfg, s, p))
    ensures var s' := Advance(cfg, s, p); if q == p then Todo(cfg, s', q) < Todo(cfg, s, q) else Todo(cfg, s', q) == Todo(cfg, s, q)
  {
    assert PeOk(cfg, s, p);
    hide Missing, MessageOk, WordOk, Holds;
  }

  /** Every step does some of the work left to one PE, and adds none to the others. */
  lemma StepIsProgress<T(!new)>(cfg: Config<T>, s: State<T>, e: Event, s': State<T>)
    requires Step(cfg, s, e, s') == true && Inv(cfg, s) == true && SentInRounds(cfg, s) && Shape(cfg, s) && Shape(cfg, s') && e.p < N(cfg)
    ensures Sum(Todos(cfg, s')) < Sum(Todos(cfg, s))
  {
    hide Step, Todo, Open, Inv;
    forall q | 0 <= q < N(cfg) ensures if q == e.p then Todo(cfg, s', q) < Todo(cfg, s, q) else Todo(cfg, s', q) == Todo(cfg, s, q) {
      StepDoes(cfg, s, e, s', q);
    }
    StepDoes(cfg, s, e, s', e.p);
    SumDrops(Todos(cfg, s), Todos(cfg, s'), e.p);
  }

  lemma TodoBound<T(!new)>(cfg: Config<T>, s: State<T>, p: nat)
    requires Shape(cfg, s) && p < N(cfg)
    ensures Todo(cfg, s, p) <= 6 * cfg.k + 2
  {
    MissingBound(p, cfg.k, s.dataIn);
    MissingBound(p, cfg.k, s.flagIn);
  }

  /** No run is longer than this. */
  lemma {:induction false} RunsAreBounded<T(!new)>(cfg: Config<T>, run: seq<State<T>>, j: nat)
    requires IsRun(cfg, run) && j < |run|
    ensures Shape(cfg, run[j]) && j + Sum(Todos(cfg, run[j])) <= N(cfg) * (6 * cfg.k + 2)
  {
    RunKeepsInv(cfg, run, j);
    hide Todo, PeOk, MessageOk, WordOk, Step;
    if j == 0 {
      forall p | 0 <= p < N(cfg) ensures Todo(cfg, run[0], p) <= 6 * cfg.k + 2 {
        TodoBound(cfg, run[0], p);
      }
      SumBound(Todos(cfg, run[0]), 6 * cfg.k + 2);
    } else {
      RunsAreBounded(cfg, run, j - 1);
      RunKeepsInv(cfg, run, j - 1);
      RunSendsInRounds(cfg, run, j - 1);
      assert Next(cfg, run[j - 1], run[j]);
      var e :| Step(cfg, run[j - 1], e, run[j]);
      StepHasPe(cfg, run[j - 1], e, run[j]);
      StepIsProgress(cfg, run[j - 1], e, run[j]);
    }
  }

  lemma StepHasPe<T(!new)>(cfg: Config<T>, s: State<T>, e: Event, s': State<T>)
    requires Step(cfg, s, e, s')
    ensures e.p < N(cfg)
  {
  }

  ghost predicate AllBack<T(!new)>(cfg: Config<T>, s: State<T>)
    requires Shape(cfg, s)
  {
    forall p :: 0 <= p < N(cfg) ==> s.stage[p].Done?
  }

  /** Every run can be continued until every PE is back. */
  lemma {:induction false} RunsComplete<T(!new)>(cfg: Config<T>, run: seq<State<T>>) returns (run': seq<State<T>>)
    requires IsRun(cfg, run)
    ensures IsRun(cfg, run') && run <= run' && Shape(cfg, run'[|run'| - 1])
    ensures AllBack(cfg, run'[|run'| - 1])
    decreases N(cfg) * (6 * cfg.k + 2) - |run|
  {
    hide Init, Shape, Next, Stuck, AllBack;
    var s := run[|run| - 1];
    RunsAreBounded(cfg, run, |run| - 1);
    if Stuck(cfg, s) {
      run' := run;
      StuckAllBack(cfg, run);
    } else {
      var s' := NextState(cfg, s);
      RunsAreBounded(cfg, run + [s'], |run|);
      run' := RunsComplete(cfg, run + [s']);
    }
  }

  lemma StuckAllBack<T(!new)>(cfg: Config<T>, run: seq<State<T>>)
    requires IsRun(cfg, run) && Shape(cfg, run[|run| - 1]) && Stuck(cfg, run[|run| - 1])
    ensures AllBack(cfg, run[|run| - 1])
  {
    var s := run[|run| - 1];
    forall p | 0 <= p < N(cfg) ensures s.stage[p].Done? {
      NoDeadlock(cfg, run, |run| - 1, p);
    }
  }

  lemma NextState<T(!new)>(cfg: Config<T>, s: State<T>) returns (s': State<T>)
    requires Shape(cfg, s) && !Stuck(cfg, s)
    ensures Next(cfg, s, s') == true
  {
    var e;
    if p: nat :| p < N(cfg) && CanAdvance(cfg, s, p) {
      e, s' := PeStep(p), Advance(cfg, s, p);
    } else if p: nat, i: nat :| p < N(cfg) && i < cfg.k && CanLandData(cfg, s, p, i) {
      e, s' := DataLands(p, i), LandData(cfg, s, p, i);
    } else {
      var p: nat, i: nat :| p < N(cfg) && i < cfg.k && CanLandFlag(cfg, s, p, i);
      e, s' := FlagLands(p, i), LandFlag(cfg, s, p, i);
    }
    assert Step(cfg, s, e, s');
  }
}
