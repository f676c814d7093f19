/**
  The ring all-reduce and the ring fixed-size gather of src/collectives.c.

  Both send in one direction only.  In round h, PE p puts chunk (p - h) mod n to the PE after
  it, fences, adds 1 to a pSync word there, and waits for the same from the PE before it.  The
  all-reduce makes 2(n - 1) rounds and folds its own contribution into the chunk it received
  in each of the first n - 1; the gather makes n - 1 rounds and never folds.

  A put is non-blocking: it is issued in one step and its data reaches the neighbour in a later
  step, however much later.  The fence only orders a put before the flag that follows it and
  before later puts to the same PE.  PEs are named by their rank in the active set.
*/
module RingCollective {
  import opened Arith
  import opened ChunkLayout
  import opened Progress
  import opened Reduction

  datatype Kind = AllReduce | Gather

  /**
    One collective call: n PEs, `count` elements in the target buffer, the operator, and what
    PE p contributes.  A gather reads only chunk p of src[p].  In an all-reduce with inPlace the
    caller passed the same buffer as target and source.
  */
  datatype Config<!T> = Config(
    kind: Kind, n: nat, count: nat, op: (T, T) -> T, src: seq<seq<T>>, inPlace: bool)

  predicate WellFormed<T>(cfg: Config<T>) {
    && cfg.n >= 2
    && |cfg.src| == cfg.n
    && (forall p :: 0 <= p < cfg.n ==> |cfg.src[p]| == cfg.count)
    && (cfg.kind.Gather? ==> !cfg.inPlace)
  }

  function Rounds<T>(cfg: Config<T>): nat
    requires WellFormed(cfg)
  {
    if cfg.kind.AllReduce? then 2 * (cfg.n - 1) else cfg.n - 1
  }

  datatype Pc =
    | Start    // copy: a private copy of the source (in place), or own block into the target (gather)
    | Sync     // in place only: the barrier after the copy
    | Put      // issue the put of this round
    | Flag     // fence, issue the add of this round
    | Wait     // spin on pSync
    | Reduce   // fold the received chunk
    | Reset    // write 0 to the pSync word of the phase that ended
    | Done

  /**
    round[p] counts the rounds p has finished.  landed[p] and flagged[p] count the puts and the
    adds issued by p that have reached the PE after it.
  */
  datatype State<T> = State(
    pc: seq<Pc>, round: seq<nat>, work: seq<seq<T>>, target: seq<seq<T>>,
    landed: seq<nat>, flagged: seq<nat>, sync0: seq<int>, sync1: seq<int>)

  predicate Shape<T>(cfg: Config<T>, s: State<T>) {
    && WellFormed(cfg)
    && |s.pc| == |s.round| == |s.work| == |s.target| == cfg.n
    && |s.landed| == |s.flagged| == |s.sync0| == |s.sync1| == cfg.n
    && (forall p :: 0 <= p < cfg.n ==> |s.work[p]| == cfg.count)
    && (forall p :: 0 <= p < cfg.n ==> |s.target[p]| == cfg.count)
  }

  ghost predicate Init<T(!new)>(cfg: Config<T>, s: State<T>) {
    && Shape(cfg, s)
    && (forall p :: 0 <= p < cfg.n ==>
          s.pc[p] == Start && s.round[p] == 0 && s.landed[p] == 0 && s.flagged[p] == 0)
    && (forall p :: 0 <= p < cfg.n ==> s.sync0[p] == 0 && s.sync1[p] == 0)
    && (forall p :: 0 <= p < cfg.n ==>
          if cfg.inPlace then s.target[p] == cfg.src[p] else s.work[p] == cfg.src[p])
  }

  function CopyChunk<T>(from: seq<T>, to: seq<T>, c: nat, n: nat): (r: seq<T>)
    requires n > 0 && |from| == |to|
    ensures |r| == |to|
    ensures forall e :: 0 <= e < |to| ==> r[e] == if InChunk(e, c, |to|, n) then from[e] else to[e]
  {
    seq(|to|, e requires 0 <= e < |to| => if InChunk(e, c, |to|, n) then from[e] else to[e])
  }

  function ReduceChunk<T>(op: (T, T) -> T, from: seq<T>, to: seq<T>, c: nat, n: nat): (r: seq<T>)
    requires n > 0 && |from| == |to|
    ensures |r| == |to|
    ensures forall e :: 0 <= e < |to| ==> r[e] == if InChunk(e, c, |to|, n) then op(to[e], from[e]) else to[e]
  {
    seq(|to|, e requires 0 <= e < |to| => if InChunk(e, c, |to|, n) then op(to[e], from[e]) else to[e])
  }

  function Left(p: nat, n: nat): (r: nat)
    requires n > 0
    ensures r < n
  {
    Before(p, 1, n)
  }

  function Right(p: nat, n: nat): (r: nat)
    requires n > 0
    ensures r < n
  {
    (p + 1) % n
  }

  /** Puts, then adds, that p has issued so far. */
  function PutsIssued<T>(s: State<T>, p: nat): nat
    requires p < |s.pc| == |s.round|
  {
    s.round[p] + (if s.pc[p].Flag? || s.pc[p].Wait? || s.pc[p].Reduce? then 1 else 0)
  }

  function FlagsIssued<T>(s: State<T>, p: nat): nat
    requires p < |s.pc| == |s.round|
  {
    s.round[p] + (if s.pc[p].Wait? || s.pc[p].Reduce? then 1 else 0)
  }

  /** Rounds h >= n - 1 of the all-reduce count on the second pSync word. */
  predicate SecondPhase<T>(cfg: Config<T>, h: nat)
    requires WellFormed(cfg)
  {
    cfg.kind.AllReduce? && h >= cfg.n - 1
  }

  predicate CanAdvance<T>(cfg: Config<T>, s: State<T>, p: nat)
    requires Shape(cfg, s) && p < cfg.n
  {
    match s.pc[p]
    case Sync => forall q :: 0 <= q < cfg.n ==> !s.pc[q].Start?
    case Wait =>
      if SecondPhase(cfg, s.round[p]) then s.sync1[p] >= s.round[p] - (cfg.n - 1) + 1
      else s.sync0[p] >= s.round[p] + 1
    case Done => false
    case _ => true
  }

  /** Where p goes when it has finished `rounds` rounds. */
  function NextRound<T>(cfg: Config<T>, rounds: nat): Pc
    requires WellFormed(cfg)
  {
    if rounds == Rounds(cfg) || (cfg.kind.AllReduce? && rounds == cfg.n - 1) then Reset else Put
  }

  function Goto<T>(s: State<T>, p: nat, pc: Pc): State<T>
    requires p < |s.pc|
  {
    s.(pc := s.pc[p := pc])
  }

  function EndRound<T>(cfg: Config<T>, s: State<T>, p: nat): State<T>
    requires Shape(cfg, s) && p < cfg.n
  {
    Goto(s.(round := s.round[p := s.round[p] + 1]), p, NextRound(cfg, s.round[p] + 1))
  }

  /** The next local step of PE p. */
  function Advance<T>(cfg: Config<T>, s: State<T>, p: nat): State<T>
    requires Shape(cfg, s) && p < cfg.n && CanAdvance(cfg, s, p)
  {
    match s.pc[p]
    case Start =>
      if cfg.inPlace then Goto(s.(work := s.work[p := s.target[p]]), p, Sync)
      else if cfg.kind.Gather? then
        Goto(s.(target := s.target[p := CopyChunk(s.work[p], s.target[p], p, cfg.n)]), p, Put)
      else Goto(s, p, Put)
    case Sync => Goto(s, p, Put)
    case Put => Goto(s, p, Flag)
    case Flag => Goto(s, p, Wait)
    case Wait =>
      if cfg.kind.AllReduce? && s.round[p] < cfg.n - 1 then Goto(s, p, Reduce)
      else EndRound(cfg, s, p)
    case Reduce =>
      var c := Before(p, s.round[p] + 1, cfg.n);
      EndRound(cfg, s.(target := s.target[p := ReduceChunk(cfg.op, s.work[p], s.target[p], c, cfg.n)]), p)
    case Reset =>
      if s.round[p] < Rounds(cfg) then Goto(s.(sync0 := s.sync0[p := 0]), p, Put)
      else if cfg.kind.AllReduce? then Goto(s.(sync1 := s.sync1[p := 0]), p, Done)
      else Goto(s.(sync0 := s.sync0[p := 0]), p, Done)
    case Done => s
  }

  /** The data of round h leaves from the caller's source in the first round of an all-reduce. */
  function PutSource<T>(cfg: Config<T>, s: State<T>, p: nat, h: nat): seq<T>
    requires Shape(cfg, s) && p < cfg.n
  {
    if cfg.kind.AllReduce? && h == 0 then s.work[p] else s.target[p]
  }

  predicate CanLandPut<T>(cfg: Config<T>, s: State<T>, p: nat)
    requires Shape(cfg, s) && p < cfg.n
  {
    s.landed[p] < PutsIssued(s, p)
  }

  predicate CanLandFlag<T>(cfg: Config<T>, s: State<T>, p: nat)
    requires Shape(cfg, s) && p < cfg.n
  {
    s.flagged[p] < FlagsIssued(s, p) && s.flagged[p] < s.landed[p]
  }

  /** The oldest outstanding put of p reaches its neighbour. */
  function LandPut<T>(cfg: Config<T>, s: State<T>, p: nat): State<T>
    requires Shape(cfg, s) && p < cfg.n && CanLandPut(cfg, s, p)
  {
    var h, to := s.landed[p], Right(p, cfg.n);
    s.(landed := s.landed[p := h + 1],
       target := s.target[to := CopyChunk(PutSource(cfg, s, p, h), s.target[to], Before(p, h, cfg.n), cfg.n)])
  }

  /** The oldest outstanding add of p reaches its neighbour, after the put it was fenced behind. */
  function LandFlag<T>(cfg: Config<T>, s: State<T>, p: nat): State<T>
    requires Shape(cfg, s) && p < cfg.n && CanLandFlag(cfg, s, p)
  {
    var h, to := s.flagged[p], Right(p, cfg.n);
    var s' := s.(flagged := s.flagged[p := h + 1]);
    if SecondPhase(cfg, h) then s'.(sync1 := s.sync1[to := s.sync1[to] + 1])
    else s'.(sync0 := s.sync0[to := s.sync0[to] + 1])
  }

  ghost predicate Next<T(!new)>(cfg: Config<T>, s: State<T>, s': State<T>) {
    && Shape(cfg, s)
    && (|| (exists p: nat :: p < cfg.n && CanAdvance(cfg, s, p) && s' == Advance(cfg, s, p))
        || (exists p: nat :: p < cfg.n && CanLandPut(cfg, s, p) && s' == LandPut(cfg, s, p))
        || (exists p: nat :: p < cfg.n && CanLandFlag(cfg, s, p) && s' == LandFlag(cfg, s, p)))
  }

  // ------------------------------------------------------------------ what a chunk should hold

  /** Contributions to element e, one per PE. */
  function Column<T>(cfg: Config<T>, e: nat): (xs: seq<T>)
    requires WellFormed(cfg) && e < cfg.count
    ensures |xs| == cfg.n && forall p :: 0 <= p < cfg.n ==> xs[p] == cfg.src[p][e]
  {
    seq(cfg.n, p requires 0 <= p < cfg.n => cfg.src[p][e])
  }

  /** The fold of m contributions around the ring, from PE c on. */
  function ArcFold<T>(op: (T, T) -> T, xs: seq<T>, c: nat, m: nat): T
    requires |xs| > 0 && c < |xs| && m > 0
  {
    if m == 1 then xs[c] else op(ArcFold(op, xs, c, m - 1), xs[(c + m - 1) % |xs|])
  }

  /** Element e of chunk c as hop h of its journey carries it. */
  function HopValue<T>(cfg: Config<T>, c: nat, h: nat, e: nat): T
    requires WellFormed(cfg) && c < cfg.n && e < cfg.count
  {
    if cfg.kind.Gather? then cfg.src[c][e]
    else ArcFold(cfg.op, Column(cfg, e), c, if h + 1 < cfg.n then h + 1 else cfg.n)
  }

  // ------------------------------------------------------------------ the invariant

  /** Waits that p has passed. */
  function Waits<T>(s: State<T>, p: nat): nat
    requires p < |s.pc| == |s.round|
  {
    s.round[p] + (if s.pc[p].Reduce? then 1 else 0)
  }

  predicate PcOk<T>(cfg: Config<T>, pc: Pc, round: nat)
    requires WellFormed(cfg)
  {
    match pc
    case Start => round == 0
    case Sync => round == 0 && cfg.inPlace
    case Reduce => cfg.kind.AllReduce? && round < cfg.n - 1
    case Reset => round == Rounds(cfg) || (cfg.kind.AllReduce? && round == cfg.n - 1)
    case Done => round == Rounds(cfg)
    case _ => round < Rounds(cfg)
  }

  /** How far a PE can be ahead of its neighbours. */
  ghost predicate FlowOk<T(!new)>(cfg: Config<T>, s: State<T>, p: nat)
    requires Shape(cfg, s) && p < cfg.n
  {
    && PcOk(cfg, s.pc[p], s.round[p])
    && s.landed[p] <= PutsIssued(s, p)
    && s.flagged[p] <= FlagsIssued(s, p)
    && s.flagged[p] <= s.landed[p]
    && Waits(s, p) <= s.flagged[Left(p, cfg.n)]
  }

  /** The pSync words count the adds that have arrived in their phase. */
  ghost predicate SyncOk<T(!new)>(cfg: Config<T>, s: State<T>, p: nat)
    requires Shape(cfg, s) && p < cfg.n
  {
    var f, m := s.flagged[Left(p, cfg.n)], cfg.n - 1;
    if cfg.kind.Gather? then s.sync0[p] == (if s.pc[p].Done? then 0 else f) && s.sync1[p] == 0
    else
      && s.sync0[p] == (if s.round[p] > m || (s.round[p] == m && !s.pc[p].Reset?) then 0
                        else if f < m then f else m)
      && s.sync1[p] == (if s.pc[p].Done? || f < m then 0 else f - m)
  }

  /** Where the source is. */
  ghost predicate SourceOk<T(!new)>(cfg: Config<T>, s: State<T>, p: nat)
    requires Shape(cfg, s) && p < cfg.n
  {
    if cfg.inPlace && s.pc[p].Start? then s.target[p] == cfg.src[p] else s.work[p] == cfg.src[p]
  }

  /** Element e of r's target, by how far the chunk it lies in has come. */
  ghost predicate TargetOk<T(!new)>(cfg: Config<T>, s: State<T>, r: nat, e: nat)
    requires Shape(cfg, s) && r < cfg.n && e < cfg.count && Owner(e, cfg.count, cfg.n) < cfg.n
  {
    var c := Owner(e, cfg.count, cfg.n);
    var a, arrived := Before(r, c + 1, cfg.n), s.landed[Left(r, cfg.n)];
    && (a + cfg.n < arrived ==> s.target[r][e] == HopValue(cfg, c, a + cfg.n, e))
    && (a < arrived <= a + cfg.n ==>
          s.target[r][e] == HopValue(cfg, c, if a < cfg.n - 1 && a < s.round[r] then a + 1 else a, e))
    && (cfg.kind.Gather? && c == r && !s.pc[r].Start? ==> s.target[r][e] == cfg.src[r][e])
  }

  ghost predicate Inv<T(!new)>(cfg: Config<T>, s: State<T>) {
    && Shape(cfg, s)
    && (forall p :: 0 <= p < cfg.n ==> FlowOk(cfg, s, p))
    && (forall p :: 0 <= p < cfg.n ==> SyncOk(cfg, s, p))
    && (forall p :: 0 <= p < cfg.n ==> SourceOk(cfg, s, p))
    && CopiedFirst(cfg, s)
    && OwnersInRange(cfg)
    && (forall r, e :: 0 <= r < cfg.n && 0 <= e < cfg.count ==> TargetOk(cfg, s, r, e))
  }

  /** In place, nobody leaves the barrier before everybody has its private copy. */
  ghost predicate CopiedFirst<T(!new)>(cfg: Config<T>, s: State<T>)
    requires Shape(cfg, s)
  {
    forall p, q :: 0 <= p < cfg.n && 0 <= q < cfg.n && cfg.inPlace && s.pc[p].Start? ==>
      s.pc[q].Start? || s.pc[q].Sync?
  }

  ghost predicate OwnersInRange<T(!new)>(cfg: Config<T>)
    requires WellFormed(cfg)
  {
    forall e :: 0 <= e < cfg.count ==> Owner(e, cfg.count, cfg.n) < cfg.n
  }

  lemma OwnersAreInRange<T(!new)>(cfg: Config<T>)
    requires WellFormed(cfg)
    ensures OwnersInRange(cfg)
  {
    forall e | 0 <= e < cfg.count ensures Owner(e, cfg.count, cfg.n) < cfg.n {
      ChunksTile(e, 0, cfg.count, cfg.n);
    }
  }

  lemma InitEstablishesInv<T(!new)>(cfg: Config<T>, s: State<T>)
    requires Init(cfg, s)
    ensures Inv(cfg, s)
  {
    OwnersAreInRange(cfg);
  }

  /** A PE is at most k puts ahead of the PE k places before it. */
  lemma {:induction false} LeadIsBounded<T(!new)>(cfg: Config<T>, s: State<T>, p: nat, k: nat)
    requires Inv(cfg, s) && p < cfg.n
    ensures s.landed[p] <= s.landed[Before(p, k, cfg.n)] + k
    ensures PutsIssued(s, p) <= s.landed[Left(p, cfg.n)] + 1
  {
    assert FlowOk(cfg, s, p) && FlowOk(cfg, s, Left(p, cfg.n));
    if k == 0 {
      SmallMod(p, cfg.n);
    } else {
      var q := Before(p, k - 1, cfg.n);
      LeadIsBounded(cfg, s, p, k - 1);
      BeforeBefore(p, k - 1, 1, cfg.n);
      assert FlowOk(cfg, s, q) && FlowOk(cfg, s, Left(q, cfg.n));
    }
  }

  /** The PE before p has landed at most n - 1 puts more than p has. */
  lemma LeftLead<T(!new)>(cfg: Config<T>, s: State<T>, p: nat)
    requires Inv(cfg, s) && p < cfg.n
    ensures s.landed[Left(p, cfg.n)] <= s.landed[p] + cfg.n - 1
  {
    LeadIsBounded(cfg, s, Left(p, cfg.n), cfg.n - 1);
    BeforeBefore(p, 1, cfg.n - 1, cfg.n);
    ModPlusMultiple(p, cfg.n, -1);
    SmallMod(p, cfg.n);
  }

  /** The next value on the chunk's way: one more contribution, until all n are in. */
  lemma HopStep<T(!new)>(cfg: Config<T>, r: nat, c: nat, e: nat)
    requires WellFormed(cfg) && cfg.kind.AllReduce? && r < cfg.n && c < cfg.n && e < cfg.count
    requires Before(r, c + 1, cfg.n) < cfg.n - 1
    ensures var a := Before(r, c + 1, cfg.n);
            HopValue(cfg, c, a + 1, e) == cfg.op(HopValue(cfg, c, a, e), cfg.src[r][e])
  {
    ArrivalOrigin(r, c, cfg.n);
  }

  lemma FirstHop<T(!new)>(cfg: Config<T>, c: nat, e: nat)
    requires WellFormed(cfg) && c < cfg.n && e < cfg.count
    ensures HopValue(cfg, c, 0, e) == cfg.src[c][e]
  {
  }

  /**
    What p's oldest outstanding put carries: element e of chunk p - h is, at the source, the
    hop-h value of that chunk, whether the put was issued just now or long ago.
  */
  lemma PutCarriesHopValue<T(!new)>(cfg: Config<T>, s: State<T>, p: nat, h: nat, e: nat)
    requires Inv(cfg, s) && p < cfg.n && s.landed[p] <= h < PutsIssued(s, p)
    requires e < cfg.count && Owner(e, cfg.count, cfg.n) == Before(p, h, cfg.n)
    ensures PutSource(cfg, s, p, h)[e] == HopValue(cfg, Before(p, h, cfg.n), h, e)
  {
    hide SyncOk, ArcFold, Column, Owner, OwnerBelow, ChunkCount, ChunkDisp, CopiedFirst;
    var n, c := cfg.n, Before(p, h, cfg.n);
    assert FlowOk(cfg, s, p) && SourceOk(cfg, s, p) && TargetOk(cfg, s, p, e);
    if h == 0 {
      SmallMod(p, n);
      FirstHop(cfg, c, e);
    } else {
      ArrivalRound(p, h - 1, n);
      LeadIsBounded(cfg, s, p, 0);
      LeftLead(cfg, s, p);
      var a := Before(p, c + 1, n);
      if h - 1 < n {
        SmallMod(h - 1, n);
      } else {
        ModPlusMultiple(h - 1 - n, n, 1);
        SmallMod(h - 1 - n, n);
      }
    }
  }

  // ------------------------------------------------------------------ every step keeps it

  /** Which round the arriving put is, for the PE it reaches and element e there. */
  lemma ArrivingPut<T(!new)>(cfg: Config<T>, s: State<T>, p: nat, e: nat)
    requires Inv(cfg, s) && p < cfg.n && CanLandPut(cfg, s, p) && e < cfg.count
    ensures var n, h, to := cfg.n, s.landed[p], Right(p, cfg.n);
            var c, sent := Owner(e, cfg.count, n), Before(p, h, n);
            && Left(to, n) == p && h < 2 * n && s.round[to] <= h
            && (InChunk(e, sent, cfg.count, n) <==> c == sent)
            && (c == sent <==> Before(to, c + 1, n) == if h < n then h else h - n)
  {
    var n, h, to := cfg.n, s.landed[p], Right(p, cfg.n);
    var c, sent := Owner(e, cfg.count, n), Before(p, h, n);
    BeforeAfter(p, 1, n);
    ChunksTile(e, sent, cfg.count, n);
    BeforeBefore(to, 1, h, n);
    RoundOfItem(to, h, c, n);
    assert FlowOk(cfg, s, p) && FlowOk(cfg, s, to);
    ModBelowTwice(h, n);
  }

  /** A put reaches r: one chunk changes, to the value of its next hop. */
  lemma LandPutKeepsTarget<T(!new)>(cfg: Config<T>, s: State<T>, p: nat, r: nat, e: nat)
    requires Inv(cfg, s) && p < cfg.n && CanLandPut(cfg, s, p) && r < cfg.n && e < cfg.count
    ensures TargetOk(cfg, LandPut(cfg, s, p), r, e)
  {
    assert TargetOk(cfg, s, r, e);
    BeforeAfter(r, 1, cfg.n);
    if r == Right(p, cfg.n) {
      ArrivingPut(cfg, s, p, e);
      if Owner(e, cfg.count, cfg.n) == Before(p, s.landed[p], cfg.n) {
        PutCarriesHopValue(cfg, s, p, s.landed[p], e);
      }
    }
  }

  lemma LandPutKeepsInv<T(!new)>(cfg: Config<T>, s: State<T>, p: nat)
    requires Inv(cfg, s) && p < cfg.n && CanLandPut(cfg, s, p)
    ensures Inv(cfg, LandPut(cfg, s, p))
  {
    var s' := LandPut(cfg, s, p);
    assert FlowOk(cfg, s, p);
    forall q | 0 <= q < cfg.n ensures FlowOk(cfg, s', q) && SyncOk(cfg, s', q) && SourceOk(cfg, s', q) {
      assert FlowOk(cfg, s, q) && SyncOk(cfg, s, q) && SourceOk(cfg, s, q);
    }
    forall r, e | 0 <= r < cfg.n && 0 <= e < cfg.count ensures TargetOk(cfg, s', r, e) {
      LandPutKeepsTarget(cfg, s, p, r, e);
    }
  }

  lemma LandFlagKeepsSync<T(!new)>(cfg: Config<T>, s: State<T>, p: nat, q: nat)
    requires Inv(cfg, s) && p < cfg.n && q < cfg.n && CanLandFlag(cfg, s, p)
    ensures FlowOk(cfg, LandFlag(cfg, s, p), q) && SyncOk(cfg, LandFlag(cfg, s, p), q)
  {
    assert FlowOk(cfg, s, q) && SyncOk(cfg, s, q) && FlowOk(cfg, s, p);
    BeforeAfter(p, 1, cfg.n);
    BeforeAfter(q, 1, cfg.n);
  }

  lemma LandFlagKeepsInv<T(!new)>(cfg: Config<T>, s: State<T>, p: nat)
    requires Inv(cfg, s) && p < cfg.n && CanLandFlag(cfg, s, p)
    ensures Inv(cfg, LandFlag(cfg, s, p))
  {
    var s' := LandFlag(cfg, s, p);
    forall q | 0 <= q < cfg.n ensures FlowOk(cfg, s', q) && SyncOk(cfg, s', q) && SourceOk(cfg, s', q) {
      LandFlagKeepsSync(cfg, s, p, q);
      assert SourceOk(cfg, s, q);
    }
    forall r, e | 0 <= r < cfg.n && 0 <= e < cfg.count ensures TargetOk(cfg, s', r, e) {
      assert TargetOk(cfg, s, r, e);
    }
  }

  /** A wait that succeeds has seen this round's add. */
  lemma WaitSeesFlag<T(!new)>(cfg: Config<T>, s: State<T>, p: nat)
    requires Inv(cfg, s) && p < cfg.n && s.pc[p].Wait? && CanAdvance(cfg, s, p)
    ensures s.flagged[Left(p, cfg.n)] >= s.round[p] + 1
  {
    assert FlowOk(cfg, s, p) && SyncOk(cfg, s, p);
  }

  /** A local step never takes back what was issued, and passes a wait only when it may. */
  lemma AdvanceMovesOn<T(!new)>(cfg: Config<T>, s: State<T>, p: nat)
    requires Inv(cfg, s) && p < cfg.n && CanAdvance(cfg, s, p)
    ensures var s' := Advance(cfg, s, p);
            && PcOk(cfg, s'.pc[p], s'.round[p])
            && PutsIssued(s', p) >= PutsIssued(s, p)
            && FlagsIssued(s', p) >= FlagsIssued(s, p)
            && Waits(s', p) <= s.flagged[Left(p, cfg.n)]
  {
    assert FlowOk(cfg, s, p);
    if s.pc[p].Wait? { WaitSeesFlag(cfg, s, p); }
  }

  lemma AdvanceKeepsFlow<T(!new)>(cfg: Config<T>, s: State<T>, p: nat, q: nat)
    requires Inv(cfg, s) && p < cfg.n && q < cfg.n && CanAdvance(cfg, s, p)
    ensures FlowOk(cfg, Advance(cfg, s, p), q)
  {
    var s' := Advance(cfg, s, p);
    assert FlowOk(cfg, s, q);
    assert s'.landed == s.landed && s'.flagged == s.flagged;
    if q == p {
      AdvanceMovesOn(cfg, s, p);
    } else {
      assert s'.pc[q] == s.pc[q] && s'.round[q] == s.round[q];
    }
  }

  lemma AdvanceKeepsOtherSync<T(!new)>(cfg: Config<T>, s: State<T>, p: nat, q: nat)
    requires Inv(cfg, s) && p < cfg.n && q < cfg.n && q != p && CanAdvance(cfg, s, p)
    ensures SyncOk(cfg, Advance(cfg, s, p), q) == true
  {
    hide FlowOk, TargetOk, SourceOk, CopyChunk, ReduceChunk, OwnersInRange, CopiedFirst;
    assert SyncOk(cfg, s, q);
  }

  /** pSync is cleared when all the adds of its phase have come, and never before. */
  lemma AdvanceKeepsSync<T(!new)>(cfg: Config<T>, s: State<T>, p: nat)
    requires Inv(cfg, s) && p < cfg.n && CanAdvance(cfg, s, p)
    ensures SyncOk(cfg, Advance(cfg, s, p), p) == true
  {
    hide TargetOk, SourceOk, CopyChunk, ReduceChunk, OwnersInRange, CopiedFirst;
    assert FlowOk(cfg, s, p) && SyncOk(cfg, s, p);
    assert FlowOk(cfg, s, Left(p, cfg.n));
  }

  lemma AdvanceKeepsSource<T(!new)>(cfg: Config<T>, s: State<T>, p: nat, q: nat)
    requires Inv(cfg, s) && p < cfg.n && q < cfg.n && CanAdvance(cfg, s, p)
    ensures SourceOk(cfg, Advance(cfg, s, p), q)
  {
    assert SourceOk(cfg, s, q) && FlowOk(cfg, s, p);
  }

  /** The local fold adds exactly p's contribution, to exactly the chunk that has just come. */
  lemma ReduceKeepsTarget<T(!new)>(cfg: Config<T>, s: State<T>, p: nat, e: nat)
    requires Inv(cfg, s) && p < cfg.n && s.pc[p].Reduce? && e < cfg.count
    ensures TargetOk(cfg, Advance(cfg, s, p), p, e) == true
  {
    hide HopValue, ArcFold, Column, SyncOk, Owner, OwnerBelow, ChunkCount, ChunkDisp, CopiedFirst;
    var n, h := cfg.n, s.round[p];
    var c, folded := Owner(e, cfg.count, n), Before(p, h + 1, n);
    assert TargetOk(cfg, s, p, e) && FlowOk(cfg, s, p) && SourceOk(cfg, s, p);
    assert FlowOk(cfg, s, Left(p, n));
    ChunksTile(e, folded, cfg.count, n);
    RoundOfItem(p, h, c, n);
    SmallMod(h, n);
    LeftLead(cfg, s, p);
    if c == folded {
      HopStep(cfg, p, c, e);
    }
  }

  lemma AdvanceKeepsTarget<T(!new)>(cfg: Config<T>, s: State<T>, p: nat, r: nat, e: nat)
    requires Inv(cfg, s) && p < cfg.n && r < cfg.n && e < cfg.count && CanAdvance(cfg, s, p)
    ensures TargetOk(cfg, Advance(cfg, s, p), r, e) == true
  {
    hide ArcFold, SyncOk, Owner, OwnerBelow, ChunkCount, ChunkDisp, CopiedFirst;
    assert TargetOk(cfg, s, r, e);
    if r == p {
      assert FlowOk(cfg, s, p) && FlowOk(cfg, s, Left(p, cfg.n)) && SourceOk(cfg, s, p);
      match s.pc[p]
      case Reduce => ReduceKeepsTarget(cfg, s, p, e);
      case Start =>
        ChunksTile(e, p, cfg.count, cfg.n);
        if Owner(e, cfg.count, cfg.n) == p {
          ArrivalOrigin(p, p, cfg.n);
        }
      case _ =>
    }
  }

  lemma AdvanceKeepsShape<T(!new)>(cfg: Config<T>, s: State<T>, p: nat)
    requires Shape(cfg, s) && p < cfg.n && CanAdvance(cfg, s, p) && CopiedFirst(cfg, s)
    ensures Shape(cfg, Advance(cfg, s, p)) && CopiedFirst(cfg, Advance(cfg, s, p))
  {
    hide CopyChunk, ReduceChunk, ChunkCount, ChunkDisp;
  }

  lemma AdvanceKeepsInv<T(!new)>(cfg: Config<T>, s: State<T>, p: nat)
    requires Inv(cfg, s) && p < cfg.n && CanAdvance(cfg, s, p)
    ensures Inv(cfg, Advance(cfg, s, p)) == true
  {
    hide FlowOk, SyncOk, SourceOk, TargetOk, Advance, CanAdvance, CopiedFirst;
    var s' := Advance(cfg, s, p);
    AdvanceKeepsShape(cfg, s, p);
    forall q | 0 <= q < cfg.n ensures FlowOk(cfg, s', q) && SyncOk(cfg, s', q) && SourceOk(cfg, s', q) {
      AdvanceKeepsFlow(cfg, s, p, q);
      if q == p { AdvanceKeepsSync(cfg, s, p); } else { AdvanceKeepsOtherSync(cfg, s, p, q); }
      AdvanceKeepsSource(cfg, s, p, q);
    }
    forall r, e | 0 <= r < cfg.n && 0 <= e < cfg.count ensures TargetOk(cfg, s', r, e) {
      AdvanceKeepsTarget(cfg, s, p, r, e);
    }
  }

  lemma NextKeepsInv<T(!new)>(cfg: Config<T>, s: State<T>, s': State<T>)
    requires Inv(cfg, s) && Next(cfg, s, s')
    ensures Inv(cfg, s') == true
  {
    if p: nat :| p < cfg.n && CanAdvance(cfg, s, p) && s' == Advance(cfg, s, p) {
      AdvanceKeepsInv(cfg, s, p);
    } else if p: nat :| p < cfg.n && CanLandPut(cfg, s, p) && s' == LandPut(cfg, s, p) {
      LandPutKeepsInv(cfg, s, p);
    } else {
      var p: nat :| p < cfg.n && CanLandFlag(cfg, s, p) && s' == LandFlag(cfg, s, p);
      LandFlagKeepsInv(cfg, s, p);
    }
  }

  // ------------------------------------------------------------------ what the collectives promise

  ghost predicate IsRun<T(!new)>(cfg: Config<T>, run: seq<State<T>>) {
    && run != [] && Init(cfg, run[0])
    && forall k :: 0 <= k < |run| - 1 ==> Next(cfg, run[k], run[k + 1])
  }

  lemma {:induction false} RunKeepsInv<T(!new)>(cfg: Config<T>, run: seq<State<T>>, k: nat)
    requires IsRun(cfg, run) && k < |run|
    ensures Inv(cfg, run[k]) == true
  {
    if k == 0 {
      InitEstablishesInv(cfg, run[0]);
    } else {
      RunKeepsInv(cfg, run, k - 1);
      assert Next(cfg, run[k - 1], run[k - 1 + 1]);
      NextKeepsInv(cfg, run[k - 1], run[k]);
    }
  }

  /** PEs c, c + 1, ..., c + m - 1 around the ring. */
  ghost function Arc(c: nat, m: nat, n: nat): set<nat>
    requires n > 0
  {
    if m == 0 then {} else Arc(c, m - 1, n) + {(c + m - 1) % n}
  }

  lemma {:induction false} ArcMembers(c: nat, m: nat, n: nat, p: nat)
    requires c < n && m <= n && p < n
    ensures p in Arc(c, m, n) <==> (if c <= p then p - c else p - c + n) < m
  {
    if m > 0 {
      ArcMembers(c, m - 1, n, p);
      ModBelowTwice(c + m - 1, n);
    }
  }

  /** A fold around part of the ring is the fold of that set of contributions. */
  lemma {:induction false} ArcFoldIsSetFold<T(!new)>(op: (T, T) -> T, xs: seq<T>, c: nat, m: nat)
    requires AssociativeCommutative(op) && c < |xs| && 0 < m <= |xs|
    ensures forall p :: p in Arc(c, m, |xs|) ==> p < |xs|
    ensures Arc(c, m, |xs|) != {}
    ensures ArcFold(op, xs, c, m) == SetFold(op, xs, Arc(c, m, |xs|))
  {
    var n := |xs|;
    if m == 1 {
      SmallMod(c, n);
      assert Arc(c, 1, n) == Arc(c, 0, n) + {c} == {c};
      SetFoldOne(op, xs, c);
    } else {
      var q := (c + m - 1) % n;
      ArcFoldIsSetFold(op, xs, c, m - 1);
      ModBelowTwice(c + m - 1, n);
      ArcMembers(c, m - 1, n, q);
      assert Arc(c, m, n) - {q} == Arc(c, m - 1, n);
      SetFoldLast(op, xs, Arc(c, m, n), q);
    }
  }

  /** All the way round, the starting point does not matter. */
  lemma FullArcIsRankFold<T(!new)>(op: (T, T) -> T, xs: seq<T>, c: nat)
    requires AssociativeCommutative(op) && c < |xs|
    ensures ArcFold(op, xs, c, |xs|) == RankFold(op, xs, |xs|)
  {
    ArcFoldIsSetFold(op, xs, c, |xs|);
    forall p | 0 <= p < |xs| ensures p in Arc(c, |xs|, |xs|) {
      ArcMembers(c, |xs|, |xs|, p);
    }
    assert Arc(c, |xs|, |xs|) == Ranks(|xs|);
    SetFoldIsRankFold(op, xs, |xs|);
  }

  /**
    After the reduce-scatter: a PE that has finished its first n - 1 rounds holds the fold of
    all contributions on the chunk after its own, from then on.
  */
  lemma ReduceScatterResult<T(!new)>(cfg: Config<T>, run: seq<State<T>>, k: nat, r: nat, e: nat)
    requires IsRun(cfg, run) && k < |run| && cfg.kind.AllReduce? && AssociativeCommutative(cfg.op)
    requires Shape(cfg, run[k]) && r < cfg.n && e < cfg.count && run[k].round[r] >= cfg.n - 1
    requires InChunk(e, (r + 1) % cfg.n, cfg.count, cfg.n)
    ensures run[k].target[r][e] == RankFold(cfg.op, Column(cfg, e), cfg.n)
  {
    hide ArcFold, Column, SyncOk, SourceOk, CopiedFirst, Owner, OwnerBelow, ChunkCount, ChunkDisp, AssociativeCommutative;
    RunKeepsInv(cfg, run, k);
    var s, n, c := run[k], cfg.n, (r + 1) % cfg.n;
    ChunksTile(e, c, cfg.count, n);
    assert TargetOk(cfg, s, r, e) && FlowOk(cfg, s, r) && FlowOk(cfg, s, Left(r, n));
    ModPlusMultiple(r + 1, n, -1);
    RoundOfItem(r, n - 2, c, n);
    SmallMod(n - 2, n);
    LeftLead(cfg, s, r);
    FullArcIsRankFold(cfg.op, Column(cfg, e), c);
  }

  /**
    Ring all-reduce.  In every interleaving, when PE r returns, every element of its target is
    the fold, in rank order, of that element of all n sources, in place or not.
  */
  lemma AllReduceResult<T(!new)>(cfg: Config<T>, run: seq<State<T>>, k: nat, r: nat, e: nat)
    requires IsRun(cfg, run) && k < |run| && cfg.kind.AllReduce? && AssociativeCommutative(cfg.op)
    requires Shape(cfg, run[k]) && r < cfg.n && e < cfg.count && run[k].pc[r].Done?
    ensures run[k].target[r][e] == RankFold(cfg.op, Column(cfg, e), cfg.n)
  {
    RunKeepsInv(cfg, run, k);
    var s, c := run[k], Owner(e, cfg.count, cfg.n);
    assert TargetOk(cfg, s, r, e) && FlowOk(cfg, s, r) && FlowOk(cfg, s, Left(r, cfg.n));
    FullArcIsRankFold(cfg.op, Column(cfg, e), c);
  }

  /**
    Ring gather.  In every interleaving, when PE r returns, its target holds in chunk c the
    contribution of PE c, for every c.
  */
  lemma GatherResult<T(!new)>(cfg: Config<T>, run: seq<State<T>>, k: nat, r: nat, e: nat)
    requires IsRun(cfg, run) && k < |run| && cfg.kind.Gather?
    requires Shape(cfg, run[k]) && r < cfg.n && e < cfg.count && run[k].pc[r].Done?
    ensures Owner(e, cfg.count, cfg.n) < cfg.n
    ensures run[k].target[r][e] == cfg.src[Owner(e, cfg.count, cfg.n)][e]
  {
    RunKeepsInv(cfg, run, k);
    var s, n, c := run[k], cfg.n, Owner(e, cfg.count, cfg.n);
    assert TargetOk(cfg, s, r, e) && FlowOk(cfg, s, r);
    assert FlowOk(cfg, s, Left(r, n));
    if Before(r, c + 1, n) == n - 1 {
      ArrivalOrigin(r, c, n);
      ModPlusMultiple(c, n, 1);
      SmallMod(c, n);
    }
  }

  /**
    No chunk is overwritten before it has been forwarded: while a put is outstanding, the
    elements it will carry do not change at the source, so it does not matter when between its
    issue and its arrival the non-blocking put reads them.
  */
  lemma OutstandingPutsAreStable<T(!new)>(cfg: Config<T>, run: seq<State<T>>, k: nat, p: nat, h: nat, e: nat)
    requires IsRun(cfg, run) && k + 1 < |run| && p < cfg.n
    requires Shape(cfg, run[k]) && Shape(cfg, run[k + 1])
    requires run[k].landed[p] <= h < PutsIssued(run[k], p)
    requires run[k + 1].landed[p] <= h < PutsIssued(run[k + 1], p)
    requires e < cfg.count && InChunk(e, Before(p, h, cfg.n), cfg.count, cfg.n)
    ensures PutSource(cfg, run[k + 1], p, h)[e] == PutSource(cfg, run[k], p, h)[e]
  {
    RunKeepsInv(cfg, run, k);
    RunKeepsInv(cfg, run, k + 1);
    ChunksTile(e, Before(p, h, cfg.n), cfg.count, cfg.n);
    PutCarriesHopValue(cfg, run[k], p, h, e);
    PutCarriesHopValue(cfg, run[k + 1], p, h, e);
  }

  /** When all PEs have returned, both pSync words are 0 everywhere and no add is in flight. */
  lemma PSyncIsRestored<T(!new)>(cfg: Config<T>, run: seq<State<T>>, k: nat, p: nat)
    requires IsRun(cfg, run) && k < |run| && Shape(cfg, run[k]) && p < cfg.n
    requires forall q :: 0 <= q < cfg.n ==> run[k].pc[q].Done?
    ensures run[k].sync0[p] == 0 && run[k].sync1[p] == 0
    ensures run[k].flagged[p] == Rounds(cfg) && run[k].landed[p] == Rounds(cfg)
  {
    RunKeepsInv(cfg, run, k);
    var s, r := run[k], Right(p, cfg.n);
    BeforeAfter(p, 1, cfg.n);
    assert SyncOk(cfg, s, p) && FlowOk(cfg, s, p) && FlowOk(cfg, s, r);
  }

  ghost predicate Stuck<T(!new)>(cfg: Config<T>, s: State<T>)
    requires Shape(cfg, s)
  {
    forall p :: 0 <= p < cfg.n ==>
      !CanAdvance(cfg, s, p) && !CanLandPut(cfg, s, p) && !CanLandFlag(cfg, s, p)
  }

  /** In a stuck state no PE waits: the PE before it has sent, or waits in an earlier round. */
  lemma {:induction false} NobodyWaitsForever<T(!new)>(cfg: Config<T>, s: State<T>, p: nat)
    requires Inv(cfg, s) && Stuck(cfg, s) && p < cfg.n
    ensures s.pc[p].Done?
    decreases s.round[p]
  {
    var l := Left(p, cfg.n);
    assert FlowOk(cfg, s, p) && FlowOk(cfg, s, l);
    OnlyWaitersStick(cfg, s, p);
    OnlyWaitersStick(cfg, s, l);
    if s.pc[p].Wait? {
      if s.round[l] < s.round[p] {
        NobodyWaitsForever(cfg, s, l);
      } else {
        WaiterIsServed(cfg, s, p);
      }
    }
  }

  /** When the PE before p is at least as far, its add has arrived and p can go on. */
  lemma WaiterIsServed<T(!new)>(cfg: Config<T>, s: State<T>, p: nat)
    requires Inv(cfg, s) && p < cfg.n && s.pc[p].Wait?
    requires s.round[Left(p, cfg.n)] >= s.round[p]
    requires s.pc[Left(p, cfg.n)].Wait? || s.pc[Left(p, cfg.n)].Done?
    requires !CanLandPut(cfg, s, Left(p, cfg.n)) && !CanLandFlag(cfg, s, Left(p, cfg.n))
    ensures CanAdvance(cfg, s, p)
  {
    assert FlowOk(cfg, s, p) && FlowOk(cfg, s, Left(p, cfg.n)) && SyncOk(cfg, s, p);
  }

  lemma OnlyWaitersStick<T(!new)>(cfg: Config<T>, s: State<T>, p: nat)
    requires Inv(cfg, s) && Stuck(cfg, s) && p < cfg.n
    ensures s.pc[p].Wait? || s.pc[p].Done?
    ensures !CanAdvance(cfg, s, p) && !CanLandPut(cfg, s, p) && !CanLandFlag(cfg, s, p)
  {
    assert !CanAdvance(cfg, s, p);
    if s.pc[p].Sync? {
      var q :| 0 <= q < cfg.n && s.pc[q].Start?;
      assert CanAdvance(cfg, s, q);
    }
  }

  /** No deadlock: until every PE has returned, some PE can move or some message can arrive. */
  lemma NoDeadlock<T(!new)>(cfg: Config<T>, run: seq<State<T>>, k: nat)
    requires IsRun(cfg, run) && k < |run| && Shape(cfg, run[k])
    requires exists p :: 0 <= p < cfg.n && !run[k].pc[p].Done?
    ensures !Stuck(cfg, run[k])
  {
    RunKeepsInv(cfg, run, k);
    if Stuck(cfg, run[k]) {
      var p :| 0 <= p < cfg.n && !run[k].pc[p].Done?;
      NobodyWaitsForever(cfg, run[k], p);
    }
  }

  // ------------------------------------------------------------------ every run ends

  function Minus(a: nat, b: nat): nat {
    if a < b then 0 else a - b
  }

  /** The steps PE p still has to make in a call of `rounds` rounds. */
  function StepsLeft(pc: Pc, round: nat, rounds: nat): nat {
    var left := 6 * Minus(rounds, round);
    match pc
    case Start => 6 * rounds + 7
    case Sync => 6 * rounds + 6
    case Reset => left + 5
    case Put => left + 4
    case Flag => left + 3
    case Wait => left + 2
    case Reduce => left + 1
    case Done => 0
  }

  /** The steps left to PE p and to what it sends. */
  function Todo<T>(cfg: Config<T>, s: State<T>, p: nat): nat
    requires Shape(cfg, s) && p < cfg.n
  {
    StepsLeft(s.pc[p], s.round[p], Rounds(cfg)) + Minus(Rounds(cfg), s.landed[p]) + Minus(Rounds(cfg), s.flagged[p])
  }

  function Todos<T>(cfg: Config<T>, s: State<T>): (ms: seq<nat>)
    requires Shape(cfg, s)
    ensures |ms| == cfg.n && forall p :: 0 <= p < cfg.n ==> ms[p] == Todo(cfg, s, p)
  {
    seq(cfg.n, p requires 0 <= p < cfg.n => Todo(cfg, s, p))
  }

  /** A step of p. */
  ghost predicate StepOf<T(!new)>(cfg: Config<T>, s: State<T>, p: nat, s': State<T>)
    requires Shape(cfg, s)
  {
    && p < cfg.n
    && (|| (CanAdvance(cfg, s, p) && s' == Advance(cfg, s, p))
        || (CanLandPut(cfg, s, p) && s' == LandPut(cfg, s, p))
        || (CanLandFlag(cfg, s, p) && s' == LandFlag(cfg, s, p)))
  }

  lemma StepDoes<T(!new)>(cfg: Config<T>, s: State<T>, p: nat, s': State<T>, q: nat)
    requires Shape(cfg, s) && Shape(cfg, s') && p < cfg.n && q < cfg.n && FlowOk(cfg, s, p) && StepOf(cfg, s, p, s') == true
    ensures if q == p then Todo(cfg, s', q) < Todo(cfg, s, q) else Todo(cfg, s', q) == Todo(cfg, s, q)
  {
    hide CopyChunk, ReduceChunk, PutSource, Before;
    PutsAreInRounds(cfg, s, p);
    if CanLandPut(cfg, s, p) && s' == LandPut(cfg, s, p) {
    } else if CanLandFlag(cfg, s, p) && s' == LandFlag(cfg, s, p) {
    } else {
      AdvanceDoes(cfg, s, p, q);
    }
  }

  /** No more puts than rounds. */
  lemma PutsAreInRounds<T(!new)>(cfg: Config<T>, s: State<T>, p: nat)
    requires Shape(cfg, s) && p < cfg.n && FlowOk(cfg, s, p)
    ensures FlagsIssued(s, p) <= PutsIssued(s, p) <= Rounds(cfg)
  {
  }

  lemma AdvanceDoes<T(!new)>(cfg: Config<T>, s: State<T>, p: nat, q: nat)
    requires Shape(cfg, s) && p < cfg.n && FlowOk(cfg, s, p) && CanAdvance(cfg, s, p) && q < cfg.n && Shape(cfg, Advance(cfg, s, p))
    ensures var s' := Advance(cfg, s, p); if q == p then Todo(cfg, s', q) < Todo(cfg, s, q) else Todo(cfg, s', q) == Todo(cfg, s, q)
  {
    hide CopyChunk, ReduceChunk, Before;
  }

  /** Every step does some of the work left to one PE, and adds none to the others. */
  lemma StepIsProgress<T(!new)>(cfg: Config<T>, s: State<T>, p: nat, s': State<T>)
    requires Shape(cfg, s) && Shape(cfg, s') && p < cfg.n && FlowOk(cfg, s, p) == true && StepOf(cfg, s, p, s') == true
    ensures Sum(Todos(cfg, s')) < Sum(Todos(cfg, s))
  {
    hide StepOf, Todo, FlowOk;
    forall q | 0 <= q < cfg.n ensures if q == p then Todo(cfg, s', q) < Todo(cfg, s, q) else Todo(cfg, s', q) == Todo(cfg, s, q) {
      StepDoes(cfg, s, p, s', q);
    }
    StepDoes(cfg, s, p, s', p);
    SumDrops(Todos(cfg, s), Todos(cfg, s'), p);
  }

  lemma TodoBound<T>(cfg: Config<T>, s: State<T>, p: nat)
    requires Shape(cfg, s) && p < cfg.n
    ensures Todo(cfg, s, p) <= 8 * Rounds(cfg) + 7
  {
  }

  /** No run is longer than this. */
  lemma {:induction false} RunsAreBounded<T(!new)>(cfg: Config<T>, run: seq<State<T>>, k: nat)
    requires IsRun(cfg, run) && k < |run|
    ensures Shape(cfg, run[k]) && k + Sum(Todos(cfg, run[k])) <= cfg.n * (8 * Rounds(cfg) + 7)
  {
    RunKeepsInv(cfg, run, k);
    InvHasShape(cfg, run[k], 0);
    hide StepOf, Todo, Init, CanAdvance, Shape, Inv, FlowOk;
    if k == 0 {
      forall p | 0 <= p < cfg.n ensures Todo(cfg, run[0], p) <= 8 * Rounds(cfg) + 7 {
        TodoBound(cfg, run[0], p);
      }
      SumBound(Todos(cfg, run[0]), 8 * Rounds(cfg) + 7);
    } else {
      RunsAreBounded(cfg, run, k - 1);
      RunKeepsInv(cfg, run, k - 1);
      assert Next(cfg, run[k - 1], run[k - 1 + 1]);
      var p := WhoSteps(cfg, run[k - 1], run[k]);
      InvHasShape(cfg, run[k - 1], p);
      StepIsProgress(cfg, run[k - 1], p, run[k]);
    }
  }

  lemma InvHasShape<T(!new)>(cfg: Config<T>, s: State<T>, p: nat)
    requires Inv(cfg, s)
    ensures Shape(cfg, s) && (p < cfg.n ==> FlowOk(cfg, s, p) == true)
  {
  }

  lemma WhoSteps<T(!new)>(cfg: Config<T>, s: State<T>, s': State<T>) returns (p: nat)
    requires Next(cfg, s, s')
    ensures Shape(cfg, s) && p < cfg.n && StepOf(cfg, s, p, s') == true
  {
    if q: nat :| q < cfg.n && CanAdvance(cfg, s, q) && s' == Advance(cfg, s, q) {
      p := q;
    } else if q: nat :| q < cfg.n && CanLandPut(cfg, s, q) && s' == LandPut(cfg, s, q) {
      p := q;
    } else {
      p :| p < cfg.n && CanLandFlag(cfg, s, p) && s' == LandFlag(cfg, s, p);
    }
  }

  ghost predicate AllBack<T(!new)>(cfg: Config<T>, s: State<T>)
    requires Shape(cfg, s)
  {
    forall p :: 0 <= p < cfg.n ==> s.pc[p].Done?
  }

  /** Every run can be continued until every PE is back. */
  lemma {:induction false} RunsComplete<T(!new)>(cfg: Config<T>, run: seq<State<T>>) returns (run': seq<State<T>>)
    requires IsRun(cfg, run)
    ensures IsRun(cfg, run') && run <= run' && Shape(cfg, run'[|run'| - 1])
    ensures AllBack(cfg, run'[|run'| - 1])
    decreases cfg.n * (8 * Rounds(cfg) + 7) - |run|
  {
    hide Init, CanAdvance, Shape, Next, AllBack;
    var s := run[|run| - 1];
    RunsAreBounded(cfg, run, |run| - 1);
    if AllBack(cfg, s) {
      run' := run;
    } else {
      var s' := NextState(cfg, run);
      Extended(cfg, run, s');
      RunsAreBounded(cfg, run + [s'], |run|);
      run' := RunsComplete(cfg, run + [s']);
    }
  }

  lemma Extended<T(!new)>(cfg: Config<T>, run: seq<State<T>>, s': State<T>)
    requires IsRun(cfg, run) && Next(cfg, run[|run| - 1], s')
    ensures IsRun(cfg, run + [s'])
  {
    hide Init, Next;
    var more := run + [s'];
    forall k | 0 <= k < |more| - 1 ensures Next(cfg, more[k], more[k + 1]) {
      if k < |run| - 1 { assert Next(cfg, run[k], run[k + 1]); }
    }
  }

  lemma NextState<T(!new)>(cfg: Config<T>, run: seq<State<T>>) returns (s': State<T>)
    requires IsRun(cfg, run) && Shape(cfg, run[|run| - 1]) && !AllBack(cfg, run[|run| - 1])
    ensures Next(cfg, run[|run| - 1], s') == true
  {
    var s := run[|run| - 1];
    NoDeadlock(cfg, run, |run| - 1);
    var p: nat :| p < cfg.n && (CanAdvance(cfg, s, p) || CanLandPut(cfg, s, p) || CanLandFlag(cfg, s, p));
    s' := if CanAdvance(cfg, s, p) then Advance(cfg, s, p)
          else if CanLandPut(cfg, s, p) then LandPut(cfg, s, p) else LandFlag(cfg, s, p);
  }

  // ------------------------------------------------------------------ puts under way after the return

  /** Nothing can happen but that p's last put arrives. */
  ghost predicate StuckBut<T(!new)>(cfg: Config<T>, s: State<T>, p: nat)
    requires Shape(cfg, s) && p < cfg.n
  {
    forall q :: 0 <= q < cfg.n ==>
      !CanAdvance(cfg, s, q) && !CanLandFlag(cfg, s, q) &&
      (CanLandPut(cfg, s, q) ==> q == p && s.landed[p] == Rounds(cfg) - 1)
  }

  /** Then only the PE after p may still wait, and that in its last round. */
  lemma {:induction false} OthersAreBack<T(!new)>(cfg: Config<T>, s: State<T>, p: nat, q: nat)
    requires Inv(cfg, s) && p < cfg.n && StuckBut(cfg, s, p) && q < cfg.n
    requires q == Right(p, cfg.n) ==> s.round[q] < Rounds(cfg) - 1
    ensures s.pc[q].Done?
    decreases s.round[q]
  {
    var l := Left(q, cfg.n);
    WaitsOrIsBack(cfg, s, p, q);
    WaitsOrIsBack(cfg, s, p, l);
    assert FlowOk(cfg, s, q) && FlowOk(cfg, s, l);
    if s.pc[q].Wait? {
      if s.round[l] < s.round[q] {
        OthersAreBack(cfg, s, p, l);
      } else {
        BeforeAfter(q, 1, cfg.n);
        assert s.landed[l] > s.round[q];
        WaiterIsServedBy(cfg, s, q);
      }
    }
  }

  lemma WaitsOrIsBack<T(!new)>(cfg: Config<T>, s: State<T>, p: nat, q: nat)
    requires Inv(cfg, s) && p < cfg.n && StuckBut(cfg, s, p) && q < cfg.n
    ensures s.pc[q].Wait? || s.pc[q].Done?
    ensures !CanAdvance(cfg, s, q) && !CanLandFlag(cfg, s, q)
    ensures CanLandPut(cfg, s, q) ==> q == p && s.landed[p] == Rounds(cfg) - 1
  {
    assert !CanAdvance(cfg, s, q);
    if s.pc[q].Sync? {
      var r :| 0 <= r < cfg.n && s.pc[r].Start?;
      assert CanAdvance(cfg, s, r);
    }
  }

  lemma WaiterIsServedBy<T(!new)>(cfg: Config<T>, s: State<T>, q: nat)
    requires Inv(cfg, s) && q < cfg.n && s.pc[q].Wait?
    requires var l := Left(q, cfg.n);
             s.round[l] >= s.round[q] && (s.pc[l].Wait? || s.pc[l].Done?) && s.landed[l] > s.round[q] && !CanLandFlag(cfg, s, l)
    ensures CanAdvance(cfg, s, q)
  {
    assert FlowOk(cfg, s, q) && FlowOk(cfg, s, Left(q, cfg.n)) && SyncOk(cfg, s, q);
  }

  /**
    The call returns without waiting for what it has put.  From every state of every run in which
    p's last put has not arrived, the run can go on so that p returns and the put is still under way.
  */
  lemma {:induction false} PutsOutliveTheCall<T(!new)>(cfg: Config<T>, run: seq<State<T>>, p: nat) returns (run': seq<State<T>>)
    requires IsRun(cfg, run) && Shape(cfg, run[|run| - 1]) && p < cfg.n && run[|run| - 1].landed[p] < Rounds(cfg)
    ensures IsRun(cfg, run') && run <= run' && Shape(cfg, run'[|run'| - 1])
    ensures run'[|run'| - 1].pc[p].Done? && run'[|run'| - 1].landed[p] < Rounds(cfg)
    decreases cfg.n * (8 * Rounds(cfg) + 7) - |run|
  {
    hide Init, CanAdvance, CanLandPut, CanLandFlag, Next, FlowOk, SyncOk, SourceOk, TargetOk;
    var s := run[|run| - 1];
    RunKeepsInv(cfg, run, |run| - 1);
    RunsAreBounded(cfg, run, |run| - 1);
    if StuckBut(cfg, s, p) {
      run' := run;
      RingHasTwo(p, cfg.n);
      OthersAreBack(cfg, s, p, p);
    } else {
      var s' := NextBut(cfg, s, p);
      Extended(cfg, run, s');
      RunsAreBounded(cfg, run + [s'], |run|);
      run' := PutsOutliveTheCall(cfg, run + [s'], p);
    }
  }

  lemma RingHasTwo(p: nat, n: nat)
    requires n >= 2 && p < n
    ensures Right(p, n) != p
  {
    ModBelowTwice(p + 1, n);
  }

  lemma NextBut<T(!new)>(cfg: Config<T>, s: State<T>, p: nat) returns (s': State<T>)
    requires Shape(cfg, s) && p < cfg.n && !StuckBut(cfg, s, p) && s.landed[p] < Rounds(cfg)
    ensures Next(cfg, s, s') == true && |s'.landed| == cfg.n && s'.landed[p] < Rounds(cfg)
  {
    hide CopyChunk, ReduceChunk, PutSource;
    var q: nat :| q < cfg.n && (CanAdvance(cfg, s, q) || CanLandFlag(cfg, s, q) ||
                                (CanLandPut(cfg, s, q) && !(q == p && s.landed[p] == Rounds(cfg) - 1)));
    s' := if CanAdvance(cfg, s, q) then Advance(cfg, s, q)
          else if CanLandFlag(cfg, s, q) then LandFlag(cfg, s, q) else LandPut(cfg, s, q);
  }

  /**
    So in the all-reduce, whose puts do not wait for their source either, what the caller stores
    into its target right after the return can be sent in place of the result.
  */
  lemma LateStoreIsSent<T(!new)>(cfg: Config<T>, s: State<T>, p: nat, stored: seq<T>, e: nat)
    requires Inv(cfg, s) && p < cfg.n && cfg.kind.AllReduce? && s.pc[p].Done? && 0 < s.landed[p] < Rounds(cfg)
    requires |stored| == cfg.count && e < cfg.count && InChunk(e, Before(p, s.landed[p], cfg.n), cfg.count, cfg.n)
    ensures var s' := s.(target := s.target[p := stored]);
            && CanLandPut(cfg, s', p)
            && LandPut(cfg, s', p).target[Right(p, cfg.n)][e] == stored[e]
  {
    assert FlowOk(cfg, s, p);
    RingHasTwo(p, cfg.n);
  }

  /** It cannot once the PE after p is past its last wait: by then all that p has put has arrived. */
  lemma PutsHaveArrived<T(!new)>(cfg: Config<T>, run: seq<State<T>>, k: nat, p: nat)
    requires IsRun(cfg, run) && k < |run| && Shape(cfg, run[k]) && p < cfg.n
    requires Waits(run[k], Right(p, cfg.n)) == Rounds(cfg)
    ensures run[k].landed[p] == Rounds(cfg) && run[k].flagged[p] == Rounds(cfg)
    ensures !CanLandPut(cfg, run[k], p)
  {
    RunKeepsInv(cfg, run, k);
    var s := run[k];
    BeforeAfter(p, 1, cfg.n);
    assert FlowOk(cfg, s, p) && FlowOk(cfg, s, Right(p, cfg.n));
    PutsAreInRounds(cfg, s, p);
  }
}
