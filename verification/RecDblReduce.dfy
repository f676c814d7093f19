/**
  The recursive-doubling all-reduce of src/collectives.c for any number of PEs, as one call
  from zeroed pSync words.

  Let 2^k be the largest power of two up to n.  Each PE 2^k + p beyond it first hands its
  contribution to PE p and gets the result back at the end.  In round i the others exchange
  their partial results with the PE whose rank differs in bit i.  Every exchange reuses the
  caller's target as a scratch buffer, so the lower rank of a pair first tells the other one
  that its target is free (1) and every put is announced by a second flag (2).

  A put, and the flag fenced behind it, travel after the step that issues them; the flag lands
  after its put, and nothing else is ordered.  Words 0 .. k - 1 of a PE are the rounds' pSync
  words; word k is the one the extra PEs use.  PEs are named by their rank in the active set, and
  T stands for a whole buffer of `count` elements.
*/
module RecDblReduce {
  import opened Arith
  import opened Hypercube
  import opened Progress
  import opened Reduction

  datatype Config<!T> = Config(n: nat, k: nat, op: (T, T) -> T, src: seq<T>, inPlace: bool)

  ghost predicate WellFormed<T(!new)>(cfg: Config<T>) {
    && cfg.k >= 1 && Pow2(cfg.k) <= cfg.n < 2 * Pow2(cfg.k)
    && |cfg.src| == cfg.n
    && AssociativeCommutative(cfg.op)
  }

  datatype Stage =
    | Start                                       // copy the source to the private buffer
    | XOffer | XAwait | XReduce | XPut | XFlag    // the exchange with an extra PE
    | Offer | Await | Put | Flag | Reduce         // a round
    | Copy | Reset | Done

  /**
    sent[(p, i)] is the put p has issued in exchange i; readyIn, dataIn and flagIn hold (p, i)
    once p's first flag, its put and its second flag of exchange i have landed.
  */
  datatype State<T> = State(
    stage: seq<Stage>, round: seq<nat>, cur: seq<T>, tgt: seq<T>, ps: seq<seq<int>>,
    sent: map<(nat, nat), T>, readyIn: set<(nat, nat)>, dataIn: set<(nat, nat)>, flagIn: set<(nat, nat)>)

  function Size<T>(cfg: Config<T>): nat {
    Pow2(cfg.k)
  }

  /** Exchanges 0 .. k - 1 are the rounds, exchange k is the one with an extra PE. */
  predicate HasPartner<T>(cfg: Config<T>, p: nat, i: nat) {
    if i < cfg.k then p < Size(cfg) else i == cfg.k && p < cfg.n && (p >= Size(cfg) || p + Size(cfg) < cfg.n)
  }

  function Partner<T>(cfg: Config<T>, p: nat, i: nat): nat
    requires HasPartner(cfg, p, i)
  {
    if i < cfg.k then Flip(p, i) else if p < Size(cfg) then p + Size(cfg) else p - Size(cfg)
  }

  predicate IsLower<T>(cfg: Config<T>, p: nat, i: nat)
    requires HasPartner(cfg, p, i)
  {
    p < Partner(cfg, p, i)
  }

  /** Partners are mutual, and one of the two is the lower one. */
  lemma PartnersAreMutual<T(!new)>(cfg: Config<T>, p: nat, i: nat)
    requires WellFormed(cfg) && HasPartner(cfg, p, i)
    ensures p < cfg.n && Partner(cfg, p, i) < cfg.n && HasPartner(cfg, Partner(cfg, p, i), i)
    ensures Partner(cfg, Partner(cfg, p, i), i) == p
    ensures IsLower(cfg, p, i) <==> !IsLower(cfg, Partner(cfg, p, i), i)
  {
    if i < cfg.k {
      FlipTwice(p, i);
      FlipStaysBelow(p, i, cfg.k);
    }
  }

  ghost predicate Shape<T(!new)>(cfg: Config<T>, s: State<T>) {
    && WellFormed(cfg)
    && |s.stage| == |s.round| == |s.cur| == |s.tgt| == |s.ps| == cfg.n
    && (forall p :: 0 <= p < cfg.n ==> |s.ps[p]| == cfg.k + 1)
    && (forall p :: 0 <= p < Size(cfg) ==> s.round[p] <= cfg.k)
    && (forall p :: 0 <= p < Size(cfg) ==> InRound(s.stage[p]) ==> s.round[p] < cfg.k)
  }

  predicate InRound(stage: Stage) {
    stage.Offer? || stage.Await? || stage.Put? || stage.Flag? || stage.Reduce?
  }

  ghost predicate Init<T(!new)>(cfg: Config<T>, s: State<T>) {
    && Shape(cfg, s)
    && (forall p :: 0 <= p < cfg.n ==> s.stage[p] == Start && s.round[p] == 0)
    && (forall p, i :: 0 <= p < cfg.n && 0 <= i <= cfg.k ==> s.ps[p][i] == 0)
    && (cfg.inPlace ==> s.tgt == cfg.src)
    && s.sent == map[] && s.readyIn == s.dataIn == s.flagIn == {}
  }

  // ------------------------------------------------------------------ the steps

  /** The exchange whose partner p talks to next. */
  function Slot<T>(cfg: Config<T>, s: State<T>, p: nat): nat
    requires p < |s.stage| == |s.round|
  {
    if InRound(s.stage[p]) then s.round[p] else cfg.k
  }

  ghost predicate CanAdvance<T(!new)>(cfg: Config<T>, s: State<T>, p: nat)
    requires Shape(cfg, s) && p < cfg.n
  {
    match s.stage[p]
    case XOffer => p >= Size(cfg) ==> s.ps[p][cfg.k] == 1
    case XAwait => s.ps[p][cfg.k] == 2
    case Offer => p < Size(cfg) && (!IsLower(cfg, p, s.round[p]) ==> s.ps[p][s.round[p]] == 1)
    case Await => p < Size(cfg) && s.ps[p][s.round[p]] == 2
    case Put => p < Size(cfg)
    case Flag => p < Size(cfg)
    case Reduce => p < Size(cfg)
    case Done => false
    case _ => true
  }

  function Goto<T>(s: State<T>, p: nat, stage: Stage): State<T>
    requires p < |s.stage|
  {
    s.(stage := s.stage[p := stage])
  }

  /** Where p goes when round i is over. */
  function AfterRound<T>(cfg: Config<T>, p: nat, i: nat): Stage {
    if i + 1 < cfg.k then Offer else if HasPartner(cfg, p, cfg.k) then XPut else Copy
  }

  ghost function Advance<T(!new)>(cfg: Config<T>, s: State<T>, p: nat): State<T>
    requires Shape(cfg, s) && p < cfg.n && CanAdvance(cfg, s, p)
  {
    match s.stage[p]
    case Start =>
      Goto(s.(cur := s.cur[p := if cfg.inPlace then s.tgt[p] else cfg.src[p]]),
           p, if HasPartner(cfg, p, cfg.k) then XOffer else Offer)
    case XOffer => Goto(s, p, if p < Size(cfg) then XAwait else XPut)
    case XAwait => Goto(s, p, if p < Size(cfg) then XReduce else Reset)
    case XReduce => Goto(s.(cur := s.cur[p := cfg.op(s.cur[p], s.tgt[p])]), p, Offer)
    case XPut => Goto(s.(sent := s.sent[(p, cfg.k) := s.cur[p]]), p, XFlag)
    case XFlag => Goto(s, p, if p < Size(cfg) then Copy else XAwait)
    case Offer => Goto(s, p, if IsLower(cfg, p, s.round[p]) then Await else Put)
    case Await => Goto(s, p, if IsLower(cfg, p, s.round[p]) then Put else Reduce)
    case Put => Goto(s.(sent := s.sent[(p, s.round[p]) := s.cur[p]]), p, Flag)
    case Flag => Goto(s, p, if IsLower(cfg, p, s.round[p]) then Reduce else Await)
    case Reduce =>
      Goto(s.(cur := s.cur[p := cfg.op(s.cur[p], s.tgt[p])], round := s.round[p := s.round[p] + 1]),
           p, AfterRound(cfg, p, s.round[p]))
    case Copy => Goto(s.(tgt := s.tgt[p := s.cur[p]]), p, Reset)
    case Reset => Goto(s.(ps := s.ps[p := seq(cfg.k + 1, _ => 0)]), p, Done)
    case Done => s
  }

  /** p has passed its first step of exchange i: it sent or received the first flag. */
  predicate Offered<T>(cfg: Config<T>, s: State<T>, p: nat, i: nat)
    requires HasPartner(cfg, p, i) && p < |s.stage| == |s.round|
  {
    if i == cfg.k then !s.stage[p].Start? && !s.stage[p].XOffer?
    else s.round[p] > i || (s.round[p] == i && InRound(s.stage[p]) && !s.stage[p].Offer?)
  }

  /** p has issued its put of exchange i. */
  predicate PutDone<T>(cfg: Config<T>, s: State<T>, p: nat, i: nat)
    requires HasPartner(cfg, p, i) && p < |s.stage| == |s.round|
  {
    if i == cfg.k then
      if p < Size(cfg) then s.stage[p].XFlag? || s.stage[p].Copy? || s.stage[p].Reset? || s.stage[p].Done?
      else !s.stage[p].Start? && !s.stage[p].XOffer? && !s.stage[p].XPut?
    else
      s.round[p] > i
      || (s.round[p] == i
          && (s.stage[p].Flag? || s.stage[p].Reduce? || (s.stage[p].Await? && !IsLower(cfg, p, i))))
  }

  /** p has issued its second flag of exchange i. */
  predicate FlagDone<T>(cfg: Config<T>, s: State<T>, p: nat, i: nat)
    requires HasPartner(cfg, p, i) && p < |s.stage| == |s.round|
  {
    PutDone(cfg, s, p, i) && !(i == Slot(cfg, s, p) && (s.stage[p].Flag? || s.stage[p].XFlag?))
  }

  /** p has seen the second flag of its partner in exchange i. */
  predicate AwaitDone<T>(cfg: Config<T>, s: State<T>, p: nat, i: nat)
    requires HasPartner(cfg, p, i) && p < |s.stage| == |s.round|
  {
    if i == cfg.k then
      if p < Size(cfg) then !s.stage[p].Start? && !s.stage[p].XOffer? && !s.stage[p].XAwait?
      else s.stage[p].Reset? || s.stage[p].Done?
    else
      s.round[p] > i
      || (s.round[p] == i
          && (s.stage[p].Reduce? || ((s.stage[p].Put? || s.stage[p].Flag?) && IsLower(cfg, p, i))))
  }

  ghost predicate CanLandReady<T(!new)>(cfg: Config<T>, s: State<T>, p: nat, i: nat)
    requires Shape(cfg, s) && HasPartner(cfg, p, i) && p < cfg.n
  {
    IsLower(cfg, p, i) && Offered(cfg, s, p, i) && (p, i) !in s.readyIn
  }

  ghost predicate CanLandData<T(!new)>(cfg: Config<T>, s: State<T>, p: nat, i: nat)
    requires Shape(cfg, s) && HasPartner(cfg, p, i) && p < cfg.n
  {
    (p, i) in s.sent && (p, i) !in s.dataIn
  }

  ghost predicate CanLandFlag<T(!new)>(cfg: Config<T>, s: State<T>, p: nat, i: nat)
    requires Shape(cfg, s) && HasPartner(cfg, p, i) && p < cfg.n
  {
    FlagDone(cfg, s, p, i) && (p, i) in s.dataIn && (p, i) !in s.flagIn
  }

  function SetWord(ps: seq<seq<int>>, p: nat, i: nat, v: int): (r: seq<seq<int>>)
    requires p < |ps| && i < |ps[p]|
    ensures |r| == |ps|
    ensures forall q :: 0 <= q < |ps| ==> |r[q]| == |ps[q]|
    ensures forall q, j :: 0 <= q < |ps| && 0 <= j < |ps[q]| ==> r[q][j] == if q == p && j == i then v else ps[q][j]
  {
    ps[p := ps[p][i := v]]
  }

  ghost function LandReady<T(!new)>(cfg: Config<T>, s: State<T>, p: nat, i: nat): (r: State<T>)
    requires Shape(cfg, s) && HasPartner(cfg, p, i) && p < cfg.n
    ensures Shape(cfg, r)
  {
    PartnersAreMutual(cfg, p, i);
    s.(readyIn := s.readyIn + {(p, i)}, ps := SetWord(s.ps, Partner(cfg, p, i), i, 1))
  }

  ghost function LandData<T(!new)>(cfg: Config<T>, s: State<T>, p: nat, i: nat): (r: State<T>)
    requires Shape(cfg, s) && HasPartner(cfg, p, i) && p < cfg.n && CanLandData(cfg, s, p, i)
    ensures Shape(cfg, r)
  {
    PartnersAreMutual(cfg, p, i);
    s.(dataIn := s.dataIn + {(p, i)}, tgt := s.tgt[Partner(cfg, p, i) := s.sent[(p, i)]])
  }

  ghost function LandFlag<T(!new)>(cfg: Config<T>, s: State<T>, p: nat, i: nat): (r: State<T>)
    requires Shape(cfg, s) && HasPartner(cfg, p, i) && p < cfg.n
    ensures Shape(cfg, r)
  {
    PartnersAreMutual(cfg, p, i);
    s.(flagIn := s.flagIn + {(p, i)}, ps := SetWord(s.ps, Partner(cfg, p, i), i, 2))
  }

  ghost predicate Lands<T(!new)>(cfg: Config<T>, s: State<T>, p: nat, i: nat, s': State<T>)
    requires Shape(cfg, s)
  {
    && p < cfg.n && HasPartner(cfg, p, i)
    && (|| (CanLandReady(cfg, s, p, i) && s' == LandReady(cfg, s, p, i))
        || (CanLandData(cfg, s, p, i) && s' == LandData(cfg, s, p, i))
        || (CanLandFlag(cfg, s, p, i) && s' == LandFlag(cfg, s, p, i)))
  }

  ghost predicate Next<T(!new)>(cfg: Config<T>, s: State<T>, s': State<T>) {
    && Shape(cfg, s)
    && (|| (exists p: nat :: p < cfg.n && CanAdvance(cfg, s, p) && s' == Advance(cfg, s, p))
        || (exists p: nat, i: nat :: Lands(cfg, s, p, i, s')))
  }

  // ------------------------------------------------------------------ what the buffers should hold

  /** The PE that carries q's contribution through the rounds. */
  function Core<T>(cfg: Config<T>, q: nat): nat {
    if q < Size(cfg) then q else q - Size(cfg)
  }

  /** The PEs whose contributions p holds when it starts round i: its aligned group and that group's extras. */
  function Group<T>(cfg: Config<T>, p: nat, i: nat): (g: set<nat>)
    requires p < Size(cfg) <= cfg.n
    ensures p in g
    ensures forall q :: q in g <==> 0 <= q < cfg.n && Shift(Core(cfg, q), i) == Shift(p, i)
  {
    set q: nat | q < cfg.n && Shift(Core(cfg, q), i) == Shift(p, i)
  }

  ghost function GroupFold<T(!new)>(cfg: Config<T>, p: nat, i: nat): T
    requires WellFormed(cfg) && p < Size(cfg)
  {
    SetFold(cfg.op, cfg.src, Group(cfg, p, i))
  }

  ghost function Full<T(!new)>(cfg: Config<T>): T
    requires WellFormed(cfg)
  {
    RankFold(cfg.op, cfg.src, cfg.n)
  }

  lemma GroupStarts<T(!new)>(cfg: Config<T>, p: nat)
    requires WellFormed(cfg) && p < Size(cfg)
    ensures GroupFold(cfg, p, 0) ==
            if p + Size(cfg) < cfg.n then cfg.op(cfg.src[p], cfg.src[p + Size(cfg)]) else cfg.src[p]
  {
    SetFoldOne(cfg.op, cfg.src, p);
    if p + Size(cfg) < cfg.n {
      SetFoldOne(cfg.op, cfg.src, p + Size(cfg));
      assert Group(cfg, p, 0) == {p} + {p + Size(cfg)};
      SetFoldUnion(cfg.op, cfg.src, {p}, {p + Size(cfg)});
    } else {
      assert Group(cfg, p, 0) == {p};
    }
  }

  lemma SiblingGroups<T(!new)>(cfg: Config<T>, p: nat, i: nat)
    requires WellFormed(cfg) && p < Size(cfg) && i < cfg.k
    ensures Flip(p, i) < Size(cfg)
    ensures Group(cfg, p, i) !! Group(cfg, Flip(p, i), i)
    ensures Group(cfg, p, i + 1) == Group(cfg, p, i) + Group(cfg, Flip(p, i), i)
  {
    FlipStaysBelow(p, i, cfg.k);
    FlipSwapsHalves(p, i);
    ShiftHalves(p, i);
    forall q | 0 <= q < cfg.n
      ensures Shift(Core(cfg, q), i + 1) == Shift(p, i + 1) <==>
              Shift(Core(cfg, q), i) == Shift(p, i) || Shift(Core(cfg, q), i) == Flip(Shift(p, i), 0)
    {
      ShiftHalves(Core(cfg, q), i);
    }
  }

  /** One round joins two sibling groups. */
  lemma GroupGrows<T(!new)>(cfg: Config<T>, p: nat, i: nat)
    requires WellFormed(cfg) && p < Size(cfg) && i < cfg.k
    ensures Flip(p, i) < Size(cfg)
    ensures GroupFold(cfg, p, i + 1) == cfg.op(GroupFold(cfg, p, i), GroupFold(cfg, Flip(p, i), i))
  {
    SiblingGroups(cfg, p, i);
    SetFoldUnion(cfg.op, cfg.src, Group(cfg, p, i), Group(cfg, Flip(p, i), i));
  }

  /** After k rounds every PE below 2^k has everything. */
  lemma GroupEndsFull<T(!new)>(cfg: Config<T>, p: nat)
    requires WellFormed(cfg) && p < Size(cfg)
    ensures GroupFold(cfg, p, cfg.k) == Full(cfg)
  {
    ShiftToZero(p, cfg.k);
    forall q | 0 <= q < cfg.n ensures Shift(Core(cfg, q), cfg.k) == 0 {
      ShiftToZero(Core(cfg, q), cfg.k);
    }
    assert Group(cfg, p, cfg.k) == Ranks(cfg.n);
    SetFoldIsRankFold(cfg.op, cfg.src, cfg.n);
  }

  // ------------------------------------------------------------------ the invariant

  /** Which stages and rounds go together. */
  ghost predicate StageOk<T(!new)>(cfg: Config<T>, s: State<T>, p: nat)
    requires Shape(cfg, s) && p < cfg.n
  {
    if p < Size(cfg) then
      match s.stage[p]
      case Start => s.round[p] == 0
      case XOffer => s.round[p] == 0 && HasPartner(cfg, p, cfg.k)
      case XAwait => s.round[p] == 0 && HasPartner(cfg, p, cfg.k)
      case XReduce => s.round[p] == 0 && HasPartner(cfg, p, cfg.k)
      case XPut => s.round[p] == cfg.k && HasPartner(cfg, p, cfg.k)
      case XFlag => s.round[p] == cfg.k && HasPartner(cfg, p, cfg.k)
      case Copy => s.round[p] == cfg.k
      case Reset => s.round[p] == cfg.k
      case Done => s.round[p] == cfg.k
      case _ => s.round[p] < cfg.k
    else
      !InRound(s.stage[p]) && !s.stage[p].XReduce? && !s.stage[p].Copy?
  }

  /** What happened in exchange i, seen from p, in an order that cannot be otherwise. */
  ghost predicate LinkOk<T(!new)>(cfg: Config<T>, s: State<T>, p: nat, i: nat)
    requires Shape(cfg, s) && HasPartner(cfg, p, i) && p < cfg.n && Partner(cfg, p, i) < cfg.n
    requires HasPartner(cfg, Partner(cfg, p, i), i)
  {
    var q := Partner(cfg, p, i);
    && ((p, i) in s.readyIn ==> IsLower(cfg, p, i) && Offered(cfg, s, p, i))
    && ((p, i) in s.sent <==> PutDone(cfg, s, p, i))
    && ((p, i) in s.dataIn ==> (p, i) in s.sent)
    && ((p, i) in s.flagIn ==> FlagDone(cfg, s, p, i) && (p, i) in s.dataIn)
    && (AwaitDone(cfg, s, q, i) ==> (p, i) in s.flagIn)
    && (IsLower(cfg, p, i) && Offered(cfg, s, q, i) ==> (p, i) in s.readyIn)
  }

  /** The word holds the last flag that came, until p clears it. */
  ghost predicate WordOk<T(!new)>(cfg: Config<T>, s: State<T>, p: nat, i: nat)
    requires Shape(cfg, s) && HasPartner(cfg, p, i) && p < cfg.n && i <= cfg.k
  {
    var q := Partner(cfg, p, i);
    s.ps[p][i] == if s.stage[p].Done? then 0 else if (q, i) in s.flagIn then 2 else if (q, i) in s.readyIn then 1 else 0
  }

  ghost predicate ExchangeOk<T(!new)>(cfg: Config<T>, s: State<T>, p: nat, i: nat)
    requires Shape(cfg, s)
  {
    p < cfg.n && i <= cfg.k ==>
      if HasPartner(cfg, p, i) then
        && Partner(cfg, p, i) < cfg.n && HasPartner(cfg, Partner(cfg, p, i), i)
        && LinkOk(cfg, s, p, i)
        && WordOk(cfg, s, p, i)
      else s.ps[p][i] == 0
  }

  /** What p sends in exchange i. */
  ghost function Value<T(!new)>(cfg: Config<T>, p: nat, i: nat): T
    requires WellFormed(cfg) && p < cfg.n && HasPartner(cfg, p, i)
  {
    if i < cfg.k then GroupFold(cfg, p, i) else if p < Size(cfg) then Full(cfg) else cfg.src[p]
  }

  ghost predicate SentOk<T(!new)>(cfg: Config<T>, s: State<T>, p: nat, i: nat)
    requires Shape(cfg, s)
  {
    p < cfg.n && HasPartner(cfg, p, i) && (p, i) in s.sent ==> s.sent[(p, i)] == Value(cfg, p, i)
  }

  ghost predicate CurOk<T(!new)>(cfg: Config<T>, s: State<T>, p: nat)
    requires Shape(cfg, s) && p < cfg.n
  {
    if s.stage[p].Start? then true
    else if p >= Size(cfg) || s.stage[p].XOffer? || s.stage[p].XAwait? || s.stage[p].XReduce? then s.cur[p] == cfg.src[p]
    else s.cur[p] == GroupFold(cfg, p, s.round[p])
  }

  /** The target is scratch: it matters from the landing of a put to the fold that reads it. */
  ghost predicate TgtOk<T(!new)>(cfg: Config<T>, s: State<T>, p: nat)
    requires Shape(cfg, s) && p < cfg.n
  {
    && (cfg.inPlace && s.stage[p].Start? ==> s.tgt[p] == cfg.src[p])
    && (p < Size(cfg) && InRound(s.stage[p]) && (Flip(p, s.round[p]), s.round[p]) in s.dataIn ==>
          Flip(p, s.round[p]) < Size(cfg) && s.tgt[p] == GroupFold(cfg, Flip(p, s.round[p]), s.round[p]))
    && (p + Size(cfg) < cfg.n && (s.stage[p].XAwait? || s.stage[p].XReduce?) && (p + Size(cfg), cfg.k) in s.dataIn ==>
          s.tgt[p] == cfg.src[p + Size(cfg)])
    && (p < Size(cfg) && (s.stage[p].Reset? || s.stage[p].Done?) ==> s.tgt[p] == Full(cfg))
    && (p >= Size(cfg) && (p - Size(cfg), cfg.k) in s.dataIn ==> s.tgt[p] == Full(cfg))
  }

  ghost predicate Inv<T(!new)>(cfg: Config<T>, s: State<T>) {
    && Shape(cfg, s)
    && (forall p :: 0 <= p < cfg.n ==> StageOk(cfg, s, p))
    && (forall p: nat, i: nat :: ExchangeOk(cfg, s, p, i))
    && (forall p: nat, i: nat :: SentOk(cfg, s, p, i))
    && (forall p :: 0 <= p < cfg.n ==> CurOk(cfg, s, p))
    && (forall p :: 0 <= p < cfg.n ==> TgtOk(cfg, s, p))
  }

  lemma InitEstablishesInv<T(!new)>(cfg: Config<T>, s: State<T>)
    requires Init(cfg, s)
    ensures Inv(cfg, s)
  {
    forall p: nat, i: nat ensures ExchangeOk(cfg, s, p, i) {
      if HasPartner(cfg, p, i) { PartnersAreMutual(cfg, p, i); }
    }
  }

  /** A put of exchange i is issued only after the partner has offered its target. */
  lemma PutNeedsOffer<T(!new)>(cfg: Config<T>, s: State<T>, p: nat, i: nat)
    requires Inv(cfg, s) && HasPartner(cfg, p, i) && (p, i) in s.sent
    ensures p < cfg.n && Partner(cfg, p, i) < cfg.n && HasPartner(cfg, Partner(cfg, p, i), i)
    ensures Offered(cfg, s, Partner(cfg, p, i), i)
  {
    PartnersAreMutual(cfg, p, i);
    var q := Partner(cfg, p, i);
    assert ExchangeOk(cfg, s, p, i) && ExchangeOk(cfg, s, q, i);
    assert StageOk(cfg, s, p) && StageOk(cfg, s, q);
  }

  /**
    No put lands on scratch data that is still unread: the PE it reaches is in that exchange,
    between offering its target and reading it.
  */
  lemma PutFindsTargetFree<T(!new)>(cfg: Config<T>, s: State<T>, p: nat, i: nat)
    requires Inv(cfg, s) && HasPartner(cfg, p, i) && (p, i) in s.sent && (p, i) !in s.dataIn
    ensures p < cfg.n && Partner(cfg, p, i) < cfg.n && HasPartner(cfg, Partner(cfg, p, i), i)
    ensures Offered(cfg, s, Partner(cfg, p, i), i) && !AwaitDone(cfg, s, Partner(cfg, p, i), i)
  {
    PutNeedsOffer(cfg, s, p, i);
    assert ExchangeOk(cfg, s, p, i);
  }

  // ------------------------------------------------------------------ landings keep it

  lemma LandReadyKeepsOwnExchange<T(!new)>(cfg: Config<T>, s: State<T>, p: nat, i: nat)
    requires Inv(cfg, s) && HasPartner(cfg, p, i) && p < cfg.n && CanLandReady(cfg, s, p, i)
    ensures Partner(cfg, p, i) < cfg.n
    ensures ExchangeOk(cfg, LandReady(cfg, s, p, i), p, i) == true
    ensures ExchangeOk(cfg, LandReady(cfg, s, p, i), Partner(cfg, p, i), i) == true
  {
    PartnersAreMutual(cfg, p, i);
    var o := Partner(cfg, p, i);
    assert ExchangeOk(cfg, s, p, i) && ExchangeOk(cfg, s, o, i);
    assert StageOk(cfg, s, o);
  }

  lemma LandReadyKeepsExchange<T(!new)>(cfg: Config<T>, s: State<T>, p: nat, i: nat, q: nat, j: nat)
    requires Inv(cfg, s) && HasPartner(cfg, p, i) && p < cfg.n && CanLandReady(cfg, s, p, i)
    ensures ExchangeOk(cfg, LandReady(cfg, s, p, i), q, j) == true
  {
    PartnersAreMutual(cfg, p, i);
    if j == i && (q == p || q == Partner(cfg, p, i)) {
      LandReadyKeepsOwnExchange(cfg, s, p, i);
    } else {
      assert ExchangeOk(cfg, s, q, j);
      if j <= cfg.k && HasPartner(cfg, q, j) { PartnersAreMutual(cfg, q, j); }
    }
  }

  lemma LandReadyKeepsInv<T(!new)>(cfg: Config<T>, s: State<T>, p: nat, i: nat)
    requires Inv(cfg, s) && HasPartner(cfg, p, i) && p < cfg.n && CanLandReady(cfg, s, p, i)
    ensures Inv(cfg, LandReady(cfg, s, p, i)) == true
  {
    var s' := LandReady(cfg, s, p, i);
    forall q: nat, j: nat ensures ExchangeOk(cfg, s', q, j) && SentOk(cfg, s', q, j) {
      LandReadyKeepsExchange(cfg, s, p, i, q, j);
      assert SentOk(cfg, s, q, j);
    }
    forall q | 0 <= q < cfg.n ensures StageOk(cfg, s', q) && CurOk(cfg, s', q) && TgtOk(cfg, s', q) {
      assert StageOk(cfg, s, q) && CurOk(cfg, s, q) && TgtOk(cfg, s, q);
    }
  }

  lemma LandFlagKeepsOwnExchange<T(!new)>(cfg: Config<T>, s: State<T>, p: nat, i: nat)
    requires Inv(cfg, s) && HasPartner(cfg, p, i) && p < cfg.n && CanLandFlag(cfg, s, p, i)
    ensures Partner(cfg, p, i) < cfg.n
    ensures ExchangeOk(cfg, LandFlag(cfg, s, p, i), p, i) == true
    ensures ExchangeOk(cfg, LandFlag(cfg, s, p, i), Partner(cfg, p, i), i) == true
  {
    PartnersAreMutual(cfg, p, i);
    var o := Partner(cfg, p, i);
    assert ExchangeOk(cfg, s, p, i) && ExchangeOk(cfg, s, o, i);
    assert StageOk(cfg, s, o);
  }

  lemma LandFlagKeepsExchange<T(!new)>(cfg: Config<T>, s: State<T>, p: nat, i: nat, q: nat, j: nat)
    requires Inv(cfg, s) && HasPartner(cfg, p, i) && p < cfg.n && CanLandFlag(cfg, s, p, i)
    ensures ExchangeOk(cfg, LandFlag(cfg, s, p, i), q, j) == true
  {
    hide SentOk, CurOk, TgtOk, SetFold, Group, AssociativeCommutative, Pow2, Flip;
    PartnersAreMutual(cfg, p, i);
    if j == i && (q == p || q == Partner(cfg, p, i)) {
      LandFlagKeepsOwnExchange(cfg, s, p, i);
    } else {
      assert ExchangeOk(cfg, s, q, j);
      if j <= cfg.k && HasPartner(cfg, q, j) { PartnersAreMutual(cfg, q, j); }
    }
  }

  lemma LandFlagKeepsInv<T(!new)>(cfg: Config<T>, s: State<T>, p: nat, i: nat)
    requires Inv(cfg, s) && HasPartner(cfg, p, i) && p < cfg.n && CanLandFlag(cfg, s, p, i)
    ensures Inv(cfg, LandFlag(cfg, s, p, i)) == true
  {
    var s' := LandFlag(cfg, s, p, i);
    forall q: nat, j: nat ensures ExchangeOk(cfg, s', q, j) && SentOk(cfg, s', q, j) {
      LandFlagKeepsExchange(cfg, s, p, i, q, j);
      assert SentOk(cfg, s, q, j);
    }
    forall q | 0 <= q < cfg.n ensures StageOk(cfg, s', q) && CurOk(cfg, s', q) && TgtOk(cfg, s', q) {
      assert StageOk(cfg, s, q) && CurOk(cfg, s, q) && TgtOk(cfg, s, q);
    }
  }

  lemma LandDataKeepsTarget<T(!new)>(cfg: Config<T>, s: State<T>, p: nat, i: nat, q: nat)
    requires Inv(cfg, s) && HasPartner(cfg, p, i) && p < cfg.n && CanLandData(cfg, s, p, i) && q < cfg.n
    ensures TgtOk(cfg, LandData(cfg, s, p, i), q)
  {
    PartnersAreMutual(cfg, p, i);
    PutFindsTargetFree(cfg, s, p, i);
    assert TgtOk(cfg, s, q) && StageOk(cfg, s, q) && SentOk(cfg, s, p, i);
    if p < Size(cfg) && i < cfg.k { FlipStaysBelow(p, i, cfg.k); }
    if InRound(s.stage[q]) && q < Size(cfg) { FlipTwice(q, s.round[q]); FlipStaysBelow(q, s.round[q], cfg.k); }
  }

  lemma LandDataKeepsInv<T(!new)>(cfg: Config<T>, s: State<T>, p: nat, i: nat)
    requires Inv(cfg, s) && HasPartner(cfg, p, i) && p < cfg.n && CanLandData(cfg, s, p, i)
    ensures Inv(cfg, LandData(cfg, s, p, i)) == true
  {
    var s' := LandData(cfg, s, p, i);
    forall q: nat, j: nat ensures ExchangeOk(cfg, s', q, j) && SentOk(cfg, s', q, j) {
      assert ExchangeOk(cfg, s, q, j) && SentOk(cfg, s, q, j);
    }
    forall q | 0 <= q < cfg.n ensures StageOk(cfg, s', q) && CurOk(cfg, s', q) && TgtOk(cfg, s', q) {
      assert StageOk(cfg, s, q) && CurOk(cfg, s, q);
      LandDataKeepsTarget(cfg, s, p, i, q);
    }
  }

  // ------------------------------------------------------------------ local steps keep it

  /** A step of p only touches the exchange it is in. */
  lemma OtherExchangesStay<T(!new)>(cfg: Config<T>, s: State<T>, p: nat, q: nat, i: nat)
    requires Inv(cfg, s) && p < cfg.n && CanAdvance(cfg, s, p)
    requires HasPartner(cfg, q, i) && q < cfg.n && (q != p || i != Slot(cfg, s, p) || s.stage[p].Start?)
    ensures var s' := Advance(cfg, s, p);
            && Offered(cfg, s', q, i) == Offered(cfg, s, q, i)
            && PutDone(cfg, s', q, i) == PutDone(cfg, s, q, i)
            && FlagDone(cfg, s', q, i) == FlagDone(cfg, s, q, i)
            && AwaitDone(cfg, s', q, i) == AwaitDone(cfg, s, q, i)
            && ((q, i) in s'.sent <==> (q, i) in s.sent)
  {
    hide ExchangeOk, LinkOk, WordOk, SentOk, CurOk, TgtOk, SetFold, Group, AssociativeCommutative, Pow2;
    assert StageOk(cfg, s, p);
  }

  lemma AdvanceKeepsShape<T(!new)>(cfg: Config<T>, s: State<T>, p: nat)
    requires Inv(cfg, s) && p < cfg.n && CanAdvance(cfg, s, p)
    ensures Shape(cfg, Advance(cfg, s, p)) == true
  {
    assert StageOk(cfg, s, p);
  }

  /** The exchange p is in, and the one with an extra PE, after a step of p. */
  lemma AdvanceKeepsOwnSide<T(!new)>(cfg: Config<T>, s: State<T>, p: nat, i: nat)
    requires Inv(cfg, s) && p < cfg.n && CanAdvance(cfg, s, p)
    requires i == Slot(cfg, s, p) && HasPartner(cfg, p, i)
    requires Shape(cfg, Advance(cfg, s, p))
    ensures ExchangeOk(cfg, Advance(cfg, s, p), p, i) == true
  {
    hide SentOk, CurOk, TgtOk, SetFold, Group, AssociativeCommutative, Pow2, Flip;
    PartnersAreMutual(cfg, p, i);
    var q := Partner(cfg, p, i);
    assert StageOk(cfg, s, p) && ExchangeOk(cfg, s, p, i) && ExchangeOk(cfg, s, q, i);
    OtherExchangesStay(cfg, s, p, q, i);
  }

  lemma AdvanceKeepsPartnerSide<T(!new)>(cfg: Config<T>, s: State<T>, p: nat, i: nat)
    requires Inv(cfg, s) && p < cfg.n && CanAdvance(cfg, s, p)
    requires i == Slot(cfg, s, p) && HasPartner(cfg, p, i)
    requires Shape(cfg, Advance(cfg, s, p))
    ensures ExchangeOk(cfg, Advance(cfg, s, p), Partner(cfg, p, i), i) == true
  {
    PartnersAreMutual(cfg, p, i);
    var q := Partner(cfg, p, i);
    assert StageOk(cfg, s, p) && ExchangeOk(cfg, s, p, i) && ExchangeOk(cfg, s, q, i);
    OtherExchangesStay(cfg, s, p, q, i);
  }

  /** An exchange only depends on how far its two sides are and on what has landed. */
  lemma SameExchange<T(!new)>(cfg: Config<T>, s: State<T>, s': State<T>, q: nat, j: nat)
    requires Shape(cfg, s) && Shape(cfg, s') && q < cfg.n && j <= cfg.k && HasPartner(cfg, q, j)
    requires ExchangeOk(cfg, s, q, j) && s'.readyIn == s.readyIn && s'.dataIn == s.dataIn && s'.flagIn == s.flagIn
    requires var o := Partner(cfg, q, j);
             && Offered(cfg, s', q, j) == Offered(cfg, s, q, j) && Offered(cfg, s', o, j) == Offered(cfg, s, o, j)
             && PutDone(cfg, s', q, j) == PutDone(cfg, s, q, j) && FlagDone(cfg, s', q, j) == FlagDone(cfg, s, q, j)
             && AwaitDone(cfg, s', o, j) == AwaitDone(cfg, s, o, j)
             && ((q, j) in s'.sent <==> (q, j) in s.sent)
    requires WordOk(cfg, s', q, j)
    ensures ExchangeOk(cfg, s', q, j)
  {
    hide Offered, PutDone, FlagDone, AwaitDone, WordOk;
  }

  lemma AdvanceKeepsOther<T(!new)>(cfg: Config<T>, s: State<T>, p: nat, q: nat, j: nat)
    requires Inv(cfg, s) && p < cfg.n && CanAdvance(cfg, s, p) && Shape(cfg, Advance(cfg, s, p))
    requires q < cfg.n && j <= cfg.k && HasPartner(cfg, q, j)
    requires j == Slot(cfg, s, p) && !s.stage[p].Start? ==> p != q && p != Partner(cfg, q, j)
    ensures ExchangeOk(cfg, Advance(cfg, s, p), q, j) == true
  {
    hide Advance, CanAdvance, Offered, PutDone, FlagDone, AwaitDone, WordOk, LinkOk, SentOk, CurOk, TgtOk;
    var s' := Advance(cfg, s, p);
    assert ExchangeOk(cfg, s, q, j);
    OtherExchangesStay(cfg, s, p, q, j);
    OtherExchangesStay(cfg, s, p, Partner(cfg, q, j), j);
    AdvanceKeepsWord(cfg, s, p, q, j);
    SameExchange(cfg, s, s', q, j);
  }

  /** The words stay but for those the PE clears as it returns. */
  lemma AdvanceKeepsWord<T(!new)>(cfg: Config<T>, s: State<T>, p: nat, q: nat, j: nat)
    requires Inv(cfg, s) && p < cfg.n && CanAdvance(cfg, s, p) && Shape(cfg, Advance(cfg, s, p))
    requires q < cfg.n && j <= cfg.k && HasPartner(cfg, q, j)
    ensures var s' := Advance(cfg, s, p);
            && s'.readyIn == s.readyIn && s'.dataIn == s.dataIn && s'.flagIn == s.flagIn
            && WordOk(cfg, s', q, j) == true
  {
    hide Offered, PutDone, FlagDone, AwaitDone, LinkOk, SentOk, CurOk, TgtOk, SetFold, Group, AssociativeCommutative, Pow2;
    assert ExchangeOk(cfg, s, q, j);
  }

  lemma AdvanceKeepsIdleWord<T(!new)>(cfg: Config<T>, s: State<T>, p: nat, q: nat, j: nat)
    requires Inv(cfg, s) && p < cfg.n && CanAdvance(cfg, s, p) && Shape(cfg, Advance(cfg, s, p))
    requires q < cfg.n && j <= cfg.k && !HasPartner(cfg, q, j)
    ensures ExchangeOk(cfg, Advance(cfg, s, p), q, j) == true
  {
    assert ExchangeOk(cfg, s, q, j);
  }

  lemma AdvanceKeepsExchange<T(!new)>(cfg: Config<T>, s: State<T>, p: nat, q: nat, j: nat)
    requires Inv(cfg, s) && p < cfg.n && CanAdvance(cfg, s, p)
    requires Shape(cfg, Advance(cfg, s, p))
    ensures ExchangeOk(cfg, Advance(cfg, s, p), q, j) == true
  {
    var i := Slot(cfg, s, p);
    hide Inv, Advance, CanAdvance, LinkOk, WordOk;
    if q < cfg.n && j <= cfg.k {
      if HasPartner(cfg, q, j) {
        PartnersAreMutual(cfg, q, j);
        if p == q && j == i {
          AdvanceKeepsOwnSide(cfg, s, p, i);
        } else if p == Partner(cfg, q, j) && j == i {
          AdvanceKeepsPartnerSide(cfg, s, p, i);
        } else {
          AdvanceKeepsOther(cfg, s, p, q, j);
        }
      } else {
        AdvanceKeepsIdleWord(cfg, s, p, q, j);
      }
    }
  }

  lemma AdvanceKeepsStage<T(!new)>(cfg: Config<T>, s: State<T>, p: nat, q: nat)
    requires Inv(cfg, s) && p < cfg.n && CanAdvance(cfg, s, p) && q < cfg.n
    requires Shape(cfg, Advance(cfg, s, p))
    ensures StageOk(cfg, Advance(cfg, s, p), q) == true
  {
    assert StageOk(cfg, s, p) && StageOk(cfg, s, q);
  }

  lemma AdvanceKeepsSent<T(!new)>(cfg: Config<T>, s: State<T>, p: nat, q: nat, j: nat)
    requires Inv(cfg, s) && p < cfg.n && CanAdvance(cfg, s, p)
    requires Shape(cfg, Advance(cfg, s, p))
    ensures SentOk(cfg, Advance(cfg, s, p), q, j) == true
  {
    assert StageOk(cfg, s, p) && SentOk(cfg, s, q, j) && CurOk(cfg, s, p);
    if p < Size(cfg) { GroupEndsFull(cfg, p); }
  }

  /** The put p waited for has landed, so its target holds the partner's value. */
  lemma AwaitedDataIsIn<T(!new)>(cfg: Config<T>, s: State<T>, p: nat, i: nat)
    requires Inv(cfg, s) && HasPartner(cfg, p, i) && p < cfg.n && AwaitDone(cfg, s, p, i)
    ensures (Partner(cfg, p, i), i) in s.dataIn
  {
    PartnersAreMutual(cfg, p, i);
    assert ExchangeOk(cfg, s, Partner(cfg, p, i), i);
  }

  lemma ReduceKeepsCur<T(!new)>(cfg: Config<T>, s: State<T>, p: nat)
    requires Inv(cfg, s) && p < cfg.n && CanAdvance(cfg, s, p) && (s.stage[p].Reduce? || s.stage[p].XReduce?)
    requires Shape(cfg, Advance(cfg, s, p))
    ensures CurOk(cfg, Advance(cfg, s, p), p) == true
  {
    assert StageOk(cfg, s, p) && CurOk(cfg, s, p) && TgtOk(cfg, s, p);
    AwaitedDataIsIn(cfg, s, p, Slot(cfg, s, p));
    if s.stage[p].Reduce? {
      GroupGrows(cfg, p, s.round[p]);
    } else {
      GroupStarts(cfg, p);
    }
  }

  lemma AdvanceKeepsCur<T(!new)>(cfg: Config<T>, s: State<T>, p: nat, q: nat)
    requires Inv(cfg, s) && p < cfg.n && CanAdvance(cfg, s, p) && q < cfg.n
    requires Shape(cfg, Advance(cfg, s, p))
    ensures CurOk(cfg, Advance(cfg, s, p), q) == true
  {
    assert StageOk(cfg, s, p) && CurOk(cfg, s, q);
    if q == p {
      if s.stage[p].Reduce? || s.stage[p].XReduce? {
        ReduceKeepsCur(cfg, s, p);
      } else if s.stage[p].Start? {
        assert TgtOk(cfg, s, p);
        if p < Size(cfg) { GroupStarts(cfg, p); }
      }
    }
  }

  /** When p starts an exchange, no put of it can have come yet. */
  lemma NothingCameEarly<T(!new)>(cfg: Config<T>, s: State<T>, p: nat, i: nat)
    requires Inv(cfg, s) && HasPartner(cfg, p, i) && p < cfg.n && !Offered(cfg, s, p, i)
    ensures Partner(cfg, p, i) < cfg.n && (Partner(cfg, p, i), i) !in s.dataIn
  {
    PartnersAreMutual(cfg, p, i);
    var q := Partner(cfg, p, i);
    assert ExchangeOk(cfg, s, q, i);
    if (q, i) in s.sent { PutNeedsOffer(cfg, s, q, i); }
  }

  lemma AdvanceSpares<T(!new)>(cfg: Config<T>, s: State<T>, p: nat, q: nat)
    requires Shape(cfg, s) && p < cfg.n && CanAdvance(cfg, s, p) && q < cfg.n && Shape(cfg, Advance(cfg, s, p))
    ensures var s' := Advance(cfg, s, p);
            && s'.readyIn == s.readyIn && s'.dataIn == s.dataIn && s'.flagIn == s.flagIn
            && (q != p ==> s'.stage[q] == s.stage[q] && s'.round[q] == s.round[q] && s'.tgt[q] == s.tgt[q])
  {
    hide Pow2, AssociativeCommutative, Flip, IsLower, AfterRound, Slot;
  }

  lemma AdvanceKeepsTarget<T(!new)>(cfg: Config<T>, s: State<T>, p: nat, q: nat)
    requires Inv(cfg, s) && p < cfg.n && CanAdvance(cfg, s, p) && q < cfg.n
    requires Shape(cfg, Advance(cfg, s, p))
    ensures TgtOk(cfg, Advance(cfg, s, p), q) == true
  {
    hide ExchangeOk, LinkOk, WordOk, SentOk, SetFold, Group, AssociativeCommutative, Pow2, Flip, Advance, CanAdvance;
    if q == p {
      AdvanceKeepsOwnTarget(cfg, s, p);
    } else {
      assert TgtOk(cfg, s, q);
      AdvanceSpares(cfg, s, p, q);
    }
  }

  lemma AdvanceKeepsOwnTarget<T(!new)>(cfg: Config<T>, s: State<T>, p: nat)
    requires Inv(cfg, s) && p < cfg.n && CanAdvance(cfg, s, p) && Shape(cfg, Advance(cfg, s, p))
    ensures TgtOk(cfg, Advance(cfg, s, p), p) == true
  {
    hide ExchangeOk, LinkOk, WordOk, SentOk, SetFold, Group, AssociativeCommutative, Pow2, Flip;
    assert StageOk(cfg, s, p) && TgtOk(cfg, s, p) && CurOk(cfg, s, p);
    var s' := Advance(cfg, s, p);
    if p < Size(cfg) {
      GroupEndsFull(cfg, p);
      if s'.stage[p].Offer? && !s.stage[p].Offer? { NothingCameEarly(cfg, s, p, s'.round[p]); }
      if s.stage[p].XOffer? { NothingCameEarly(cfg, s, p, cfg.k); }
    }
  }

  lemma AdvanceKeepsInv<T(!new)>(cfg: Config<T>, s: State<T>, p: nat)
    requires Inv(cfg, s) && p < cfg.n && CanAdvance(cfg, s, p)
    ensures Inv(cfg, Advance(cfg, s, p)) == true
  {
    var s' := Advance(cfg, s, p);
    AdvanceKeepsShape(cfg, s, p);
    forall q: nat, j: nat ensures ExchangeOk(cfg, s', q, j) && SentOk(cfg, s', q, j) {
      AdvanceKeepsExchange(cfg, s, p, q, j);
      AdvanceKeepsSent(cfg, s, p, q, j);
    }
    forall q | 0 <= q < cfg.n ensures StageOk(cfg, s', q) && CurOk(cfg, s', q) && TgtOk(cfg, s', q) {
      AdvanceKeepsStage(cfg, s, p, q);
      AdvanceKeepsCur(cfg, s, p, q);
      AdvanceKeepsTarget(cfg, s, p, q);
    }
  }

  lemma NextKeepsInv<T(!new)>(cfg: Config<T>, s: State<T>, s': State<T>)
    requires Inv(cfg, s) && Next(cfg, s, s')
    ensures Inv(cfg, s') == true
  {
    hide Inv, Advance, LandReady, LandData, LandFlag;
    if p: nat :| p < cfg.n && CanAdvance(cfg, s, p) && s' == Advance(cfg, s, p) {
      AdvanceKeepsInv(cfg, s, p);
    } else {
      var p: nat, i: nat :| Lands(cfg, s, p, i, s');
      if CanLandReady(cfg, s, p, i) && s' == LandReady(cfg, s, p, i) {
        LandReadyKeepsInv(cfg, s, p, i);
      } else if CanLandData(cfg, s, p, i) && s' == LandData(cfg, s, p, i) {
        LandDataKeepsInv(cfg, s, p, i);
      } else {
        LandFlagKeepsInv(cfg, s, p, i);
      }
    }
  }

  // ------------------------------------------------------------------ what the all-reduce promises

  ghost predicate IsRun<T(!new)>(cfg: Config<T>, run: seq<State<T>>) {
    && run != [] && Init(cfg, run[0])
    && forall j :: 0 <= j < |run| - 1 ==> Next(cfg, run[j], run[j + 1])
  }

  lemma {:induction false} RunKeepsInv<T(!new)>(cfg: Config<T>, run: seq<State<T>>, j: nat)
    requires IsRun(cfg, run) && j < |run|
    ensures Inv(cfg, run[j]) == true
  {
    hide Inv, Next, Init;
    if j == 0 {
      InitEstablishesInv(cfg, run[0]);
    } else {
      RunKeepsInv(cfg, run, j - 1);
      assert Next(cfg, run[j - 1], run[j - 1 + 1]);
      NextKeepsInv(cfg, run[j - 1], run[j]);
    }
  }

  /** Every PE that has finished, extra PEs included, has the fold of all contributions in rank order. */
  lemma AllReduceResult<T(!new)>(cfg: Config<T>, run: seq<State<T>>, j: nat, p: nat)
    requires IsRun(cfg, run) && j < |run| && p < cfg.n
    ensures Inv(cfg, run[j])
    ensures run[j].stage[p].Done? ==> run[j].tgt[p] == RankFold(cfg.op, cfg.src, cfg.n)
  {
    RunKeepsInv(cfg, run, j);
    var s := run[j];
    assert TgtOk(cfg, s, p);
    if s.stage[p].Done? && p >= Size(cfg) { AwaitedDataIsIn(cfg, s, p, cfg.k); }
  }

  /**
    A PE below 2^k that starts round i, or has finished the last one (i == k), holds the fold of
    its aligned group of 2^i PEs together with the extra PEs of that group.
  */
  lemma RoundHoldsGroup<T(!new)>(cfg: Config<T>, run: seq<State<T>>, j: nat, p: nat)
    requires IsRun(cfg, run) && j < |run| && WellFormed(cfg) && p < Size(cfg)
    ensures Inv(cfg, run[j])
    ensures var s := run[j];
            InRound(s.stage[p]) || s.round[p] == cfg.k ==>
              s.cur[p] == SetFold(cfg.op, cfg.src, Group(cfg, p, s.round[p]))
  {
    RunKeepsInv(cfg, run, j);
    assert CurOk(cfg, run[j], p) && StageOk(cfg, run[j], p);
  }

  /**
    Scratch safety.  Whenever a put is under way, its destination is still between offering its
    target and seeing the flag of exactly this put: it has read all older scratch data, has
    not reached its final copy, and (source and target being one buffer) has saved its source.
  */
  lemma NoPutHitsUnreadScratch<T(!new)>(cfg: Config<T>, run: seq<State<T>>, j: nat, p: nat, i: nat)
    requires IsRun(cfg, run) && j < |run| && HasPartner(cfg, p, i)
    requires (p, i) in run[j].sent && (p, i) !in run[j].dataIn
    ensures Inv(cfg, run[j]) && Partner(cfg, p, i) < cfg.n && HasPartner(cfg, Partner(cfg, p, i), i)
    ensures var s, q := run[j], Partner(cfg, p, i);
            if i < cfg.k then
              && s.round[q] == i
              && (s.stage[q].Await? || (!IsLower(cfg, q, i) && (s.stage[q].Put? || s.stage[q].Flag?)))
            else
              s.stage[q].XAwait? || (q >= Size(cfg) && (s.stage[q].XPut? || s.stage[q].XFlag?))
  {
    RunKeepsInv(cfg, run, j);
    PartnersAreMutual(cfg, p, i);
    PutFindsTargetFree(cfg, run[j], p, i);
    assert StageOk(cfg, run[j], Partner(cfg, p, i)) && ExchangeOk(cfg, run[j], p, i);
  }

  /** A finished PE's pSync words are all 0, and no flag is under way to them. */
  lemma PSyncIsRestored<T(!new)>(cfg: Config<T>, run: seq<State<T>>, j: nat, p: nat, i: nat)
    requires IsRun(cfg, run) && j < |run| && p < cfg.n && i <= cfg.k
    requires Shape(cfg, run[j]) && run[j].stage[p].Done?
    ensures run[j].ps[p][i] == 0
    ensures HasPartner(cfg, p, i) ==>
              && Partner(cfg, p, i) < cfg.n && HasPartner(cfg, Partner(cfg, p, i), i)
              && !CanLandReady(cfg, run[j], Partner(cfg, p, i), i)
              && !CanLandFlag(cfg, run[j], Partner(cfg, p, i), i)
  {
    RunKeepsInv(cfg, run, j);
    var s := run[j];
    assert ExchangeOk(cfg, s, p, i) && StageOk(cfg, s, p);
    if HasPartner(cfg, p, i) {
      PartnersAreMutual(cfg, p, i);
      assert ExchangeOk(cfg, s, Partner(cfg, p, i), i);
    }
  }

  // ------------------------------------------------------------------ no deadlock

  ghost predicate Stuck<T(!new)>(cfg: Config<T>, s: State<T>)
    requires Shape(cfg, s)
  {
    && (forall p :: 0 <= p < cfg.n ==> !CanAdvance(cfg, s, p))
    && (forall p: nat, i: nat :: !CanLand(cfg, s, p, i))
  }

  ghost predicate CanLand<T(!new)>(cfg: Config<T>, s: State<T>, p: nat, i: nat)
    requires Shape(cfg, s)
  {
    && p < cfg.n && HasPartner(cfg, p, i)
    && (CanLandReady(cfg, s, p, i) || CanLandData(cfg, s, p, i) || CanLandFlag(cfg, s, p, i))
  }

  /** In a stuck state the word of exchange i shows how far the partner is. */
  lemma StuckWord<T(!new)>(cfg: Config<T>, s: State<T>, p: nat, i: nat)
    requires Inv(cfg, s) && Stuck(cfg, s) && p < cfg.n && HasPartner(cfg, p, i) && !s.stage[p].Done?
    ensures Partner(cfg, p, i) < cfg.n && HasPartner(cfg, Partner(cfg, p, i), i)
    ensures FlagDone(cfg, s, Partner(cfg, p, i), i) ==> s.ps[p][i] == 2
    ensures !FlagDone(cfg, s, Partner(cfg, p, i), i) && !IsLower(cfg, p, i) && Offered(cfg, s, Partner(cfg, p, i), i) ==>
              s.ps[p][i] == 1
    ensures FlagDone(cfg, s, Partner(cfg, p, i), i) && !IsLower(cfg, p, i) ==> FlagDone(cfg, s, p, i)
  {
    PartnersAreMutual(cfg, p, i);
    var q := Partner(cfg, p, i);
    assert ExchangeOk(cfg, s, p, i) && ExchangeOk(cfg, s, q, i);
    assert StageOk(cfg, s, q);
    assert !CanLand(cfg, s, q, i);
  }

  /** Nobody below 2^k is stuck before its first round. */
  lemma StuckInRounds<T(!new)>(cfg: Config<T>, s: State<T>, p: nat)
    requires Inv(cfg, s) && Stuck(cfg, s) && p < Size(cfg)
    ensures s.round[p] == cfg.k || InRound(s.stage[p])
  {
    assert StageOk(cfg, s, p) && !CanAdvance(cfg, s, p);
    if s.stage[p].XAwait? {
      var e := p + Size(cfg);
      assert StageOk(cfg, s, e) && !CanAdvance(cfg, s, e);
      StuckWord(cfg, s, p, cfg.k);
      if s.stage[e].XOffer? { StuckWord(cfg, s, e, cfg.k); }
    }
  }

  lemma {:induction false} StuckPastRound<T(!new)>(cfg: Config<T>, s: State<T>, p: nat, i: nat)
    requires Inv(cfg, s) && Stuck(cfg, s) && p < Size(cfg) && i <= cfg.k
    ensures s.round[p] >= i
    decreases i
  {
    StuckInRounds(cfg, s, p);
    if i > 0 {
      StuckPastRound(cfg, s, p, i - 1);
      PartnersAreMutual(cfg, p, i - 1);
      var q := Partner(cfg, p, i - 1);
      StuckInRounds(cfg, s, q);
      StuckPastRound(cfg, s, q, i - 1);
      if s.round[p] == i - 1 { StuckPair(cfg, s, p, q, i - 1); }
    }
  }

  /** Two partners cannot both, nor one of them alone, be stuck in their exchange. */
  lemma StuckPair<T(!new)>(cfg: Config<T>, s: State<T>, p: nat, q: nat, i: nat)
    requires Inv(cfg, s) && Stuck(cfg, s) && i < cfg.k && p < Size(cfg) && q < Size(cfg)
    requires q == Partner(cfg, p, i) && p == Partner(cfg, q, i) && s.round[q] >= i
    requires InRound(s.stage[p]) && (s.round[q] == cfg.k || InRound(s.stage[q]))
    ensures s.round[p] != i
  {
    assert StageOk(cfg, s, p) && StageOk(cfg, s, q);
    assert !CanAdvance(cfg, s, p) && !CanAdvance(cfg, s, q);
    PartnersAreMutual(cfg, p, i);
    StuckWord(cfg, s, p, i);
    if !s.stage[q].Done? { StuckWord(cfg, s, q, i); }
  }

  /** No deadlock: the only state in which nothing can happen is the one where every PE is done. */
  lemma NoDeadlock<T(!new)>(cfg: Config<T>, run: seq<State<T>>, j: nat, p: nat)
    requires IsRun(cfg, run) && j < |run| && Shape(cfg, run[j]) && Stuck(cfg, run[j]) && p < cfg.n
    ensures run[j].stage[p].Done?
  {
    RunKeepsInv(cfg, run, j);
    var s := run[j];
    var c := Core(cfg, p);
    StuckPastRound(cfg, s, c, cfg.k);
    assert StageOk(cfg, s, c) && !CanAdvance(cfg, s, c);
    if p >= Size(cfg) && !s.stage[p].Done? {
      assert StageOk(cfg, s, p) && !CanAdvance(cfg, s, p);
      StuckWord(cfg, s, p, cfg.k);
    }
  }

  // ------------------------------------------------------------------ every run ends

  /** The steps PE p still has to make. */
  function StepsLeft<T>(cfg: Config<T>, p: nat, stage: Stage, round: nat): nat {
    var left := if round < cfg.k then 5 * (cfg.k - round) else 0;
    var lower := HasPartner(cfg, p, round) && IsLower(cfg, p, round);
    match stage
    case Start => 5 * cfg.k + 13
    case XOffer => 5 * cfg.k + 12
    case XAwait => if p < Size(cfg) then 5 * cfg.k + 11 else 2
    case XReduce => 5 * cfg.k + 10
    case Offer => left + 9
    case Await => if lower then left + 8 else left + 6
    case Put => if lower then left + 7 else left + 8
    case Flag => if lower then left + 6 else left + 7
    case Reduce => left + 5
    case XPut => 4
    case XFlag => 3
    case Copy => 2
    case Reset => 1
    case Done => 0
  }

  /** The steps left to PE p and to what it sends. */
  ghost function Todo<T(!new)>(cfg: Config<T>, s: State<T>, p: nat): nat
    requires Shape(cfg, s) && p < cfg.n
  {
    StepsLeft(cfg, p, s.stage[p], s.round[p])
    + Missing(p, cfg.k + 1, s.readyIn) + Missing(p, cfg.k + 1, s.dataIn) + Missing(p, cfg.k + 1, s.flagIn)
  }

  ghost function Todos<T(!new)>(cfg: Config<T>, s: State<T>): (ms: seq<nat>)
    requires Shape(cfg, s)
    ensures |ms| == cfg.n && forall p :: 0 <= p < cfg.n ==> ms[p] == Todo(cfg, s, p)
  {
    seq(cfg.n, p requires 0 <= p < cfg.n => Todo(cfg, s, p))
  }

  /** A step of p. */
  ghost predicate StepOf<T(!new)>(cfg: Config<T>, s: State<T>, p: nat, s': State<T>)
    requires Shape(cfg, s)
  {
    && p < cfg.n
    && ((CanAdvance(cfg, s, p) && s' == Advance(cfg, s, p)) || (exists i: nat :: Lands(cfg, s, p, i, s')))
  }

  lemma StepDoes<T(!new)>(cfg: Config<T>, s: State<T>, p: nat, s': State<T>, q: nat)
    requires Inv(cfg, s) == true && Shape(cfg, s) && Shape(cfg, s') && p < cfg.n && q < cfg.n && StepOf(cfg, s, p, s') == true
    ensures if q == p then Todo(cfg, s', q) < Todo(cfg, s, q) else Todo(cfg, s', q) == Todo(cfg, s, q)
  {
    hide Todo, CanAdvance, Advance, Lands, Inv;
    if CanAdvance(cfg, s, p) && s' == Advance(cfg, s, p) {
      AdvanceDoes(cfg, s, p, q);
    } else {
      var i: nat :| Lands(cfg, s, p, i, s');
      LandingDoes(cfg, s, p, i, s', q);
    }
  }

  lemma LandingDoes<T(!new)>(cfg: Config<T>, s: State<T>, p: nat, i: nat, s': State<T>, q: nat)
    requires Shape(cfg, s) && Shape(cfg, s') && p < cfg.n && q < cfg.n && Lands(cfg, s, p, i, s') == true
    ensures if q == p then Todo(cfg, s', q) < Todo(cfg, s, q) else Todo(cfg, s', q) == Todo(cfg, s, q)
  {
    hide StepsLeft, Missing, SetWord, Offered, FlagDone;
    var m := cfg.k + 1;
    assert i < m;
    if (p, i) !in s.readyIn && s'.readyIn != s.readyIn {
      if q == p { MissingDrops(p, m, s.readyIn, i); } else { MissingStays(q, m, s.readyIn, p, i); }
    } else if (p, i) !in s.dataIn {
      if q == p { MissingDrops(p, m, s.dataIn, i); } else { MissingStays(q, m, s.dataIn, p, i); }
    } else {
      if q == p { MissingDrops(p, m, s.flagIn, i); } else { MissingStays(q, m, s.flagIn, p, i); }
    }
  }

  lemma AdvanceDoes<T(!new)>(cfg: Config<T>, s: State<T>, p: nat, q: nat)
    requires Inv(cfg, s) == true && Shape(cfg, s) && p < cfg.n && CanAdvance(cfg, s, p) && q < cfg.n && Shape(cfg, Advance(cfg, s, p))
    ensures var s' := Advance(cfg, s, p); if q == p then Todo(cfg, s', q) < Todo(cfg, s, q) else Todo(cfg, s', q) == Todo(cfg, s, q)
  {
    hide Missing, Inv, Pow2, AssociativeCommutative, Advance, CanAdvance, StepsLeft;
    if q == p { AdvanceGoesOn(cfg, s, p); }
    AdvanceSpares(cfg, s, p, q);
  }

  lemma AdvanceGoesOn<T(!new)>(cfg: Config<T>, s: State<T>, p: nat)
    requires Inv(cfg, s) == true && Shape(cfg, s) && p < cfg.n && CanAdvance(cfg, s, p) && Shape(cfg, Advance(cfg, s, p))
    ensures var s' := Advance(cfg, s, p); StepsLeft(cfg, p, s'.stage[p], s'.round[p]) < StepsLeft(cfg, p, s.stage[p], s.round[p])
  {
    assert StageOk(cfg, s, p);
    hide Inv, Pow2, AssociativeCommutative;
  }

  /** Every step does some of the work left to one PE, and adds none to the others. */
  lemma StepIsProgress<T(!new)>(cfg: Config<T>, s: State<T>, p: nat, s': State<T>)
    requires Inv(cfg, s) == true && Shape(cfg, s) && Shape(cfg, s') && p < cfg.n && StepOf(cfg, s, p, s') == true
    ensures Sum(Todos(cfg, s')) < Sum(Todos(cfg, s))
  {
    hide StepOf, Todo, Inv;
    forall q | 0 <= q < cfg.n ensures if q == p then Todo(cfg, s', q) < Todo(cfg, s, q) else Todo(cfg, s', q) == Todo(cfg, s, q) {
      StepDoes(cfg, s, p, s', q);
    }
    StepDoes(cfg, s, p, s', p);
    SumDrops(Todos(cfg, s), Todos(cfg, s'), p);
  }

  lemma TodoBound<T(!new)>(cfg: Config<T>, s: State<T>, p: nat)
    requires Shape(cfg, s) && p < cfg.n
    ensures Todo(cfg, s, p) <= 8 * cfg.k + 16
  {
    MissingBound(p, cfg.k + 1, s.readyIn);
    MissingBound(p, cfg.k + 1, s.dataIn);
    MissingBound(p, cfg.k + 1, s.flagIn);
  }

  /** No run is longer than this. */
  lemma {:induction false} RunsAreBounded<T(!new)>(cfg: Config<T>, run: seq<State<T>>, j: nat)
    requires IsRun(cfg, run) && j < |run|
    ensures Shape(cfg, run[j]) && j + Sum(Todos(cfg, run[j])) <= cfg.n * (8 * cfg.k + 16)
  {
    RunKeepsInv(cfg, run, j);
    InvHasShape(cfg, run[j]);
    hide StepOf, Todo, Init, CanAdvance, Lands, Shape, Inv;
    if j == 0 {
      forall p | 0 <= p < cfg.n ensures Todo(cfg, run[0], p) <= 8 * cfg.k + 16 {
        TodoBound(cfg, run[0], p);
      }
      SumBound(Todos(cfg, run[0]), 8 * cfg.k + 16);
    } else {
      RunsAreBounded(cfg, run, j - 1);
      RunKeepsInv(cfg, run, j - 1);
      assert Next(cfg, run[j - 1], run[j - 1 + 1]);
      var p := WhoSteps(cfg, run[j - 1], run[j]);
      StepIsProgress(cfg, run[j - 1], p, run[j]);
    }
  }

  lemma InvHasShape<T(!new)>(cfg: Config<T>, s: State<T>)
    requires Inv(cfg, s)
    ensures Shape(cfg, s)
  {
  }

  lemma WhoSteps<T(!new)>(cfg: Config<T>, s: State<T>, s': State<T>) returns (p: nat)
    requires Next(cfg, s, s')
    ensures Shape(cfg, s) && p < cfg.n && StepOf(cfg, s, p, s') == true
  {
    if q: nat :| q < cfg.n && CanAdvance(cfg, s, q) && s' == Advance(cfg, s, q) {
      p := q;
    } else {
      var q: nat, i: nat :| Lands(cfg, s, q, i, s');
      p := q;
    }
  }

  ghost predicate AllBack<T(!new)>(cfg: Config<T>, s: State<T>)
    requires Shape(cfg, s)
  {
    forall p :: 0 <= p < cfg.n ==> s.stage[p].Done?
  }

  /** Every run can be continued until every PE is back. */
  lemma {:induction false} RunsComplete<T(!new)>(cfg: Config<T>, run: seq<State<T>>) returns (run': seq<State<T>>)
    requires IsRun(cfg, run)
    ensures IsRun(cfg, run') && run <= run' && Shape(cfg, run'[|run'| - 1])
    ensures AllBack(cfg, run'[|run'| - 1])
    decreases cfg.n * (8 * cfg.k + 16) - |run|
  {
    hide Init, CanAdvance, Lands, Shape, Next, Stuck, AllBack;
    var s := run[|run| - 1];
    RunsAreBounded(cfg, run, |run| - 1);
    if Stuck(cfg, s) {
      run' := run;
      StuckAllBack(cfg, run);
    } else {
      var s' := NextState(cfg, s);
      Extended(cfg, run, s');
      RunsAreBounded(cfg, run + [s'], |run|);
      run' := RunsComplete(cfg, run + [s']);
    }
  }

  lemma StuckAllBack<T(!new)>(cfg: Config<T>, run: seq<State<T>>)
    requires IsRun(cfg, run) && Shape(cfg, run[|run| - 1]) && Stuck(cfg, run[|run| - 1])
    ensures AllBack(cfg, run[|run| - 1])
  {
    var s := run[|run| - 1];
    forall p | 0 <= p < cfg.n ensures s.stage[p].Done? {
      NoDeadlock(cfg, run, |run| - 1, p);
    }
  }

  lemma Extended<T(!new)>(cfg: Config<T>, run: seq<State<T>>, s': State<T>)
    requires IsRun(cfg, run) && Next(cfg, run[|run| - 1], s')
    ensures IsRun(cfg, run + [s'])
  {
    hide Init, Next;
    var more := run + [s'];
    forall j | 0 <= j < |more| - 1 ensures Next(cfg, more[j], more[j + 1]) {
      if j < |run| - 1 { assert Next(cfg, run[j], run[j + 1]); }
    }
  }

  lemma NextState<T(!new)>(cfg: Config<T>, s: State<T>) returns (s': State<T>)
    requires Shape(cfg, s) && !Stuck(cfg, s)
    ensures Next(cfg, s, s') == true
  {
    if p: nat :| p < cfg.n && CanAdvance(cfg, s, p) {
      s' := Advance(cfg, s, p);
    } else {
      var p: nat, i: nat :| CanLand(cfg, s, p, i);
      s' := if CanLandReady(cfg, s, p, i) then LandReady(cfg, s, p, i)
            else if CanLandData(cfg, s, p, i) then LandData(cfg, s, p, i) else LandFlag(cfg, s, p, i);
      assert Lands(cfg, s, p, i, s');
    }
  }
}
