/**
  The tree and the linear all-reduce of src/collectives.c, broadcast included, as one call from
  zeroed pSync words.

  A PE with children copies its source to its target, clears them to send, and waits until each of
  them has added its partial result to the target and acknowledged.  It then does the same towards
  its own parent.  When the root has everything, it broadcasts its target along a second tree.
  The linear algorithms are the case in which a tree is a star.

  Every remote operation is under way from the step that issues it to a later landing; only
  an acknowledgement or flag fenced behind data lands after it.  Word 0 of a PE counts
  acknowledgements, word 1 is its clear-to-send, word 2 its broadcast flag (the linear
  algorithm keeps words 0 and 1, which no PE both uses, in one word).  PEs are named by their
  position in the trees; T stands for a whole buffer.
*/
module TreeReduce {
  import opened Progress
  import opened Reduction
  import opened Trees

  datatype Config<!T> = Config(up: Tree, down: Tree, op: (T, T) -> T, src: seq<T>, inPlace: bool)

  ghost predicate WellFormed<T(!new)>(cfg: Config<T>) {
    && ValidTree(cfg.up) && ValidTree(cfg.down) && cfg.up.n == cfg.down.n == |cfg.src| >= 2
    && Bounded(cfg.up) && Bounded(cfg.down)
    && AssociativeCommutative(cfg.op)
  }

  /** Parents and children are ids. */
  predicate Bounded(t: Tree)
    requires |t.parent| == |t.kids| == t.n
  {
    && (forall p :: 0 <= p < t.n ==> t.parent[p] < t.n)
    && (forall p, i :: 0 <= p < t.n && 0 <= i < |t.kids[p]| ==> 0 < t.kids[p][i] < t.n)
  }

  function N<T>(cfg: Config<T>): nat {
    |cfg.src|
  }

  /**
    The steps of a PE, in order.  0: copy source to target.  1: clear the children to send.  2: wait
    for all acknowledgements.  3: clear word 0.  4: wait for clear-to-send.  5: clear word 1.
    6: send the partial result.  7: acknowledge.  8: wait for the broadcast.  9: put the result to
    the children.  10: flag them.  11: clear word 2.  12: done.
  */
  type Stage = s: nat | s <= 12

  /**
    sent[c] is the partial result c has issued, bsent[p] the result p broadcasts.  The sets of PEs
    record what has landed: ctsIn, upIn, ackIn hold c once its clear-to-send, its partial result at
    its parent and its acknowledgement have landed, bDataIn and bFlagIn once its broadcast data and
    flag have.
  */
  datatype State<T> = State(
    stage: seq<Stage>, tgt: seq<T>, w0: seq<int>, w1: seq<int>, w2: seq<int>,
    sent: map<nat, T>, bsent: map<nat, T>,
    ctsIn: seq<bool>, upIn: seq<bool>, ackIn: seq<bool>, bDataIn: seq<bool>, bFlagIn: seq<bool>)

  ghost predicate Shape<T(!new)>(cfg: Config<T>, s: State<T>) {
    && WellFormed(cfg)
    && |s.stage| == |s.tgt| == |s.w0| == |s.w1| == |s.w2| == N(cfg)
    && |s.ctsIn| == |s.upIn| == |s.ackIn| == |s.bDataIn| == |s.bFlagIn| == N(cfg)
  }

  ghost predicate Init<T(!new)>(cfg: Config<T>, s: State<T>) {
    && Shape(cfg, s)
    && (forall p :: 0 <= p < N(cfg) ==> s.stage[p] == FirstStage(cfg, p))
    && (forall p :: 0 <= p < N(cfg) ==> s.w0[p] == 0 && s.w1[p] == 0 && s.w2[p] == 0)
    && (forall p :: 0 <= p < N(cfg) ==>
          !s.ctsIn[p] && !s.upIn[p] && !s.ackIn[p] && !s.bDataIn[p] && !s.bFlagIn[p])
    && s.sent == map[] && s.bsent == map[]
    && (cfg.inPlace ==> s.tgt == cfg.src)
  }

  function UpKids<T>(cfg: Config<T>, p: nat): seq<nat>
    requires |cfg.up.kids| == N(cfg) && p < N(cfg)
  {
    cfg.up.kids[p]
  }

  function DownKids<T>(cfg: Config<T>, p: nat): seq<nat>
    requires |cfg.down.kids| == N(cfg) && p < N(cfg)
  {
    cfg.down.kids[p]
  }

  /** A PE without children starts by waiting for its clear-to-send. */
  function FirstStage<T>(cfg: Config<T>, p: nat): Stage
    requires |cfg.up.kids| == N(cfg) && p < N(cfg)
  {
    if UpKids(cfg, p) != [] then 0 else 4
  }

  ghost predicate CanAdvance<T(!new)>(cfg: Config<T>, s: State<T>, p: nat)
    requires Shape(cfg, s) && p < N(cfg)
  {
    match s.stage[p]
    case 2 => s.w0[p] == |UpKids(cfg, p)|
    case 4 => s.w1[p] != 0
    case 8 => s.w2[p] != 0
    case 12 => false
    case _ => true
  }

  function NextStage<T>(cfg: Config<T>, p: nat, stage: Stage): Stage
    requires |cfg.down.kids| == N(cfg) && p < N(cfg) && stage < 12
  {
    if stage == 3 && p == 0 then 9
    else if stage == 8 && DownKids(cfg, p) == [] then 11
    else stage + 1
  }

  ghost function Advance<T(!new)>(cfg: Config<T>, s: State<T>, p: nat): State<T>
    requires Shape(cfg, s) && p < N(cfg) && CanAdvance(cfg, s, p)
  {
    var s' := s.(stage := s.stage[p := NextStage(cfg, p, s.stage[p])]);
    match s.stage[p]
    case 0 => if cfg.inPlace then s' else s'.(tgt := s.tgt[p := cfg.src[p]])
    case 3 => s'.(w0 := s.w0[p := 0])
    case 5 => s'.(w1 := s.w1[p := 0])
    case 6 => s'.(sent := s.sent[p := if UpKids(cfg, p) == [] && !cfg.inPlace then cfg.src[p] else s.tgt[p]])
    case 9 => s'.(bsent := s.bsent[p := s.tgt[p]])
    case 11 => s'.(w2 := s.w2[p := 0])
    case _ => s'
  }

  ghost predicate CanLandCts<T(!new)>(cfg: Config<T>, s: State<T>, c: nat)
    requires Shape(cfg, s) && 0 < c < N(cfg)
  {
    s.stage[cfg.up.parent[c]] >= 2 && !s.ctsIn[c]
  }

  ghost predicate CanLandUp<T(!new)>(cfg: Config<T>, s: State<T>, c: nat)
    requires Shape(cfg, s) && 0 < c < N(cfg)
  {
    c in s.sent && !s.upIn[c]
  }

  ghost predicate CanLandAck<T(!new)>(cfg: Config<T>, s: State<T>, c: nat)
    requires Shape(cfg, s) && 0 < c < N(cfg)
  {
    s.stage[c] >= 8 && s.upIn[c] && !s.ackIn[c]
  }

  ghost predicate CanLandBData<T(!new)>(cfg: Config<T>, s: State<T>, c: nat)
    requires Shape(cfg, s) && 0 < c < N(cfg)
  {
    cfg.down.parent[c] in s.bsent && !s.bDataIn[c]
  }

  ghost predicate CanLandBFlag<T(!new)>(cfg: Config<T>, s: State<T>, c: nat)
    requires Shape(cfg, s) && 0 < c < N(cfg)
  {
    s.stage[cfg.down.parent[c]] >= 11 && s.bDataIn[c] && !s.bFlagIn[c]
  }

  ghost function LandCts<T(!new)>(cfg: Config<T>, s: State<T>, c: nat): State<T>
    requires Shape(cfg, s) && 0 < c < N(cfg)
  {
    s.(ctsIn := s.ctsIn[c := true], w1 := s.w1[c := 1])
  }

  /** The atomic accumulation of c's partial result into its parent's target. */
  ghost function LandUp<T(!new)>(cfg: Config<T>, s: State<T>, c: nat): State<T>
    requires Shape(cfg, s) && 0 < c < N(cfg) && CanLandUp(cfg, s, c)
  {
    var p := cfg.up.parent[c];
    s.(upIn := s.upIn[c := true], tgt := s.tgt[p := cfg.op(s.tgt[p], s.sent[c])])
  }

  ghost function LandAck<T(!new)>(cfg: Config<T>, s: State<T>, c: nat): State<T>
    requires Shape(cfg, s) && 0 < c < N(cfg)
  {
    var p := cfg.up.parent[c];
    s.(ackIn := s.ackIn[c := true], w0 := s.w0[p := s.w0[p] + 1])
  }

  ghost function LandBData<T(!new)>(cfg: Config<T>, s: State<T>, c: nat): State<T>
    requires Shape(cfg, s) && 0 < c < N(cfg) && CanLandBData(cfg, s, c)
  {
    s.(bDataIn := s.bDataIn[c := true], tgt := s.tgt[c := s.bsent[cfg.down.parent[c]]])
  }

  ghost function LandBFlag<T(!new)>(cfg: Config<T>, s: State<T>, c: nat): State<T>
    requires Shape(cfg, s) && 0 < c < N(cfg)
  {
    s.(bFlagIn := s.bFlagIn[c := true], w2 := s.w2[c := 1])
  }

  ghost predicate Lands<T(!new)>(cfg: Config<T>, s: State<T>, c: nat, s': State<T>)
    requires Shape(cfg, s)
  {
    && 0 < c < N(cfg)
    && (|| (CanLandCts(cfg, s, c) && s' == LandCts(cfg, s, c))
        || (CanLandUp(cfg, s, c) && s' == LandUp(cfg, s, c))
        || (CanLandAck(cfg, s, c) && s' == LandAck(cfg, s, c))
        || (CanLandBData(cfg, s, c) && s' == LandBData(cfg, s, c))
        || (CanLandBFlag(cfg, s, c) && s' == LandBFlag(cfg, s, c)))
  }

  ghost predicate Next<T(!new)>(cfg: Config<T>, s: State<T>, s': State<T>) {
    && Shape(cfg, s)
    && (|| (exists p: nat :: p < N(cfg) && CanAdvance(cfg, s, p) && s' == Advance(cfg, s, p))
        || (exists c: nat :: Lands(cfg, s, c, s')))
  }

  // ------------------------------------------------------------------ subtrees

  /** Is q in the subtree of p? */
  predicate Below(t: Tree, p: nat, q: nat)
    requires |t.parent| == t.n && q < t.n
    decreases q
  {
    q == p || (q > p && t.parent[q] < q && Below(t, p, t.parent[q]))
  }

  /** The child of p in whose subtree q is. */
  function Branch(t: Tree, p: nat, q: nat): (c: nat)
    requires |t.parent| == t.n && p < q < t.n
    ensures c <= q
    decreases q
  {
    if t.parent[q] <= p || t.parent[q] >= q then q else Branch(t, p, t.parent[q])
  }

  lemma {:induction false} BranchIsChild(t: Tree, p: nat, q: nat)
    requires ValidTree(t) && p < q < t.n && Below(t, p, q)
    ensures var c := Branch(t, p, q); p < c <= q && t.parent[c] == p && Below(t, c, q)
  {
    if t.parent[q] != p { BranchIsChild(t, p, t.parent[q]); }
  }

  /** A PE below a child of p is below p, on exactly that child's branch. */
  lemma {:induction false} BelowChild(t: Tree, p: nat, c: nat, q: nat)
    requires ValidTree(t) && q < t.n && c < t.n && t.parent[c] == p && c > p && Below(t, c, q)
    ensures p < q && Below(t, p, q) && Branch(t, p, q) == c
  {
    if q != c { BelowChild(t, p, c, t.parent[q]); }
  }

  lemma {:induction false} RootIsAbove(t: Tree, q: nat)
    requires ValidTree(t) && q < t.n
    ensures Below(t, 0, q)
  {
    if q > 0 { RootIsAbove(t, t.parent[q]); }
  }

  /** The PEs whose contributions are in p's target: its own and the subtrees of the children in `here`. */
  predicate Gathered(t: Tree, here: seq<bool>, p: nat, q: nat)
    requires |t.parent| == t.n == |here| && q < t.n
  {
    q == p || (q > p && Below(t, p, q) && here[Branch(t, p, q)])
  }

  function Got(t: Tree, here: seq<bool>, p: nat): (g: set<nat>)
    requires |t.parent| == t.n == |here| && p < t.n
    ensures p in g
    ensures forall q :: q in g <==> 0 <= q < t.n && Gathered(t, here, p, q)
  {
    set q: nat | q < t.n && Gathered(t, here, p, q)
  }

  /** A PE and everything below it. */
  function Sub(t: Tree, p: nat): (g: set<nat>)
    requires |t.parent| == t.n && p < t.n
    ensures p in g
    ensures forall q :: q in g <==> 0 <= q < t.n && Below(t, p, q)
  {
    set q: nat | q < t.n && Below(t, p, q)
  }

  /** One more child's partial result. */
  lemma GotGrows(t: Tree, here: seq<bool>, c: nat)
    requires ValidTree(t) && |here| == t.n && 0 < c < t.n && !here[c]
    ensures var p := t.parent[c];
            && Got(t, here[c := true], p) == Got(t, here, p) + Sub(t, c)
            && Got(t, here, p) !! Sub(t, c)
  {
    var p := t.parent[c];
    forall q: nat | q < t.n
      ensures Gathered(t, here[c := true], p, q) <==> Gathered(t, here, p, q) || Below(t, c, q)
      ensures !(Gathered(t, here, p, q) && Below(t, c, q))
    {
      if Below(t, c, q) { BelowChild(t, p, c, q); }
      if q > p && Below(t, p, q) { BranchIsChild(t, p, q); }
    }
  }

  /** With no child in, it is the PE alone; with all of them in, it is the whole subtree. */
  lemma GotNothing(t: Tree, here: seq<bool>, p: nat)
    requires ValidTree(t) && |here| == t.n && p < t.n
    requires forall c :: 0 < c < t.n && t.parent[c] == p ==> !here[c]
    ensures Got(t, here, p) == {p}
  {
    forall q: nat | p < q < t.n && Below(t, p, q) ensures !here[Branch(t, p, q)] {
      BranchIsChild(t, p, q);
    }
  }

  lemma GotEverything(t: Tree, here: seq<bool>, p: nat)
    requires ValidTree(t) && |here| == t.n && p < t.n
    requires forall c :: 0 < c < t.n && t.parent[c] == p ==> here[c]
    ensures Got(t, here, p) == Sub(t, p)
  {
    forall q: nat | p < q < t.n && Below(t, p, q) ensures here[Branch(t, p, q)] {
      BranchIsChild(t, p, q);
    }
  }

  lemma GotSame(t: Tree, here: seq<bool>, here': seq<bool>, p: nat)
    requires ValidTree(t) && |here| == |here'| == t.n && p < t.n
    requires forall c :: 0 < c < t.n && t.parent[c] == p ==> here[c] == here'[c]
    ensures Got(t, here, p) == Got(t, here', p)
  {
    forall q: nat | p < q < t.n && Below(t, p, q) ensures here[Branch(t, p, q)] == here'[Branch(t, p, q)] {
      BranchIsChild(t, p, q);
    }
  }

  // ------------------------------------------------------------------ the invariant

  ghost function SubFold<T(!new)>(cfg: Config<T>, c: nat): T
    requires WellFormed(cfg) && c < N(cfg)
  {
    SetFold(cfg.op, cfg.src, Sub(cfg.up, c))
  }

  ghost function Full<T(!new)>(cfg: Config<T>): T
    requires WellFormed(cfg)
  {
    RankFold(cfg.op, cfg.src, N(cfg))
  }

  lemma RootHasAll<T(!new)>(cfg: Config<T>)
    requires WellFormed(cfg)
    ensures SubFold(cfg, 0) == Full(cfg)
  {
    forall q | 0 <= q < N(cfg) ensures Below(cfg.up, 0, q) {
      RootIsAbove(cfg.up, q);
    }
    assert Sub(cfg.up, 0) == Ranks(N(cfg));
    SetFoldIsRankFold(cfg.op, cfg.src, N(cfg));
  }

  /** Which steps a PE takes at all. */
  ghost predicate StageOk<T(!new)>(cfg: Config<T>, s: State<T>, p: nat)
    requires Shape(cfg, s) && p < N(cfg)
  {
    && (p == 0 ==> s.stage[p] <= 3 || s.stage[p] >= 9)
    && (UpKids(cfg, p) == [] ==> s.stage[p] >= 4)
    && (DownKids(cfg, p) == [] ==> s.stage[p] != 9 && s.stage[p] != 10)
    && (p in s.sent <==> s.stage[p] >= 7 && p > 0)
    && (p in s.bsent <==> s.stage[p] >= 10 && DownKids(cfg, p) != [])
  }

  ghost predicate UpOk<T(!new)>(cfg: Config<T>, s: State<T>, c: nat)
    requires Shape(cfg, s) && 0 < c < N(cfg)
  {
    var p := cfg.up.parent[c];
    && (s.ctsIn[c] ==> s.stage[p] >= 2)
    && (s.stage[c] >= 5 ==> s.ctsIn[c])
    && (s.upIn[c] ==> s.stage[c] >= 7)
    && (s.ackIn[c] ==> s.stage[c] >= 8 && s.upIn[c])
    && (s.stage[p] >= 3 ==> s.ackIn[c])
  }

  ghost predicate DownOk<T(!new)>(cfg: Config<T>, s: State<T>, c: nat)
    requires Shape(cfg, s) && 0 < c < N(cfg)
  {
    var b := cfg.down.parent[c];
    && (s.bDataIn[c] ==> s.stage[b] >= 10)
    && (s.bFlagIn[c] ==> s.stage[b] >= 11 && s.bDataIn[c])
    && (s.stage[c] >= 9 ==> s.bFlagIn[c])
  }

  ghost predicate WordsOk<T(!new)>(cfg: Config<T>, s: State<T>, p: nat)
    requires Shape(cfg, s) && p < N(cfg)
  {
    && s.w0[p] == (if s.stage[p] <= 3 then CountHere(UpKids(cfg, p), s.ackIn) else 0)
    && s.w1[p] == (if p > 0 && s.ctsIn[p] && s.stage[p] <= 5 then 1 else 0)
    && s.w2[p] == (if p > 0 && s.bFlagIn[p] && s.stage[p] <= 11 then 1 else 0)
  }

  /** What a PE's target holds: source, partial result, or result. */
  ghost predicate TargetOk<T(!new)>(cfg: Config<T>, s: State<T>, p: nat)
    requires Shape(cfg, s) && p < N(cfg)
  {
    && (cfg.inPlace && s.stage[p] <= (if UpKids(cfg, p) == [] then 6 else 0) ==> s.tgt[p] == cfg.src[p])
    && (UpKids(cfg, p) != [] && 1 <= s.stage[p] <= 8 && !s.bDataIn[p] ==>
          s.tgt[p] == SetFold(cfg.op, cfg.src, Got(cfg.up, s.upIn, p)))
    && (p > 0 && s.bDataIn[p] ==> s.tgt[p] == Full(cfg))
    && (p == 0 && s.stage[p] >= 4 ==> s.tgt[p] == Full(cfg))
  }

  ghost predicate SentOk<T(!new)>(cfg: Config<T>, s: State<T>, p: nat)
    requires Shape(cfg, s) && p < N(cfg)
  {
    && (p in s.sent ==> s.sent[p] == SubFold(cfg, p))
    && (p in s.bsent ==> s.bsent[p] == Full(cfg))
  }

  ghost predicate PeOk<T(!new)>(cfg: Config<T>, s: State<T>, p: nat)
    requires Shape(cfg, s) && p < N(cfg)
  {
    StageOk(cfg, s, p) && WordsOk(cfg, s, p) && TargetOk(cfg, s, p) && SentOk(cfg, s, p)
  }

  ghost predicate LinkOk<T(!new)>(cfg: Config<T>, s: State<T>, c: nat)
    requires Shape(cfg, s) && 0 < c < N(cfg)
  {
    UpOk(cfg, s, c) && DownOk(cfg, s, c)
  }

  ghost predicate Inv<T(!new)>(cfg: Config<T>, s: State<T>) {
    && Shape(cfg, s)
    && !s.bDataIn[0]
    && (forall p: nat {:trigger PeOk(cfg, s, p)} :: p < N(cfg) ==> PeOk(cfg, s, p))
    && (forall c: nat {:trigger LinkOk(cfg, s, c)} :: 0 < c < N(cfg) ==> LinkOk(cfg, s, c))
  }

  lemma RootHasKids<T(!new)>(cfg: Config<T>)
    requires WellFormed(cfg)
    ensures UpKids(cfg, 0) != [] && DownKids(cfg, 0) != []
  {
    assert IsKid(cfg.up, 0, 1) && IsKid(cfg.down, 0, 1);
  }

  lemma InitEstablishesInv<T(!new)>(cfg: Config<T>, s: State<T>)
    requires Init(cfg, s)
    ensures Inv(cfg, s) == true
  {
    RootHasKids(cfg);
    forall p: nat | p < N(cfg) ensures PeOk(cfg, s, p) {
      CountNone(UpKids(cfg, p), s.ackIn);
    }
    forall c: nat | 0 < c < N(cfg) ensures LinkOk(cfg, s, c) {
      assert IsKid(cfg.up, cfg.up.parent[c], c);
    }
  }

  /** A PE with a child has children. */
  lemma ParentHasKids<T(!new)>(cfg: Config<T>, c: nat)
    requires WellFormed(cfg) && 0 < c < N(cfg)
    ensures c in UpKids(cfg, cfg.up.parent[c]) && c in DownKids(cfg, cfg.down.parent[c])
    ensures cfg.up.parent[c] < c && cfg.down.parent[c] < c
  {
    assert IsKid(cfg.up, cfg.up.parent[c], c) && IsKid(cfg.down, cfg.down.parent[c], c);
  }

  /** Once the root has gathered, every other PE has acknowledged and waits for the broadcast. */
  lemma {:induction false} RootGatheredAll<T(!new)>(cfg: Config<T>, s: State<T>, q: nat)
    requires Inv(cfg, s) && s.stage[0] >= 4 && 0 < q < N(cfg)
    ensures s.stage[q] >= 8 && s.upIn[q] && s.ackIn[q]
  {
    assert LinkOk(cfg, s, q);
    ParentHasKids(cfg, q);
    if cfg.up.parent[q] > 0 { RootGatheredAll(cfg, s, cfg.up.parent[q]); }
  }

  /** Whoever has seen the broadcast knows that the root has gathered. */
  lemma {:induction false} BroadcastMeansGathered<T(!new)>(cfg: Config<T>, s: State<T>, b: nat)
    requires Inv(cfg, s) && b < N(cfg) && s.stage[b] >= 9
    ensures s.stage[0] >= 9
  {
    if b > 0 {
      assert LinkOk(cfg, s, b);
      ParentHasKids(cfg, b);
      BroadcastMeansGathered(cfg, s, cfg.down.parent[b]);
    }
  }

  /** When p has passed its first wait, all its children's partial results are in its target. */
  lemma AllKidsAreIn<T(!new)>(cfg: Config<T>, s: State<T>, p: nat)
    requires Inv(cfg, s) && p < N(cfg) && UpKids(cfg, p) != []
    requires s.stage[p] >= 3 || (s.stage[p] == 2 && CanAdvance(cfg, s, p))
    ensures forall c :: 0 < c < N(cfg) && cfg.up.parent[c] == p ==> s.ackIn[c] && s.upIn[c]
    ensures SetFold(cfg.op, cfg.src, Got(cfg.up, s.upIn, p)) == SubFold(cfg, p)
  {
    assert PeOk(cfg, s, p);
    forall c | 0 < c < N(cfg) && cfg.up.parent[c] == p ensures s.ackIn[c] && s.upIn[c] {
      assert LinkOk(cfg, s, c);
      ParentHasKids(cfg, c);
      if s.stage[p] == 2 {
        var i :| 0 <= i < |UpKids(cfg, p)| && UpKids(cfg, p)[i] == c;
        CountFull(UpKids(cfg, p), s.ackIn, i);
      }
    }
    GotEverything(cfg.up, s.upIn, p);
  }

  // ------------------------------------------------------------------ landings keep it

  lemma LandCtsKeepsInv<T(!new)>(cfg: Config<T>, s: State<T>, c: nat)
    requires Inv(cfg, s) && 0 < c < N(cfg) && CanLandCts(cfg, s, c)
    ensures Inv(cfg, LandCts(cfg, s, c)) == true
  {
    var s' := LandCts(cfg, s, c);
    assert LinkOk(cfg, s, c);
    forall p: nat | p < N(cfg) ensures PeOk(cfg, s', p) {
      assert PeOk(cfg, s, p);
    }
    forall x: nat | 0 < x < N(cfg) ensures LinkOk(cfg, s', x) {
      assert LinkOk(cfg, s, x);
    }
  }

  /** A partial result only arrives while the parent is waiting for it. */
  lemma PartialFindsParentWaiting<T(!new)>(cfg: Config<T>, s: State<T>, c: nat)
    requires Inv(cfg, s) && 0 < c < N(cfg) && CanLandUp(cfg, s, c)
    ensures s.stage[cfg.up.parent[c]] == 2 && !s.bDataIn[cfg.up.parent[c]] && UpKids(cfg, cfg.up.parent[c]) != []
  {
    var p := cfg.up.parent[c];
    ParentHasKids(cfg, c);
    assert LinkOk(cfg, s, c) && PeOk(cfg, s, c);
    if p > 0 && s.bDataIn[p] {
      assert LinkOk(cfg, s, p);
      BroadcastMeansGathered(cfg, s, cfg.down.parent[p]);
      RootGatheredAll(cfg, s, c);
    }
  }

  lemma LandUpKeepsTarget<T(!new)>(cfg: Config<T>, s: State<T>, c: nat, p: nat)
    requires Inv(cfg, s) && 0 < c < N(cfg) && CanLandUp(cfg, s, c) && p < N(cfg)
    ensures TargetOk(cfg, LandUp(cfg, s, c), p)
  {
    assert PeOk(cfg, s, p) && PeOk(cfg, s, c);
    PartialFindsParentWaiting(cfg, s, c);
    var s' := LandUp(cfg, s, c);
    if p == cfg.up.parent[c] {
      GotGrows(cfg.up, s.upIn, c);
      SetFoldUnion(cfg.op, cfg.src, Got(cfg.up, s.upIn, p), Sub(cfg.up, c));
    } else {
      GotSame(cfg.up, s.upIn, s'.upIn, p);
    }
  }

  lemma LandUpKeepsInv<T(!new)>(cfg: Config<T>, s: State<T>, c: nat)
    requires Inv(cfg, s) && 0 < c < N(cfg) && CanLandUp(cfg, s, c)
    ensures Inv(cfg, LandUp(cfg, s, c)) == true
  {
    var s' := LandUp(cfg, s, c);
    assert PeOk(cfg, s, c);
    forall p: nat | p < N(cfg) ensures PeOk(cfg, s', p) {
      assert PeOk(cfg, s, p);
      LandUpKeepsTarget(cfg, s, c, p);
    }
    forall x: nat | 0 < x < N(cfg) ensures LinkOk(cfg, s', x) {
      assert LinkOk(cfg, s, x);
    }
  }

  lemma LandAckKeepsInv<T(!new)>(cfg: Config<T>, s: State<T>, c: nat)
    requires Inv(cfg, s) && 0 < c < N(cfg) && CanLandAck(cfg, s, c)
    ensures Inv(cfg, LandAck(cfg, s, c)) == true
  {
    var s' := LandAck(cfg, s, c);
    assert LinkOk(cfg, s, c);
    ParentHasKids(cfg, c);
    forall p: nat | p < N(cfg) ensures PeOk(cfg, s', p) {
      assert PeOk(cfg, s, p);
      LandAckCount(cfg, s, c, p);
    }
    forall x: nat | 0 < x < N(cfg) ensures LinkOk(cfg, s', x) {
      assert LinkOk(cfg, s, x);
    }
  }

  lemma LandAckCount<T(!new)>(cfg: Config<T>, s: State<T>, c: nat, p: nat)
    requires WellFormed(cfg) && |s.ackIn| == N(cfg) && 0 < c < N(cfg) && !s.ackIn[c] && p < N(cfg)
    ensures CountHere(UpKids(cfg, p), s.ackIn[c := true]) ==
            CountHere(UpKids(cfg, p), s.ackIn) + if p == cfg.up.parent[c] then 1 else 0
  {
    var kids := UpKids(cfg, p);
    if p == cfg.up.parent[c] {
      ParentHasKids(cfg, c);
      CountOneMore(kids, s.ackIn, c);
    } else {
      forall j | 0 <= j < |kids| ensures kids[j] != c {
        assert kids[j] in kids && IsKid(cfg.up, p, kids[j]);
      }
      CountSame(kids, s.ackIn, s.ackIn[c := true]);
    }
  }

  lemma LandBDataKeepsInv<T(!new)>(cfg: Config<T>, s: State<T>, c: nat)
    requires Inv(cfg, s) && 0 < c < N(cfg) && CanLandBData(cfg, s, c)
    ensures Inv(cfg, LandBData(cfg, s, c)) == true
  {
    var s' := LandBData(cfg, s, c);
    var b := cfg.down.parent[c];
    assert PeOk(cfg, s, b);
    BroadcastMeansGathered(cfg, s, b);
    RootGatheredAll(cfg, s, c);
    forall p: nat | p < N(cfg) ensures PeOk(cfg, s', p) {
      assert PeOk(cfg, s, p);
    }
    forall x: nat | 0 < x < N(cfg) ensures LinkOk(cfg, s', x) {
      assert LinkOk(cfg, s, x);
    }
  }

  lemma LandBFlagKeepsInv<T(!new)>(cfg: Config<T>, s: State<T>, c: nat)
    requires Inv(cfg, s) && 0 < c < N(cfg) && CanLandBFlag(cfg, s, c)
    ensures Inv(cfg, LandBFlag(cfg, s, c)) == true
  {
    var s' := LandBFlag(cfg, s, c);
    assert LinkOk(cfg, s, c);
    forall p: nat | p < N(cfg) ensures PeOk(cfg, s', p) {
      assert PeOk(cfg, s, p);
    }
    forall x: nat | 0 < x < N(cfg) ensures LinkOk(cfg, s', x) {
      assert LinkOk(cfg, s, x);
    }
  }

  // ------------------------------------------------------------------ local steps keep it

  lemma AdvanceKeepsUp<T(!new)>(cfg: Config<T>, s: State<T>, p: nat, c: nat)
    requires Inv(cfg, s) && p < N(cfg) && CanAdvance(cfg, s, p) && 0 < c < N(cfg)
    ensures Shape(cfg, Advance(cfg, s, p)) && UpOk(cfg, Advance(cfg, s, p), c) == true
  {
    hide SetFold, Got, Sub, CountHere, TargetOk, SentOk, AssociativeCommutative, DownOk;
    assert LinkOk(cfg, s, c) && PeOk(cfg, s, p);
    ParentHasKids(cfg, c);
    if p == cfg.up.parent[c] && s.stage[p] == 2 { AllKidsAreIn(cfg, s, p); }
  }

  lemma AdvanceKeepsDown<T(!new)>(cfg: Config<T>, s: State<T>, p: nat, c: nat)
    requires Inv(cfg, s) && p < N(cfg) && CanAdvance(cfg, s, p) && 0 < c < N(cfg)
    ensures Shape(cfg, Advance(cfg, s, p)) && DownOk(cfg, Advance(cfg, s, p), c) == true
  {
    hide SetFold, Got, Sub, CountHere, TargetOk, SentOk, AssociativeCommutative, UpOk;
    assert LinkOk(cfg, s, c) && PeOk(cfg, s, p);
    ParentHasKids(cfg, c);
  }

  lemma AdvanceKeepsLink<T(!new)>(cfg: Config<T>, s: State<T>, p: nat, c: nat)
    requires Inv(cfg, s) && p < N(cfg) && CanAdvance(cfg, s, p) && 0 < c < N(cfg)
    ensures Shape(cfg, Advance(cfg, s, p)) && LinkOk(cfg, Advance(cfg, s, p), c) == true
  {
    hide UpOk, DownOk, Inv, CanAdvance, Advance;
    AdvanceKeepsUp(cfg, s, p, c);
    AdvanceKeepsDown(cfg, s, p, c);
  }

  /** A step of p moves its stage on and brings in nothing. */
  lemma AdvanceStage<T(!new)>(cfg: Config<T>, s: State<T>, p: nat)
    requires Shape(cfg, s) && p < N(cfg) && CanAdvance(cfg, s, p)
    ensures var s' := Advance(cfg, s, p);
            && s'.stage == s.stage[p := NextStage(cfg, p, s.stage[p])]
            && s'.ctsIn == s.ctsIn && s'.upIn == s.upIn && s'.ackIn == s.ackIn
            && s'.bDataIn == s.bDataIn && s'.bFlagIn == s.bFlagIn
    ensures s.stage[p] < NextStage(cfg, p, s.stage[p])
  {
  }

  /** The only words it writes are its own three, each cleared right after the wait for it. */
  lemma AdvanceWords<T(!new)>(cfg: Config<T>, s: State<T>, p: nat, q: nat)
    requires Shape(cfg, s) && p < N(cfg) && CanAdvance(cfg, s, p) && q < N(cfg)
    ensures var s' := Advance(cfg, s, p);
            && |s'.w0| == |s'.w1| == |s'.w2| == N(cfg)
            && s'.w0[q] == (if q == p && s.stage[p] == 3 then 0 else s.w0[q])
            && s'.w1[q] == (if q == p && s.stage[p] == 5 then 0 else s.w1[q])
            && s'.w2[q] == (if q == p && s.stage[p] == 11 then 0 else s.w2[q])
  {
  }

  lemma AdvanceKeepsWords<T(!new)>(cfg: Config<T>, s: State<T>, p: nat, q: nat)
    requires Inv(cfg, s) && p < N(cfg) && CanAdvance(cfg, s, p) && q < N(cfg)
    requires Shape(cfg, Advance(cfg, s, p))
    ensures WordsOk(cfg, Advance(cfg, s, p), q) == true
  {
    hide SetFold, Got, Sub, CountHere, TargetOk, SentOk, AssociativeCommutative, ValidTree, Advance;
    assert PeOk(cfg, s, q) && PeOk(cfg, s, p);
    AdvanceStage(cfg, s, p);
    AdvanceWords(cfg, s, p, q);
  }

  lemma AdvanceKeepsStage<T(!new)>(cfg: Config<T>, s: State<T>, p: nat, q: nat)
    requires Inv(cfg, s) && p < N(cfg) && CanAdvance(cfg, s, p) && q < N(cfg)
    requires Shape(cfg, Advance(cfg, s, p))
    ensures StageOk(cfg, Advance(cfg, s, p), q) == true
  {
    hide SetFold, Got, Sub, CountHere, TargetOk, SentOk, AssociativeCommutative, WordsOk;
    assert PeOk(cfg, s, q) && PeOk(cfg, s, p);
    RootHasKids(cfg);
  }

  /** A leaf's partial result is its own contribution. */
  lemma LeafFold<T(!new)>(cfg: Config<T>, p: nat)
    requires WellFormed(cfg) && p < N(cfg) && UpKids(cfg, p) == []
    ensures SubFold(cfg, p) == cfg.src[p]
  {
    var none := seq(N(cfg), _ => false);
    GotNothing(cfg.up, none, p);
    forall c | 0 < c < N(cfg) ensures cfg.up.parent[c] != p {
      ParentHasKids(cfg, c);
    }
    GotEverything(cfg.up, none, p);
    SetFoldOne(cfg.op, cfg.src, p);
  }

  lemma AdvanceKeepsSent<T(!new)>(cfg: Config<T>, s: State<T>, p: nat, q: nat)
    requires Inv(cfg, s) && p < N(cfg) && CanAdvance(cfg, s, p) && q < N(cfg)
    requires Shape(cfg, Advance(cfg, s, p))
    ensures SentOk(cfg, Advance(cfg, s, p), q) == true
  {
    assert PeOk(cfg, s, q) && PeOk(cfg, s, p);
    if q == p {
      if s.stage[p] == 6 {
        NoBroadcastYet(cfg, s, p);
        if UpKids(cfg, p) == [] {
          LeafFold(cfg, p);
        } else {
          AllKidsAreIn(cfg, s, p);
        }
      }
      if s.stage[p] == 9 && p > 0 { assert LinkOk(cfg, s, p); }
    }
  }

  /** Before it has acknowledged, a PE gets no broadcast. */
  lemma NoBroadcastYet<T(!new)>(cfg: Config<T>, s: State<T>, p: nat)
    requires Inv(cfg, s) && p < N(cfg) && s.stage[p] < 8
    ensures !s.bDataIn[p]
  {
    if p > 0 && s.bDataIn[p] {
      assert LinkOk(cfg, s, p);
      BroadcastMeansGathered(cfg, s, cfg.down.parent[p]);
      RootGatheredAll(cfg, s, p);
    }
  }

  lemma AdvanceKeepsTarget<T(!new)>(cfg: Config<T>, s: State<T>, p: nat, q: nat)
    requires Inv(cfg, s) && p < N(cfg) && CanAdvance(cfg, s, p) && q < N(cfg)
    requires Shape(cfg, Advance(cfg, s, p))
    ensures TargetOk(cfg, Advance(cfg, s, p), q) == true
  {
    assert PeOk(cfg, s, q) && PeOk(cfg, s, p);
    if q == p {
      if s.stage[p] == 0 {
        NoneInYet(cfg, s, p);
      }
      if p == 0 && s.stage[p] == 3 {
        RootHasKids(cfg);
        AllKidsAreIn(cfg, s, p);
        RootHasAll(cfg);
      }
    }
  }

  /** Before a PE has cleared its children to send, none of them has sent. */
  lemma NoneInYet<T(!new)>(cfg: Config<T>, s: State<T>, p: nat)
    requires Inv(cfg, s) && p < N(cfg) && s.stage[p] == 0
    ensures SetFold(cfg.op, cfg.src, Got(cfg.up, s.upIn, p)) == cfg.src[p]
    ensures !s.bDataIn[p]
  {
    NoBroadcastYet(cfg, s, p);
    forall c | 0 < c < N(cfg) && cfg.up.parent[c] == p ensures !s.upIn[c] {
      assert LinkOk(cfg, s, c);
    }
    GotNothing(cfg.up, s.upIn, p);
    SetFoldOne(cfg.op, cfg.src, p);
  }

  lemma AdvanceKeepsInv<T(!new)>(cfg: Config<T>, s: State<T>, p: nat)
    requires Inv(cfg, s) && p < N(cfg) && CanAdvance(cfg, s, p)
    ensures Inv(cfg, Advance(cfg, s, p)) == true
  {
    var s' := Advance(cfg, s, p);
    AdvanceKeepsLink(cfg, s, p, 1);
    forall q: nat | q < N(cfg) ensures PeOk(cfg, s', q) {
      AdvanceKeepsStage(cfg, s, p, q);
      AdvanceKeepsWords(cfg, s, p, q);
      AdvanceKeepsSent(cfg, s, p, q);
      AdvanceKeepsTarget(cfg, s, p, q);
    }
    forall c: nat | 0 < c < N(cfg) ensures LinkOk(cfg, s', c) {
      AdvanceKeepsLink(cfg, s, p, c);
    }
  }

  lemma NextKeepsInv<T(!new)>(cfg: Config<T>, s: State<T>, s': State<T>)
    requires Inv(cfg, s) && Next(cfg, s, s')
    ensures Inv(cfg, s') == true
  {
    hide Inv, Advance, LandCts, LandUp, LandAck, LandBData, LandBFlag;
    if p: nat :| p < N(cfg) && CanAdvance(cfg, s, p) && s' == Advance(cfg, s, p) {
      AdvanceKeepsInv(cfg, s, p);
    } else {
      var c: nat :| Lands(cfg, s, c, s');
      if CanLandCts(cfg, s, c) && s' == LandCts(cfg, s, c) {
        LandCtsKeepsInv(cfg, s, c);
      } else if CanLandUp(cfg, s, c) && s' == LandUp(cfg, s, c) {
        LandUpKeepsInv(cfg, s, c);
      } else if CanLandAck(cfg, s, c) && s' == LandAck(cfg, s, c) {
        LandAckKeepsInv(cfg, s, c);
      } else if CanLandBData(cfg, s, c) && s' == LandBData(cfg, s, c) {
        LandBDataKeepsInv(cfg, s, c);
      } else {
        LandBFlagKeepsInv(cfg, s, c);
      }
    }
  }

  // ------------------------------------------------------------------ what the all-reduce promises

  ghost predicate IsRun<T(!new)>(cfg: Config<T>, run: seq<State<T>>) {
    && run != [] && Init(cfg, run[0])
    && forall k :: 0 <= k < |run| - 1 ==> Next(cfg, run[k], run[k + 1])
  }

  lemma {:induction false} RunKeepsInv<T(!new)>(cfg: Config<T>, run: seq<State<T>>, k: nat)
    requires IsRun(cfg, run) && k < |run|
    ensures Inv(cfg, run[k]) == true
  {
    hide Inv, Next, Init;
    if k == 0 {
      InitEstablishesInv(cfg, run[0]);
    } else {
      RunKeepsInv(cfg, run, k - 1);
      assert Next(cfg, run[k - 1], run[k - 1 + 1]);
      NextKeepsInv(cfg, run[k - 1], run[k]);
    }
  }

  /** A PE that has left the call has the fold of all contributions in rank order. */
  lemma AllReduceResult<T(!new)>(cfg: Config<T>, run: seq<State<T>>, k: nat, p: nat)
    requires IsRun(cfg, run) && k < |run| && p < N(cfg)
    ensures Shape(cfg, run[k])
    ensures run[k].stage[p] >= 9 ==> run[k].tgt[p] == RankFold(cfg.op, cfg.src, N(cfg))
  {
    RunKeepsInv(cfg, run, k);
    var s := run[k];
    assert PeOk(cfg, s, p);
    if p > 0 { assert LinkOk(cfg, s, p); }
  }

  /**
    Partial results are only added to a target that holds its owner's contribution and is waiting
    for them, and the broadcast only overwrites targets whose contents have reached the parent.
  */
  lemma NothingLandsTooEarly<T(!new)>(cfg: Config<T>, run: seq<State<T>>, k: nat, c: nat)
    requires IsRun(cfg, run) && k < |run| && Shape(cfg, run[k]) && 0 < c < N(cfg)
    ensures CanLandUp(cfg, run[k], c) ==>
              var p := cfg.up.parent[c];
              && run[k].stage[p] == 2
              && run[k].tgt[p] == SetFold(cfg.op, cfg.src, Got(cfg.up, run[k].upIn, p))
    ensures CanLandBData(cfg, run[k], c) ==> run[k].stage[c] == 8 && run[k].upIn[c]
  {
    RunKeepsInv(cfg, run, k);
    var s := run[k];
    if CanLandUp(cfg, s, c) {
      PartialFindsParentWaiting(cfg, s, c);
      assert PeOk(cfg, s, cfg.up.parent[c]);
    }
    if CanLandBData(cfg, s, c) {
      assert PeOk(cfg, s, cfg.down.parent[c]) && LinkOk(cfg, s, c);
      BroadcastMeansGathered(cfg, s, cfg.down.parent[c]);
      RootGatheredAll(cfg, s, c);
    }
  }

  /** A PE that is done has zeroed words, and nothing is under way to them. */
  lemma PSyncIsRestored<T(!new)>(cfg: Config<T>, run: seq<State<T>>, k: nat, p: nat)
    requires IsRun(cfg, run) && k < |run| && Shape(cfg, run[k]) && p < N(cfg) && run[k].stage[p] == 12
    ensures run[k].w0[p] == 0 && run[k].w1[p] == 0 && run[k].w2[p] == 0
    ensures p > 0 ==> !CanLandCts(cfg, run[k], p) && !CanLandBFlag(cfg, run[k], p)
    ensures forall c :: 0 < c < N(cfg) && cfg.up.parent[c] == p ==> !CanLandAck(cfg, run[k], c)
  {
    RunKeepsInv(cfg, run, k);
    var s := run[k];
    assert PeOk(cfg, s, p);
    if p > 0 { assert LinkOk(cfg, s, p); }
    BroadcastMeansGathered(cfg, s, p);
    forall c | 0 < c < N(cfg) && cfg.up.parent[c] == p ensures !CanLandAck(cfg, s, c) {
      RootGatheredAll(cfg, s, c);
    }
  }

  // ------------------------------------------------------------------ no deadlock

  ghost predicate Stuck<T(!new)>(cfg: Config<T>, s: State<T>)
    requires Shape(cfg, s)
  {
    && (forall p :: 0 <= p < N(cfg) ==> !CanAdvance(cfg, s, p))
    && (forall c: nat {:trigger LinkOk(cfg, s, c)} :: 0 < c < N(cfg) ==>
          && !CanLandCts(cfg, s, c) && !CanLandUp(cfg, s, c) && !CanLandAck(cfg, s, c)
          && !CanLandBData(cfg, s, c) && !CanLandBFlag(cfg, s, c))
  }

  /** In a stuck state everyone has acknowledged: leaves first, then their parents. */
  lemma {:induction false} StuckHasGathered<T(!new)>(cfg: Config<T>, s: State<T>, p: nat)
    requires Inv(cfg, s) && Stuck(cfg, s) && p < N(cfg)
    ensures s.stage[p] >= 4
    decreases N(cfg) - p
  {
    assert PeOk(cfg, s, p) && !CanAdvance(cfg, s, p);
    if s.stage[p] == 2 {
      forall j | 0 <= j < |UpKids(cfg, p)| ensures s.ackIn[UpKids(cfg, p)[j]] {
        var c := UpKids(cfg, p)[j];
        assert c in UpKids(cfg, p) && IsKid(cfg.up, p, c);
        StuckHasGathered(cfg, s, c);
        StuckKidHasAcked(cfg, s, c);
      }
      CountAll(UpKids(cfg, p), s.ackIn);
    }
  }

  lemma StuckKidHasAcked<T(!new)>(cfg: Config<T>, s: State<T>, c: nat)
    requires Inv(cfg, s) && Stuck(cfg, s) && 0 < c < N(cfg) && s.stage[c] >= 4 && s.stage[cfg.up.parent[c]] >= 2
    ensures s.ackIn[c]
  {
    assert PeOk(cfg, s, c) && !CanAdvance(cfg, s, c) && LinkOk(cfg, s, c);
  }

  lemma {:induction false} StuckHasBroadcast<T(!new)>(cfg: Config<T>, s: State<T>, p: nat)
    requires Inv(cfg, s) && Stuck(cfg, s) && p < N(cfg)
    ensures s.stage[p] == 12
  {
    assert PeOk(cfg, s, p) && !CanAdvance(cfg, s, p);
    StuckHasGathered(cfg, s, 0);
    if p > 0 {
      assert PeOk(cfg, s, 0);
      RootGatheredAll(cfg, s, p);
      assert LinkOk(cfg, s, p);
      ParentHasKids(cfg, p);
      StuckHasBroadcast(cfg, s, cfg.down.parent[p]);
      assert PeOk(cfg, s, cfg.down.parent[p]);
    }
  }

  /** No deadlock: the only state in which nothing can happen is the one where every PE is done. */
  lemma NoDeadlock<T(!new)>(cfg: Config<T>, run: seq<State<T>>, k: nat, p: nat)
    requires IsRun(cfg, run) && k < |run| && Shape(cfg, run[k]) && Stuck(cfg, run[k]) && p < N(cfg)
    ensures run[k].stage[p] == 12
  {
    RunKeepsInv(cfg, run, k);
    StuckHasBroadcast(cfg, run[k], p);
  }

  /** The trees the code uses give well-formed configurations: k-ary, full, and the star of the linear variants. */
  lemma EveryTreeWorks(n: nat, radix: nat)
    requires n >= 2 && radix >= 2
    ensures ValidTree(KaryTree(radix, n)) && Bounded(KaryTree(radix, n)) && KaryTree(radix, n).n == n
    ensures ValidTree(FullTree(radix, n)) && Bounded(FullTree(radix, n)) && FullTree(radix, n).n == n
    ensures ValidTree(StarTree(n)) && Bounded(StarTree(n)) && StarTree(n).n == n
  {
    KaryTreeIsValid(radix, n);
    ValidIsBounded(KaryTree(radix, n));
    FullTreeIsValid(radix, n);
    ValidIsBounded(FullTree(radix, n));
    StarTreeIsValid(n);
    ValidIsBounded(StarTree(n));
  }

  lemma ValidIsBounded(t: Tree)
    requires ValidTree(t)
    ensures Bounded(t)
  {
    TreeSpans(t, 0);
    forall p, i | 0 <= p < t.n && 0 <= i < |t.kids[p]| ensures 0 < t.kids[p][i] < t.n {
      assert t.kids[p][i] in t.kids[p];
      assert IsKid(t, p, t.kids[p][i]);
    }
  }

  // ------------------------------------------------------------------ every run ends

  /** The steps left to PE p and to the messages to and from it. */
  function Todo<T>(s: State<T>, p: nat): nat
    requires p < |s.stage| == |s.ctsIn| == |s.upIn| == |s.ackIn| == |s.bDataIn| == |s.bFlagIn|
  {
    12 - s.stage[p] + Open(s.ctsIn[p]) + Open(s.upIn[p]) + Open(s.ackIn[p]) + Open(s.bDataIn[p]) + Open(s.bFlagIn[p])
  }

  ghost function Todos<T(!new)>(cfg: Config<T>, s: State<T>): (ms: seq<nat>)
    requires Shape(cfg, s)
    ensures |ms| == N(cfg) && forall p :: 0 <= p < N(cfg) ==> ms[p] == Todo(s, p)
  {
    seq(N(cfg), p requires 0 <= p < N(cfg) => Todo(s, p))
  }

  /** A step of p. */
  ghost predicate StepOf<T(!new)>(cfg: Config<T>, s: State<T>, p: nat, s': State<T>)
    requires Shape(cfg, s)
  {
    && p < N(cfg)
    && ((CanAdvance(cfg, s, p) && s' == Advance(cfg, s, p)) || Lands(cfg, s, p, s'))
  }

  /** Every step does some of the work left to one PE, and adds none to the others. */
  lemma StepIsProgress<T(!new)>(cfg: Config<T>, s: State<T>, p: nat, s': State<T>)
    requires Shape(cfg, s) && Shape(cfg, s') && p < N(cfg) && StepOf(cfg, s, p, s') == true
    ensures Sum(Todos(cfg, s')) < Sum(Todos(cfg, s))
  {
    hide StepOf, Todo, Open;
    forall q | 0 <= q < N(cfg) ensures if q == p then Todo(s', q) < Todo(s, q) else Todo(s', q) == Todo(s, q) {
      StepDoes(cfg, s, p, s', q);
    }
    StepDoes(cfg, s, p, s', p);
    SumDrops(Todos(cfg, s), Todos(cfg, s'), p);
  }

  lemma StepDoes<T(!new)>(cfg: Config<T>, s: State<T>, p: nat, s': State<T>, q: nat)
    requires Shape(cfg, s) && Shape(cfg, s') && p < N(cfg) && q < N(cfg) && StepOf(cfg, s, p, s') == true
    ensures if q == p then Todo(s', q) < Todo(s, q) else Todo(s', q) == Todo(s, q)
  {
    hide Todo, CanAdvance, Advance, WellFormed;
    if CanAdvance(cfg, s, p) && s' == Advance(cfg, s, p) {
      AdvanceDoes(cfg, s, p, q);
    } else if CanLandCts(cfg, s, p) && s' == LandCts(cfg, s, p) {
      OneMoreLanded(s, s', p, q);
    } else if CanLandUp(cfg, s, p) && s' == LandUp(cfg, s, p) {
      OneMoreLanded(s, s', p, q);
    } else if CanLandAck(cfg, s, p) && s' == LandAck(cfg, s, p) {
      OneMoreLanded(s, s', p, q);
    } else if CanLandBData(cfg, s, p) && s' == LandBData(cfg, s, p) {
      OneMoreLanded(s, s', p, q);
    } else {
      OneMoreLanded(s, s', p, q);
    }
  }

  /** One of the five flags of p is new. */
  lemma OneMoreLanded<T>(s: State<T>, s': State<T>, p: nat, q: nat)
    requires |s.stage| == |s.ctsIn| == |s.upIn| == |s.ackIn| == |s.bDataIn| == |s.bFlagIn| && p < |s.stage| && q < |s.stage| && s'.stage == s.stage
    requires
      || (!s.ctsIn[p] && s'.ctsIn == s.ctsIn[p := true] && s'.upIn == s.upIn && s'.ackIn == s.ackIn && s'.bDataIn == s.bDataIn && s'.bFlagIn == s.bFlagIn)
      || (!s.upIn[p] && s'.upIn == s.upIn[p := true] && s'.ctsIn == s.ctsIn && s'.ackIn == s.ackIn && s'.bDataIn == s.bDataIn && s'.bFlagIn == s.bFlagIn)
      || (!s.ackIn[p] && s'.ackIn == s.ackIn[p := true] && s'.ctsIn == s.ctsIn && s'.upIn == s.upIn && s'.bDataIn == s.bDataIn && s'.bFlagIn == s.bFlagIn)
      || (!s.bDataIn[p] && s'.bDataIn == s.bDataIn[p := true] && s'.ctsIn == s.ctsIn && s'.upIn == s.upIn && s'.ackIn == s.ackIn && s'.bFlagIn == s.bFlagIn)
      || (!s.bFlagIn[p] && s'.bFlagIn == s.bFlagIn[p := true] && s'.ctsIn == s.ctsIn && s'.upIn == s.upIn && s'.ackIn == s.ackIn && s'.bDataIn == s.bDataIn)
    ensures if q == p then Todo(s', q) < Todo(s, q) else Todo(s', q) == Todo(s, q)
  {
  }

  lemma AdvanceDoes<T(!new)>(cfg: Config<T>, s: State<T>, p: nat, q: nat)
    requires Shape(cfg, s) && p < N(cfg) && CanAdvance(cfg, s, p) && q < N(cfg)
    ensures var s' := Advance(cfg, s, p); if q == p then Todo(s', q) < Todo(s, q) else Todo(s', q) == Todo(s, q)
  {
    hide Advance, CanAdvance;
    AdvanceStage(cfg, s, p);
  }

  /** No run is longer than this. */
  lemma {:induction false} RunsAreBounded<T(!new)>(cfg: Config<T>, run: seq<State<T>>, k: nat)
    requires IsRun(cfg, run) && k < |run|
    ensures Shape(cfg, run[k]) && k + Sum(Todos(cfg, run[k])) <= N(cfg) * 17
  {
    RunKeepsInv(cfg, run, k);
    hide StepOf, Todo, Init, CanAdvance, Lands, Shape;
    assert Shape(cfg, run[k]) by { InvHasShape(cfg, run[k]); }
    if k == 0 {
      forall p | 0 <= p < N(cfg) ensures Todo(run[0], p) <= 17 {
        TodoBound(run[0], p);
      }
      SumBound(Todos(cfg, run[0]), 17);
    } else {
      RunsAreBounded(cfg, run, k - 1);
      assert Next(cfg, run[k - 1], run[k - 1 + 1]);
      var p := WhoSteps(cfg, run[k - 1], run[k]);
      StepIsProgress(cfg, run[k - 1], p, run[k]);
    }
  }

  lemma InvHasShape<T(!new)>(cfg: Config<T>, s: State<T>)
    requires Inv(cfg, s)
    ensures Shape(cfg, s)
  {
  }

  lemma TodoBound<T>(s: State<T>, p: nat)
    requires p < |s.stage| == |s.ctsIn| == |s.upIn| == |s.ackIn| == |s.bDataIn| == |s.bFlagIn|
    ensures Todo(s, p) <= 17
  {
  }

  lemma WhoSteps<T(!new)>(cfg: Config<T>, s: State<T>, s': State<T>) returns (p: nat)
    requires Next(cfg, s, s')
    ensures Shape(cfg, s) && p < N(cfg) && StepOf(cfg, s, p, s') == true
  {
    if q: nat :| q < N(cfg) && CanAdvance(cfg, s, q) && s' == Advance(cfg, s, q) {
      p := q;
    } else {
      p :| Lands(cfg, s, p, s');
    }
  }

  ghost predicate AllBack<T(!new)>(cfg: Config<T>, s: State<T>)
    requires Shape(cfg, s)
  {
    forall p :: 0 <= p < N(cfg) ==> s.stage[p] == 12
  }

  /** Every run can be continued until every PE is back. */
  lemma {:induction false} RunsComplete<T(!new)>(cfg: Config<T>, run: seq<State<T>>) returns (run': seq<State<T>>)
    requires IsRun(cfg, run)
    ensures IsRun(cfg, run') && run <= run' && Shape(cfg, run'[|run'| - 1])
    ensures AllBack(cfg, run'[|run'| - 1])
    decreases N(cfg) * 17 - |run|
  {
    hide Init, CanAdvance, Lands, Shape, Next, Stuck;
    var s := run[|run| - 1];
    RunsAreBounded(cfg, run, |run| - 1);
    if Stuck(cfg, s) {
      run' := run;
      StuckAllBack(cfg, run);
    } else {
      var s' := NextState(cfg, s);
      Extended(cfg, run, s');
      RunsAreBounded(cfg, run + [s'], |run|);
      run' := RunsComplete(cfg, run + [s']);
    }
  }

  lemma StuckAllBack<T(!new)>(cfg: Config<T>, run: seq<State<T>>)
    requires IsRun(cfg, run) && Shape(cfg, run[|run| - 1]) && Stuck(cfg, run[|run| - 1])
    ensures AllBack(cfg, run[|run| - 1])
  {
    var s := run[|run| - 1];
    forall p | 0 <= p < N(cfg) ensures s.stage[p] == 12 {
      NoDeadlock(cfg, run, |run| - 1, p);
    }
  }

  lemma Extended<T(!new)>(cfg: Config<T>, run: seq<State<T>>, s': State<T>)
    requires IsRun(cfg, run) && Next(cfg, run[|run| - 1], s')
    ensures IsRun(cfg, run + [s'])
  {
    hide Init, Next;
    var more := run + [s'];
    forall k | 0 <= k < |more| - 1 ensures Next(cfg, more[k], more[k + 1]) {
      if k < |run| - 1 { assert Next(cfg, run[k], run[k + 1]); }
    }
  }

  lemma NextState<T(!new)>(cfg: Config<T>, s: State<T>) returns (s': State<T>)
    requires Shape(cfg, s) && !Stuck(cfg, s)
    ensures Next(cfg, s, s') == true
  {
    if p: nat :| p < N(cfg) && CanAdvance(cfg, s, p) {
      s' := Advance(cfg, s, p);
    } else {
      var c: nat :| 0 < c < N(cfg)
                    && (CanLandCts(cfg, s, c) || CanLandUp(cfg, s, c) || CanLandAck(cfg, s, c)
                        || CanLandBData(cfg, s, c) || CanLandBFlag(cfg, s, c));
      s' := Landed(cfg, s, c);
    }
  }

  lemma Landed<T(!new)>(cfg: Config<T>, s: State<T>, c: nat) returns (s': State<T>)
    requires Shape(cfg, s) && 0 < c < N(cfg)
    requires CanLandCts(cfg, s, c) || CanLandUp(cfg, s, c) || CanLandAck(cfg, s, c) || CanLandBData(cfg, s, c) || CanLandBFlag(cfg, s, c)
    ensures Lands(cfg, s, c, s') == true
  {
    if CanLandCts(cfg, s, c) {
      s' := LandCts(cfg, s, c);
    } else if CanLandUp(cfg, s, c) {
      s' := LandUp(cfg, s, c);
    } else if CanLandAck(cfg, s, c) {
      s' := LandAck(cfg, s, c);
    } else if CanLandBData(cfg, s, c) {
      s' := LandBData(cfg, s, c);
    } else {
      s' := LandBFlag(cfg, s, c);
    }
  }
}
