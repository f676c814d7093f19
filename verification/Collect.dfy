/**
  The variable-size gather of src/collectives.c (collect_linear), one call from zeroed pSync words.

  Each PE learns the displacement of its block from the PE before it and tells the PE after it
  where its own block ends.  It then puts its block to every PE, beginning with the one after
  itself and ending with itself, waits until its puts have arrived, and enters a barrier.  Puts
  are under way from the step that issues them to a later landing; the length and its flag travel
  as one message.  PEs are named by their rank in the active set.
*/
module Collect {
  import opened Progress

  // ------------------------------------------------------------------ the order of the peers

  /** The member of the active set that follows PE `curr`; after the last comes the first. */
  function CircularNext(curr: int, start: int, stride: int, size: nat): int {
    if curr + stride > start + stride * (size - 1) then start else curr + stride
  }

  function NextRank(r: nat, n: nat): (q: nat)
    requires r < n
    ensures q < n
  {
    if r + 1 == n then 0 else r + 1
  }

  lemma NextMultiple(a: nat, stride: int)
    ensures (a + 1) * stride == a * stride + stride
  {
  }

  /** Multiples of the stride keep the order of the ranks. */
  lemma {:induction false} StrideKeepsOrder(a: nat, b: nat, stride: int)
    requires stride > 0 && a < b
    ensures (a + 1) * stride <= b * stride
  {
    if a + 1 < b {
      StrideKeepsOrder(a, b - 1, stride);
      NextMultiple(b - 1, stride);
    }
  }

  /** In terms of ranks, the iterator adds one around the ring. */
  lemma CircularNextIsNextRank(r: nat, start: int, stride: int, size: nat)
    requires stride > 0 && r < size
    ensures CircularNext(start + r * stride, start, stride, size) == start + NextRank(r, size) * stride
  {
    NextMultiple(r, stride);
    if r + 1 < size { StrideKeepsOrder(r, size - 1, stride); }
    var here, next, last := r * stride, (r + 1) * stride, (size - 1) * stride;
    assert next == here + stride;
    assert stride * (size - 1) == last;
    if r + 1 == size {
      assert here == last;
    } else {
      assert next <= last;
    }
  }

  /** How many peers come before q when p goes around: the one after p comes first, p itself last. */
  function Turn(p: nat, q: nat, n: nat): (c: nat)
    requires p < n && q < n
    ensures c < n
  {
    if q > p then q - p - 1 else q + n - p - 1
  }

  /** Every peer has a turn of its own, and the iterator goes through the turns in order. */
  lemma TurnsAreInOrder(p: nat, q: nat, r: nat, n: nat)
    requires p < n && q < n && r < n
    ensures Turn(p, q, n) == Turn(p, r, n) <==> q == r
    ensures Turn(p, NextRank(p, n), n) == 0
    ensures NextRank(q, n) != NextRank(p, n) ==> Turn(p, NextRank(q, n), n) == Turn(p, q, n) + 1
    ensures NextRank(q, n) == NextRank(p, n) <==> Turn(p, q, n) == n - 1
  {
  }

  // ------------------------------------------------------------------ where the blocks lie

  /** The first m blocks, one after the other. */
  function Concat<T>(src: seq<seq<T>>, m: nat): (r: seq<T>)
    requires m <= |src|
  {
    if m == 0 then [] else Concat(src, m - 1) + src[m - 1]
  }

  /** The displacement of block p. */
  function Disp<T>(src: seq<seq<T>>, p: nat): (d: nat)
    requires p <= |src|
  {
    |Concat(src, p)|
  }

  /** Block p lies at its displacement, whatever follows. */
  lemma {:induction false} BlockLies<T>(src: seq<seq<T>>, p: nat, m: nat)
    requires p < m <= |src|
    ensures Disp(src, p) + |src[p]| <= Disp(src, m)
    ensures Concat(src, m)[Disp(src, p)..Disp(src, p) + |src[p]|] == src[p]
    decreases m
  {
    if p < m - 1 { BlockLies(src, p, m - 1); }
  }

  /** The block that element b of the whole comes from. */
  lemma {:induction false} BlockOf<T>(src: seq<seq<T>>, m: nat, b: nat) returns (p: nat)
    requires m <= |src| && b < Disp(src, m)
    ensures p < m && Disp(src, p) <= b < Disp(src, p) + |src[p]|
  {
    if b >= Disp(src, m - 1) { p := m - 1; } else { p := BlockOf(src, m - 1, b); }
  }

  // ------------------------------------------------------------------ the protocol

  /** src[p] is what PE p contributes; the lengths may differ and may be zero. */
  datatype Config<!T> = Config(src: seq<seq<T>>)

  function N<T>(cfg: Config<T>): nat {
    |cfg.src|
  }

  function Whole<T>(cfg: Config<T>): seq<T> {
    Concat(cfg.src, N(cfg))
  }

  datatype Stage = Learn | Tell | Send | Quiet | Barrier | Reset | Done

  /**
    offset[p] is p's displacement once it knows it, peer[p] the PE it puts to next.  told[p] is
    what has been sent to p, heard[p] says that it has landed in p's two words.  issued and landed
    hold (p, q) for a put of p's block to q.
  */
  datatype State<T> = State(
    stage: seq<Stage>, offset: seq<nat>, peer: seq<nat>, word0: seq<nat>, word1: seq<nat>,
    told: map<nat, nat>, heard: seq<bool>, target: seq<seq<T>>,
    issued: set<(nat, nat)>, landed: set<(nat, nat)>)

  ghost predicate Shape<T(!new)>(cfg: Config<T>, s: State<T>) {
    && N(cfg) >= 2
    && |s.stage| == |s.offset| == |s.peer| == |s.word0| == |s.word1| == |s.heard| == |s.target| == N(cfg)
    && (forall p :: 0 <= p < N(cfg) ==> |s.target[p]| == |Whole(cfg)| && s.peer[p] < N(cfg))
  }

  ghost predicate Init<T(!new)>(cfg: Config<T>, s: State<T>) {
    && Shape(cfg, s)
    && (forall p :: 0 <= p < N(cfg) ==> s.stage[p] == Learn && s.word0[p] == 0 && s.word1[p] == 0 && !s.heard[p])
    && s.told == map[] && s.issued == s.landed == {}
  }

  predicate Entered(stage: Stage) {
    stage.Barrier? || stage.Reset? || stage.Done?
  }

  ghost predicate CanAdvance<T(!new)>(cfg: Config<T>, s: State<T>, p: nat)
    requires Shape(cfg, s) && p < N(cfg)
  {
    match s.stage[p]
    case Learn => p == 0 || s.word1[p] == 1
    case Quiet =>
      && (p + 1 < N(cfg) ==> s.heard[p + 1])
      && forall q {:trigger (p, q) in s.landed} :: 0 <= q < N(cfg) && (p, q) in s.issued ==> (p, q) in s.landed
    case Barrier => forall q :: 0 <= q < N(cfg) ==> Entered(s.stage[q])
    case Done => false
    case _ => true
  }

  /** The step of p.  The barrier lets p out once all have entered it. */
  ghost function Advance<T(!new)>(cfg: Config<T>, s: State<T>, p: nat): State<T>
    requires Shape(cfg, s) && p < N(cfg) && CanAdvance(cfg, s, p)
  {
    var n, len := N(cfg), |cfg.src[p]|;
    match s.stage[p]
    case Learn =>
      s.(stage := s.stage[p := Tell], offset := s.offset[p := if p == 0 then 0 else s.word0[p]])
    case Tell =>
      var s1 := s.(stage := s.stage[p := Send], peer := s.peer[p := NextRank(p, n)]);
      if p + 1 < n then s1.(told := s.told[p + 1 := s.offset[p] + len]) else s1
    case Send =>
      var next := NextRank(s.peer[p], n);
      s.(issued := if len > 0 then s.issued + {(p, s.peer[p])} else s.issued,
         peer := s.peer[p := next],
         stage := s.stage[p := if next != NextRank(p, n) then Send else Quiet])
    case Quiet => s.(stage := s.stage[p := Barrier])
    case Barrier => s.(stage := s.stage[p := Reset])
    case Reset => s.(stage := s.stage[p := Done], word0 := s.word0[p := 0], word1 := s.word1[p := 0])
  }

  ghost predicate CanHear<T(!new)>(cfg: Config<T>, s: State<T>, p: nat)
    requires Shape(cfg, s) && p < N(cfg)
  {
    p in s.told && !s.heard[p]
  }

  /** The two words written by the PE before p. */
  ghost function Hear<T(!new)>(cfg: Config<T>, s: State<T>, p: nat): State<T>
    requires Shape(cfg, s) && p < N(cfg) && CanHear(cfg, s, p)
  {
    s.(heard := s.heard[p := true], word0 := s.word0[p := s.told[p]], word1 := s.word1[p := 1])
  }

  ghost predicate CanLand<T(!new)>(cfg: Config<T>, s: State<T>, p: nat, q: nat)
    requires Shape(cfg, s) && p < N(cfg) && q < N(cfg)
  {
    (p, q) in s.issued && (p, q) !in s.landed
  }

  /** t with `block` written over it at `at`. */
  function Overwrite<T>(t: seq<T>, at: nat, block: seq<T>): (r: seq<T>)
    ensures |r| == |t|
  {
    seq(|t|, b requires 0 <= b < |t| => if at <= b < at + |block| then block[b - at] else t[b])
  }

  ghost function Land<T(!new)>(cfg: Config<T>, s: State<T>, p: nat, q: nat): State<T>
    requires Shape(cfg, s) && p < N(cfg) && q < N(cfg) && CanLand(cfg, s, p, q)
  {
    s.(target := s.target[q := Overwrite(s.target[q], s.offset[p], cfg.src[p])], landed := s.landed + {(p, q)})
  }

  datatype Event = PeStep(p: nat) | WordsLand(p: nat) | BlockLands(p: nat, q: nat)

  ghost predicate Step<T(!new)>(cfg: Config<T>, s: State<T>, e: Event, s': State<T>) {
    && Shape(cfg, s) && e.p < N(cfg)
    && match e
       case PeStep(p) => CanAdvance(cfg, s, p) && s' == Advance(cfg, s, p)
       case WordsLand(p) => CanHear(cfg, s, p) && s' == Hear(cfg, s, p)
       case BlockLands(p, q) => q < N(cfg) && CanLand(cfg, s, p, q) && s' == Land(cfg, s, p, q)
  }

  ghost predicate Next<T(!new)>(cfg: Config<T>, s: State<T>, s': State<T>) {
    exists e :: Step(cfg, s, e, s')
  }

  ghost predicate IsRun<T(!new)>(cfg: Config<T>, run: seq<State<T>>) {
    |run| > 0 && Init(cfg, run[0]) && forall k :: 0 < k < |run| ==> Next(cfg, run[k - 1], run[k])
  }

  // ------------------------------------------------------------------ the invariant

  /** How many peers p has put to. */
  ghost function Sent<T(!new)>(cfg: Config<T>, s: State<T>, p: nat): nat
    requires Shape(cfg, s) && p < N(cfg)
  {
    if s.stage[p].Learn? || s.stage[p].Tell? then 0
    else if s.stage[p].Send? then Turn(p, s.peer[p], N(cfg))
    else N(cfg)
  }

  ghost predicate PeOk<T(!new)>(cfg: Config<T>, s: State<T>, p: nat)
    requires Shape(cfg, s) && p < N(cfg)
  {
    && (!s.stage[p].Learn? ==> s.offset[p] == Disp(cfg.src, p) && (p > 0 ==> s.heard[p]))
    && (p in s.told <==> p > 0 && !s.stage[p - 1].Learn? && !s.stage[p - 1].Tell?)
    && (p in s.told ==> s.told[p] == Disp(cfg.src, p))
    && (s.heard[p] ==> p in s.told)
    && (if s.heard[p] && !s.stage[p].Done? then s.word0[p] == s.told[p] && s.word1[p] == 1
        else s.word0[p] == 0 && s.word1[p] == 0)
    && (Entered(s.stage[p]) && p + 1 < N(cfg) ==> s.heard[p + 1])
    && (s.stage[p].Reset? || s.stage[p].Done? ==> forall q :: 0 <= q < N(cfg) ==> Entered(s.stage[q]))
  }

  ghost predicate PutOk<T(!new)>(cfg: Config<T>, s: State<T>, p: nat, q: nat)
    requires Shape(cfg, s) && p < N(cfg) && q < N(cfg)
  {
    && ((p, q) in s.issued <==> |cfg.src[p]| > 0 && Turn(p, q, N(cfg)) < Sent(cfg, s, p))
    && ((p, q) in s.landed ==> (p, q) in s.issued && HasBlock(cfg, s.target[q], p))
    && (Entered(s.stage[p]) && (p, q) in s.issued ==> (p, q) in s.landed)
  }

  /** Block p is in its place in t. */
  ghost predicate HasBlock<T(!new)>(cfg: Config<T>, t: seq<T>, p: nat)
    requires p < N(cfg) && |t| == |Whole(cfg)|
  {
    forall b :: Disp(cfg.src, p) <= b < Disp(cfg.src, p) + |cfg.src[p]| && b < |t| ==> t[b] == Whole(cfg)[b]
  }

  ghost predicate Inv<T(!new)>(cfg: Config<T>, s: State<T>) {
    && Shape(cfg, s)
    && (forall p {:trigger PeOk(cfg, s, p)} :: 0 <= p < N(cfg) ==> PeOk(cfg, s, p))
    && (forall p, q {:trigger PutOk(cfg, s, p, q)} :: 0 <= p < N(cfg) && 0 <= q < N(cfg) ==> PutOk(cfg, s, p, q))
  }

  lemma InitIsInv<T(!new)>(cfg: Config<T>, s: State<T>)
    requires Init(cfg, s)
    ensures Inv(cfg, s) == true
  {
  }

  lemma AdvanceKeepsOwn<T(!new)>(cfg: Config<T>, s: State<T>, p: nat)
    requires Inv(cfg, s) && p < N(cfg) && CanAdvance(cfg, s, p)
    ensures PeOk(cfg, Advance(cfg, s, p), p) == true
  {
    hide PutOk, HasBlock, Concat;
    assert PeOk(cfg, s, p);
    if p > 0 { assert PeOk(cfg, s, p - 1); }
    if p == 0 && s.stage[p].Learn? { assert Disp(cfg.src, 0) == 0 by { FirstBlock(cfg.src); } }
  }

  lemma FirstBlock<T>(src: seq<seq<T>>)
    ensures Disp(src, 0) == 0
  {
  }

  lemma NextBlock<T>(src: seq<seq<T>>, p: nat)
    requires p < |src|
    ensures Disp(src, p + 1) == Disp(src, p) + |src[p]|
  {
  }

  lemma AdvanceKeepsNext<T(!new)>(cfg: Config<T>, s: State<T>, p: nat)
    requires Inv(cfg, s) && p + 1 < N(cfg) && CanAdvance(cfg, s, p)
    ensures PeOk(cfg, Advance(cfg, s, p), p + 1) == true
  {
    hide PutOk, HasBlock, Concat;
    assert PeOk(cfg, s, p) && PeOk(cfg, s, p + 1);
    NextBlock(cfg.src, p);
  }

  lemma AdvanceKeepsOthers<T(!new)>(cfg: Config<T>, s: State<T>, p: nat, q: nat)
    requires Inv(cfg, s) && p < N(cfg) && CanAdvance(cfg, s, p) && q < N(cfg) && q != p && q != p + 1
    ensures PeOk(cfg, Advance(cfg, s, p), q) == true
  {
    hide PutOk, HasBlock, Concat;
    assert PeOk(cfg, s, p) && PeOk(cfg, s, q);
  }

  lemma AdvanceKeepsPe<T(!new)>(cfg: Config<T>, s: State<T>, p: nat, q: nat)
    requires Inv(cfg, s) && p < N(cfg) && CanAdvance(cfg, s, p) && q < N(cfg)
    ensures Shape(cfg, Advance(cfg, s, p))
    ensures PeOk(cfg, Advance(cfg, s, p), q) == true
  {
    hide PeOk, PutOk, HasBlock, Concat;
    if q == p {
      AdvanceKeepsOwn(cfg, s, p);
    } else if q == p + 1 {
      AdvanceKeepsNext(cfg, s, p);
    } else {
      AdvanceKeepsOthers(cfg, s, p, q);
    }
  }

  lemma AdvanceKeepsPut<T(!new)>(cfg: Config<T>, s: State<T>, p: nat, a: nat, b: nat)
    requires Inv(cfg, s) && p < N(cfg) && CanAdvance(cfg, s, p) && a < N(cfg) && b < N(cfg)
    ensures Shape(cfg, Advance(cfg, s, p))
    ensures PutOk(cfg, Advance(cfg, s, p), a, b) == true
  {
    hide HasBlock;
    assert PutOk(cfg, s, a, b);
    TurnsAreInOrder(p, s.peer[p], b, N(cfg));
  }

  lemma HearKeepsInv<T(!new)>(cfg: Config<T>, s: State<T>, p: nat)
    requires Inv(cfg, s) && p < N(cfg) && CanHear(cfg, s, p)
    ensures Inv(cfg, Hear(cfg, s, p)) == true
  {
    var s' := Hear(cfg, s, p);
    assert PeOk(cfg, s, p);
    if p > 0 { assert PeOk(cfg, s, p - 1); }
    forall q | 0 <= q < N(cfg) ensures PeOk(cfg, s', q) {
      assert PeOk(cfg, s, q);
    }
    forall a, b | 0 <= a < N(cfg) && 0 <= b < N(cfg) ensures PutOk(cfg, s', a, b) {
      assert PutOk(cfg, s, a, b);
    }
  }

  /** What lands is right, so no block that is in its place is spoilt. */
  lemma LandKeepsBlocks<T(!new)>(cfg: Config<T>, t: seq<T>, p: nat, a: nat)
    requires p < N(cfg) && a < N(cfg) && |t| == |Whole(cfg)|
    ensures HasBlock(cfg, Overwrite(t, Disp(cfg.src, p), cfg.src[p]), p)
    ensures HasBlock(cfg, t, a) ==> HasBlock(cfg, Overwrite(t, Disp(cfg.src, p), cfg.src[p]), a)
  {
    BlockLies(cfg.src, p, N(cfg));
    var d, block := Disp(cfg.src, p), cfg.src[p];
    forall b | d <= b < d + |block| ensures Whole(cfg)[b] == block[b - d] {
      assert Whole(cfg)[d..d + |block|][b - d] == block[b - d];
    }
  }

  lemma LandKeepsInv<T(!new)>(cfg: Config<T>, s: State<T>, p: nat, q: nat)
    requires Inv(cfg, s) && p < N(cfg) && q < N(cfg) && CanLand(cfg, s, p, q)
    ensures Inv(cfg, Land(cfg, s, p, q)) == true
  {
    hide HasBlock;
    var s' := Land(cfg, s, p, q);
    assert PeOk(cfg, s, p) && PutOk(cfg, s, p, q);
    forall a | 0 <= a < N(cfg) ensures PeOk(cfg, s', a) {
      assert PeOk(cfg, s, a);
    }
    forall a, b | 0 <= a < N(cfg) && 0 <= b < N(cfg) ensures PutOk(cfg, s', a, b) {
      assert PutOk(cfg, s, a, b);
      LandKeepsBlocks(cfg, s.target[q], p, a);
    }
  }

  lemma AdvanceKeepsInv<T(!new)>(cfg: Config<T>, s: State<T>, p: nat)
    requires Inv(cfg, s) && p < N(cfg) && CanAdvance(cfg, s, p)
    ensures Inv(cfg, Advance(cfg, s, p)) == true
  {
    hide PeOk, PutOk, CanAdvance, Advance;
    var s' := Advance(cfg, s, p);
    AdvanceKeepsPe(cfg, s, p, p);
    forall q | 0 <= q < N(cfg) ensures PeOk(cfg, s', q) {
      AdvanceKeepsPe(cfg, s, p, q);
    }
    forall a, b | 0 <= a < N(cfg) && 0 <= b < N(cfg) ensures PutOk(cfg, s', a, b) {
      AdvanceKeepsPut(cfg, s, p, a, b);
    }
  }

  lemma {:induction false} RunKeepsInv<T(!new)>(cfg: Config<T>, run: seq<State<T>>, k: nat)
    requires IsRun(cfg, run) && k < |run|
    ensures Inv(cfg, run[k]) == true
  {
    if k == 0 {
      InitIsInv(cfg, run[0]);
    } else {
      RunKeepsInv(cfg, run, k - 1);
      var e :| Step(cfg, run[k - 1], e, run[k]);
      match e
      case PeStep(p) => AdvanceKeepsInv(cfg, run[k - 1], p);
      case WordsLand(p) => HearKeepsInv(cfg, run[k - 1], p);
      case BlockLands(p, q) => LandKeepsInv(cfg, run[k - 1], p, q);
    }
  }

  // ------------------------------------------------------------------ what a run guarantees

  /** A PE that is back holds all contributions, one after the other in rank order. */
  lemma CollectResult<T(!new)>(cfg: Config<T>, run: seq<State<T>>, k: nat, q: nat)
    requires IsRun(cfg, run) && k < |run| && q < N(cfg)
    ensures Shape(cfg, run[k])
    ensures run[k].stage[q].Done? ==> run[k].target[q] == Concat(cfg.src, N(cfg))
  {
    RunKeepsInv(cfg, run, k);
    var s := run[k];
    if s.stage[q].Done? {
      assert PeOk(cfg, s, q);
      forall b | 0 <= b < |Whole(cfg)| ensures s.target[q][b] == Whole(cfg)[b] {
        var p := BlockOf(cfg.src, N(cfg), b);
        assert PutOk(cfg, s, p, q);
      }
    }
  }

  /** A put is issued at the displacement of its block, which no other PE's block overlaps. */
  lemma PutsAreDisjoint<T(!new)>(cfg: Config<T>, run: seq<State<T>>, k: nat, p: nat, p': nat, q: nat)
    requires IsRun(cfg, run) && k < |run| && p < p' < N(cfg) && q < N(cfg)
    requires (p, q) in run[k].issued && (p', q) in run[k].issued
    ensures Shape(cfg, run[k])
    ensures run[k].offset[p] + |cfg.src[p]| <= run[k].offset[p'] <= run[k].offset[p'] + |cfg.src[p']| <= |run[k].target[q]|
  {
    RunKeepsInv(cfg, run, k);
    var s := run[k];
    assert PeOk(cfg, s, p) && PeOk(cfg, s, p') && PutOk(cfg, s, p, q) && PutOk(cfg, s, p', q);
    BlockLies(cfg.src, p, p');
    BlockLies(cfg.src, p', N(cfg));
  }

  /** A PE that is back has zeroed words, all it sent has arrived, and nothing is on its way to it. */
  lemma PSyncIsRestored<T(!new)>(cfg: Config<T>, run: seq<State<T>>, k: nat, p: nat, q: nat)
    requires IsRun(cfg, run) && k < |run| && p < N(cfg) && q < N(cfg)
    ensures Shape(cfg, run[k])
    ensures run[k].stage[p].Done? ==> run[k].word0[p] == 0 && run[k].word1[p] == 0 && !CanHear(cfg, run[k], p)
    ensures run[k].stage[p].Done? ==> !CanLand(cfg, run[k], p, q) && !CanLand(cfg, run[k], q, p)
  {
    RunKeepsInv(cfg, run, k);
    var s := run[k];
    assert PeOk(cfg, s, p) && PutOk(cfg, s, p, q) && PutOk(cfg, s, q, p);
  }

  ghost predicate Stuck<T(!new)>(cfg: Config<T>, s: State<T>)
    requires Shape(cfg, s)
  {
    && (forall p {:trigger CanAdvance(cfg, s, p)} :: 0 <= p < N(cfg) ==> !CanAdvance(cfg, s, p))
    && (forall p {:trigger CanHear(cfg, s, p)} :: 0 <= p < N(cfg) ==> !CanHear(cfg, s, p))
    && (forall p, q {:trigger CanLand(cfg, s, p, q)} :: 0 <= p < N(cfg) && 0 <= q < N(cfg) ==> !CanLand(cfg, s, p, q))
  }

  /** In a stuck state everybody has learned its displacement and entered the barrier. */
  lemma {:induction false} StuckHasEntered<T(!new)>(cfg: Config<T>, s: State<T>, p: nat)
    requires Inv(cfg, s) && Stuck(cfg, s) && p < N(cfg)
    ensures Entered(s.stage[p])
  {
    if p > 0 { StuckHasEntered(cfg, s, p - 1); }
    assert PeOk(cfg, s, p) && !CanAdvance(cfg, s, p) && !CanHear(cfg, s, p);
    if s.stage[p].Quiet? {
      if p + 1 < N(cfg) { assert PeOk(cfg, s, p + 1) && !CanHear(cfg, s, p + 1); }
      forall q | 0 <= q < N(cfg) && (p, q) in s.issued ensures (p, q) in s.landed {
        assert !CanLand(cfg, s, p, q);
      }
    }
  }

  /** No deadlock: the only state in which nothing can happen is the one where every PE is back. */
  lemma NoDeadlock<T(!new)>(cfg: Config<T>, run: seq<State<T>>, k: nat, p: nat)
    requires IsRun(cfg, run) && k < |run| && Shape(cfg, run[k]) && Stuck(cfg, run[k]) && p < N(cfg)
    ensures run[k].stage[p].Done?
  {
    RunKeepsInv(cfg, run, k);
    var s := run[k];
    forall q | 0 <= q < N(cfg) ensures Entered(s.stage[q]) {
      StuckHasEntered(cfg, s, q);
    }
    assert !CanAdvance(cfg, s, p);
  }

  // ------------------------------------------------------------------ every run ends

  /** The steps PE p still has to make; it sends once to each PE. */
  function StepsLeft(stage: Stage, p: nat, peer: nat, n: nat): nat
    requires p < n && peer < n
  {
    match stage
    case Learn => n + 6
    case Tell => n + 5
    case Send => 4 + n - Turn(p, peer, n)
    case Quiet => 4
    case Barrier => 3
    case Reset => 2
    case Done => 0
  }

  /** The steps left to PE p, to the words sent to it and to its puts. */
  ghost function Todo<T(!new)>(cfg: Config<T>, s: State<T>, p: nat): nat
    requires Shape(cfg, s) && p < N(cfg)
  {
    StepsLeft(s.stage[p], p, s.peer[p], N(cfg)) + Open(s.heard[p]) + Missing(p, N(cfg), s.landed)
  }

  ghost function Todos<T(!new)>(cfg: Config<T>, s: State<T>): (ms: seq<nat>)
    requires Shape(cfg, s)
    ensures |ms| == N(cfg) && forall p :: 0 <= p < N(cfg) ==> ms[p] == Todo(cfg, s, p)
  {
    seq(N(cfg), p requires 0 <= p < N(cfg) => Todo(cfg, s, p))
  }

  lemma StepDoes<T(!new)>(cfg: Config<T>, s: State<T>, e: Event, s': State<T>, q: nat)
    requires Step(cfg, s, e, s') == true && Shape(cfg, s) && Shape(cfg, s') && e.p < N(cfg) && q < N(cfg)
    ensures if q == e.p then Todo(cfg, s', q) < Todo(cfg, s, q) else Todo(cfg, s', q) == Todo(cfg, s, q)
  {
    match e
    case PeStep(p) =>
      AdvanceDoes(cfg, s, p, q);
    case WordsLand(_) =>
    case BlockLands(p, r) =>
      if q == p { MissingDrops(p, N(cfg), s.landed, r); } else { MissingStays(q, N(cfg), s.landed, p, r); }
  }

  /** Going on to the next peer uses up one turn. */
  lemma AdvanceDoes<T(!new)>(cfg: Config<T>, s: State<T>, p: nat, q: nat)
    requires Shape(cfg, s) && p < N(cfg) && CanAdvance(cfg, s, p) && q < N(cfg) && Shape(cfg, Advance(cfg, s, p))
    ensures var s' := Advance(cfg, s, p); if q == p then Todo(cfg, s', q) < Todo(cfg, s, q) else Todo(cfg, s', q) == Todo(cfg, s, q)
  {
    hide Missing, Concat, HasBlock;
    TurnsAreInOrder(p, s.peer[p], s.peer[p], N(cfg));
  }

  /** Every step does some of the work left to one PE, and adds none to the others. */
  lemma StepIsProgress<T(!new)>(cfg: Config<T>, s: State<T>, e: Event, s': State<T>)
    requires Step(cfg, s, e, s') == true && Shape(cfg, s) && Shape(cfg, s') && e.p < N(cfg)
    ensures Sum(Todos(cfg, s')) < Sum(Todos(cfg, s))
  {
    hide Step, Todo, Open;
    forall q | 0 <= q < N(cfg) ensures if q == e.p then Todo(cfg, s', q) < Todo(cfg, s, q) else Todo(cfg, s', q) == Todo(cfg, s, q) {
      StepDoes(cfg, s, e, s', q);
    }
    StepDoes(cfg, s, e, s', e.p);
    SumDrops(Todos(cfg, s), Todos(cfg, s'), e.p);
  }

  lemma TodoBound<T(!new)>(cfg: Config<T>, s: State<T>, p: nat)
    requires Shape(cfg, s) && p < N(cfg)
    ensures Todo(cfg, s, p) <= 2 * N(cfg) + 7
  {
    MissingBound(p, N(cfg), s.landed);
  }

  /** No run is longer than this. */
  lemma {:induction false} RunsAreBounded<T(!new)>(cfg: Config<T>, run: seq<State<T>>, k: nat)
    requires IsRun(cfg, run) && k < |run|
    ensures Shape(cfg, run[k]) && k + Sum(Todos(cfg, run[k])) <= N(cfg) * (2 * N(cfg) + 7)
  {
    RunKeepsInv(cfg, run, k);
    hide Todo, PeOk, PutOk, Step;
    if k == 0 {
      forall p | 0 <= p < N(cfg) ensures Todo(cfg, run[0], p) <= 2 * N(cfg) + 7 {
        TodoBound(cfg, run[0], p);
      }
      SumBound(Todos(cfg, run[0]), 2 * N(cfg) + 7);
    } else {
      RunsAreBounded(cfg, run, k - 1);
      var e :| Step(cfg, run[k - 1], e, run[k]);
      StepHasPe(cfg, run[k - 1], e, run[k]);
      StepIsProgress(cfg, run[k - 1], e, run[k]);
    }
  }

  lemma StepHasPe<T(!new)>(cfg: Config<T>, s: State<T>, e: Event, s': State<T>)
    requires Step(cfg, s, e, s')
    ensures e.p < N(cfg)
  {
  }

  ghost predicate AllBack<T(!new)>(cfg: Config<T>, s: State<T>)
    requires Shape(cfg, s)
  {
    forall p :: 0 <= p < N(cfg) ==> s.stage[p].Done?
  }

  /** Every run can be continued until every PE is back. */
  lemma {:induction false} RunsComplete<T(!new)>(cfg: Config<T>, run: seq<State<T>>) returns (run': seq<State<T>>)
    requires IsRun(cfg, run)
    ensures IsRun(cfg, run') && run <= run' && Shape(cfg, run'[|run'| - 1])
    ensures AllBack(cfg, run'[|run'| - 1])
    decreases N(cfg) * (2 * N(cfg) + 7) - |run|
  {
    hide Init, Shape, Next, Stuck, AllBack;
    var s := run[|run| - 1];
    RunsAreBounded(cfg, run, |run| - 1);
    if Stuck(cfg, s) {
      run' := run;
      StuckAllBack(cfg, run);
    } else {
      var s' := NextState(cfg, s);
      RunsAreBounded(cfg, run + [s'], |run|);
      run' := RunsComplete(cfg, run + [s']);
    }
  }

  lemma StuckAllBack<T(!new)>(cfg: Config<T>, run: seq<State<T>>)
    requires IsRun(cfg, run) && Shape(cfg, run[|run| - 1]) && Stuck(cfg, run[|run| - 1])
    ensures AllBack(cfg, run[|run| - 1])
  {
    var s := run[|run| - 1];
    forall p | 0 <= p < N(cfg) ensures s.stage[p].Done? {
      NoDeadlock(cfg, run, |run| - 1, p);
    }
  }

  lemma NextState<T(!new)>(cfg: Config<T>, s: State<T>) returns (s': State<T>)
    requires Shape(cfg, s) && !Stuck(cfg, s)
    ensures Next(cfg, s, s') == true
  {
    var e;
    if p: nat :| p < N(cfg) && CanAdvance(cfg, s, p) {
      e, s' := PeStep(p), Advance(cfg, s, p);
    } else if p: nat :| p < N(cfg) && CanHear(cfg, s, p) {
      e, s' := WordsLand(p), Hear(cfg, s, p);
    } else {
      var p: nat, q: nat :| p < N(cfg) && q < N(cfg) && CanLand(cfg, s, p, q);
      e, s' := BlockLands(p, q), Land(cfg, s, p, q);
    }
    assert Step(cfg, s, e, s');
  }

  ghost predicate AllCollected<T(!new)>(cfg: Config<T>, s: State<T>) {
    && Shape(cfg, s)
    && forall q :: 0 <= q < N(cfg) ==> s.stage[q].Done? && s.target[q] == Concat(cfg.src, N(cfg))
  }

  /** Whatever the blocks and whatever the targets held before, the call can be run until all PEs are back with the concatenation. */
  lemma EveryCallReturns<T(!new)>(cfg: Config<T>, targets: seq<seq<T>>) returns (run: seq<State<T>>)
    requires N(cfg) >= 2 && |targets| == N(cfg) && forall p :: 0 <= p < N(cfg) ==> |targets[p]| == |Whole(cfg)|
    ensures IsRun(cfg, run) && run[0].target == targets && AllCollected(cfg, run[|run| - 1])
  {
    var n := N(cfg);
    var zeros: seq<nat> := seq(n, _ => 0);
    var start := State(seq(n, _ => Learn), zeros, zeros, zeros, zeros, map[], seq(n, _ => false), targets, {}, {});
    assert Init(cfg, start);
    run := RunsComplete(cfg, [start]);
    var s := run[|run| - 1];
    forall q | 0 <= q < n ensures s.stage[q].Done? && s.target[q] == Concat(cfg.src, n) {
      CollectResult(cfg, run, |run| - 1, q);
    }
  }
}
