/**
  The tree barrier and the linear barrier of src/collectives.c, used over and over on one
  pSync word per PE.

  A PE waits until its word equals the number of its children, adds 1 to its parent's word,
  waits for the acknowledgement, clears its own word, and acknowledges its children one by one.
  In the tree barrier an acknowledgement is an atomic add of 1; in the linear barrier, whose
  tree is a star, it is a put of 1.  Adds and puts are in flight from the step that issues them
  to a later delivery step.  PEs are named by their position in the tree.
*/
module TreeBarrier {
  import opened Progress
  import opened Trees

  datatype Pc =
    | Outside
    | Gathering      // wait for the word to equal the number of children
    | Up             // add 1 to the parent's word
    | AwaitAck       // wait for the parent's acknowledgement
    | Clear          // write 0 to own word
    | AwaitClear     // wait for own word to read 0
    | Down(i: nat)   // acknowledge children i, i + 1, ...

  /**
    The words and what is in flight, with two histories no step reads: upHere[c], the add of c
    is counted in its parent's word and not yet cleared; ackHere[c], the acknowledgement to c
    is counted in c's word and not yet cleared.
  */
  datatype State = State(
    tree: Tree, linear: bool,
    entered: seq<int>, pc: seq<Pc>, psync: seq<int>,
    upFlight: seq<bool>, ackFlight: seq<bool>, upHere: seq<bool>, ackHere: seq<bool>)

  ghost predicate Shape(s: State) {
    && ValidTree(s.tree) && s.tree.n >= 2
    && (s.linear ==> IsStar(s.tree))
    && |s.entered| == |s.pc| == |s.psync| == s.tree.n
    && |s.upFlight| == |s.ackFlight| == |s.upHere| == |s.ackHere| == s.tree.n
    && (forall p :: 0 <= p < s.tree.n ==> s.tree.parent[p] < s.tree.n)
    && (forall p, i :: 0 <= p < s.tree.n && 0 <= i < |s.tree.kids[p]| ==> 0 < s.tree.kids[p][i] < s.tree.n)
  }

  ghost predicate Init(s: State) {
    && Shape(s)
    && (forall p :: 0 <= p < s.tree.n ==> s.entered[p] == 0 && s.pc[p] == Outside && s.psync[p] == 0)
    && (forall p :: 0 <= p < s.tree.n ==>
          !s.upFlight[p] && !s.ackFlight[p] && !s.upHere[p] && !s.ackHere[p])
  }

  function NumKids(s: State, p: nat): nat
    requires |s.tree.kids| == s.tree.n && p < s.tree.n
  {
    |s.tree.kids[p]|
  }

  ghost predicate CanAdvance(s: State, p: nat)
    requires Shape(s) && p < s.tree.n
  {
    match s.pc[p]
    case Gathering => s.psync[p] == NumKids(s, p)
    case AwaitAck => if NumKids(s, p) == 0 then s.psync[p] != 0 else s.psync[p] == NumKids(s, p) + 1
    case AwaitClear => s.psync[p] == 0
    case _ => true
  }

  function Goto(s: State, p: nat, pc: Pc): State
    requires p < |s.pc|
  {
    s.(pc := s.pc[p := pc])
  }

  /** The adds counted in the word of p are gone once it is cleared. */
  function ForgetKids(t: Tree, upHere: seq<bool>, p: nat): (r: seq<bool>)
    requires |t.parent| == t.n == |upHere|
    ensures |r| == |upHere|
    ensures forall c :: 0 <= c < t.n ==> r[c] == (upHere[c] && !IsKid(t, p, c))
  {
    seq(t.n, c requires 0 <= c < t.n => upHere[c] && !IsKid(t, p, c))
  }

  ghost function Advance(s: State, p: nat): State
    requires Shape(s) && p < s.tree.n && CanAdvance(s, p)
  {
    match s.pc[p]
    case Outside =>
      Goto(s.(entered := s.entered[p := s.entered[p] + 1]), p, if NumKids(s, p) != 0 then Gathering else Up)
    case Gathering => Goto(s, p, if p == 0 then Clear else Up)
    case Up => Goto(s.(upFlight := s.upFlight[p := true]), p, AwaitAck)
    case AwaitAck => Goto(s, p, Clear)
    case Clear =>
      Goto(s.(psync := s.psync[p := 0], upHere := ForgetKids(s.tree, s.upHere, p), ackHere := s.ackHere[p := false]),
           p, AwaitClear)
    case AwaitClear => Goto(s, p, if NumKids(s, p) != 0 then Down(0) else Outside)
    case Down(i) =>
      if i < NumKids(s, p) then
        Goto(s.(ackFlight := s.ackFlight[s.tree.kids[p][i] := true]),
             p, if i + 1 < NumKids(s, p) then Down(i + 1) else Outside)
      else s
  }

  /** The add of c reaches its parent. */
  ghost function DeliverUp(s: State, c: nat): State
    requires Shape(s) && c < s.tree.n
  {
    var p := s.tree.parent[c];
    s.(upFlight := s.upFlight[c := false], upHere := s.upHere[c := true], psync := s.psync[p := s.psync[p] + 1])
  }

  /** The acknowledgement to c arrives. */
  ghost function DeliverAck(s: State, c: nat): State
    requires Shape(s) && c < s.tree.n
  {
    s.(ackFlight := s.ackFlight[c := false], ackHere := s.ackHere[c := true],
       psync := s.psync[c := if s.linear then 1 else s.psync[c] + 1])
  }

  ghost predicate Next(s: State, s': State) {
    && Shape(s)
    && (|| (exists p: nat :: p < s.tree.n && CanAdvance(s, p) && s' == Advance(s, p))
        || (exists c: nat :: c < s.tree.n && s.upFlight[c] && s' == DeliverUp(s, c))
        || (exists c: nat :: c < s.tree.n && s.ackFlight[c] && s' == DeliverAck(s, c)))
  }

  /** A state before the first call, every pSync word 0. */
  function FreshState(t: Tree, linear: bool): State {
    var off := seq(t.n, _ => false);
    State(t, linear, seq(t.n, _ => 0), seq(t.n, _ => Outside), seq(t.n, _ => 0), off, off, off, off)
  }

  /** The model covers the barrier over the k-ary tree, over the full tree, and the linear barrier. */
  lemma EveryBarrierStarts(n: nat, radix: nat)
    requires n >= 2 && radix >= 2
    ensures Init(FreshState(KaryTree(radix, n), false))
    ensures Init(FreshState(FullTree(radix, n), false))
    ensures Init(FreshState(StarTree(n), true))
  {
    KaryTreeIsValid(radix, n);
    ValidTreeStarts(KaryTree(radix, n), false);
    FullTreeIsValid(radix, n);
    ValidTreeStarts(FullTree(radix, n), false);
    StarTreeIsValid(n);
    ValidTreeStarts(StarTree(n), true);
  }

  lemma ValidTreeStarts(t: Tree, linear: bool)
    requires ValidTree(t) && t.n >= 2 && (linear ==> IsStar(t))
    ensures Init(FreshState(t, linear)) == true
  {
    TreeSpans(t, 0);
    forall p, i | 0 <= p < t.n && 0 <= i < |t.kids[p]| ensures 0 < t.kids[p][i] < t.n {
      assert t.kids[p][i] in t.kids[p];
      assert IsKid(t, p, t.kids[p][i]);
    }
  }

  // ------------------------------------------------------------------ the invariant

  function Completed(s: State, p: nat): int
    requires p < |s.pc| == |s.entered|
  {
    if s.pc[p].Outside? then s.entered[p] else s.entered[p] - 1
  }

  /** How often p has passed its first wait, added to its parent, passed its second wait, cleared. */
  function Gathered(s: State, p: nat): int
    requires p < |s.pc| == |s.entered|
  {
    if s.pc[p].Gathering? then s.entered[p] - 1 else s.entered[p]
  }

  function Ups(s: State, p: nat): int
    requires p < |s.pc| == |s.entered|
  {
    if s.pc[p].Gathering? || s.pc[p].Up? then s.entered[p] - 1 else s.entered[p]
  }

  function Acked(s: State, p: nat): int
    requires p < |s.pc| == |s.entered|
  {
    if s.pc[p].Gathering? || s.pc[p].Up? || s.pc[p].AwaitAck? then s.entered[p] - 1 else s.entered[p]
  }

  function Cleared(s: State, p: nat): int
    requires p < |s.pc| == |s.entered|
  {
    if s.pc[p].Outside? || s.pc[p].AwaitClear? || s.pc[p].Down? then s.entered[p] else s.entered[p] - 1
  }

  ghost function KidIndex(t: Tree, c: nat): (i: nat)
    requires ValidTree(t) && 0 < c < t.n
    ensures t.parent[c] < c && i < |t.kids[t.parent[c]]| && t.kids[t.parent[c]][i] == c
  {
    assert IsKid(t, t.parent[c], c);
    var i :| 0 <= i < |t.kids[t.parent[c]]| && t.kids[t.parent[c]][i] == c;
    i
  }

  /** How often c's parent has acknowledged c. */
  ghost function AcksSent(s: State, c: nat): int
    requires Shape(s) && 0 < c < s.tree.n
  {
    var p := s.tree.parent[c];
    match s.pc[p]
    case Outside => s.entered[p]
    case Down(j) => if KidIndex(s.tree, c) < j then s.entered[p] else s.entered[p] - 1
    case _ => s.entered[p] - 1
  }

  function Bit(b: bool): nat {
    if b then 1 else 0
  }

  ghost predicate PcOk(s: State, p: nat)
    requires Shape(s) && p < s.tree.n
  {
    && s.entered[p] >= Bit(!s.pc[p].Outside?)
    && (s.pc[p].Gathering? ==> NumKids(s, p) > 0)
    && (s.pc[p].Up? || s.pc[p].AwaitAck? ==> p != 0)
    && (s.pc[p].Down? ==> s.pc[p].i < NumKids(s, p))
  }

  /** Between a PE and its parent, each direction carries at most one message per epoch. */
  ghost predicate LinkOk(s: State, c: nat)
    requires Shape(s) && 0 < c < s.tree.n
  {
    var p := s.tree.parent[c];
    && Ups(s, c) == Cleared(s, p) + Bit(s.upFlight[c]) + Bit(s.upHere[c])
    && AcksSent(s, c) == Cleared(s, c) + Bit(s.ackFlight[c]) + Bit(s.ackHere[c])
    && (Gathered(s, p) > Cleared(s, p) ==> s.upHere[c])
    && (Acked(s, c) > Cleared(s, c) ==> s.ackHere[c])
  }

  /** The word is exactly what has arrived and has not been cleared. */
  ghost predicate WordOk(s: State, p: nat)
    requires Shape(s) && p < s.tree.n
  {
    s.psync[p] == CountHere(s.tree.kids[p], s.upHere) + Bit(s.ackHere[p])
  }

  ghost predicate Inv(s: State) {
    && Shape(s)
    && !s.ackHere[0] && !s.ackFlight[0] && !s.upHere[0] && !s.upFlight[0]
    && (forall p :: 0 <= p < s.tree.n ==> PcOk(s, p))
    && (forall c :: 0 < c < s.tree.n ==> LinkOk(s, c))
    && (forall p :: 0 <= p < s.tree.n ==> WordOk(s, p))
  }

  lemma InitEstablishesInv(s: State)
    requires Init(s)
    ensures Inv(s)
  {
    forall p | 0 <= p < s.tree.n ensures WordOk(s, p) {
      CountNone(s.tree.kids[p], s.upHere);
    }
  }

  /** A word never holds a message of the next epoch before this epoch's are cleared. */
  lemma OneMessageEachWay(s: State, c: nat)
    requires Inv(s) && 0 < c < s.tree.n
    ensures !(s.upFlight[c] && s.upHere[c])
    ensures !(s.ackFlight[c] && s.ackHere[c])
    ensures Cleared(s, s.tree.parent[c]) <= Ups(s, c) <= Cleared(s, s.tree.parent[c]) + 1
    ensures Cleared(s, c) <= AcksSent(s, c) <= Cleared(s, c) + 1
  {
    assert LinkOk(s, c) && PcOk(s, c) && PcOk(s, s.tree.parent[c]);
  }

  lemma RootHasKids(s: State)
    requires Shape(s)
    ensures NumKids(s, 0) > 0
  {
    assert IsKid(s.tree, 0, 1);
  }

  /** Passing the first wait, every child of p has entered and has sent its add. */
  lemma GatherSeesKids(s: State, p: nat)
    requires Inv(s) && p < s.tree.n && s.pc[p].Gathering? && s.psync[p] == NumKids(s, p)
    ensures !s.ackHere[p]
    ensures forall c :: 0 < c < s.tree.n && s.tree.parent[c] == p ==> s.upHere[c]
  {
    assert WordOk(s, p) && PcOk(s, p);
    if p > 0 {
      var q := s.tree.parent[p];
      assert LinkOk(s, p) && PcOk(s, q);
      assert AcksSent(s, p) <= Gathered(s, q) <= Ups(s, p);
    }
    forall c | 0 < c < s.tree.n && s.tree.parent[c] == p ensures s.upHere[c] {
      CountFull(s.tree.kids[p], s.upHere, KidIndex(s.tree, c));
    }
  }

  /** Passing the second wait, the acknowledgement of this epoch is in the word. */
  lemma AckIsSeen(s: State, p: nat)
    requires Inv(s) && p < s.tree.n && s.pc[p].AwaitAck? && CanAdvance(s, p)
    ensures p > 0 && s.ackHere[p] && AcksSent(s, p) >= s.entered[p]
  {
    assert WordOk(s, p) && PcOk(s, p);
    assert s.ackHere[p];
    assert LinkOk(s, p);
  }

  /** Steps of p that only move it along: nothing is written and nothing is sent. */
  ghost predicate Moves(s: State, p: nat)
    requires Shape(s) && p < s.tree.n
  {
    && CanAdvance(s, p)
    && (s.pc[p].Outside? || s.pc[p].Gathering? || s.pc[p].AwaitAck? || s.pc[p].AwaitClear?)
  }

  lemma MoveKeepsOwnLink(s: State, c: nat)
    requires Inv(s) && 0 < c < s.tree.n && Moves(s, c)
    ensures LinkOk(Advance(s, c), c)
  {
    assert LinkOk(s, c) && PcOk(s, c);
    assert s.tree.parent[c] < c;
    if s.pc[c].AwaitAck? { AckIsSeen(s, c); }
  }

  lemma MoveKeepsKidLink(s: State, p: nat, c: nat)
    requires Inv(s) && p < s.tree.n && Moves(s, p) && 0 < c < s.tree.n && s.tree.parent[c] == p
    ensures LinkOk(Advance(s, p), c)
  {
    assert LinkOk(s, c) && PcOk(s, c) && PcOk(s, p);
    assert KidIndex(s.tree, c) < NumKids(s, p);
    if s.pc[p].Gathering? { GatherSeesKids(s, p); }
  }

  lemma MoveKeepsLink(s: State, p: nat, c: nat)
    requires Inv(s) && p < s.tree.n && Moves(s, p) && 0 < c < s.tree.n
    ensures LinkOk(Advance(s, p), c)
  {
    if p == c {
      MoveKeepsOwnLink(s, c);
    } else if s.tree.parent[c] == p {
      MoveKeepsKidLink(s, p, c);
    } else {
      assert LinkOk(s, c);
    }
  }

  lemma MoveKeepsInv(s: State, p: nat)
    requires Inv(s) && p < s.tree.n && Moves(s, p)
    ensures Inv(Advance(s, p))
  {
    var s' := Advance(s, p);
    RootHasKids(s);
    assert PcOk(s, p);
    forall q | 0 <= q < s.tree.n ensures PcOk(s', q) && WordOk(s', q) {
      assert PcOk(s, q) && WordOk(s, q);
    }
    forall c | 0 < c < s.tree.n ensures LinkOk(s', c) {
      MoveKeepsLink(s, p, c);
    }
  }

  lemma UpKeepsLink(s: State, p: nat, c: nat)
    requires Inv(s) && p < s.tree.n && s.pc[p].Up? && 0 < c < s.tree.n
    ensures LinkOk(Advance(s, p), c)
  {
    assert LinkOk(s, c) && PcOk(s, p);
    if c == p { OneMessageEachWay(s, p); }
  }

  lemma UpKeepsInv(s: State, p: nat)
    requires Inv(s) && p < s.tree.n && s.pc[p].Up?
    ensures Inv(Advance(s, p))
  {
    hide LinkOk;
    var s' := Advance(s, p);
    assert PcOk(s, p);
    forall q | 0 <= q < s.tree.n ensures PcOk(s', q) && WordOk(s', q) {
      assert PcOk(s, q) && WordOk(s, q);
    }
    forall c | 0 < c < s.tree.n ensures LinkOk(s', c) {
      UpKeepsLink(s, p, c);
    }
  }

  /** At the clear, everything this epoch brings has come, so nothing of the next one is lost. */
  lemma ClearSeesAll(s: State, p: nat)
    requires Inv(s) && p < s.tree.n && s.pc[p].Clear?
    ensures s.psync[p] == NumKids(s, p) + Bit(p != 0)
    ensures s.ackHere[p] <==> p != 0
    ensures forall c :: 0 < c < s.tree.n && s.tree.parent[c] == p ==> s.upHere[c] && !s.upFlight[c]
  {
    assert PcOk(s, p) && WordOk(s, p);
    if p != 0 {
      OneMessageEachWay(s, p);
      assert LinkOk(s, p);
    }
    forall c | 0 < c < s.tree.n && s.tree.parent[c] == p ensures s.upHere[c] && !s.upFlight[c] {
      OneMessageEachWay(s, c);
      assert LinkOk(s, c);
    }
    forall j | 0 <= j < NumKids(s, p) ensures s.upHere[s.tree.kids[p][j]] {
      assert s.tree.kids[p][j] in s.tree.kids[p];
      assert IsKid(s.tree, p, s.tree.kids[p][j]);
    }
    CountAll(s.tree.kids[p], s.upHere);
  }

  lemma ClearKeepsWord(s: State, p: nat, q: nat)
    requires Inv(s) && p < s.tree.n && s.pc[p].Clear? && q < s.tree.n
    ensures WordOk(Advance(s, p), q)
  {
    var s' := Advance(s, p);
    assert WordOk(s, q);
    forall j | 0 <= j < NumKids(s, q) ensures IsKid(s.tree, q, s.tree.kids[q][j]) {
      assert s.tree.kids[q][j] in s.tree.kids[q];
    }
    if q == p {
      CountNone(s.tree.kids[p], s'.upHere);
    } else {
      CountSame(s.tree.kids[q], s.upHere, s'.upHere);
    }
  }

  lemma ClearKeepsLink(s: State, p: nat, c: nat)
    requires Inv(s) && p < s.tree.n && s.pc[p].Clear? && 0 < c < s.tree.n
    ensures LinkOk(Advance(s, p), c)
  {
    ClearSeesAll(s, p);
    assert LinkOk(s, c) && PcOk(s, p);
    OneMessageEachWay(s, c);
  }

  lemma ClearKeepsInv(s: State, p: nat)
    requires Inv(s) && p < s.tree.n && s.pc[p].Clear?
    ensures Inv(Advance(s, p))
  {
    hide LinkOk, WordOk;
    var s' := Advance(s, p);
    assert PcOk(s, p);
    forall q | 0 <= q < s.tree.n ensures PcOk(s', q) && WordOk(s', q) {
      assert PcOk(s, q);
      ClearKeepsWord(s, p, q);
    }
    forall c | 0 < c < s.tree.n ensures LinkOk(s', c) {
      ClearKeepsLink(s, p, c);
    }
  }

  /** A child that is still to be acknowledged is past its own add and holds no older message. */
  lemma DownAfterAck(s: State, p: nat, k: nat)
    requires Inv(s) && p < s.tree.n && s.pc[p].Down? && 0 < k < s.tree.n && s.tree.parent[k] == p
    requires AcksSent(s, k) == s.entered[p] - 1
    ensures !s.ackFlight[k] && !s.ackHere[k]
  {
    assert LinkOk(s, k) && PcOk(s, k) && PcOk(s, p);
    assert Ups(s, k) <= Cleared(s, k) + 1;
  }

  lemma DownKeepsTakenLink(s: State, p: nat, k: nat)
    requires Inv(s) && p < s.tree.n && s.pc[p].Down? && 0 < k < s.tree.n && s.tree.parent[k] == p
    requires KidIndex(s.tree, k) == s.pc[p].i && PcOk(s, p) && s.tree.kids[p][s.pc[p].i] == k
    ensures LinkOk(Advance(s, p), k)
  {
    assert LinkOk(s, k);
    DownAfterAck(s, p, k);
  }

  lemma DownKeepsSiblingLink(s: State, p: nat, c: nat)
    requires Inv(s) && p < s.tree.n && s.pc[p].Down? && 0 < c < s.tree.n && s.tree.parent[c] == p
    requires PcOk(s, p) && KidIndex(s.tree, c) != s.pc[p].i
    ensures LinkOk(Advance(s, p), c)
  {
    assert LinkOk(s, c);
    assert s.tree.kids[p][s.pc[p].i] != c;
  }

  lemma DownKeepsLink(s: State, p: nat, c: nat)
    requires Inv(s) && p < s.tree.n && s.pc[p].Down? && 0 < c < s.tree.n
    ensures LinkOk(Advance(s, p), c)
  {
    assert PcOk(s, p);
    var k := s.tree.kids[p][s.pc[p].i];
    assert k in s.tree.kids[p] && IsKid(s.tree, p, k);
    if s.tree.parent[c] == p {
      if KidIndex(s.tree, c) == s.pc[p].i {
        DownKeepsTakenLink(s, p, c);
      } else {
        DownKeepsSiblingLink(s, p, c);
      }
    } else {
      assert LinkOk(s, c);
    }
  }

  lemma DownKeepsInv(s: State, p: nat)
    requires Inv(s) && p < s.tree.n && s.pc[p].Down?
    ensures Inv(Advance(s, p))
  {
    var s' := Advance(s, p);
    assert PcOk(s, p);
    forall q | 0 <= q < s.tree.n ensures PcOk(s', q) && WordOk(s', q) {
      assert PcOk(s, q) && WordOk(s, q);
    }
    forall c | 0 < c < s.tree.n ensures LinkOk(s', c) {
      DownKeepsLink(s, p, c);
    }
  }

  lemma DeliverUpKeepsWord(s: State, c: nat, q: nat)
    requires Inv(s) && 0 < c < s.tree.n && s.upFlight[c] && q < s.tree.n
    ensures WordOk(DeliverUp(s, c), q)
  {
    var s' := DeliverUp(s, c);
    assert WordOk(s, q);
    OneMessageEachWay(s, c);
    forall j | 0 <= j < NumKids(s, q) ensures IsKid(s.tree, q, s.tree.kids[q][j]) {
      assert s.tree.kids[q][j] in s.tree.kids[q];
    }
    if q == s.tree.parent[c] {
      assert IsKid(s.tree, q, c);
      CountOneMore(s.tree.kids[q], s.upHere, c);
    } else {
      CountSame(s.tree.kids[q], s.upHere, s'.upHere);
    }
  }

  lemma DeliverUpKeepsInv(s: State, c: nat)
    requires Inv(s) && c < s.tree.n && s.upFlight[c]
    ensures Inv(DeliverUp(s, c))
  {
    var s' := DeliverUp(s, c);
    OneMessageEachWay(s, c);
    forall q | 0 <= q < s.tree.n ensures PcOk(s', q) && WordOk(s', q) {
      assert PcOk(s, q);
      DeliverUpKeepsWord(s, c, q);
    }
    forall x | 0 < x < s.tree.n ensures LinkOk(s', x) {
      assert LinkOk(s, x);
    }
  }

  /** In a star the members below the root have no children, so a put of 1 is an add of 1. */
  lemma StarAckIsAdd(s: State, c: nat)
    requires Inv(s) && 0 < c < s.tree.n && s.ackFlight[c] && s.linear
    ensures s.psync[c] == 0
  {
    OneMessageEachWay(s, c);
    assert WordOk(s, c);
    assert NumKids(s, c) > 0 ==> s.tree.kids[c][0] in s.tree.kids[c] && IsKid(s.tree, c, s.tree.kids[c][0]);
  }

  lemma DeliverAckKeepsInv(s: State, c: nat)
    requires Inv(s) && c < s.tree.n && s.ackFlight[c]
    ensures Inv(DeliverAck(s, c))
  {
    var s' := DeliverAck(s, c);
    OneMessageEachWay(s, c);
    if s.linear { StarAckIsAdd(s, c); }
    forall q | 0 <= q < s.tree.n ensures PcOk(s', q) && WordOk(s', q) {
      assert PcOk(s, q) && WordOk(s, q);
    }
    forall x | 0 < x < s.tree.n ensures LinkOk(s', x) {
      assert LinkOk(s, x);
    }
  }

  lemma NextKeepsInv(s: State, s': State)
    requires Inv(s) && Next(s, s')
    ensures Inv(s') == true
  {
    if p: nat :| p < s.tree.n && CanAdvance(s, p) && s' == Advance(s, p) {
      match s.pc[p]
      case Up => UpKeepsInv(s, p);
      case Clear => ClearKeepsInv(s, p);
      case Down(_) => DownKeepsInv(s, p);
      case _ => MoveKeepsInv(s, p);
    } else if c: nat :| c < s.tree.n && s.upFlight[c] && s' == DeliverUp(s, c) {
      DeliverUpKeepsInv(s, c);
    } else {
      var c: nat :| c < s.tree.n && s.ackFlight[c] && s' == DeliverAck(s, c);
      DeliverAckKeepsInv(s, c);
    }
  }

  // ------------------------------------------------------------------ what the barrier promises

  ghost predicate IsRun(run: seq<State>) {
    && run != [] && Init(run[0])
    && forall k :: 0 <= k < |run| - 1 ==> Next(run[k], run[k + 1])
  }

  lemma {:induction false} RunKeepsInv(run: seq<State>, k: nat)
    requires IsRun(run) && k < |run|
    ensures Inv(run[k]) == true
  {
    hide Inv, Next, Init, Shape;
    if k == 0 {
      InitEstablishesInv(run[0]);
    } else {
      RunKeepsInv(run, k - 1);
      assert Next(run[k - 1], run[k - 1 + 1]);
      NextKeepsInv(run[k - 1], run[k]);
    }
  }

  /** The root passes its first wait only when every PE has entered. */
  lemma {:induction false} RootKnowsAllEntered(s: State, q: nat)
    requires Inv(s) && q < s.tree.n
    ensures Gathered(s, 0) <= Gathered(s, q) <= s.entered[q]
  {
    if q > 0 {
      var p := s.tree.parent[q];
      RootKnowsAllEntered(s, p);
      assert LinkOk(s, q) && PcOk(s, p);
    }
  }

  /** A PE passes its second wait only when the root has passed its first. */
  lemma {:induction false} AckComesFromRoot(s: State, p: nat)
    requires Inv(s) && p < s.tree.n
    ensures Completed(s, p) <= Acked(s, p) <= Gathered(s, 0)
  {
    assert PcOk(s, p);
    if p > 0 {
      var q := s.tree.parent[p];
      AckComesFromRoot(s, q);
      assert LinkOk(s, p) && PcOk(s, q);
    }
  }

  /**
    Barrier.  In every state of every run over any number of epochs: if PE p has returned from
    its e-th barrier call, every PE has started its e-th call.
  */
  lemma NoEarlyExit(run: seq<State>, k: nat, p: nat, q: nat)
    requires IsRun(run) && k < |run| && Shape(run[k]) && p < run[k].tree.n && q < run[k].tree.n
    ensures Completed(run[k], p) <= run[k].entered[q]
  {
    RunKeepsInv(run, k);
    AckComesFromRoot(run[k], p);
    RootKnowsAllEntered(run[k], q);
  }

  /**
    No wait is overshot and no clear discards a later arrival: a word never exceeds what its
    next wait asks for, the clear finds exactly that, and right after a clear, with nothing
    acknowledged yet, nothing is on its way to the word.
  */
  lemma WordsNeverOvershoot(run: seq<State>, k: nat, p: nat)
    requires IsRun(run) && k < |run| && Shape(run[k]) && p < run[k].tree.n
    ensures var s := run[k];
            && 0 <= s.psync[p] <= NumKids(s, p) + Bit(p != 0)
            && (s.pc[p].Gathering? ==> s.psync[p] <= NumKids(s, p))
            && (s.pc[p].Clear? ==> s.psync[p] == NumKids(s, p) + Bit(p != 0))
            && (s.pc[p].AwaitClear? ==> s.psync[p] == 0 && !s.ackFlight[p])
            && (s.pc[p].AwaitClear? ==>
                  forall c :: 0 < c < s.tree.n && s.tree.parent[c] == p ==> !s.upFlight[c])
  {
    RunKeepsInv(run, k);
    var s := run[k];
    assert WordOk(s, p) && PcOk(s, p);
    if p > 0 {
      OneMessageEachWay(s, p);
      assert LinkOk(s, p) && PcOk(s, s.tree.parent[p]);
    }
    if s.pc[p].Clear? { ClearSeesAll(s, p); }
    if s.pc[p].AwaitClear? { ClearedWordIsQuiet(s, p); }
  }

  lemma ClearedWordIsQuiet(s: State, p: nat)
    requires Inv(s) && p < s.tree.n && s.pc[p].AwaitClear?
    ensures s.psync[p] == 0 && !s.ackFlight[p]
    ensures forall c :: 0 < c < s.tree.n && s.tree.parent[c] == p ==> !s.upFlight[c] && !s.upHere[c]
  {
    assert WordOk(s, p);
    forall c | 0 < c < s.tree.n && s.tree.parent[c] == p ensures !s.upFlight[c] && !s.upHere[c] {
      assert LinkOk(s, c) && PcOk(s, c);
    }
    forall j | 0 <= j < NumKids(s, p) ensures !s.upHere[s.tree.kids[p][j]] {
      assert s.tree.kids[p][j] in s.tree.kids[p];
      assert IsKid(s.tree, p, s.tree.kids[p][j]);
    }
    CountNone(s.tree.kids[p], s.upHere);
    if p > 0 {
      assert LinkOk(s, p) && PcOk(s, s.tree.parent[p]);
    }
  }

  /** Nothing can move except by a new barrier call. */
  ghost predicate Stuck(s: State)
    requires Shape(s)
  {
    && (forall p :: 0 <= p < s.tree.n ==> s.pc[p].Outside? || !CanAdvance(s, p))
    && (forall c :: 0 <= c < s.tree.n ==> !s.upFlight[c] && !s.ackFlight[c])
  }

  /** In a stuck state nobody waits for children once everyone has entered. */
  lemma {:induction false} NobodyGathersForever(s: State, e: int, p: nat)
    requires Inv(s) && Stuck(s) && p < s.tree.n
    requires forall q :: 0 <= q < s.tree.n ==> s.entered[q] >= e
    ensures Gathered(s, p) >= e
    decreases s.tree.n - p
  {
    assert WordOk(s, p) && PcOk(s, p);
    forall j | 0 <= j < NumKids(s, p) && Gathered(s, p) < e ensures s.upHere[s.tree.kids[p][j]] {
      var c := s.tree.kids[p][j];
      assert c in s.tree.kids[p] && IsKid(s.tree, p, c);
      NobodyGathersForever(s, e, c);
      assert LinkOk(s, c);
      assert s.pc[c].Up? ==> CanAdvance(s, c);
    }
    if Gathered(s, p) < e {
      CountAll(s.tree.kids[p], s.upHere);
      GatheringMeansNoAck(s, p);
    }
  }

  /** A PE still waiting for its children has not been acknowledged. */
  lemma GatheringMeansNoAck(s: State, p: nat)
    requires Inv(s) && p < s.tree.n && s.pc[p].Gathering?
    ensures !s.ackHere[p]
  {
    if p > 0 {
      assert LinkOk(s, p) && PcOk(s, p) && PcOk(s, s.tree.parent[p]);
    }
  }

  lemma {:induction false} NobodyWaitsForever(s: State, e: int, p: nat)
    requires Inv(s) && Stuck(s) && p < s.tree.n
    requires forall q :: 0 <= q < s.tree.n ==> s.entered[q] >= e
    ensures Completed(s, p) >= e
  {
    if Completed(s, p) < e {
      assert !CanAdvance(s, p) && WordOk(s, p) && PcOk(s, p);
      NobodyGathersForever(s, e, p);
      if s.pc[p].AwaitClear? {
        ClearedWordIsQuiet(s, p);
      } else {
        var q := s.tree.parent[p];
        NobodyWaitsForever(s, e, q);
        assert LinkOk(s, p) && PcOk(s, q);
        AckedWaiterGoesOn(s, p);
      }
    }
  }

  /** Once acknowledged, with its children's adds in, a PE passes its second wait. */
  lemma AckedWaiterGoesOn(s: State, p: nat)
    requires Inv(s) && p < s.tree.n && s.pc[p].AwaitAck? && s.ackHere[p]
    requires forall c :: 0 <= c < s.tree.n ==> !s.upFlight[c]
    ensures CanAdvance(s, p)
  {
    assert WordOk(s, p);
    forall j | 0 <= j < NumKids(s, p) ensures s.upHere[s.tree.kids[p][j]] {
      var c := s.tree.kids[p][j];
      assert c in s.tree.kids[p] && IsKid(s.tree, p, c);
      assert LinkOk(s, c);
    }
    CountAll(s.tree.kids[p], s.upHere);
  }

  /** No deadlock: as long as a PE is inside a call that everyone has entered, something can move. */
  lemma NoDeadlock(run: seq<State>, k: nat, e: int)
    requires IsRun(run) && k < |run| && Shape(run[k])
    requires forall q :: 0 <= q < run[k].tree.n ==> run[k].entered[q] >= e
    requires exists p :: 0 <= p < run[k].tree.n && Completed(run[k], p) < e
    ensures !Stuck(run[k])
  {
    RunKeepsInv(run, k);
    if Stuck(run[k]) {
      var p :| 0 <= p < run[k].tree.n && Completed(run[k], p) < e;
      NobodyWaitsForever(run[k], e, p);
    }
  }

  // ------------------------------------------------------------------ every call comes to an end

  /** Steps p has before it in the call it is in, an acknowledgement it has yet to issue counting twice. */
  function StepsLeft(s: State, p: nat): nat
    requires |s.tree.kids| == s.tree.n == |s.pc| && p < s.tree.n
  {
    var k := NumKids(s, p);
    match s.pc[p]
    case Outside => 0
    case Gathering => 6 + 2 * k
    case Up => 5 + 2 * k
    case AwaitAck => 3 + 2 * k
    case Clear => 2 + 2 * k
    case AwaitClear => 1 + 2 * k
    case Down(i) => if i < k then 2 * (k - i) else 0
  }

  /** What one call costs p at most, its entry included. */
  function CallCost(t: Tree, p: nat): nat
    requires p < |t.kids|
  {
    7 + 2 * |t.kids[p]|
  }

  /** Work left for p when it makes e calls in all: the calls to come, the rest of this one, messages. */
  function Todo(s: State, e: nat, p: nat): nat
    requires |s.tree.kids| == s.tree.n == |s.entered| == |s.pc| == |s.upFlight| == |s.ackFlight|
    requires p < s.tree.n && s.entered[p] <= e
  {
    AllCalls(e - s.entered[p], CallCost(s.tree, p)) + StepsLeft(s, p) + Bit(s.upFlight[p]) + Bit(s.ackFlight[p])
  }

  ghost predicate Within(s: State, e: nat) {
    && Shape(s)
    && forall p :: 0 <= p < s.tree.n ==> s.entered[p] <= e
  }

  ghost function Todos(s: State, e: nat): (ms: seq<nat>)
    requires Within(s, e)
    ensures |ms| == s.tree.n && forall p :: 0 <= p < s.tree.n ==> ms[p] == Todo(s, e, p)
  {
    seq(s.tree.n, p requires 0 <= p < s.tree.n => Todo(s, e, p))
  }

  /** A step of p, an entry included, does some of p's own work. */
  lemma AdvanceDoes(s: State, e: nat, p: nat)
    requires Inv(s) && p < s.tree.n && CanAdvance(s, p)
    requires Within(s, e) && Within(Advance(s, p), e)
    ensures Todo(Advance(s, p), e, p) + 1 + Bit(s.pc[p].Down?) <= Todo(s, e, p)
  {
    hide LinkOk, WordOk, ForgetKids, AllCalls;
    assert PcOk(s, p);
    if s.pc[p].Outside? {
      assert Advance(s, p).entered[p] == s.entered[p] + 1 <= e;
      OneCallLess(e - s.entered[p], CallCost(s.tree, p));
    }
    if s.pc[p].Down? {
      var k := s.tree.kids[p][s.pc[p].i];
      assert k in s.tree.kids[p] && IsKid(s.tree, p, k);
    }
  }

  lemma AdvanceSpares(s: State, p: nat, q: nat)
    requires Inv(s) && p < s.tree.n && CanAdvance(s, p) && q < s.tree.n && q != p
    ensures var s' := Advance(s, p);
            && s'.tree == s.tree && Shape(s') && s'.entered[q] == s.entered[q] && s'.pc[q] == s.pc[q]
            && s'.upFlight[q] == s.upFlight[q]
            && (s'.ackFlight[q] != s.ackFlight[q] ==> Acknowledges(s, p, q))
  {
    hide ValidTree, PcOk, LinkOk, WordOk, ForgetKids;
  }

  /** The step of p issues the acknowledgement to q. */
  ghost predicate Acknowledges(s: State, p: nat, q: nat)
    requires Shape(s) && p < s.tree.n
  {
    s.pc[p].Down? && s.pc[p].i < NumKids(s, p) && q == s.tree.kids[p][s.pc[p].i]
  }

  /** The others' work stays, but for the acknowledgement p may have issued to one of them. */
  lemma AdvanceLeaves(s: State, e: nat, p: nat, q: nat)
    requires Inv(s) && p < s.tree.n && CanAdvance(s, p) && q < s.tree.n && q != p
    requires Within(s, e) && Within(Advance(s, p), e)
    ensures Acknowledges(s, p, q) ==> Todo(Advance(s, p), e, q) <= Todo(s, e, q) + 1
    ensures !Acknowledges(s, p, q) ==> Todo(Advance(s, p), e, q) == Todo(s, e, q)
  {
    hide Advance, ValidTree, PcOk, LinkOk, WordOk, CanAdvance, Acknowledges;
    AdvanceSpares(s, p, q);
  }

  lemma AdvanceIsProgress(s: State, e: nat, p: nat)
    requires Inv(s) && p < s.tree.n && CanAdvance(s, p)
    requires Within(s, e) && Within(Advance(s, p), e)
    ensures Sum(Todos(Advance(s, p), e)) < Sum(Todos(s, e))
  {
    hide Advance, LinkOk, WordOk, CanAdvance, Todo;
    var ms, ms' := Todos(s, e), Todos(Advance(s, p), e);
    assert PcOk(s, p) && Advance(s, p).tree == s.tree by { AdvanceSpares(s, p, if p == 0 then 1 else 0); }
    AdvanceDoes(s, e, p);
    forall q | 0 <= q < s.tree.n && q != p
      ensures if Acknowledges(s, p, q) then ms'[q] <= ms[q] + 1 else ms'[q] == ms[q]
    {
      AdvanceLeaves(s, e, p, q);
    }
    if s.pc[p].Down? {
      var k := s.tree.kids[p][s.pc[p].i];
      assert k in s.tree.kids[p] && IsKid(s.tree, p, k);
      SumMoves(ms, ms', p, k);
    } else {
      SumDrops(ms, ms', p);
    }
  }

  lemma DeliverUpDoes(s: State, e: nat, c: nat, q: nat)
    requires Within(s, e) && c < s.tree.n && s.upFlight[c] && q < s.tree.n && Within(DeliverUp(s, c), e)
    ensures Todo(DeliverUp(s, c), e, q) == Todo(s, e, q) - Bit(q == c)
  {
  }

  lemma DeliverUpIsProgress(s: State, e: nat, c: nat)
    requires Within(s, e) && c < s.tree.n && s.upFlight[c] && Within(DeliverUp(s, c), e)
    ensures Sum(Todos(DeliverUp(s, c), e)) < Sum(Todos(s, e))
  {
    hide Todo, StepsLeft, ValidTree;
    var ms, ms' := Todos(s, e), Todos(DeliverUp(s, c), e);
    forall q | 0 <= q < s.tree.n ensures ms'[q] == ms[q] - Bit(q == c) {
      DeliverUpDoes(s, e, c, q);
    }
    SumDrops(ms, ms', c);
  }

  lemma DeliverAckDoes(s: State, e: nat, c: nat, q: nat)
    requires Within(s, e) && c < s.tree.n && s.ackFlight[c] && q < s.tree.n && Within(DeliverAck(s, c), e)
    ensures Todo(DeliverAck(s, c), e, q) == Todo(s, e, q) - Bit(q == c)
  {
  }

  lemma DeliverAckIsProgress(s: State, e: nat, c: nat)
    requires Within(s, e) && c < s.tree.n && s.ackFlight[c] && Within(DeliverAck(s, c), e)
    ensures Sum(Todos(DeliverAck(s, c), e)) < Sum(Todos(s, e))
  {
    hide Todo, StepsLeft, ValidTree;
    var ms, ms' := Todos(s, e), Todos(DeliverAck(s, c), e);
    forall q | 0 <= q < s.tree.n ensures ms'[q] == ms[q] - Bit(q == c) {
      DeliverAckDoes(s, e, c, q);
    }
    SumDrops(ms, ms', c);
  }

  /** Every step other than a new entry lowers the work left; so does an entry, out of a budget of e calls each. */
  lemma StepIsProgress(s: State, s': State, e: nat)
    requires Inv(s) && Next(s, s') && Within(s, e) && Within(s', e)
    ensures Sum(Todos(s', e)) < Sum(Todos(s, e))
  {
    hide Advance, DeliverUp, DeliverAck, CanAdvance, PcOk, LinkOk, WordOk;
    if p: nat :| p < s.tree.n && CanAdvance(s, p) && s' == Advance(s, p) {
      AdvanceIsProgress(s, e, p);
    } else if c: nat :| c < s.tree.n && s.upFlight[c] && s' == DeliverUp(s, c) {
      DeliverUpIsProgress(s, e, c);
    } else {
      var c: nat :| c < s.tree.n && s.ackFlight[c] && s' == DeliverAck(s, c);
      DeliverAckIsProgress(s, e, c);
    }
  }

  // ---- all PEs together have n - 1 children

  ghost function KidsBelow(t: Tree, m: nat): (ms: seq<nat>)
    requires ValidTree(t) && KidsInside(t)
    ensures |ms| == t.n
    ensures forall p :: 0 <= p < t.n ==> ms[p] == CountHere(t.kids[p], seq(t.n, c => c < m))
  {
    seq(t.n, p requires 0 <= p < t.n => CountHere(t.kids[p], seq(t.n, c => c < m)))
  }

  ghost predicate KidsInside(t: Tree)
    requires |t.kids| == t.n
  {
    forall p, i :: 0 <= p < t.n && 0 <= i < |t.kids[p]| ==> 0 < t.kids[p][i] < t.n
  }

  lemma {:induction false} KidsAddUp(t: Tree, m: nat)
    requires ValidTree(t) && KidsInside(t) && 1 <= m <= t.n
    ensures Sum(KidsBelow(t, m)) == m - 1
  {
    if m == 1 {
      forall p | 0 <= p < t.n ensures KidsBelow(t, 1)[p] == 0 {
        CountNone(t.kids[p], seq(t.n, c => c < 1));
      }
      SumBound(KidsBelow(t, 1), 0);
    } else {
      var c, ms := m - 1, KidsBelow(t, m - 1);
      KidsAddUp(t, c);
      forall p | 0 <= p < t.n ensures KidsBelow(t, m)[p] == ms[p] + Bit(p == t.parent[c]) {
        OneKidMore(t, c, p);
      }
      assert KidsBelow(t, m) == ms[t.parent[c] := ms[t.parent[c]] + 1];
      SumUpdate(ms, t.parent[c], ms[t.parent[c]] + 1);
    }
  }

  lemma OneKidMore(t: Tree, c: nat, p: nat)
    requires ValidTree(t) && KidsInside(t) && 0 < c < t.n && p < t.n
    ensures CountHere(t.kids[p], seq(t.n, x => x < c + 1))
         == CountHere(t.kids[p], seq(t.n, x => x < c)) + Bit(p == t.parent[c])
  {
    var here, here' := seq(t.n, x => x < c), seq(t.n, x => x < c + 1);
    if p == t.parent[c] {
      assert IsKid(t, p, c);
      assert here' == here[c := true];
      CountOneMore(t.kids[p], here, c);
    } else {
      forall j | 0 <= j < |t.kids[p]| ensures here[t.kids[p][j]] == here'[t.kids[p][j]] {
        assert t.kids[p][j] in t.kids[p];
        assert IsKid(t, p, t.kids[p][j]);
      }
      CountSame(t.kids[p], here, here');
    }
  }

  /** e calls at 7 steps each and 2 for each child, summed over the PEs, when the children number total. */
  lemma {:induction false} CostsAddUp(kids: seq<nat>, ms: seq<nat>, e: nat)
    requires |ms| == |kids| && forall p :: 0 <= p < |kids| ==> ms[p] == e * (7 + 2 * kids[p])
    ensures Sum(ms) == e * (7 * |kids| + 2 * Sum(kids))
  {
    if kids != [] { CostsAddUp(kids[1..], ms[1..], e); }
  }

  lemma FreshWork(s: State, e: nat)
    requires Init(s)
    ensures Within(s, e) && Sum(Todos(s, e)) == e * (9 * s.tree.n - 2)
  {
    var t, kids := s.tree, KidsBelow(s.tree, s.tree.n);
    forall p | 0 <= p < t.n ensures kids[p] == |t.kids[p]| {
      CountAll(t.kids[p], seq(t.n, c => c < t.n));
    }
    KidsAddUp(t, t.n);
    CostsAddUp(kids, Todos(s, e), e);
  }

  /** A run in which no PE enters more than e barriers is no longer than this. */
  lemma {:induction false} RunsAreBounded(run: seq<State>, k: nat, e: nat)
    requires IsRun(run) && k < |run| && Within(run[k], e)
    ensures run[0].tree.n > 0 && k + Sum(Todos(run[k], e)) <= e * (9 * run[0].tree.n - 2)
  {
    hide Next, Init, ValidTree, PcOk, LinkOk, WordOk, Todo;
    if k == 0 {
      FreshWork(run[0], e);
    } else {
      var s, s' := run[k - 1], run[k - 1 + 1];
      RunKeepsInv(run, k - 1);
      assert Next(s, s');
      StepKeepsBudget(s, s', e);
      RunsAreBounded(run, k - 1, e);
      StepIsProgress(s, s', e);
    }
  }

  /** Calls are only ever added. */
  lemma StepKeepsBudget(s: State, s': State, e: nat)
    requires Inv(s) && Next(s, s') && Within(s', e)
    ensures Within(s, e)
  {
    hide ValidTree, PcOk, LinkOk, WordOk, ForgetKids;
    forall p | 0 <= p < s.tree.n ensures s.entered[p] <= e {
      assert s.entered[p] <= s'.entered[p];
    }
  }

  /** No PE is more than one call ahead of another, so the first PE's calls bound everyone's. */
  lemma NobodyIsAhead(s: State)
    requires Inv(s)
    ensures s.entered[0] >= 0 && Within(s, s.entered[0] + 1)
  {
    assert PcOk(s, 0);
    forall p | 0 <= p < s.tree.n ensures s.entered[p] <= s.entered[0] + 1 {
      AckComesFromRoot(s, p);
      RootKnowsAllEntered(s, 0);
    }
  }

  ghost predicate AllEntered(s: State, e: int) {
    && Shape(s)
    && forall q :: 0 <= q < s.tree.n ==> s.entered[q] >= e
  }

  ghost predicate AllCompleted(s: State, e: int) {
    && Shape(s)
    && forall q :: 0 <= q < s.tree.n ==> Completed(s, q) >= e
  }

  /** What bounds a run that gets no further entry. */
  function LongestRun(s: State): int
    requires s.entered != []
  {
    (s.entered[0] + 1) * (9 * s.tree.n - 2)
  }

  lemma RunFits(run: seq<State>)
    requires IsRun(run)
    ensures var s := run[|run| - 1]; Inv(s) && s.entered != [] && |run| - 1 <= LongestRun(s)
  {
    hide Next, Init, ValidTree, PcOk, LinkOk, WordOk;
    var s := run[|run| - 1];
    RunKeepsInv(run, |run| - 1);
    NobodyIsAhead(s);
    RunsAreBounded(run, |run| - 1, s.entered[0] + 1);
    SameTree(run, |run| - 1);
  }

  lemma {:induction false} SameTree(run: seq<State>, k: nat)
    requires IsRun(run) && k < |run|
    ensures run[k].tree == run[0].tree
  {
    if k > 0 {
      SameTree(run, k - 1);
      assert Next(run[k - 1], run[k - 1 + 1]);
    }
  }

  /**
    Every wait is reached.  A run in which every PE has entered its e-th call can be continued,
    without any further entry, until every PE has returned from that call.
  */
  lemma {:induction false} RunsComplete(run: seq<State>, e: int) returns (run': seq<State>)
    requires IsRun(run) && AllEntered(run[|run| - 1], e)
    ensures IsRun(run') && run <= run'
    ensures run'[|run'| - 1].entered == run[|run| - 1].entered && AllCompleted(run'[|run'| - 1], e)
    decreases LongestRun(run[|run| - 1]) - |run|
  {
    hide Next, Init, ValidTree, PcOk, LinkOk, WordOk;
    var s := run[|run| - 1];
    RunFits(run);
    if Stuck(s) {
      run' := run;
      forall p | 0 <= p < s.tree.n ensures Completed(s, p) >= e {
        NobodyWaitsForever(s, e, p);
      }
    } else {
      var s' := NextState(s);
      var longer := run + [s'];
      NextKeepsInv(s, s');
      RunFits(longer);
      run' := RunsComplete(longer, e);
    }
  }

  /** In a state that is not stuck some step other than an entry is possible. */
  lemma NextState(s: State) returns (s': State)
    requires Inv(s) && !Stuck(s)
    ensures Next(s, s') && s'.entered == s.entered && s'.tree == s.tree
  {
    if p: nat :| p < s.tree.n && !s.pc[p].Outside? && CanAdvance(s, p) {
      s' := Advance(s, p);
    } else if c: nat :| c < s.tree.n && s.upFlight[c] {
      s' := DeliverUp(s, c);
    } else {
      var c: nat :| c < s.tree.n && s.ackFlight[c];
      s' := DeliverAck(s, c);
    }
  }

  // ------------------------------------------------------------------ every epoch happens

  /** A PE that has completed all its calls enters the next one. */
  lemma EnterOne(s: State, e: nat, p: nat) returns (s': State)
    requires Inv(s) && AllCompleted(s, e) && p < s.tree.n && s.entered[p] <= e
    ensures Next(s, s') && s'.tree == s.tree && s'.entered == s.entered[p := e + 1] && AllCompleted(s', e)
  {
    hide ValidTree, LinkOk, WordOk;
    assert PcOk(s, p);
    assert Completed(s, p) >= e && s.pc[p].Outside?;
    s' := Advance(s, p);
    forall q | 0 <= q < s.tree.n ensures Completed(s', q) >= e {
      assert Completed(s, q) >= e;
    }
  }

  ghost predicate FirstEntered(s: State, e: int, m: nat) {
    && Shape(s) && m <= s.tree.n
    && forall p :: 0 <= p < m ==> s.entered[p] >= e
  }

  /** If everyone is through e calls, everyone can start one more. */
  lemma {:induction false} EnterAll(run: seq<State>, e: nat, m: nat) returns (run': seq<State>)
    requires IsRun(run) && AllCompleted(run[|run| - 1], e) && m <= run[|run| - 1].tree.n
    ensures IsRun(run') && run <= run' && run'[|run'| - 1].tree == run[|run| - 1].tree && AllCompleted(run'[|run'| - 1], e)
    ensures FirstEntered(run'[|run'| - 1], e + 1, m)
  {
    hide Next, Init, ValidTree, PcOk, LinkOk, WordOk;
    run' := run;
    if m > 0 {
      run' := EnterAll(run, e, m - 1);
      var s := run'[|run'| - 1];
      RunKeepsInv(run', |run'| - 1);
      if s.entered[m - 1] <= e {
        var s' := EnterOne(s, e, m - 1);
        run' := run' + [s'];
      }
    }
  }

  lemma NoneCompletedYet(s: State)
    requires Init(s)
    ensures AllCompleted(s, 0)
  {
  }

  /** Any number of calls can be made one after the other, and all of them return. */
  lemma {:induction false} EveryEpochHappens(start: State, e: nat) returns (run: seq<State>)
    requires Init(start)
    ensures IsRun(run) && run[0] == start && AllCompleted(run[|run| - 1], e)
  {
    hide Next, Init, ValidTree, PcOk, LinkOk, WordOk;
    if e == 0 {
      run := [start];
      NoneCompletedYet(start);
    } else {
      run := EveryEpochHappens(start, e - 1);
      var all := EnterAll(run, e - 1, run[|run| - 1].tree.n);
      run := RunsComplete(all, e);
    }
  }
}
