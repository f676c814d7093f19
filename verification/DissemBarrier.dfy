/**
  The dissemination barrier of src/collectives.c, used over and over on one pSync array.

  In round i a PE adds 1 to slot i of the PE 2^i ranks after it, waits until its own slot i
  is non-zero, and subtracts 1 from it.  Both updates are non-blocking atomics: they are in
  flight from the step that issues them to a later delivery step, in any order, and only the
  quiet at the end of the call waits for them.  PEs are named by their rank in the active set.
*/
module DissemBarrier {
  import opened Arith
  import opened Progress

  /** Number of rounds: the least i with 2^i >= n. */
  function RoundsFrom(n: nat, i: nat): (r: nat)
    requires i == 0 || Pow2(i - 1) < n
    ensures i <= r && Pow2(r) >= n && (r == 0 || Pow2(r - 1) < n)
    decreases if Pow2(i) < n then n - Pow2(i) else 0
  {
    if Pow2(i) >= n then i else RoundsFrom(n, i + 1)
  }

  function Rounds(n: nat): nat {
    RoundsFrom(n, 0)
  }

  lemma RoundExists(n: nat, i: nat)
    ensures i < Rounds(n) <==> Pow2(i) < n
  {
    if i < Rounds(n) { Pow2Grows(i, Rounds(n) - 1); } else { Pow2Grows(Rounds(n), i); }
  }

  datatype Pos =
    | Outside
    | Sending(i: nat)    // about to issue the add for round i
    | Waiting(i: nat)    // spinning on own slot i
    | Clearing(i: nat)   // past the wait, about to issue the subtraction
    | Quieting           // waiting for everything this PE issued

  /**
    entered[p] counts the barrier calls p has started.  slot[p][i] is the int pSync_ints[i] on
    p; adds[p][i] and subs[p][i] are the +1 and -1 updates in flight towards it.
  */
  datatype State = State(
    n: nat, entered: seq<int>, pos: seq<Pos>,
    slot: seq<seq<int>>, adds: seq<seq<nat>>, subs: seq<seq<nat>>)

  predicate Shape(s: State) {
    && 0 < s.n == |s.entered| == |s.pos| == |s.slot| == |s.adds| == |s.subs|
    && (forall p :: 0 <= p < s.n ==> |s.slot[p]| == Rounds(s.n))
    && (forall p :: 0 <= p < s.n ==> |s.adds[p]| == Rounds(s.n))
    && (forall p :: 0 <= p < s.n ==> |s.subs[p]| == Rounds(s.n))
    && (forall p :: 0 <= p < s.n && InRound(s.pos[p]) ==> s.pos[p].i < Rounds(s.n))
  }

  predicate InRound(pos: Pos) {
    pos.Sending? || pos.Waiting? || pos.Clearing?
  }

  predicate Init(s: State) {
    && Shape(s)
    && (forall p :: 0 <= p < s.n ==> s.entered[p] == 0 && s.pos[p] == Outside)
    && (forall p, i :: 0 <= p < s.n && 0 <= i < Rounds(s.n) ==> s.slot[p][i] == 0)
    && (forall p, i :: 0 <= p < s.n && 0 <= i < Rounds(s.n) ==> s.adds[p][i] == 0)
    && (forall p, i :: 0 <= p < s.n && 0 <= i < Rounds(s.n) ==> s.subs[p][i] == 0)
  }

  function Put<T>(m: seq<seq<T>>, p: nat, i: nat, v: T): seq<seq<T>>
    requires p < |m| && i < |m[p]|
  {
    m[p := m[p][i := v]]
  }

  /** The PE 2^i ranks after p. */
  function Target(p: nat, i: nat, n: nat): (r: nat)
    requires n > 0
    ensures r < n
  {
    (p + Pow2(i)) % n
  }

  /** The PE 2^i ranks before p: the one that adds to slot i of p. */
  function Sender(p: nat, i: nat, n: nat): (r: nat)
    requires n > 0
    ensures r < n
  {
    Before(p, Pow2(i), n)
  }

  function FirstRound(n: nat, i: nat): Pos {
    if Pow2(i) < n then Sending(i) else Quieting
  }

  /** PE p takes its next step: it enters, or carries on with the call it is in. */
  predicate CanAdvance(s: State, p: nat)
    requires Shape(s) && p < s.n
  {
    match s.pos[p]
    case Waiting(i) => s.slot[p][i] != 0
    case Quieting => forall i :: 0 <= i < Rounds(s.n) ==> s.adds[Target(p, i, s.n)][i] == 0 && s.subs[p][i] == 0
    case _ => true
  }

  function Advance(s: State, p: nat): State
    requires Shape(s) && p < s.n && CanAdvance(s, p)
  {
    match s.pos[p]
    case Outside => s.(entered := s.entered[p := s.entered[p] + 1], pos := s.pos[p := FirstRound(s.n, 0)])
    case Sending(i) =>
      var to := Target(p, i, s.n);
      s.(adds := Put(s.adds, to, i, s.adds[to][i] + 1), pos := s.pos[p := Waiting(i)])
    case Waiting(i) => s.(pos := s.pos[p := Clearing(i)])
    case Clearing(i) =>
      s.(subs := Put(s.subs, p, i, s.subs[p][i] + 1), pos := s.pos[p := FirstRound(s.n, i + 1)])
    case Quieting => s.(pos := s.pos[p := Outside])
  }

  /** An update in flight reaches slot i of PE q. */
  function DeliverAdd(s: State, q: nat, i: nat): State
    requires Shape(s) && q < s.n && i < Rounds(s.n) && s.adds[q][i] > 0
  {
    s.(adds := Put(s.adds, q, i, s.adds[q][i] - 1), slot := Put(s.slot, q, i, s.slot[q][i] + 1))
  }

  function DeliverSub(s: State, q: nat, i: nat): State
    requires Shape(s) && q < s.n && i < Rounds(s.n) && s.subs[q][i] > 0
  {
    s.(subs := Put(s.subs, q, i, s.subs[q][i] - 1), slot := Put(s.slot, q, i, s.slot[q][i] - 1))
  }

  ghost predicate Next(s: State, s': State) {
    && Shape(s)
    && (|| (exists p: nat :: p < s.n && CanAdvance(s, p) && s' == Advance(s, p))
        || (exists q: nat, i: nat :: q < s.n && i < Rounds(s.n) && s.adds[q][i] > 0 && s' == DeliverAdd(s, q, i))
        || (exists q: nat, i: nat :: q < s.n && i < Rounds(s.n) && s.subs[q][i] > 0 && s' == DeliverSub(s, q, i)))
  }

  // ------------------------------------------------------------------ counting

  /** Barrier calls PE p has finished. */
  function Completed(s: State, p: nat): int
    requires Shape(s) && p < s.n
  {
    if s.pos[p].Outside? then s.entered[p] else s.entered[p] - 1
  }

  /** How often PE p has issued the add, passed the wait, issued the subtraction of round i. */
  function Sent(s: State, p: nat, i: nat): int
    requires Shape(s) && p < s.n
  {
    match s.pos[p]
    case Sending(j) => if i < j then s.entered[p] else s.entered[p] - 1
    case Waiting(j) => if i <= j then s.entered[p] else s.entered[p] - 1
    case Clearing(j) => if i <= j then s.entered[p] else s.entered[p] - 1
    case _ => s.entered[p]
  }

  function Passed(s: State, p: nat, i: nat): int
    requires Shape(s) && p < s.n
  {
    match s.pos[p]
    case Sending(j) => if i < j then s.entered[p] else s.entered[p] - 1
    case Waiting(j) => if i < j then s.entered[p] else s.entered[p] - 1
    case Clearing(j) => if i <= j then s.entered[p] else s.entered[p] - 1
    case _ => s.entered[p]
  }

  function Cleared(s: State, p: nat, i: nat): int
    requires Shape(s) && p < s.n
  {
    match s.pos[p]
    case Sending(j) => if i < j then s.entered[p] else s.entered[p] - 1
    case Waiting(j) => if i < j then s.entered[p] else s.entered[p] - 1
    case Clearing(j) => if i < j then s.entered[p] else s.entered[p] - 1
    case _ => s.entered[p]
  }

  /** Slot i of q holds the adds delivered minus the subtractions delivered. */
  ghost predicate SlotOk(s: State, q: nat, i: nat)
    requires Shape(s) && q < s.n && i < Rounds(s.n)
  {
    var p := Sender(q, i, s.n);
    && s.slot[q][i] == (Sent(s, p, i) - s.adds[q][i]) - (Cleared(s, q, i) - s.subs[q][i])
    && s.adds[q][i] <= Sent(s, p, i) - Completed(s, p)
    && s.subs[q][i] <= Cleared(s, q, i) - Completed(s, q)
    && Passed(s, q, i) <= Sent(s, p, i) - s.adds[q][i]
  }

  /** The m ranks ending at q have all entered at least e barriers. */
  ghost predicate Heard(s: State, q: nat, m: nat, e: int)
    requires Shape(s) && q < s.n
  {
    forall k {:trigger Before(q, k, s.n)} :: 0 <= k < m ==> s.entered[Before(q, k, s.n)] >= e
  }

  ghost predicate RoundOk(s: State, q: nat, i: nat)
    requires Shape(s) && q < s.n && i < Rounds(s.n)
  {
    Heard(s, q, Pow2(i + 1), Passed(s, q, i))
  }

  ghost predicate Inv(s: State) {
    && Shape(s)
    && (forall p :: 0 <= p < s.n ==> s.entered[p] >= (if s.pos[p].Outside? then 0 else 1))
    && (forall q, i :: 0 <= q < s.n && 0 <= i < Rounds(s.n) ==> SlotOk(s, q, i))
    && (forall q, i :: 0 <= q < s.n && 0 <= i < Rounds(s.n) ==> RoundOk(s, q, i))
  }

  lemma InitEstablishesInv(s: State)
    requires Init(s)
    ensures Inv(s)
  {
  }

  lemma DeliverAddKeepsInv(s: State, q: nat, i: nat)
    requires Inv(s) && q < s.n && i < Rounds(s.n) && s.adds[q][i] > 0
    ensures Inv(DeliverAdd(s, q, i))
  {
    var s' := DeliverAdd(s, q, i);
    forall x, j | 0 <= x < s.n && 0 <= j < Rounds(s.n) ensures SlotOk(s', x, j) {
      assert SlotOk(s, x, j);
    }
    forall x, j | 0 <= x < s.n && 0 <= j < Rounds(s.n) ensures RoundOk(s', x, j) {
      assert RoundOk(s, x, j);
    }
  }

  lemma DeliverSubKeepsInv(s: State, q: nat, i: nat)
    requires Inv(s) && q < s.n && i < Rounds(s.n) && s.subs[q][i] > 0
    ensures Inv(DeliverSub(s, q, i))
  {
    var s' := DeliverSub(s, q, i);
    forall x, j | 0 <= x < s.n && 0 <= j < Rounds(s.n) ensures SlotOk(s', x, j) {
      assert SlotOk(s, x, j);
    }
    forall x, j | 0 <= x < s.n && 0 <= j < Rounds(s.n) ensures RoundOk(s', x, j) {
      assert RoundOk(s, x, j);
    }
  }

  /** A PE that has sent its round-i add has heard from the 2^i ranks ending at it. */
  lemma SenderHasHeard(s: State, p: nat, i: nat)
    requires Inv(s) && p < s.n && i < Rounds(s.n)
    ensures Heard(s, p, Pow2(i), Sent(s, p, i))
  {
    hide SlotOk, Heard;
    if i > 0 {
      assert RoundOk(s, p, i - 1);
      HeardEarlier(s, p, Pow2(i), Passed(s, p, i - 1), Sent(s, p, i));
    } else {
      OwnEntry(s, p, Sent(s, p, 0));
    }
  }

  lemma HeardEarlier(s: State, q: nat, m: nat, e: int, e': int)
    requires Shape(s) && q < s.n && Heard(s, q, m, e) && e' <= e
    ensures Heard(s, q, m, e')
  {
  }

  lemma OwnEntry(s: State, p: nat, e: int)
    requires Shape(s) && p < s.n && e <= s.entered[p]
    ensures Heard(s, p, Pow2(0), e)
  {
    assert Before(p, 0, s.n) == p;
  }

  /** Two blocks of m ranks, one ending at q and one at the rank m before q, make 2m ranks. */
  lemma HeardTwice(s: State, q: nat, m: nat, e: int)
    requires Shape(s) && q < s.n
    requires Heard(s, q, m, e) && Heard(s, Before(q, m, s.n), m, e)
    ensures Heard(s, q, 2 * m, e)
  {
    forall k {:trigger Before(q, k, s.n)} | 0 <= k < 2 * m ensures s.entered[Before(q, k, s.n)] >= e {
      if k >= m {
        BeforeBefore(q, m, k - m, s.n);
        assert s.entered[Before(Before(q, m, s.n), k - m, s.n)] >= e;
      }
    }
  }

  /** What a wait has seen: the partner's add of this epoch, hence all that the partner had heard. */
  lemma WaitHears(s: State, q: nat, i: nat)
    requires Inv(s) && q < s.n && s.pos[q] == Waiting(i) && s.slot[q][i] != 0
    ensures Sent(s, Sender(q, i, s.n), i) - s.adds[q][i] >= s.entered[q]
    ensures Heard(s, q, Pow2(i + 1), s.entered[q])
  {
    var e, p := s.entered[q], Sender(q, i, s.n);
    assert SlotOk(s, q, i);
    assert Sent(s, p, i) >= e && Sent(s, q, i) == e;
    SenderHasHeard(s, q, i);
    SenderHasHeard(s, p, i);
    HeardTwice(s, q, Pow2(i), e);
  }

  lemma EnterKeepsInv(s: State, p: nat)
    requires Inv(s) && p < s.n && s.pos[p].Outside?
    ensures Inv(Advance(s, p))
  {
    var s' := Advance(s, p);
    RoundExists(s.n, 0);
    forall x, j | 0 <= x < s.n && 0 <= j < Rounds(s.n) ensures SlotOk(s', x, j) {
      assert SlotOk(s, x, j);
      RoundExists(s.n, j);
    }
    forall x, j | 0 <= x < s.n && 0 <= j < Rounds(s.n) ensures RoundOk(s', x, j) {
      assert RoundOk(s, x, j);
    }
  }

  lemma SendKeepsInv(s: State, p: nat, i: nat)
    requires Inv(s) && p < s.n && s.pos[p] == Sending(i)
    ensures Inv(Advance(s, p))
  {
    var s' := Advance(s, p);
    var to := Target(p, i, s.n);
    BeforeAfter(p, Pow2(i), s.n);
    forall x, j | 0 <= x < s.n && 0 <= j < Rounds(s.n) ensures SlotOk(s', x, j) {
      assert SlotOk(s, x, j);
      BeforeAfter(x, Pow2(j), s.n);
    }
    forall x, j | 0 <= x < s.n && 0 <= j < Rounds(s.n) ensures RoundOk(s', x, j) {
      assert RoundOk(s, x, j);
    }
  }

  lemma PassKeepsInv(s: State, q: nat, i: nat)
    requires Inv(s) && q < s.n && s.pos[q] == Waiting(i) && s.slot[q][i] != 0
    ensures Inv(Advance(s, q))
  {
    var s' := Advance(s, q);
    WaitHears(s, q, i);
    forall x, j | 0 <= x < s.n && 0 <= j < Rounds(s.n) ensures SlotOk(s', x, j) {
      assert SlotOk(s, x, j);
    }
    forall x, j | 0 <= x < s.n && 0 <= j < Rounds(s.n) ensures RoundOk(s', x, j) {
      assert RoundOk(s, x, j);
    }
  }

  lemma ClearKeepsInv(s: State, p: nat, i: nat)
    requires Inv(s) && p < s.n && s.pos[p] == Clearing(i)
    ensures Inv(Advance(s, p))
  {
    var s' := Advance(s, p);
    RoundExists(s.n, i + 1);
    forall x, j | 0 <= x < s.n && 0 <= j < Rounds(s.n) ensures SlotOk(s', x, j) {
      assert SlotOk(s, x, j);
    }
    forall x, j | 0 <= x < s.n && 0 <= j < Rounds(s.n) ensures RoundOk(s', x, j) {
      assert RoundOk(s, x, j);
    }
  }

  lemma LeaveKeepsInv(s: State, p: nat)
    requires Inv(s) && p < s.n && s.pos[p] == Quieting && CanAdvance(s, p)
    ensures Inv(Advance(s, p))
  {
    var s' := Advance(s, p);
    forall x, j | 0 <= x < s.n && 0 <= j < Rounds(s.n) ensures SlotOk(s', x, j) {
      assert SlotOk(s, x, j);
      BeforeAfter(x, Pow2(j), s.n);
      assert Sender(x, j, s.n) == p ==> s.adds[Target(p, j, s.n)][j] == 0;
    }
    forall x, j | 0 <= x < s.n && 0 <= j < Rounds(s.n) ensures RoundOk(s', x, j) {
      assert RoundOk(s, x, j);
    }
  }

  lemma NextKeepsInv(s: State, s': State)
    requires Inv(s) && Next(s, s')
    ensures Inv(s') == true
  {
    if p: nat :| p < s.n && CanAdvance(s, p) && s' == Advance(s, p) {
      match s.pos[p]
      case Outside => EnterKeepsInv(s, p);
      case Sending(i) => SendKeepsInv(s, p, i);
      case Waiting(i) => PassKeepsInv(s, p, i);
      case Clearing(i) => ClearKeepsInv(s, p, i);
      case Quieting => LeaveKeepsInv(s, p);
    } else if q: nat, i: nat :| q < s.n && i < Rounds(s.n) && s.adds[q][i] > 0 && s' == DeliverAdd(s, q, i) {
      DeliverAddKeepsInv(s, q, i);
    } else {
      var q: nat, i: nat :| q < s.n && i < Rounds(s.n) && s.subs[q][i] > 0 && s' == DeliverSub(s, q, i);
      DeliverSubKeepsInv(s, q, i);
    }
  }

  // ------------------------------------------------------------------ what the barrier promises

  ghost predicate IsRun(run: seq<State>) {
    && run != [] && Init(run[0])
    && forall k :: 0 <= k < |run| - 1 ==> Next(run[k], run[k + 1])
  }

  lemma {:induction false} RunKeepsInv(run: seq<State>, k: nat)
    requires IsRun(run) && k < |run|
    ensures Inv(run[k]) == true
  {
    if k == 0 {
      InitEstablishesInv(run[0]);
    } else {
      RunKeepsInv(run, k - 1);
      assert Next(run[k - 1], run[k - 1 + 1]);
      NextKeepsInv(run[k - 1], run[k]);
    }
  }

  /** Having passed its last wait, or left, a PE knows that everyone has entered. */
  lemma CompletedMeansAllEntered(s: State, p: nat, q: nat)
    requires Inv(s) && p < s.n && q < s.n
    ensures Completed(s, p) <= s.entered[q]
  {
    var k := if q <= p then p - q else p - q + s.n;
    assert Before(p, k, s.n) == q by {
      ModPlusMultiple(q, s.n, if q <= p then 0 else -1);
      SmallMod(q, s.n);
    }
    if s.n > 1 {
      var last := Rounds(s.n) - 1;
      assert RoundOk(s, p, last);
      assert k < Pow2(last + 1);
    }
  }

  /**
    Barrier.  In every state of every run over any number of epochs: if PE p has returned from
    its e-th barrier call, every PE has started its e-th call.
  */
  lemma NoEarlyExit(run: seq<State>, k: nat, p: nat, q: nat)
    requires IsRun(run) && k < |run| && p < run[k].n && q < run[k].n
    ensures Shape(run[k]) && Completed(run[k], p) <= run[k].entered[q]
  {
    RunKeepsInv(run, k);
    CompletedMeansAllEntered(run[k], p, q);
  }

  /** Every slot holds 0, 1 or 2 at all times: the code's assertion that it is below 3 cannot fail. */
  lemma SlotsStayBelowThree(run: seq<State>, k: nat, p: nat, i: nat)
    requires IsRun(run) && k < |run| && p < run[k].n && i < Rounds(run[k].n)
    ensures Shape(run[k]) && 0 <= run[k].slot[p][i] < 3
  {
    RunKeepsInv(run, k);
    var s := run[k];
    var q := Sender(p, i, s.n);
    assert SlotOk(s, p, i);
    CompletedMeansAllEntered(s, q, p);
  }

  /** When every PE is outside a barrier and nothing is in flight, the slots are all 0 again. */
  lemma PSyncIsRestored(run: seq<State>, k: nat, p: nat, i: nat)
    requires IsRun(run) && k < |run| && p < run[k].n && i < Rounds(run[k].n)
    requires Shape(run[k]) && forall q :: 0 <= q < run[k].n ==> run[k].pos[q] == Outside
    ensures run[k].slot[p][i] == 0 && run[k].adds[p][i] == 0 && run[k].subs[p][i] == 0
  {
    RunKeepsInv(run, k);
    var s := run[k];
    var q := Sender(p, i, s.n);
    assert SlotOk(s, p, i);
    CompletedMeansAllEntered(s, q, p);
    CompletedMeansAllEntered(s, p, q);
  }

  /** Nothing can move except by a new barrier call. */
  ghost predicate Stuck(s: State)
    requires Shape(s)
  {
    && (forall p :: 0 <= p < s.n ==> s.pos[p].Outside? || !CanAdvance(s, p))
    && (forall q, i :: 0 <= q < s.n && 0 <= i < Rounds(s.n) ==> s.adds[q][i] == 0)
    && (forall q, i :: 0 <= q < s.n && 0 <= i < Rounds(s.n) ==> s.subs[q][i] == 0)
  }

  /** In a stuck state nobody waits in epoch e once everyone has entered it. */
  lemma {:induction false} NobodyWaitsForever(s: State, e: int, p: nat)
    requires Inv(s) && Stuck(s) && p < s.n
    requires forall q :: 0 <= q < s.n ==> s.entered[q] >= e
    ensures Completed(s, p) >= e
    decreases if InRound(s.pos[p]) then s.pos[p].i else 0
  {
    if Completed(s, p) < e {
      var i := s.pos[p].i;
      assert s.pos[p] == Waiting(i);
      var q := Sender(p, i, s.n);
      assert SlotOk(s, p, i);
      if Completed(s, q) < e && InRound(s.pos[q]) && s.pos[q].i < i {
        NobodyWaitsForever(s, e, q);
      }
    }
  }

  /** No deadlock: as long as a PE is inside a call that everyone has entered, something can move. */
  lemma NoDeadlock(run: seq<State>, k: nat, e: int)
    requires IsRun(run) && k < |run| && Shape(run[k])
    requires forall q :: 0 <= q < run[k].n ==> run[k].entered[q] >= e
    requires exists p :: 0 <= p < run[k].n && Completed(run[k], p) < e
    ensures !Stuck(run[k])
  {
    RunKeepsInv(run, k);
    if Stuck(run[k]) {
      var p :| 0 <= p < run[k].n && Completed(run[k], p) < e;
      NobodyWaitsForever(run[k], e, p);
    }
  }

  // ------------------------------------------------------------------ every call comes to an end

  /** Steps p has before it in the call it is in, an update it has yet to issue counting twice. */
  function StepsLeft(s: State, p: nat): nat
    requires Shape(s) && p < s.n
  {
    var r := Rounds(s.n);
    match s.pos[p]
    case Outside => 0
    case Sending(i) => 5 * (r - i) + 1
    case Waiting(i) => 5 * (r - i) - 1
    case Clearing(i) => 5 * (r - i) - 2
    case Quieting => 1
  }

  /** What one call costs a PE at most: 5 a round, the quiet, and the entry. */
  function CallCost(n: nat): nat {
    5 * Rounds(n) + 2
  }

  ghost predicate Within(s: State, e: nat) {
    && Shape(s)
    && forall p :: 0 <= p < s.n ==> s.entered[p] <= e
  }

  /** Steps left for p when it makes e calls in all: the calls to come and the rest of this one. */
  function Todo(s: State, e: nat, p: nat): nat
    requires Shape(s) && p < s.n && s.entered[p] <= e
  {
    AllCalls(e - s.entered[p], CallCost(s.n)) + StepsLeft(s, p)
  }

  ghost function Todos(s: State, e: nat): (ms: seq<nat>)
    requires Within(s, e)
    ensures |ms| == s.n && forall p :: 0 <= p < s.n ==> ms[p] == Todo(s, e, p)
  {
    seq(s.n, p requires 0 <= p < s.n => Todo(s, e, p))
  }

  /** The work left: the steps of the PEs and the updates in flight. */
  ghost function Work(s: State, e: nat): nat
    requires Within(s, e)
  {
    Sum(Todos(s, e)) + Total(s.adds) + Total(s.subs)
  }

  /** A step of p, an entry included, does some of p's own work, two for the steps that issue an update. */
  lemma AdvanceDoes(s: State, e: nat, p: nat)
    requires p < s.n && Within(s, e) && CanAdvance(s, p) && Within(Advance(s, p), e)
    ensures Todo(Advance(s, p), e, p) + (if s.pos[p].Sending? || s.pos[p].Clearing? then 2 else 1) <= Todo(s, e, p)
  {
    if s.pos[p].Outside? {
      assert Advance(s, p).entered[p] == s.entered[p] + 1 <= e;
      OneCallLess(e - s.entered[p], CallCost(s.n));
    }
    hide AllCalls;
  }

  lemma AdvanceSpares(s: State, p: nat, q: nat)
    requires Shape(s) && p < s.n && CanAdvance(s, p) && q < s.n && q != p
    ensures var s' := Advance(s, p); s'.n == s.n && s'.entered[q] == s.entered[q] && s'.pos[q] == s.pos[q]
  {
  }

  /** An update issued is one more in flight. */
  lemma AdvanceIssues(s: State, p: nat)
    requires Shape(s) && p < s.n && CanAdvance(s, p)
    ensures Total(Advance(s, p).adds) + Total(Advance(s, p).subs)
         == Total(s.adds) + Total(s.subs) + (if s.pos[p].Sending? || s.pos[p].Clearing? then 1 else 0)
  {
    var s' := Advance(s, p);
    match s.pos[p]
    case Sending(i) => TotalUpdate(s.adds, s'.adds, Target(p, i, s.n), i);
    case Clearing(i) => TotalUpdate(s.subs, s'.subs, p, i);
    case _ =>
  }

  lemma AdvanceIsProgress(s: State, e: nat, p: nat)
    requires p < s.n && Within(s, e) && CanAdvance(s, p) && Within(Advance(s, p), e)
    ensures Work(Advance(s, p), e) < Work(s, e)
  {
    hide Advance, CanAdvance, Todo;
    var s' := Advance(s, p);
    var ms, ms' := Todos(s, e), Todos(s', e);
    assert s'.n == s.n by { SameSize(s, p); }
    AdvanceIssues(s, p);
    AdvanceDoes(s, e, p);
    forall q | 0 <= q < s.n && q != p ensures ms'[q] == ms[q] {
      AdvanceLeaves(s, e, p, q);
    }
    assert ms' == ms[p := ms'[p]];
    SumUpdate(ms, p, ms'[p]);
  }

  lemma SameSize(s: State, p: nat)
    requires Shape(s) && p < s.n && CanAdvance(s, p)
    ensures Advance(s, p).n == s.n
  {
  }

  lemma AdvanceLeaves(s: State, e: nat, p: nat, q: nat)
    requires p < s.n && Within(s, e) && CanAdvance(s, p) && Within(Advance(s, p), e) && q < s.n && q != p
    ensures Advance(s, p).n == s.n && Todo(Advance(s, p), e, q) == Todo(s, e, q)
  {
    hide Advance, CanAdvance;
    AdvanceSpares(s, p, q);
  }

  lemma DeliverAddIsProgress(s: State, e: nat, q: nat, i: nat)
    requires Within(s, e) && q < s.n && i < Rounds(s.n) && s.adds[q][i] > 0 && Within(DeliverAdd(s, q, i), e)
    ensures Work(DeliverAdd(s, q, i), e) < Work(s, e)
  {
    var s' := DeliverAdd(s, q, i);
    TotalUpdate(s.adds, s'.adds, q, i);
    assert Todos(s', e) == Todos(s, e);
  }

  lemma DeliverSubIsProgress(s: State, e: nat, q: nat, i: nat)
    requires Within(s, e) && q < s.n && i < Rounds(s.n) && s.subs[q][i] > 0 && Within(DeliverSub(s, q, i), e)
    ensures Work(DeliverSub(s, q, i), e) < Work(s, e)
  {
    var s' := DeliverSub(s, q, i);
    TotalUpdate(s.subs, s'.subs, q, i);
    assert Todos(s', e) == Todos(s, e);
  }

  /** Every step other than a new entry lowers the work left; so does an entry, out of a budget of e calls each. */
  lemma StepIsProgress(s: State, s': State, e: nat)
    requires Next(s, s') && Within(s, e) && Within(s', e)
    ensures Work(s', e) < Work(s, e)
  {
    hide Advance, DeliverAdd, DeliverSub, CanAdvance, Work;
    if p: nat :| p < s.n && CanAdvance(s, p) && s' == Advance(s, p) {
      AdvanceIsProgress(s, e, p);
    } else if q: nat, i: nat :| q < s.n && i < Rounds(s.n) && s.adds[q][i] > 0 && s' == DeliverAdd(s, q, i) {
      DeliverAddIsProgress(s, e, q, i);
    } else {
      var q: nat, i: nat :| q < s.n && i < Rounds(s.n) && s.subs[q][i] > 0 && s' == DeliverSub(s, q, i);
      DeliverSubIsProgress(s, e, q, i);
    }
  }

  /** Calls are only ever added. */
  lemma StepKeepsBudget(s: State, s': State, e: nat)
    requires Inv(s) && Next(s, s') && Within(s', e)
    ensures s'.n == s.n && Within(s, e)
  {
    hide SlotOk, RoundOk;
    forall p | 0 <= p < s.n ensures s.entered[p] <= e {
      assert s.entered[p] <= s'.entered[p];
    }
  }

  lemma FreshWork(s: State, e: nat)
    requires Init(s)
    ensures Within(s, e) && Work(s, e) <= s.n * (e * CallCost(s.n))
  {
    TotalZero(s.adds);
    TotalZero(s.subs);
    SumBound(Todos(s, e), e * CallCost(s.n));
  }

  /** A run in which no PE enters more than e barriers is no longer than this. */
  lemma {:induction false} RunsAreBounded(run: seq<State>, k: nat, e: nat)
    requires IsRun(run) && k < |run| && Within(run[k], e)
    ensures k + Work(run[k], e) <= run[k].n * (e * CallCost(run[k].n))
  {
    hide Next, Init, Work, CallCost;
    if k == 0 {
      FreshWork(run[0], e);
    } else {
      var s, s' := run[k - 1], run[k - 1 + 1];
      RunKeepsInv(run, k - 1);
      assert Next(s, s');
      StepKeepsBudget(s, s', e);
      RunsAreBounded(run, k - 1, e);
      StepIsProgress(s, s', e);
    }
  }

  /** No PE is more than one call ahead of another, so the first PE's calls bound everyone's. */
  lemma NobodyIsAhead(s: State)
    requires Inv(s)
    ensures s.entered[0] >= 0 && Within(s, s.entered[0] + 1)
  {
    forall p | 0 <= p < s.n ensures s.entered[p] <= s.entered[0] + 1 {
      CompletedMeansAllEntered(s, p, 0);
    }
  }

  ghost predicate AllEntered(s: State, e: int) {
    && Shape(s)
    && forall q :: 0 <= q < s.n ==> s.entered[q] >= e
  }

  ghost predicate AllCompleted(s: State, e: int) {
    && Shape(s)
    && forall q :: 0 <= q < s.n ==> Completed(s, q) >= e
  }

  /** What bounds a run that gets no further entry. */
  function LongestRun(s: State): int
    requires s.entered != []
  {
    s.n * ((s.entered[0] + 1) * CallCost(s.n))
  }

  lemma RunFits(run: seq<State>)
    requires IsRun(run)
    ensures var s := run[|run| - 1]; Inv(s) && s.entered != [] && |run| - 1 <= LongestRun(s)
  {
    hide Next, Init, SlotOk, RoundOk, CallCost;
    var s := run[|run| - 1];
    RunKeepsInv(run, |run| - 1);
    NobodyIsAhead(s);
    RunsAreBounded(run, |run| - 1, s.entered[0] + 1);
  }

  /**
    Every wait is reached.  A run in which every PE has entered its e-th call can be continued,
    without any further entry, until every PE has returned from that call.
  */
  lemma {:induction false} RunsComplete(run: seq<State>, e: int) returns (run': seq<State>)
    requires IsRun(run) && AllEntered(run[|run| - 1], e)
    ensures IsRun(run') && run <= run'
    ensures run'[|run'| - 1].entered == run[|run| - 1].entered && AllCompleted(run'[|run'| - 1], e)
    decreases LongestRun(run[|run| - 1]) - |run|
  {
    hide Next, Init, SlotOk, RoundOk, CallCost;
    var s := run[|run| - 1];
    RunFits(run);
    if Stuck(s) {
      run' := run;
      forall p | 0 <= p < s.n ensures Completed(s, p) >= e {
        NobodyWaitsForever(s, e, p);
      }
    } else {
      var s' := NextState(s);
      var longer := run + [s'];
      NextKeepsInv(s, s');
      RunFits(longer);
      run' := RunsComplete(longer, e);
    }
  }

  /** In a state that is not stuck some step other than an entry is possible. */
  lemma NextState(s: State) returns (s': State)
    requires Shape(s) && !Stuck(s)
    ensures Next(s, s') && s'.entered == s.entered && s'.n == s.n
  {
    if p: nat :| p < s.n && !s.pos[p].Outside? && CanAdvance(s, p) {
      s' := Advance(s, p);
    } else if q: nat, i: nat :| q < s.n && i < Rounds(s.n) && s.adds[q][i] > 0 {
      s' := DeliverAdd(s, q, i);
    } else {
      var q: nat, i: nat :| q < s.n && i < Rounds(s.n) && s.subs[q][i] > 0;
      s' := DeliverSub(s, q, i);
    }
  }

  // ------------------------------------------------------------------ every epoch happens

  /** A PE that has completed all its calls enters the next one. */
  lemma EnterOne(s: State, e: nat, p: nat) returns (s': State)
    requires Inv(s) && AllCompleted(s, e) && p < s.n && s.entered[p] <= e
    ensures Next(s, s') && s'.n == s.n && s'.entered == s.entered[p := e + 1] && AllCompleted(s', e)
  {
    hide SlotOk, RoundOk;
    assert Completed(s, p) >= e && s.pos[p].Outside?;
    s' := Advance(s, p);
    forall q | 0 <= q < s.n ensures Completed(s', q) >= e {
      assert Completed(s, q) >= e;
    }
  }

  ghost predicate FirstEntered(s: State, e: int, m: nat) {
    && Shape(s) && m <= s.n
    && forall p :: 0 <= p < m ==> s.entered[p] >= e
  }

  /** If everyone is through e calls, everyone can start one more. */
  lemma {:induction false} EnterAll(run: seq<State>, e: nat, m: nat) returns (run': seq<State>)
    requires IsRun(run) && AllCompleted(run[|run| - 1], e) && m <= run[|run| - 1].n
    ensures IsRun(run') && run <= run' && run'[|run'| - 1].n == run[|run| - 1].n && AllCompleted(run'[|run'| - 1], e)
    ensures FirstEntered(run'[|run'| - 1], e + 1, m)
  {
    hide Next, Init, SlotOk, RoundOk;
    run' := run;
    if m > 0 {
      run' := EnterAll(run, e, m - 1);
      var s := run'[|run'| - 1];
      RunKeepsInv(run', |run'| - 1);
      if s.entered[m - 1] <= e {
        var s' := EnterOne(s, e, m - 1);
        run' := run' + [s'];
      }
    }
  }

  lemma NoneCompletedYet(s: State)
    requires Init(s)
    ensures AllCompleted(s, 0)
  {
  }

  /** A state before the first call, every slot 0. */
  function FreshState(n: nat): State {
    var zeros: seq<nat> := seq(Rounds(n), _ => 0);
    State(n, seq(n, _ => 0), seq(n, _ => Outside), seq(n, _ => seq(Rounds(n), _ => 0)), seq(n, _ => zeros), seq(n, _ => zeros))
  }

  lemma EveryBarrierStarts(n: nat)
    requires n > 0
    ensures Init(FreshState(n))
  {
  }

  /** Any number of calls can be made one after the other, and all of them return. */
  lemma {:induction false} EveryEpochHappens(start: State, e: nat) returns (run: seq<State>)
    requires Init(start)
    ensures IsRun(run) && run[0] == start && AllCompleted(run[|run| - 1], e)
  {
    hide Next, Init, SlotOk, RoundOk;
    if e == 0 {
      run := [start];
      NoneCompletedYet(start);
    } else {
      run := EveryEpochHappens(start, e - 1);
      var all := EnterAll(run, e - 1, run[|run| - 1].n);
      run := RunsComplete(all, e);
    }
  }
}
