/**
  The distributed MCS queue lock of src/shmem_lock.h as a transition system.

  One step is one remote atomic operation: a swap, compare-and-swap, masked swap, fetch or
  set on a lock word.  Any PE may take the next step.  `last` is the queue tail kept on PE 0;
  `data[p]` is the lock word of PE p, which packs a signal bit and a 31-bit successor id.
  Ids are stored as PE + 1, so 0 means "none".
*/
module McsLock {
  import opened Arith

  const HIGH_BIT: nat := 0x8000_0000

  /** The part of a lock word selected by NEXT_MASK. */
  function NextOf(word: nat): nat {
    word % HIGH_BIT
  }

  /** The part of a lock word selected by SIGNAL_MASK. */
  predicate Signalled(word: nat) {
    word / HIGH_BIT % 2 == 1
  }

  /** Masked swap under NEXT_MASK. */
  function SwapNext(word: nat, value: nat): nat {
    word - word % HIGH_BIT + value % HIGH_BIT
  }

  /** Masked swap of SIGNAL_MASK under SIGNAL_MASK. */
  function SwapSignal(word: nat): nat {
    if Signalled(word) then word else word + HIGH_BIT
  }

  /** A masked swap changes the selected part of the word and nothing else. */
  lemma MaskedSwapsAreIndependent(word: nat, value: nat)
    requires value < HIGH_BIT
    ensures NextOf(SwapNext(word, value)) == value
    ensures Signalled(SwapNext(word, value)) == Signalled(word)
    ensures NextOf(SwapSignal(word)) == NextOf(word)
    ensures Signalled(SwapSignal(word))
  {
    var w' := SwapNext(word, value);
    assert w' == word / HIGH_BIT * HIGH_BIT + value;
    assert w' / HIGH_BIT == word / HIGH_BIT;
    assert (word + HIGH_BIT) / HIGH_BIT == word / HIGH_BIT + 1;
    assert (word + HIGH_BIT) % HIGH_BIT == word % HIGH_BIT;
  }

  /**
    Where a PE stands.  Each constructor but Idle and Holding names the next atomic operation;
    SetSpin and ClearSpin are the two fetch loops.
  */
  datatype Pc =
    | Idle
    | SetZero              // set_lock: set own data to 0
    | SetSwap              // set_lock: swap own id into last
    | SetLink(pred: nat)   // set_lock: masked swap of own id into the predecessor's data
    | SetSpin              // set_lock: fetch own data until it is signalled
    | Holding
    | ClearCas             // clear_lock: compare-and-swap last from own id to 0
    | ClearSpin            // clear_lock: fetch own data until it names a successor
    | ClearSignal(succ: nat) // clear_lock: masked swap of the signal bit into the successor's data
    | TestZero             // test_lock: set own data to 0
    | TestCas              // test_lock: compare-and-swap last from 0 to own id

  /** The call a PE starts, or Advance for the next operation of the call it is in. */
  datatype Action = CallSet | CallTest | CallClear | Advance

  /**
    Lock words and program counters, with histories that no step reads: the PEs in the order
    their ids entered `last`, each PE's place in that order, how many have released, and the
    PEs in the order they acquired the lock.
  */
  datatype State = State(
    last: nat, data: seq<nat>, pc: seq<Pc>,
    arrivals: seq<nat>, place: seq<nat>, released: nat, grants: seq<nat>)

  predicate InRange(s: State) {
    && |s.data| == |s.pc| == |s.place|
    && 0 < |s.pc| < HIGH_BIT
    && (forall p :: 0 <= p < |s.pc| && s.pc[p].SetLink? ==> s.pc[p].pred < |s.pc|)
    && (forall p :: 0 <= p < |s.pc| && s.pc[p].ClearSignal? ==> s.pc[p].succ < |s.pc|)
  }

  predicate Init(s: State) {
    && InRange(s)
    && s.last == 0
    && (forall p :: 0 <= p < |s.pc| ==> s.pc[p] == Idle)
    && s.arrivals == [] && s.released == 0 && s.grants == []
  }

  /** The caller's side: only an idle PE starts set or test, only the holder starts clear. */
  predicate Callable(s: State, p: nat, a: Action)
    requires p < |s.pc|
  {
    match a
    case CallSet => s.pc[p].Idle?
    case CallTest => s.pc[p].Idle?
    case CallClear => s.pc[p].Holding?
    case Advance => true
  }

  function Goto(s: State, p: nat, pc: Pc): State
    requires p < |s.pc|
  {
    s.(pc := s.pc[p := pc])
  }

  /** PE p's id enters `last`. */
  function Arrive(s: State, p: nat): State
    requires p < |s.place|
  {
    s.(last := p + 1, arrivals := s.arrivals + [p], place := s.place[p := |s.arrivals|])
  }

  /** One atomic operation of PE p.  A spin whose condition is false leaves the state alone. */
  function Step(s: State, p: nat, a: Action): State
    requires InRange(s) && p < |s.pc| && Callable(s, p, a)
  {
    match a
    case CallSet => Goto(s, p, SetZero)
    case CallTest => Goto(s, p, TestZero)
    case CallClear => Goto(s, p, ClearCas)
    case Advance =>
      match s.pc[p]
      case Idle => s
      case Holding => s
      case SetZero => Goto(s.(data := s.data[p := 0]), p, SetSwap)
      case SetSwap =>
        if s.last == 0 then Goto(Arrive(s, p).(grants := s.grants + [p]), p, Holding)
        else if s.last <= |s.pc| then Goto(Arrive(s, p), p, SetLink(s.last - 1))
        else s
      case SetLink(pred) =>
        Goto(s.(data := s.data[pred := SwapNext(s.data[pred], p + 1)]), p, SetSpin)
      case SetSpin =>
        if Signalled(s.data[p]) then Goto(s.(grants := s.grants + [p]), p, Holding) else s
      case ClearCas =>
        if s.last == p + 1 then Goto(s.(last := 0, released := s.released + 1), p, Idle)
        else Goto(s, p, ClearSpin)
      case ClearSpin =>
        if 0 < NextOf(s.data[p]) <= |s.pc| then Goto(s, p, ClearSignal(NextOf(s.data[p]) - 1)) else s
      case ClearSignal(succ) =>
        Goto(s.(data := s.data[succ := SwapSignal(s.data[succ])], released := s.released + 1), p, Idle)
      case TestZero => Goto(s.(data := s.data[p := 0]), p, TestCas)
      case TestCas =>
        if s.last == 0 then Goto(Arrive(s, p).(grants := s.grants + [p]), p, Holding)
        else Goto(s, p, Idle)
  }

  // ------------------------------------------------------------------ the queue invariant

  /** Past the operation that put it in `last`, and not yet released. */
  predicate Queued(pc: Pc) {
    pc.SetLink? || pc.SetSpin? || Owns(pc)
  }

  /** Between a successful acquire and the end of the release. */
  predicate Owns(pc: Pc) {
    pc.Holding? || pc.ClearCas? || pc.ClearSpin? || pc.ClearSignal?
  }

  /** The queue is arrivals[released..], and a queued PE knows its place in it. */
  ghost predicate QueueOk(s: State) {
    && InRange(s)
    && s.released <= |s.arrivals|
    && (forall i :: s.released <= i < |s.arrivals| ==>
          s.arrivals[i] < |s.pc| && s.place[s.arrivals[i]] == i && Queued(s.pc[s.arrivals[i]]))
    && (forall p :: 0 <= p < |s.pc| && Queued(s.pc[p]) ==>
          s.released <= s.place[p] < |s.arrivals| && s.arrivals[s.place[p]] == p)
  }

  /** Behind the head: linked to the predecessor and spinning, or about to link. */
  ghost predicate WaitsOk(s: State, i: nat)
    requires QueueOk(s) && s.released < i < |s.arrivals|
  {
    var me, pred := s.arrivals[i], s.arrivals[i - 1];
    && !Signalled(s.data[me])
    && (|| (s.pc[me] == SetSpin && NextOf(s.data[pred]) == me + 1)
        || (s.pc[me] == SetLink(pred) && NextOf(s.data[pred]) == 0))
  }

  /** The head owns the lock, or has been signalled and has not looked yet. */
  ghost predicate HeadOk(s: State)
    requires QueueOk(s) && s.released < |s.arrivals|
  {
    var head := s.arrivals[s.released];
    var pc := s.pc[head];
    && (pc == SetSpin || Owns(pc))
    && (pc == SetSpin ==> Signalled(s.data[head]))
    && (pc == ClearSpin || pc.ClearSignal? ==> s.released + 1 < |s.arrivals|)
    && (pc.ClearSignal? ==> pc.succ == s.arrivals[s.released + 1] && s.pc[pc.succ] == SetSpin)
  }

  /** `last` names the newest arrival, whose successor field is still empty. */
  ghost predicate TailOk(s: State)
    requires QueueOk(s)
  {
    if s.released == |s.arrivals| then s.last == 0
    else
      var tail := s.arrivals[|s.arrivals| - 1];
      s.last == tail + 1 && NextOf(s.data[tail]) == 0
  }

  /** Acquires follow the order of arrivals, one at a time. */
  ghost predicate GrantsOk(s: State)
    requires QueueOk(s)
  {
    && s.released <= |s.grants| <= |s.arrivals|
    && s.grants == s.arrivals[..|s.grants|]
    && |s.grants| == s.released +
         (if s.released < |s.arrivals| && Owns(s.pc[s.arrivals[s.released]]) then 1 else 0)
  }

  ghost predicate Inv(s: State) {
    && QueueOk(s)
    && TailOk(s)
    && GrantsOk(s)
    && (s.released < |s.arrivals| ==> HeadOk(s))
    && (forall i :: s.released < i < |s.arrivals| ==> WaitsOk(s, i))
    && (forall p :: 0 <= p < |s.pc| && (s.pc[p].SetSwap? || s.pc[p].TestCas?) ==> s.data[p] == 0)
  }

  lemma InitEstablishesInv(s: State)
    requires Init(s)
    ensures Inv(s)
  {
  }

  /** A PE that owns the lock is at the head of the queue. */
  lemma OwnerIsHead(s: State, p: nat)
    requires Inv(s) && p < |s.pc| && Owns(s.pc[p])
    ensures s.released < |s.arrivals| && s.arrivals[s.released] == p
  {
    assert s.released < s.place[p] ==> WaitsOk(s, s.place[p]);
  }

  /** Only the head of the queue can find its signal bit set. */
  lemma SignalledIsHead(s: State, p: nat)
    requires Inv(s) && p < |s.pc| && s.pc[p].SetSpin? && Signalled(s.data[p])
    ensures s.released < |s.arrivals| && s.arrivals[s.released] == p
  {
    assert s.released < s.place[p] ==> WaitsOk(s, s.place[p]);
  }

  /** A linking PE is behind the PE it links to. */
  lemma LinkerIsBehindPred(s: State, p: nat)
    requires Inv(s) && p < |s.pc| && s.pc[p].SetLink?
    ensures s.released < s.place[p] < |s.arrivals|
    ensures s.arrivals[s.place[p]] == p && s.arrivals[s.place[p] - 1] == s.pc[p].pred
  {
    assert s.released < s.place[p] ==> WaitsOk(s, s.place[p]);
  }

  lemma OutsiderKeepsQueue(s: State, p: nat, pc: Pc, data: seq<nat>)
    requires QueueOk(s) && p < |s.pc| && !Queued(s.pc[p]) && !Queued(pc) && |data| == |s.data|
    ensures QueueOk(Goto(s.(data := data), p, pc)) == true
    ensures forall i :: s.released <= i < |s.arrivals| ==> s.arrivals[i] != p
  {
    hide NextOf, Signalled;
  }

  /** A PE outside the queue moves and stays outside: it may only zero its own word. */
  lemma OutsiderKeepsInv(s: State, p: nat, pc: Pc, data: seq<nat>)
    requires Inv(s) && p < |s.pc| && !Queued(s.pc[p]) && !Queued(pc)
    requires data == s.data[p := 0] || (data == s.data && !pc.SetSwap? && !pc.TestCas?)
    ensures Inv(Goto(s.(data := data), p, pc)) == true
  {
    hide NextOf, Signalled;
    var s' := Goto(s.(data := data), p, pc);
    OutsiderKeepsQueue(s, p, pc, data);
    forall i | s'.released < i < |s'.arrivals| ensures WaitsOk(s', i) {
      assert WaitsOk(s, i);
    }
  }

  /** A queued PE moves and stays queued. */
  lemma MemberKeepsQueue(s: State, p: nat, pc: Pc, grants: seq<nat>)
    requires QueueOk(s) && p < |s.pc| && Queued(s.pc[p]) && Queued(pc) && !pc.SetLink?
    requires pc.ClearSignal? ==> pc.succ < |s.pc|
    ensures QueueOk(Goto(s.(grants := grants), p, pc)) == true
  {
    hide NextOf, Signalled;
  }

  /** The owner moves and stays the owner. */
  lemma OwnerKeepsInv(s: State, p: nat, pc: Pc)
    requires Inv(s) && p < |s.pc| && Owns(s.pc[p]) && Owns(pc)
    requires pc.ClearSpin? || pc.ClearSignal? ==> s.released + 1 < |s.arrivals|
    requires pc.ClearSignal? ==> pc.succ == s.arrivals[s.released + 1] && s.pc[pc.succ] == SetSpin
    ensures Inv(Goto(s, p, pc)) == true
  {
    hide NextOf, Signalled;
    var s' := Goto(s, p, pc);
    OwnerIsHead(s, p);
    MemberKeepsQueue(s, p, pc, s.grants);
    forall i | s'.released < i < |s'.arrivals| ensures WaitsOk(s', i) {
      assert WaitsOk(s, i);
    }
  }

  /** A signalled waiter comes to own the lock. */
  lemma GrantKeepsInv(s: State, p: nat)
    requires Inv(s) && p < |s.pc| && s.pc[p].SetSpin? && Signalled(s.data[p])
    ensures Inv(Goto(s.(grants := s.grants + [p]), p, Holding)) == true
  {
    hide NextOf, Signalled;
    var s' := Goto(s.(grants := s.grants + [p]), p, Holding);
    SignalledIsHead(s, p);
    MemberKeepsQueue(s, p, Holding, s.grants + [p]);
    forall i | s'.released < i < |s'.arrivals| ensures WaitsOk(s', i) {
      assert WaitsOk(s, i);
    }
  }

  /** A waiter looks for the signal. */
  lemma AcquireKeepsInv(s: State, p: nat)
    requires Inv(s) && p < |s.pc| && s.pc[p].SetSpin?
    ensures Inv(Step(s, p, Advance)) == true
  {
    hide WaitsOk, HeadOk, TailOk, GrantsOk, NextOf, Signalled;
    if Signalled(s.data[p]) { GrantKeepsInv(s, p); }
  }

  /** Entering `last` leaves a well-formed queue with the newcomer at its end. */
  lemma ArrivalExtendsQueue(s: State, p: nat)
    requires Inv(s) && p < |s.pc|
    requires s.pc[p].SetSwap? || (s.pc[p].TestCas? && s.last == 0)
    ensures QueueOk(Step(s, p, Advance)) && TailOk(Step(s, p, Advance))
    ensures Step(s, p, Advance).arrivals == s.arrivals + [p]
    ensures forall i :: s.released <= i < |s.arrivals| ==> s.arrivals[i] != p
  {
  }

  /** Entering `last` leaves the earlier waiters waiting, and makes the newcomer one. */
  lemma ArrivalKeepsWaits(s: State, p: nat, i: nat)
    requires Inv(s) && p < |s.pc|
    requires s.pc[p].SetSwap? || (s.pc[p].TestCas? && s.last == 0)
    requires QueueOk(Step(s, p, Advance)) && s.released < i <= |s.arrivals|
    ensures WaitsOk(Step(s, p, Advance), i)
  {
    assert i < |s.arrivals| ==> WaitsOk(s, i);
  }

  /** Entering `last`: by set_lock's swap, or by test_lock's compare-and-swap when it is 0. */
  lemma ArrivalKeepsInv(s: State, p: nat)
    requires Inv(s) && p < |s.pc|
    requires s.pc[p].SetSwap? || (s.pc[p].TestCas? && s.last == 0)
    ensures Inv(Step(s, p, Advance))
  {
    var s' := Step(s, p, Advance);
    ArrivalExtendsQueue(s, p);
    forall i | s'.released < i < |s'.arrivals| ensures WaitsOk(s', i) {
      ArrivalKeepsWaits(s, p, i);
    }
  }

  /** Linking makes one waiter linked and leaves the others as they were. */
  lemma LinkKeepsWaits(s: State, p: nat, s': State, i: nat)
    requires Inv(s) && p < |s.pc| && s.pc[p].SetLink? && s' == Step(s, p, Advance)
    requires QueueOk(s') && s.released < i < |s.arrivals|
    ensures WaitsOk(s', i)
  {
    LinkerIsBehindPred(s, p);
    var k, pred := s.place[p], s.pc[p].pred;
    assert WaitsOk(s, k) && WaitsOk(s, i);
    MaskedSwapsAreIndependent(s.data[pred], p + 1);
    assert i != k ==> s.arrivals[i] != p && s.arrivals[i - 1] != pred;
  }

  /** set_lock's masked swap into the predecessor's word, even while that PE is releasing. */
  lemma LinkKeepsInv(s: State, p: nat, s': State)
    requires Inv(s) && p < |s.pc| && s.pc[p].SetLink? && s' == Step(s, p, Advance)
    ensures Inv(s')
  {
    LinkerIsBehindPred(s, p);
    assert WaitsOk(s, s.place[p]);
    MaskedSwapsAreIndependent(s.data[s.pc[p].pred], p + 1);
    LinkFrame(s, p, s');
    forall i | s'.released < i < |s'.arrivals| ensures WaitsOk(s', i) {
      LinkKeepsWaits(s, p, s', i);
    }
  }

  /** Linking leaves the order of the queue alone. */
  lemma LinkFrame(s: State, p: nat, s': State)
    requires Inv(s) && p < |s.pc| && s.pc[p].SetLink? && s' == Step(s, p, Advance)
    ensures QueueOk(s') && GrantsOk(s')
  {
    LinkerIsBehindPred(s, p);
  }

  /** clear_lock with nobody behind: the tail still names the releaser. */
  lemma ReleaseLastKeepsInv(s: State, p: nat)
    requires Inv(s) && p < |s.pc| && s.pc[p].ClearCas? && s.last == p + 1
    ensures Inv(Step(s, p, Advance))
  {
    OwnerIsHead(s, p);
    assert s.place[s.arrivals[|s.arrivals| - 1]] == |s.arrivals| - 1;
    assert QueueOk(Step(s, p, Advance));
  }

  /** clear_lock's hand-off: the signal reaches the PE that follows in the queue. */
  lemma SignalKeepsInv(s: State, p: nat)
    requires Inv(s) && p < |s.pc| && s.pc[p].ClearSignal?
    ensures Inv(Step(s, p, Advance))
  {
    var s' := Step(s, p, Advance);
    OwnerIsHead(s, p);
    var succ := s.pc[p].succ;
    MaskedSwapsAreIndependent(s.data[succ], 0);
    assert WaitsOk(s, s.released + 1);
    assert QueueOk(s');
    forall i | s'.released < i < |s'.arrivals| ensures WaitsOk(s', i) {
      assert WaitsOk(s, i);
      assert s.arrivals[i] != succ;
    }
  }

  /** Every operation of every PE keeps the queue invariant. */
  lemma StepKeepsInv(s: State, p: nat, a: Action)
    requires Inv(s) && p < |s.pc| && Callable(s, p, a)
    ensures Inv(Step(s, p, a)) == true
  {
    match a
    case CallSet => OutsiderKeepsInv(s, p, SetZero, s.data);
    case CallTest => OutsiderKeepsInv(s, p, TestZero, s.data);
    case CallClear => OwnerKeepsInv(s, p, ClearCas);
    case Advance => AdvanceKeepsInv(s, p);
  }

  lemma AdvanceKeepsInv(s: State, p: nat)
    requires Inv(s) && p < |s.pc|
    ensures Inv(Step(s, p, Advance)) == true
  {
    match s.pc[p]
    case Idle =>
    case Holding =>
    case SetZero => OutsiderKeepsInv(s, p, SetSwap, s.data[p := 0]);
    case TestZero => OutsiderKeepsInv(s, p, TestCas, s.data[p := 0]);
    case SetSwap => ArrivalKeepsInv(s, p);
    case TestCas => if s.last == 0 { ArrivalKeepsInv(s, p); } else { OutsiderKeepsInv(s, p, Idle, s.data); }
    case SetLink(_) => LinkKeepsInv(s, p, Step(s, p, Advance));
    case SetSpin => AcquireKeepsInv(s, p);
    case ClearCas => ClearCasKeepsInv(s, p);
    case ClearSpin => FindSuccessorKeepsInv(s, p);
    case ClearSignal(_) => SignalKeepsInv(s, p);
  }

  /** clear_lock's compare-and-swap. */
  lemma ClearCasKeepsInv(s: State, p: nat)
    requires Inv(s) && p < |s.pc| && s.pc[p].ClearCas?
    ensures Inv(Step(s, p, Advance))
  {
    OwnerIsHead(s, p);
    if s.last == p + 1 {
      ReleaseLastKeepsInv(s, p);
    } else {
      OwnerKeepsInv(s, p, ClearSpin);
    }
  }

  /** clear_lock's fetch loop: a non-zero successor field names the next PE in the queue. */
  lemma FindSuccessorKeepsInv(s: State, p: nat)
    requires Inv(s) && p < |s.pc| && s.pc[p].ClearSpin?
    ensures Inv(Step(s, p, Advance))
  {
    OwnerIsHead(s, p);
    assert WaitsOk(s, s.released + 1);
    if NextOf(s.data[p]) != 0 {
      OwnerKeepsInv(s, p, ClearSignal(s.arrivals[s.released + 1]));
    }
  }

  // ------------------------------------------------------------------ runs

  ghost predicate Next(s: State, s': State) {
    exists p: nat, a: Action :: InRange(s) && p < |s.pc| && Callable(s, p, a) && s' == Step(s, p, a)
  }

  lemma NextKeepsInv(s: State, s': State)
    requires Inv(s) && Next(s, s')
    ensures Inv(s') == true
  {
    var p: nat, a: Action :| InRange(s) && p < |s.pc| && Callable(s, p, a) && s' == Step(s, p, a);
    StepKeepsInv(s, p, a);
  }

  /** A finite run: it starts with the lock free and every PE idle. */
  ghost predicate IsRun(run: seq<State>) {
    && run != [] && Init(run[0])
    && forall k :: 0 <= k < |run| - 1 ==> Next(run[k], run[k + 1])
  }

  lemma {:induction false} RunKeepsInv(run: seq<State>, k: nat)
    requires IsRun(run) && k < |run|
    ensures Inv(run[k]) == true
  {
    if k == 0 {
      InitEstablishesInv(run[0]);
    } else {
      RunKeepsInv(run, k - 1);
      assert Next(run[k - 1], run[k - 1 + 1]);
      NextKeepsInv(run[k - 1], run[k]);
    }
  }

  /**
    Mutual exclusion.  In every state of every run, at most one PE is between a successful
    acquire, by set_lock or by test_lock, and the end of its release.
  */
  lemma MutualExclusion(run: seq<State>, k: nat, p: nat, q: nat)
    requires IsRun(run) && k < |run|
    requires p < |run[k].pc| && q < |run[k].pc| && Owns(run[k].pc[p]) && Owns(run[k].pc[q])
    ensures p == q
  {
    RunKeepsInv(run, k);
    OwnerIsHead(run[k], p);
    OwnerIsHead(run[k], q);
  }

  /**
    First come, first served.  PEs acquire the lock in exactly the order in which their ids
    entered `last`; every release but possibly the latest acquire is complete.
  */
  lemma GrantsFollowArrivals(run: seq<State>, k: nat)
    requires IsRun(run) && k < |run|
    ensures run[k].grants <= run[k].arrivals
    ensures run[k].released <= |run[k].grants| <= run[k].released + 1
    ensures |run[k].grants| > run[k].released <==>
            exists p :: 0 <= p < |run[k].pc| && Owns(run[k].pc[p])
  {
    RunKeepsInv(run, k);
    var s := run[k];
    forall p | 0 <= p < |s.pc| && Owns(s.pc[p]) ensures |s.grants| > s.released {
      OwnerIsHead(s, p);
    }
    if |s.grants| > s.released { assert Owns(s.pc[s.arrivals[s.released]]); }
  }

  /**
    test_lock's compare-and-swap acquires exactly when no PE is queued; otherwise the call
    fails and changes nothing but the caller's own position.
  */
  lemma TestLockOutcome(run: seq<State>, k: nat, p: nat)
    requires IsRun(run) && k < |run| && p < |run[k].pc| && run[k].pc[p] == TestCas
    ensures InRange(run[k])
    ensures var s := run[k]; var s' := Step(s, p, Advance);
            if forall q :: 0 <= q < |s.pc| ==> !Queued(s.pc[q])
            then s'.pc[p] == Holding && s'.grants == s.grants + [p] && s'.last == p + 1
            else s' == s.(pc := s.pc[p := Idle])
  {
    RunKeepsInv(run, k);
    var s := run[k];
    if s.released < |s.arrivals| { assert Queued(s.pc[s.arrivals[s.released]]); }
  }

  // ------------------------------------------------------------------ no lost wake-up

  /** Operations left before the lock changes hands, once the head is asked to move. */
  ghost function Distance(s: State): nat
    requires Inv(s)
  {
    if s.released == |s.arrivals| then 0 else
    var linking := s.released + 1 == |s.arrivals| || s.pc[s.arrivals[s.released + 1]].SetLink?;
    match s.pc[s.arrivals[s.released]]
    case ClearCas => if linking then 5 else 4
    case ClearSpin => if linking then 4 else 3
    case ClearSignal(_) => 2
    case SetSpin => 1
    case _ => 0
  }

  /**
    The PE whose next operation brings the hand-off closer: the head, or the PE behind it
    while the head spins on a successor field that is still empty.
  */
  ghost function Helper(s: State): nat
    requires Inv(s) && Distance(s) > 0
  {
    var head := s.arrivals[s.released];
    if s.pc[head].ClearSpin? && NextOf(s.data[head]) == 0 then s.arrivals[s.released + 1] else head
  }

  /** The head of the queue has started clear_lock. */
  ghost predicate Releasing(s: State)
    requires Inv(s)
  {
    && s.released < |s.arrivals|
    && var pc := s.pc[s.arrivals[s.released]];
    pc.ClearCas? || pc.ClearSpin? || pc.ClearSignal?
  }

  /** The next in line links while the head spins: one operation less to go. */
  lemma LinkingHelps(s: State, p: nat, head: nat)
    requires Inv(s) && s.released + 1 < |s.arrivals|
    requires head == s.arrivals[s.released] && p == s.arrivals[s.released + 1]
    requires s.pc[head].ClearSpin? && s.pc[p].SetLink?
    ensures Inv(Step(s, p, Advance)) == true
    ensures Distance(Step(s, p, Advance)) == 3
  {
    AdvanceKeepsInv(s, p);
    var s' := Step(s, p, Advance);
    assert s'.arrivals == s.arrivals && s'.released == s.released && s'.pc == s.pc[p := SetSpin];
  }

  /** The head's own operation brings it nearer the end of its release. */
  lemma HeadHelps(s: State, head: nat)
    requires Inv(s) && s.released < |s.arrivals| && head == s.arrivals[s.released]
    requires Distance(s) > 0 && (s.pc[head].ClearSpin? ==> NextOf(s.data[head]) != 0)
    ensures Inv(Step(s, head, Advance)) == true
    ensures Distance(Step(s, head, Advance)) < Distance(s)
  {
    if s.released + 1 < |s.arrivals| { assert WaitsOk(s, s.released + 1); }
    AdvanceKeepsInv(s, head);
  }

  /** The helper is in the middle of a call, and its next operation shortens the distance. */
  lemma HelperHelps(s: State)
    requires Inv(s) && Distance(s) > 0
    ensures Helper(s) < |s.pc| && !s.pc[Helper(s)].Idle? && !s.pc[Helper(s)].Holding?
    ensures Inv(Step(s, Helper(s), Advance)) == true
    ensures Distance(Step(s, Helper(s), Advance)) < Distance(s)
  {
    var head := s.arrivals[s.released];
    if s.released + 1 < |s.arrivals| { assert WaitsOk(s, s.released + 1); }
    if Helper(s) == head {
      HeadHelps(s, head);
    } else {
      LinkingHelps(s, Helper(s), head);
    }
  }

  /** A PE other than the head leaves the head where it is; only the next in line links to it. */
  lemma HeadUntouched(s: State, p: nat, a: Action)
    requires Inv(s) && s.released < |s.arrivals| && p < |s.pc| && Callable(s, p, a)
    requires p != s.arrivals[s.released]
    ensures var s' := Step(s, p, a); var head := s.arrivals[s.released];
            && s'.released == s.released && s.arrivals <= s'.arrivals && |s'.pc| == |s.pc| == |s'.data|
            && s'.pc[head] == s.pc[head]
            && (s'.data[head] == s.data[head] ||
                (s.pc[p].SetLink? && s.released + 1 < |s.arrivals| && p == s.arrivals[s.released + 1]))
            && (forall q :: 0 <= q < |s.pc| && q != p ==> s'.pc[q] == s.pc[q])
            && (Queued(s.pc[p]) ==> s'.pc[p] == s.pc[p] || s.pc[p].SetLink?)
  {
    if Owns(s.pc[p]) { OwnerIsHead(s, p); }
    else if s.pc[p].SetSpin? && Signalled(s.data[p]) { SignalledIsHead(s, p); }
    else if s.pc[p].SetLink? { LinkerIsBehindPred(s, p); }
  }

  /** No other PE can lengthen the distance or change who helps. */
  lemma OthersDoNotHinder(s: State, p: nat, a: Action)
    requires Inv(s) && Distance(s) > 0 && p < |s.pc| && Callable(s, p, a) && p != Helper(s)
    ensures Inv(Step(s, p, a)) == true
    ensures Distance(Step(s, p, a)) <= Distance(s)
    ensures Distance(Step(s, p, a)) == Distance(s) ==> Helper(Step(s, p, a)) == Helper(s)
  {
    hide TailOk, GrantsOk, NextOf, Signalled, SwapNext, SwapSignal, Arrive;
    StepKeepsInv(s, p, a);
    var s' := Step(s, p, a);
    var head := s.arrivals[s.released];
    if s.released + 1 < |s.arrivals| { assert WaitsOk(s, s.released + 1); }
    if p != head {
      HeadUntouched(s, p, a);
    } else {
      assert s' == s;
    }
  }

  // ------------------------------------------------------------------ liveness over infinite runs

  /** Step k of an infinite run is action act(k) of PE who(k). */
  ghost predicate StepAt(run: nat -> State, who: nat -> nat, act: nat -> Action, k: nat) {
    && InRange(run(k)) && who(k) < |run(k).pc| && Callable(run(k), who(k), act(k))
    && run(k + 1) == Step(run(k), who(k), act(k))
  }

  ghost predicate ScheduledAfter(who: nat -> nat, p: nat, k: nat) {
    exists j: nat :: k <= j && who(j) == p
  }

  ghost predicate LeavesHolding(run: nat -> State, p: nat, k: nat) {
    exists j: nat :: k <= j && p < |run(j).pc| && !run(j).pc[p].Holding?
  }

  /** A run without end. */
  ghost predicate EndlessRun(run: nat -> State, who: nat -> nat, act: nat -> Action) {
    && Init(run(0))
    && forall k: nat :: StepAt(run, who, act, k)
  }

  /** One in which every PE is scheduled again and again. */
  ghost predicate FairRun(run: nat -> State, who: nat -> nat, act: nat -> Action) {
    && EndlessRun(run, who, act)
    && (forall p: nat, k: nat :: p < |run(0).pc| ==> ScheduledAfter(who, p, k))
  }

  /** Every PE that holds the lock calls clear_lock sooner or later. */
  ghost predicate HoldersRelease(run: nat -> State) {
    forall p: nat, k: nat :: p < |run(k).pc| && run(k).pc[p].Holding? ==> LeavesHolding(run, p, k)
  }

  lemma {:induction false} FairRunKeepsInv(run: nat -> State, who: nat -> nat, act: nat -> Action, k: nat)
    requires FairRun(run, who, act) == true
    ensures Inv(run(k)) == true
    ensures |run(k).pc| == |run(0).pc|
  {
    if k == 0 {
      InitEstablishesInv(run(0));
    } else {
      FairRunKeepsInv(run, who, act, k - 1);
      assert StepAt(run, who, act, k - 1);
      StepKeepsInv(run(k - 1), who(k - 1), act(k - 1));
    }
  }

  /** A head that is releasing goes on releasing until it is gone. */
  lemma ReleasingGoesOn(s: State, p: nat, a: Action)
    requires Inv(s) && Releasing(s) && p < |s.pc| && Callable(s, p, a)
    ensures Inv(Step(s, p, a)) == true
    ensures Step(s, p, a).released == s.released + 1 ||
            (Step(s, p, a).released == s.released && Releasing(Step(s, p, a)))
  {
    StepKeepsInv(s, p, a);
    if p != s.arrivals[s.released] {
      HeadUntouched(s, p, a);
    }
  }

  /** A head that is not releasing stays the head; it moves on only by its own step. */
  lemma HeadStays(s: State, p: nat, a: Action)
    requires Inv(s) && s.released < |s.arrivals| && !Releasing(s) && p < |s.pc| && Callable(s, p, a)
    ensures Inv(Step(s, p, a)) == true
    ensures Step(s, p, a).released == s.released && s.arrivals <= Step(s, p, a).arrivals
    ensures var head := s.arrivals[s.released]; var pc' := Step(s, p, a).pc[head];
            if p != head then pc' == s.pc[head]
            else if a == CallClear then s.pc[head] == Holding && pc' == ClearCas
            else pc' == Holding
  {
    StepKeepsInv(s, p, a);
    if p != s.arrivals[s.released] {
      HeadUntouched(s, p, a);
    }
  }

  /** One step of a release: it ends, or comes nearer its end, or waits for the same helper. */
  lemma ReleaseStep(s: State, p: nat, a: Action, s': State)
    requires Inv(s) && Releasing(s) && p < |s.pc| && Callable(s, p, a) && s' == Step(s, p, a)
    ensures Inv(s') == true && Distance(s) > 0
    ensures s'.released == s.released + 1 || (s'.released == s.released && Releasing(s'))
    ensures s'.released == s.released && Distance(s') >= Distance(s) ==>
              p != Helper(s) && Distance(s') == Distance(s) && Helper(s') == Helper(s)
  {
    ReleasingGoesOn(s, p, a);
    if p == Helper(s) {
      HelperHelps(s);
      assert a == Advance;
    } else {
      OthersDoNotHinder(s, p, a);
    }
  }

  /** The same, for step k of a run. */
  lemma RunReleaseStep(run: nat -> State, who: nat -> nat, act: nat -> Action, k: nat)
    requires FairRun(run, who, act) == true && Inv(run(k)) == true && Releasing(run(k))
    ensures Inv(run(k + 1)) == true && Distance(run(k)) > 0
    ensures run(k + 1).released == run(k).released + 1 ||
            (run(k + 1).released == run(k).released && Releasing(run(k + 1)))
    ensures run(k + 1).released == run(k).released && Distance(run(k + 1)) >= Distance(run(k)) ==>
              who(k) != Helper(run(k)) && Distance(run(k + 1)) == Distance(run(k)) &&
              Helper(run(k + 1)) == Helper(run(k))
  {
    assert StepAt(run, who, act, k);
    ReleaseStep(run(k), who(k), act(k), run(k + 1));
  }

  /** Runs to the next step of the helper: by then the release is over or nearer its end. */
  lemma {:induction false} WalkToHelper(run: nat -> State, who: nat -> nat, act: nat -> Action, k: nat, m: nat)
    returns (i: nat)
    requires FairRun(run, who, act) == true && Inv(run(k)) == true && Releasing(run(k)) && Distance(run(k)) > 0
    requires k <= m && who(m) == Helper(run(k))
    ensures k < i && Inv(run(i)) == true
    ensures run(i).released == run(k).released + 1 ||
            (run(i).released == run(k).released && Releasing(run(i)) && Distance(run(i)) < Distance(run(k)))
    decreases m - k
  {
    RunReleaseStep(run, who, act, k);
    i := k + 1;
    if k < m && run(k + 1).released == run(k).released && Distance(run(k + 1)) >= Distance(run(k)) {
      i := WalkToHelper(run, who, act, k + 1, m);
    }
  }

  /** clear_lock returns: a release that has begun comes to its end. */
  lemma {:induction false} ReleaseEnds(run: nat -> State, who: nat -> nat, act: nat -> Action, k: nat)
    returns (j: nat)
    requires FairRun(run, who, act) == true && Inv(run(k)) == true && Releasing(run(k))
    ensures k < j && run(j).released == run(k).released + 1
    decreases Distance(run(k))
  {
    var p := Helper(run(k));
    HelperHelps(run(k));
    FairRunKeepsInv(run, who, act, k);
    assert ScheduledAfter(who, p, k);
    var m: nat :| k <= m && who(m) == p;
    j := WalkToHelper(run, who, act, k, m);
    if run(j).released == run(k).released {
      j := ReleaseEnds(run, who, act, j);
    }
  }

  /** Step k of a run while the head is not releasing. */
  lemma RunHeadStays(run: nat -> State, who: nat -> nat, act: nat -> Action, k: nat, head: nat)
    requires FairRun(run, who, act) == true && Inv(run(k)) == true
    requires run(k).released < |run(k).arrivals| && !Releasing(run(k)) && head == run(k).arrivals[run(k).released]
    ensures Inv(run(k + 1)) == true
    ensures run(k + 1).released == run(k).released && run(k).arrivals <= run(k + 1).arrivals
    ensures run(k + 1).arrivals[run(k + 1).released] == head
    ensures var pc, pc' := run(k).pc[head], run(k + 1).pc[head];
            if who(k) != head then pc' == pc
            else if act(k) == CallClear then pc == Holding && pc' == ClearCas
            else pc' == Holding
  {
    assert StepAt(run, who, act, k);
    HeadStays(run(k), who(k), act(k));
  }

  /** A signalled waiter comes to own the lock. */
  lemma {:induction false} SignalIsSeen(run: nat -> State, who: nat -> nat, act: nat -> Action, k: nat, m: nat)
    returns (j: nat)
    requires FairRun(run, who, act) == true && Inv(run(k)) == true && run(k).released < |run(k).arrivals|
    requires run(k).pc[run(k).arrivals[run(k).released]].SetSpin?
    requires k <= m && who(m) == run(k).arrivals[run(k).released]
    ensures k < j && Inv(run(j)) == true && run(j).released == run(k).released && run(k).arrivals <= run(j).arrivals
    ensures run(j).pc[run(k).arrivals[run(k).released]].Holding?
    decreases m - k
  {
    hide WaitsOk, TailOk, GrantsOk, HeadOk, NextOf, Signalled, Step, StepAt;
    var head := run(k).arrivals[run(k).released];
    RunHeadStays(run, who, act, k, head);
    j := k + 1;
    if k < m && who(k) != head {
      j := SignalIsSeen(run, who, act, k + 1, m);
    }
  }

  /** A holder that is seen not to hold at step m has started clear_lock by then. */
  lemma {:induction false} HolderStartsRelease(run: nat -> State, who: nat -> nat, act: nat -> Action, k: nat, m: nat)
    returns (j: nat)
    requires FairRun(run, who, act) == true && Inv(run(k)) == true && run(k).released < |run(k).arrivals|
    requires run(k).pc[run(k).arrivals[run(k).released]].Holding?
    requires k <= m && run(k).arrivals[run(k).released] < |run(m).pc|
    requires !run(m).pc[run(k).arrivals[run(k).released]].Holding?
    ensures k < j && Inv(run(j)) == true && Releasing(run(j)) && run(j).released == run(k).released
    decreases m - k
  {
    hide WaitsOk, TailOk, GrantsOk, HeadOk, NextOf, Signalled, Step, StepAt;
    var head := run(k).arrivals[run(k).released];
    RunHeadStays(run, who, act, k, head);
    j := k + 1;
    if k + 1 < m && run(k + 1).pc[head].Holding? {
      j := HolderStartsRelease(run, who, act, k + 1, m);
    }
  }

  /** A queue that is not empty moves up by one. */
  lemma QueueMoves(run: nat -> State, who: nat -> nat, act: nat -> Action, k: nat)
    returns (j: nat)
    requires FairRun(run, who, act) == true && HoldersRelease(run) == true
    requires Inv(run(k)) == true && run(k).released < |run(k).arrivals|
    ensures k < j && run(j).released == run(k).released + 1
  {
    var head := run(k).arrivals[run(k).released];
    assert HeadOk(run(k));
    FairRunKeepsInv(run, who, act, k);
    j := k;
    if run(j).pc[head].SetSpin? {
      assert ScheduledAfter(who, head, k);
      var m: nat :| k <= m && who(m) == head;
      j := SignalIsSeen(run, who, act, k, m);
    }
    if run(j).pc[head].Holding? {
      assert LeavesHolding(run, head, j);
      var m: nat :| j <= m && head < |run(m).pc| && !run(m).pc[head].Holding?;
      j := HolderStartsRelease(run, who, act, j, m);
    }
    j := ReleaseEnds(run, who, act, j);
  }

  /** A queued PE keeps its place until the queue has moved past it. */
  lemma StepKeepsPlace(s: State, p: nat, a: Action, q: nat)
    requires Inv(s) && p < |s.pc| && Callable(s, p, a)
    requires q < |s.pc| && Queued(s.pc[q]) && Step(s, p, a).released <= s.place[q]
    ensures var s' := Step(s, p, a);
            q < |s'.pc| && q < |s'.place| && Queued(s'.pc[q]) && s'.place[q] == s.place[q]
  {
    if Owns(s.pc[p]) { OwnerIsHead(s, p); }
  }

  lemma RunStepKeepsPlace(run: nat -> State, who: nat -> nat, act: nat -> Action, k: nat, q: nat)
    requires FairRun(run, who, act) == true && Inv(run(k)) == true
    requires q < |run(k).pc| && Queued(run(k).pc[q]) && run(k + 1).released <= run(k).place[q]
    ensures q < |run(k + 1).pc| && q < |run(k + 1).place|
    ensures Queued(run(k + 1).pc[q]) && run(k + 1).place[q] == run(k).place[q]
  {
    assert StepAt(run, who, act, k);
    StepKeepsPlace(run(k), who(k), act(k), q);
  }

  lemma RunReleasedGrows(run: nat -> State, who: nat -> nat, act: nat -> Action, k: nat)
    requires FairRun(run, who, act) == true
    ensures run(k).released <= run(k + 1).released
  {
    assert StepAt(run, who, act, k);
  }

  lemma {:induction false} RunKeepsPlace(run: nat -> State, who: nat -> nat, act: nat -> Action, k: nat, j: nat, q: nat)
    requires FairRun(run, who, act) == true && k <= j && q < |run(k).pc| && Inv(run(k)) == true && Queued(run(k).pc[q])
    requires run(j).released <= run(k).place[q]
    ensures Inv(run(j)) == true
    ensures q < |run(j).pc| && Queued(run(j).pc[q]) && run(j).place[q] == run(k).place[q]
    ensures run(k).released <= run(j).released
    decreases j - k
  {
    FairRunKeepsInv(run, who, act, j);
    if k < j {
      RunReleasedGrows(run, who, act, j - 1);
      RunKeepsPlace(run, who, act, k, j - 1, q);
      RunStepKeepsPlace(run, who, act, j - 1, q);
    }
  }

  /**
    No lost wake-up and no starvation.  If every PE keeps being scheduled and every holder
    calls clear_lock, a PE whose id has entered `last` comes to own the lock, however the
    releases ahead of it race with PEs that have swapped but not yet linked.
  */
  lemma {:induction false} EveryArrivalAcquires(run: nat -> State, who: nat -> nat, act: nat -> Action, k: nat, p: nat)
    returns (j: nat)
    requires FairRun(run, who, act) == true && HoldersRelease(run) == true
    requires p < |run(k).pc| && Queued(run(k).pc[p])
    ensures k <= j && p < |run(j).pc| && Owns(run(j).pc[p])
    decreases if Inv(run(k)) then run(k).place[p] - run(k).released else 0
  {
    FairRunKeepsInv(run, who, act, k);
    var s := run(k);
    if s.place[p] == s.released {
      assert HeadOk(s);
      j := k;
      if s.pc[p].SetSpin? {
        assert ScheduledAfter(who, p, k);
        var m: nat :| k <= m && who(m) == p;
        j := SignalIsSeen(run, who, act, k, m);
      }
    } else {
      var i := QueueMoves(run, who, act, k);
      RunKeepsPlace(run, who, act, k, i, p);
      j := EveryArrivalAcquires(run, who, act, i, p);
    }
  }

  // ------------------------------------------------------------------ whole calls

  predicate InSet(pc: Pc) {
    pc.SetZero? || pc.SetSwap? || pc.SetLink? || pc.SetSpin?
  }

  /** Step j gives the lock to PE p. */
  ghost predicate AcquiresAt(run: nat -> State, j: nat, p: nat) {
    && p < |run(j).pc| && p < |run(j + 1).pc|
    && !Owns(run(j).pc[p]) && run(j + 1).pc[p].Holding? && run(j + 1).grants == run(j).grants + [p]
  }

  /** The steps of others leave a PE where it is. */
  lemma OthersLeavePc(run: nat -> State, who: nat -> nat, act: nat -> Action, k: nat, p: nat)
    requires StepAt(run, who, act, k) && p < |run(k).pc|
    ensures |run(k + 1).pc| == |run(k).pc| && (who(k) != p ==> run(k + 1).pc[p] == run(k).pc[p])
  {
  }

  /** Inside set_lock a PE stays inside until it has the lock. */
  lemma SetGoesOn(run: nat -> State, who: nat -> nat, act: nat -> Action, k: nat, p: nat)
    requires StepAt(run, who, act, k) && p < |run(k).pc| && InSet(run(k).pc[p])
    ensures p < |run(k + 1).pc| && (InSet(run(k + 1).pc[p]) || AcquiresAt(run, k, p))
  {
    OthersLeavePc(run, who, act, k, p);
  }

  lemma {:induction false} SetInside(run: nat -> State, who: nat -> nat, act: nat -> Action, k: nat, j: nat, p: nat)
    requires EndlessRun(run, who, act) && who(k) == p && act(k) == CallSet && k < j
    ensures p < |run(j).pc| && (InSet(run(j).pc[p]) || exists i: nat :: k < i < j && AcquiresAt(run, i, p))
  {
    hide AcquiresAt;
    assert StepAt(run, who, act, k);
    if k + 1 < j {
      SetInside(run, who, act, k, j - 1, p);
      assert StepAt(run, who, act, j - 1);
      OthersLeavePc(run, who, act, j - 1, p);
      if InSet(run(j - 1).pc[p]) {
        SetGoesOn(run, who, act, j - 1, p);
        assert InSet(run(j).pc[p]) || AcquiresAt(run, j - 1, p);
      }
    }
  }

  /**
    set_lock returns only with the lock.  From the call on, a PE that is idle again, or that holds
    a lock at all, has been given the lock in between.
  */
  lemma SetReturnsWithLock(run: nat -> State, who: nat -> nat, act: nat -> Action, k: nat, j: nat, p: nat)
    requires EndlessRun(run, who, act) && who(k) == p && act(k) == CallSet && k < j
    requires p < |run(j).pc| && (run(j).pc[p].Idle? || Owns(run(j).pc[p]))
    ensures exists i: nat :: k < i < j && AcquiresAt(run, i, p)
  {
    SetInside(run, who, act, k, j, p);
  }

  /** The next step of a PE that is scheduled finds it where it is now. */
  lemma {:induction false} NextOwnStep(run: nat -> State, who: nat -> nat, act: nat -> Action, k: nat, p: nat, m: nat)
    returns (i: nat)
    requires EndlessRun(run, who, act) && p < |run(k).pc| && k <= m && who(m) == p
    ensures k <= i <= m && who(i) == p && p < |run(i).pc| && run(i).pc[p] == run(k).pc[p]
    ensures forall x {:trigger run(x)} :: k <= x <= i ==> p < |run(x).pc| && run(x).pc[p] == run(k).pc[p]
    decreases m - k
  {
    if who(k) == p {
      i := k;
    } else {
      assert StepAt(run, who, act, k);
      OthersLeavePc(run, who, act, k, p);
      i := NextOwnStep(run, who, act, k + 1, p, m);
    }
  }

  lemma OwnStep(run: nat -> State, who: nat -> nat, act: nat -> Action, k: nat, p: nat) returns (i: nat)
    requires FairRun(run, who, act) && p < |run(k).pc|
    ensures k <= i && who(i) == p && StepAt(run, who, act, i) && Inv(run(i)) == true
    ensures forall x {:trigger run(x)} :: k <= x <= i ==> p < |run(x).pc| && run(x).pc[p] == run(k).pc[p]
  {
    FairRunKeepsInv(run, who, act, k);
    assert ScheduledAfter(who, p, k);
    var m: nat :| k <= m && who(m) == p;
    i := NextOwnStep(run, who, act, k, p, m);
    FairRunKeepsInv(run, who, act, i);
  }

  /** A PE that is about to swap enters `last`. */
  lemma SwapEnters(s: State, p: nat)
    requires Inv(s) && p < |s.pc| && s.pc[p].SetSwap?
    ensures p < |Step(s, p, Advance).pc| && Queued(Step(s, p, Advance).pc[p])
  {
    if s.released < |s.arrivals| { assert s.arrivals[|s.arrivals| - 1] < |s.pc|; }
  }

  /** set_lock returns: if the holders release, every caller is given the lock. */
  lemma EverySetAcquires(run: nat -> State, who: nat -> nat, act: nat -> Action, k: nat, p: nat) returns (j: nat)
    requires FairRun(run, who, act) == true && HoldersRelease(run) == true
    requires who(k) == p && act(k) == CallSet
    ensures k < j && AcquiresAt(run, j, p)
  {
    hide Inv, AcquiresAt, HoldersRelease;
    assert StepAt(run, who, act, k);
    var zero := OwnStep(run, who, act, k + 1, p);
    var swap := OwnStep(run, who, act, zero + 1, p);
    SwapEnters(run(swap), p);
    var i := EveryArrivalAcquires(run, who, act, swap + 1, p);
    SetReturnsWithLock(run, who, act, k, i, p);
    j :| k < j < i && AcquiresAt(run, j, p);
  }

  /**
    test_lock returns.  Its last operation, at j, finds `last` either 0, and then the call returns
    with the lock, or not, and then it returns without and no other PE can tell.
  */
  lemma TestReturns(run: nat -> State, who: nat -> nat, act: nat -> Action, k: nat, p: nat) returns (j: nat)
    requires FairRun(run, who, act) == true && who(k) == p && act(k) == CallTest
    ensures k < j && who(j) == p && p < |run(j + 1).pc|
    ensures forall x {:trigger run(x)} :: k < x <= j ==>
              p < |run(x).pc| && !run(x).pc[p].Idle? && !Owns(run(x).pc[p])
    ensures if run(j).last == 0 then AcquiresAt(run, j, p) && run(j + 1).last == p + 1
            else run(j + 1).pc[p].Idle? && run(j + 1) == run(j).(pc := run(j + 1).pc)
  {
    hide Inv;
    assert StepAt(run, who, act, k);
    var zero := OwnStep(run, who, act, k + 1, p);
    j := OwnStep(run, who, act, zero + 1, p);
  }

  /** A release in progress is the head's, and ends with the head out of the call. */
  lemma ReleaseLeavesIdle(s: State, p: nat, a: Action)
    requires Inv(s) && Releasing(s) && p < |s.pc| && Callable(s, p, a)
    ensures Inv(Step(s, p, a)) == true
    ensures var s', head := Step(s, p, a), s.arrivals[s.released];
            if s'.released == s.released then Releasing(s') && s'.arrivals[s'.released] == head
            else s'.released == s.released + 1 && s'.pc[head].Idle?
  {
    ReleasingGoesOn(s, p, a);
    if p != s.arrivals[s.released] {
      HeadUntouched(s, p, a);
    } else if s.released + 1 < |s.arrivals| {
      assert WaitsOk(s, s.released + 1);
    }
  }

  lemma RunReleaseLeavesIdle(run: nat -> State, who: nat -> nat, act: nat -> Action, k: nat)
    requires EndlessRun(run, who, act) && Inv(run(k)) == true && Releasing(run(k))
    ensures run(k).released < |run(k).arrivals| && Inv(run(k + 1)) == true
    ensures var s, s', head := run(k), run(k + 1), run(k).arrivals[run(k).released];
            if s'.released == s.released then Releasing(s') && s'.released < |s'.arrivals| && s'.arrivals[s'.released] == head
            else s'.released == s.released + 1 && head < |s'.pc| && s'.pc[head].Idle?
  {
    assert StepAt(run, who, act, k);
    ReleaseLeavesIdle(run(k), who(k), act(k));
  }

  lemma {:induction false} HeadGoesIdle(run: nat -> State, who: nat -> nat, act: nat -> Action, k: nat, j: nat, p: nat)
    returns (i: nat)
    requires EndlessRun(run, who, act) && Inv(run(k)) == true && Releasing(run(k)) && run(k).arrivals[run(k).released] == p
    requires k <= j && run(j).released > run(k).released
    ensures k < i <= j && p < |run(i).pc| && run(i).pc[p].Idle? && run(i).released == run(k).released + 1
    decreases j - k
  {
    hide Inv, Step, StepAt, Releasing;
    RunReleaseLeavesIdle(run, who, act, k);
    i := k + 1;
    if run(k + 1).released == run(k).released {
      i := HeadGoesIdle(run, who, act, k + 1, j, p);
    }
  }

  /** clear_lock returns, and by then the lock has been handed on or is free. */
  lemma ClearReturns(run: nat -> State, who: nat -> nat, act: nat -> Action, k: nat, p: nat) returns (j: nat)
    requires FairRun(run, who, act) == true && who(k) == p && act(k) == CallClear
    ensures k < j && p < |run(j).pc| && run(j).pc[p].Idle? && run(j).released == run(k).released + 1
  {
    assert StepAt(run, who, act, k);
    FairRunKeepsInv(run, who, act, k);
    FairRunKeepsInv(run, who, act, k + 1);
    OwnerIsHead(run(k), p);
    j := ReleaseEnds(run, who, act, k + 1);
    j := HeadGoesIdle(run, who, act, k + 1, j, p);
  }

  // ---- such runs exist

  /** Everyone locks and unlocks for ever. */
  function Turn(s: State, p: nat): Action
    requires p < |s.pc|
  {
    if s.pc[p].Idle? then CallSet else if s.pc[p].Holding? then CallClear else Advance
  }

  function FreeLock(n: nat): State {
    State(0, seq(n, _ => 0), seq(n, _ => Idle), [], seq(n, _ => 0), 0, [])
  }

  /** The PEs take turns. */
  function RoundRobin(n: nat, k: nat): State
    requires n > 0
  {
    if k == 0 then FreeLock(n) else NextTurn(RoundRobin(n, k - 1), n, (k - 1) % n)
  }

  function NextTurn(s: State, n: nat, p: nat): State {
    if InRange(s) && |s.pc| == n && p < n then Step(s, p, Turn(s, p)) else s
  }

  lemma TurnKeepsInv(s: State, n: nat, p: nat)
    requires Inv(s) && |s.pc| == n && p < n
    ensures var s' := NextTurn(s, n, p);
            && s' == Step(s, p, Turn(s, p)) && Inv(s') == true && |s'.pc| == n
            && (s.pc[p].Holding? ==> !s'.pc[p].Holding?)
            && (forall q :: 0 <= q < n && q != p ==> s'.pc[q] == s.pc[q])
  {
    hide Step, WaitsOk, HeadOk, TailOk, GrantsOk;
    StepKeepsInv(s, p, Turn(s, p));
    TurnMoves(s, p);
  }

  lemma TurnMoves(s: State, p: nat)
    requires InRange(s) && p < |s.pc|
    ensures var s' := Step(s, p, Turn(s, p));
            && |s'.pc| == |s.pc| && (s.pc[p].Holding? ==> !s'.pc[p].Holding?)
            && (forall q :: 0 <= q < |s.pc| && q != p ==> s'.pc[q] == s.pc[q])
  {
    hide NextOf, Signalled, SwapNext, SwapSignal;
  }

  lemma {:induction false} RoundRobinRuns(n: nat, k: nat)
    requires 0 < n < HIGH_BIT
    ensures Inv(RoundRobin(n, k)) == true && |RoundRobin(n, k).pc| == n
  {
    hide Inv, NextTurn;
    if k == 0 {
      FreeLockIsFree(n);
      InitEstablishesInv(FreeLock(n));
    } else {
      RoundRobinRuns(n, k - 1);
      TurnKeepsInv(RoundRobin(n, k - 1), n, (k - 1) % n);
    }
  }

  lemma FreeLockIsFree(n: nat)
    requires 0 < n < HIGH_BIT
    ensures Init(FreeLock(n))
  {
  }

  function TurnAt(n: nat, k: nat): Action
    requires n > 0
  {
    var s := RoundRobin(n, k);
    if k % n < |s.pc| then Turn(s, k % n) else Advance
  }

  lemma RoundRobinStep(n: nat, k: nat)
    requires 0 < n < HIGH_BIT
    ensures InRange(RoundRobin(n, k)) && |RoundRobin(n, k).pc| == n == |RoundRobin(n, k + 1).pc|
    ensures Callable(RoundRobin(n, k), k % n, TurnAt(n, k))
    ensures RoundRobin(n, k + 1) == Step(RoundRobin(n, k), k % n, TurnAt(n, k))
    ensures RoundRobin(n, k).pc[k % n].Holding? ==> !RoundRobin(n, k + 1).pc[k % n].Holding?
    ensures forall q :: 0 <= q < n && q != k % n ==> RoundRobin(n, k + 1).pc[q] == RoundRobin(n, k).pc[q]
  {
    RoundRobinRuns(n, k);
    TurnKeepsInv(RoundRobin(n, k), n, k % n);
    hide Step, NextTurn, QueueOk, TailOk, GrantsOk, HeadOk, WaitsOk;
    assert RoundRobin(n, k + 1) == NextTurn(RoundRobin(n, k), n, k % n);
  }

  lemma TurnComes(n: nat, p: nat, k: nat)
    requires p < n
    ensures k * n + p >= k && (k * n + p) % n == p
  {
    DivModUnique(k * n + p, n, k, p);
    MulAtLeast(n, k);
  }

  ghost predicate CallsSet(who: nat -> nat, act: nat -> Action, p: nat) {
    exists k: nat :: who(k) == p && act(k) == CallSet
  }

  /** For any number of PEs there is a fair run whose holders release, with calls of set_lock by everyone. */
  lemma FairRunsExist(n: nat) returns (run: nat -> State, who: nat -> nat, act: nat -> Action)
    requires 0 < n < HIGH_BIT
    ensures FairRun(run, who, act) && HoldersRelease(run) && |run(0).pc| == n
    ensures forall p: nat :: p < n ==> CallsSet(who, act, p)
  {
    hide Step, RoundRobin, TurnAt;
    run, who, act := (k: nat) => RoundRobin(n, k), (k: nat) => k % n, (k: nat) => TurnAt(n, k);
    assert Init(run(0)) && |run(0).pc| == n by { FirstTurn(n); }
    forall k: nat ensures StepAt(run, who, act, k) {
      RoundRobinStep(n, k);
    }
    forall p: nat, k: nat | p < |run(0).pc| ensures ScheduledAfter(who, p, k) {
      TurnComes(n, p, k);
      assert who(k * n + p) == p;
    }
    forall p: nat, k: nat | p < |run(k).pc| && run(k).pc[p].Holding? ensures LeavesHolding(run, p, k) {
      RoundRobinStep(n, k);
      HolderGetsTurn(n, p, k, run);
    }
    forall p: nat | p < n ensures CallsSet(who, act, p) {
      OwnFirstTurn(n, p, p);
      assert who(p) == p && act(p) == CallSet by { FirstCall(n, p); }
    }
  }

  lemma FirstTurn(n: nat)
    requires 0 < n < HIGH_BIT
    ensures Init(RoundRobin(n, 0)) && |RoundRobin(n, 0).pc| == n
  {
    FreeLockIsFree(n);
  }

  lemma FirstCall(n: nat, p: nat)
    requires 0 < n && p % n == p && p < |RoundRobin(n, p).pc| && RoundRobin(n, p).pc[p].Idle?
    ensures TurnAt(n, p) == CallSet
  {
  }

  lemma HolderGetsTurn(n: nat, p: nat, k: nat, run: nat -> State)
    requires p < n < HIGH_BIT && forall x: nat :: run(x) == RoundRobin(n, x)
    ensures LeavesHolding(run, p, k)
  {
    hide Step, RoundRobin;
    TurnComes(n, p, k);
    var m := k * n + p;
    RoundRobinStep(n, m);
    assert !run(m).pc[p].Holding? || !run(m + 1).pc[p].Holding?;
  }

  /** In the first round every PE finds itself idle. */
  lemma {:induction false} OwnFirstTurn(n: nat, p: nat, k: nat)
    requires k <= p < n < HIGH_BIT
    ensures |RoundRobin(n, k).pc| == n && RoundRobin(n, k).pc[p].Idle? && p % n == p
  {
    hide Step, NextTurn;
    SmallMod(p, n);
    if k > 0 {
      OwnFirstTurn(n, p, k - 1);
      SmallMod(k - 1, n);
      RoundRobinStep(n, k - 1);
    }
  }
}
