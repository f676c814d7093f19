/**
  Team slots of src/shmem_team.c.  Every PE keeps a bitmap of the psync slots that are free and a
  pool of its live teams by slot.  The members of a new team agree on a slot by an AND-reduction
  of their bitmaps; teams are destroyed by each PE on its own.

  The bit operations work on byte arrays as in src/shmem_internal.h.  The protocol is a state
  machine over all PEs in which a bitmap is the set of its bits.
*/
module Teams {
  import opened Arith
  import opened Reduction
  import opened Wrappers

  // ------------------------------------------------------------------ bitmaps

  predicate ByteBit(b: bv8, j: nat)
    requires j < 8
  {
    (b >> j) & 1 == 1
  }

  predicate BitAt(s: seq<bv8>, k: nat)
    requires k < 8 * |s|
  {
    ByteBit(s[k / 8], k % 8)
  }

  /** The eight masks of one bit. */
  lemma Mask(j: nat)
    requires j < 8
    ensures (1 as bv8) << j == [1, 2, 4, 8, 16, 32, 64, 128][j]
  {
    assert j == 0 || j == 1 || j == 2 || j == 3 || j == 4 || j == 5 || j == 6 || j == 7;
  }

  lemma SetByteBit(b: bv8, j: nat, k: nat)
    requires j < 8 && k < 8
    ensures ByteBit(b | (1 << j), k) == (k == j || ByteBit(b, k))
  {
    Mask(j);
    var m: bv8 := 1 << j;
    if k == 0 { } else if k == 1 { } else if k == 2 { } else if k == 3 { }
    else if k == 4 { } else if k == 5 { } else if k == 6 { } else { assert k == 7; }
  }

  lemma InverseMask(j: nat)
    requires j < 8
    ensures !((1 as bv8) << j) == [254, 253, 251, 247, 239, 223, 191, 127][j]
  {
    assert j == 0 || j == 1 || j == 2 || j == 3 || j == 4 || j == 5 || j == 6 || j == 7;
  }

  lemma ClearWith(b: bv8, m: bv8, j: nat, k: nat)
    requires j < 8 && k < 8 && m == [254, 253, 251, 247, 239, 223, 191, 127][j]
    ensures ByteBit(b & m, k) == (k != j && ByteBit(b, k))
  {
    AndByteBit(b, m, k);
    ClearMaskBit(m, j, k);
  }

  lemma ClearMaskBit(m: bv8, j: nat, k: nat)
    requires j < 8 && k < 8 && m == [254, 253, 251, 247, 239, 223, 191, 127][j]
    ensures ByteBit(m, k) == (k != j)
  {
    if k == 0 { } else if k == 1 { } else if k == 2 { } else if k == 3 { }
    else if k == 4 { } else if k == 5 { } else if k == 6 { } else { assert k == 7; }
  }

  lemma ClearByteBit(b: bv8, j: nat, k: nat)
    requires j < 8 && k < 8
    ensures ByteBit(b & !(1 << j), k) == (k != j && ByteBit(b, k))
  {
    InverseMask(j);
    var m: bv8 := !(1 << j);
    hide ByteBit;
    ClearWith(b, m, j, k);
  }

  /** A bit of the bytewise AND of two bitmaps. */
  lemma AndByteBit(b: bv8, c: bv8, k: nat)
    requires k < 8
    ensures ByteBit(b & c, k) == (ByteBit(b, k) && ByteBit(c, k))
  {
    if k == 0 { } else if k == 1 { } else if k == 2 { } else if k == 3 { }
    else if k == 4 { } else if k == 5 { } else if k == 6 { } else { assert k == 7; }
  }

  method BitSet(ptr: array<bv8>, index: nat)
    requires index < 8 * ptr.Length
    modifies ptr
    ensures forall k :: 0 <= k < 8 * ptr.Length ==> BitAt(ptr[..], k) == (k == index || BitAt(old(ptr[..]), k))
  {
    var which := index / 8;
    ghost var was := ptr[..];
    ptr[which] := ptr[which] | (1 << (index % 8));
    forall k | 0 <= k < 8 * ptr.Length ensures BitAt(ptr[..], k) == (k == index || BitAt(was, k)) {
      if k / 8 == which { SetByteBit(was[which], index % 8, k % 8); }
    }
  }

  method BitClear(ptr: array<bv8>, index: nat)
    requires index < 8 * ptr.Length
    modifies ptr
    ensures forall k :: 0 <= k < 8 * ptr.Length ==> BitAt(ptr[..], k) == (k != index && BitAt(old(ptr[..]), k))
  {
    var which := index / 8;
    ghost var was := ptr[..];
    ptr[which] := ptr[which] & !(1 << (index % 8));
    forall k | 0 <= k < 8 * ptr.Length ensures BitAt(ptr[..], k) == (k != index && BitAt(was, k)) {
      if k / 8 == which { ClearByteBit(was[which], index % 8, k % 8); }
    }
  }

  lemma ShiftByteBit(b: bv8, j: nat, k: nat)
    requires j < 8 && k < 8 && j + k < 8
    ensures ByteBit(b >> j, k) == ByteBit(b, j + k)
  {
    assert j == 0 || j == 1 || j == 2 || j == 3 || j == 4 || j == 5 || j == 6 || j == 7;
    assert k == 0 || k == 1 || k == 2 || k == 3 || k == 4 || k == 5 || k == 6 || k == 7;
  }

  /** The least significant set bit of one byte, if there is one. */
  method ByteFirst(b: bv8) returns (j: nat)
    ensures j <= 8 && (j < 8 ==> ByteBit(b, j)) && forall k :: 0 <= k < j && k < 8 ==> !ByteBit(b, k)
  {
    j := 0;
    var v := b;
    while v != 0 && j < 8
      invariant j <= 8 && v == (if j < 8 then b >> j else 0)
      invariant forall k :: 0 <= k < j ==> !ByteBit(b, k)
      decreases 8 - j
    {
      if v & 1 == 1 { return; }
      NextShift(b, j);
      v := v >> 1;
      j := j + 1;
    }
    if v == 0 && j < 8 {
      NoMoreBits(b, j);
      j := 8;
    }
  }

  lemma NextShift(b: bv8, j: nat)
    requires j < 8
    ensures (b >> j) >> 1 == if j + 1 < 8 then b >> (j + 1) else 0
  {
    assert j == 0 || j == 1 || j == 2 || j == 3 || j == 4 || j == 5 || j == 6 || j == 7;
  }

  lemma NoMoreBits(b: bv8, j: nat)
    requires j < 8 && b >> j == 0
    ensures forall k :: j <= k < 8 ==> !ByteBit(b, k)
  {
    forall k | j <= k < 8 ensures !ByteBit(b, k) {
      ShiftByteBit(b, j, k - j);
    }
  }

  /** r is the lowest set bit, or -1 when no bit is set. */
  predicate IsFirst(ptr: seq<bv8>, r: int) {
    && (r == -1 <==> forall k :: 0 <= k < 8 * |ptr| ==> !BitAt(ptr, k))
    && (r != -1 ==> 0 <= r < 8 * |ptr| && BitAt(ptr, r) && forall k :: 0 <= k < r ==> !BitAt(ptr, k))
  }

  /** The least significant set bit of the bitmap, or -1. */
  method FirstNonzero(ptr: seq<bv8>) returns (r: int)
    ensures IsFirst(ptr, r)
  {
    for i := 0 to |ptr|
      invariant forall k :: 0 <= k < 8 * i ==> !BitAt(ptr, k)
    {
      var j := ByteFirst(ptr[i]);
      forall k | 8 * i <= k < 8 * i + j && k < 8 * |ptr| && k / 8 == i ensures !BitAt(ptr, k) {
        assert k % 8 == k - 8 * i;
      }
      if j < 8 {
        assert (8 * i + j) / 8 == i && (8 * i + j) % 8 == j;
        r := i * 8 + j;
        assert BitAt(ptr, i * 8 + j);
        return;
      }
    }
    r := -1;
  }

  // ------------------------------------------------------------------ ranks

  /** pe_in_active_set: the rank of a PE in <start, stride, size>, or -1. */
  function RankIn(pe: int, start: int, stride: int, size: int): (n: int)
    requires stride > 0
  {
    if pe < start || (pe - start) % stride != 0 || (pe - start) / stride >= size then -1
    else (pe - start) / stride
  }

  /** It is the inverse of going from a rank to the PE. */
  lemma RankIsInverse(pe: int, start: int, stride: int, size: int, n: int)
    requires stride > 0 && 0 <= n
    ensures RankIn(pe, start, stride, size) == n <==> n < size && pe == start + n * stride
  {
    if n < size && pe == start + n * stride { DivModUnique(pe - start, stride, n, 0); }
    if RankIn(pe, start, stride, size) == n {
      var d := pe - start;
      assert d == d / stride * stride + d % stride;
    }
  }

  datatype Team = Team(start: int, stride: int, size: int)

  /** Is PE `pe` a member of the team? */
  ghost predicate IsMember(team: Team, pe: int) {
    exists n :: 0 <= n < team.size && pe == team.start + n * team.stride
  }

  lemma RankMeansMember(team: Team, pe: int)
    requires team.stride > 0
    ensures RankIn(pe, team.start, team.stride, team.size) >= 0 <==> IsMember(team, pe)
    ensures RankIn(pe, team.start, team.stride, team.size) >= -1
  {
    var n := RankIn(pe, team.start, team.stride, team.size);
    if n >= 0 { RankIsInverse(pe, team.start, team.stride, team.size, n); }
    if m :| 0 <= m < team.size && pe == team.start + m * team.stride {
      RankIsInverse(pe, team.start, team.stride, team.size, m);
    }
  }

  /** team_translate_pe; None is the invalid team.  The bound check lets a rank equal to the size through. */
  function Translate(src: Option<Team>, pe: int, dest: Option<Team>): int
    requires dest.Some? ==> dest.value.stride > 0
  {
    if src.None? || dest.None? then -1
    else if pe > src.value.size then -1
    else RankIn(src.value.start + pe * src.value.stride, dest.value.start, dest.value.stride, dest.value.size)
  }

  /**
    What a translation is for: n is the rank in dest of the PE that has rank pe in src, or -1 if
    there is no such PE or it is not a member of dest.
  */
  ghost predicate IsTranslation(src: Team, pe: int, dest: Team, n: int) {
    var world := src.start + pe * src.stride;
    if 0 <= pe < src.size && IsMember(dest, world) then 0 <= n < dest.size && dest.start + n * dest.stride == world
    else n == -1
  }

  /**
    The code is right exactly for the ranks of the source team, for those its bound check stops,
    and for those of the others (negative ones and the size itself) that lead to no member of dest.
  */
  lemma TranslateIsExact(src: Team, pe: int, dest: Team)
    requires dest.stride > 0
    ensures IsTranslation(src, pe, dest, Translate(Some(src), pe, Some(dest)))
            <==> 0 <= pe < src.size || pe > src.size || !IsMember(dest, src.start + pe * src.stride)
  {
    var world := src.start + pe * src.stride;
    RankMeansMember(dest, world);
    var n := RankIn(world, dest.start, dest.stride, dest.size);
    if n >= 0 { RankIsInverse(world, dest.start, dest.stride, dest.size, n); }
  }

  /** The invalid team has no ranks and no members. */
  lemma InvalidTeamsTranslateToNothing(src: Option<Team>, pe: int, dest: Option<Team>)
    requires dest.Some? ==> dest.value.stride > 0
    ensures src.None? || dest.None? ==> Translate(src, pe, dest) == -1
  {
  }

  /** Just past its last rank, a team translates to a PE that is not its member, and so it does just before its first. */
  lemma TranslatePastTheEnd()
    ensures var t, world := Team(0, 1, 2), Team(0, 1, 4);
            Translate(Some(t), 2, Some(world)) == 2 && !IsTranslation(t, 2, world, 2)
    ensures var t, world := Team(1, 1, 2), Team(0, 1, 4);
            Translate(Some(t), -1, Some(world)) == 0 && !IsTranslation(t, -1, world, 0)
  {
  }

  // ------------------------------------------------------------------ the protocol

  /**
    n PEs, bitmaps of `max` slots, and for every split that is ever called its members.  Teams 0
    and 1 are the world and the shared team, in slots 0 and 1.
  */
  datatype Config = Config(n: nat, max: nat, members: map<nat, set<nat>>)

  /**
    avail[p] is p's bitmap, pool[p] its live teams by slot.  busy[p] is the split p is in, and
    contrib[(t, p)] the bitmap p put into the reduction of split t.  outcome[(t, p)] is p's result
    of split t: a slot, or None when there was none.
  */
  datatype State = State(
    avail: seq<set<nat>>, pool: seq<map<nat, nat>>, busy: seq<Option<nat>>,
    contrib: map<(nat, nat), set<nat>>, outcome: map<(nat, nat), Option<nat>>)

  predicate Shape(cfg: Config, s: State) {
    && cfg.max >= 2 && |s.avail| == |s.pool| == |s.busy| == cfg.n
    && (forall t :: t in cfg.members ==> t >= 2 && cfg.members[t] != {} && forall p :: p in cfg.members[t] ==> p < cfg.n)
  }

  /** team_init: all slots are free but those of the world and the shared team. */
  predicate Init(cfg: Config, s: State) {
    && Shape(cfg, s)
    && (forall p :: 0 <= p < cfg.n ==>
          s.avail[p] == Ranks(cfg.max) - {0, 1} && s.pool[p] == map[0 := 0, 1 := 1] && s.busy[p] == None)
    && s.contrib == map[] && s.outcome == map[]
  }

  predicate AllIn(cfg: Config, s: State, t: nat) {
    t in cfg.members && forall p :: p in cfg.members[t] ==> (t, p) in s.contrib
  }

  /** Was slot i free at every member as it entered? */
  predicate FreeAtAll(cfg: Config, s: State, t: nat, i: nat)
    requires AllIn(cfg, s, t)
  {
    forall p :: p in cfg.members[t] ==> i in s.contrib[(t, p)]
  }

  /** The AND of all members' bitmaps. */
  function Common(cfg: Config, s: State, t: nat): (r: set<nat>)
    requires AllIn(cfg, s, t)
    ensures forall i :: i in r <==> i in Ranks(cfg.max) && FreeAtAll(cfg, s, t, i)
  {
    set i | i in Ranks(cfg.max) && FreeAtAll(cfg, s, t, i)
  }

  ghost function Lowest(slots: set<nat>): (i: nat)
    requires slots != {}
    ensures i in slots && forall j :: j in slots ==> i <= j
  {
    var x :| x in slots;
    LowestExists(slots, x);
    var i :| i in slots && forall j :: j in slots ==> i <= j;
    i
  }

  lemma {:induction false} LowestExists(slots: set<nat>, x: nat)
    requires x in slots
    ensures exists i :: i in slots && forall j :: j in slots ==> i <= j
    decreases x
  {
    if y :| y in slots && y < x { LowestExists(slots, y); }
  }

  /** PE p joins the reduction of split t. */
  ghost predicate Enter(cfg: Config, s: State, s': State, p: nat, t: nat) {
    && Shape(cfg, s) && t in cfg.members && p in cfg.members[t] && s.busy[p] == None && (t, p) !in s.contrib
    && s' == s.(busy := s.busy[p := Some(t)], contrib := s.contrib[(t, p) := s.avail[p]])
  }

  /** PE p has the reduced bitmap and takes its lowest bit. */
  ghost predicate Finish(cfg: Config, s: State, s': State, p: nat, t: nat) {
    && Shape(cfg, s) && p < cfg.n && s.busy[p] == Some(t) && AllIn(cfg, s, t)
    && var common := Common(cfg, s, t);
       if common == {} then s' == s.(busy := s.busy[p := None], outcome := s.outcome[(t, p) := None])
       else
         var i := Lowest(common);
         var teams: map<nat, nat> := s.pool[p][i := t];
         s' == s.(busy := s.busy[p := None], outcome := s.outcome[(t, p) := Some(i)],
                  avail := s.avail[p := s.avail[p] - {i}], pool := s.pool[p := teams])
  }

  /** PE p destroys its team in slot i. */
  ghost predicate Destroy(cfg: Config, s: State, s': State, p: nat, i: nat) {
    && Shape(cfg, s) && p < cfg.n && s.busy[p] == None && i in s.pool[p]
    && s' == s.(avail := s.avail[p := s.avail[p] + {i}], pool := s.pool[p := s.pool[p] - {i}])
  }

  ghost predicate Next(cfg: Config, s: State, s': State) {
    || (exists p: nat, t: nat :: Enter(cfg, s, s', p, t))
    || (exists p: nat, t: nat :: Finish(cfg, s, s', p, t))
    || (exists p: nat, i: nat :: Destroy(cfg, s, s', p, i))
  }

  // ------------------------------------------------------------------ the invariant

  ghost predicate PeOk(cfg: Config, s: State, p: nat)
    requires Shape(cfg, s) && p < cfg.n
  {
    && s.avail[p] + s.pool[p].Keys == Ranks(cfg.max) && s.avail[p] !! s.pool[p].Keys
    && (s.busy[p].Some? ==>
          var t := s.busy[p].value;
          && t in cfg.members && p in cfg.members[t]
          && (t, p) in s.contrib && s.contrib[(t, p)] == s.avail[p] && (t, p) !in s.outcome)
    && (forall i :: i in s.pool[p] && s.pool[p][i] >= 2 ==>
          (s.pool[p][i], p) in s.outcome && s.outcome[(s.pool[p][i], p)] == Some(i))
    && (forall i :: i in s.pool[p] && s.pool[p][i] < 2 ==> s.pool[p][i] == i)
  }

  /** Everyone's outcome of a split is the lowest common slot of what the members put in. */
  ghost predicate SplitOk(cfg: Config, s: State, t: nat, p: nat)
    requires Shape(cfg, s)
  {
    && ((t, p) in s.contrib ==> t in cfg.members && p in cfg.members[t])
    && ((t, p) in s.outcome ==>
          && (t, p) in s.contrib && AllIn(cfg, s, t)
          && s.outcome[(t, p)] == if Common(cfg, s, t) == {} then None else Some(Lowest(Common(cfg, s, t))))
  }

  ghost predicate Inv(cfg: Config, s: State) {
    && Shape(cfg, s)
    && (forall p :: 0 <= p < cfg.n ==> PeOk(cfg, s, p))
    && (forall t: nat, p: nat :: SplitOk(cfg, s, t, p))
  }

  lemma InitEstablishesInv(cfg: Config, s: State)
    requires Init(cfg, s)
    ensures Inv(cfg, s)
  {
  }

  lemma EnterKeepsInv(cfg: Config, s: State, s': State, p: nat, t: nat)
    requires Inv(cfg, s) && Enter(cfg, s, s', p, t)
    ensures Inv(cfg, s') == true
  {
    assert SplitOk(cfg, s, t, p);
    forall q | 0 <= q < cfg.n ensures PeOk(cfg, s', q) {
      assert PeOk(cfg, s, q);
    }
    forall u: nat, q: nat ensures SplitOk(cfg, s', u, q) {
      assert SplitOk(cfg, s, u, q);
      if (u, q) in s.outcome { SameCommon(cfg, s, s', u); }
    }
  }

  /** Once everyone is in, the common slots do not change any more. */
  lemma SameCommon(cfg: Config, s: State, s': State, t: nat)
    requires AllIn(cfg, s, t) && forall x :: x in s.contrib ==> x in s'.contrib && s'.contrib[x] == s.contrib[x]
    ensures AllIn(cfg, s', t) && Common(cfg, s', t) == Common(cfg, s, t)
  {
  }

  /** The slot a member takes is free at that member. */
  lemma ChosenIsFree(cfg: Config, s: State, p: nat, t: nat)
    requires Inv(cfg, s) && p < cfg.n && s.busy[p] == Some(t) && AllIn(cfg, s, t)
    ensures Common(cfg, s, t) <= s.avail[p] && Common(cfg, s, t) !! s.pool[p].Keys
  {
    assert PeOk(cfg, s, p);
  }

  lemma FinishKeepsInv(cfg: Config, s: State, s': State, p: nat, t: nat)
    requires Inv(cfg, s) && Finish(cfg, s, s', p, t)
    ensures Inv(cfg, s') == true
  {
    ChosenIsFree(cfg, s, p, t);
    forall q | 0 <= q < cfg.n ensures PeOk(cfg, s', q) {
      assert PeOk(cfg, s, q);
    }
    forall u: nat, q: nat ensures SplitOk(cfg, s', u, q) {
      assert SplitOk(cfg, s, u, q) && PeOk(cfg, s, p);
      if AllIn(cfg, s, u) { SameCommon(cfg, s, s', u); }
    }
  }

  lemma DestroyKeepsInv(cfg: Config, s: State, s': State, p: nat, i: nat)
    requires Inv(cfg, s) && Destroy(cfg, s, s', p, i)
    ensures Inv(cfg, s') == true
  {
    forall q | 0 <= q < cfg.n ensures PeOk(cfg, s', q) {
      assert PeOk(cfg, s, q);
    }
    forall u: nat, q: nat ensures SplitOk(cfg, s', u, q) {
      assert SplitOk(cfg, s, u, q);
      if AllIn(cfg, s, u) { SameCommon(cfg, s, s', u); }
    }
  }

  lemma NextKeepsInv(cfg: Config, s: State, s': State)
    requires Inv(cfg, s) && Next(cfg, s, s')
    ensures Inv(cfg, s') == true
  {
    hide Inv, Enter, Finish, Destroy;
    if p: nat, t: nat :| Enter(cfg, s, s', p, t) {
      EnterKeepsInv(cfg, s, s', p, t);
    } else if p: nat, t: nat :| Finish(cfg, s, s', p, t) {
      FinishKeepsInv(cfg, s, s', p, t);
    } else {
      var p: nat, i: nat :| Destroy(cfg, s, s', p, i);
      DestroyKeepsInv(cfg, s, s', p, i);
    }
  }

  // ------------------------------------------------------------------ what the protocol promises

  ghost predicate IsRun(cfg: Config, run: seq<State>) {
    && run != [] && Init(cfg, run[0])
    && forall k :: 0 <= k < |run| - 1 ==> Next(cfg, run[k], run[k + 1])
  }

  lemma {:induction false} RunKeepsInv(cfg: Config, run: seq<State>, k: nat)
    requires IsRun(cfg, run) && k < |run|
    ensures Inv(cfg, run[k]) == true
  {
    hide Inv, Next, Init;
    if k == 0 {
      InitEstablishesInv(cfg, run[0]);
    } else {
      RunKeepsInv(cfg, run, k - 1);
      assert Next(cfg, run[k - 1], run[k - 1 + 1]);
      NextKeepsInv(cfg, run[k - 1], run[k]);
    }
  }

  /** All members of a split get the same slot, or all of them get none. */
  lemma MembersAgree(cfg: Config, run: seq<State>, k: nat, t: nat, p: nat, q: nat)
    requires IsRun(cfg, run) && k < |run| && (t, p) in run[k].outcome && (t, q) in run[k].outcome
    ensures run[k].outcome[(t, p)] == run[k].outcome[(t, q)]
  {
    RunKeepsInv(cfg, run, k);
    assert SplitOk(cfg, run[k], t, p) && SplitOk(cfg, run[k], t, q);
  }

  /** A bit is set exactly when the pool slot is empty, on every PE in every state. */
  lemma BitSetMeansSlotEmpty(cfg: Config, run: seq<State>, k: nat, p: nat, i: nat)
    requires IsRun(cfg, run) && k < |run| && p < cfg.n && i < cfg.max
    ensures Shape(cfg, run[k])
    ensures i in run[k].avail[p] <==> i !in run[k].pool[p]
  {
    RunKeepsInv(cfg, run, k);
    assert PeOk(cfg, run[k], p);
    assert i in Ranks(cfg.max);
  }

  /** Finishing a split never takes a slot in which the PE has a live team. */
  lemma NoTeamIsOverwritten(cfg: Config, run: seq<State>, k: nat, p: nat, t: nat)
    requires IsRun(cfg, run) && k + 1 < |run| && Finish(cfg, run[k], run[k + 1], p, t)
    ensures forall i :: i in run[k].pool[p] ==> i in run[k + 1].pool[p] && run[k + 1].pool[p][i] == run[k].pool[p][i]
  {
    RunKeepsInv(cfg, run, k);
    ChosenIsFree(cfg, run[k], p, t);
  }

  /** The same live team sits in the same slot on all its members. */
  lemma LiveTeamsAgree(cfg: Config, run: seq<State>, k: nat, p: nat, q: nat, i: nat, j: nat)
    requires IsRun(cfg, run) && k < |run| && p < cfg.n && q < cfg.n && Shape(cfg, run[k])
    requires i in run[k].pool[p] && j in run[k].pool[q] && run[k].pool[p][i] == run[k].pool[q][j]
    ensures i == j
  {
    RunKeepsInv(cfg, run, k);
    var t := run[k].pool[p][i];
    assert PeOk(cfg, run[k], p) && PeOk(cfg, run[k], q);
    if t >= 2 { MembersAgree(cfg, run, k, t, p, q); }
  }

  // ------------------------------------------------------------------ splits over whole runs

  /** At step e PE q enters split t. */
  ghost predicate EntersAt(run: seq<State>, e: nat, t: nat, q: nat) {
    e + 1 < |run| && q < |run[e].busy| && q < |run[e + 1].busy| && run[e].busy[q] == None && run[e + 1].busy[q] == Some(t)
  }

  /** At step a split t ends for PE p, with this result. */
  ghost predicate EndsAt(run: seq<State>, a: nat, t: nat, p: nat, result: Option<nat>) {
    a + 1 < |run| && (t, p) !in run[a].outcome && (t, p) in run[a + 1].outcome && run[a + 1].outcome[(t, p)] == result
  }

  ghost predicate DestroysAt(cfg: Config, run: seq<State>, m: nat, p: nat, i: nat) {
    m + 1 < |run| && Destroy(cfg, run[m], run[m + 1], p, i)
  }

  lemma RunStep(cfg: Config, run: seq<State>, k: nat)
    requires IsRun(cfg, run) && k + 1 < |run|
    ensures Inv(cfg, run[k]) == true && Inv(cfg, run[k + 1]) == true && Next(cfg, run[k], run[k + 1])
  {
    RunKeepsInv(cfg, run, k);
    RunKeepsInv(cfg, run, k + 1);
    assert Next(cfg, run[k], run[k + 1]);
  }

  /** A PE that is not in a split can destroy any of its teams. */
  lemma TeamsCanBeDestroyed(cfg: Config, s: State, p: nat, i: nat) returns (s': State)
    requires Inv(cfg, s) && p < cfg.n && s.busy[p] == None && i in s.pool[p]
    ensures Next(cfg, s, s') && Shape(cfg, s') && i !in s'.pool[p] && i in s'.avail[p]
  {
    s' := s.(avail := s.avail[p := s.avail[p] + {i}], pool := s.pool[p := s.pool[p] - {i}]);
    assert Destroy(cfg, s, s', p, i);
  }

  /** What a step does to the contributions and to who is in a split. */
  lemma StepEnters(cfg: Config, s: State, s': State, t: nat, q: nat)
    requires Inv(cfg, s) && Next(cfg, s, s')
    ensures (t, q) in s.contrib ==> (t, q) in s'.contrib && s'.contrib[(t, q)] == s.contrib[(t, q)]
    ensures (t, q) !in s.contrib && (t, q) in s'.contrib ==>
              && q < cfg.n && Shape(cfg, s') && s.busy[q] == None && s'.busy[q] == Some(t)
              && s'.contrib[(t, q)] == s.avail[q]
  {
    hide PeOk, SplitOk, Common;
  }

  /** What a member put into a split is its bitmap as it entered. */
  lemma {:induction false} EntryOf(cfg: Config, run: seq<State>, k: nat, t: nat, q: nat) returns (e: nat)
    requires IsRun(cfg, run) && k < |run| && (t, q) in run[k].contrib
    ensures e < k && EntersAt(run, e, t, q) && q < |run[e].avail| && run[k].contrib[(t, q)] == run[e].avail[q]
  {
    hide Next, Inv, Init;
    if k == 0 {
      NobodyIsInYet(cfg, run[0], t, q);
    } else {
      RunStep(cfg, run, k - 1);
      StepEnters(cfg, run[k - 1], run[k], t, q);
      InvHasShape(cfg, run[k - 1]);
      if (t, q) in run[k - 1].contrib {
        e := EntryOf(cfg, run, k - 1, t, q);
      } else {
        e := k - 1;
      }
    }
  }

  lemma NobodyIsInYet(cfg: Config, s: State, t: nat, q: nat)
    requires Init(cfg, s)
    ensures (t, q) !in s.contrib
  {
  }

  lemma InvHasShape(cfg: Config, s: State)
    requires Inv(cfg, s)
    ensures Shape(cfg, s)
  {
  }

  /** Slot i was free at every member as it entered. */
  ghost predicate FreeOnEntry(cfg: Config, run: seq<State>, entry: map<nat, nat>, t: nat, i: nat) {
    t in cfg.members && forall q :: q in cfg.members[t] ==>
      q in entry && entry[q] < |run| && q < |run[entry[q]].avail| && i in run[entry[q]].avail[q]
  }

  /**
    A split ends with the lowest slot that was free at every member as it entered, and fails
    exactly when there was none.
  */
  lemma SplitTakesLowestCommon(cfg: Config, run: seq<State>, k: nat, t: nat, p: nat) returns (entry: map<nat, nat>)
    requires IsRun(cfg, run) && k < |run| && (t, p) in run[k].outcome
    ensures t in cfg.members && forall q :: q in cfg.members[t] ==> q in entry && entry[q] < k && EntersAt(run, entry[q], t, q)
    ensures match run[k].outcome[(t, p)]
            case None => forall i :: 0 <= i < cfg.max ==> !FreeOnEntry(cfg, run, entry, t, i)
            case Some(i) => i < cfg.max && FreeOnEntry(cfg, run, entry, t, i) && forall j :: 0 <= j < i ==> !FreeOnEntry(cfg, run, entry, t, j)
  {
    RunKeepsInv(cfg, run, k);
    var s := run[k];
    assert SplitOk(cfg, s, t, p);
    entry := EntriesOf(cfg, run, k, t, cfg.members[t]);
    forall i: nat | i < cfg.max ensures FreeOnEntry(cfg, run, entry, t, i) <==> i in Common(cfg, s, t) {
      assert i in Ranks(cfg.max);
    }
  }

  lemma {:induction false} EntriesOf(cfg: Config, run: seq<State>, k: nat, t: nat, qs: set<nat>) returns (entry: map<nat, nat>)
    requires IsRun(cfg, run) && k < |run| && forall q :: q in qs ==> (t, q) in run[k].contrib
    ensures forall q :: q in qs ==>
              && q in entry && entry[q] < k && EntersAt(run, entry[q], t, q) && q < |run[entry[q]].avail|
              && run[k].contrib[(t, q)] == run[entry[q]].avail[q]
    decreases qs
  {
    hide IsRun;
    entry := map[];
    if q :| q in qs {
      var e := EntryOf(cfg, run, k, t, q);
      entry := EntriesOf(cfg, run, k, t, qs - {q});
      entry := entry[q := e];
    }
  }

  /** A split that ends in slot i clears the bit and stores the team. */
  lemma EndStores(cfg: Config, s: State, s': State, t: nat, p: nat, i: nat)
    requires Inv(cfg, s) && Next(cfg, s, s') && (t, p) !in s.outcome && (t, p) in s'.outcome && s'.outcome[(t, p)] == Some(i)
    ensures p < cfg.n && Shape(cfg, s') && i in s.avail[p] && i in s'.pool[p] && s'.pool[p][i] == t
  {
    hide SplitOk;
    if q: nat, u: nat :| Finish(cfg, s, s', q, u) {
      ChosenIsFree(cfg, s, q, u);
    }
  }

  /** Only its destruction takes a team out of its slot. */
  lemma HeldStays(cfg: Config, s: State, s': State, t: nat, p: nat, i: nat)
    requires Inv(cfg, s) && Next(cfg, s, s') && p < cfg.n && i in s.pool[p] && s.pool[p][i] == t && !Destroy(cfg, s, s', p, i)
    ensures Shape(cfg, s') && i in s'.pool[p] && s'.pool[p][i] == t
  {
    hide SplitOk;
    if q: nat, u: nat :| Finish(cfg, s, s', q, u) {
      ChosenIsFree(cfg, s, q, u);
    }
  }

  /** From the end of the split until the team is destroyed, the slot is the team's. */
  lemma {:induction false} TeamHoldsSlot(cfg: Config, run: seq<State>, a: nat, k: nat, t: nat, p: nat, i: nat)
    requires IsRun(cfg, run) && EndsAt(run, a, t, p, Some(i)) && a < k < |run|
    requires forall m :: a < m < k ==> !DestroysAt(cfg, run, m, p, i)
    ensures Shape(cfg, run[k]) && p < cfg.n
    ensures i in run[k].pool[p] && run[k].pool[p][i] == t && i !in run[k].avail[p]
  {
    hide Next, Inv, Destroy, Init;
    RunStep(cfg, run, k - 1);
    if k == a + 1 {
      EndStores(cfg, run[a], run[k], t, p, i);
    } else {
      TeamHoldsSlot(cfg, run, a, k - 1, t, p, i);
      assert !DestroysAt(cfg, run, k - 1, p, i);
      HeldStays(cfg, run[k - 1], run[k], t, p, i);
    }
    TakenIsNotFree(cfg, run[k], p, i);
  }

  lemma TakenIsNotFree(cfg: Config, s: State, p: nat, i: nat)
    requires Inv(cfg, s) && p < cfg.n
    ensures i in s.pool[p] ==> i !in s.avail[p]
    ensures i < cfg.max && i !in s.pool[p] ==> i in s.avail[p]
  {
    assert PeOk(cfg, s, p);
    assert i < cfg.max ==> i in Ranks(cfg.max);
  }

  /** No two live teams of a PE share a slot: before a slot is given out again its team is destroyed. */
  lemma SlotsAreNotShared(cfg: Config, run: seq<State>, a: nat, b: nat, t: nat, u: nat, p: nat, i: nat)
    requires IsRun(cfg, run) && a < b && EndsAt(run, a, t, p, Some(i)) && EndsAt(run, b, u, p, Some(i))
    ensures exists m :: a < m < b && DestroysAt(cfg, run, m, p, i)
  {
    hide Next, Inv, Destroy, Init;
    if forall m :: a < m < b ==> !DestroysAt(cfg, run, m, p, i) {
      TeamHoldsSlot(cfg, run, a, b, t, p, i);
      RunStep(cfg, run, b);
      EndStores(cfg, run[b], run[b + 1], u, p, i);
    }
  }

  /** A destroy frees the slot, and it stays free until a split of that PE ends in it. */
  lemma {:induction false} DestroyedSlotIsFree(cfg: Config, run: seq<State>, a: nat, k: nat, p: nat, i: nat)
    requires IsRun(cfg, run) && DestroysAt(cfg, run, a, p, i) && a < k < |run|
    requires forall m, t :: a < m < k ==> !EndsAt(run, m, t, p, Some(i))
    ensures Shape(cfg, run[k]) && p < cfg.n && i !in run[k].pool[p] && i in run[k].avail[p]
  {
    hide Next, Inv, Init;
    RunStep(cfg, run, k - 1);
    if k > a + 1 {
      DestroyedSlotIsFree(cfg, run, a, k - 1, p, i);
      var last := k - 1;
      assert forall t :: !EndsAt(run, last, t, p, Some(i));
      FreeStays(cfg, run, last, p, i);
    } else {
      DestroyFrees(cfg, run[a], run[k], p, i);
    }
  }

  lemma DestroyFrees(cfg: Config, s: State, s': State, p: nat, i: nat)
    requires Inv(cfg, s) && Destroy(cfg, s, s', p, i)
    ensures p < cfg.n && Shape(cfg, s') && i !in s'.pool[p] && i in s'.avail[p]
    ensures forall q, j :: 0 <= q < cfg.n && (q != p || j != i) ==>
              (j in s'.avail[q] <==> j in s.avail[q]) && (j in s'.pool[q] <==> j in s.pool[q])
  {
  }

  lemma FreeStays(cfg: Config, run: seq<State>, k: nat, p: nat, i: nat)
    requires k + 1 < |run| && Inv(cfg, run[k]) && Next(cfg, run[k], run[k + 1]) && p < cfg.n
    requires i !in run[k].pool[p] && i in run[k].avail[p] && forall t :: !EndsAt(run, k, t, p, Some(i))
    ensures Shape(cfg, run[k + 1]) && i !in run[k + 1].pool[p] && i in run[k + 1].avail[p]
  {
    hide SplitOk;
    var s, s' := run[k], run[k + 1];
    if q: nat, u: nat :| Finish(cfg, s, s', q, u) {
      assert PeOk(cfg, s, q);
      assert !EndsAt(run, k, u, p, Some(i));
    }
  }

  // ---- splits come to an end

  /** Every member of t is in the split, has come out of it, or is free to enter it. */
  ghost predicate CanRun(cfg: Config, s: State, t: nat) {
    && Shape(cfg, s) && t in cfg.members
    && forall q :: q in cfg.members[t] ==>
         || (t, q) in s.outcome || (s.busy[q] == Some(t) && (t, q) in s.contrib)
         || (s.busy[q] == None && (t, q) !in s.contrib)
  }

  /** Members that have not entered, and members that have not come out. */
  ghost function ToEnter(cfg: Config, s: State, t: nat): set<nat>
    requires t in cfg.members
  {
    set q | q in cfg.members[t] && (t, q) !in s.contrib
  }

  ghost function ToFinish(cfg: Config, s: State, t: nat): set<nat>
    requires t in cfg.members
  {
    set q | q in cfg.members[t] && (t, q) !in s.outcome
  }

  lemma EnterStep(cfg: Config, s: State, t: nat, q: nat) returns (s': State)
    requires Inv(cfg, s) && CanRun(cfg, s, t) && q in ToEnter(cfg, s, t)
    ensures Next(cfg, s, s') && CanRun(cfg, s', t) && ToEnter(cfg, s', t) == ToEnter(cfg, s, t) - {q}
    ensures ToFinish(cfg, s', t) == ToFinish(cfg, s, t)
  {
    assert SplitOk(cfg, s, t, q);
    s' := s.(busy := s.busy[q := Some(t)], contrib := s.contrib[(t, q) := s.avail[q]]);
    assert Enter(cfg, s, s', q, t);
  }

  lemma FinishStep(cfg: Config, s: State, t: nat, q: nat) returns (s': State)
    requires Inv(cfg, s) && CanRun(cfg, s, t) && ToEnter(cfg, s, t) == {} && q in ToFinish(cfg, s, t)
    ensures Next(cfg, s, s') && CanRun(cfg, s', t) && ToEnter(cfg, s', t) == {}
    ensures ToFinish(cfg, s', t) == ToFinish(cfg, s, t) - {q}
  {
    forall r | r in cfg.members[t] ensures (t, r) in s.contrib {
      assert r !in ToEnter(cfg, s, t);
    }
    var common := Common(cfg, s, t);
    if common == {} {
      s' := s.(busy := s.busy[q := None], outcome := s.outcome[(t, q) := None]);
    } else {
      var i := Lowest(common);
      var teams: map<nat, nat> := s.pool[q][i := t];
      s' := s.(busy := s.busy[q := None], outcome := s.outcome[(t, q) := Some(i)],
               avail := s.avail[q := s.avail[q] - {i}], pool := s.pool[q := teams]);
    }
    assert Finish(cfg, s, s', q, t);
  }

  /** A split that its members are free to call can be run until all of them have come out of it. */
  lemma {:induction false} SplitsComplete(cfg: Config, run: seq<State>, t: nat) returns (run': seq<State>)
    requires IsRun(cfg, run) && CanRun(cfg, run[|run| - 1], t)
    ensures IsRun(cfg, run') && run <= run' && t in cfg.members
    ensures forall q :: q in cfg.members[t] ==> (t, q) in run'[|run'| - 1].outcome
    decreases |ToEnter(cfg, run[|run| - 1], t)| + |ToFinish(cfg, run[|run| - 1], t)|
  {
    hide Next, Inv, Init, CanRun;
    var s := run[|run| - 1];
    RunKeepsInv(cfg, run, |run| - 1);
    CanRunHas(cfg, s, t);
    if q :| q in ToEnter(cfg, s, t) {
      var s' := EnterStep(cfg, s, t, q);
      Extended(cfg, run, s');
      run' := SplitsComplete(cfg, run + [s'], t);
    } else if q :| q in ToFinish(cfg, s, t) {
      var s' := FinishStep(cfg, s, t, q);
      Extended(cfg, run, s');
      run' := SplitsComplete(cfg, run + [s'], t);
    } else {
      run' := run;
      forall r | r in cfg.members[t] ensures (t, r) in s.outcome {
        assert r !in ToFinish(cfg, s, t);
      }
    }
  }

  lemma CanRunHas(cfg: Config, s: State, t: nat)
    requires CanRun(cfg, s, t)
    ensures t in cfg.members
  {
  }

  lemma Extended(cfg: Config, run: seq<State>, s': State)
    requires IsRun(cfg, run) && Next(cfg, run[|run| - 1], s')
    ensures IsRun(cfg, run + [s'])
  {
    hide Init, Next;
    var more := run + [s'];
    forall k | 0 <= k < |more| - 1 ensures Next(cfg, more[k], more[k + 1]) {
      if k < |run| - 1 { assert Next(cfg, run[k], run[k + 1]); }
    }
  }

  /** The state after team_init; every split of its PEs can be called. */
  lemma FirstSplitCanRun(cfg: Config, t: nat) returns (s: State)
    requires cfg.max >= 2 && t in cfg.members
    requires forall u :: u in cfg.members ==> u >= 2 && cfg.members[u] != {} && forall p :: p in cfg.members[u] ==> p < cfg.n
    ensures Init(cfg, s) && CanRun(cfg, s, t)
  {
    s := State(seq(cfg.n, _ => Ranks(cfg.max) - {0, 1}), seq(cfg.n, _ => map[0 := 0, 1 := 1]), seq(cfg.n, _ => None), map[], map[]);
  }

  // ------------------------------------------------------------------ the bytes behind the sets

  /** The set a bitmap stands for. */
  function Bits(s: seq<bv8>): (r: set<nat>)
    ensures forall k :: k in r <==> 0 <= k < 8 * |s| && BitAt(s, k)
  {
    set k: nat | k < 8 * |s| && BitAt(s, k)
  }

  function AndByte(): (bv8, bv8) -> bv8 {
    (x, y) => x & y
  }

  /** A bit of the byte-wise AND of the first m bitmaps is set exactly when it is set in all of them. */
  lemma {:induction false} BitOfReduction(bufs: seq<seq<bv8>>, len: nat, m: nat, k: nat)
    requires 0 < m <= |bufs| && (forall j :: 0 <= j < |bufs| ==> |bufs[j]| == len) && k < 8 * len
    ensures |RankFold(ZipOp(AndByte()), bufs, m)| == len
    ensures BitAt(RankFold(ZipOp(AndByte()), bufs, m), k) <==> forall j :: 0 <= j < m ==> BitAt(bufs[j], k)
  {
    if m > 1 {
      BitOfReduction(bufs, len, m - 1, k);
      var before := RankFold(ZipOp(AndByte()), bufs, m - 1);
      assert RankFold(ZipOp(AndByte()), bufs, m) == Zip(AndByte(), before, bufs[m - 1]);
      AndByteBit(before[k / 8], bufs[m - 1][k / 8], k % 8);
    }
  }

  /** The bitmaps the members of split t put into its reduction, in the order of their ranks. */
  ghost predicate Contributed(cfg: Config, s: State, t: nat, ranks: seq<nat>, bufs: seq<seq<bv8>>, len: nat) {
    && AllIn(cfg, s, t) && |ranks| == |bufs| > 0 && cfg.max <= 8 * len
    && (forall p :: p in ranks <==> p in cfg.members[t])
    && (forall j :: 0 <= j < |bufs| ==>
          |bufs[j]| == len && s.contrib[(t, ranks[j])] == Bits(bufs[j]) && Bits(bufs[j]) <= Ranks(cfg.max))
  }

  /**
    The reduced bytes stand for the common slots, so the search for the first set bit returns
    the lowest common slot, or -1 when there is none.
  */
  lemma FirstBitIsLowestCommon(cfg: Config, s: State, t: nat, ranks: seq<nat>, bufs: seq<seq<bv8>>, len: nat, r: int)
    requires Contributed(cfg, s, t, ranks, bufs, len)
    requires IsFirst(RankFold(ZipOp(AndByte()), bufs, |bufs|), r)
    ensures Bits(RankFold(ZipOp(AndByte()), bufs, |bufs|)) == Common(cfg, s, t)
    ensures r == if Common(cfg, s, t) == {} then -1 else Lowest(Common(cfg, s, t))
  {
    var all := RankFold(ZipOp(AndByte()), bufs, |bufs|);
    forall k: nat ensures k in Bits(all) <==> k in Common(cfg, s, t) {
      CommonBit(cfg, s, t, ranks, bufs, len, k);
    }
    if Common(cfg, s, t) != {} {
      var low := Lowest(Common(cfg, s, t));
      assert low in Bits(all);
    }
  }

  lemma CommonBit(cfg: Config, s: State, t: nat, ranks: seq<nat>, bufs: seq<seq<bv8>>, len: nat, k: nat)
    requires Contributed(cfg, s, t, ranks, bufs, len)
    ensures k in Bits(RankFold(ZipOp(AndByte()), bufs, |bufs|)) <==> k in Common(cfg, s, t)
  {
    if k < 8 * len {
      BitOfReduction(bufs, len, |bufs|, k);
      if k in Common(cfg, s, t) {
        forall j | 0 <= j < |bufs| ensures BitAt(bufs[j], k) {
          assert ranks[j] in ranks;
          assert k in s.contrib[(t, ranks[j])];
        }
      }
    } else {
      ReductionLength(bufs, len, |bufs|);
    }
  }

  lemma {:induction false} ReductionLength(bufs: seq<seq<bv8>>, len: nat, m: nat)
    requires 0 < m <= |bufs| && forall j :: 0 <= j < |bufs| ==> |bufs[j]| == len
    ensures |RankFold(ZipOp(AndByte()), bufs, m)| == len
  {
    if m > 1 { ReductionLength(bufs, len, m - 1); }
  }
}
