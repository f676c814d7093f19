/**
  The pool of shareable transmit contexts (STX) of src/transport_ofi.c.  Contexts that are private
  to one thread share an STX of their own, recorded in a hash table keyed by thread id, as long
  as there is one to spare; all other contexts share the rest.
*/
module Stx {
  import opened Arith

  datatype Allocator = RoundRobin | Random

  /** A live context: its thread, whether its STX is private to that thread, and the STX (-1: none). */
  datatype Context = Context(tid: nat, private: bool, stx: int)

  type Contexts = map<nat, Context>

  function OnStx(live: Contexts, i: int): set<nat> {
    set c | c in live && live[c].stx == i
  }

  /** The i-th eligible STX search: in use, shared, and not above the threshold unless that is -1. */
  predicate Eligible(refCnt: seq<int>, isPrivate: seq<bool>, threshold: int, i: nat)
    requires i < |refCnt| == |isPrivate|
  {
    refCnt[i] > 0 && (refCnt[i] <= threshold || threshold == -1) && !isPrivate[i]
  }

  /** Every count is the number of live contexts bound to that STX. */
  ghost predicate CountsHold(refCnt: seq<int>, live: Contexts) {
    && (forall c :: c in live ==> -1 <= live[c].stx < |refCnt| && (live[c].stx == -1 ==> |refCnt| == 0))
    && (forall i :: 0 <= i < |refCnt| ==> refCnt[i] == |OnStx(live, i)|)
  }

  predicate Owned(kvs: map<nat, nat>, i: nat) {
    exists t :: t in kvs && kvs[t] == i
  }

  /** A private STX belongs to exactly one thread of the hash table, and serves only that thread. */
  ghost predicate PrivateHold(isPrivate: seq<bool>, kvs: map<nat, nat>, live: Contexts) {
    && (forall t :: t in kvs ==> kvs[t] < |isPrivate| && isPrivate[kvs[t]])
    && (forall t, u :: t in kvs && u in kvs && kvs[t] == kvs[u] ==> t == u)
    && (forall i :: 0 <= i < |isPrivate| && isPrivate[i] ==> Owned(kvs, i) && OnStx(live, i) != {})
    && (forall c :: c in live && 0 <= live[c].stx < |isPrivate| ==>
          if live[c].private then live[c].tid in kvs && kvs[live[c].tid] == live[c].stx
          else !isPrivate[live[c].stx])
  }

  lemma BindKeepsCounts(refCnt: seq<int>, live: Contexts, c: nat, x: Context)
    requires CountsHold(refCnt, live) && c !in live && 0 <= x.stx < |refCnt|
    ensures CountsHold(refCnt[x.stx := refCnt[x.stx] + 1], live[c := x])
  {
    OneMore(live, c, x);
    hide OnStx;
  }

  lemma BindKeepsPrivate(isPrivate: seq<bool>, kvs: map<nat, nat>, live: Contexts, c: nat, x: Context)
    requires PrivateHold(isPrivate, kvs, live) && c !in live && 0 <= x.stx < |isPrivate|
    requires if x.private then x.tid in kvs && kvs[x.tid] == x.stx else !isPrivate[x.stx]
    ensures PrivateHold(isPrivate, kvs, live[c := x])
  {
    StillUsed(live, c, x);
    hide OnStx, Owned;
  }

  lemma BindNewKeepsPrivate(isPrivate: seq<bool>, kvs: map<nat, nat>, live: Contexts, c: nat, tid: nat, idx: nat)
    requires PrivateHold(isPrivate, kvs, live) && c !in live && idx < |isPrivate| && OnStx(live, idx) == {} && tid !in kvs
    ensures PrivateHold(isPrivate[idx := true], kvs[tid := idx], live[c := Context(tid, true, idx)])
  {
    var x := Context(tid, true, idx);
    StillUsed(live, c, x);
    assert forall d :: d in live && live[d].stx == idx ==> d in OnStx(live, idx);
    var kvs', flags := kvs[tid := idx], isPrivate[idx := true];
    forall i | 0 <= i < |flags| && flags[i] ensures Owned(kvs', i) {
      OwnedStays(kvs, tid, idx, i);
    }
    assert !isPrivate[idx];
    hide OnStx, Owned;
  }

  lemma OwnedStays(kvs: map<nat, nat>, tid: nat, idx: nat, i: nat)
    requires tid !in kvs && (i == idx || Owned(kvs, i))
    ensures Owned(kvs[tid := idx], i)
  {
    var kvs' := kvs[tid := idx];
    if i == idx {
      assert tid in kvs' && kvs'[tid] == i;
    } else {
      var t :| t in kvs && kvs[t] == i;
      assert t in kvs' && kvs'[t] == i;
    }
  }

  /** Every context on a private STX is a private one of its thread. */
  lemma OnlyOnes(isPrivate: seq<bool>, kvs: map<nat, nat>, live: Contexts, c: nat, tid: nat, idx: nat)
    requires PrivateHold(isPrivate, kvs, live) && c in live && live[c] == Context(tid, true, idx) && idx < |isPrivate|
    ensures tid in kvs && kvs[tid] == idx && isPrivate[idx] && c in OnStx(live, idx)
    ensures forall d :: d in live && live[d].stx == idx ==> live[d].private && live[d].tid == tid
    ensures |OnStx(live, idx)| == 1 ==> forall d :: d in live && live[d].stx == idx ==> d == c
  {
    if |OnStx(live, idx)| == 1 {
      assert |OnStx(live, idx) - {c}| == 0;
      assert forall d :: d in live && live[d].stx == idx ==> d in OnStx(live, idx);
    }
  }

  lemma ReleaseKeepsCounts(refCnt: seq<int>, live: Contexts, c: nat)
    requires CountsHold(refCnt, live) && c in live && 0 <= live[c].stx < |refCnt|
    ensures CountsHold(refCnt[live[c].stx := refCnt[live[c].stx] - 1], live - {c})
  {
    OneLess(live, c);
    hide OnStx;
  }

  /** Another private context of the thread is left on its STX, or it was not private. */
  lemma ReleaseOneKeepsPrivate(isPrivate: seq<bool>, kvs: map<nat, nat>, live: Contexts, c: nat)
    requires PrivateHold(isPrivate, kvs, live) && c in live && 0 <= live[c].stx < |isPrivate|
    requires live[c].private ==> |OnStx(live, live[c].stx)| != 1
    ensures PrivateHold(isPrivate, kvs, live - {c})
  {
    OneLess(live, c);
    forall i | 0 <= i < |isPrivate| && isPrivate[i] ensures OnStx(live - {c}, i) != {} {
      assert i == live[c].stx ==> live[c].private;
      assert |OnStx(live, i)| > 0;
    }
    hide OnStx, Owned;
  }

  /** The last context of the thread is gone, and so is its claim on the STX. */
  lemma ReleaseLastKeepsPrivate(isPrivate: seq<bool>, kvs: map<nat, nat>, live: Contexts, c: nat, tid: nat, idx: nat)
    requires PrivateHold(isPrivate, kvs, live) && c in live && live[c] == Context(tid, true, idx) && idx < |isPrivate|
    requires |OnStx(live, idx)| == 1
    ensures PrivateHold(isPrivate[idx := false], kvs - {tid}, live - {c})
  {
    OneLess(live, c);
    OnlyOnes(isPrivate, kvs, live, c, tid, idx);
    var kvs', flags := kvs - {tid}, isPrivate[idx := false];
    forall i | 0 <= i < |flags| && flags[i] ensures Owned(kvs', i) && OnStx(live - {c}, i) != {} {
      OwnedAfter(kvs, tid, idx, i);
      assert |OnStx(live, i)| > 0;
    }
    hide OnStx, Owned;
  }

  lemma OwnedAfter(kvs: map<nat, nat>, tid: nat, idx: nat, i: nat)
    requires tid in kvs && kvs[tid] == idx && i != idx && Owned(kvs, i)
    ensures Owned(kvs - {tid}, i)
  {
    var t :| t in kvs && kvs[t] == i;
    assert t in kvs - {tid} && (kvs - {tid})[t] == i;
  }

  lemma ReleasePrivateKeeps(refCnt: seq<int>, isPrivate: seq<bool>, kvs: map<nat, nat>, live: Contexts, c: nat, tid: nat, idx: nat)
    requires CountsHold(refCnt, live) && PrivateHold(isPrivate, kvs, live) && idx < |refCnt| == |isPrivate|
    requires c in live && live[c] == Context(tid, true, idx)
    ensures tid in kvs && refCnt[idx] == |OnStx(live, idx)| && CountsHold(refCnt[idx := refCnt[idx] - 1], live - {c})
    ensures if refCnt[idx] == 1 then PrivateHold(isPrivate[idx := false], kvs - {tid}, live - {c})
            else PrivateHold(isPrivate, kvs, live - {c})
  {
    assert refCnt[idx] == |OnStx(live, idx)|;
    OnlyOnes(isPrivate, kvs, live, c, tid, idx);
    ReleaseKeepsCounts(refCnt, live, c);
    hide CountsHold, PrivateHold, OnStx;
    if refCnt[idx] == 1 {
      ReleaseLastKeepsPrivate(isPrivate, kvs, live, c, tid, idx);
    } else {
      ReleaseOneKeepsPrivate(isPrivate, kvs, live, c);
    }
  }

  class Pool {
    const max: nat
    const threshold: int
    const allocator: Allocator
    const refCnt: array<int>
    const isPrivate: array<bool>
    var rrStart: nat
    var kvs: map<nat, nat>
    ghost var live: Contexts

    ghost predicate Valid()
      reads this, refCnt, isPrivate
    {
      && refCnt.Length == isPrivate.Length == max && (max > 0 ==> rrStart < max)
      && CountsHold(refCnt[..], live) && PrivateHold(isPrivate[..], kvs, live)
    }

    /** An STX that nobody uses is not private. */
    lemma UnusedIsNotPrivate(i: nat)
      requires Valid() && i < max && refCnt[i] == 0
      ensures !isPrivate[i]
    {
      assert refCnt[..][i] == |OnStx(live, i)|;
      assert OnStx(live, i) == {};
      assert isPrivate[..][i] == isPrivate[i];
    }

    constructor (n: nat, t: int, a: Allocator)
      ensures Valid() && live == map[] && max == n && fresh(refCnt) && fresh(isPrivate)
    {
      max, threshold, allocator := n, t, a;
      refCnt, isPrivate := new int[n](_ => 0), new bool[n](_ => false);
      rrStart, kvs, live := 0, map[], map[];
    }

    method SearchUnused() returns (idx: int)
      requires Valid()
      ensures idx == -1 || (0 <= idx < max && refCnt[idx] == 0 && !isPrivate[idx])
      ensures forall i :: 0 <= i < (if idx == -1 then max else idx) ==> refCnt[i] != 0
    {
      idx := -1;
      for i := 0 to max
        invariant idx == -1
        invariant forall k :: 0 <= k < i ==> refCnt[k] != 0
      {
        if refCnt[i] == 0 {
          UnusedIsNotPrivate(i);
          idx := i;
          break;
        }
      }
    }

    /** The search in turn: the first eligible STX from where the last search ended. */
    method SearchRoundRobin(limit: int) returns (idx: int)
      requires Valid()
      modifies `rrStart
      ensures idx == -1 ==> rrStart == old(rrStart) && forall i :: 0 <= i < max ==> !Eligible(refCnt[..], isPrivate[..], limit, i)
      ensures idx != -1 ==> 0 <= idx < max && Eligible(refCnt[..], isPrivate[..], limit, idx) && rrStart == (idx + 1) % max
      ensures idx != -1 ==> forall i :: 0 <= i < max && Turn(i, old(rrStart), max) < Turn(idx, old(rrStart), max) ==>
                              !Eligible(refCnt[..], isPrivate[..], limit, i)
    {
      hide CountsHold, PrivateHold, Turn, After;
      idx := -1;
      if max > 0 {
        var i := rrStart;
        FirstTurn(rrStart, max);
        for count := 0 to max
          invariant idx == -1 && rrStart == old(rrStart)
          invariant i == After(old(rrStart), count, max) < max
          invariant forall k :: 0 <= k < max && Turn(k, old(rrStart), max) < count ==>
                      !Eligible(refCnt[..], isPrivate[..], limit, k)
        {
          TurnOf(old(rrStart), count, max);
          if refCnt[i] > 0 && (refCnt[i] <= limit || limit == -1) && !isPrivate[i] {
            idx := i;
            rrStart := (i + 1) % max;
            break;
          }
          NextTurn(old(rrStart), count, max);
          i := (i + 1) % max;
        }
      }
    }

    ghost predicate SomeEligible(limit: int)
      reads refCnt, isPrivate
    {
      refCnt.Length == isPrivate.Length == max && exists i :: 0 <= i < max && Eligible(refCnt[..], isPrivate[..], limit, i)
    }

    /** An eligible STX, and with the round-robin policy the first one in turn. */
    ghost predicate Chosen(limit: int, idx: int)
      reads refCnt, isPrivate, `rrStart
    {
      && refCnt.Length == isPrivate.Length == max && rrStart < max && 0 <= idx < max
      && Eligible(refCnt[..], isPrivate[..], limit, idx)
      && (allocator.RoundRobin? ==>
            forall i :: 0 <= i < max && Turn(i, rrStart, max) < Turn(idx, rrStart, max) ==> !Eligible(refCnt[..], isPrivate[..], limit, i))
    }

    /** The shared search; a random probe ends at some eligible STX, whichever. */
    method SearchShared(limit: int) returns (idx: int)
      requires Valid()
      modifies `rrStart
      ensures max > 0 ==> rrStart < max
      ensures idx == -1 <==> forall i :: 0 <= i < max ==> !Eligible(refCnt[..], isPrivate[..], limit, i)
      ensures idx != -1 ==> 0 <= idx < max && old(Chosen(limit, idx))
      ensures rrStart == if idx != -1 && allocator.RoundRobin? then (idx + 1) % max else old(rrStart)
    {
      if allocator.RoundRobin? {
        idx := SearchRoundRobin(limit);
      } else if i :| 0 <= i < max && Eligible(refCnt[..], isPrivate[..], limit, i) {
        idx := i;
      } else {
        idx := -1;
      }
    }

    ghost predicate SomeUnused()
      reads refCnt
    {
      refCnt.Length == max && exists i :: 0 <= i < max && refCnt[i] == 0
    }

    /** Where a request without an STX of its own goes: below the threshold, else unused, else anywhere shared. */
    ghost predicate SharedChoice(idx: int)
      reads refCnt, isPrivate, `rrStart
    {
      if SomeEligible(threshold) then Chosen(threshold, idx)
      else if SomeUnused() then 0 <= idx < max && refCnt[idx] == 0
      else Chosen(-1, idx)
    }

    /** Some STX is unused or shared. */
    ghost predicate SomeUsable()
      reads refCnt, isPrivate
    {
      refCnt.Length == isPrivate.Length == max && exists i :: 0 <= i < max && (refCnt[i] == 0 || (refCnt[i] > 0 && !isPrivate[i]))
    }

    /** An STX for this thread exists already, or one is unused, or one is shared. */
    ghost predicate HasRoom(tid: nat, wantsPrivate: bool)
      reads `kvs, refCnt, isPrivate
    {
      max == 0 || (wantsPrivate && tid in kvs) || SomeUsable()
    }

    /** As long as some context without a private STX is live, every allocation has room. */
    lemma SharedContextMakesRoom(c: nat, tid: nat, wantsPrivate: bool)
      requires Valid() && c in live && !live[c].private
      ensures HasRoom(tid, wantsPrivate)
    {
      if max > 0 {
        var i := live[c].stx;
        assert c in OnStx(live, i);
        assert refCnt[..][i] > 0 && !isPrivate[..][i];
        assert refCnt[i] > 0 && !isPrivate[i];
      }
    }

    /** Before any context exists there is room too. */
    lemma EmptyPoolHasRoom(tid: nat, wantsPrivate: bool)
      requires Valid() && live == map[]
      ensures HasRoom(tid, wantsPrivate)
    {
      if max > 0 {
        assert refCnt[..][0] == |OnStx(live, 0)|;
        assert refCnt[0] == 0;
      }
    }

    /** Contexts on a private STX all belong to the one thread that the hash table maps to it. */
    lemma OneThreadPerPrivateStx(c: nat, d: nat)
      requires Valid() && c in live && d in live && live[c].stx == live[d].stx >= 0 && isPrivate[live[c].stx]
      ensures live[c].private && live[d].private && live[c].tid == live[d].tid
      ensures live[c].tid in kvs && kvs[live[c].tid] == live[c].stx
    {
      assert isPrivate[..][live[c].stx];
    }

    /** The failed searches mean that nothing is usable. */
    lemma NothingUsable()
      requires Valid() && (forall i :: 0 <= i < max ==> refCnt[i] != 0)
      requires forall i :: 0 <= i < max ==> !Eligible(refCnt[..], isPrivate[..], -1, i)
      ensures !SomeUsable()
    {
      forall i | 0 <= i < max ensures !(refCnt[i] > 0 && !isPrivate[i]) {
        assert !Eligible(refCnt[..], isPrivate[..], -1, i);
      }
    }

    /** Count context c on an STX that is its thread's own, or that is not private. */
    method Bind(ghost c: nat, tid: nat, private: bool, idx: nat)
      requires Valid() == true && c !in live && idx < max && max == refCnt.Length == isPrivate.Length
      requires if private then tid in kvs && kvs[tid] == idx else !isPrivate[idx]
      modifies refCnt, `live
      ensures Valid() == true && live == old(live)[c := Context(tid, private, idx)]
    {
      hide CountsHold, PrivateHold, OnStx, Owned;
      ghost var counts, flags, x := refCnt[..], isPrivate[..], Context(tid, private, idx);
      BindKeepsCounts(counts, live, c, x);
      assert flags[idx] == isPrivate[idx];
      BindKeepsPrivate(flags, kvs, live, c, x);
      refCnt[idx] := refCnt[idx] + 1;
      assert refCnt[..] == counts[idx := counts[idx] + 1];
      live := live[c := Context(tid, private, idx)];
    }

    /** An unused STX becomes the private one of this thread. */
    method BindNewPrivate(ghost c: nat, tid: nat, idx: nat)
      requires Valid() == true && c !in live && idx < max == refCnt.Length == isPrivate.Length && refCnt[idx] == 0 && tid !in kvs
      modifies refCnt, isPrivate, `kvs, `live
      ensures Valid() == true && live == old(live)[c := Context(tid, true, idx)] && kvs == old(kvs)[tid := idx]
    {
      ghost var counts, flags := refCnt[..], isPrivate[..];
      assert counts[idx] == |OnStx(live, idx)|;
      assert OnStx(live, idx) == {};
      BindKeepsCounts(counts, live, c, Context(tid, true, idx));
      BindNewKeepsPrivate(flags, kvs, live, c, tid, idx);
      hide CountsHold, PrivateHold;
      refCnt[idx] := refCnt[idx] + 1;
      isPrivate[idx] := true;
      assert refCnt[..] == counts[idx := counts[idx] + 1] && isPrivate[..] == flags[idx := true];
      kvs := kvs[tid := idx];
      live := live[c := Context(tid, true, idx)];
    }

    /** A private request of a thread without an STX: an unused one, else a shared one. */
    method AllocatePrivate(ghost c: nat, tid: nat) returns (ok: bool, idx: int, private: bool)
      requires Valid() == true && c !in live && max > 0 && tid !in kvs && max == refCnt.Length == isPrivate.Length
      modifies this, refCnt, isPrivate
      ensures Valid() == true && ok == old(SomeUsable())
      ensures ok ==> 0 <= idx < max && live == old(live)[c := Context(tid, private, idx)]
      ensures !ok ==> live == old(live)
      ensures kvs == if ok && private then old(kvs)[tid := idx] else old(kvs)
      ensures ok ==> private == old(SomeUnused())
      ensures ok ==> if private then old(refCnt[idx]) == 0 else old(SharedChoice(idx))
    {
      hide CountsHold, PrivateHold, Chosen;
      private := true;
      idx := SearchUnused();
      if idx >= 0 {
        ok := true;
        assert SomeUsable();
        BindNewPrivate(c, tid, idx);
      } else {
        private := false;
        idx := SearchShared(threshold);
        if idx < 0 { idx := SearchShared(-1); }
        ok := idx >= 0;
        if ok {
          assert SomeUsable();
          Bind(c, tid, false, idx);
        } else {
          NothingUsable();
        }
      }
    }

    /** Any other request: a shared one below the threshold, else an unused one, else any shared one. */
    method AllocateShared(ghost c: nat, tid: nat) returns (ok: bool, idx: int)
      requires Valid() == true && c !in live && max > 0 && max == refCnt.Length == isPrivate.Length
      modifies refCnt, `live, `rrStart
      ensures Valid() == true && ok == old(SomeUsable()) && kvs == old(kvs)
      ensures ok ==> 0 <= idx < max && live == old(live)[c := Context(tid, false, idx)] && old(SharedChoice(idx))
      ensures !ok ==> live == old(live)
    {
      hide CountsHold, PrivateHold, Chosen;
      idx := SearchShared(threshold);
      if idx < 0 { idx := SearchUnused(); }
      if idx < 0 {
        idx := SearchShared(-1);
        if idx < 0 { NothingUsable(); }
      }
      ok := idx >= 0;
      if ok {
        assert SomeUsable();
        Bind(c, tid, false, idx);
      }
    }

    /** Shape facts that follow from validity. */
    lemma InRange(c: nat)
      requires Valid()
      ensures refCnt.Length == isPrivate.Length == max
      ensures c in live ==> -1 <= live[c].stx < max && (live[c].stx == -1 ==> max == 0)
      ensures c in kvs ==> kvs[c] < max
    {
    }

    /**
      stx_allocate for a new context c.  It succeeds exactly when there is room.  A private request
      gets the STX its thread has, else an unused one that becomes the thread's; only when there is
      neither is it served like a shared one.
    */
    method Allocate(ghost c: nat, tid: nat, wantsPrivate: bool) returns (ok: bool, idx: int, private: bool)
      requires Valid() == true && c !in live
      modifies this, refCnt, isPrivate
      ensures Valid() == true
      ensures ok == old(HasRoom(tid, wantsPrivate))
      ensures ok ==> live == old(live)[c := Context(tid, private, idx)] && (if max == 0 then idx == -1 else 0 <= idx < max)
      ensures !ok ==> live == old(live) && kvs == old(kvs)
      ensures private ==> wantsPrivate
      ensures ok && wantsPrivate ==> (private <==> max == 0 || tid in old(kvs) || old(SomeUnused()))
      ensures ok && max > 0 ==>
                if !private then old(SharedChoice(idx))
                else if tid in old(kvs) then idx == old(kvs)[tid]
                else old(refCnt[idx]) == 0
      ensures kvs == if ok && max > 0 && private && tid !in old(kvs) then old(kvs)[tid := idx] else old(kvs)
    {
      InRange(tid);
      ok, idx, private := true, -1, wantsPrivate;
      if max == 0 {
        live := live[c := Context(tid, private, -1)];
      } else if wantsPrivate && tid in kvs {
        idx := kvs[tid];
        Bind(c, tid, true, idx);
      } else if wantsPrivate {
        ok, idx, private := AllocatePrivate(c, tid);
      } else {
        ok, idx := AllocateShared(c, tid);
      }
    }

    /** The last private context of a thread gives the thread's STX back. */
    method ReleasePrivate(ghost c: nat, tid: nat, idx: nat)
      requires Valid() == true && c in live && live[c] == Context(tid, true, idx) && idx < max == refCnt.Length == isPrivate.Length
      modifies refCnt, isPrivate, `kvs, `live
      ensures Valid() == true && live == old(live) - {c}
      ensures kvs == if old(refCnt[idx]) == 1 then old(kvs) - {tid} else old(kvs)
    {
      hide CountsHold, PrivateHold, OnStx;
      ghost var counts, flags := refCnt[..], isPrivate[..];
      ReleasePrivateKeeps(counts, flags, kvs, live, c, tid, idx);
      if tid in kvs {
        refCnt[idx] := refCnt[idx] - 1;
        assert refCnt[..] == counts[idx := counts[idx] - 1];
        if refCnt[idx] == 0 {
          kvs := kvs - {tid};
          isPrivate[idx] := false;
          assert isPrivate[..] == flags[idx := false];
        } else {
          assert isPrivate[..] == flags;
        }
      }
      live := live - {c};
    }

    /** The STX part of destroying a live context. */
    method Release(ghost c: nat, tid: nat, private: bool, idx: int)
      requires Valid() == true && c in live && live[c] == Context(tid, private, idx)
      modifies this, refCnt, isPrivate
      ensures Valid() == true && live == old(live) - {c}
      ensures kvs == if private && idx >= 0 && |OnStx(old(live), idx)| == 1 then old(kvs) - {tid} else old(kvs)
    {
      InRange(c);
      if idx >= 0 {
        assert refCnt[..][idx] == |OnStx(live, idx)|;
        if private {
          ReleasePrivate(c, tid, idx);
        } else {
          ghost var counts := refCnt[..];
          ReleaseKeepsCounts(counts, live, c);
          ReleaseOneKeepsPrivate(isPrivate[..], kvs, live, c);
          hide CountsHold, PrivateHold;
          refCnt[idx] := refCnt[idx] - 1;
          assert refCnt[..] == counts[idx := counts[idx] - 1];
          live := live - {c};
        }
      } else {
        live := live - {c};
      }
    }
  }

  /** How many steps after start, going around, i comes. */
  function Turn(i: nat, start: nat, n: nat): nat
    requires i < n && start < n
  {
    if i >= start then i - start else i + n - start
  }

  /** What comes `count` steps after start, going around. */
  function After(start: nat, count: nat, n: nat): (r: nat)
    requires n > 0
    ensures r < n
  {
    (start + count) % n
  }

  lemma TurnOf(start: nat, count: nat, n: nat)
    requires start < n && count < n
    ensures forall k :: 0 <= k < n && Turn(k, start, n) == count ==> k == After(start, count, n)
    ensures Turn(After(start, count, n), start, n) == count
  {
    ModBelowTwice(start + count, n);
  }

  lemma FirstTurn(start: nat, n: nat)
    requires start < n
    ensures After(start, 0, n) == start
    ensures forall k :: 0 <= k < n ==> 0 <= Turn(k, start, n) < n
  {
    ModBelowTwice(start, n);
  }

  lemma NextTurn(start: nat, count: nat, n: nat)
    requires start < n && count < n
    ensures (After(start, count, n) + 1) % n == After(start, count + 1, n)
  {
    ModBelowTwice(start + count, n);
    ModBelowTwice((start + count) % n + 1, n);
    ModBelowTwice(start + count + 1, n);
    if start + count + 1 == 2 * n { DivModUnique(2 * n, n, 2, 0); }
  }

  lemma OneMore(live: Contexts, c: nat, x: Context)
    requires c !in live
    ensures forall i :: |OnStx(live[c := x], i)| == |OnStx(live, i)| + if i == x.stx then 1 else 0
  {
    forall i ensures |OnStx(live[c := x], i)| == |OnStx(live, i)| + if i == x.stx then 1 else 0 {
      assert OnStx(live[c := x], i) == OnStx(live, i) + if i == x.stx then {c} else {};
    }
  }

  lemma StillUsed(live: Contexts, c: nat, x: Context)
    requires c !in live
    ensures forall i :: OnStx(live, i) <= OnStx(live[c := x], i)
    ensures c in OnStx(live[c := x], x.stx)
  {
  }

  lemma OneLess(live: Contexts, c: nat)
    requires c in live
    ensures forall i :: |OnStx(live - {c}, i)| == |OnStx(live, i)| - if i == live[c].stx then 1 else 0
  {
    forall i ensures |OnStx(live - {c}, i)| == |OnStx(live, i)| - if i == live[c].stx then 1 else 0 {
      assert OnStx(live, i) == OnStx(live - {c}, i) + if i == live[c].stx then {c} else {};
    }
  }
}
