/** Counting down: what shows that a protocol in which every step does a bit of the work comes to an end. */
module Progress {
  function Sum(ms: seq<nat>): nat {
    if ms == [] then 0 else ms[0] + Sum(ms[1..])
  }

  lemma {:induction false} SumUpdate(ms: seq<nat>, p: nat, v: nat)
    requires p < |ms|
    ensures Sum(ms[p := v]) == Sum(ms) - ms[p] + v
  {
    if p == 0 {
      assert ms[p := v][1..] == ms[1..];
    } else {
      SumUpdate(ms[1..], p - 1, v);
      assert ms[p := v][1..] == ms[1..][p - 1 := v];
    }
  }

  /** One less to do in one place is less to do in all. */
  lemma SumDrops(ms: seq<nat>, ms': seq<nat>, p: nat)
    requires |ms'| == |ms| && p < |ms| && ms'[p] < ms[p]
    requires forall q :: 0 <= q < |ms| && q != p ==> ms'[q] == ms[q]
    ensures Sum(ms') < Sum(ms)
  {
    assert ms' == ms[p := ms'[p]];
    SumUpdate(ms, p, ms'[p]);
  }

  /** Two less to do in one place and at most one more in another is less to do in all. */
  lemma SumMoves(ms: seq<nat>, ms': seq<nat>, p: nat, c: nat)
    requires |ms'| == |ms| && p < |ms| && c < |ms| && p != c
    requires ms'[p] + 2 <= ms[p] && ms'[c] <= ms[c] + 1
    requires forall q :: 0 <= q < |ms| && q != p && q != c ==> ms'[q] == ms[q]
    ensures Sum(ms') < Sum(ms)
  {
    var mid := ms[p := ms'[p]];
    assert ms' == mid[c := ms'[c]];
    SumUpdate(ms, p, ms'[p]);
    SumUpdate(mid, c, ms'[c]);
  }

  /** So many calls at so many steps each. */
  function AllCalls(calls: nat, cost: nat): nat {
    calls * cost
  }

  lemma OneCallLess(calls: nat, cost: nat)
    requires calls > 0
    ensures AllCalls(calls - 1, cost) == AllCalls(calls, cost) - cost
  {
    assert (calls - 1) * cost == calls * cost - cost;
  }

  /** Sums of sums. */
  function Total(m: seq<seq<nat>>): nat {
    if m == [] then 0 else Sum(m[0]) + Total(m[1..])
  }

  lemma {:induction false} TotalUpdate(m: seq<seq<nat>>, m': seq<seq<nat>>, p: nat, i: nat)
    requires |m'| == |m| && p < |m| && i < |m[p]| == |m'[p]| && m'[p] == m[p][i := m'[p][i]]
    requires forall q :: 0 <= q < |m| && q != p ==> m'[q] == m[q]
    ensures Total(m') == Total(m) - m[p][i] + m'[p][i]
  {
    if p == 0 {
      assert m'[1..] == m[1..];
      SumUpdate(m[0], i, m'[0][i]);
    } else {
      TotalUpdate(m[1..], m'[1..], p - 1, i);
    }
  }

  lemma {:induction false} TotalZero(m: seq<seq<nat>>)
    requires forall p, i :: 0 <= p < |m| && 0 <= i < |m[p]| ==> m[p][i] == 0
    ensures Total(m) == 0
  {
    if m != [] {
      SumBound(m[0], 0);
      TotalZero(m[1..]);
    }
  }

  lemma {:induction false} SumBound(ms: seq<nat>, b: nat)
    requires forall q :: 0 <= q < |ms| ==> ms[q] <= b
    ensures Sum(ms) <= |ms| * b
  {
    if ms != [] { SumBound(ms[1..], b); }
  }

  /** 1 for what is still to happen. */
  function Open(happened: bool): nat {
    if happened then 0 else 1
  }

  /** The pairs of p with numbers below m that are still missing. */
  function Missing(p: nat, m: nat, there: set<(nat, nat)>): nat {
    if m == 0 then 0 else Open((p, m - 1) in there) + Missing(p, m - 1, there)
  }

  lemma {:induction false} MissingDrops(p: nat, m: nat, there: set<(nat, nat)>, i: nat)
    requires i < m && (p, i) !in there
    ensures Missing(p, m, there + {(p, i)}) == Missing(p, m, there) - 1
  {
    if i < m - 1 { MissingDrops(p, m - 1, there, i); } else { MissingStays(p, m - 1, there, p, i); }
  }

  lemma {:induction false} MissingStays(q: nat, m: nat, there: set<(nat, nat)>, p: nat, i: nat)
    requires q != p || i >= m
    ensures Missing(q, m, there + {(p, i)}) == Missing(q, m, there)
  {
    if m > 0 { MissingStays(q, m - 1, there, p, i); }
  }

  lemma {:induction false} MissingBound(p: nat, m: nat, there: set<(nat, nat)>)
    ensures Missing(p, m, there) <= m
  {
    if m > 0 { MissingBound(p, m - 1, there); }
  }
}
