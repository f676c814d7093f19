/**
  The doubly linked rings of src/malloc.c: the chunks of a small bin together with the bin's
  header, and the chunks of one size in a tree.  The fd word of a chunk is at offset 16, its bk
  word at 24.
*/
module Rings {
  import opened HeapWords
  import opened TreeBins

  const FD: nat := 16
  const BK: nat := 24

  function Fd(mem: Memory, a: nat): nat {
    Word(mem, a + FD)
  }

  function Bk(mem: Memory, a: nat): nat {
    Word(mem, a + BK)
  }

  /** b follows a. */
  predicate Joint(mem: Memory, a: nat, b: nat) {
    Fd(mem, a) == b && Bk(mem, b) == a
  }

  /** Each of these nodes follows the one before it. */
  predicate Path(mem: Memory, s: seq<nat>) {
    forall i {:trigger s[i]} :: 0 < i < |s| ==> Joint(mem, s[i - 1], s[i])
  }

  /**
    Following fd from the first of these nodes, one meets the others in order and then the first
    again; following bk, one meets them backwards.
  */
  predicate Ring(mem: Memory, nodes: seq<nat>) {
    nodes != [] && NoRepeats(nodes) && Path(mem, nodes + [nodes[0]])
  }

  /** Two nodes are the same, or so far from each other that their fd and bk words are different words. */
  predicate Clear(a: nat, b: nat) {
    a == b || a + 16 <= b || b + 16 <= a
  }

  predicate AllClear(nodes: seq<nat>) {
    forall i, j :: 0 <= i < |nodes| && 0 <= j < |nodes| ==> Clear(nodes[i], nodes[j])
  }

  lemma PathStays(mem: Memory, mem': Memory, s: seq<nat>)
    requires Path(mem, s)
    requires forall i {:trigger s[i]} :: 0 <= i < |s| - 1 ==> Fd(mem', s[i]) == Fd(mem, s[i])
    requires forall i {:trigger s[i]} :: 0 < i < |s| ==> Bk(mem', s[i]) == Bk(mem, s[i])
    ensures Path(mem', s)
  {
    forall i | 0 < i < |s| ensures Joint(mem', s[i - 1], s[i]) {
      assert Joint(mem, s[i - 1], s[i]);
    }
  }

  lemma PathJoin(mem: Memory, a: seq<nat>, b: seq<nat>)
    requires a != [] && b != [] && Path(mem, a) && Path(mem, b) && Joint(mem, a[|a| - 1], b[0])
    ensures Path(mem, a + b)
  {
    var s := a + b;
    forall i | 0 < i < |s| ensures Joint(mem, s[i - 1], s[i]) {
      if i > |a| {
        assert s[i - 1] == b[i - 1 - |a|] && s[i] == b[i - |a|];
      } else if i < |a| {
        assert s[i - 1] == a[i - 1] && s[i] == a[i];
      }
    }
  }

  lemma PathPart(mem: Memory, s: seq<nat>, i: nat, j: nat)
    requires Path(mem, s) && i <= j <= |s|
    ensures Path(mem, s[i..j])
  {
    var p := s[i..j];
    forall k | 0 < k < |p| ensures Joint(mem, p[k - 1], p[k]) {
      assert p[k - 1] == s[i + k - 1] && p[k] == s[i + k];
    }
  }

  /** A ring is not affected by changes of other words. */
  lemma RingStays(mem: Memory, mem': Memory, nodes: seq<nat>)
    requires Ring(mem, nodes)
    requires forall i {:trigger nodes[i]} :: 0 <= i < |nodes| ==>
               Fd(mem', nodes[i]) == Fd(mem, nodes[i]) && Bk(mem', nodes[i]) == Bk(mem, nodes[i])
    ensures Ring(mem', nodes)
  {
    PathStays(mem, mem', nodes + [nodes[0]]);
  }

  // ------------------------------------------------------------------ linking in

  /** Chunk x goes between h and f, the node after h. */
  function LinkIn(mem: Memory, h: nat, f: nat, x: nat): Memory {
    mem[h + FD := x][f + BK := x][x + FD := f][x + BK := h]
  }

  /** Chunk x becomes a ring of its own. */
  function LinkAlone(mem: Memory, x: nat): Memory {
    mem[x + FD := x][x + BK := x]
  }

  lemma AloneIsRing(mem: Memory, x: nat)
    ensures Ring(LinkAlone(mem, x), [x])
  {
  }

  /** What other nodes see of it. */
  lemma LinkInFd(mem: Memory, h: nat, f: nat, x: nat, a: nat)
    requires Clear(h, a) && Clear(f, a) && Clear(x, a) && a != h && a != x
    ensures Fd(LinkIn(mem, h, f, x), a) == Fd(mem, a)
  {
  }

  lemma LinkInBk(mem: Memory, h: nat, f: nat, x: nat, a: nat)
    requires Clear(h, a) && Clear(f, a) && Clear(x, a) && a != f && a != x
    ensures Bk(LinkIn(mem, h, f, x), a) == Bk(mem, a)
  {
  }

  lemma LinkInJoints(mem: Memory, h: nat, f: nat, x: nat)
    requires Clear(h, x) && Clear(f, x) && Clear(h, f) && x != h && x != f
    ensures Joint(LinkIn(mem, h, f, x), h, x) && Joint(LinkIn(mem, h, f, x), x, f)
  {
  }

  /** x linked between h and itself gives a ring of two, whatever the words of h said before. */
  lemma PairIsRing(mem: Memory, h: nat, x: nat)
    requires Clear(h, x) && x != h
    ensures Ring(LinkIn(mem, h, h, x), [h, x])
  {
    LinkInJoints(mem, h, h, x);
  }

  /** Words linking in does not change. */
  lemma LinkInKeepsPath(mem: Memory, q: seq<nat>, x: nat)
    requires q != [] && Path(mem, q) && NoRepeats(q) && AllClear(q + [x]) && x !in q
    ensures Path(LinkIn(mem, q[|q| - 1], q[0], x), q)
  {
    hide LinkIn, Clear, Joint, Fd, Bk, AllClear, Path;
    var h, f := q[|q| - 1], q[0];
    var mem' := LinkIn(mem, h, f, x);
    forall i | 0 <= i < |q| - 1 ensures Fd(mem', q[i]) == Fd(mem, q[i]) {
      ClearIn(q + [x], i, |q| - 1, 0, |q|);
      LinkInFd(mem, h, f, x, q[i]);
    }
    forall i | 0 < i < |q| ensures Bk(mem', q[i]) == Bk(mem, q[i]) {
      ClearIn(q + [x], i, |q| - 1, 0, |q|);
      LinkInBk(mem, h, f, x, q[i]);
    }
    PathStays(mem, mem', q);
  }

  /** A node linked in after the first comes second. */
  lemma LinkInSecond(mem: Memory, nodes: seq<nat>, x: nat)
    requires Ring(mem, nodes) && AllClear([x] + nodes) && x !in nodes
    ensures Ring(LinkIn(mem, nodes[0], Fd(mem, nodes[0]), x), [nodes[0], x] + nodes[1..])
  {
    var h, closed := nodes[0], nodes + [nodes[0]];
    var q := nodes[1..] + [h];
    assert closed == [h] + q && q == closed[1..];
    PathPart(mem, closed, 1, |closed|);
    var f := q[0];
    assert Joint(mem, closed[0], closed[1]);
    var mem' := LinkIn(mem, h, f, x);
    hide LinkIn, Clear, Joint, AllClear, Path;
    assert nodes == [h] + nodes[1..];
    SwapNoRepeats([h], nodes[1..]);
    AllClearAt([x] + nodes, q + [x]);
    LinkInKeepsPath(mem, q, x);
    ClearIn(q + [x], |q|, |q| - 1, 0, |q|);
    ClearIn(q + [x], 0, |q| - 1, |q| - 1, |q| - 1);
    LinkInJoints(mem, h, f, x);
    RingFromSecond(mem', nodes, x);
  }

  lemma RingFromSecond(mem: Memory, nodes: seq<nat>, x: nat)
    requires nodes != [] && NoRepeats(nodes) && x !in nodes
    requires Path(mem, nodes[1..] + [nodes[0]])
    requires Joint(mem, nodes[0], x) && Joint(mem, x, (nodes[1..] + [nodes[0]])[0])
    ensures Ring(mem, [nodes[0], x] + nodes[1..])
  {
    hide Joint, Path;
    var h, q := nodes[0], nodes[1..] + [nodes[0]];
    OnePath(mem, h, x);
    PathJoin(mem, [h, x], q);
    var new' := [h, x] + nodes[1..];
    assert new' + [h] == [h, x] + q;
    SecondNoRepeats(nodes, x);
  }

  lemma OnePath(mem: Memory, a: nat, b: nat)
    requires Joint(mem, a, b)
    ensures Path(mem, [a, b])
  {
  }

  lemma SecondNoRepeats(nodes: seq<nat>, x: nat)
    requires nodes != [] && NoRepeats(nodes) && x !in nodes
    ensures NoRepeats([nodes[0], x] + nodes[1..])
  {
  }

  lemma SwapNoRepeats(a: seq<nat>, b: seq<nat>)
    requires NoRepeats(a + b)
    ensures NoRepeats(b + a)
  {
    var ab, ba := a + b, b + a;
    forall i, j | 0 <= i < j < |ba| ensures ba[i] != ba[j] {
      assert ba[i] == ab[if i < |b| then |a| + i else i - |b|];
      assert ba[j] == ab[if j < |b| then |a| + j else j - |b|];
    }
  }

  lemma AllClearAt(s: seq<nat>, t: seq<nat>)
    requires AllClear(s) && forall a :: a in t ==> a in s
    ensures AllClear(t)
  {
    forall i, j | 0 <= i < |t| && 0 <= j < |t| ensures Clear(t[i], t[j]) {
      assert t[i] in s && t[j] in s;
    }
  }

  lemma ClearIn(s: seq<nat>, i: nat, j: nat, k: nat, l: nat)
    requires AllClear(s) && i < |s| && j < |s| && k < |s| && l < |s|
    ensures Clear(s[j], s[i]) && Clear(s[k], s[i]) && Clear(s[l], s[i])
  {
  }

  // ------------------------------------------------------------------ linking out

  /** The two neighbours of x are made to point at each other; the words of x stay. */
  function LinkOut(mem: Memory, x: nat): Memory {
    mem[Fd(mem, x) + BK := Bk(mem, x)][Bk(mem, x) + FD := Fd(mem, x)]
  }

  lemma LinkOutFd(mem: Memory, x: nat, a: nat)
    requires Clear(Fd(mem, x), a) && Clear(Bk(mem, x), a)
    ensures Fd(LinkOut(mem, x), a) == if a == Bk(mem, x) then Fd(mem, x) else Fd(mem, a)
    ensures Bk(LinkOut(mem, x), a) == if a == Fd(mem, x) then Bk(mem, x) else Bk(mem, a)
  {
  }

  /** The ring can be read from any of its nodes. */
  lemma Rotate(mem: Memory, a: seq<nat>, b: seq<nat>)
    requires a != [] && b != [] && Ring(mem, a + b)
    ensures Ring(mem, b + a)
  {
    var closed := a + b + [a[0]];
    assert closed == (a + b) + [(a + b)[0]];
    hide Joint, NoRepeats;
    PathPart(mem, closed, |a|, |closed|);
    PathPart(mem, closed, 0, |a| + 1);
    assert closed[|a|..|closed|] == b + [a[0]] && closed[0..|a| + 1] == a + [b[0]];
    assert [a[0]] + (a[1..] + [b[0]]) == a + [b[0]];
    PathGlue(mem, b, a[0], a[1..] + [b[0]]);
    assert (b + [a[0]]) + (a[1..] + [b[0]]) == (b + a) + [(b + a)[0]];
    SwapNoRepeats(a, b);
  }

  /** Two paths that share a node. */
  lemma PathGlue(mem: Memory, a: seq<nat>, m: nat, b: seq<nat>)
    requires Path(mem, a + [m]) && Path(mem, [m] + b)
    ensures Path(mem, (a + [m]) + b)
  {
    var s, l, r := (a + [m]) + b, a + [m], [m] + b;
    forall i | 0 < i < |s| ensures Joint(mem, s[i - 1], s[i]) {
      if i > |a| {
        assert s[i - 1] == r[i - 1 - |a|] && s[i] == r[i - |a|];
      } else {
        assert s[i - 1] == l[i - 1] && s[i] == l[i];
      }
    }
  }

  /** Words linking out does not change. */
  lemma LinkOutKeepsPath(mem: Memory, x: nat, u: seq<nat>)
    requires Path(mem, u) && AllClear([Bk(mem, x), Fd(mem, x)] + u)
    requires forall i :: 0 <= i < |u| - 1 ==> u[i] != Bk(mem, x)
    requires forall i :: 0 < i < |u| ==> u[i] != Fd(mem, x)
    ensures Path(LinkOut(mem, x), u)
  {
    hide LinkOut, Clear, Joint, AllClear, Path;
    var mem', b, f := LinkOut(mem, x), Bk(mem, x), Fd(mem, x);
    forall i | 0 <= i < |u|
      ensures (i < |u| - 1 ==> Fd(mem', u[i]) == Fd(mem, u[i])) && (i > 0 ==> Bk(mem', u[i]) == Bk(mem, u[i]))
    {
      ClearIn([b, f] + u, i + 2, 0, 1, 1);
      LinkOutFd(mem, x, u[i]);
    }
    PathStays(mem, mem', u);
  }

  /** Before and after node k, its neighbours occur only next to it. */
  lemma NeighboursOnce(nodes: seq<nat>, k: nat, u: seq<nat>, v: seq<nat>)
    requires NoRepeats(nodes) && 0 < k < |nodes| && u == nodes[..k] && v == nodes[k + 1..] + [nodes[0]]
    ensures forall i :: 0 <= i < |u| - 1 ==> u[i] != nodes[k - 1]
    ensures forall i :: 0 < i < |u| ==> u[i] != v[0]
    ensures forall i :: 0 <= i < |v| - 1 ==> v[i] != nodes[k - 1]
    ensures forall i :: 0 < i < |v| ==> v[i] != v[0]
  {
  }

  lemma NeighboursOf(mem: Memory, nodes: seq<nat>, k: nat)
    requires Ring(mem, nodes) && 0 < k < |nodes|
    ensures Bk(mem, nodes[k]) == nodes[k - 1]
    ensures Fd(mem, nodes[k]) == nodes[if k + 1 < |nodes| then k + 1 else 0]
    ensures Path(mem, nodes[..k]) && Path(mem, nodes[k + 1..] + [nodes[0]])
  {
    var closed := nodes + [nodes[0]];
    assert Joint(mem, closed[k - 1], closed[k]) && Joint(mem, closed[k], closed[k + 1]);
    assert closed[0..k] == nodes[..k] && closed[k + 1..|closed|] == nodes[k + 1..] + [nodes[0]];
    PathPart(mem, closed, 0, k);
    PathPart(mem, closed, k + 1, |closed|);
  }

  /** Taking out a node that is not the first. */
  lemma LinkOutAt(mem: Memory, nodes: seq<nat>, k: nat)
    requires Ring(mem, nodes) && AllClear(nodes) && 0 < k < |nodes|
    ensures Bk(mem, nodes[k]) == nodes[k - 1]
    ensures Fd(mem, nodes[k]) == nodes[if k + 1 < |nodes| then k + 1 else 0]
    ensures Ring(LinkOut(mem, nodes[k]), nodes[..k] + nodes[k + 1..])
  {
    NeighboursOf(mem, nodes, k);
    hide LinkOut, Clear, Joint, Fd, Bk, AllClear, Path;
    var x, u, v := nodes[k], nodes[..k], nodes[k + 1..] + [nodes[0]];
    var f, b := v[0], u[k - 1];
    NeighboursOnce(nodes, k, u, v);
    AllClearAt(nodes, [b, f] + u);
    AllClearAt(nodes, [b, f] + v);
    LinkOutKeepsPath(mem, x, u);
    LinkOutKeepsPath(mem, x, v);
    LinkOutJoint(mem, nodes, x, b, f);
    RingFromPaths(LinkOut(mem, x), nodes, k);
  }

  lemma RingFromPaths(mem: Memory, nodes: seq<nat>, k: nat)
    requires NoRepeats(nodes) && 0 < k < |nodes|
    requires Path(mem, nodes[..k]) && Path(mem, nodes[k + 1..] + [nodes[0]])
    requires Joint(mem, nodes[k - 1], (nodes[k + 1..] + [nodes[0]])[0])
    ensures Ring(mem, nodes[..k] + nodes[k + 1..])
  {
    hide Joint, Path;
    var u, v := nodes[..k], nodes[k + 1..] + [nodes[0]];
    PathJoin(mem, u, v);
    var new' := nodes[..k] + nodes[k + 1..];
    assert new' + [new'[0]] == u + v;
  }

  lemma LinkOutJoint(mem: Memory, nodes: seq<nat>, x: nat, b: nat, f: nat)
    requires AllClear(nodes) && b in nodes && f in nodes && Fd(mem, x) == f && Bk(mem, x) == b
    ensures Joint(LinkOut(mem, x), b, f)
  {
    AllClearAt(nodes, [b, f]);
    ClearIn([b, f], 0, 1, 1, 1);
  }

  /** Taking out the first node: its bk neighbour comes first then. */
  lemma LinkOutFirst(mem: Memory, nodes: seq<nat>)
    requires Ring(mem, nodes) && AllClear(nodes) && |nodes| > 1
    ensures Bk(mem, nodes[0]) == nodes[|nodes| - 1]
    ensures Fd(mem, nodes[0]) == nodes[1]
    ensures Ring(LinkOut(mem, nodes[0]), [nodes[|nodes| - 1]] + nodes[1..|nodes| - 1])
  {
    var n := |nodes|;
    var last := nodes[n - 1];
    assert nodes == nodes[..n - 1] + [last];
    Rotate(mem, nodes[..n - 1], [last]);
    var turned := [last] + nodes[..n - 1];
    AllClearAt(nodes, turned);
    LinkOutAt(mem, turned, 1);
    assert turned[1] == nodes[0] && turned[..1] + turned[2..] == [last] + nodes[1..n - 1];
    var closed := nodes + [nodes[0]];
    assert Joint(mem, closed[0], closed[1]);
  }

  /** Only in a ring of one is a node its own neighbour. */
  lemma OwnNeighbour(mem: Memory, nodes: seq<nat>, k: nat)
    requires Ring(mem, nodes) && k < |nodes|
    ensures Bk(mem, nodes[k]) == nodes[k] <==> |nodes| == 1
    ensures Fd(mem, nodes[k]) in nodes && Bk(mem, nodes[k]) in nodes
  {
    var closed, n := nodes + [nodes[0]], |nodes|;
    assert Joint(mem, closed[k], closed[k + 1]);
    if k > 0 { assert Joint(mem, closed[k - 1], closed[k]); } else { assert Joint(mem, closed[n - 1], closed[n]); }
  }
}
