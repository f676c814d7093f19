/**
  The link words behind the small bins of src/malloc.c.  malloc_state lies at some address gm
  outside the heap; the header of small bin i is treated as a chunk at gm + 72 + 16 i, so that its
  fd and bk are words of the array smallbins.  A bin that smallmap marks is a ring of its header
  and its chunks.  The words of a header whose bin is not marked mean nothing.
*/
module SmallLinks {
  import opened HeapWords
  import opened TreeBins
  import opened SmallBins
  import opened Rings

  const STATE_BYTES: nat := 856   // up to the end of the array treebins

  /** smallbin_at */
  function SmallBinAt(gm: nat, i: nat): nat {
    gm + 72 + 16 * i
  }

  /** Word w is a word of chunk x behind its head. */
  predicate InBody(x: (nat, nat), w: nat) {
    x.0 + 16 <= w < x.0 + x.1
  }

  predicate ApartFrom(x: (nat, nat), y: (nat, nat)) {
    x != y ==> x.0 + x.1 <= y.0 || y.0 + y.1 <= x.0
  }

  predicate OutsideState(gm: nat, x: (nat, nat)) {
    x.1 >= 32 && x.0 > 0 && (gm + STATE_BYTES <= x.0 || x.0 + x.1 <= gm)
  }

  /** Chunks that do not overlap each other or malloc_state. */
  ghost predicate Separated(gm: nat, items: set<(nat, nat)>) {
    && (forall x {:trigger OutsideState(gm, x)} :: x in items ==> OutsideState(gm, x))
    && (forall x, y {:trigger ApartFrom(x, y)} :: x in items && y in items ==> ApartFrom(x, y))
  }

  /** Every word that differs lies between lo and hi, or in the body of one of these chunks. */
  ghost predicate OnlyWithin(mem: Memory, mem': Memory, lo: nat, hi: nat, items: set<(nat, nat)>) {
    forall w: nat {:trigger Word(mem', w)} :: Word(mem', w) != Word(mem, w) ==> lo <= w < hi || InSome(items, w)
  }

  ghost predicate InSome(items: set<(nat, nat)>, w: nat) {
    exists x :: x in items && InBody(x, w)
  }

  predicate ListLinked(mem: Memory, gm: nat, bins: seq<seq<nat>>, i: nat) {
    i < |bins| && bins[i] != [] ==> Ring(mem, [SmallBinAt(gm, i)] + bins[i])
  }

  /** The link words of the marked small bins say what `bins` says. */
  ghost predicate SmallLinked(mem: Memory, gm: nat, bins: seq<seq<nat>>) {
    forall i: nat {:trigger ListLinked(mem, gm, bins, i)} :: ListLinked(mem, gm, bins, i)
  }

  /** An address a ring word of bin i is at: the header or a chunk of the bin. */
  predicate OfBin(gm: nat, bins: seq<seq<nat>>, i: nat, a: nat)
    requires i < |bins|
  {
    a == SmallBinAt(gm, i) || a in bins[i]
  }

  /** Nodes of the small bins are different nodes, far enough apart. */
  lemma NodesApart(gm: nat, bins: seq<seq<nat>>, frees: set<(nat, nat)>, i: nat, a: nat, j: nat, b: nat)
    requires Separated(gm, frees) && SmallItems(bins) <= frees && |bins| == BINS && i < BINS && j < BINS
    requires OfBin(gm, bins, i, a) && OfBin(gm, bins, j, b)
    ensures Clear(a, b) && (i != j ==> a != b)
    ensures a in bins[i] ==> a != SmallBinAt(gm, j)
  {
    if a in bins[i] { InSmall(bins, i, a); assert OutsideState(gm, (a, 8 * i)); }
    if b in bins[j] { InSmall(bins, j, b); assert OutsideState(gm, (b, 8 * j)); }
    if a in bins[i] && b in bins[j] { assert ApartFrom((a, 8 * i), (b, 8 * j)); }
  }

  /** The same for a chunk that is in none of the bins. */
  lemma NewApart(gm: nat, bins: seq<seq<nat>>, frees: set<(nat, nat)>, x: (nat, nat), i: nat, a: nat)
    requires Separated(gm, frees) && SmallItems(bins) <= frees && |bins| == BINS && i < BINS
    requires x in frees && x !in SmallItems(bins) && OfBin(gm, bins, i, a)
    ensures Clear(x.0, a) && x.0 != a
  {
    assert OutsideState(gm, x);
    if a in bins[i] {
      InSmall(bins, i, a);
      assert ApartFrom((a, 8 * i), x) && OutsideState(gm, (a, 8 * i));
    }
  }

  lemma RingIsClear(gm: nat, bins: seq<seq<nat>>, frees: set<(nat, nat)>, i: nat)
    requires Separated(gm, frees) && SmallItems(bins) <= frees && |bins| == BINS && i < BINS
    ensures AllClear([SmallBinAt(gm, i)] + bins[i])
  {
    var nodes := [SmallBinAt(gm, i)] + bins[i];
    forall k, l | 0 <= k < |nodes| && 0 <= l < |nodes| ensures Clear(nodes[k], nodes[l]) {
      NodesApart(gm, bins, frees, i, nodes[k], i, nodes[l]);
    }
  }

  // ------------------------------------------------------------------ insert_small_chunk

  /** Where P goes: in front of what follows the header, or, in a bin that was empty, in front of the header itself. */
  method InsertSmallChunk(mem: Memory, gm: nat, smallmap: set<nat>, p: nat, s: nat,
                          ghost bins: seq<seq<nat>>, ghost frees: set<(nat, nat)>)
    returns (mem': Memory, smallmap': set<nat>)
    requires SmallOk(bins, smallmap) && SmallLinked(mem, gm, bins) && IsSmall(s) && s % 8 == 0
    requires Separated(gm, frees) && SmallItems(bins) <= frees && (p, s) in frees && (p, s) !in SmallItems(bins)
    ensures SmallLinked(mem', gm, InsertSmall(bins, p, s)) && smallmap' == smallmap + {s / 8}
    ensures OnlyWithin(mem, mem', gm + 72, gm + 600, SmallItems(bins) + {(p, s)})
  {
    hide Separated, SmallLinked, OnlyWithin, LinkIn;
    var i := s / 8;
    var b := SmallBinAt(gm, i);
    var f := b;
    assert ListOk(bins, smallmap, i);
    if i in smallmap { f := Fd(mem, b); }
    smallmap' := smallmap + {i};
    mem' := LinkIn(mem, b, f, p);
    LinkedIn(mem, gm, p, s, bins, frees);
  }

  /** The first chunk of a bin, or its header. */
  function FirstNode(mem: Memory, gm: nat, bins: seq<seq<nat>>, i: nat): nat
    requires i < |bins|
  {
    if bins[i] != [] then Fd(mem, SmallBinAt(gm, i)) else SmallBinAt(gm, i)
  }

  lemma FirstIsOfBin(mem: Memory, gm: nat, bins: seq<seq<nat>>, i: nat)
    requires SmallLinked(mem, gm, bins) && i < |bins|
    ensures OfBin(gm, bins, i, FirstNode(mem, gm, bins, i))
  {
    if bins[i] != [] {
      assert ListLinked(mem, gm, bins, i);
      OwnNeighbour(mem, [SmallBinAt(gm, i)] + bins[i], 0);
    }
  }

  lemma LinkedIn(mem: Memory, gm: nat, p: nat, s: nat, bins: seq<seq<nat>>, frees: set<(nat, nat)>)
    requires |bins| == BINS && SmallLinked(mem, gm, bins) && IsSmall(s) && s % 8 == 0
    requires Separated(gm, frees) && SmallItems(bins) <= frees && (p, s) in frees && (p, s) !in SmallItems(bins)
    ensures var mem' := LinkIn(mem, SmallBinAt(gm, s / 8), FirstNode(mem, gm, bins, s / 8), p);
            && SmallLinked(mem', gm, InsertSmall(bins, p, s))
            && OnlyWithin(mem, mem', gm + 72, gm + 600, SmallItems(bins) + {(p, s)})
  {
    var i := s / 8;
    var b, f := SmallBinAt(gm, i), FirstNode(mem, gm, bins, i);
    var mem', bins' := LinkIn(mem, b, f, p), InsertSmall(bins, p, s);
    FirstIsOfBin(mem, gm, bins, i);
    LinkedInWords(mem, gm, p, s, bins, frees);
    hide Separated, LinkIn, OnlyWithin, Ring;
    forall j: nat ensures ListLinked(mem', gm, bins', j) {
      assert ListLinked(mem, gm, bins, j);
      if j == i {
        LinkedInHere(mem, gm, p, s, bins, frees);
      } else if j < BINS && bins[j] != [] {
        LinkedInElsewhere(mem, gm, p, i, s, bins, frees, j);
      }
    }
  }

  lemma LinkedInHere(mem: Memory, gm: nat, p: nat, s: nat, bins: seq<seq<nat>>, frees: set<(nat, nat)>)
    requires |bins| == BINS && SmallLinked(mem, gm, bins) && IsSmall(s)
    requires Separated(gm, frees) && SmallItems(bins) <= frees && (p, s) in frees && (p, s) !in SmallItems(bins)
    ensures Ring(LinkIn(mem, SmallBinAt(gm, s / 8), FirstNode(mem, gm, bins, s / 8), p), [SmallBinAt(gm, s / 8)] + ([p] + bins[s / 8]))
  {
    var i := s / 8;
    var b := SmallBinAt(gm, i);
    hide Separated, LinkIn, Ring, Clear;
    NewApart(gm, bins, frees, (p, s), i, b);
    if bins[i] == [] {
      ClearBothWays(b, p);
      PairIsRing(mem, b, p);
      assert [b] + ([p] + bins[i]) == [b, p];
    } else {
      var nodes := [b] + bins[i];
      assert ListLinked(mem, gm, bins, i);
      RingIsClear(gm, bins, frees, i);
      forall k | 0 <= k < |nodes| ensures Clear(p, nodes[k]) && p != nodes[k] {
        NewApart(gm, bins, frees, (p, s), i, nodes[k]);
      }
      OneMoreClear(p, nodes);
      LinkInSecond(mem, nodes, p);
      assert [nodes[0], p] + nodes[1..] == [b] + ([p] + bins[i]);
    }
  }

  lemma ClearBothWays(a: nat, b: nat)
    requires Clear(b, a)
    ensures Clear(a, b)
  {
  }

  lemma OneMoreClear(p: nat, nodes: seq<nat>)
    requires AllClear(nodes) && forall k :: 0 <= k < |nodes| ==> Clear(p, nodes[k])
    ensures AllClear([p] + nodes)
  {
    var s := [p] + nodes;
    forall k, l | 0 <= k < |s| && 0 <= l < |s| ensures Clear(s[k], s[l]) {
      assert k > 0 ==> s[k] == nodes[k - 1];
      assert l > 0 ==> s[l] == nodes[l - 1];
    }
  }

  lemma LinkedInElsewhere(mem: Memory, gm: nat, p: nat, i: nat, s: nat, bins: seq<seq<nat>>, frees: set<(nat, nat)>, j: nat)
    requires |bins| == BINS && SmallLinked(mem, gm, bins) && i < BINS && j < BINS && j != i && bins[j] != []
    requires Separated(gm, frees) && SmallItems(bins) <= frees && (p, s) in frees && (p, s) !in SmallItems(bins)
    ensures Ring(LinkIn(mem, SmallBinAt(gm, i), FirstNode(mem, gm, bins, i), p), [SmallBinAt(gm, j)] + bins[j])
  {
    var b, f, nodes := SmallBinAt(gm, i), FirstNode(mem, gm, bins, i), [SmallBinAt(gm, j)] + bins[j];
    var mem' := LinkIn(mem, b, f, p);
    FirstIsOfBin(mem, gm, bins, i);
    assert ListLinked(mem, gm, bins, j);
    hide Separated, LinkIn, Ring, Clear, Fd, Bk, FirstNode;
    forall k | 0 <= k < |nodes| ensures Fd(mem', nodes[k]) == Fd(mem, nodes[k]) && Bk(mem', nodes[k]) == Bk(mem, nodes[k]) {
      NodesApart(gm, bins, frees, i, b, j, nodes[k]);
      NodesApart(gm, bins, frees, i, f, j, nodes[k]);
      NewApart(gm, bins, frees, (p, s), j, nodes[k]);
      LinkInFd(mem, b, f, p, nodes[k]);
      LinkInBk(mem, b, f, p, nodes[k]);
    }
    RingStays(mem, mem', nodes);
  }

  lemma LinkedInWords(mem: Memory, gm: nat, p: nat, s: nat, bins: seq<seq<nat>>, frees: set<(nat, nat)>)
    requires |bins| == BINS && IsSmall(s) && OfBin(gm, bins, s / 8, FirstNode(mem, gm, bins, s / 8))
    requires Separated(gm, frees) && SmallItems(bins) <= frees && (p, s) in frees
    ensures OnlyWithin(mem, LinkIn(mem, SmallBinAt(gm, s / 8), FirstNode(mem, gm, bins, s / 8), p), gm + 72, gm + 600, SmallItems(bins) + {(p, s)})
  {
    var i := s / 8;
    NodeWords(gm, bins, frees, i, FirstNode(mem, gm, bins, i));
    var all := SmallItems(bins) + {(p, s)};
    assert OutsideState(gm, (p, s));
    assert (p, s) in all && InBody((p, s), p + FD) && InBody((p, s), p + BK);
  }

  /** The ring words of a node of a bin are header words, or body words of a chunk of the bin. */
  lemma NodeWords(gm: nat, bins: seq<seq<nat>>, frees: set<(nat, nat)>, i: nat, a: nat)
    requires |bins| == BINS && i < BINS && OfBin(gm, bins, i, a) && Separated(gm, frees) && SmallItems(bins) <= frees
    ensures (gm + 72 <= a + FD && a + BK < gm + 600) || (InSome(SmallItems(bins), a + FD) && InSome(SmallItems(bins), a + BK))
  {
    if a in bins[i] {
      InSmall(bins, i, a);
      var x := (a, 8 * i);
      assert OutsideState(gm, x);
      assert x in SmallItems(bins) && InBody(x, a + FD) && InBody(x, a + BK);
    }
  }

  // ------------------------------------------------------------------ unlink_small_chunk

  /**
    unlink_small_chunk, which finds the neighbours in the chunk's own words.  When both are the
    header the bin is only unmarked, and the header's words are left as they are.
  */
  method UnlinkSmallChunk(mem: Memory, gm: nat, smallmap: set<nat>, p: nat, s: nat,
                          ghost bins: seq<seq<nat>>, ghost frees: set<(nat, nat)>)
    returns (mem': Memory, smallmap': set<nat>)
    requires SmallOk(bins, smallmap) && SmallLinked(mem, gm, bins) && IsSmall(s)
    requires Separated(gm, frees) && SmallItems(bins) <= frees && (p, s) in SmallItems(bins)
    ensures SmallLinked(mem', gm, UnlinkSmall(bins, p, s)) && smallmap' == MarkSmall(UnlinkSmall(bins, p, s), smallmap, s / 8)
    ensures OnlyWithin(mem, mem', gm + 72, gm + 600, SmallItems(bins))
  {
    hide Separated, SmallLinked, OnlyWithin, LinkOut;
    SmallPlace(bins, (p, s));
    var f, b, i := Fd(mem, p), Bk(mem, p), s / 8;
    assert ListOk(bins, smallmap, i);
    LinkedOut(mem, gm, p, s, bins, frees);
    if b == f {
      smallmap' := smallmap - {i};
      mem' := mem;
    } else {
      smallmap' := smallmap;
      mem' := LinkOut(mem, p);
    }
  }

  /** unlink_first_small_chunk, which knows the header. */
  method UnlinkFirstSmallChunk(mem: Memory, gm: nat, smallmap: set<nat>, i: nat,
                               ghost bins: seq<seq<nat>>, ghost frees: set<(nat, nat)>)
    returns (mem': Memory, smallmap': set<nat>, p: nat)
    requires SmallOk(bins, smallmap) && SmallLinked(mem, gm, bins) && i in smallmap
    requires Separated(gm, frees) && SmallItems(bins) <= frees
    ensures bins[i] != [] && p == bins[i][0]
    ensures SmallLinked(mem', gm, UnlinkSmall(bins, p, 8 * i)) && smallmap' == MarkSmall(UnlinkSmall(bins, p, 8 * i), smallmap, i)
    ensures OnlyWithin(mem, mem', gm + 72, gm + 600, SmallItems(bins))
  {
    hide Separated, SmallLinked, OnlyWithin;
    assert ListOk(bins, smallmap, i);
    var b := SmallBinAt(gm, i);
    p := Fd(mem, b);
    FirstChunk(mem, gm, bins, frees, i);
    InSmall(bins, i, p);
    LinkedOut(mem, gm, p, 8 * i, bins, frees);
    var f := Fd(mem, p);
    if b == f {
      smallmap' := smallmap - {i};
      mem' := mem;
    } else {
      smallmap' := smallmap;
      mem' := mem[f + BK := b][b + FD := f];
      assert mem' == LinkOut(mem, p);
    }
  }

  lemma FirstChunk(mem: Memory, gm: nat, bins: seq<seq<nat>>, frees: set<(nat, nat)>, i: nat)
    requires |bins| == BINS && SmallLinked(mem, gm, bins) && i < BINS && bins[i] != []
    requires Separated(gm, frees) && SmallItems(bins) <= frees
    ensures Fd(mem, SmallBinAt(gm, i)) == bins[i][0] && Bk(mem, bins[i][0]) == SmallBinAt(gm, i)
  {
    var nodes := [SmallBinAt(gm, i)] + bins[i];
    assert ListLinked(mem, gm, bins, i);
    RingIsClear(gm, bins, frees, i);
    LinkOutAt(mem, nodes, 1);
    LinkOutFirst(mem, nodes);
  }

  lemma {:induction false} WithoutAt(list: seq<nat>, k: nat)
    requires NoRepeats(list) && k < |list|
    ensures Without(list, list[k]) == list[..k] + list[k + 1..]
  {
    if k > 0 {
      assert list[0] != list[k] && NoRepeats(list[1..]) && list[1..][k - 1] == list[k];
      WithoutAt(list[1..], k - 1);
    }
  }

  lemma LinkedOut(mem: Memory, gm: nat, p: nat, s: nat, bins: seq<seq<nat>>, frees: set<(nat, nat)>)
    requires |bins| == BINS && SmallLinked(mem, gm, bins) && IsSmall(s)
    requires Separated(gm, frees) && SmallItems(bins) <= frees && (p, s) in SmallItems(bins)
    ensures Fd(mem, p) == Bk(mem, p) <==> UnlinkSmall(bins, p, s)[s / 8] == []
    ensures SmallLinked(if Fd(mem, p) == Bk(mem, p) then mem else LinkOut(mem, p), gm, UnlinkSmall(bins, p, s))
    ensures OnlyWithin(mem, if Fd(mem, p) == Bk(mem, p) then mem else LinkOut(mem, p), gm + 72, gm + 600, SmallItems(bins))
  {
    SmallPlace(bins, (p, s));
    var i := s / 8;
    LinkedOutHere(mem, gm, p, i, bins, frees);
    var mem' := if Fd(mem, p) == Bk(mem, p) then mem else LinkOut(mem, p);
    LinkedOutWords(mem, gm, p, i, bins, frees);
    hide Separated, LinkOut, OnlyWithin, Ring, Fd, Bk;
    forall j: nat ensures ListLinked(mem', gm, UnlinkSmall(bins, p, s), j) {
      assert ListLinked(mem, gm, bins, j);
      if j != i && j < BINS && bins[j] != [] { LinkedOutElsewhere(mem, gm, p, i, bins, frees, j); }
    }
  }

  /** What linking out does to the chunk's own bin. */
  lemma LinkedOutHere(mem: Memory, gm: nat, p: nat, i: nat, bins: seq<seq<nat>>, frees: set<(nat, nat)>)
    requires |bins| == BINS && SmallLinked(mem, gm, bins) && i < BINS && p in bins[i]
    requires Separated(gm, frees) && SmallItems(bins) <= frees
    ensures OfBin(gm, bins, i, Fd(mem, p)) && OfBin(gm, bins, i, Bk(mem, p))
    ensures Fd(mem, p) == Bk(mem, p) <==> Without(bins[i], p) == []
    ensures Fd(mem, p) != Bk(mem, p) ==> Ring(LinkOut(mem, p), [SmallBinAt(gm, i)] + Without(bins[i], p))
  {
    var h := SmallBinAt(gm, i);
    var nodes := [h] + bins[i];
    assert ListLinked(mem, gm, bins, i);
    RingIsClear(gm, bins, frees, i);
    var k :| 0 <= k < |bins[i]| && bins[i][k] == p;
    assert nodes[k + 1] == p;
    LinkOutAt(mem, nodes, k + 1);
    HeaderAndRest(h, bins[i], k);
    var before, after := nodes[k], nodes[if k + 2 < |nodes| then k + 2 else 0];
    assert before == after <==> |nodes| == 2;
  }

  lemma HeaderAndRest(h: nat, list: seq<nat>, k: nat)
    requires NoRepeats([h] + list) && k < |list|
    ensures ([h] + list)[..k + 1] + ([h] + list)[k + 2..] == [h] + Without(list, list[k])
    ensures Without(list, list[k]) == [] <==> |list| == 1
  {
    hide NoRepeats, Without;
    TailNoRepeats(h, list);
    WithoutAt(list, k);
    HeaderAndFront(h, list, k + 1);
    BehindHeader(h, list, k + 1);
    HeaderFirst(h, list[..k], list[k + 1..]);
  }

  lemma HeaderAndFront(h: nat, list: seq<nat>, n: nat)
    requires 0 < n <= |list| + 1
    ensures ([h] + list)[..n] == [h] + list[..n - 1]
  {
  }

  lemma BehindHeader(h: nat, list: seq<nat>, n: nat)
    requires n <= |list|
    ensures ([h] + list)[n + 1..] == list[n..]
  {
  }

  lemma HeaderFirst(h: nat, a: seq<nat>, b: seq<nat>)
    ensures ([h] + a) + b == [h] + (a + b)
  {
  }

  lemma TailNoRepeats(h: nat, list: seq<nat>)
    requires NoRepeats([h] + list)
    ensures NoRepeats(list)
  {
    forall a, b | 0 <= a < b < |list| ensures list[a] != list[b] {
      assert ([h] + list)[a + 1] != ([h] + list)[b + 1];
    }
  }

  lemma LinkedOutElsewhere(mem: Memory, gm: nat, p: nat, i: nat, bins: seq<seq<nat>>, frees: set<(nat, nat)>, j: nat)
    requires |bins| == BINS && SmallLinked(mem, gm, bins) && i < BINS && p in bins[i] && j < BINS && j != i && bins[j] != []
    requires Separated(gm, frees) && SmallItems(bins) <= frees
    ensures Ring(LinkOut(mem, p), [SmallBinAt(gm, j)] + bins[j])
  {
    var nodes, mem' := [SmallBinAt(gm, j)] + bins[j], LinkOut(mem, p);
    LinkedOutHere(mem, gm, p, i, bins, frees);
    assert ListLinked(mem, gm, bins, j);
    hide Separated, LinkOut, Ring, Clear, Fd, Bk;
    forall k | 0 <= k < |nodes| ensures Fd(mem', nodes[k]) == Fd(mem, nodes[k]) && Bk(mem', nodes[k]) == Bk(mem, nodes[k]) {
      NodesApart(gm, bins, frees, i, Fd(mem, p), j, nodes[k]);
      NodesApart(gm, bins, frees, i, Bk(mem, p), j, nodes[k]);
      LinkOutFd(mem, p, nodes[k]);
    }
    RingStays(mem, mem', nodes);
  }

  lemma LinkedOutWords(mem: Memory, gm: nat, p: nat, i: nat, bins: seq<seq<nat>>, frees: set<(nat, nat)>)
    requires |bins| == BINS && i < BINS && OfBin(gm, bins, i, Fd(mem, p)) && OfBin(gm, bins, i, Bk(mem, p))
    requires Separated(gm, frees) && SmallItems(bins) <= frees
    ensures OnlyWithin(mem, LinkOut(mem, p), gm + 72, gm + 600, SmallItems(bins))
  {
    NodeWords(gm, bins, frees, i, Fd(mem, p));
    NodeWords(gm, bins, frees, i, Bk(mem, p));
  }

  // ------------------------------------------------------------------ other writes

  lemma SmallLinksStay(mem: Memory, mem': Memory, gm: nat, bins: seq<seq<nat>>, frees: set<(nat, nat)>)
    requires |bins| == BINS && SmallLinked(mem, gm, bins) && Separated(gm, frees) && SmallItems(bins) <= frees
    requires forall w: nat {:trigger Word(mem', w)} :: gm + 72 <= w < gm + 600 || InSome(SmallItems(bins), w) ==> Word(mem', w) == Word(mem, w)
    ensures SmallLinked(mem', gm, bins)
  {
    forall i: nat ensures ListLinked(mem', gm, bins, i) {
      assert ListLinked(mem, gm, bins, i);
      if i < BINS && bins[i] != [] {
        var nodes := [SmallBinAt(gm, i)] + bins[i];
        forall k | 0 <= k < |nodes| ensures Fd(mem', nodes[k]) == Fd(mem, nodes[k]) && Bk(mem', nodes[k]) == Bk(mem, nodes[k]) {
          NodeWords(gm, bins, frees, i, nodes[k]);
        }
        RingStays(mem, mem', nodes);
      }
    }
  }
}
