/**
  The small bins of src/malloc.c: one list for each size below 256, in the order of fd from the
  bin's header, so that chunks are linked and taken at the front.  smallmap is the set of marked
  indices; the index of a size is size / 8.
*/
module SmallBins {
  import opened TreeBins

  const BINS: nat := 32

  predicate IsSmall(s: nat) {
    s / 8 < BINS
  }

  /** The chunks of all small bins, as (address, size). */
  function SmallItems(bins: seq<seq<nat>>): (r: set<(nat, nat)>)
    ensures forall x :: x in r <==> exists i :: 0 <= i < |bins| && x.1 == 8 * i && x.0 in bins[i]
  {
    set i, a | 0 <= i < |bins| && a in bins[i] :: (a, 8 * i)
  }

  predicate ListOk(bins: seq<seq<nat>>, smallmap: set<nat>, i: nat) {
    i < |bins| ==> NoRepeats(bins[i]) && (i in smallmap <==> bins[i] != [])
  }

  /** No chunk is listed twice, and smallmap marks the non-empty lists. */
  ghost predicate SmallOk(bins: seq<seq<nat>>, smallmap: set<nat>) {
    && |bins| == BINS
    && (forall i :: i in smallmap ==> i < BINS)
    && (forall i: nat {:trigger ListOk(bins, smallmap, i)} :: ListOk(bins, smallmap, i))
  }

  function InsertSmall(bins: seq<seq<nat>>, a: nat, s: nat): seq<seq<nat>>
    requires |bins| == BINS && IsSmall(s)
  {
    bins[s / 8 := [a] + bins[s / 8]]
  }

  function UnlinkSmall(bins: seq<seq<nat>>, a: nat, s: nat): seq<seq<nat>>
    requires |bins| == BINS && IsSmall(s)
  {
    bins[s / 8 := Without(bins[s / 8], a)]
  }

  function MarkSmall(bins: seq<seq<nat>>, smallmap: set<nat>, i: nat): set<nat>
    requires i < |bins|
  {
    if bins[i] != [] then smallmap + {i} else smallmap - {i}
  }

  lemma InSmall(bins: seq<seq<nat>>, i: nat, a: nat)
    requires i < |bins| && a in bins[i]
    ensures (a, 8 * i) in SmallItems(bins)
  {
    var x := (a, 8 * i);
    assert x.1 == 8 * i && x.0 in bins[i];
  }

  lemma SmallPlace(bins: seq<seq<nat>>, x: (nat, nat))
    requires x in SmallItems(bins)
    ensures x.1 % 8 == 0 && x.1 / 8 < |bins| && x.0 in bins[x.1 / 8]
  {
  }

  lemma InsertSmallAdds(bins: seq<seq<nat>>, smallmap: set<nat>, a: nat, s: nat)
    requires SmallOk(bins, smallmap) && IsSmall(s) && s % 8 == 0 && (a, s) !in SmallItems(bins)
    ensures SmallOk(InsertSmall(bins, a, s), smallmap + {s / 8})
    ensures SmallItems(InsertSmall(bins, a, s)) == SmallItems(bins) + {(a, s)}
  {
    var i := s / 8;
    var bins' := InsertSmall(bins, a, s);
    assert a in bins[i] ==> (a, s) in SmallItems(bins);
    assert ListOk(bins, smallmap, i);
    forall j: nat ensures ListOk(bins', smallmap + {i}, j) {
      assert ListOk(bins, smallmap, j);
    }
    forall x ensures x in SmallItems(bins') <==> x in SmallItems(bins) || x == (a, s) {
      if x in SmallItems(bins') { SmallPlace(bins', x); }
      if x in SmallItems(bins) {
        SmallPlace(bins, x);
        InSmall(bins', x.1 / 8, x.0);
      }
      InSmall(bins', i, a);
      if x in SmallItems(bins') && x != (a, s) { InSmall(bins, x.1 / 8, x.0); }
    }
  }

  lemma UnlinkSmallRemoves(bins: seq<seq<nat>>, smallmap: set<nat>, a: nat, s: nat)
    requires SmallOk(bins, smallmap) && IsSmall(s) && (a, s) in SmallItems(bins)
    ensures SmallOk(UnlinkSmall(bins, a, s), MarkSmall(UnlinkSmall(bins, a, s), smallmap, s / 8))
    ensures SmallItems(UnlinkSmall(bins, a, s)) == SmallItems(bins) - {(a, s)}
  {
    var i := s / 8;
    SmallPlace(bins, (a, s));
    var bins' := UnlinkSmall(bins, a, s);
    var smallmap' := MarkSmall(bins', smallmap, i);
    assert ListOk(bins, smallmap, i);
    WithoutRemoves(bins[i], a);
    forall j: nat ensures ListOk(bins', smallmap', j) {
      assert ListOk(bins, smallmap, j);
    }
    forall x ensures x in SmallItems(bins') <==> x in SmallItems(bins) && x != (a, s) {
      if x in SmallItems(bins') {
        SmallPlace(bins', x);
        InSmall(bins, x.1 / 8, x.0);
      }
      if x in SmallItems(bins) && x != (a, s) {
        SmallPlace(bins, x);
        InSmall(bins', x.1 / 8, x.0);
      }
    }
  }
}
