/**
  The metrics panel: total flips, wormholes (stickers flipped at least once
  and showing a colour other than their home colour) and entropy (the share of
  off-colour stickers as a rounded percentage), all taken over every sticker
  in scan order.
 */
module Metrics {
  import opened Cube
  import opened Grid
  import opened Seqs
  import opened Lattice
  import opened Manifold

  function FlipsAt(l: Lattice, a: Loc): nat {
    if HasSticker(l, a) then StickerAt(l, a).value.flips else 0
  }

  predicate IsOff(l: Lattice, a: Loc) {
    HasSticker(l, a) && StickerAt(l, a).value.curr != StickerAt(l, a).value.orig
  }

  predicate IsWormhole(l: Lattice, a: Loc) {
    IsOff(l, a) && StickerAt(l, a).value.flips > 0
  }

  function SumFlips(l: Lattice, locs: seq<Loc>): nat {
    if locs == [] then 0 else SumFlips(l, locs[..|locs| - 1]) + FlipsAt(l, locs[|locs| - 1])
  }

  function CountOff(l: Lattice, locs: seq<Loc>): (n: nat)
    ensures n <= |locs|
  {
    if locs == [] then 0 else CountOff(l, locs[..|locs| - 1]) + (if IsOff(l, locs[|locs| - 1]) then 1 else 0)
  }

  function CountWormholes(l: Lattice, locs: seq<Loc>): (n: nat)
    ensures n <= CountOff(l, locs)
  {
    if locs == [] then 0 else CountWormholes(l, locs[..|locs| - 1]) + (if IsWormhole(l, locs[|locs| - 1]) then 1 else 0)
  }

  /** Math.round(n / d) for d > 0: the nearest integer, halves rounded up. */
  function RoundRatio(n: int, d: int): (r: int)
    requires d > 0
    ensures d * (2 * r - 1) <= 2 * n < d * (2 * r + 1)
    ensures 0 <= n <= 100 * d ==> 0 <= r <= 100
  {
    var r := (2 * n + d) / (2 * d);
    RoundRatioBounds(n, d, r, (2 * n + d) % (2 * d));
    r
  }

  lemma RoundRatioBounds(n: int, d: int, r: int, rem: int)
    requires d > 0 && 2 * n + d == 2 * d * r + rem && 0 <= rem < 2 * d
    ensures d * (2 * r - 1) <= 2 * n < d * (2 * r + 1)
    ensures 0 <= n <= 100 * d ==> 0 <= r <= 100
  {
    if 0 <= n <= 100 * d {
      if r < 0 {
        MulMono(0, -r, 2 * d);
        assert false;
      }
      if r > 100 {
        MulMono(101, r, 2 * d);
        assert false;
      }
    }
  }

  datatype Metrics = Metrics(flips: nat, wormholes: nat, entropy: Option<int>)

  /** The metrics of a lattice; entropy is undefined (NaN in the source) for a cube with no stickers. */
  function ComputeMetrics(l: Lattice, size: nat): (r: Metrics)
    ensures r.wormholes <= |Scan(l, size)|
    ensures r.entropy.None? <==> Scan(l, size) == []
    ensures r.entropy.Some? ==> 0 <= r.entropy.value <= 100
  {
    var locs := Scan(l, size);
    var total := |locs|;
    var off := CountOff(l, locs);
    assert off <= total;
    Metrics(SumFlips(l, locs), CountWormholes(l, locs),
      if total == 0 then None else Some(RoundRatio(100 * off, total)))
  }

  // ---------------------------------------------------------------------

  /** A solved cube shows no flips, no wormholes and zero entropy. */
  lemma SolvedCubeMetrics(size: nat)
    ensures ComputeMetrics(MakeCubies(size), size) == Metrics(0, 0, if size == 0 then None else Some(0))
  {
    var l := MakeCubies(size);
    var locs := Scan(l, size);
    MakeCubiesStickerCount(size);
    SolvedCounts(l, locs);
    assert CountWormholes(l, locs) == 0;
    if size > 0 {
      var total := |locs|;
      assert total > 0;
      RoundZero(total);
    }
  }

  lemma RoundZero(d: int)
    requires d > 0
    ensures RoundRatio(0, d) == 0
  {
    assert d == 0 * (2 * d) + d;
    DivModUnique(d, 2 * d, 0, d);
  }

  lemma {:induction false} SolvedCounts(l: Lattice, locs: seq<Loc>)
    requires forall a | HasSticker(l, a) :: StickerAt(l, a).value.flips == 0 && StickerAt(l, a).value.curr == StickerAt(l, a).value.orig
    ensures SumFlips(l, locs) == 0 && CountOff(l, locs) == 0
  {
    if locs != [] {
      SolvedCounts(l, locs[..|locs| - 1]);
    }
  }

  /** Adding one flip at each of two slots raises the flip total by the number of times they are scanned. */
  lemma {:induction false} SumFlipsTwo(l: Lattice, l': Lattice, locs: seq<Loc>, a: Loc, p: Loc)
    requires a != p
    requires forall b :: FlipsAt(l', b) == FlipsAt(l, b) + (if b == a || b == p then 1 else 0)
    ensures SumFlips(l', locs) == SumFlips(l, locs) + Count(locs, a) + Count(locs, p)
  {
    if locs != [] {
      SumFlipsTwo(l, l', locs[..|locs| - 1], a, p);
    }
  }

  /** On a coherent cube with its own manifold map, flipping a sticker also
      flips its partner, a different sticker, so the flip total rises by two. */
  lemma FlipPairAddsTwoFlips(l: Lattice, size: nat, a: Loc)
    requires Coherent(l, size) && Exterior(a, size)
    ensures ComputeMetrics(FlipStickerPair(l, size, a, BuildManifoldGridMap(l, size)), size).flips
         == ComputeMetrics(l, size).flips + 2
  {
    var m := BuildManifoldGridMap(l, size);
    var r := FlipStickerPair(l, size, a, m);
    var p := FlipPairFlipsTwo(l, size, a);
    FlipKeepsIdentity(l, size, a, m);
    SameIdentityMap(l, r, size);
    var locs := Scan(l, size);
    SumFlipsTwo(l, r, locs, a, p);
    ScanMembers(l, size);
    CountNoDup(locs, a);
    CountNoDup(locs, p);
  }

  /** The two slots a pair flip on a coherent cube touches, each once. */
  lemma FlipPairFlipsTwo(l: Lattice, size: nat, a: Loc) returns (p: Loc)
    requires Coherent(l, size) && Exterior(a, size)
    ensures p != a && Exterior(p, size)
    ensures forall b :: FlipsAt(FlipStickerPair(l, size, a, BuildManifoldGridMap(l, size)), b)
                     == FlipsAt(l, b) + (if b == a || b == p then 1 else 0)
  {
    var m := BuildManifoldGridMap(l, size);
    var r := FlipStickerPair(l, size, a, m);
    FindAntipodalOnCoherent(l, size, a);
    p := PartnerSlot(l, a, m, size).value;
    assert HasSticker(l, p);
    forall b ensures FlipsAt(r, b) == FlipsAt(l, b) + (if b == a || b == p then 1 else 0) {
      PairFlipCountsAt(l, size, a, m, p, b);
    }
  }

  lemma PairFlipCountsAt(l: Lattice, size: nat, a: Loc, m: ManifoldMap, p: Loc, b: Loc)
    requires HasSticker(l, a) && HasSticker(l, p) && p != a && PartnerSlot(l, a, m, size) == Some(p)
    ensures FlipsAt(FlipStickerPair(l, size, a, m), b) == FlipsAt(l, b) + (if b == a || b == p then 1 else 0)
  {
  }
}
