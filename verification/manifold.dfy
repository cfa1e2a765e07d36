/**
  The manifold map and the antipodal flip. The map sends every grid id to the
  slot that currently holds the sticker carrying it; a sticker's antipodal
  partner is the sticker whose id has the opposite home colour and the same
  index. Flipping recolours a sticker and its partner with the opposite colour
  and counts the flip on each.
 */
module Manifold {
  import opened Cube
  import opened Grid
  import opened Seqs
  import opened Lattice

  /** Grid id to the slot currently holding the sticker with that id. */
  type ManifoldMap = map<GridId, Loc>

  predicate AllHaveStickers(l: Lattice, locs: seq<Loc>) {
    forall a | a in locs :: HasSticker(l, a)
  }

  function IdsOf(l: Lattice, locs: seq<Loc>, size: nat): set<GridId>
    requires AllHaveStickers(l, locs)
  {
    set a | a in locs :: IdAt(l, a, size)
  }

  /** No later slot of `locs` carries the id of slot i. */
  predicate LastWithId(l: Lattice, locs: seq<Loc>, i: int, size: nat)
    requires AllHaveStickers(l, locs) && 0 <= i < |locs|
  {
    forall j | i < j < |locs| :: IdAt(l, locs[j], size) != IdAt(l, locs[i], size)
  }

  /** What the manifold map built from `locs` holds: exactly their ids, each
      sent to a slot of `locs` carrying it, the last such slot when several do. */
  ghost predicate BuiltFrom(m: ManifoldMap, l: Lattice, locs: seq<Loc>, size: nat)
    requires AllHaveStickers(l, locs)
  {
    && m.Keys == IdsOf(l, locs, size)
    && (forall g | g in m :: m[g] in locs && IdAt(l, m[g], size) == g)
    && (forall i | 0 <= i < |locs| && LastWithId(l, locs, i, size) :: m[IdAt(l, locs[i], size)] == locs[i])
  }

  /** Writes the slots of `locs` in order; a later slot with the same id overwrites an earlier one. */
  function BuildFrom(l: Lattice, locs: seq<Loc>, size: nat): (m: ManifoldMap)
    requires AllHaveStickers(l, locs)
    ensures m.Keys == IdsOf(l, locs, size)
    ensures forall g | g in m :: m[g] in locs && IdAt(l, m[g], size) == g
    ensures forall i | 0 <= i < |locs| && LastWithId(l, locs, i, size) :: m[IdAt(l, locs[i], size)] == locs[i]
    decreases |locs|
  {
    if locs == [] then map[]
    else
      var init := locs[..|locs| - 1];
      assert forall b | b in init :: b in locs;
      var m0 := BuildFrom(l, init, size);
      var m := m0[IdAt(l, locs[|locs| - 1], size) := locs[|locs| - 1]];
      BuildFromStep(l, locs, size, m0, m);
      m
  }

  lemma BuildFromStep(l: Lattice, locs: seq<Loc>, size: nat, m0: ManifoldMap, m: ManifoldMap)
    requires AllHaveStickers(l, locs) && locs != []
    requires AllHaveStickers(l, locs[..|locs| - 1])
    requires BuiltFrom(m0, l, locs[..|locs| - 1], size)
    requires m == m0[IdAt(l, locs[|locs| - 1], size) := locs[|locs| - 1]]
    ensures BuiltFrom(m, l, locs, size)
  {
    BuildFromStepKeys(l, locs, size, m0.Keys);
    BuildFromStepValues(l, locs, size, m0, m);
    BuildFromStepLast(l, locs, size, m0, m);
  }

  lemma BuildFromStepKeys(l: Lattice, locs: seq<Loc>, size: nat, keys0: set<GridId>)
    requires AllHaveStickers(l, locs) && locs != []
    requires AllHaveStickers(l, locs[..|locs| - 1])
    requires keys0 == IdsOf(l, locs[..|locs| - 1], size)
    ensures keys0 + {IdAt(l, locs[|locs| - 1], size)} == IdsOf(l, locs, size)
  {
    var init := locs[..|locs| - 1];
    assert locs == init + [locs[|locs| - 1]];
  }

  lemma BuildFromStepValues(l: Lattice, locs: seq<Loc>, size: nat, m0: ManifoldMap, m: ManifoldMap)
    requires AllHaveStickers(l, locs) && locs != []
    requires forall g | g in m0 :: m0[g] in locs[..|locs| - 1] && HasSticker(l, m0[g]) && IdAt(l, m0[g], size) == g
    requires m == m0[IdAt(l, locs[|locs| - 1], size) := locs[|locs| - 1]]
    ensures forall g | g in m :: m[g] in locs && IdAt(l, m[g], size) == g
  {
    assert forall b | b in locs[..|locs| - 1] :: b in locs;
  }

  lemma BuildFromStepLast(l: Lattice, locs: seq<Loc>, size: nat, m0: ManifoldMap, m: ManifoldMap)
    requires AllHaveStickers(l, locs) && locs != []
    requires AllHaveStickers(l, locs[..|locs| - 1])
    requires BuiltFrom(m0, l, locs[..|locs| - 1], size)
    requires m == m0[IdAt(l, locs[|locs| - 1], size) := locs[|locs| - 1]]
    ensures forall i | 0 <= i < |locs| && LastWithId(l, locs, i, size) :: m[IdAt(l, locs[i], size)] == locs[i]
  {
    var init := locs[..|locs| - 1];
    var a := locs[|locs| - 1];
    forall i | 0 <= i < |locs| && LastWithId(l, locs, i, size)
      ensures m[IdAt(l, locs[i], size)] == locs[i]
    {
      if i < |init| {
        assert IdAt(l, a, size) != IdAt(l, locs[i], size);
        assert init[i] == locs[i];
        assert LastWithId(l, init, i, size);
      }
    }
  }

  /** buildManifoldGridMap: every sticker of the lattice, in scan order. */
  function BuildManifoldGridMap(l: Lattice, size: nat): (m: ManifoldMap)
    ensures m.Keys == IdSet(l, size)
    ensures forall g | g in m :: InRange(m[g].cell, size) && HasSticker(l, m[g]) && IdAt(l, m[g], size) == g
  {
    ScanMembers(l, size);
    var m := BuildFrom(l, Scan(l, size), size);
    assert IdsOf(l, Scan(l, size), size) == IdSet(l, size);
    m
  }

  /** On a coherent lattice the map holds every grid id exactly once and sends
      each exterior slot's id back to that slot. */
  lemma ManifoldMapOfCoherent(l: Lattice, size: nat)
    requires Coherent(l, size)
    ensures BuildManifoldGridMap(l, size).Keys == AllIds(size)
    ensures |BuildManifoldGridMap(l, size)| == 6 * (size * size)
    ensures forall a | Exterior(a, size) ::
      IdAt(l, a, size) in BuildManifoldGridMap(l, size) && BuildManifoldGridMap(l, size)[IdAt(l, a, size)] == a
  {
    var m := BuildManifoldGridMap(l, size);
    AllIdsCard(size);
    assert m.Keys == AllIds(size);
    assert |m| == |m.Keys|;
    forall a | Exterior(a, size) ensures IdAt(l, a, size) in m && m[IdAt(l, a, size)] == a {
      ManifoldMapSlot(l, size, a);
    }
  }

  lemma ManifoldMapSlot(l: Lattice, size: nat, a: Loc)
    requires Coherent(l, size) && Exterior(a, size)
    ensures IdAt(l, a, size) in BuildManifoldGridMap(l, size)
    ensures BuildManifoldGridMap(l, size)[IdAt(l, a, size)] == a
  {
    var m := BuildManifoldGridMap(l, size);
    ScanMembers(l, size);
    assert a in Scan(l, size);
    var g := IdAt(l, a, size);
    assert g in IdSet(l, size);
    var b := m[g];
    assert HasSticker(l, b) && IdAt(l, b, size) == g;
    assert HasSticker(l, a);
  }

  // ---------------------------------------------------------------------
  // The antipodal partner

  /** The id the antipodal partner of `st` carries: opposite home colour, same index. */
  function PartnerId(st: Sticker, size: int): GridId {
    AntipodalGridId(StickerGridId(st, size))
  }

  /** findAntipodalStickerByGrid: the slot of the partner, if the map has it. */
  function FindAntipodalStickerByGrid(m: ManifoldMap, st: Sticker, size: int): Option<Loc> {
    var g := PartnerId(st, size);
    if g in m then Some(m[g]) else None
  }

  /** Being partners is symmetric, and nobody is its own partner. */
  lemma PartnerIdInvolution(st: Sticker, st': Sticker, size: int)
    ensures PartnerId(st, size) != StickerGridId(st, size)
    ensures StickerGridId(st', size) == PartnerId(st, size) ==> PartnerId(st', size) == StickerGridId(st, size)
  {
    AntipodalInvolution(st.orig);
  }

  /** On a coherent lattice every sticker has a partner: a different exterior
      slot, whose sticker has the opposite home colour and the same index, and
      whose own partner is the first sticker again. */
  lemma FindAntipodalOnCoherent(l: Lattice, size: nat, a: Loc)
    requires Coherent(l, size) && Exterior(a, size)
    ensures var m := BuildManifoldGridMap(l, size);
      var r := FindAntipodalStickerByGrid(m, StickerAt(l, a).value, size);
      && r.Some?
      && Exterior(r.value, size)
      && r.value != a
      && StickerAt(l, r.value).value.orig == Antipodal(StickerAt(l, a).value.orig)
      && IdAt(l, r.value, size).index == IdAt(l, a, size).index
      && FindAntipodalStickerByGrid(m, StickerAt(l, r.value).value, size) == Some(a)
  {
    var m := BuildManifoldGridMap(l, size);
    ManifoldMapOfCoherent(l, size);
    var st := StickerAt(l, a).value;
    ScanMembers(l, size);
    assert a in Scan(l, size);
    assert IdAt(l, a, size) in AllIds(size);
    var g := PartnerId(st, size);
    assert g in AllIds(size);
    var b := m[g];
    PartnerIdInvolution(st, StickerAt(l, b).value, size);
    assert IdAt(l, b, size) == g;
  }

  // ---------------------------------------------------------------------
  // Flipping

  /** A flipped sticker: the antipodal colour, one more flip. */
  function Flipped(st: Sticker): (r: Sticker)
    ensures r.curr != st.curr && r.flips == st.flips + 1
    ensures r.curr == st.orig <==> st.curr == Antipodal(st.orig)
    ensures r.orig == st.orig && r.origPos == st.origPos && r.origDir == st.origDir
  {
    AntipodalInvolution(st.curr);
    st.(curr := Antipodal(st.curr), flips := st.flips + 1)
  }

  /** Flipping twice restores the colour and counts two flips. */
  lemma FlippedTwice(st: Sticker)
    ensures Flipped(Flipped(st)) == st.(flips := st.flips + 2)
  {
    AntipodalInvolution(st.curr);
  }

  /** applyFlip: flips the sticker at one slot; a slot without a sticker is left alone. */
  function ApplyFlip(l: Lattice, a: Loc): (r: Lattice)
    ensures SameShape(l, r)
    ensures forall c | c in l :: r[c].at == l[c].at
    ensures HasSticker(l, a) ==> StickerAt(r, a) == Some(Flipped(StickerAt(l, a).value))
    ensures forall b | b != a :: StickerAt(r, b) == StickerAt(l, b)
    ensures !HasSticker(l, a) ==> r == l
  {
    if HasSticker(l, a) then
      var c := l[a.cell];
      l[a.cell := c.(stickers := c.stickers[a.dir := Flipped(c.stickers[a.dir])])]
    else l
  }

  /** The slot flipStickerPair flips together with `a`, looked up in `m`. */
  function PartnerSlot(l: Lattice, a: Loc, m: ManifoldMap, size: nat): Option<Loc> {
    if HasSticker(l, a) then FindAntipodalStickerByGrid(m, StickerAt(l, a).value, size) else None
  }

  /** flipStickerPair: flips the sticker at `a`, then its partner as `m` locates it. */
  function FlipStickerPair(l: Lattice, size: nat, a: Loc, m: ManifoldMap): (r: Lattice)
    ensures !HasSticker(l, a) ==> r == l
    ensures SameShape(l, r)
    ensures forall c | c in l :: r[c].at == l[c].at
    ensures forall b | b != a && PartnerSlot(l, a, m, size) != Some(b) :: StickerAt(r, b) == StickerAt(l, b)
    ensures HasSticker(l, a) && PartnerSlot(l, a, m, size) != Some(a) ==>
      StickerAt(r, a) == Some(Flipped(StickerAt(l, a).value))
    ensures forall p | PartnerSlot(l, a, m, size) == Some(p) && p != a && HasSticker(l, p) ::
      StickerAt(r, p) == Some(Flipped(StickerAt(l, p).value))
  {
    if !HasSticker(l, a) then l
    else
      var l1 := ApplyFlip(l, a);
      match FindAntipodalStickerByGrid(m, StickerAt(l, a).value, size)
      case None => l1
      case Some(p) => ApplyFlip(l1, p)
  }

  // ---------------------------------------------------------------------
  // What a flip keeps

  /** Two lattices that differ at most in colours and flip counts. */
  ghost predicate SameIdentity(l: Lattice, l': Lattice) {
    && SameShape(l, l')
    && (forall c | c in l :: l'[c].at == l[c].at)
    && forall a | HasSticker(l, a) ::
      var st := StickerAt(l, a).value;
      var st' := StickerAt(l', a).value;
      st'.orig == st.orig && st'.origPos == st.origPos && st'.origDir == st.origDir
  }

  lemma SameIdentityHasSticker(l: Lattice, l': Lattice)
    requires SameShape(l, l')
    ensures forall a :: HasSticker(l, a) <==> HasSticker(l', a)
  {
  }

  lemma FlipKeepsIdentity(l: Lattice, size: nat, a: Loc, m: ManifoldMap)
    ensures SameIdentity(l, FlipStickerPair(l, size, a, m))
  {
    var r := FlipStickerPair(l, size, a, m);
    forall b | HasSticker(l, b)
      ensures StickerAt(r, b).value.orig == StickerAt(l, b).value.orig
      ensures StickerAt(r, b).value.origPos == StickerAt(l, b).value.origPos
      ensures StickerAt(r, b).value.origDir == StickerAt(l, b).value.origDir
    {
      if HasSticker(l, a) {
        var l1 := ApplyFlip(l, a);
        match FindAntipodalStickerByGrid(m, StickerAt(l, a).value, size)
        case None =>
        case Some(p) =>
          assert r == ApplyFlip(l1, p);
          assert HasSticker(l1, b);
      }
    }
  }

  /** Lattices that differ only in colours and flip counts scan alike, carry
      the same grid ids, and build the same manifold map. */
  lemma SameIdentityMap(l: Lattice, l': Lattice, size: nat)
    requires SameIdentity(l, l')
    ensures Scan(l', size) == Scan(l, size)
    ensures forall a | HasSticker(l, a) :: HasSticker(l', a) && IdAt(l', a, size) == IdAt(l, a, size)
    ensures IdSet(l', size) == IdSet(l, size)
    ensures BuildManifoldGridMap(l', size) == BuildManifoldGridMap(l, size)
  {
    LocsOfSameShape(l, l', Cells(size));
    ScanMembers(l, size);
    BuildFromSameIds(l, l', Scan(l, size), size);
  }

  lemma {:induction false} BuildFromSameIds(l: Lattice, l': Lattice, locs: seq<Loc>, size: nat)
    requires AllHaveStickers(l, locs) && AllHaveStickers(l', locs)
    requires forall a | a in locs :: IdAt(l', a, size) == IdAt(l, a, size)
    ensures BuildFrom(l', locs, size) == BuildFrom(l, locs, size)
    decreases |locs|
  {
    if locs != [] {
      var init := locs[..|locs| - 1];
      assert forall b | b in init :: b in locs;
      BuildFromSameIds(l, l', init, size);
    }
  }

  /** Flips keep a lattice coherent. */
  lemma SameIdentityCoherent(l: Lattice, l': Lattice, size: nat)
    requires Coherent(l, size) && SameIdentity(l, l')
    ensures Coherent(l', size)
  {
    SameIdentityMap(l, l', size);
  }

  /** Flipping the same slot twice with the same map restores every colour:
      the second flip finds the same partner, and each slot is flipped an even
      number of times. */
  lemma FlipTwiceRestoresColours(l: Lattice, size: nat, a: Loc, m: ManifoldMap)
    ensures var r := FlipStickerPair(FlipStickerPair(l, size, a, m), size, a, m);
      forall b | HasSticker(l, b) :: HasSticker(r, b) && StickerAt(r, b).value.curr == StickerAt(l, b).value.curr
  {
    var r1 := FlipStickerPair(l, size, a, m);
    var r := FlipStickerPair(r1, size, a, m);
    FlipKeepsIdentity(l, size, a, m);
    FlipKeepsIdentity(r1, size, a, m);
    if HasSticker(l, a) {
      var p := PartnerSlot(l, a, m, size);
      assert PartnerSlot(r1, a, m, size) == p by {
        assert StickerGridId(StickerAt(r1, a).value, size) == StickerGridId(StickerAt(l, a).value, size);
      }
      forall b | HasSticker(l, b) ensures StickerAt(r, b).value.curr == StickerAt(l, b).value.curr {
        if p == Some(a) && b == a {
          TwoPairFlipsAtSelf(l, size, a, m);
        } else if b == a {
          FlippedTwice(StickerAt(l, a).value);
        } else if p == Some(b) {
          FlippedTwice(StickerAt(l, b).value);
        }
      }
    }
  }

  /** Flipping a slot twice with the same map adds exactly two to the flip
      count of the slot and of its partner. */
  lemma FlipTwiceAddsTwo(l: Lattice, size: nat, a: Loc, m: ManifoldMap)
    requires PartnerSlot(l, a, m, size) != Some(a)
    ensures var r := FlipStickerPair(FlipStickerPair(l, size, a, m), size, a, m);
      forall b | HasSticker(l, b) && (b == a || PartnerSlot(l, a, m, size) == Some(b)) ::
        HasSticker(r, b) && StickerAt(r, b).value.flips == StickerAt(l, b).value.flips + 2
  {
    var r1 := FlipStickerPair(l, size, a, m);
    var r := FlipStickerPair(r1, size, a, m);
    FlipKeepsIdentity(l, size, a, m);
    FlipKeepsIdentity(r1, size, a, m);
    if HasSticker(l, a) {
      var p := PartnerSlot(l, a, m, size);
      assert PartnerSlot(r1, a, m, size) == p by {
        assert StickerGridId(StickerAt(r1, a).value, size) == StickerGridId(StickerAt(l, a).value, size);
      }
    }
  }

  /** Flip counts only grow from l to l'. */
  ghost predicate FlipsGrow(l: Lattice, l': Lattice) {
    forall a | HasSticker(l, a) :: HasSticker(l', a) && StickerAt(l', a).value.flips >= StickerAt(l, a).value.flips
  }

  /** A pair flip never lowers any flip count. */
  lemma FlipNeverLowersFlips(l: Lattice, size: nat, a: Loc, m: ManifoldMap)
    ensures FlipsGrow(l, FlipStickerPair(l, size, a, m))
  {
    var r := FlipStickerPair(l, size, a, m);
    FlipKeepsIdentity(l, size, a, m);
    if HasSticker(l, a) && PartnerSlot(l, a, m, size) == Some(a) {
      TwoPairFlipsAtSelf(l, size, a, m);
    }
  }

  lemma FlipsGrowTrans(l: Lattice, l1: Lattice, l2: Lattice)
    requires FlipsGrow(l, l1) && FlipsGrow(l1, l2)
    ensures FlipsGrow(l, l2)
  {
  }

  /** When `m` names `a` as its own partner, one pair flip flips `a` twice. */
  lemma TwoPairFlipsAtSelf(l: Lattice, size: nat, a: Loc, m: ManifoldMap)
    requires HasSticker(l, a) && PartnerSlot(l, a, m, size) == Some(a)
    ensures StickerAt(FlipStickerPair(l, size, a, m), a) == Some(Flipped(Flipped(StickerAt(l, a).value)))
    ensures StickerAt(FlipStickerPair(FlipStickerPair(l, size, a, m), size, a, m), a).value.curr == StickerAt(l, a).value.curr
  {
    var st := StickerAt(l, a).value;
    var r1 := FlipStickerPair(l, size, a, m);
    assert r1 == ApplyFlip(ApplyFlip(l, a), a);
    FlippedTwice(st);
    var st1 := StickerAt(r1, a).value;
    assert PartnerSlot(r1, a, m, size) == Some(a) by {
      assert StickerGridId(st1, size) == StickerGridId(st, size);
    }
    var r2 := FlipStickerPair(r1, size, a, m);
    assert r2 == ApplyFlip(ApplyFlip(r1, a), a);
    FlippedTwice(st1);
  }

  /** The names src/game/manifoldLogic.js exports. */
  const Exports: set<string> := {"buildManifoldGridMap", "findAntipodalStickerByGrid", "flipStickerPair"}

  /** The surface-neighbour function the worm logic imports from this module
      is not among its exports. */
  lemma NeighboursNotExported()
    ensures "getManifoldNeighbors" !in Exports
  {
  }
}
