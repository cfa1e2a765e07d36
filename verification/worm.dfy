/**
  The worm's body and the things it meets on the surface: self-collision,
  the starting worm, orb placement, the wormhole test and the re-projection of
  segments after a slice turn. A segment is a surface slot, cell plus face key.
 */
module Worm {
  import opened Cube
  import opened Seqs
  import opened Lattice
  import opened Rotation
  import opened Manifold
  import opened Navigator

  // ---------------------------------------------------------------------
  // Self-collision

  /** checkSelfCollision: the new head meets a body segment other than the old head at index 0. */
  function CheckSelfCollision(head: Loc, segs: seq<Loc>): (hit: bool)
    ensures hit <==> exists i | 1 <= i < |segs| :: segs[i] == head
  {
    if |segs| <= 1 then false
    else
      assert forall i | 1 <= i < |segs| :: segs[i] == segs[1..][i - 1];
      head in segs[1..]
  }

  /** Whatever sits at index 0 never causes a collision. */
  lemma OldHeadIgnored(head: Loc, segs: seq<Loc>, other: Loc)
    requires |segs| > 0
    ensures CheckSelfCollision(head, segs[0 := other]) == CheckSelfCollision(head, segs)
  {
    var s' := segs[0 := other];
    if CheckSelfCollision(head, segs) {
      var i :| 1 <= i < |segs| && segs[i] == head;
      assert s'[i] == head;
    }
    if CheckSelfCollision(head, s') {
      var i :| 1 <= i < |s'| && s'[i] == head;
      assert segs[i] == head;
    }
  }

  // ---------------------------------------------------------------------
  // The starting worm

  /** createInitialWorm: three segments on the front face, head at the face's
      centre cell, body going down the centre column. */
  function CreateInitialWorm(size: nat): (w: seq<Loc>)
    ensures |w| == 3
    ensures forall i | 0 <= i < 3 :: w[i].dir == PZ && w[i].cell.z == size - 1 && w[i].cell.x == size / 2
    ensures w[0].cell.y == size / 2
    ensures size >= 2 ==> forall i | 0 <= i < 3 :: Exterior(w[i], size)
  {
    var c := size / 2;
    var z := size - 1;
    [Loc(Coord(c, c, z), PZ), Loc(Coord(c, c - 1, z), PZ),
     Loc(Coord(c, if c - 2 >= 0 then c - 2 else c - 1, z), PZ)]
  }

  /** For sizes from 4 up the three segments are distinct and each sits one
      step below the previous one; for size 3 the last two coincide. */
  lemma InitialWormShape(size: nat)
    ensures size >= 4 ==> NoDup(CreateInitialWorm(size))
    ensures size >= 4 ==> forall i | 1 <= i < 3 ::
      CreateInitialWorm(size)[i].cell == Add(CreateInitialWorm(size)[i - 1].cell, Coord(0, -1, 0))
    ensures size == 3 ==> CreateInitialWorm(size)[1] == CreateInitialWorm(size)[2]
  {
  }

  // ---------------------------------------------------------------------
  // Orbs

  /** A slot an orb may take: a visible sticker that no worm segment or orb occupies. */
  predicate FreeSlot(l: Lattice, size: nat, a: Loc, worm: seq<Loc>, existing: seq<Loc>) {
    InRange(a.cell, size) && HasSticker(l, a) && OnFace(a.cell, a.dir, size) && a !in worm && a !in existing
  }

  function FilterFree(l: Lattice, size: nat, locs: seq<Loc>, worm: seq<Loc>, existing: seq<Loc>): (v: seq<Loc>)
    ensures forall a :: a in v <==> a in locs && FreeSlot(l, size, a, worm, existing)
    ensures NoDup(locs) ==> NoDup(v)
  {
    if locs == [] then []
    else
      var rest := FilterFree(l, size, locs[1..], worm, existing);
      assert forall a | a in locs[1..] :: a in locs;
      assert NoDup(locs) ==> NoDup(locs[1..]) && locs[0] !in locs[1..];
      if FreeSlot(l, size, locs[0], worm, existing) then [locs[0]] + rest else rest
  }

  /** The candidate orb slots in scan order. */
  function ValidPositions(l: Lattice, size: nat, worm: seq<Loc>, existing: seq<Loc>): (v: seq<Loc>)
    ensures forall a :: a in v <==> FreeSlot(l, size, a, worm, existing)
    ensures NoDup(v)
  {
    ScanMembers(l, size);
    FilterFree(l, size, Scan(l, size), worm, existing)
  }

  /** `order` lists each index below n exactly once: the outcome of the shuffle. */
  predicate IsOrder(order: seq<nat>, n: nat) {
    |order| == n && NoDup(order) && forall i | 0 <= i < |order| :: order[i] < n
  }

  function Min(a: nat, b: nat): nat {
    if a <= b then a else b
  }

  /**
    spawnOrbs: shuffle the free slots and keep the first `count`. The shuffle
    is the parameter `order`, any permutation of the free slots' indices.
   */
  function SpawnOrbs(l: Lattice, size: nat, count: nat, worm: seq<Loc>, existing: seq<Loc>, order: seq<nat>): (r: seq<Loc>)
    requires IsOrder(order, |ValidPositions(l, size, worm, existing)|)
    ensures |r| == Min(count, |ValidPositions(l, size, worm, existing)|)
    ensures forall i | 0 <= i < |r| :: FreeSlot(l, size, r[i], worm, existing)
    ensures NoDup(r)
  {
    var valid := ValidPositions(l, size, worm, existing);
    var k := Min(count, |valid|);
    var r := seq(k, i requires 0 <= i < k => valid[order[i]]);
    assert forall i, j | 0 <= i < j < k :: order[i] != order[j];
    assert forall i | 0 <= i < k :: r[i] in valid;
    r
  }

  /** Asking for at least as many orbs as there are free slots fills every free slot. */
  lemma SpawnOrbsFillsAll(l: Lattice, size: nat, count: nat, worm: seq<Loc>, existing: seq<Loc>, order: seq<nat>)
    requires IsOrder(order, |ValidPositions(l, size, worm, existing)|)
    requires count >= |ValidPositions(l, size, worm, existing)|
    ensures forall a :: a in SpawnOrbs(l, size, count, worm, existing, order) <==> FreeSlot(l, size, a, worm, existing)
  {
    var valid := ValidPositions(l, size, worm, existing);
    var r := SpawnOrbs(l, size, count, worm, existing, order);
    var sr := set x | x in r;
    var sv := set x | x in valid;
    CardOfNoDup(r);
    CardOfNoDup(valid);
    assert sr <= sv;
    SubsetSameCard(sr, sv);
    forall a ensures a in r <==> FreeSlot(l, size, a, worm, existing) {
      assert a in r <==> a in sr;
      assert a in valid <==> a in sv;
    }
  }

  lemma SubsetSameCard<T>(a: set<T>, b: set<T>)
    requires a <= b && |a| == |b|
    ensures a == b
  {
    if a != b {
      var x :| x in b && x !in a;
      SubsetCard(a, b - {x});
      assert false;
    }
  }

  lemma {:induction false} SubsetCard<T>(a: set<T>, b: set<T>)
    requires a <= b
    ensures |a| <= |b|
    decreases |a|
  {
    if a != {} {
      var y :| y in a;
      SubsetCard(a - {y}, b - {y});
    }
  }

  // ---------------------------------------------------------------------
  // Wormholes

  /** isPositionFlipped: a sticker shows a colour other than its home colour. */
  predicate IsPositionFlipped(l: Lattice, pos: Loc) {
    HasSticker(l, pos) && StickerAt(l, pos).value.curr != StickerAt(l, pos).value.orig
  }

  /** A pair flip of an unflipped slot opens a wormhole at both ends. */
  lemma FlipOpensWormhole(l: Lattice, size: nat, a: Loc)
    requires Coherent(l, size) && Exterior(a, size)
    requires !IsPositionFlipped(l, a)
    ensures var m := BuildManifoldGridMap(l, size);
      var p := PartnerSlot(l, a, m, size);
      && p.Some?
      && IsPositionFlipped(FlipStickerPair(l, size, a, m), a)
      && (!IsPositionFlipped(l, p.value) ==> IsPositionFlipped(FlipStickerPair(l, size, a, m), p.value))
  {
    FindAntipodalOnCoherent(l, size, a);
  }

  /**
    getAntipodalPosition: the slot holding the sticker whose grid id pairs
    with the one at `pos`, looked up in `m`, or in a map built from the
    lattice when none is supplied.
   */
  function GetAntipodalPosition(l: Lattice, pos: Loc, size: nat, m: Option<ManifoldMap>): (r: Option<Loc>)
    ensures !HasSticker(l, pos) ==> r.None?
    ensures m.None? && r.Some? ==>
      HasSticker(l, r.value) && IdAt(l, r.value, size) == PartnerId(StickerAt(l, pos).value, size)
  {
    var map_ := match m case Some(mm) => mm case None => BuildManifoldGridMap(l, size);
    PartnerSlot(l, pos, map_, size)
  }

  /** On a coherent cube every surface slot has an antipode on another slot,
      and the antipode of the antipode is the slot itself. */
  lemma AntipodeRoundTrip(l: Lattice, pos: Loc, size: nat)
    requires Coherent(l, size) && Exterior(pos, size)
    ensures var r := GetAntipodalPosition(l, pos, size, None);
      && r.Some? && r.value != pos && Exterior(r.value, size)
      && GetAntipodalPosition(l, r.value, size, None) == Some(pos)
  {
    FindAntipodalOnCoherent(l, size, pos);
  }

  // ---------------------------------------------------------------------
  // Riding a slice turn

  /** The face-key table of updateWormAfterRotation, as the source writes it. */
  function RotateDirAsWritten(d: Dir, axis: Axis, sign: Sign): Dir {
    match axis
    case Col =>
      (match d
       case PY => if sign.Plus? then NZ else PZ
       case NZ => if sign.Plus? then NY else PY
       case NY => if sign.Plus? then PZ else NZ
       case PZ => if sign.Plus? then PY else NY
       case _ => d)
    case Row =>
      (match d
       case PX => if sign.Plus? then PZ else NZ
       case PZ => if sign.Plus? then NX else PX
       case NX => if sign.Plus? then NZ else PZ
       case NZ => if sign.Plus? then PX else NX
       case _ => d)
    case Depth =>
      (match d
       case PX => if sign.Plus? then NY else PY
       case PY => if sign.Plus? then PX else NX
       case NX => if sign.Plus? then PY else NY
       case NY => if sign.Plus? then NX else PX
       case _ => d)
  }

  /** The written table turns face keys the opposite way to the cubies: it is
      the inverse turn. */
  lemma RotateDirAsWrittenIsInverse(d: Dir, axis: Axis, sign: Sign)
    ensures RotateDirAsWritten(d, axis, sign) == RotateDir(d, axis, sign.Flip())
  {
    match axis
    case Col => {
      match d
      case PX => case NX => case PY => case NY => case PZ => case NZ =>
    }
    case Row => {
      match d
      case PX => case NX => case PY => case NY => case PZ => case NZ =>
    }
    case Depth => {
      match d
      case PX => case NX => case PY => case NY => case PZ => case NZ =>
    }
  }

  /** Equivalently, it sends every key off the axis to the opposite of the key
      rotateVec90 gives. */
  lemma RotateDirAsWrittenNegates(d: Dir, axis: Axis, sign: Sign)
    requires !KeyOnAxis(d, axis)
    ensures RotateDirAsWritten(d, axis, sign) == Opposite(RotateDir(d, axis, sign))
  {
    match axis
    case Col => {
      match d
      case PX => case NX => case PY => case NY => case PZ => case NZ =>
    }
    case Row => {
      match d
      case PX => case NX => case PY => case NY => case PZ => case NZ =>
    }
    case Depth => {
      match d
      case PX => case NX => case PY => case NY => case PZ => case NZ =>
    }
  }

  /** The two face keys whose normals lie along the turning axis. */
  predicate KeyOnAxis(d: Dir, axis: Axis) {
    match axis
    case Col => d == PX || d == NX
    case Row => d == PY || d == NY
    case Depth => d == PZ || d == NZ
  }

  /** The written table, taken with the opposite turn, undoes itself and fixes the two keys on the axis. */
  lemma RotateDirAsWrittenFacts(d: Dir, axis: Axis, sign: Sign)
    ensures RotateDirAsWritten(RotateDirAsWritten(d, axis, sign), axis, sign.Flip()) == d
    ensures DirToVec(d) == AxisVec(axis) || DirToVec(d) == Neg(AxisVec(axis)) ==> RotateDirAsWritten(d, axis, sign) == d
  {
    RotateDirAsWrittenIsInverse(d, axis, sign);
    RotateDirAsWrittenIsInverse(RotateDirAsWritten(d, axis, sign), axis, sign.Flip());
    RotateDirFacts(d, axis, sign.Flip());
    assert sign.Flip().Flip() == sign;
  }

  /** One segment after the turn, its face key turned by the written or the corrected key table. */
  function RideSegment(seg: Loc, axis: Axis, slice: int, sign: Sign, size: int, t: Table): Loc {
    if InSlice(seg.cell, axis, slice) then
      Loc(RotCell(seg.cell, axis, sign, size),
          if t == AsWritten then RotateDirAsWritten(seg.dir, axis, sign) else RotateDir(seg.dir, axis, sign))
    else seg
  }

  /** updateWormAfterRotation as written. */
  function UpdateWormAfterRotationAsWritten(segs: seq<Loc>, axis: Axis, slice: int, sign: Sign, size: int): (r: seq<Loc>)
    ensures |r| == |segs|
    ensures forall i | 0 <= i < |segs| && !InSlice(segs[i].cell, axis, slice) :: r[i] == segs[i]
  {
    seq(|segs|, i requires 0 <= i < |segs| => RideSegment(segs[i], axis, slice, sign, size, AsWritten))
  }

  /** updateWormAfterRotation with each segment's face key turned as the cubie's stickers are. */
  function UpdateWormAfterRotation(segs: seq<Loc>, axis: Axis, slice: int, sign: Sign, size: int): (r: seq<Loc>)
    ensures |r| == |segs|
    ensures forall i | 0 <= i < |segs| && !InSlice(segs[i].cell, axis, slice) :: r[i] == segs[i]
    ensures forall i | 0 <= i < |segs| && InRange(segs[i].cell, size) :: r[i] == MoveLoc(segs[i], axis, slice, sign, size)
  {
    seq(|segs|, i requires 0 <= i < |segs| => RideSegment(segs[i], axis, slice, sign, size, Corrected))
  }

  /** updateWormAfterRotation under either reading of the key table. Either
      way the cells move as rotateSliceCubies moves cubies; the written table
      turns each in-slice key with the reverse turn. */
  function UpdateWormWith(t: Table, segs: seq<Loc>, axis: Axis, slice: int, sign: Sign, size: int): (r: seq<Loc>)
    ensures |r| == |segs|
    ensures forall i | 0 <= i < |segs| && !InSlice(segs[i].cell, axis, slice) :: r[i] == segs[i]
    ensures forall i | 0 <= i < |segs| && InRange(segs[i].cell, size) ::
      r[i].cell == MoveLoc(segs[i], axis, slice, sign, size).cell
    ensures t == Corrected ==> forall i | 0 <= i < |segs| && InRange(segs[i].cell, size) ::
      r[i] == MoveLoc(segs[i], axis, slice, sign, size)
    ensures t == AsWritten ==> forall i | 0 <= i < |segs| && InRange(segs[i].cell, size) ::
      r[i] == MoveLoc(segs[i], axis, slice, sign.Flip(), size).(cell := MoveLoc(segs[i], axis, slice, sign, size).cell)
  {
    if t == AsWritten then
      forall i | 0 <= i < |segs| {
        RotateDirAsWrittenIsInverse(segs[i].dir, axis, sign);
      }
      UpdateWormAfterRotationAsWritten(segs, axis, slice, sign, size)
    else UpdateWormAfterRotation(segs, axis, slice, sign, size)
  }

  /** Segment cells move exactly as the cubies under them: the cubie at a
      segment's cell before the turn is the one at its cell afterwards. */
  lemma SegmentsFollowCubies(l: Lattice, segs: seq<Loc>, size: int, axis: Axis, slice: int, sign: Sign, i: int)
    requires forall c | InRange(c, size) :: c in l
    requires 0 <= i < |segs| && InRange(segs[i].cell, size) && InSlice(segs[i].cell, axis, slice)
    ensures var r := RotateSliceCubies(l, size, axis, slice, sign);
      var c := UpdateWormAfterRotation(segs, axis, slice, sign, size)[i].cell;
      c in r && r[c].stickers == RotateStickers(l[segs[i].cell].stickers, axis, sign)
  {
  }

  /** A segment stays on the very sticker it was on when the slice turns. */
  lemma SegmentRidesSticker(l: Lattice, segs: seq<Loc>, size: int, axis: Axis, slice: int, sign: Sign, i: int)
    requires forall c | InRange(c, size) :: c in l
    requires 0 <= i < |segs| && InRange(segs[i].cell, size)
    ensures StickerAt(RotateSliceCubies(l, size, axis, slice, sign), UpdateWormAfterRotation(segs, axis, slice, sign, size)[i])
         == StickerAt(l, segs[i])
  {
    RotationPreservesStickers(l, size, axis, slice, sign, segs[i]);
  }

  /** Segments on the surface stay on the surface, and the opposite turn puts every segment back. */
  lemma UpdateWormFacts(segs: seq<Loc>, axis: Axis, slice: int, sign: Sign, size: int)
    ensures forall i | 0 <= i < |segs| ::
      Exterior(UpdateWormAfterRotation(segs, axis, slice, sign, size)[i], size) <==> Exterior(segs[i], size)
    ensures UpdateWormAfterRotation(UpdateWormAfterRotation(segs, axis, slice, sign, size), axis, slice, sign.Flip(), size) == segs
  {
    var r := UpdateWormAfterRotation(segs, axis, slice, sign, size);
    forall i | 0 <= i < |segs|
      ensures Exterior(r[i], size) <==> Exterior(segs[i], size)
    {
      RideExterior(segs[i], axis, slice, sign, size);
    }
    var r2 := UpdateWormAfterRotation(r, axis, slice, sign.Flip(), size);
    forall i | 0 <= i < |segs| ensures r2[i] == segs[i] {
      RideBack(segs[i], axis, slice, sign, size);
    }
  }

  lemma RideExterior(seg: Loc, axis: Axis, slice: int, sign: Sign, size: int)
    ensures Exterior(RideSegment(seg, axis, slice, sign, size, Corrected), size) <==> Exterior(seg, size)
  {
    if InRange(seg.cell, size) {
      MoveLocExterior(seg, axis, slice, sign, size);
    } else if InSlice(seg.cell, axis, slice) {
      RotCellFacts(seg.cell, axis, slice, sign, size);
    }
  }

  lemma RideBack(seg: Loc, axis: Axis, slice: int, sign: Sign, size: int)
    ensures RideSegment(RideSegment(seg, axis, slice, sign, size, Corrected), axis, slice, sign.Flip(), size, Corrected) == seg
  {
    if InSlice(seg.cell, axis, slice) {
      RotCellFacts(seg.cell, axis, slice, sign, size);
      RotateDirFacts(seg.dir, axis, sign);
      var mid := RideSegment(seg, axis, slice, sign, size, Corrected);
      assert mid == Loc(RotCell(seg.cell, axis, sign, size), RotateDir(seg.dir, axis, sign));
      assert InSlice(mid.cell, axis, slice);
    }
  }

  /** With the written table, a surface segment in the turning slice whose key
      is off the axis leaves the surface: its new key names the face opposite
      the one its cell now lies on. */
  lemma AsWrittenLeavesSurface(seg: Loc, axis: Axis, slice: int, sign: Sign, size: int)
    requires size >= 2 && Exterior(seg, size) && InSlice(seg.cell, axis, slice)
    requires !KeyOnAxis(seg.dir, axis)
    ensures !Exterior(UpdateWormAfterRotationAsWritten([seg], axis, slice, sign, size)[0], size)
  {
    var good := RideSegment(seg, axis, slice, sign, size, Corrected);
    var bad := RideSegment(seg, axis, slice, sign, size, AsWritten);
    RideExterior(seg, axis, slice, sign, size);
    RotateDirAsWrittenNegates(seg.dir, axis, sign);
    assert bad == Loc(good.cell, Opposite(good.dir));
    OppositeFacesApart(good.cell, good.dir, size);
    assert UpdateWormAfterRotationAsWritten([seg], axis, slice, sign, size)[0] == bad;
  }

  lemma OppositeFacesApart(c: Coord, d: Dir, size: int)
    requires size >= 2 && OnFace(c, d, size)
    ensures !OnFace(c, Opposite(d), size)
  {
  }

  /** The case that shows it: on a 3-cube a top-face segment turned with the
      column lands on the front face but is keyed to the back face. */
  lemma AsWrittenExample()
    ensures RideSegment(Loc(Coord(1, 2, 1), PY), Col, 1, Plus, 3, AsWritten) == Loc(Coord(1, 1, 2), NZ)
  {
    assert RotateDirAsWritten(PY, Col, Plus) == NZ;
    assert TurnCell(Coord(1, 2, 1), Col, Plus, 3) == Coord(1, 1, 2);
  }

  /** The same segment with the cubie's key turn stays on the front face. */
  lemma CorrectedExample()
    ensures RideSegment(Loc(Coord(1, 2, 1), PY), Col, 1, Plus, 3, Corrected) == Loc(Coord(1, 1, 2), PZ)
  {
    assert RotateDir(PY, Col, Plus) == PZ;
    assert TurnCell(Coord(1, 2, 1), Col, Plus, 3) == Coord(1, 1, 2);
  }

  // ---------------------------------------------------------------------
  // Score formula

  /** calculateScore: 100 per segment, 50 per orb eaten, 25 per warp. */
  function CalculateScore(length: nat, orbsEaten: nat, warps: nat): (s: nat)
    ensures s % 25 == 0
    ensures s >= 100 * length
  {
    length * 100 + orbsEaten * 50 + warps * 25
  }

  /** Each extra segment, orb or warp raises the formula by its fixed bonus. */
  lemma ScoreIncrements(length: nat, orbsEaten: nat, warps: nat)
    ensures CalculateScore(length + 1, orbsEaten, warps) == CalculateScore(length, orbsEaten, warps) + 100
    ensures CalculateScore(length, orbsEaten + 1, warps) == CalculateScore(length, orbsEaten, warps) + 50
    ensures CalculateScore(length, orbsEaten, warps + 1) == CalculateScore(length, orbsEaten, warps) + 25
  {
  }
}
