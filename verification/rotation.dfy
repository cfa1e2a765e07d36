/**
  The rotation engine: a 90-degree twist of one slice about the cube centre.
  Positions are rotated in doubled centred coordinates 2v-(size-1), which keep
  the half-integer centre of even sizes integral; direction keys are rotated
  through their unit normals with the same quarter turn.
 */
module Rotation {
  import opened Cube
  import opened Grid
  import opened Seqs
  import opened Lattice

  /** The quarter turn of a vector about an axis (rotateVec90); the source's
      factor dir = +1 or -1 is spelled out per sign. */
  function RotateVec90(v: Coord, axis: Axis, sign: Sign): Coord {
    match axis
    case Col => if sign.Plus? then Coord(v.x, -v.z, v.y) else Coord(v.x, v.z, -v.y)
    case Row => if sign.Plus? then Coord(v.z, v.y, -v.x) else Coord(-v.z, v.y, v.x)
    case Depth => if sign.Plus? then Coord(-v.y, v.x, v.z) else Coord(v.y, -v.x, v.z)
  }

  /** The new key of a sticker whose cubie turns: the key of its turned normal
      (rotateStickers reads it back through VEC_TO_DIR; RotateDirAsSource). */
  function RotateDir(d: Dir, axis: Axis, sign: Sign): Dir {
    match axis
    case Col =>
      if sign.Plus? then (match d case PY => PZ case PZ => NY case NY => NZ case NZ => PY case _ => d)
      else (match d case PY => NZ case NZ => NY case NY => PZ case PZ => PY case _ => d)
    case Row =>
      if sign.Plus? then (match d case PZ => PX case PX => NZ case NZ => NX case NX => PZ case _ => d)
      else (match d case PZ => NX case NX => NZ case NZ => PX case PX => PZ case _ => d)
    case Depth =>
      if sign.Plus? then (match d case PX => PY case PY => NX case NX => NY case NY => PX case _ => d)
      else (match d case PX => NY case NY => NX case NX => PY case PY => PX case _ => d)
  }

  predicate InSlice(c: Coord, axis: Axis, slice: int) {
    match axis
    case Col => c.x == slice
    case Row => c.y == slice
    case Depth => c.z == slice
  }

  /** The same quarter turn of a slice cell, written on lattice coordinates. */
  function TurnCell(c: Coord, axis: Axis, sign: Sign, size: int): Coord {
    var m := size - 1;
    match axis
    case Col => if sign.Plus? then Coord(c.x, m - c.z, c.y) else Coord(c.x, c.z, m - c.y)
    case Row => if sign.Plus? then Coord(c.z, c.y, m - c.x) else Coord(m - c.z, c.y, c.x)
    case Depth => if sign.Plus? then Coord(m - c.y, c.x, c.z) else Coord(c.y, m - c.x, c.z)
  }

  /** Where a cell of the turning slice lands. The turn about the centre lands
      exactly on a lattice position, so rounding back never rounds. */
  function RotCell(c: Coord, axis: Axis, sign: Sign, size: int): (r: Coord)
    ensures r == TurnCell(c, axis, sign, size)
    ensures CentreCell(r, size) == RotateVec90(CentreCell(c, size), axis, sign)
  {
    var v := RotateVec90(CentreCell(c, size), axis, sign);
    var m := size - 1;
    Half(c.x); Half(c.y); Half(c.z);
    Half(m - c.x); Half(m - c.y); Half(m - c.z);
    UncentreCell(v, size)
  }

  lemma Half(k: int)
    ensures (2 * k) / 2 == k
  {
  }

  /** Where a sticker slot lands when the slice holding it turns; other slots stay. */
  function MoveLoc(a: Loc, axis: Axis, slice: int, sign: Sign, size: int): Loc {
    if InRange(a.cell, size) && InSlice(a.cell, axis, slice) then
      Loc(RotCell(a.cell, axis, sign, size), RotateDir(a.dir, axis, sign))
    else a
  }

  function AxisVec(axis: Axis): Coord {
    match axis
    case Col => Coord(1, 0, 0)
    case Row => Coord(0, 1, 0)
    case Depth => Coord(0, 0, 1)
  }

  // ---------------------------------------------------------------------
  // The quarter turn

  /** A quarter turn fixes the vectors along its own axis. */
  lemma RotateVec90FixesAxis(axis: Axis, sign: Sign)
    ensures RotateVec90(AxisVec(axis), axis, sign) == AxisVec(axis)
    ensures RotateVec90(Neg(AxisVec(axis)), axis, sign) == Neg(AxisVec(axis))
  {
  }

  /** The opposite turn undoes a quarter turn. */
  lemma RotateVec90Inverse(v: Coord, axis: Axis, sign: Sign)
    ensures RotateVec90(RotateVec90(v, axis, sign), axis, sign.Flip()) == v
  {
  }

  /** Four quarter turns the same way are the identity. */
  lemma RotateVec90Order4(v: Coord, axis: Axis, sign: Sign)
    ensures RotateVec90(RotateVec90(RotateVec90(RotateVec90(v, axis, sign), axis, sign), axis, sign), axis, sign) == v
  {
  }

  /** A quarter turn preserves dot products. */
  lemma RotateVec90Dot(u: Coord, v: Coord, axis: Axis, sign: Sign)
    ensures Dot(RotateVec90(u, axis, sign), RotateVec90(v, axis, sign)) == Dot(u, v)
  {
  }

  /** A quarter turn takes every face normal to a face normal: the key table
      is the quarter turn of the normals. */
  lemma RotateNormal(d: Dir, axis: Axis, sign: Sign)
    ensures DirToVec(RotateDir(d, axis, sign)) == RotateVec90(DirToVec(d), axis, sign)
  {
    match axis
    case Col => if sign.Plus? { RotateNormalCase(d, Col, Plus); } else { RotateNormalCase(d, Col, Minus); }
    case Row => if sign.Plus? { RotateNormalCase(d, Row, Plus); } else { RotateNormalCase(d, Row, Minus); }
    case Depth => if sign.Plus? { RotateNormalCase(d, Depth, Plus); } else { RotateNormalCase(d, Depth, Minus); }
  }

  lemma RotateNormalCase(d: Dir, axis: Axis, sign: Sign)
    ensures DirToVec(RotateDir(d, axis, sign)) == RotateVec90(DirToVec(d), axis, sign)
  {
    match d
    case PX => case NX => case PY => case NY => case PZ => case NZ =>
  }

  /** The key table agrees with reading the turned normal back as a key. */
  lemma RotateDirAsSource(d: Dir, axis: Axis, sign: Sign)
    ensures RotateDir(d, axis, sign) == VecToDir(RotateVec90(DirToVec(d), axis, sign))
  {
    RotateNormal(d, axis, sign);
    DirVecRoundTrip(RotateDir(d, axis, sign));
  }

  /** Key rotation is undone by the opposite turn and fixes the two keys on the axis. */
  lemma RotateDirFacts(d: Dir, axis: Axis, sign: Sign)
    ensures DirToVec(RotateDir(d, axis, sign)) == RotateVec90(DirToVec(d), axis, sign)
    ensures RotateDir(RotateDir(d, axis, sign), axis, sign.Flip()) == d
    ensures DirToVec(d) == AxisVec(axis) || DirToVec(d) == Neg(AxisVec(axis)) ==> RotateDir(d, axis, sign) == d
  {
    var e := RotateDir(d, axis, sign);
    RotateNormal(d, axis, sign);
    RotateNormal(e, axis, sign.Flip());
    RotateVec90Inverse(DirToVec(d), axis, sign);
    RotateVec90FixesAxis(axis, sign);
    DirVecRoundTrip(d);
    DirVecRoundTrip(RotateDir(e, axis, sign.Flip()));
    if DirToVec(d) == AxisVec(axis) || DirToVec(d) == Neg(AxisVec(axis)) {
      DirVecRoundTrip(e);
    }
  }

  lemma RotateDirInjective(axis: Axis, sign: Sign)
    ensures forall d, e :: RotateDir(d, axis, sign) == RotateDir(e, axis, sign) ==> d == e
  {
    forall d, e | RotateDir(d, axis, sign) == RotateDir(e, axis, sign) ensures d == e {
      RotateDirFacts(d, axis, sign);
      RotateDirFacts(e, axis, sign);
    }
  }

  /** A slice cell stays in range and in the slice, and the opposite turn brings it back. */
  lemma RotCellFacts(c: Coord, axis: Axis, slice: int, sign: Sign, size: int)
    ensures InSlice(RotCell(c, axis, sign, size), axis, slice) <==> InSlice(c, axis, slice)
    ensures InRange(RotCell(c, axis, sign, size), size) <==> InRange(c, size)
    ensures RotCell(RotCell(c, axis, sign, size), axis, sign.Flip(), size) == c
  {
    var c' := RotCell(c, axis, sign, size);
    assert RotCell(c', axis, sign.Flip(), size) == TurnCell(c', axis, sign.Flip(), size);
  }

  /** Turning and turning back restores any slot. */
  lemma MoveLocRoundTrip(a: Loc, axis: Axis, slice: int, sign: Sign, size: int)
    ensures MoveLoc(MoveLoc(a, axis, slice, sign, size), axis, slice, sign.Flip(), size) == a
  {
    if InRange(a.cell, size) && InSlice(a.cell, axis, slice) {
      var b := Loc(RotCell(a.cell, axis, sign, size), RotateDir(a.dir, axis, sign));
      assert MoveLoc(a, axis, slice, sign, size) == b;
      MoveLocBack(a, b, axis, slice, sign, size);
    }
  }

  lemma MoveLocBack(a: Loc, b: Loc, axis: Axis, slice: int, sign: Sign, size: int)
    requires InRange(a.cell, size) && InSlice(a.cell, axis, slice)
    requires b == Loc(RotCell(a.cell, axis, sign, size), RotateDir(a.dir, axis, sign))
    ensures MoveLoc(b, axis, slice, sign.Flip(), size) == a
  {
    RotCellFacts(a.cell, axis, slice, sign, size);
    RotateDirFacts(a.dir, axis, sign);
    assert InRange(b.cell, size) && InSlice(b.cell, axis, slice);
  }

  /** A slot is exterior before a turn iff it is exterior after. */
  lemma MoveLocExterior(a: Loc, axis: Axis, slice: int, sign: Sign, size: int)
    ensures Exterior(MoveLoc(a, axis, slice, sign, size), size) <==> Exterior(a, size)
  {
    if InRange(a.cell, size) && InSlice(a.cell, axis, slice) {
      var c' := RotCell(a.cell, axis, sign, size);
      var d' := RotateDir(a.dir, axis, sign);
      assert MoveLoc(a, axis, slice, sign, size) == Loc(c', d');
      RotCellFacts(a.cell, axis, slice, sign, size);
      RotateNormal(a.dir, axis, sign);
      OnFaceCentred(a.cell, a.dir, size);
      OnFaceCentred(c', d', size);
      RotateVec90Dot(CentreCell(a.cell, size), DirToVec(a.dir), axis, sign);
      assert Dot(CentreCell(c', size), DirToVec(d')) == Dot(CentreCell(a.cell, size), DirToVec(a.dir));
    }
  }

  // ---------------------------------------------------------------------
  // Turning a slice of the lattice

  /** Re-keys a cubie's stickers through the turn; the records themselves are kept. */
  function RotateStickers(st: map<Dir, Sticker>, axis: Axis, sign: Sign): (r: map<Dir, Sticker>)
    ensures forall d :: d in r <==> RotateDir(d, axis, sign.Flip()) in st
    ensures forall d | d in r :: r[d] == st[RotateDir(d, axis, sign.Flip())]
    ensures |r| == |st|
  {
    RotateDirInjective(axis, sign);
    var r := map d | d in st :: RotateDir(d, axis, sign) := st[d];
    forall d ensures d in r <==> RotateDir(d, axis, sign.Flip()) in st {
      RotateDirFacts(d, axis, sign.Flip());
      assert sign.Flip().Flip() == sign;
    }
    forall d | d in r ensures r[d] == st[RotateDir(d, axis, sign.Flip())] {
      RotateDirFacts(d, axis, sign.Flip());
      assert sign.Flip().Flip() == sign;
    }
    assert r.Keys == Image(st.Keys, d => RotateDir(d, axis, sign));
    CardOfInjectiveImage(st.Keys, d => RotateDir(d, axis, sign));
    r
  }

  lemma RotCellInjective(axis: Axis, sign: Sign, size: int)
    ensures forall c, e :: RotCell(c, axis, sign, size) == RotCell(e, axis, sign, size) ==> c == e
  {
    forall c, e | RotCell(c, axis, sign, size) == RotCell(e, axis, sign, size) ensures c == e {
      RotCellFacts(c, axis, 0, sign, size);
      RotCellFacts(e, axis, 0, sign, size);
    }
  }

  /** The cubies of a slice, each at its new position with re-keyed stickers:
      a cell of the slice receives the cubie the opposite turn would bring it. */
  function Moves(l: Lattice, size: int, axis: Axis, slice: int, sign: Sign): (m: map<Coord, Cubie>)
    ensures forall c :: c in m <==>
      InRange(c, size) && InSlice(c, axis, slice) && RotCell(c, axis, sign.Flip(), size) in l
    ensures forall c | c in m ::
      m[c] == Cubie(c, RotateStickers(l[RotCell(c, axis, sign.Flip(), size)].stickers, axis, sign))
  {
    RotCellInjective(axis, sign, size);
    var m := map from | from in l && InRange(from, size) && InSlice(from, axis, slice) ::
      RotCell(from, axis, sign, size) := Cubie(RotCell(from, axis, sign, size), RotateStickers(l[from].stickers, axis, sign));
    assert sign.Flip().Flip() == sign;
    forall c ensures c in m <==> InRange(c, size) && InSlice(c, axis, slice) && RotCell(c, axis, sign.Flip(), size) in l {
      RotCellFacts(c, axis, slice, sign.Flip(), size);
      if c in m {
        var from :| from in l && InRange(from, size) && InSlice(from, axis, slice) && RotCell(from, axis, sign, size) == c;
        RotCellFacts(from, axis, slice, sign, size);
      }
      if InRange(c, size) && InSlice(c, axis, slice) && RotCell(c, axis, sign.Flip(), size) in l {
        var from := RotCell(c, axis, sign.Flip(), size);
        assert RotCell(from, axis, sign, size) == c;
      }
    }
    forall c | c in m ensures m[c] == Cubie(c, RotateStickers(l[RotCell(c, axis, sign.Flip(), size)].stickers, axis, sign)) {
      RotCellFacts(c, axis, slice, sign.Flip(), size);
      var from := RotCell(c, axis, sign.Flip(), size);
      assert RotCell(from, axis, sign, size) == c;
    }
    m
  }

  /** rotateSliceCubies: every cubie of the slice moves at once to its turned
      cell with its stickers re-keyed; every other cubie stays. */
  function RotateSliceCubies(l: Lattice, size: int, axis: Axis, slice: int, sign: Sign): (r: Lattice)
    ensures forall c | c in l && !(InRange(c, size) && InSlice(c, axis, slice)) :: c in r && r[c] == l[c]
    ensures forall c | c in l && InRange(c, size) && InSlice(c, axis, slice) ::
      var to := RotCell(c, axis, sign, size);
      to in r && r[to] == Cubie(to, RotateStickers(l[c].stickers, axis, sign))
  {
    var m := Moves(l, size, axis, slice, sign);
    var r := l + m;
    forall c | c in l && InRange(c, size) && InSlice(c, axis, slice)
      ensures RotCell(c, axis, sign, size) in r
      ensures r[RotCell(c, axis, sign, size)] == Cubie(RotCell(c, axis, sign, size), RotateStickers(l[c].stickers, axis, sign))
    {
      RotCellFacts(c, axis, slice, sign, size);
    }
    r
  }

  /** After a turn, the sticker at any slot is the one that sat at its pre-image. */
  lemma RotateTransport(l: Lattice, size: int, axis: Axis, slice: int, sign: Sign, a: Loc)
    requires forall c | InRange(c, size) :: c in l
    ensures StickerAt(RotateSliceCubies(l, size, axis, slice, sign), a)
         == StickerAt(l, MoveLoc(a, axis, slice, sign.Flip(), size))
  {
    if InRange(a.cell, size) && InSlice(a.cell, axis, slice) {
      TransportInSlice(l, size, axis, slice, sign, a);
    } else {
      var m := Moves(l, size, axis, slice, sign);
      assert RotateSliceCubies(l, size, axis, slice, sign) == l + m;
      assert a.cell !in m;
    }
  }

  lemma TransportInSlice(l: Lattice, size: int, axis: Axis, slice: int, sign: Sign, a: Loc)
    requires forall c | InRange(c, size) :: c in l
    requires InRange(a.cell, size) && InSlice(a.cell, axis, slice)
    ensures StickerAt(RotateSliceCubies(l, size, axis, slice, sign), a)
         == StickerAt(l, MoveLoc(a, axis, slice, sign.Flip(), size))
  {
    var r := RotateSliceCubies(l, size, axis, slice, sign);
    var from := RotCell(a.cell, axis, sign.Flip(), size);
    RotCellFacts(a.cell, axis, slice, sign.Flip(), size);
    assert sign.Flip().Flip() == sign;
    assert from in l && InRange(from, size) && InSlice(from, axis, slice);
    assert RotCell(from, axis, sign, size) == a.cell;
    assert r[a.cell].stickers == RotateStickers(l[from].stickers, axis, sign);
    assert MoveLoc(a, axis, slice, sign.Flip(), size) == Loc(from, RotateDir(a.dir, axis, sign.Flip()));
    RotateStickersAt(l[from].stickers, r[a.cell].stickers, axis, sign, a.dir);
  }

  lemma RotateStickersAt(st: map<Dir, Sticker>, r: map<Dir, Sticker>, axis: Axis, sign: Sign, d: Dir)
    requires r == RotateStickers(st, axis, sign)
    ensures (d in r) == (RotateDir(d, axis, sign.Flip()) in st)
    ensures d in r ==> r[d] == st[RotateDir(d, axis, sign.Flip())]
  {
  }

  /** A turn changes neither the set of cells nor any cubie's self-location. */
  lemma RotateKeepsCells(l: Lattice, size: nat, axis: Axis, slice: int, sign: Sign)
    requires l.Keys == AllCells(size)
    requires forall c | c in l :: l[c].at == c
    ensures RotateSliceCubies(l, size, axis, slice, sign).Keys == AllCells(size)
    ensures forall c | c in RotateSliceCubies(l, size, axis, slice, sign) :: RotateSliceCubies(l, size, axis, slice, sign)[c].at == c
  {
    var r := RotateSliceCubies(l, size, axis, slice, sign);
    var m := Moves(l, size, axis, slice, sign);
    assert r == l + m;
    UnionKeepsCells(l, m, size);
  }

  lemma UnionKeepsCells(l: Lattice, m: map<Coord, Cubie>, size: nat)
    requires l.Keys == AllCells(size)
    requires forall c | c in l :: l[c].at == c
    requires forall c | c in m :: InRange(c, size) && m[c].at == c
    ensures (l + m).Keys == AllCells(size)
    ensures forall c | c in l + m :: (l + m)[c].at == c
  {
  }

  /** Two lattices agreeing on cells, self-locations and every slot are equal. */
  lemma LatticeExt(l: Lattice, l': Lattice)
    requires l.Keys == l'.Keys
    requires forall c | c in l :: l[c].at == l'[c].at
    requires forall a :: StickerAt(l, a) == StickerAt(l', a)
    ensures l == l'
  {
    forall c | c in l ensures l[c] == l'[c] {
      var m := l[c].stickers;
      var m' := l'[c].stickers;
      forall d ensures (d in m <==> d in m') && (d in m ==> m[d] == m'[d]) {
        assert StickerAt(l, Loc(c, d)) == StickerAt(l', Loc(c, d));
      }
      assert m == m';
    }
  }

  /** Turning a slice and turning it back restores the lattice. */
  lemma RotateRoundTrip(l: Lattice, size: nat, axis: Axis, slice: int, sign: Sign)
    requires l.Keys == AllCells(size)
    requires forall c | c in l :: l[c].at == c
    ensures RotateSliceCubies(RotateSliceCubies(l, size, axis, slice, sign), size, axis, slice, sign.Flip()) == l
  {
    var l1 := RotateSliceCubies(l, size, axis, slice, sign);
    var l2 := RotateSliceCubies(l1, size, axis, slice, sign.Flip());
    RotateKeepsCells(l, size, axis, slice, sign);
    RotateKeepsCells(l1, size, axis, slice, sign.Flip());
    forall a ensures StickerAt(l2, a) == StickerAt(l, a) {
      RotateTransport(l1, size, axis, slice, sign.Flip(), a);
      var b := MoveLoc(a, axis, slice, sign.Flip().Flip(), size);
      RotateTransport(l, size, axis, slice, sign, b);
      assert sign.Flip().Flip() == sign;
      MoveLocRoundTrip(a, axis, slice, sign, size);
    }
    LatticeExt(l2, l);
  }

  /** A turn moves every sticker record, unchanged, to the slot its own slot moves to. */
  lemma RotationPreservesStickers(l: Lattice, size: int, axis: Axis, slice: int, sign: Sign, a: Loc)
    requires forall c | InRange(c, size) :: c in l
    ensures StickerAt(RotateSliceCubies(l, size, axis, slice, sign), MoveLoc(a, axis, slice, sign, size)) == StickerAt(l, a)
  {
    RotateTransport(l, size, axis, slice, sign, MoveLoc(a, axis, slice, sign, size));
    MoveLocRoundTrip(a, axis, slice, sign, size);
  }

  /** A turn keeps the lattice coherent: stickers stay on the exterior and the
      grid ids stay distinct and complete. */
  lemma RotatePreservesCoherent(l: Lattice, size: nat, axis: Axis, slice: int, sign: Sign)
    requires Coherent(l, size)
    ensures Coherent(RotateSliceCubies(l, size, axis, slice, sign), size)
  {
    var r := RotateSliceCubies(l, size, axis, slice, sign);
    var back := sign.Flip();
    RotateKeepsCells(l, size, axis, slice, sign);
    forall a ensures HasSticker(r, a) <==> Exterior(a, size) {
      RotateTransport(l, size, axis, slice, sign, a);
      MoveLocExterior(a, axis, slice, back, size);
    }
    forall a, b | HasSticker(r, a) && HasSticker(r, b) && IdAt(r, a, size) == IdAt(r, b, size)
      ensures a == b
    {
      RotateTransport(l, size, axis, slice, sign, a);
      RotateTransport(l, size, axis, slice, sign, b);
      var a0 := MoveLoc(a, axis, slice, back, size);
      var b0 := MoveLoc(b, axis, slice, back, size);
      assert IdAt(l, a0, size) == IdAt(l, b0, size);
      assert back.Flip() == sign;
      MoveLocRoundTrip(a, axis, slice, back, size);
      MoveLocRoundTrip(b, axis, slice, back, size);
    }
    RotateKeepsIds(l, size, axis, slice, sign);
  }

  /** A turn keeps the set of grid ids the lattice carries. */
  lemma RotateKeepsIds(l: Lattice, size: nat, axis: Axis, slice: int, sign: Sign)
    requires l.Keys == AllCells(size)
    ensures IdSet(RotateSliceCubies(l, size, axis, slice, sign), size) == IdSet(l, size)
  {
    var r := RotateSliceCubies(l, size, axis, slice, sign);
    var back := sign.Flip();
    ScanMembers(l, size);
    ScanMembers(r, size);
    forall g | g in IdSet(r, size) ensures g in IdSet(l, size) {
      var a :| a in Scan(r, size) && HasSticker(r, a) && IdAt(r, a, size) == g;
      RotateTransport(l, size, axis, slice, sign, a);
      var a0 := MoveLoc(a, axis, slice, back, size);
      RotCellFacts(a.cell, axis, slice, back, size);
      assert a0 in Scan(l, size);
    }
    forall g | g in IdSet(l, size) ensures g in IdSet(r, size) {
      var a :| a in Scan(l, size) && HasSticker(l, a) && IdAt(l, a, size) == g;
      RotationPreservesStickers(l, size, axis, slice, sign, a);
      var a1 := MoveLoc(a, axis, slice, sign, size);
      RotCellFacts(a.cell, axis, slice, sign, size);
      assert a1 in Scan(r, size);
    }
  }

  // ---------------------------------------------------------------------
  // Sequences of turns: shuffle

  datatype Move = Move(axis: Axis, slice: int, sign: Sign)

  function RotateAll(l: Lattice, size: nat, moves: seq<Move>): Lattice
    decreases |moves|
  {
    if moves == [] then l
    else RotateAll(RotateSliceCubies(l, size, moves[0].axis, moves[0].slice, moves[0].sign), size, moves[1..])
  }

  lemma {:induction false} RotateAllCoherent(l: Lattice, size: nat, moves: seq<Move>)
    requires Coherent(l, size)
    ensures Coherent(RotateAll(l, size, moves), size)
    decreases |moves|
  {
    if moves != [] {
      RotatePreservesCoherent(l, size, moves[0].axis, moves[0].slice, moves[0].sign);
      RotateAllCoherent(RotateSliceCubies(l, size, moves[0].axis, moves[0].slice, moves[0].sign), size, moves[1..]);
    }
  }

  /** shuffle: 25 random turns of a solved cube; the turns are the random source's draws. */
  function Shuffle(size: nat, moves: seq<Move>): (l: Lattice)
    requires |moves| == 25
    requires forall i | 0 <= i < |moves| :: 0 <= moves[i].slice < size
    ensures Coherent(l, size)
    ensures |Scan(l, size)| == 6 * (size * size)
  {
    MakeCubiesCoherent(size);
    RotateAllCoherent(MakeCubies(size), size, moves);
    var l := RotateAll(MakeCubies(size), size, moves);
    StickerCount(l, size);
    l
  }
}
