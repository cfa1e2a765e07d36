/**
  Basic vocabulary of the antipodal cube: the six face directions, lattice
  coordinates, face colours and their antipodal pairing, and the exterior
  faces of an N x N x N lattice.
 */
module Cube {

  /** The six outward face directions (the source's direction keys). */
  datatype Dir = PX | NX | PY | NY | PZ | NZ

  /** A lattice cell, or an integer 3-vector. */
  datatype Coord = Coord(x: int, y: int, z: int)

  /** A sticker location: a cell and the direction key of one of its faces. */
  datatype Loc = Loc(cell: Coord, dir: Dir)

  /** Slice axes: `col` fixes x, `row` fixes y, `depth` fixes z. */
  datatype Axis = Col | Row | Depth

  /** The quarter-turn direction of a slice twist, +1 or -1. */
  datatype Sign = Plus | Minus {
    function Value(): int {
      if Plus? then 1 else -1
    }
    function Flip(): Sign {
      if Plus? then Minus else Plus
    }
  }

  /** A face colour 1..6. */
  type Color = c: int | 1 <= c <= 6 witness 1

  const AllDirs: set<Dir> := {PX, NX, PY, NY, PZ, NZ}

  /** The order in which a fresh cubie receives its stickers. */
  const DirOrder: seq<Dir> := [PX, NX, PY, NY, PZ, NZ]

  /** The colour a face has when the cube is solved. */
  function FaceColor(d: Dir): Color {
    match d
    case PX => 5
    case NX => 2
    case PY => 3
    case NY => 6
    case PZ => 1
    case NZ => 4
  }

  /** The opposite-colour table: pairs (1,4), (2,5), (3,6). */
  function Antipodal(c: Color): Color {
    match c
    case 1 => 4
    case 4 => 1
    case 2 => 5
    case 5 => 2
    case 3 => 6
    case 6 => 3
  }

  function Opposite(d: Dir): Dir {
    match d
    case PX => NX
    case NX => PX
    case PY => NY
    case NY => PY
    case PZ => NZ
    case NZ => PZ
  }

  /** The unit normal of a face. */
  function DirToVec(d: Dir): Coord {
    match d
    case PX => Coord(1, 0, 0)
    case NX => Coord(-1, 0, 0)
    case PY => Coord(0, 1, 0)
    case NY => Coord(0, -1, 0)
    case PZ => Coord(0, 0, 1)
    case NZ => Coord(0, 0, -1)
  }

  /** Reads a unit vector back as a direction key; anything else reads as NZ. */
  function VecToDir(v: Coord): Dir {
    if v == Coord(1, 0, 0) then PX
    else if v == Coord(-1, 0, 0) then NX
    else if v == Coord(0, 1, 0) then PY
    else if v == Coord(0, -1, 0) then NY
    else if v == Coord(0, 0, 1) then PZ
    else NZ
  }

  predicate IsUnitAxis(v: Coord) {
    v in {Coord(1, 0, 0), Coord(-1, 0, 0), Coord(0, 1, 0), Coord(0, -1, 0), Coord(0, 0, 1), Coord(0, 0, -1)}
  }

  function Add(a: Coord, b: Coord): Coord {
    Coord(a.x + b.x, a.y + b.y, a.z + b.z)
  }

  function Neg(a: Coord): Coord {
    Coord(-a.x, -a.y, -a.z)
  }

  function Dot(a: Coord, b: Coord): int {
    a.x * b.x + a.y * b.y + a.z * b.z
  }

  predicate InRange(c: Coord, size: int) {
    0 <= c.x < size && 0 <= c.y < size && 0 <= c.z < size
  }

  /** Every cell of the size^3 lattice. */
  function AllCells(size: nat): (s: set<Coord>)
    ensures forall c :: c in s <==> InRange(c, size)
  {
    set x: int, y: int, z: int | 0 <= x < size && 0 <= y < size && 0 <= z < size :: Coord(x, y, z)
  }

  /** A cell lies on the exterior face `d`: its coordinate on d's axis is 0 or size-1. */
  predicate OnFace(c: Coord, d: Dir, size: int) {
    match d
    case PX => c.x == size - 1
    case NX => c.x == 0
    case PY => c.y == size - 1
    case NY => c.y == 0
    case PZ => c.z == size - 1
    case NZ => c.z == 0
  }

  /** An exterior sticker slot of the lattice. */
  predicate Exterior(a: Loc, size: int) {
    InRange(a.cell, size) && OnFace(a.cell, a.dir, size)
  }

  /** Twice the offset of a coordinate from the cube centre (size-1)/2. */
  function Centre(v: int, size: int): int {
    2 * v - (size - 1)
  }

  function Uncentre(d: int, size: int): int {
    (d + (size - 1)) / 2
  }

  function CentreCell(c: Coord, size: int): Coord {
    Coord(Centre(c.x, size), Centre(c.y, size), Centre(c.z, size))
  }

  function UncentreCell(c: Coord, size: int): Coord {
    Coord(Uncentre(c.x, size), Uncentre(c.y, size), Uncentre(c.z, size))
  }

  /** A centred coordinate that names a lattice position: same parity as size-1. */
  predicate Aligned(c: Coord, size: int) {
    (c.x + (size - 1)) % 2 == 0 && (c.y + (size - 1)) % 2 == 0 && (c.z + (size - 1)) % 2 == 0
  }

  // ---------------------------------------------------------------------
  // Facts

  /** The colour pairing is an involution with no fixed point, and it is the
      face pairing seen through the solved colours. */
  lemma AntipodalInvolution(c: Color)
    ensures Antipodal(Antipodal(c)) == c
    ensures Antipodal(c) != c
    ensures forall d :: FaceColor(d) == c ==> FaceColor(Opposite(d)) == Antipodal(c)
  {
  }

  lemma FaceColorInjective(d1: Dir, d2: Dir)
    ensures FaceColor(d1) == FaceColor(d2) <==> d1 == d2
  {
  }

  /** The direction/vector tables are mutually inverse on the six keys. */
  lemma DirVecRoundTrip(d: Dir)
    ensures IsUnitAxis(DirToVec(d))
    ensures VecToDir(DirToVec(d)) == d
    ensures DirToVec(Opposite(d)) == Neg(DirToVec(d))
  {
  }

  lemma VecDirRoundTrip(v: Coord)
    requires IsUnitAxis(v)
    ensures DirToVec(VecToDir(v)) == v
  {
  }

  lemma CentreRoundTrip(c: Coord, size: int)
    ensures UncentreCell(CentreCell(c, size), size) == c
    ensures Aligned(CentreCell(c, size), size)
  {
  }

  lemma UncentreRoundTrip(c: Coord, size: int)
    requires Aligned(c, size)
    ensures CentreCell(UncentreCell(c, size), size) == c
  {
  }

  /** In centred coordinates a cell is in range iff every component lies in [-(size-1), size-1]. */
  lemma InRangeCentred(c: Coord, size: int)
    ensures InRange(c, size) <==>
      var d := CentreCell(c, size);
      -(size - 1) <= d.x <= size - 1 && -(size - 1) <= d.y <= size - 1 && -(size - 1) <= d.z <= size - 1
  {
  }

  /** A cell is on face d iff its centred position projects onto d's normal at size-1. */
  lemma OnFaceCentred(c: Coord, d: Dir, size: int)
    ensures OnFace(c, d, size) <==> Dot(CentreCell(c, size), DirToVec(d)) == size - 1
  {
  }
}
