/**
  The grid indexer: every exterior sticker gets a face-agnostic (row, col)
  from its creation-time position and face, and from that a manifold grid id
  (home colour, row*size + col + 1). Two stickers are antipodal partners when
  their home colours are opposite and their indices agree.
 */
module Grid {
  import opened Cube

  /** A row/column position in a face's head-on view. */
  datatype RC = RC(r: int, c: int)

  /** A manifold grid id: home colour and 1-based cell index on that face. */
  datatype GridId = GridId(colour: int, index: int)

  /** The head-on (row, col) of a cell on face `d`. */
  function GridRC(p: Coord, d: Dir, size: int): RC {
    match d
    case PZ => RC(size - 1 - p.y, p.x)
    case NZ => RC(size - 1 - p.y, size - 1 - p.x)
    case PX => RC(size - 1 - p.y, size - 1 - p.z)
    case NX => RC(size - 1 - p.y, p.z)
    case PY => RC(p.z, p.x)
    case NY => RC(size - 1 - p.z, p.x)
  }

  /** The cell of face `d` that shows at head-on position `rc` (inverse of GridRC). */
  function FaceCell(d: Dir, rc: RC, size: int): Coord {
    match d
    case PZ => Coord(rc.c, size - 1 - rc.r, size - 1)
    case NZ => Coord(size - 1 - rc.c, size - 1 - rc.r, 0)
    case PX => Coord(size - 1, size - 1 - rc.r, size - 1 - rc.c)
    case NX => Coord(0, size - 1 - rc.r, rc.c)
    case PY => Coord(rc.c, size - 1, rc.r)
    case NY => Coord(rc.c, 0, size - 1 - rc.r)
  }

  predicate RCInRange(rc: RC, size: int) {
    0 <= rc.r < size && 0 <= rc.c < size
  }

  function GridIndex(rc: RC, size: int): int {
    rc.r * size + rc.c + 1
  }

  /** Splits a 1-based index back into (row, col). */
  function IndexRC(idx: int, size: int): RC
    requires size > 0
  {
    RC((idx - 1) / size, (idx - 1) % size)
  }

  function GridIdOf(colour: int, p: Coord, d: Dir, size: int): GridId {
    GridId(colour, GridIndex(GridRC(p, d, size), size))
  }

  /** The grid id a sticker's antipodal partner carries. */
  function AntipodalGridId(g: GridId): GridId
    requires 1 <= g.colour <= 6
  {
    GridId(Antipodal(g.colour), g.index)
  }

  /** Every grid id that a size^3 cube should carry. */
  function AllIds(size: int): (s: set<GridId>)
    ensures forall g :: g in s <==> 1 <= g.colour <= 6 && 1 <= g.index <= size * size
  {
    set colour: int, i: int | 1 <= colour <= 6 && 1 <= i <= size * size :: GridId(colour, i)
  }

  // ---------------------------------------------------------------------
  // Grid indexing is a bijection between a face's cells and its index range

  /** GridRC maps a face's cells into the size x size view and FaceCell undoes it. */
  lemma GridRCOnFace(p: Coord, d: Dir, size: int)
    requires InRange(p, size) && OnFace(p, d, size)
    ensures RCInRange(GridRC(p, d, size), size)
    ensures FaceCell(d, GridRC(p, d, size), size) == p
  {
  }

  /** Every head-on position is shown by exactly one cell of the face. */
  lemma FaceCellOnFace(d: Dir, rc: RC, size: int)
    requires RCInRange(rc, size)
    ensures InRange(FaceCell(d, rc, size), size) && OnFace(FaceCell(d, rc, size), d, size)
    ensures GridRC(FaceCell(d, rc, size), d, size) == rc
  {
  }

  /** Two cells of one face with the same (row, col) are the same cell. */
  lemma GridRCInjective(p: Coord, q: Coord, d: Dir, size: int)
    requires InRange(p, size) && OnFace(p, d, size)
    requires InRange(q, size) && OnFace(q, d, size)
    requires GridRC(p, d, size) == GridRC(q, d, size)
    ensures p == q
  {
    GridRCOnFace(p, d, size);
    GridRCOnFace(q, d, size);
  }

  /** Indices of in-range positions lie in [1, size^2] and split back exactly. */
  lemma {:induction false} GridIndexRange(rc: RC, size: int)
    requires RCInRange(rc, size)
    ensures 1 <= GridIndex(rc, size) <= size * size
    ensures IndexRC(GridIndex(rc, size), size) == rc
  {
    var i := rc.r * size + rc.c;
    assert rc.r * size <= (size - 1) * size by {
      MulMono(rc.r, size - 1, size);
    }
    assert (size - 1) * size == size * size - size;
    DivModUnique(i, size, rc.r, rc.c);
  }

  /** Every index in [1, size^2] is the index of one in-range position. */
  lemma {:induction false} IndexRCRange(idx: int, size: int)
    requires size > 0 && 1 <= idx <= size * size
    ensures RCInRange(IndexRC(idx, size), size)
    ensures GridIndex(IndexRC(idx, size), size) == idx
  {
    var q := (idx - 1) / size;
    if q >= size {
      MulMono(size, q, size);
      assert false;
    }
  }

  lemma {:induction false} MulMono(a: int, b: int, n: int)
    requires 0 <= a <= b && 0 <= n
    ensures a * n <= b * n
  {
    var k := b - a;
    assert b * n == a * n + k * n;
  }

  lemma {:induction false} DivModUnique(i: int, n: int, q: int, r: int)
    requires n > 0 && 0 <= r < n && i == q * n + r
    ensures i / n == q && i % n == r
  {
    var q2 := i / n;
    var r2 := i % n;
    assert i == q2 * n + r2;
    if q2 > q {
      MulMono(q + 1, q2, n);
      assert false;
    } else if q2 < q {
      MulMono(q2 + 1, q, n);
      assert false;
    }
  }

  /** Two cells, each on its own face, share a grid id only if they are the same slot. */
  lemma GridIdInjective(p: Coord, d: Dir, q: Coord, e: Dir, size: int)
    requires InRange(p, size) && OnFace(p, d, size)
    requires InRange(q, size) && OnFace(q, e, size)
    requires GridIdOf(FaceColor(d), p, d, size) == GridIdOf(FaceColor(e), q, e, size)
    ensures p == q && d == e
  {
    FaceColorInjective(d, e);
    GridRCOnFace(p, d, size);
    GridRCOnFace(q, e, size);
    GridIndexRange(GridRC(p, d, size), size);
    GridIndexRange(GridRC(q, e, size), size);
    GridRCInjective(p, q, d, size);
  }

  /** The home slot that carries grid id g. */
  function SlotOf(g: GridId, size: int): Loc
    requires size > 0 && g in AllIds(size)
  {
    var d := match g.colour
      case 5 => PX
      case 2 => NX
      case 3 => PY
      case 6 => NY
      case 1 => PZ
      case _ => NZ;
    Loc(FaceCell(d, IndexRC(g.index, size), size), d)
  }

  /** Every grid id of the cube belongs to exactly the exterior slot SlotOf names. */
  lemma SlotOfSound(g: GridId, size: int)
    requires size > 0 && g in AllIds(size)
    ensures Exterior(SlotOf(g, size), size)
    ensures GridIdOf(FaceColor(SlotOf(g, size).dir), SlotOf(g, size).cell, SlotOf(g, size).dir, size) == g
  {
    var a := SlotOf(g, size);
    IndexRCRange(g.index, size);
    FaceCellOnFace(a.dir, IndexRC(g.index, size), size);
  }

  /** There are exactly 6 * size^2 grid ids. */
  lemma AllIdsCard(size: nat)
    ensures |AllIds(size)| == 6 * (size * size)
  {
    IdsUpToCard(size * size);
    assert AllIds(size) == IdsUpTo(size * size);
  }

  function IdsUpTo(m: nat): (s: set<GridId>)
    ensures forall g :: g in s <==> 1 <= g.colour <= 6 && 1 <= g.index <= m
  {
    set colour: int, i: int | 1 <= colour <= 6 && 1 <= i <= m :: GridId(colour, i)
  }

  lemma {:induction false} IdsUpToCard(m: nat)
    ensures |IdsUpTo(m)| == 6 * m
  {
    if m == 0 {
      assert IdsUpTo(0) == {};
    } else {
      IdsUpToCard(m - 1);
      IdsUpToSplit(m);
      LayerCard(m);
    }
  }

  lemma IdsUpToSplit(m: nat)
    requires m > 0
    ensures IdsUpTo(m) == IdsUpTo(m - 1) + Layer(m)
    ensures IdsUpTo(m - 1) !! Layer(m)
  {
    forall g ensures g in IdsUpTo(m) <==> g in IdsUpTo(m - 1) + Layer(m) {
      if g in IdsUpTo(m) && g !in IdsUpTo(m - 1) {
        assert g.index == m;
      }
    }
  }

  function Layer(m: int): set<GridId> {
    {GridId(1, m), GridId(2, m), GridId(3, m), GridId(4, m), GridId(5, m), GridId(6, m)}
  }

  lemma LayerCard(m: int)
    ensures |Layer(m)| == 6
  {
    var s1 := {GridId(1, m)};
    var s2 := s1 + {GridId(2, m)};
    var s3 := s2 + {GridId(3, m)};
    var s4 := s3 + {GridId(4, m)};
    var s5 := s4 + {GridId(5, m)};
    var s6 := s5 + {GridId(6, m)};
    assert |s2| == 2;
    assert |s3| == 3;
    assert |s4| == 4;
    assert |s5| == 5;
    assert |s6| == 6;
    assert s6 == Layer(m);
  }
}
