/**
  One tick of chaos mode. The unstable stickers are the exterior ones that
  have been flipped and show a foreign colour; one of them is the source. The
  source may re-flip itself, and each of its in-bounds north/south/east/west
  neighbours on the same face layer may be flipped too. The random choices
  are parameters: `pick` selects the source, `selfFlip` and `flipNeighbour(i)`
  are the outcomes of the probability draws.
 */
module Chaos {
  import opened Cube
  import opened Seqs
  import opened Lattice
  import opened Manifold

  /** A sticker the chaos scan collects: flipped, off-colour, on its own face. */
  predicate Unstable(l: Lattice, a: Loc, size: int) {
    && HasSticker(l, a)
    && StickerAt(l, a).value.flips > 0
    && StickerAt(l, a).value.curr != StickerAt(l, a).value.orig
    && OnFace(a.cell, a.dir, size)
  }

  function FilterUnstable(l: Lattice, locs: seq<Loc>, size: int): (u: seq<Loc>)
    ensures forall a :: a in u <==> a in locs && Unstable(l, a, size)
    ensures NoDup(locs) ==> NoDup(u)
  {
    if locs == [] then []
    else
      var rest := FilterUnstable(l, locs[1..], size);
      assert forall a | a in locs[1..] :: a in locs;
      assert NoDup(locs) ==> NoDup(locs[1..]) && locs[0] !in locs[1..];
      if Unstable(l, locs[0], size) then [locs[0]] + rest else rest
  }

  /** The unstable stickers in scan order. */
  function UnstableSlots(l: Lattice, size: nat): (u: seq<Loc>)
    ensures forall a :: a in u <==> InRange(a.cell, size) && Unstable(l, a, size)
    ensures NoDup(u)
  {
    ScanMembers(l, size);
    FilterUnstable(l, Scan(l, size), size)
  }

  // ---------------------------------------------------------------------
  // Neighbours on the face layer

  /** The two in-face coordinates of a cell on face d, in the source's order. */
  function InFace(c: Coord, d: Dir): (int, int) {
    match d
    case PX => (c.y, c.z)
    case NX => (c.y, c.z)
    case PY => (c.x, c.z)
    case NY => (c.x, c.z)
    case _ => (c.x, c.y)
  }

  /** The cell of face d's layer with in-face coordinates (a, b). */
  function LayerCell(d: Dir, a: int, b: int, size: int): (c: Coord)
    ensures InFace(c, d) == (a, b) && OnFace(c, d, size)
  {
    match d
    case PX => Coord(size - 1, a, b)
    case NX => Coord(0, a, b)
    case PY => Coord(a, size - 1, b)
    case NY => Coord(a, 0, b)
    case PZ => Coord(a, b, size - 1)
    case NZ => Coord(a, b, 0)
  }

  /** Two in-face positions one step apart along exactly one coordinate. */
  predicate StepApart(p: (int, int), q: (int, int)) {
    (p.0 == q.0 && (p.1 == q.1 - 1 || p.1 == q.1 + 1)) || (p.1 == q.1 && (p.0 == q.0 - 1 || p.0 == q.0 + 1))
  }

  /** The reference notion: n and s differ by one step in exactly one in-face coordinate. */
  predicate FaceAdjacent(n: Coord, s: Coord, d: Dir) {
    StepApart(InFace(n, d), InFace(s, d))
  }

  function AddIfInBounds(d: Dir, a: int, b: int, size: int): (r: seq<Coord>)
    ensures |r| <= 1
    ensures forall n | n in r :: InRange(n, size) && OnFace(n, d, size) && InFace(n, d) == (a, b)
    ensures 0 <= a < size && 0 <= b < size ==> LayerCell(d, a, b, size) in r
  {
    if 0 <= a < size && 0 <= b < size then LayerCellInRange(d, a, b, size); [LayerCell(d, a, b, size)] else []
  }

  /** The neighbour list of the chaos step: north, south, west, east on the source's face layer. */
  function ChaosNeighbours(src: Loc, size: int): (ns: seq<Coord>)
    ensures |ns| <= 4
  {
    AroundPair(src.dir, InFace(src.cell, src.dir), size)
  }

  lemma LayerCellOnly(c: Coord, d: Dir, size: int)
    requires OnFace(c, d, size)
    ensures LayerCell(d, InFace(c, d).0, InFace(c, d).1, size) == c
  {
  }

  /** The neighbours are exactly the in-bounds cells of the source's face layer
      that are one step from the source within the face. */
  lemma ChaosNeighboursExactly(src: Loc, size: int, n: Coord)
    ensures n in ChaosNeighbours(src, size) <==>
      InRange(n, size) && OnFace(n, src.dir, size) && FaceAdjacent(n, src.cell, src.dir)
  {
    if n in ChaosNeighbours(src, size) {
      NeighbourIsAdjacent(src, size, n);
    }
    if InRange(n, size) && OnFace(n, src.dir, size) && FaceAdjacent(n, src.cell, src.dir) {
      AdjacentIsNeighbour(src, size, n);
    }
  }

  lemma NeighbourIsAdjacent(src: Loc, size: int, n: Coord)
    requires n in ChaosNeighbours(src, size)
    ensures InRange(n, size) && OnFace(n, src.dir, size) && FaceAdjacent(n, src.cell, src.dir)
  {
    NeighbourOfPair(src.dir, InFace(src.cell, src.dir), size, n);
  }

  /** The four pieces of the neighbour list around in-face position p. */
  function AroundPair(d: Dir, p: (int, int), size: int): seq<Coord> {
    AddIfInBounds(d, p.0 - 1, p.1, size) + AddIfInBounds(d, p.0 + 1, p.1, size)
      + AddIfInBounds(d, p.0, p.1 - 1, size) + AddIfInBounds(d, p.0, p.1 + 1, size)
  }

  lemma NeighbourOfPair(d: Dir, p: (int, int), size: int, n: Coord)
    requires n in AroundPair(d, p, size)
    ensures InRange(n, size) && OnFace(n, d, size) && StepApart(InFace(n, d), p)
  {
    var s1, s2, s3, s4 := AddIfInBounds(d, p.0 - 1, p.1, size), AddIfInBounds(d, p.0 + 1, p.1, size),
      AddIfInBounds(d, p.0, p.1 - 1, size), AddIfInBounds(d, p.0, p.1 + 1, size);
    InOneOfFour(n, s1, s2, s3, s4);
    var q := InFace(n, d);
    if n in s1 {
      assert q == (p.0 - 1, p.1);
    } else if n in s2 {
      assert q == (p.0 + 1, p.1);
    } else if n in s3 {
      assert q == (p.0, p.1 - 1);
    } else {
      assert q == (p.0, p.1 + 1);
    }
  }

  lemma PairOfNeighbour(d: Dir, p: (int, int), q: (int, int), size: int)
    requires 0 <= q.0 < size && 0 <= q.1 < size && StepApart(q, p)
    ensures LayerCell(d, q.0, q.1, size) in AroundPair(d, p, size)
  {
    var s1, s2, s3, s4 := AddIfInBounds(d, p.0 - 1, p.1, size), AddIfInBounds(d, p.0 + 1, p.1, size),
      AddIfInBounds(d, p.0, p.1 - 1, size), AddIfInBounds(d, p.0, p.1 + 1, size);
    var n := LayerCell(d, q.0, q.1, size);
    if q == (p.0 - 1, p.1) {
      assert n in s1;
    } else if q == (p.0 + 1, p.1) {
      assert n in s2;
    } else if q == (p.0, p.1 - 1) {
      assert n in s3;
    } else {
      assert n in s4;
    }
  }

  lemma AdjacentIsNeighbour(src: Loc, size: int, n: Coord)
    requires InRange(n, size) && OnFace(n, src.dir, size) && FaceAdjacent(n, src.cell, src.dir)
    ensures n in ChaosNeighbours(src, size)
  {
    LayerCellOnly(n, src.dir, size);
    InFaceInRange(n, src.dir, size);
    PairOfNeighbour(src.dir, InFace(src.cell, src.dir), InFace(n, src.dir), size);
  }

  lemma InOneOfFour<T>(x: T, s1: seq<T>, s2: seq<T>, s3: seq<T>, s4: seq<T>)
    requires x in s1 + s2 + s3 + s4
    ensures x in s1 || x in s2 || x in s3 || x in s4
  {
    assert s1 + s2 + s3 + s4 == s1 + (s2 + (s3 + s4));
  }

  lemma InFaceInRange(c: Coord, d: Dir, size: int)
    requires InRange(c, size)
    ensures 0 <= InFace(c, d).0 < size && 0 <= InFace(c, d).1 < size
  {
  }

  lemma LayerCellInRange(d: Dir, p: int, q: int, size: int)
    requires 0 <= p < size && 0 <= q < size
    ensures InRange(LayerCell(d, p, q, size), size)
  {
  }

  // ---------------------------------------------------------------------
  // The step

  /** Flips, in order, each neighbour whose draw came out true, on the source's key. */
  function FlipNeighbours(l: Lattice, size: nat, ns: seq<Coord>, d: Dir, m: ManifoldMap,
                          flipNeighbour: nat -> bool, i: nat): (r: Lattice)
    ensures SameIdentity(l, r)
    ensures FlipsGrow(l, r)
    decreases |ns|
  {
    if ns == [] then SameIdentityRefl(l); l
    else
      var l1 := if flipNeighbour(i) then FlipStickerPair(l, size, Loc(ns[0], d), m) else l;
      FlipKeepsIdentity(l, size, Loc(ns[0], d), m);
      FlipNeverLowersFlips(l, size, Loc(ns[0], d), m);
      SameIdentityRefl(l);
      var r := FlipNeighbours(l1, size, ns[1..], d, m, flipNeighbour, i + 1);
      SameIdentityTrans(l, l1, r);
      FlipsGrowTrans(l, l1, r);
      r
  }

  /**
    The chaos step. `pick` stands for the random index into the unstable list
    (any natural; it is read modulo the list's length), `selfFlip` for the
    draw against pSelf and `flipNeighbour(i)` for the draw on the i-th
    neighbour. `m` is the manifold map the step closes over.
   */
  function ChaosStep(l: Lattice, size: nat, m: ManifoldMap, pick: nat, selfFlip: bool,
                     flipNeighbour: nat -> bool): (r: Lattice)
    ensures UnstableSlots(l, size) == [] ==> r == l
    ensures SameIdentity(l, r)
    ensures FlipsGrow(l, r)
  {
    var u := UnstableSlots(l, size);
    if u == [] then SameIdentityRefl(l); l
    else
      var src := u[pick % |u|];
      var l1 := if selfFlip then FlipStickerPair(l, size, src, m) else l;
      FlipKeepsIdentity(l, size, src, m);
      FlipNeverLowersFlips(l, size, src, m);
      SameIdentityRefl(l);
      var r := FlipNeighbours(l1, size, ChaosNeighbours(src, size), src.dir, m, flipNeighbour, 0);
      SameIdentityTrans(l, l1, r);
      FlipsGrowTrans(l, l1, r);
      r
  }

  lemma SameIdentityRefl(l: Lattice)
    ensures SameIdentity(l, l)
  {
  }

  lemma SameIdentityTrans(l: Lattice, l1: Lattice, l2: Lattice)
    requires SameIdentity(l, l1) && SameIdentity(l1, l2)
    ensures SameIdentity(l, l2)
  {
    forall a | HasSticker(l, a)
      ensures StickerAt(l2, a).value.orig == StickerAt(l, a).value.orig
    {
      assert HasSticker(l1, a);
    }
  }

  /** A chaos tick keeps the cube coherent, and the manifold map the tick
      closed over still locates every sticker afterwards. */
  lemma ChaosKeepsMap(l: Lattice, size: nat, pick: nat, selfFlip: bool, flipNeighbour: nat -> bool)
    requires Coherent(l, size)
    ensures var m := BuildManifoldGridMap(l, size);
      var r := ChaosStep(l, size, m, pick, selfFlip, flipNeighbour);
      Coherent(r, size) && BuildManifoldGridMap(r, size) == m
  {
    var m := BuildManifoldGridMap(l, size);
    var r := ChaosStep(l, size, m, pick, selfFlip, flipNeighbour);
    SameIdentityCoherent(l, r, size);
    SameIdentityMap(l, r, size);
  }
}
