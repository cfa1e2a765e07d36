/**
  Moving the worm over the cube's surface: each face's local up/down/left/right
  axes, the heading remap when the worm crosses onto another face, the
  one-step surface move and the left/right turn.
 */
module Navigator {
  import opened Cube
  import opened Seqs

  /** The worm's heading in the face's own frame. */
  datatype MoveDir = Up | Down | Left | Right

  /** A steering input; anything other than left or right is ignored. */
  datatype Turn = TurnLeft | TurnRight | OtherTurn

  /** The grid step taken by heading `md` on face `d`. */
  function FaceDelta(d: Dir, md: MoveDir): Coord {
    match d
    case PZ => (match md case Up => Coord(0, 1, 0) case Down => Coord(0, -1, 0)
                         case Left => Coord(-1, 0, 0) case Right => Coord(1, 0, 0))
    case NZ => (match md case Up => Coord(0, 1, 0) case Down => Coord(0, -1, 0)
                         case Left => Coord(1, 0, 0) case Right => Coord(-1, 0, 0))
    case PX => (match md case Up => Coord(0, 1, 0) case Down => Coord(0, -1, 0)
                         case Left => Coord(0, 0, 1) case Right => Coord(0, 0, -1))
    case NX => (match md case Up => Coord(0, 1, 0) case Down => Coord(0, -1, 0)
                         case Left => Coord(0, 0, -1) case Right => Coord(0, 0, 1))
    case PY => (match md case Up => Coord(0, 0, -1) case Down => Coord(0, 0, 1)
                         case Left => Coord(-1, 0, 0) case Right => Coord(1, 0, 0))
    case NY => (match md case Up => Coord(0, 0, 1) case Down => Coord(0, 0, -1)
                         case Left => Coord(-1, 0, 0) case Right => Coord(1, 0, 0))
  }

  /** Every step is one unit along an axis and lies in the face's plane. */
  lemma FaceDeltaUnit(d: Dir, md: MoveDir)
    ensures Dot(FaceDelta(d, md), FaceDelta(d, md)) == 1
    ensures Dot(FaceDelta(d, md), DirToVec(d)) == 0
  {
    match d
    case PZ =>
    case NZ =>
    case PX =>
    case NX =>
    case PY =>
    case NY =>
  }

  /** Up and down are opposite steps. */
  lemma UpDownOpposite(d: Dir)
    ensures FaceDelta(d, Down) == Neg(FaceDelta(d, Up))
  {
    match d
    case PZ =>
    case NZ =>
    case PX =>
    case NX =>
    case PY =>
    case NY =>
  }

  /** Left and right are opposite steps. */
  lemma LeftRightOpposite(d: Dir)
    ensures FaceDelta(d, Right) == Neg(FaceDelta(d, Left))
  {
    match d
    case PZ =>
    case NZ =>
    case PX =>
    case NX =>
    case PY =>
    case NY =>
  }

  /** The four headings of a face take four different steps. */
  lemma FaceDeltaInjective(d: Dir, m1: MoveDir, m2: MoveDir)
    ensures FaceDelta(d, m1) == FaceDelta(d, m2) ==> m1 == m2
  {
    match d
    case PZ =>
    case NZ =>
    case PX =>
    case NX =>
    case PY =>
    case NY =>
  }

  // ---------------------------------------------------------------------
  // Turning

  /** Position of a heading in the clockwise cycle up, right, down, left. */
  function CycleIndex(md: MoveDir): (i: nat)
    ensures i < 4
  {
    match md
    case Up => 0
    case Right => 1
    case Down => 2
    case Left => 3
  }

  function CycleAt(i: nat): (md: MoveDir)
    requires i < 4
    ensures CycleIndex(md) == i
  {
    if i == 0 then Up else if i == 1 then Right else if i == 2 then Down else Left
  }

  /** turnWorm: a right turn steps one place along the cycle, a left turn three. */
  function TurnWorm(md: MoveDir, t: Turn): (r: MoveDir)
    ensures t == TurnRight ==> CycleIndex(r) == (CycleIndex(md) + 1) % 4
    ensures t == TurnLeft ==> (CycleIndex(r) + 1) % 4 == CycleIndex(md)
    ensures t == OtherTurn ==> r == md
  {
    match t
    case TurnRight => CycleAt((CycleIndex(md) + 1) % 4)
    case TurnLeft => CycleAt((CycleIndex(md) + 3) % 4)
    case OtherTurn => md
  }

  lemma CycleIndexInjective(m1: MoveDir, m2: MoveDir)
    ensures CycleIndex(m1) == CycleIndex(m2) ==> m1 == m2
  {
  }

  /** A right turn undoes a left turn and the other way round. */
  lemma TurnsCancel(md: MoveDir)
    ensures TurnWorm(TurnWorm(md, TurnRight), TurnLeft) == md
    ensures TurnWorm(TurnWorm(md, TurnLeft), TurnRight) == md
  {
    CycleIndexInjective(TurnWorm(TurnWorm(md, TurnRight), TurnLeft), md);
    CycleIndexInjective(TurnWorm(TurnWorm(md, TurnLeft), TurnRight), md);
  }

  /** Four right turns bring the worm back to its heading. */
  lemma FourRightsIdentity(md: MoveDir)
    ensures TurnWorm(TurnWorm(TurnWorm(TurnWorm(md, TurnRight), TurnRight), TurnRight), TurnRight) == md
  {
    CycleIndexInjective(TurnWorm(TurnWorm(TurnWorm(TurnWorm(md, TurnRight), TurnRight), TurnRight), TurnRight), md);
  }

  /** Every turn is a quarter turn on the face: the new step is perpendicular to the old. */
  lemma TurnIsQuarter(d: Dir, md: MoveDir, t: Turn)
    requires t != OtherTurn
    ensures Dot(FaceDelta(d, TurnWorm(md, t)), FaceDelta(d, md)) == 0
  {
    match md
    case Up => QuarterOn(d, md, TurnWorm(md, t));
    case Down => QuarterOn(d, md, TurnWorm(md, t));
    case Left => QuarterOn(d, md, TurnWorm(md, t));
    case Right => QuarterOn(d, md, TurnWorm(md, t));
  }

  /** Steps of headings on different axes of the cycle are perpendicular. */
  lemma QuarterOn(d: Dir, m1: MoveDir, m2: MoveDir)
    requires CycleIndex(m1) % 2 != CycleIndex(m2) % 2
    ensures Dot(FaceDelta(d, m2), FaceDelta(d, m1)) == 0
  {
    match d
    case PZ =>
    case NZ =>
    case PX =>
    case NX =>
    case PY =>
    case NY =>
  }

  // ---------------------------------------------------------------------
  // Crossing onto another face

  /** A heading remap in the shape of one FACE_TRANSITION_DIR entry. */
  datatype DirMap = DirMap(up: MoveDir, down: MoveDir, left: MoveDir, right: MoveDir) {
    function Apply(md: MoveDir): MoveDir {
      match md
      case Up => up
      case Down => down
      case Left => left
      case Right => right
    }

    predicate IsPermutation() {
      up != down && up != left && up != right && down != left && down != right && left != right
    }
  }

  const Same := DirMap(Up, Down, Left, Right)
  const Reverse := DirMap(Down, Up, Right, Left)
  const SwapUpDown := DirMap(Down, Up, Left, Right)
  const SwapLeftRight := DirMap(Up, Down, Right, Left)

  /** The remap table exactly as the source lists it. */
  function TransitionAsWritten(a: Dir, b: Dir): Option<DirMap> {
    match (a, b)
    case (PZ, PY) => Some(SwapUpDown)
    case (PZ, NY) => Some(Same)
    case (PZ, PX) => Some(Same)
    case (PZ, NX) => Some(Same)
    case (NZ, PY) => Some(SwapLeftRight)
    case (NZ, NY) => Some(Reverse)
    case (NZ, PX) => Some(Same)
    case (NZ, NX) => Some(Same)
    case (PX, PY) => Some(DirMap(Right, Left, Up, Down))
    case (PX, NY) => Some(DirMap(Left, Right, Up, Down))
    case (PX, PZ) => Some(Same)
    case (PX, NZ) => Some(Same)
    case (NX, PY) => Some(DirMap(Left, Right, Down, Up))
    case (NX, NY) => Some(DirMap(Right, Left, Down, Up))
    case (NX, PZ) => Some(Same)
    case (NX, NZ) => Some(Same)
    case (PY, PZ) => Some(Same)
    case (PY, NZ) => Some(Reverse)
    case (PY, PX) => Some(DirMap(Left, Right, Down, Up))
    case (PY, NX) => Some(DirMap(Right, Left, Up, Down))
    case (NY, PZ) => Some(Same)
    case (NY, NZ) => Some(Reverse)
    case (NY, PX) => Some(DirMap(Right, Left, Up, Down))
    case (NY, NX) => Some(DirMap(Left, Right, Down, Up))
    case _ => None
  }

  /** The remap table with the ten entries that send the worm back over the
      seam replaced by the remap that keeps it going. */
  function TransitionCorrected(a: Dir, b: Dir): Option<DirMap> {
    match (a, b)
    case (PZ, PY) => Some(Same)
    case (PZ, NY) => Some(Same)
    case (PZ, PX) => Some(Same)
    case (PZ, NX) => Some(Same)
    case (NZ, PY) => Some(Reverse)
    case (NZ, NY) => Some(Reverse)
    case (NZ, PX) => Some(Same)
    case (NZ, NX) => Some(Same)
    case (PX, PY) => Some(DirMap(Left, Right, Down, Up))
    case (PX, NY) => Some(DirMap(Right, Left, Up, Down))
    case (PX, PZ) => Some(Same)
    case (PX, NZ) => Some(Same)
    case (NX, PY) => Some(DirMap(Right, Left, Up, Down))
    case (NX, NY) => Some(DirMap(Left, Right, Down, Up))
    case (NX, PZ) => Some(Same)
    case (NX, NZ) => Some(Same)
    case (PY, PZ) => Some(Same)
    case (PY, NZ) => Some(Reverse)
    case (PY, PX) => Some(DirMap(Right, Left, Up, Down))
    case (PY, NX) => Some(DirMap(Left, Right, Down, Up))
    case (NY, PZ) => Some(Same)
    case (NY, NZ) => Some(Reverse)
    case (NY, PX) => Some(DirMap(Left, Right, Down, Up))
    case (NY, NX) => Some(DirMap(Right, Left, Up, Down))
    case _ => None
  }

  /**
    Which reading of the worm's two direction tables a move consults: the
    face-transition remap here and the key re-projection after a slice turn
    (see Worm). `AsWritten` is the source's tables as they stand; `Corrected`
    replaces the entries that contradict the geometry.
   */
  datatype Table = AsWritten | Corrected

  function Transition(t: Table, a: Dir, b: Dir): Option<DirMap> {
    match t
    case AsWritten => TransitionAsWritten(a, b)
    case Corrected => TransitionCorrected(a, b)
  }

  /** Two faces that share an edge. */
  predicate Adjacent(a: Dir, b: Dir) {
    a != b && b != Opposite(a)
  }

  /** Both tables have an entry for exactly the 24 ordered pairs of adjacent
      faces, and every entry is a permutation of the four headings. */
  lemma TransitionEntries(t: Table, a: Dir, b: Dir)
    ensures Transition(t, a, b).Some? <==> Adjacent(a, b)
    ensures Transition(t, a, b).Some? ==> Transition(t, a, b).value.IsPermutation()
  {
  }

  /**
    The geometric meaning of a crossing from face a onto face b: fold b's
    plane onto a's across the shared edge. A step towards b (along b's normal)
    becomes a step away from a; a step away from b becomes a step towards a;
    steps along the edge are kept.
   */
  function Fold(a: Dir, b: Dir, v: Coord): Coord {
    if v == DirToVec(b) then Neg(DirToVec(a))
    else if v == Neg(DirToVec(b)) then DirToVec(a)
    else v
  }

  /** Every entry of the corrected table follows the fold. */
  lemma CorrectedFollowsFold(a: Dir, b: Dir, md: MoveDir)
    requires Adjacent(a, b)
    ensures FaceDelta(b, TransitionCorrected(a, b).value.Apply(md)) == Fold(a, b, FaceDelta(a, md))
  {
    match a
    case PZ => FoldFrom(a, b, md);
    case NZ => FoldFrom(a, b, md);
    case PX => FoldFrom(a, b, md);
    case NX => FoldFrom(a, b, md);
    case PY => FoldFrom(a, b, md);
    case NY => FoldFrom(a, b, md);
  }

  lemma FoldFrom(a: Dir, b: Dir, md: MoveDir)
    requires Adjacent(a, b)
    ensures FaceDelta(b, TransitionCorrected(a, b).value.Apply(md)) == Fold(a, b, FaceDelta(a, md))
  {
  }

  /** With the corrected table, a worm that walks over the edge from a onto b
      heads on away from a. */
  lemma CorrectedKeepsGoing(a: Dir, b: Dir, md: MoveDir)
    requires Adjacent(a, b) && FaceDelta(a, md) == DirToVec(b)
    ensures FaceDelta(b, TransitionCorrected(a, b).value.Apply(md)) == Neg(DirToVec(a))
  {
    CorrectedFollowsFold(a, b, md);
  }

  /** The table as written sends a worm that climbs from the front face onto
      the top face straight back towards the front face. */
  lemma AsWrittenTurnsBack()
    ensures FaceDelta(PZ, Up) == DirToVec(PY)
    ensures TransitionAsWritten(PZ, PY).value.Apply(Up) == Down
    ensures FaceDelta(PY, Down) == DirToVec(PZ)
  {
  }

  /** The ten face pairs whose written entry contradicts the geometry. */
  const DifferingPairs: set<(Dir, Dir)> :=
    {(PZ, PY), (NZ, PY), (PX, PY), (PX, NY), (NX, PY), (NX, NY), (PY, PX), (PY, NX), (NY, PX), (NY, NX)}

  /** The tables differ on exactly ten of the 24 entries. */
  lemma TablesDiffer(a: Dir, b: Dir)
    ensures TransitionAsWritten(a, b) != TransitionCorrected(a, b) <==> (a, b) in DifferingPairs
  {
  }

  /** A worm that walks over the edge from a onto b is sent straight back
      towards a by the written table exactly on the ten differing pairs; on
      every other pair it heads on away from a. */
  lemma AsWrittenTurnsBackExactly(a: Dir, b: Dir, md: MoveDir)
    requires Adjacent(a, b) && FaceDelta(a, md) == DirToVec(b)
    ensures FaceDelta(b, TransitionAsWritten(a, b).value.Apply(md)) == DirToVec(a) <==> (a, b) in DifferingPairs
    ensures (a, b) !in DifferingPairs ==> FaceDelta(b, TransitionAsWritten(a, b).value.Apply(md)) == Neg(DirToVec(a))
  {
    if (a, b) !in DifferingPairs {
      TablesDiffer(a, b);
      CorrectedKeepsGoing(a, b, md);
    }
  }

  // ---------------------------------------------------------------------
  // One step over the surface

  /** A surface position with the heading the worm carries there. */
  datatype Heading = Heading(at: Loc, moveDir: MoveDir)

  /** Index of the first neighbour on another face at exactly `target`. */
  function FirstAlong(nbrs: seq<Loc>, d: Dir, target: Coord): (r: Option<nat>)
    ensures r.Some? ==> r.value < |nbrs| && nbrs[r.value].dir != d && nbrs[r.value].cell == target
    ensures r.Some? ==> forall j | 0 <= j < r.value :: !(nbrs[j].dir != d && nbrs[j].cell == target)
    ensures r.None? <==> forall j | 0 <= j < |nbrs| :: !(nbrs[j].dir != d && nbrs[j].cell == target)
  {
    if nbrs == [] then None
    else if nbrs[0].dir != d && nbrs[0].cell == target then Some(0)
    else match FirstAlong(nbrs[1..], d, target)
      case None => None
      case Some(i) => Some(i + 1)
  }

  /** Index of the first neighbour on another face. */
  function FirstOffFace(nbrs: seq<Loc>, d: Dir): (r: Option<nat>)
    ensures r.Some? ==> r.value < |nbrs| && nbrs[r.value].dir != d
    ensures r.Some? ==> forall j | 0 <= j < r.value :: nbrs[j].dir == d
    ensures r.None? <==> forall j | 0 <= j < |nbrs| :: nbrs[j].dir == d
  {
    if nbrs == [] then None
    else if nbrs[0].dir != d then Some(0)
    else match FirstOffFace(nbrs[1..], d)
      case None => None
      case Some(i) => Some(i + 1)
  }

  /** The heading after crossing from face a onto face b. */
  function CrossHeading(t: Table, a: Dir, b: Dir, md: MoveDir): MoveDir {
    match Transition(t, a, b)
    case Some(m) => m.Apply(md)
    case None => md
  }

  /** Crossing onto an adjacent face remaps the heading through the table; a
      pair the table has no entry for (the same or the opposite face) keeps it. */
  lemma CrossHeadingCases(t: Table, a: Dir, b: Dir, md: MoveDir)
    ensures Adjacent(a, b) ==> CrossHeading(t, a, b, md) == Transition(t, a, b).value.Apply(md)
    ensures !Adjacent(a, b) ==> CrossHeading(t, a, b, md) == md
  {
    TransitionEntries(t, a, b);
  }

  /** The step stays on the worm's face. */
  predicate StepsOnFace(pos: Loc, md: MoveDir, size: int) {
    var n := Add(pos.cell, FaceDelta(pos.dir, md));
    InRange(n, size) && OnFace(n, pos.dir, size)
  }

  /**
    getNextSurfacePosition. `nbrs` is the list the surface-neighbour function
    returns for `pos`; it is consulted only when the step leaves the face.
    There the first neighbour on another face exactly one step along the
    heading wins, otherwise the first neighbour on another face at all.
   */
  function NextSurfacePositionWith(t: Table, pos: Loc, md: MoveDir, size: int, nbrs: seq<Loc>): (r: Option<Heading>)
    ensures StepsOnFace(pos, md, size) ==>
      r == Some(Heading(Loc(Add(pos.cell, FaceDelta(pos.dir, md)), pos.dir), md))
    ensures !StepsOnFace(pos, md, size) ==>
      (r.None? <==> forall nb | nb in nbrs :: nb.dir == pos.dir)
    ensures !StepsOnFace(pos, md, size) && r.Some? ==>
      && r.value.at in nbrs
      && r.value.at.dir != pos.dir
      && r.value.moveDir == CrossHeading(t, pos.dir, r.value.at.dir, md)
    ensures !StepsOnFace(pos, md, size) && r.Some?
      && (exists nb | nb in nbrs :: nb.dir != pos.dir && nb.cell == Add(pos.cell, FaceDelta(pos.dir, md)))
      ==> r.value.at.cell == Add(pos.cell, FaceDelta(pos.dir, md))
  {
    var target := Add(pos.cell, FaceDelta(pos.dir, md));
    if StepsOnFace(pos, md, size) then Some(Heading(Loc(target, pos.dir), md))
    else
      var pick :=
        match FirstAlong(nbrs, pos.dir, target)
        case Some(i) => Some(i)
        case None => FirstOffFace(nbrs, pos.dir);
      match pick
      case None => None
      case Some(i) =>
        var nb := nbrs[i];
        Some(Heading(nb, CrossHeading(t, pos.dir, nb.dir, md)))
  }

  /** The surface move the rest of the model uses: the corrected remap table. */
  function NextSurfacePosition(pos: Loc, md: MoveDir, size: int, nbrs: seq<Loc>): (r: Option<Heading>)
    ensures r.Some? && r.value.at.dir != pos.dir ==>
      r.value.at in nbrs && r.value.moveDir == CrossHeading(Corrected, pos.dir, r.value.at.dir, md)
  {
    NextSurfacePositionWith(Corrected, pos, md, size, nbrs)
  }

  /** A step that stays on the face moves to an adjacent exterior slot of that face. */
  lemma SameFaceStep(t: Table, pos: Loc, md: MoveDir, size: int, nbrs: seq<Loc>)
    requires Exterior(pos, size) && StepsOnFace(pos, md, size)
    ensures var r := NextSurfacePositionWith(t, pos, md, size, nbrs);
      && r.Some? && Exterior(r.value.at, size) && r.value.at.dir == pos.dir && r.value.moveDir == md
      && Dot(Add(r.value.at.cell, Neg(pos.cell)), Add(r.value.at.cell, Neg(pos.cell))) == 1
  {
    var n := Add(pos.cell, FaceDelta(pos.dir, md));
    assert NextSurfacePositionWith(t, pos, md, size, nbrs) == Some(Heading(Loc(n, pos.dir), md));
    UnitStep(pos.cell, pos.dir, md);
  }

  lemma UnitStep(p: Coord, d: Dir, md: MoveDir)
    ensures var n := Add(p, FaceDelta(d, md));
      Dot(Add(n, Neg(p)), Add(n, Neg(p))) == 1
  {
    assert Add(Add(p, FaceDelta(d, md)), Neg(p)) == FaceDelta(d, md);
    FaceDeltaUnit(d, md);
  }

  /** When the neighbour function only reports surface slots, every step lands
      on the surface, whichever remap table is consulted. */
  lemma NextStaysOnSurface(t: Table, pos: Loc, md: MoveDir, size: int, nbrs: seq<Loc>)
    requires Exterior(pos, size)
    requires forall nb | nb in nbrs :: Exterior(nb, size)
    ensures var r := NextSurfacePositionWith(t, pos, md, size, nbrs);
      r.Some? ==> Exterior(r.value.at, size)
  {
    if StepsOnFace(pos, md, size) {
      SameFaceStep(t, pos, md, size, nbrs);
    }
  }

  /** A step that stays on the face never consults the neighbour list. */
  lemma SameFaceIgnoresNeighbours(t: Table, pos: Loc, md: MoveDir, size: int, nbrs: seq<Loc>, nbrs': seq<Loc>)
    requires StepsOnFace(pos, md, size)
    ensures NextSurfacePositionWith(t, pos, md, size, nbrs) == NextSurfacePositionWith(t, pos, md, size, nbrs')
  {
  }

  // ---------------------------------------------------------------------
  // The neighbours across an edge

  /** The stickers of cell c, in key order `ds`, on a face other than d. */
  function EdgeStickers(c: Coord, d: Dir, size: int, ds: seq<Dir>): (r: seq<Loc>)
    ensures forall nb | nb in r :: nb.cell == c && nb.dir != d && nb.dir in ds && OnFace(c, nb.dir, size)
    ensures forall e | e in ds && e != d && OnFace(c, e, size) :: Loc(c, e) in r
  {
    if ds == [] then []
    else (if ds[0] != d && OnFace(c, ds[0], size) then [Loc(c, ds[0])] else []) + EdgeStickers(c, d, size, ds[1..])
  }

  /**
    A surface-neighbour function for the edge-crossing branch: the other
    exterior stickers of the worm's own cubie, in key order. These are the
    slots one step over each edge the sticker touches.
   */
  function CrossEdgeNeighbours(pos: Loc, size: int): (r: seq<Loc>)
    ensures forall nb :: nb in r <==> nb.cell == pos.cell && nb.dir != pos.dir && OnFace(pos.cell, nb.dir, size)
  {
    EdgeStickers(pos.cell, pos.dir, size, DirOrder)
  }

  /** A step that leaves an exterior sticker's face walks over the edge onto
      the face its delta points at, which holds a sticker of the same cubie. */
  lemma EdgeStepFace(pos: Loc, md: MoveDir, size: int)
    requires Exterior(pos, size) && !StepsOnFace(pos, md, size)
    ensures DirToVec(VecToDir(FaceDelta(pos.dir, md))) == FaceDelta(pos.dir, md)
    ensures VecToDir(FaceDelta(pos.dir, md)) != pos.dir
    ensures OnFace(pos.cell, VecToDir(FaceDelta(pos.dir, md)), size)
  {
    match md
    case Up => EdgeStepFaceOn(pos.dir, md, pos.cell, size);
    case Down => EdgeStepFaceOn(pos.dir, md, pos.cell, size);
    case Left => EdgeStepFaceOn(pos.dir, md, pos.cell, size);
    case Right => EdgeStepFaceOn(pos.dir, md, pos.cell, size);
  }

  lemma EdgeStepFaceOn(d: Dir, md: MoveDir, c: Coord, size: int)
    requires InRange(c, size) && OnFace(c, d, size)
    requires !InRange(Add(c, FaceDelta(d, md)), size) || !OnFace(Add(c, FaceDelta(d, md)), d, size)
    ensures DirToVec(VecToDir(FaceDelta(d, md))) == FaceDelta(d, md)
    ensures VecToDir(FaceDelta(d, md)) != d
    ensures OnFace(c, VecToDir(FaceDelta(d, md)), size)
  {
    match d
    case PX =>
    case NX =>
    case PY =>
    case NY =>
    case PZ =>
    case NZ =>
  }

  /** With no neighbour function behind it, every edge step is null. */
  lemma NoNeighboursStops(t: Table, pos: Loc, md: MoveDir, size: int)
    requires !StepsOnFace(pos, md, size)
    ensures NextSurfacePositionWith(t, pos, md, size, []) == None
  {
  }

  /**
    With the cubie's own stickers as neighbours, every step over an edge lands
    on the surface, on another face of the same cubie, with the heading the
    table gives. Off the corners that face is the one the step walks onto.
   */
  lemma EdgeCrossingLands(t: Table, pos: Loc, md: MoveDir, size: int)
    requires Exterior(pos, size) && !StepsOnFace(pos, md, size)
    ensures var r := NextSurfacePositionWith(t, pos, md, size, CrossEdgeNeighbours(pos, size));
      && r.Some? && Exterior(r.value.at, size)
      && r.value.at.cell == pos.cell && r.value.at.dir != pos.dir
      && r.value.moveDir == CrossHeading(t, pos.dir, r.value.at.dir, md)
      && (|CrossEdgeNeighbours(pos, size)| == 1 ==> r.value.at.dir == VecToDir(FaceDelta(pos.dir, md)))
  {
    var nbrs := CrossEdgeNeighbours(pos, size);
    var onto := Loc(pos.cell, VecToDir(FaceDelta(pos.dir, md)));
    EdgeStepFace(pos, md, size);
    assert onto in nbrs;
    if |nbrs| == 1 {
      assert nbrs == [nbrs[0]];
    }
  }
}
