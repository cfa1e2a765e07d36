/**
  The worm game as a pure state machine: the per-tick step (move, wormhole
  warp, self-collision, orb pickup, growth), key handling with pause and
  restart, the two-slot rotation queue, and the re-projection of worm and orbs
  after a slice turn.

  Inputs that are not state become parameters: the lattice, whether a turn is
  animating, whether the move interval has elapsed, the surface-neighbour
  list of the head, and the shuffle used to place orbs. The turn and the tick
  also take the `Table` they read the worm's direction tables with:
  `AsWritten` is the game as the source runs it, `Corrected` its partner with
  the two tables repaired.
 */
module WormGame {
  import opened Cube
  import opened Seqs
  import opened Lattice
  import opened Rotation
  import opened Manifold
  import opened Navigator
  import opened Worm

  datatype Phase = Playing | Paused | GameOver | Victory

  datatype Game = Game(
    phase: Phase,
    worm: seq<Loc>,
    moveDir: MoveDir,
    orbs: seq<Loc>,
    score: nat,
    warps: nat,
    orbsEaten: nat,
    pendingGrowth: nat,
    queue: seq<Move>)

  const InitialOrbs: nat := 15
  const WarpBonus: nat := 25
  const GrowthPerOrb: nat := 1
  const QueueLimit: nat := 2

  // ---------------------------------------------------------------------
  // Restart

  /** The shuffle `order` is admissible for the orbs of a fresh game. */
  predicate RestartOrder(l: Lattice, size: nat, order: seq<nat>) {
    IsOrder(order, |ValidPositions(l, size, CreateInitialWorm(size), [])|)
  }

  /** restart (and the initial state): a fresh worm heading up, fresh orbs, all counters zero. */
  function Restart(l: Lattice, size: nat, order: seq<nat>): (g: Game)
    requires RestartOrder(l, size, order)
    ensures g.phase == Playing && g.moveDir == Up && g.queue == []
    ensures g.score == 0 && g.warps == 0 && g.orbsEaten == 0 && g.pendingGrowth == 0
    ensures g.worm == CreateInitialWorm(size)
    ensures |g.orbs| == Min(InitialOrbs, |ValidPositions(l, size, g.worm, [])|)
    ensures forall i | 0 <= i < |g.orbs| :: FreeSlot(l, size, g.orbs[i], g.worm, [])
  {
    var w := CreateInitialWorm(size);
    Game(Playing, w, Up, SpawnOrbs(l, size, InitialOrbs, w, [], order), 0, 0, 0, 0, [])
  }

  // ---------------------------------------------------------------------
  // Keys

  datatype Key = Enter | Space | Escape | KeyP | KeyW | KeyS | KeyA | KeyD | KeyQ | KeyE
               | ArrowLeft | ArrowRight | OtherKey

  /** What a key press asks for: a new state, or a restart. */
  datatype KeyOutcome = Handled(next: Game) | RestartGame

  /** queueRotation: a turn is queued only while fewer than two are waiting. */
  function QueueRotation(q: seq<Move>, m: Move): (r: seq<Move>)
    ensures |q| < QueueLimit ==> r == q + [m]
    ensures |q| >= QueueLimit ==> r == q
    ensures |r| <= QueueLimit || r == q
  {
    if |q| < QueueLimit then q + [m] else q
  }

  /** The keyboard handler. */
  function KeyDown(g: Game, key: Key): (r: KeyOutcome)
    ensures (g.phase == GameOver || g.phase == Victory) ==>
      r == (if key == Enter || key == Space then RestartGame else Handled(g))
    ensures r.RestartGame? ==> g.phase == GameOver || g.phase == Victory
    ensures (key == Space || key == Escape || key == KeyP) && g.phase == Playing ==> r == Handled(g.(phase := Paused))
    ensures (key == Space || key == Escape || key == KeyP) && g.phase == Paused ==> r == Handled(g.(phase := Playing))
    ensures g.phase == Paused ==> r.Handled? && r.next.worm == g.worm && r.next.queue == g.queue && r.next.moveDir == g.moveDir
  {
    if g.phase == GameOver || g.phase == Victory then
      if key == Enter || key == Space then RestartGame else Handled(g)
    else if key == Space || key == Escape || key == KeyP then
      Handled(g.(phase := if g.phase == Playing then Paused else Playing))
    else if g.phase != Playing || g.worm == [] then Handled(g)
    else
      var head := g.worm[0].cell;
      match key
      case KeyW => Handled(g.(queue := QueueRotation(g.queue, Move(Col, head.x, Minus))))
      case KeyS => Handled(g.(queue := QueueRotation(g.queue, Move(Col, head.x, Plus))))
      case KeyA => Handled(g.(queue := QueueRotation(g.queue, Move(Row, head.y, Minus))))
      case KeyD => Handled(g.(queue := QueueRotation(g.queue, Move(Row, head.y, Plus))))
      case KeyQ => Handled(g.(queue := QueueRotation(g.queue, Move(Depth, head.z, Plus))))
      case KeyE => Handled(g.(queue := QueueRotation(g.queue, Move(Depth, head.z, Minus))))
      case ArrowLeft => Handled(g.(moveDir := TurnWorm(g.moveDir, TurnLeft)))
      case ArrowRight => Handled(g.(moveDir := TurnWorm(g.moveDir, TurnRight)))
      case _ => Handled(g)
  }

  /** Pausing and resuming again returns the game unchanged. */
  lemma PauseToggles(g: Game, k1: Key, k2: Key)
    requires g.phase == Playing
    requires k1 == Space || k1 == Escape || k1 == KeyP
    requires k2 == Space || k2 == Escape || k2 == KeyP
    ensures KeyDown(g, k1).Handled? && KeyDown(KeyDown(g, k1).next, k2) == Handled(g)
  {
  }

  /** A queued turn rotates the head's own slice, about the axis the key names. */
  lemma QueuedTurnHoldsHead(g: Game, key: Key)
    requires g.phase == Playing && g.worm != [] && |g.queue| < QueueLimit
    requires key in {KeyW, KeyS, KeyA, KeyD, KeyQ, KeyE}
    ensures var r := KeyDown(g, key);
      && r.Handled? && |r.next.queue| == |g.queue| + 1
      && InSlice(g.worm[0].cell, r.next.queue[|g.queue|].axis, r.next.queue[|g.queue|].slice)
  {
  }

  // ---------------------------------------------------------------------
  // The rotation queue and the turn itself

  /** The queue-processing effect: hands the oldest queued turn to the cube
      when nothing animates and the game is playing. */
  function ProcessQueue(g: Game, animating: bool): (r: (Game, Option<Move>))
    ensures r.1.None? ==> r.0 == g
    ensures r.1.Some? ==> g.queue != [] && r.1.value == g.queue[0] && r.0 == g.(queue := g.queue[1..])
    ensures r.1.Some? <==> !animating && g.queue != [] && g.phase == Playing
  {
    if animating || g.queue == [] || g.phase != Playing then (g, None)
    else (g.(queue := g.queue[1..]), Some(g.queue[0]))
  }

  /** updateAfterRotation: worm and orbs are re-projected by updateWormAfterRotation. */
  function AfterRotation(t: Table, g: Game, m: Move, size: int): (r: Game)
    ensures t == AsWritten ==>
      && r.worm == UpdateWormAfterRotationAsWritten(g.worm, m.axis, m.slice, m.sign, size)
      && r.orbs == UpdateWormAfterRotationAsWritten(g.orbs, m.axis, m.slice, m.sign, size)
    ensures t == Corrected ==>
      && r.worm == UpdateWormAfterRotation(g.worm, m.axis, m.slice, m.sign, size)
      && r.orbs == UpdateWormAfterRotation(g.orbs, m.axis, m.slice, m.sign, size)
    ensures r.(worm := g.worm, orbs := g.orbs) == g
  {
    g.(worm := UpdateWormWith(t, g.worm, m.axis, m.slice, m.sign, size),
       orbs := UpdateWormWith(t, g.orbs, m.axis, m.slice, m.sign, size))
  }

  /** As written, turning the head's own slice throws the head off the surface
      whenever its key is off the turn's axis: the game is no longer well formed. */
  lemma AsWrittenTurnLeavesSurface(g: Game, m: Move, size: nat)
    requires size >= 2 && g.worm != [] && Exterior(g.worm[0], size)
    requires InSlice(g.worm[0].cell, m.axis, m.slice) && !KeyOnAxis(g.worm[0].dir, m.axis)
    ensures !Exterior(AfterRotation(AsWritten, g, m, size).worm[0], size)
    ensures !OnSurface(AfterRotation(AsWritten, g, m, size), size)
  {
    AsWrittenLeavesSurface(g.worm[0], m.axis, m.slice, m.sign, size);
    assert UpdateWormAfterRotationAsWritten([g.worm[0]], m.axis, m.slice, m.sign, size)[0]
        == UpdateWormAfterRotationAsWritten(g.worm, m.axis, m.slice, m.sign, size)[0];
  }

  /** With the corrected key table every segment and every orb stays on its
      own sticker when the cube turns. */
  lemma AfterRotationRidesStickers(g: Game, l: Lattice, m: Move, size: int)
    requires forall c | InRange(c, size) :: c in l
    requires forall i | 0 <= i < |g.worm| :: InRange(g.worm[i].cell, size)
    requires forall i | 0 <= i < |g.orbs| :: InRange(g.orbs[i].cell, size)
    ensures var l' := RotateSliceCubies(l, size, m.axis, m.slice, m.sign);
      var r := AfterRotation(Corrected, g, m, size);
      && (forall i | 0 <= i < |g.worm| :: StickerAt(l', r.worm[i]) == StickerAt(l, g.worm[i]))
      && (forall i | 0 <= i < |g.orbs| :: StickerAt(l', r.orbs[i]) == StickerAt(l, g.orbs[i]))
  {
    forall i | 0 <= i < |g.worm|
      ensures StickerAt(RotateSliceCubies(l, size, m.axis, m.slice, m.sign), AfterRotation(Corrected, g, m, size).worm[i]) == StickerAt(l, g.worm[i])
    {
      SegmentRidesSticker(l, g.worm, size, m.axis, m.slice, m.sign, i);
    }
    forall i | 0 <= i < |g.orbs|
      ensures StickerAt(RotateSliceCubies(l, size, m.axis, m.slice, m.sign), AfterRotation(Corrected, g, m, size).orbs[i]) == StickerAt(l, g.orbs[i])
    {
      SegmentRidesSticker(l, g.orbs, size, m.axis, m.slice, m.sign, i);
    }
  }

  // ---------------------------------------------------------------------
  // The tick

  /** Where the head comes to rest after stepping onto `next`: through the
      wormhole to the antipode when the sticker there is flipped and has one. */
  function Landing(l: Lattice, size: nat, next: Loc): (r: (Loc, bool))
    ensures !r.1 ==> r.0 == next
    ensures r.1 ==> IsPositionFlipped(l, next)
  {
    if IsPositionFlipped(l, next) then
      match GetAntipodalPosition(l, next, size, None)
      case Some(p) => (p, true)
      case None => (next, false)
    else (next, false)
  }

  /** On a coherent cube a flipped surface sticker always warps, to its antipode. */
  lemma LandingOnCoherent(l: Lattice, size: nat, next: Loc)
    requires Coherent(l, size) && Exterior(next, size)
    ensures var land := Landing(l, size, next);
      && (land.1 <==> IsPositionFlipped(l, next))
      && Exterior(land.0, size)
      && (land.1 ==> land.0 != next && GetAntipodalPosition(l, land.0, size, None) == Some(next))
  {
    AntipodeRoundTrip(l, next, size);
  }

  /** The head moves to `final`: orb pickup, scoring, victory and growth. */
  function Advance(g: Game, final: Loc, md: MoveDir, warps: nat, score: nat): (r: Game)
    requires g.worm != []
    ensures r.worm != [] && r.worm[0] == final
    ensures r.warps == warps && r.moveDir == md && r.queue == g.queue && r.orbsEaten == g.orbsEaten
    ensures g.pendingGrowth > 0 ==> r.worm[1..] == g.worm
    ensures g.pendingGrowth == 0 ==> r.worm[1..] == g.worm[..|g.worm| - 1]
    ensures final !in g.orbs ==>
      r.orbs == g.orbs && r.score == score && r.phase == g.phase
      && r.pendingGrowth == g.pendingGrowth - (if g.pendingGrowth > 0 then 1 else 0)
  {
    var (orbs, growth, score', phase) :=
      match IndexOf(g.orbs, final)
      case None => (g.orbs, g.pendingGrowth, score, g.phase)
      case Some(i) => (RemoveAt(g.orbs, i), g.pendingGrowth + GrowthPerOrb, score + 50 + 10 * |g.worm|,
                       if |g.orbs| == 1 then Victory else g.phase);
    var grown := [final] + g.worm;
    if g.pendingGrowth > 0 then
      Game(phase, grown, md, orbs, score', warps, g.orbsEaten, growth - 1, g.queue)
    else
      Game(phase, grown[..|grown| - 1], md, orbs, score', warps, g.orbsEaten, growth, g.queue)
  }

  /** The head has stepped to a slot that sends it on to `final`, through a
      wormhole when `warped`: count the warp, then a self-collision ends the
      game and anything else advances. */
  function StepTo(g: Game, md: MoveDir, final: Loc, warped: bool): (r: Game)
    requires g.worm != []
    ensures r.queue == g.queue && r.orbsEaten == g.orbsEaten && r.moveDir == md
    ensures r.warps == g.warps + (if warped then 1 else 0)
  {
    var warps := if warped then g.warps + 1 else g.warps;
    var score := if warped then g.score + WarpBonus else g.score;
    if CheckSelfCollision(final, g.worm) then
      g.(phase := GameOver, moveDir := md, warps := warps, score := score)
    else Advance(g, final, md, warps, score)
  }

  /**
    One frame of the game loop. `animating` is whether a slice turn is
    being animated, `due` whether the move interval has elapsed, and `nbrs`
    the surface neighbours of the head slot; `t` selects the remap table the
    surface step consults.
   */
  function Tick(t: Table, g: Game, l: Lattice, size: nat, animating: bool, due: bool, nbrs: seq<Loc>): (r: Game)
    ensures g.phase != Playing || animating || !due ==> r == g
    ensures r.queue == g.queue && r.orbsEaten == g.orbsEaten
    ensures r.warps == g.warps || r.warps == g.warps + 1
  {
    if g.phase != Playing || animating || !due || g.worm == [] then g
    else
      match NextSurfacePositionWith(t, g.worm[0], g.moveDir, size, nbrs)
      case None => g.(phase := GameOver)
      case Some(next) =>
        var land := Landing(l, size, next.at);
        StepTo(g, next.moveDir, land.0, land.1)
  }

  /** The two tables part ways in the game: a head at the top edge of the
      front face of a 3-cube, heading up onto the top face, is turned back
      toward the front face by the written table and keeps heading away from
      it with the corrected one. */
  lemma TickHeadingExample(g: Game, l: Lattice)
    requires Steps(g, false, true) && g.worm[0] == Loc(Coord(1, 2, 2), PZ) && g.moveDir == Up
    ensures Tick(AsWritten, g, l, 3, false, true, [Loc(Coord(1, 2, 2), PY)]).moveDir == Down
    ensures FaceDelta(PY, Down) == DirToVec(PZ)
    ensures Tick(Corrected, g, l, 3, false, true, [Loc(Coord(1, 2, 2), PY)]).moveDir == Up
    ensures FaceDelta(PY, Up) == Neg(DirToVec(PZ))
  {
    var nbrs := [Loc(Coord(1, 2, 2), PY)];
    assert !StepsOnFace(g.worm[0], Up, 3);
    assert NextSurfacePositionWith(AsWritten, g.worm[0], Up, 3, nbrs) == Some(Heading(nbrs[0], Down));
    assert NextSurfacePositionWith(Corrected, g.worm[0], Up, 3, nbrs) == Some(Heading(nbrs[0], Up));
  }

  /** The guard of a tick that actually steps. */
  predicate Steps(g: Game, animating: bool, due: bool) {
    g.phase == Playing && !animating && due && g.worm != []
  }

  /** Stepping off the known surface ends the game and leaves the worm where it was. */
  lemma TickOffSurface(t: Table, g: Game, l: Lattice, size: nat, nbrs: seq<Loc>)
    requires Steps(g, false, true) && NextSurfacePositionWith(t, g.worm[0], g.moveDir, size, nbrs).None?
    ensures Tick(t, g, l, size, false, true, nbrs) == g.(phase := GameOver)
  {
  }

  /** A warp adds one to the warp count and the warp bonus to the score. */
  lemma TickWarp(t: Table, g: Game, l: Lattice, size: nat, nbrs: seq<Loc>, next: Heading)
    requires Steps(g, false, true) && NextSurfacePositionWith(t, g.worm[0], g.moveDir, size, nbrs) == Some(next)
    requires Landing(l, size, next.at).1
    ensures var r := Tick(t, g, l, size, false, true, nbrs);
      r.warps == g.warps + 1 && r.score >= g.score + WarpBonus
    ensures Landing(l, size, next.at).0 !in g.orbs || CheckSelfCollision(Landing(l, size, next.at).0, g.worm) ==>
      Tick(t, g, l, size, false, true, nbrs).score == g.score + WarpBonus
  {
    assert Tick(t, g, l, size, false, true, nbrs) == StepTo(g, next.moveDir, Landing(l, size, next.at).0, Landing(l, size, next.at).1);
  }

  /** A tick that eats no orb raises the score by the warp bonus when it
      warps and leaves it alone otherwise, collision or not. */
  lemma TickScoreWithoutOrb(t: Table, g: Game, l: Lattice, size: nat, nbrs: seq<Loc>, next: Heading)
    requires Steps(g, false, true) && NextSurfacePositionWith(t, g.worm[0], g.moveDir, size, nbrs) == Some(next)
    requires Landing(l, size, next.at).0 !in g.orbs || CheckSelfCollision(Landing(l, size, next.at).0, g.worm)
    ensures Tick(t, g, l, size, false, true, nbrs).score == g.score + (if Landing(l, size, next.at).1 then WarpBonus else 0)
  {
    assert Tick(t, g, l, size, false, true, nbrs) == StepTo(g, next.moveDir, Landing(l, size, next.at).0, Landing(l, size, next.at).1);
  }

  /** A self-collision ends the game with worm, orbs and growth untouched. */
  lemma TickCollision(t: Table, g: Game, l: Lattice, size: nat, nbrs: seq<Loc>, next: Heading)
    requires Steps(g, false, true) && NextSurfacePositionWith(t, g.worm[0], g.moveDir, size, nbrs) == Some(next)
    requires CheckSelfCollision(Landing(l, size, next.at).0, g.worm)
    ensures var r := Tick(t, g, l, size, false, true, nbrs);
      r.phase == GameOver && r.worm == g.worm && r.orbs == g.orbs && r.pendingGrowth == g.pendingGrowth
  {
    assert Tick(t, g, l, size, false, true, nbrs) == StepTo(g, next.moveDir, Landing(l, size, next.at).0, Landing(l, size, next.at).1);
  }

  /** Landing on an orb eats it: it leaves the list, growth is owed, the
      score rises by 50 plus 10 per segment, and the last orb wins the game. */
  lemma TickEatsOrb(t: Table, g: Game, l: Lattice, size: nat, nbrs: seq<Loc>, next: Heading)
    requires Steps(g, false, true) && NextSurfacePositionWith(t, g.worm[0], g.moveDir, size, nbrs) == Some(next)
    requires !CheckSelfCollision(Landing(l, size, next.at).0, g.worm)
    requires Landing(l, size, next.at).0 in g.orbs
    ensures var land := Landing(l, size, next.at);
      var i := IndexOf(g.orbs, land.0).value;
      var r := Tick(t, g, l, size, false, true, nbrs);
      && r.orbs == RemoveAt(g.orbs, i)
      && |r.orbs| == |g.orbs| - 1
      && r.pendingGrowth == g.pendingGrowth + GrowthPerOrb - (if g.pendingGrowth > 0 then 1 else 0)
      && r.score == g.score + (if land.1 then WarpBonus else 0) + 50 + 10 * |g.worm|
      && (|g.orbs| == 1 <==> r.phase == Victory)
  {
    assert Tick(t, g, l, size, false, true, nbrs) == StepTo(g, next.moveDir, Landing(l, size, next.at).0, Landing(l, size, next.at).1);
  }

  /** A successful step puts the new head first; the worm grows by one exactly
      when growth was owed before the step, and otherwise drops its tail. */
  lemma TickMoves(t: Table, g: Game, l: Lattice, size: nat, nbrs: seq<Loc>, next: Heading)
    requires Steps(g, false, true) && NextSurfacePositionWith(t, g.worm[0], g.moveDir, size, nbrs) == Some(next)
    requires !CheckSelfCollision(Landing(l, size, next.at).0, g.worm)
    ensures var r := Tick(t, g, l, size, false, true, nbrs);
      && r.worm[0] == Landing(l, size, next.at).0
      && |r.worm| == |g.worm| + (if g.pendingGrowth > 0 then 1 else 0)
      && r.worm[1..] == (if g.pendingGrowth > 0 then g.worm else g.worm[..|g.worm| - 1])
      && r.moveDir == next.moveDir
  {
    assert Tick(t, g, l, size, false, true, nbrs) == StepTo(g, next.moveDir, Landing(l, size, next.at).0, Landing(l, size, next.at).1);
  }

  // ---------------------------------------------------------------------
  // Invariants

  /** A well-formed game: a worm of at least one segment and every segment and
      orb on a surface slot, with at most two turns queued. */
  predicate OnSurface(g: Game, size: nat) {
    && g.worm != []
    && (forall i | 0 <= i < |g.worm| :: Exterior(g.worm[i], size))
    && (forall i | 0 <= i < |g.orbs| :: Exterior(g.orbs[i], size))
    && |g.queue| <= QueueLimit
  }

  /** A fresh game is well formed on any cube of size two or more. */
  lemma RestartOnSurface(l: Lattice, size: nat, order: seq<nat>)
    requires size >= 2 && RestartOrder(l, size, order)
    ensures OnSurface(Restart(l, size, order), size)
  {
  }

  /** Key presses keep the game well formed; in particular the queue never
      holds more than two turns. */
  lemma KeyDownOnSurface(g: Game, key: Key, size: nat)
    requires OnSurface(g, size)
    ensures KeyDown(g, key).Handled? ==> OnSurface(KeyDown(g, key).next, size)
  {
  }

  /** Handing a turn to the cube keeps the game well formed, and so does
      riding it with the corrected key table (AsWrittenTurnLeavesSurface shows
      the written table does not). */
  lemma QueueAndTurnOnSurface(g: Game, animating: bool, size: nat)
    requires OnSurface(g, size)
    ensures OnSurface(ProcessQueue(g, animating).0, size)
    ensures ProcessQueue(g, animating).1.Some? ==>
      OnSurface(AfterRotation(Corrected, ProcessQueue(g, animating).0, ProcessQueue(g, animating).1.value, size), size)
  {
    var g1, m := ProcessQueue(g, animating).0, ProcessQueue(g, animating).1;
    if m.Some? {
      UpdateWormFacts(g1.worm, m.value.axis, m.value.slice, m.value.sign, size);
      UpdateWormFacts(g1.orbs, m.value.axis, m.value.slice, m.value.sign, size);
    }
  }

  /** On a coherent cube whose neighbour function only returns surface slots,
      a tick keeps the game well formed. */
  lemma TickOnSurface(t: Table, g: Game, l: Lattice, size: nat, animating: bool, due: bool, nbrs: seq<Loc>)
    requires Coherent(l, size) && OnSurface(g, size)
    requires forall nb | nb in nbrs :: Exterior(nb, size)
    ensures OnSurface(Tick(t, g, l, size, animating, due, nbrs), size)
  {
    if Steps(g, animating, due) {
      var n := NextSurfacePositionWith(t, g.worm[0], g.moveDir, size, nbrs);
      if n.Some? {
        NextStaysOnSurface(t, g.worm[0], g.moveDir, size, nbrs);
        TickLandsOnSurface(t, g, l, size, n.value, nbrs);
      }
    }
  }

  lemma TickLandsOnSurface(t: Table, g: Game, l: Lattice, size: nat, next: Heading, nbrs: seq<Loc>)
    requires Coherent(l, size) && OnSurface(g, size) && Exterior(next.at, size)
    requires Steps(g, false, true) && NextSurfacePositionWith(t, g.worm[0], g.moveDir, size, nbrs) == Some(next)
    ensures OnSurface(Tick(t, g, l, size, false, true, nbrs), size)
  {
    var land := Landing(l, size, next.at);
    assert Tick(t, g, l, size, false, true, nbrs) == StepTo(g, next.moveDir, land.0, land.1);
    LandingOnCoherent(l, size, next.at);
    StepToOnSurface(g, next.moveDir, land.0, land.1, size);
  }

  lemma StepToOnSurface(g: Game, md: MoveDir, final: Loc, warped: bool, size: nat)
    requires OnSurface(g, size) && Exterior(final, size)
    ensures OnSurface(StepTo(g, md, final, warped), size)
  {
    if !CheckSelfCollision(final, g.worm) {
      var warps := if warped then g.warps + 1 else g.warps;
      var score := if warped then g.score + WarpBonus else g.score;
      AdvanceOnSurface(g, final, md, warps, score, size);
    }
  }

  lemma AdvanceOnSurface(g: Game, final: Loc, md: MoveDir, warps: nat, score: nat, size: nat)
    requires OnSurface(g, size) && Exterior(final, size)
    ensures OnSurface(Advance(g, final, md, warps, score), size)
  {
    var r := Advance(g, final, md, warps, score);
    forall i | 0 <= i < |r.worm| ensures Exterior(r.worm[i], size) {
      if i > 0 {
        assert r.worm[i] == r.worm[1..][i - 1];
      }
    }
    match IndexOf(g.orbs, final)
    case None =>
    case Some(k) =>
      forall j | 0 <= j < |r.orbs| ensures Exterior(r.orbs[j], size) {
        assert r.orbs[j] == (if j < k then g.orbs[j] else g.orbs[j + 1]);
      }
  }
}
