# WORM-3: the antipodal cube and its worm, in Dafny

This project models the integer core of WORM-3, a Rubik-style cube puzzle built around an antipodal twist. Every sticker has a partner: the sticker whose home face is the opposite face and whose position on that face has the same grid index. Flipping a sticker recolours both partners with the opposite face colour and counts the flip. The model covers:

- the grid indexer, which gives every sticker an id `(home colour, index)`;
- the cube as a lattice of cubies;
- the 90-degree slice turn;
- the manifold map from ids to the slots holding them;
- the pair flip;
- the chaos tick, which spreads flips from unstable stickers;
- the metrics panel;
- worm mode, a snake game on the cube's surface. The worm walks stickers, warps through flipped stickers to their antipodes, eats orbs and rides slice turns.

The modules follow the program's structure:

- `Cube`, `Seqs`, `Grid` hold directions, coordinates and colours, sequence helpers, and grid ids.
- `Lattice` holds `makeCubies` and the scan order.
- `Rotation` holds `rotateVec90`, `rotateStickers`, `rotateSliceCubies` and `shuffle`.
- `Manifold` holds `buildManifoldGridMap`, `findAntipodalStickerByGrid` and `flipStickerPair`.
- `Metrics` and `Chaos` hold the metrics panel and the chaos `step`.
- `Navigator` holds `FACE_DIRECTIONS`, `FACE_TRANSITION_DIR`, `getNextSurfacePosition` and `turnWorm`.
- `Worm` holds the rest of the worm logic.
- `WormGame` holds the `WormMode.jsx` state machine as a pure `(state, input) -> state`.

How things are represented:

- Directions are the six-key enum `Dir`, and move directions are the four-key enum `MoveDir`.
- A grid id is a pair rather than a zero-padded string.
- A lattice is a map from integer triples to cubies.
- Slice turns rotate positions in doubled centred coordinates `2v - (size-1)`. The half-integer centre of even sizes then stays integral, and `Math.round` is provably never needed.

Inputs that are not part of the state become parameters:

- the shuffle draws and the chaos draws;
- the orb shuffle;
- whether the move interval has elapsed;
- whether a turn is animating;
- the surface-neighbour list of the worm's head.

The surface-neighbour function `getManifoldNeighbors` is imported by the worm logic from src/game/manifoldLogic.js, but that module neither defines nor exports it (see Findings). The model takes the neighbour list as a parameter `nbrs`, standing in for a function the source does not supply. Navigator.CrossEdgeNeighbours is one such function, built from the cube's geometry.

Behaviour of the code that the model keeps as it is:

- The self-collision test compares the new head with every segment except index 0 (src/worm/wormLogic.js:248-259). The tail segment about to be vacated therefore counts as a hit.
- The orb pickup never raises `orbsEaten` (src/worm/WormMode.jsx:323-336).
- The warp count and the warp bonus are applied before the self-collision test (src/worm/WormMode.jsx:305-321). A warp into the worm's own body still counts.
- A surface step that leaves the face returns null when the neighbour list offers no slot on another face (src/worm/wormLogic.js:134-181). The tick turns that into game over (src/worm/WormMode.jsx:295-299).

The worm's two direction tables carry the two errors described under Findings: the face-transition remap and the key re-projection after a turn. The game therefore takes a `Table` parameter. `AsWritten` follows both tables as the source writes them. `Corrected` is its partner, with both tables repaired. Lemmas about the written game show where it goes wrong. The surface-invariant lemmas about turns are proved for the corrected game.

## Model

| member | source | states |
|---|---|---|
| Cube.AntipodalInvolution | App.jsx:10-11 | ANTIPODAL_COLOR is an involution with no fixed point, and it sends each face's colour to the opposite face's colour |
| Cube.FaceColorInjective | App.jsx:59-64 | the six faces receive six different home colours in makeCubies |
| Cube.DirVecRoundTrip | App.jsx:12-13 | DIR_TO_VEC gives a unit axis vector, VEC_TO_DIR reads it back to the same key, and opposite keys have negated vectors |
| Cube.VecDirRoundTrip | App.jsx:12-13 | for every unit axis vector, VEC_TO_DIR then DIR_TO_VEC returns it |
| Cube.CentreRoundTrip | App.jsx:86-96 | centring a cell (2v-(size-1), the doubled `v-k`) and un-centring it returns the cell, and a centred cell has the parity of size-1 |
| Cube.UncentreRoundTrip | App.jsx:86-96 | un-centring an aligned doubled-centred vector and centring it again is the identity, so the `Math.round(c+k)` step is exact |
| Cube.InRangeCentred | App.jsx:86-96 | a cell is in the size^3 lattice iff each centred coordinate lies in [-(size-1), size-1] |
| Cube.OnFaceCentred | App.jsx:3090 | a cell lies on face d's boundary layer (the `onEdge` test) iff its centred position has component size-1 along d's normal |
| Grid.GridRCOnFace | App.jsx:19-44 | for a cell on its face, getGridRC gives 0 <= r,c < size, and the face cell at (r,c) is that cell again |
| Grid.FaceCellOnFace | App.jsx:19-44 | every (r,c) in range is the getGridRC of exactly one cell of each face |
| Grid.GridRCInjective | App.jsx:19-44 | getGridRC is injective over the cells of one face |
| Grid.GridIndexRange | App.jsx:47-49 | the index r*size+c+1 of an in-range (r,c) lies in [1, size^2], and (r,c) is recovered from it |
| Grid.IndexRCRange | App.jsx:47-49 | every index in [1, size^2] is the index of one in-range (r,c) |
| Grid.GridIdInjective | App.jsx:47-52 | two home slots with the same manifold grid id are the same slot |
| Grid.SlotOfSound | App.jsx:47-52 | every id (colour 1..6, index 1..size^2) is the id of a home slot on the exterior |
| Grid.AllIdsCard | App.jsx:47-52 | there are exactly 6*size^2 grid ids |
| Lattice.MakeCubies | App.jsx:54-68 | makeCubies fills every cell of the size^3 lattice. A sticker sits under key D exactly when the cell is on D's boundary, with curr = orig = D's colour, flips 0, origPos the cell and origDir D |
| Lattice.ScanMembers | App.jsx:3059-3062 | the scan visits each sticker of the lattice exactly once |
| Lattice.MakeCubiesCoherent | App.jsx:54-68 | a fresh lattice is coherent: one sticker per exterior slot, with pairwise different grid ids |
| Lattice.StickerCount | App.jsx:54-68 | a coherent lattice holds 6*size^2 stickers |
| Lattice.MakeCubiesStickerCount | App.jsx:54-68 | makeCubies creates 6*size^2 stickers |
| Lattice.ScanIdsCard | src/game/manifoldLogic.js:8-22 | when grid ids are unique, there are as many ids as scanned stickers |
| Rotation.RotCell | App.jsx:86-96 | the landing cell of a slice cell, written on lattice coordinates, is the quarter turn of its centred position |
| Rotation.RotateVec90FixesAxis | App.jsx:70-74 | rotateVec90 fixes both unit vectors along its own axis |
| Rotation.RotateVec90Inverse | App.jsx:70-74 | rotateVec90 with dir and then with -dir is the identity |
| Rotation.RotateVec90Order4 | App.jsx:70-74 | four rotateVec90 steps the same way are the identity |
| Rotation.RotateVec90Dot | App.jsx:70-74 | rotateVec90 preserves dot products, so lengths and right angles survive a quarter turn |
| Rotation.RotateNormal | App.jsx:75-82 | the key table sends a key to the key whose normal is the rotateVec90 image of the key's normal, so each of the six unit axis vectors turns into a unit axis vector |
| Rotation.RotateDirAsSource | App.jsx:75-82 | the key table equals rotateStickers' VEC_TO_DIR(rotateVec90(DIR_TO_VEC[k])) for every key |
| Rotation.RotateDirFacts | App.jsx:75-82 | re-keying with -dir undoes re-keying with dir, and the two keys on the axis are fixed |
| Rotation.RotateDirInjective | App.jsx:75-82 | re-keying never sends two keys to the same key, so no sticker is overwritten |
| Rotation.RotCellFacts | App.jsx:86-96 | a turned cell stays in the slice and in range iff it started there, and turning back restores it |
| Rotation.RotCellInjective | App.jsx:86-96 | two different cells never land on the same cell |
| Rotation.MoveLocRoundTrip | App.jsx:85-108 | moving a sticker slot with dir and then -dir returns the slot |
| Rotation.MoveLocExterior | App.jsx:85-108 | a slot is exterior after a turn iff it was exterior before |
| Rotation.RotateStickers | App.jsx:75-82 | the re-keyed map holds key d exactly when the key that turns into d was present, with that sticker record unchanged, and it has as many stickers as before |
| Rotation.Moves | App.jsx:86-107 | the cubies written by the turn sit exactly on the in-range slice cells, each holding the re-keyed stickers of the cubie that turns onto it, with its position fields updated |
| Rotation.RotateSliceCubies | App.jsx:85-108 | cubies outside the slice are unchanged, and each slice cubie reappears at its turned cell with its stickers re-keyed |
| Rotation.RotateTransport | App.jsx:85-108 | after a turn, the sticker at any slot is the one that was at the slot the reverse turn sends it to |
| Rotation.RotateKeepsCells | App.jsx:85-108 | a turn keeps the set of cells and every cubie's own x,y,z in step with its cell |
| Rotation.LatticeExt | App.jsx:85-108 | two lattices with the same cells, positions and stickers are equal (the extensionality the round trip needs) |
| Rotation.RotateRoundTrip | App.jsx:85-108 | rotating a slice with dir and then with -dir restores the lattice |
| Rotation.RotationPreservesStickers | App.jsx:101-105 | a turned sticker is the same record at its new slot: orig, curr, flips, origPos and origDir all unchanged |
| Rotation.RotatePreservesCoherent | App.jsx:85-108 | a turn of a coherent lattice is coherent |
| Rotation.RotateKeepsIds | App.jsx:47-52 | a turn keeps the set of grid ids in the lattice |
| Rotation.RotateAllCoherent | App.jsx:3193-3198 | any sequence of turns keeps a coherent lattice coherent |
| Rotation.Shuffle | App.jsx:3191-3201 | a shuffled cube, 25 turns of a fresh one, is coherent and holds 6*size^2 stickers |
| Manifold.BuildFrom | src/game/manifoldLogic.js:8-22 | the map built from a slot list has exactly those slots' ids as keys. Each key maps to a listed slot carrying it, and the last listed slot wins |
| Manifold.BuildManifoldGridMap | src/game/manifoldLogic.js:8-22 | buildManifoldGridMap has exactly the lattice's ids as keys, each resolving to an in-range slot whose sticker carries it |
| Manifold.ManifoldMapOfCoherent | src/game/manifoldLogic.js:8-22 | on a coherent lattice the map has all 6*size^2 ids as keys, and every exterior slot is where its own id resolves |
| Manifold.ManifoldMapSlot | src/game/manifoldLogic.js:8-22 | on a coherent lattice, each exterior slot's id resolves to that slot |
| Manifold.PartnerIdInvolution | src/game/manifoldLogic.js:25-32 | the partner id differs from the sticker's own id, and the partner of the partner is the sticker's id |
| Manifold.FindAntipodalOnCoherent | src/game/manifoldLogic.js:25-32 | on a coherent lattice, findAntipodalStickerByGrid finds another exterior slot. That slot has the antipodal home colour and the same index, and its antipode is the original slot |
| Manifold.Flipped | src/game/manifoldLogic.js:44-55 | applyFlip changes curr, adds one to flips and keeps orig, origPos and origDir. The flipped sticker shows its home colour again exactly when it showed the antipodal home colour before |
| Manifold.FlippedTwice | src/game/manifoldLogic.js:44-55 | two applyFlips restore curr and add two to flips |
| Manifold.ApplyFlip | src/game/manifoldLogic.js:44-55 | applyFlip changes only the targeted slot, and a missing sticker leaves the lattice unchanged |
| Manifold.FlipStickerPair | src/game/manifoldLogic.js:35-61 | with no sticker at the slot the state is returned unchanged. Otherwise the target and its partner are each flipped, and every other slot and all positions are unchanged; a missing partner means only the target changes |
| Manifold.FlipKeepsIdentity | src/game/manifoldLogic.js:44-55 | a pair flip changes only colours and flip counts; no slot, home colour, origPos or origDir changes |
| Manifold.SameIdentityMap | src/game/manifoldLogic.js:13-16 | a flip changes no grid id, so the map built before the flip equals the map built after it |
| Manifold.SameIdentityCoherent | src/game/manifoldLogic.js:44-55 | flips keep a lattice coherent |
| Manifold.FlipTwiceRestoresColours | src/game/manifoldLogic.js:35-61 | flipping the same slot twice restores every sticker's curr |
| Manifold.FlipTwiceAddsTwo | src/game/manifoldLogic.js:49-53 | flipping the same slot twice raises the target's and the partner's flips by exactly 2 |
| Manifold.FlipNeverLowersFlips | src/game/manifoldLogic.js:49-53 | a pair flip never lowers any sticker's flip count |
| Manifold.TwoPairFlipsAtSelf | src/game/manifoldLogic.js:57-58 | when the map names the target as its own partner, the target is flipped twice by one call |
| Metrics.CountOff | App.jsx:3063-3064 | the off-colour count never exceeds the number of stickers scanned |
| Metrics.CountWormholes | App.jsx:3064-3065 | every wormhole is an off-colour sticker, so wormholes <= off |
| Metrics.RoundRatio | App.jsx:3068 | the exact ratio rounded to the nearest integer with halves rounded up, as Math.round does; a share is 0..100 |
| Metrics.ComputeMetrics | App.jsx:3058-3069 | the wormhole count is at most the sticker count. Entropy is undefined exactly when there are no stickers, and otherwise lies in 0..100 |
| Metrics.SolvedCubeMetrics | App.jsx:3058-3069 | a fresh cube shows 0 flips, 0 wormholes and 0 entropy |
| Metrics.SumFlipsTwo | App.jsx:3062 | raising two slots' flips by one raises the flip total by the number of times they are scanned |
| Metrics.FlipPairAddsTwoFlips | App.jsx:3058-3069 | on a coherent cube, one pair flip raises the panel's flip total by exactly 2 |
| Metrics.FlipPairFlipsTwo | src/game/manifoldLogic.js:35-61 | on a coherent cube, a pair flip adds one flip at the target and one at a different exterior partner, and nothing elsewhere |
| Chaos.FilterUnstable | App.jsx:3086-3094 | the filtered list holds exactly the listed slots that are flipped, off-colour and on their own face, without repeats |
| Chaos.UnstableSlots | App.jsx:3086-3094 | the unstable list holds exactly the in-range slots with flips > 0, curr != orig and onEdge, each once |
| Chaos.LayerCell | App.jsx:3107-3125 | the cell the neighbour helper pushes lies on the source's face layer with the given in-face coordinates |
| Chaos.ChaosNeighbours | App.jsx:3107-3125 | the neighbour list has at most four cells |
| Chaos.ChaosNeighboursExactly | App.jsx:3107-3125 | a cell is in the neighbour list iff it is in bounds, on the source's face layer and one step from the source in exactly one in-face coordinate |
| Chaos.FlipNeighbours | App.jsx:3127-3129 | flipping the chosen neighbours changes only colours and flip counts and never lowers a flip count |
| Chaos.ChaosStep | App.jsx:3082-3143 | with no unstable sticker the state is returned unchanged. Otherwise the tick changes only colours and flip counts and never lowers a flip count |
| Chaos.ChaosKeepsMap | App.jsx:3099-3129 | a chaos tick keeps the cube coherent, and the manifold map it closed over is still the map of the result |
| Navigator.FaceDeltaUnit | src/worm/wormLogic.js:9-52 | every FACE_DIRECTIONS delta is a unit vector with no component along the face normal |
| Navigator.UpDownOpposite | src/worm/wormLogic.js:9-52 | on every face the down delta is the negated up delta |
| Navigator.LeftRightOpposite | src/worm/wormLogic.js:9-52 | on every face the right delta is the negated left delta |
| Navigator.FaceDeltaInjective | src/worm/wormLogic.js:9-52 | the four move directions of a face have four different deltas |
| Navigator.TurnWorm | src/worm/wormLogic.js:189-200 | turnWorm moves one step forward on the cycle up, right, down, left for a right turn and one step back for a left turn; any other turn returns the input |
| Navigator.TurnsCancel | src/worm/wormLogic.js:189-200 | right then left, and left then right, are the identity |
| Navigator.FourRightsIdentity | src/worm/wormLogic.js:189-200 | four right turns are the identity |
| Navigator.TurnIsQuarter | src/worm/wormLogic.js:189-200 | a left or right turn changes the heading to a perpendicular delta on every face |
| Navigator.TransitionEntries | src/worm/wormLogic.js:56-92 | the table has an entry exactly for the 24 ordered pairs of adjacent faces, and each entry is a permutation of the four directions |
| Navigator.CorrectedFollowsFold | src/worm/wormLogic.js:56-92 | in the corrected table, the heading after a crossing is the old delta folded over the shared edge onto the new face |
| Navigator.CorrectedKeepsGoing | src/worm/wormLogic.js:56-92 | in the corrected table, a worm that crosses onto face b keeps moving away from the face it left |
| Navigator.AsWrittenTurnsBack | src/worm/wormLogic.js:58-62 | as written, the PZ->PY entry turns 'up' (toward PY) into 'down', and down on PY points back at PZ |
| Navigator.TablesDiffer | src/worm/wormLogic.js:56-92 | the written and corrected tables differ in exactly ten face pairs |
| Navigator.AsWrittenTurnsBackExactly | src/worm/wormLogic.js:56-92 | for a worm walking over the edge from a onto b, the written entry sends it straight back towards a iff (a, b) is one of the ten differing pairs; on the other fourteen it heads on away from a |
| Navigator.CrossHeadingCases | src/worm/wormLogic.js:149-151 | after crossing to an adjacent face the heading is the table's remap of the old one; for a pair with no table entry, the heading is kept |
| Navigator.FirstAlong | src/worm/wormLogic.js:138-161 | returns the first neighbour on another face at exactly the target cell, or none when there is no such neighbour |
| Navigator.FirstOffFace | src/worm/wormLogic.js:164-178 | returns the first neighbour on another face, or none when every neighbour is on the same face |
| Navigator.NextSurfacePositionWith | src/worm/wormLogic.js:101-181 | a same-face step returns that cell with the same face and heading. Across an edge, a neighbour on another face wins, preferring one at the stepped cell; the heading is remapped by the table, and with no such neighbour the result is none |
| Navigator.NextSurfacePosition | src/worm/wormLogic.js:101-181 | a cross-face result is a listed neighbour carrying the corrected table's heading |
| Navigator.SameFaceStep | src/worm/wormLogic.js:127-132 | with either table, a same-face step lands on an exterior slot of the same face, one unit away, with the heading unchanged |
| Navigator.NextStaysOnSurface | src/worm/wormLogic.js:101-181 | with either table, when the neighbour list holds only surface slots, every step lands on the surface |
| Navigator.CrossEdgeNeighbours | src/worm/wormLogic.js:134-135 | a neighbour list for the edge-crossing branch: exactly the other exterior stickers of the worm's cubie |
| Navigator.EdgeStepFace | src/worm/wormLogic.js:110-132 | a step that leaves an exterior sticker's face points along the normal of another face, which the same cubie carries a sticker on |
| Navigator.NoNeighboursStops | src/worm/wormLogic.js:134-181 | with an empty neighbour list, every step over an edge returns null |
| Navigator.EdgeCrossingLands | src/worm/wormLogic.js:134-181 | with the cubie's own stickers as neighbours, every step over an edge succeeds. It lands on another exterior face of the same cubie with the table's heading, and off the corners on the face the step walks onto |
| Manifold.NeighboursNotExported | src/worm/wormLogic.js:4 | the surface-neighbour function the worm logic imports is not among the names src/game/manifoldLogic.js exports (lines 8, 25, 35) |
| Navigator.SameFaceIgnoresNeighbours | src/worm/wormLogic.js:127-132 | a same-face step does not depend on the neighbour list |
| Worm.CheckSelfCollision | src/worm/wormLogic.js:246-260 | true iff some segment at index >= 1 equals the head on cell and key |
| Worm.OldHeadIgnored | src/worm/wormLogic.js:246-260 | segment 0 is never compared |
| Worm.CreateInitialWorm | src/worm/wormLogic.js:276-286 | three segments on PZ at z=size-1 and x=size/2, with the head at y=size/2, all exterior for size >= 2 |
| Worm.InitialWormShape | src/worm/wormLogic.js:276-286 | for size >= 4 the segments are distinct, each one step below the previous; for size 3 the last two coincide |
| Worm.FilterFree | src/worm/wormLogic.js:312-340 | keeps exactly the listed slots that are free, without repeats |
| Worm.ValidPositions | src/worm/wormLogic.js:297-340 | the candidate list holds exactly the exterior sticker slots occupied by no segment and no orb, each once |
| Worm.SpawnOrbs | src/worm/wormLogic.js:297-347 | for every shuffle, spawns min(count, #free) distinct free slots |
| Worm.SpawnOrbsFillsAll | src/worm/wormLogic.js:343-344 | when count covers every free slot, the orbs are exactly the free slots |
| Worm.FlipOpensWormhole | src/worm/wormLogic.js:208-212 | flipping an unflipped slot of a coherent cube makes isPositionFlipped true there, and at the partner unless the partner was already flipped |
| Worm.GetAntipodalPosition | src/worm/wormLogic.js:222-238 | no sticker means no antipode. With the map built on the spot, the antipode carries the partner id |
| Worm.AntipodeRoundTrip | src/worm/wormLogic.js:222-238 | on a coherent cube every surface slot has an antipode on another surface slot, and the antipode of the antipode is the slot |
| Worm.RotateDirAsWrittenIsInverse | src/worm/wormLogic.js:400-413 | the written rotateDir table is the key turn for -dir, not dir |
| Worm.RotateDirAsWrittenNegates | src/worm/wormLogic.js:400-413 | off the axis, the written table gives the opposite of the key rotateStickers gives |
| Worm.RotateDirAsWrittenFacts | src/worm/wormLogic.js:400-413 | the written table with -dir inverts it with dir and fixes the two keys on the axis |
| Worm.UpdateWormAfterRotationAsWritten | src/worm/wormLogic.js:359-419 | as written: the length is kept and out-of-slice segments are unchanged |
| Worm.UpdateWormWith | src/worm/wormLogic.js:359-419 | with either key table, the length is kept and out-of-slice segments are unchanged. In-slice cells move as rotateSliceCubies moves cubies. The corrected table turns the key as the cubie's stickers turn; the written one turns it with the reverse turn |
| Worm.UpdateWormAfterRotation | src/worm/wormLogic.js:359-419 | the length is kept and out-of-slice segments are unchanged. An in-slice segment moves exactly as rotateSliceCubies moves its sticker |
| Worm.SegmentsFollowCubies | src/worm/wormLogic.js:370-397 | a segment's new cell holds the turned cubie it sat on |
| Worm.SegmentRidesSticker | src/worm/wormLogic.js:350-351 | after the matching slice turn, each segment sits on the same sticker as before |
| Worm.UpdateWormFacts | src/worm/wormLogic.js:359-419 | segments stay on the surface, and re-projecting with -dir restores the worm |
| Worm.AsWrittenLeavesSurface | src/worm/wormLogic.js:400-417 | as written, any exterior in-slice segment whose key is off the axis gets a key its new cell is not on (size >= 2) |
| Worm.AsWrittenExample | src/worm/wormLogic.js:370-417 | as written, a PY segment at (1,2,1) of a 3-cube turned on col 1 with dir +1 lands at (1,1,2) keyed NZ |
| Worm.CorrectedExample | src/worm/wormLogic.js:370-417 | corrected, the same segment lands at (1,1,2) keyed PZ, the face its cell is on |
| Worm.CalculateScore | src/worm/wormLogic.js:439-441 | the score is a multiple of 25 and at least 100 per segment |
| Worm.ScoreIncrements | src/worm/wormLogic.js:439-441 | one more segment, orb or warp adds 100, 50 or 25 |
| WormGame.Restart | src/worm/WormMode.jsx:69-81 | restart: playing, heading up, empty queue, all counters 0, a fresh initial worm, and min(15, #free) orbs on free slots |
| WormGame.QueueRotation | src/worm/WormMode.jsx:111-115 | a turn is appended only while fewer than two are queued |
| WormGame.KeyDown | src/worm/WormMode.jsx:86-159 | in gameover or victory only Enter or Space acts, and it restarts. Space, Escape and P toggle playing and paused. A paused game changes nothing else |
| WormGame.PauseToggles | src/worm/WormMode.jsx:97-106 | pausing and then resuming returns the same game |
| WormGame.QueuedTurnHoldsHead | src/worm/WormMode.jsx:117-146 | a turn key queues one turn of the slice holding the head |
| WormGame.ProcessQueue | src/worm/WormMode.jsx:167-176 | the oldest queued turn is handed out exactly when nothing animates, the queue is non-empty and the game is playing |
| WormGame.AfterRotation | src/worm/WormMode.jsx:179-188 | worm and orbs are each re-projected by updateWormAfterRotation, the written one for `AsWritten` and the corrected one for `Corrected`, and nothing else changes |
| WormGame.AsWrittenTurnLeavesSurface | src/worm/WormMode.jsx:179-188 | as written, turning the head's slice when the head's key is off the turn axis puts the head on no surface slot, so the game is no longer well formed |
| WormGame.AfterRotationRidesStickers | src/worm/WormMode.jsx:179-188 | in the corrected game, every segment and every orb sits on the same sticker after a turn as before |
| WormGame.Landing | src/worm/WormMode.jsx:307-315 | the head warps only from a flipped slot; otherwise it rests where it stepped |
| WormGame.LandingOnCoherent | src/worm/WormMode.jsx:307-315 | on a coherent cube a flipped slot always warps, to a different surface slot whose antipode is the stepped slot |
| WormGame.Advance | src/worm/WormMode.jsx:323-347 | the new head is first. The body is the old worm when growth was owed and the old worm minus its tail otherwise. Missing every orb leaves orbs, score and phase alone |
| WormGame.StepTo | src/worm/WormMode.jsx:301-347 | the heading is the one the step returned, and warps rise by one exactly on a warp |
| WormGame.Tick | src/worm/WormMode.jsx:275-348 | with either table: nothing changes unless playing, not animating and due. The queue and orbsEaten never change, and warps rise by at most one |
| WormGame.TickHeadingExample | src/worm/WormMode.jsx:289-303 | a head at (1,2,2) on PZ of a 3-cube, heading up onto PY, gets heading down from the written table, which points back at PZ. The corrected table gives heading up, away from PZ |
| WormGame.TickOffSurface | src/worm/WormMode.jsx:295-299 | no next position means gameover with the worm unchanged |
| WormGame.TickWarp | src/worm/WormMode.jsx:305-321 | a warp raises warps by 1 and the score by at least 25, and by exactly 25 when no orb is eaten, including a warp into the worm's own body |
| WormGame.TickScoreWithoutOrb | src/worm/WormMode.jsx:305-336 | a tick that eats no orb raises the score by 25 if it warps and by nothing otherwise, whether or not it collides |
| WormGame.TickCollision | src/worm/WormMode.jsx:317-321 | a self-collision means gameover with worm, orbs and growth unchanged |
| WormGame.TickEatsOrb | src/worm/WormMode.jsx:323-336 | the first matching orb is removed. Owed growth rises by one, less the unit this step spends if growth was already owed. The score rises by 50+10*length (plus 25 on a warp). The game is won iff it was the only orb |
| WormGame.TickMoves | src/worm/WormMode.jsx:338-347 | the new head is at index 0. The worm grows by one exactly when growth was owed before the step, and otherwise drops its tail |
| WormGame.RestartOnSurface | src/worm/WormMode.jsx:69-81 | a fresh game has its worm and orbs on the surface and an empty queue |
| WormGame.KeyDownOnSurface | src/worm/WormMode.jsx:86-159 | key handling keeps the game well formed; the queue never holds more than two turns |
| WormGame.QueueAndTurnOnSurface | src/worm/WormMode.jsx:167-188 | handing out a turn keeps the game well formed; riding it in the corrected game keeps the worm and orbs on the surface |
| WormGame.TickOnSurface | src/worm/WormMode.jsx:275-348 | with either table, on a coherent cube with a surface-only neighbour list, a tick keeps the game well formed |

## Left out

- Rendering, animation, camera, tunnels, menus, tutorial, HUD, audio and haptics: these are three.js and React code with floats, and none of it feeds the state.
- The camera toggle key `c` changes only view state; the model ignores it.
- Timing: the worm's delta-time accumulator and speed become the `due` flag. The chaos loop's interval is outside the model.
- Random draws become parameters:
  - the 25 shuffle turns;
  - the chaos source index, read modulo the list length for any natural;
  - the chaos self and neighbour draws, as booleans;
  - the orb shuffle, as a permutation `order`.
  The chaos probabilities `base*ln(flips+1)` are not modelled.
- `getManifoldNeighbors` is imported by the worm logic, but src/game/manifoldLogic.js does not define it (see Findings). The neighbour list becomes the `nbrs` parameter. Nothing is known of the missing function's order or contents.
- Navigator.CrossEdgeNeighbours: lists a corner sticker's two cross-face neighbours in key order. The fallback loop then takes the first, which is not always the face the step walks onto. Navigator.EdgeCrossingLands pins the face only for edge stickers off the corners.
- Unknown direction keys, move directions, axes and turns: the source returns null or its input. The enums rule these inputs out, except that `Turn` keeps an `OtherTurn` case.
- Grid ids are `(colour, index)` pairs. The zero-padded string form is not modelled.
- The manifold map also stores a sticker snapshot that no core operation reads; the model stores only the slot.
- When a stale map names a slot with no sticker, `applyFlip` would write a malformed record. Manifold.ApplyFlip treats this as a no-op.
- The segment's own `moveDir` field and the orb record's extra fields are omitted, because no core operation reads them back.
- Scan order is x, then y, then z, then keys in `makeCubies` insertion order. After a turn the source's `Object.keys` order follows the re-keying. Only oracle indices and duplicate ids would observe the difference, and coherent lattices have no duplicate ids.
- `calculateScore` is modelled but no caller appears in the files modelled; the game adds its bonuses directly.
- `updateAfterRotation` and `onRotate` have no caller in the files modelled. WormGame.AfterRotation is the step a caller would run after each turn.
- `spawnOrbs` with a negative count is excluded by `count: nat`.
- Worm.UpdateWormAfterRotation: models the corrected key rule (see Findings). The written one is Worm.UpdateWormAfterRotationAsWritten, and Worm.UpdateWormWith selects between them.
- Navigator.NextSurfacePosition: fixes the corrected transition table (see Findings). The game step takes the table as a parameter through Navigator.NextSurfacePositionWith.
- WormGame.AfterRotationRidesStickers: proved for the corrected key table only. As written, the turn moves an off-axis head off its sticker (WormGame.AsWrittenTurnLeavesSurface).
- WormGame.QueueAndTurnOnSurface: the surface invariant across a turn is proved for the corrected key table only. As written it fails (WormGame.AsWrittenTurnLeavesSurface).
- Metrics.RoundRatio: rounds the exact ratio `100*off/total`, while the source rounds the double `(off/total)*100`. The two agree for every count at sizes 3, 4 and 5, the only sizes the size selector offers (App.jsx:3373). At other sizes they can differ by one: at size 10 with 87 off-colour stickers the double rounds to 14 and the exact ratio to 15. Metrics.ComputeMetrics inherits this.
- Chaos.ChaosStep: states the frame and growth properties of the tick, not which stickers each draw flips.

## Findings

| source | as written | input that shows it | evidently intended | confidence | as-written member | corrected member |
|---|---|---|---|---|---|---|
| src/worm/wormLogic.js:400-413 | `rotateDir` re-keys a riding segment with the key turn for -dir. Off the axis this is the opposite of what rotateStickers does, so the segment leaves the surface | size 3, segment (1,2,1) PY, turn col 1 with dir +1: lands at (1,1,2) keyed NZ, which is not the face (1,1,2) is on | the segment keeps riding its sticker and is keyed PZ, as the doc-comment at lines 350-351 says | not executed | Worm.UpdateWormAfterRotationAsWritten, Worm.AsWrittenLeavesSurface, Worm.AsWrittenExample, WormGame.AsWrittenTurnLeavesSurface | Worm.UpdateWormAfterRotation, Worm.SegmentRidesSticker, Worm.CorrectedExample, WormGame.AfterRotationRidesStickers |
| src/worm/wormLogic.js:56-92 | 10 of the 24 FACE_TRANSITION_DIR entries send the worm back across the edge it just crossed: PZ->PY, NZ->PY, PX->PY, PX->NY, NX->PY, NX->NY, PY->PX, PY->NX, NY->PX and NY->NX | worm on PZ heading up (+y) crosses onto PY. The table maps up to down, and down on PY is +z, back toward PZ | the crossing keeps the worm moving away from the face it left, the old delta folded over the shared edge | not executed | Navigator.TransitionAsWritten, Navigator.AsWrittenTurnsBack, Navigator.AsWrittenTurnsBackExactly, WormGame.TickHeadingExample | Navigator.TransitionCorrected, Navigator.CorrectedKeepsGoing, Navigator.CorrectedFollowsFold |
| src/worm/wormLogic.js:4 | imports `getManifoldNeighbors` from src/game/manifoldLogic.js, which defines and exports only `buildManifoldGridMap`, `findAntipodalStickerByGrid` and `flipStickerPair` (lines 8, 25, 35). The edge-crossing call at line 135 has no function behind it | loading the module, or at the latest the first step over a face edge: size 3, head (1,2,2) PZ heading up | a neighbour function listing the stickers across the current sticker's edges, so that an edge step lands on the next face | not executed | Manifold.NeighboursNotExported, Navigator.NoNeighboursStops | Navigator.CrossEdgeNeighbours, Navigator.EdgeCrossingLands |
