# Sprite engine of the archery game, in Dafny

This project models the sprite bookkeeping engine of a small openFrameworks
side-scroller. The player, a horse, fires arrows at mushroom and eye monsters
that walk in from the right. The engine lives in `src/ofApp.cpp` and
`src/ofApp.h`, and this project models five parts of it:

- **`Sprite`** steps through a tile sheet, one frame every 50 ms, and carries
  a collision box.
  - `Sprites.SpriteState` is a sprite as a value, as `vector<Sprite>` and
    every by-value parameter hold it. Its member functions give the meaning
    of `startAnim`, `stopAnim`, `advanceFrame`, `integrate`, `update` and
    `isColliding`.
  - `Sprites.Sprite` is the same sprite as an object updated in place, as the
    player and the bow are. Each of its methods is proved to change the
    object's state exactly as the matching function does.
  - The local `Sprite sprite` in `Emitter::emit` is modelled as a
    `SpriteState` value: the state of a freshly constructed `Sprite`, to which
    the presets then apply their field writes.
- **`spriteSystem`** (`SpriteSystems.SpriteSystem`) holds a vector of sprites.
  - `update` marks the sprites off the field, erases the dead ones in place,
    then updates the rest.
  - `checkCollision` marks every receiver sprite that overlaps a sprite of
    its argument. The argument is taken by value.
- **`Emitter`** (`Emitters.Emitter`) owns one sprite system by value.
  - `emit` appends a sprite built from the arrow, mushroom or eye preset.
  - `update` applies the proximity rules and the sticky `gameOver` flag,
    then runs the system's update.
- **The spawn scheduler** of `ofApp::update` (`Game.Schedule` and
  `Game.App.SpawnEnemies`) decides from the rounded elapsed seconds which
  emitters fire. It also lowers the enemy rate and enters phase 2.
- **`ofApp`** (`Game.App`) covers the object, `setup`, one frame of `update`,
  and the key and mouse handlers.

The clocks, the frame rate and the outcome of the Euler step are parameters.
- A `Tick` carries the `ofGetSystemTimeMillis` reading, the
  `ofGetFrameRate` reading and the Euler step.
- The rounded `ofGetElapsedTimef` reading is the separate `roundedTime`
  parameter of `Game.App.Frame` and `Game.App.SpawnEnemies`.
- Images are opaque handles.

Three readings of the code are worth stating up front:

- The second eye test at `src/ofApp.cpp:462` is `roundedTime % enemyRate * 2 == 0`.
  C++ parses it as `(roundedTime % enemyRate) * 2 == 0`, and it is modelled
  that way.
  - Inside the enclosing branch the remainder is already zero, so in phase 2
    the eye emitter fires on every spawn tick (`Game.EyeEveryTickInPhase2`).
- C++ `%` and `/` on `int` truncate toward zero.
  - Row selection uses `Basics.TruncDiv`.
  - The scheduler's remainders are only compared with zero, and for such
    tests truncation and Dafny's Euclidean `%` agree
    (`Game.RemainderZeroAgrees`).
- The C++ leaves many members uninitialised: a Sprite's tile counts,
  positions and sizes, `lastTimeRec`, and `ofApp::phase2`.
  - The Dafny constructors leave the positions, sizes, `lastTimeRec` and
    `phase2` unassigned, so the proofs hold for every value those might hold.
  - The tile counts are the exception. The corrected `Sprite` constructor
    gives a one-tile sheet of one frame, and the as-written case, where a
    tile count may be 0, is kept apart (see Findings).

Three edge behaviours of the code are modelled as written:

- A frame advances only when strictly more than 50 ms have passed.
- The attack and game-over thresholds compare with `<=`.
- `spriteSystem::update` moves its survivors after culling them. A survivor
  may therefore end a pass outside the field, and it is culled on the next
  pass.

## Model

| member | source | states |
|---|---|---|
| Basics.TruncDiv | src/ofApp.cpp:55 | C++ integer division truncates toward zero: it equals Dafny's division for a non-negative dividend and is the negated quotient of the magnitude for a negative one |
| Basics.Abs | src/ofApp.cpp:140 | the absolute value used by the collision test is non-negative and is either the value or its negation |
| Sprites.SpriteState.AdvanceFrame | src/ofApp.cpp:43-57 | advanceFrame changes only `frame`, `row` and `col` |
| Sprites.SpriteState.StartAnim | src/ofApp.cpp:17-22 | startAnim as a value: the animation runs from frame 0 with the time stamp set; its effect on the tile is stated by `Sprites.StartAnimRealignsOnlyFromFirstTile` |
| Sprites.SpriteState.StopAnim | src/ofApp.cpp:24-26 | stopAnim as a value: only the running flag is cleared; `Sprites.UpdateWhenStopped` states that update then does nothing |
| Sprites.SpriteState.IsColliding | src/ofApp.cpp:128-144 | the box-overlap test; its meaning is stated by `Sprites.CollisionSymmetric`, `Sprites.TouchingBoxesDoNotCollide`, `Sprites.CollisionReadsOnlyBox` and `Sprites.CollidingIffSharedPoint` |
| Sprites.SpriteState.Integrate | src/ofApp.cpp:67-122 | integrate changes only the position, the velocity and the accumulated force, which it always leaves at zero; the queued forces are never cleared |
| Sprites.SpriteState.Update | src/ofApp.cpp:28-40 | Sprite::update changes only the animation fields, the time stamp, the position, the velocity and the force |
| Sprites.LastFrameLoopsOrHolds | src/ofApp.cpp:44-51 | on the last frame a looping sprite goes back to frame, row and column 0, while the bow changes nothing |
| Sprites.StepToNextFrame | src/ofApp.cpp:52-56 | off the last frame the frame grows by exactly one, the column wraps at the sheet width and the row is the new frame divided by the width |
| Sprites.NextFrame | src/ofApp.cpp:44-53 | the frame advanceFrame moves to: the next one, or 0 after the last one, or the last one again for the bow |
| Sprites.AdvanceFrameKeepsTile | src/ofApp.cpp:43-57 | advanceFrame keeps `0 <= frame < nframes`, `row == frame / ntiles_x` and `col == frame % ntiles_x` |
| Sprites.FrameStaysInRange | src/ofApp.cpp:43-57 | advanceFrame keeps `0 <= frame < nframes` on its own, whatever row and column the sprite shows |
| Sprites.ColumnStaysInStep | src/ofApp.cpp:43-57 | advanceFrame keeps `col == frame % ntiles_x` whenever it held before, whatever the row |
| Sprites.UpdateKeepsFrameInRange | src/ofApp.cpp:28-40 | update keeps `0 <= frame < nframes` |
| Sprites.AdvanceFrames | src/ofApp.cpp:43-57 | any number of frame advances changes only `frame`, `row` and `col` |
| Sprites.AdvanceFramesKeepTile | src/ofApp.cpp:43-57 | the tile invariant survives any number of frame advances |
| Sprites.LoopingAnimationCycles | src/ofApp.cpp:44-56 | after k advances a looping sprite on a frame its sheet has shows frame `(frame + k) % nframes`, whether or not its row and column are in step, as after the player's jump or run-pose reset |
| Sprites.BowAnimationHolds | src/ofApp.cpp:44-51 | after k advances a bow on a frame its sheet has shows frame `min(frame + k, nframes - 1)`: it climbs to its last frame and stays there, whether or not its row and column are in step |
| Sprites.TileWithinSheet | src/ofApp.cpp:60 | when the sheet has a tile for every frame, the row and column drawn lie inside the sheet |
| Sprites.StartAnimRealignsOnlyFromFirstTile | src/ofApp.cpp:17-22 | startAnim rewinds the frame and starts the animation but leaves row and column alone, so the tile stays in step exactly when it was the first one |
| Sprites.UpdateWhenStopped | src/ofApp.cpp:28-29 | a stopped animation makes update a no-op |
| Sprites.UpdateCadence | src/ofApp.cpp:28-35 | update advances exactly one frame and stamps the time exactly when the animation runs and strictly more than 50 ms have passed; otherwise frame, tile and stamp are unchanged. It needs a non-zero tile count only when a frame is due and is not the last one, the one case that divides |
| Sprites.UpdateKeepsTile | src/ofApp.cpp:28-40 | update keeps the tile invariant and never touches the lifespan |
| Sprites.IntegrateGuard | src/ofApp.cpp:75-79 | below 5 frames per second integrate only clears the force |
| Sprites.CollisionSymmetric | src/ofApp.cpp:128-144 | `a.isColliding(b)` exactly when `b.isColliding(a)` |
| Sprites.TouchingBoxesDoNotCollide | src/ofApp.cpp:140 | boxes whose edges exactly touch on either axis do not collide (strict `<`) |
| Sprites.CollisionReadsOnlyBox | src/ofApp.cpp:128-144 | the collision test depends only on the positions' x and y and the collision boxes |
| Sprites.CollidingIffSharedPoint | src/ofApp.cpp:128-144 | for boxes of positive size, isColliding holds exactly when some point lies strictly inside both boxes |
| Sprites.Sprite.constructor | src/ofApp.cpp:4-15 | a new sprite has zero velocity, acceleration and force, no queued forces, lifespan 500000, birth time 0, mass 1, damping 0.99, and (corrected, see Findings) a one-tile sheet of one frame; with the member initialisers of src/ofApp.h:32-42 it is neither a bow nor moving nor using gravity, animates, and is stopped at frame, row and column 0 |
| Sprites.Sprite.StartAnim | src/ofApp.cpp:17-22 | the object's state becomes exactly `StartAnim` of its old state |
| Sprites.Sprite.StopAnim | src/ofApp.cpp:24-26 | the object's state becomes exactly `StopAnim` of its old state |
| Sprites.Sprite.AdvanceFrame | src/ofApp.cpp:43-57 | the in-place advanceFrame, with C++ truncating division, yields exactly `AdvanceFrame` of the old state |
| Sprites.Sprite.Integrate | src/ofApp.cpp:67-122 | the in-place integrate yields exactly `Integrate` of the old state |
| Sprites.Sprite.Update | src/ofApp.cpp:28-40 | the in-place update, calling advanceFrame and integrate on the object, yields exactly `Update` of the old state |
| Sprites.Sprite.AddForce | src/ofApp.cpp:124-126 | addForce appends the force to the queued forces and changes nothing else |
| SpriteSystems.MarkOutOfBounds | src/ofApp.cpp:166-170 | a sprite is marked dead by the bounds pass exactly when it is dead already or off the closed field [0,1024]x[0,768]; only the lifespan can change, and a kept sprite is unchanged |
| SpriteSystems.Survivors | src/ofApp.cpp:175-183 | every sprite kept is alive, on the field and one of the originals, and no more sprites are kept than there were |
| SpriteSystems.SurvivorsAppend | src/ofApp.cpp:175-183 | the culling distributes over concatenation, so it keeps relative order |
| SpriteSystems.SurvivorsCount | src/ofApp.cpp:175-183 | each sprite the culling keeps appears as often as in the original, and each it drops not at all |
| SpriteSystems.SurvivorsMembers | src/ofApp.cpp:175-183 | a sprite survives exactly when it was in the system, alive and on the field |
| SpriteSystems.SurvivorsIdempotent | src/ofApp.cpp:175-183 | culling an already culled system changes nothing |
| SpriteSystems.SurvivorsOfEmpty | src/ofApp.cpp:160 | an empty system stays empty |
| SpriteSystems.UpdateAll | src/ofApp.cpp:187-189 | the update pass as a value, each sprite updated in place in order; `SpriteSystems.UpdateAllKeeps` states what it keeps |
| SpriteSystems.KillHits | src/ofApp.cpp:200-210 | checkCollision as a value keeps the length and the tile invariant; `SpriteSystems.KillHitsMarksExactlyHits` states which sprites it marks |
| SpriteSystems.UpdateAllKeeps | src/ofApp.cpp:187-189 | updating every sprite keeps the count, each lifespan and the tile invariant |
| SpriteSystems.SystemUpdateInvariant | src/ofApp.cpp:158-190 | after a whole system update no sprite is dead and every sprite still shows the tile its frame selects |
| SpriteSystems.KillHitsMarksExactlyHits | src/ofApp.cpp:200-210 | checkCollision keeps the length, changes only lifespans, and a receiver sprite ends dead exactly when it was dead or overlaps a sprite of the argument |
| SpriteSystems.MutualCollision | src/ofApp.cpp:420-421 | checking A against B and then B against the marked A kills both sprites of every overlapping pair and leaves a B sprite that overlaps nothing unchanged |
| SpriteSystems.CollisionThenCull | src/ofApp.cpp:200-210 | after checkCollision the next update keeps exactly the sprites it would have kept that overlapped nothing |
| SpriteSystems.SpriteSystem.constructor | src/ofApp.h:50 | a new system is empty |
| SpriteSystems.SpriteSystem.AddSprite | src/ofApp.cpp:148-150 | addSprite appends a copy at the end |
| SpriteSystems.SpriteSystem.CopyFrom | src/ofApp.cpp:358 | the copy assignment gives the receiver the argument's sprites |
| SpriteSystems.SpriteSystem.Update | src/ofApp.cpp:158-190 | the three passes leave exactly the updated survivors of the old sprites, in order |
| SpriteSystems.SpriteSystem.KillOutOfBounds | src/ofApp.cpp:166-170 | the bounds pass marks each sprite exactly as `MarkOutOfBounds` does and keeps the count |
| SpriteSystems.SpriteSystem.EraseDead | src/ofApp.cpp:175-183 | the erase loop, stepping past survivors only, leaves exactly the survivors in order: no sprite skipped, none visited twice |
| SpriteSystems.SpriteSystem.UpdateEach | src/ofApp.cpp:187-189 | every sprite is updated once, in place |
| SpriteSystems.SpriteSystem.CheckCollision | src/ofApp.cpp:200-210 | the receiver ends with exactly `KillHits` of its old sprites against the argument's; the marks on the argument's copy are lost, and the argument is not modified |
| SpriteSystems.SpriteSystem.MarkAgainst | src/ofApp.cpp:202-207 | the inner loop marks receiver sprite i dead exactly when it overlaps some sprite of the copy, and keeps the copy's boxes |
| Emitters.AttackPoses | src/ofApp.cpp:263-283 | the proximity rules keep the count and change nothing but the vertical tile offset |
| Emitters.Preset | src/ofApp.cpp:212-255 | the sprite emit builds: the common fields, the arrow, mushroom and eye branches, then startAnim at the emit time; what each preset writes is stated by `Emitters.PresetCommon`, `Emitters.PresetArrow`, `Emitters.PresetMushroom` and `Emitters.PresetEye` |
| Emitters.CommonPreset | src/ofApp.cpp:212-219 | the fields every archetype gets, stated by `Emitters.PresetCommon` |
| Emitters.ArrowPreset | src/ofApp.cpp:220-223 | the arrow branch, stated by `Emitters.PresetArrow` |
| Emitters.MushroomPreset | src/ofApp.cpp:226-240 | the mushroom branch, stated by `Emitters.PresetMushroom` |
| Emitters.EyePreset | src/ofApp.cpp:242-253 | the eye branch, stated by `Emitters.PresetEye` |
| Emitters.ReachesPlayer | src/ofApp.cpp:268-280 | the emitter is a mushroom or eye emitter and one of its sprites is at x <= 150; `Emitters.Emitter.Update` and `Emitters.Emitter.AttackWithin` latch gameOver exactly on it |
| Emitters.AfterUpdate | src/ofApp.cpp:260-288 | an emitter update as a value keeps every sprite alive and every tile in step; `Emitters.Emitter.Update` is proved to end exactly in it |
| Emitters.PresetCommon | src/ofApp.cpp:212-219 | every emitted sprite starts its animation at frame 0 at the emit time, moves, and copies position, velocity, image and draw mode from the emitter, with the constructor's lifespan and mass |
| Emitters.PresetArrow | src/ofApp.cpp:220-223 | an arrow uses gravity, has a 10x2 collision box centred on the emitter, accelerates (200,200,200), and keeps the constructor's tile grid |
| Emitters.PresetMushroom | src/ofApp.cpp:226-240 | a mushroom has a 4x3 sheet of 8 frames, is 150x150 with a 150x150 box offset by 50, no acceleration and zero tile offsets |
| Emitters.PresetEye | src/ofApp.cpp:242-253 | an eye has a 4x2 sheet of 8 frames, is 150x150 with a 150x150 box, no acceleration and zero tile offsets |
| Emitters.ArrowGridIndeterminate | src/ofApp.cpp:220-223 | as written, a constructed sprite may hold tile count 0, and the arrow branch leaves it so while startAnim runs the animation: 51 ms later a frame is due, it is not the last frame, and the tile count is 0, so update reaches the division of line 55 |
| Emitters.PresetTiled | src/ofApp.cpp:212-255 | with the corrected constructor every emitted sprite shows the tile its frame selects and its sheet has a tile for every frame |
| Emitters.AttackPosesExactly | src/ofApp.cpp:263-283 | sprites in reach (x <= 188 for mushrooms, x <= 190 for eyes) get offset 300; all others keep theirs |
| Emitters.AttackPosesKeepTiles | src/ofApp.cpp:263-283 | the proximity rules keep the tile invariant |
| Emitters.Emitter.constructor | src/ofApp.h:64-74 | a new emitter animates, has no archetype, zero velocity, gameOver false and an empty system of its own |
| Emitters.Emitter.AssignSystem | src/ofApp.cpp:358 | `system = other` copies the sprites into the emitter's own system |
| Emitters.Emitter.Emit | src/ofApp.cpp:212-258 | emit appends exactly one sprite, built by the presets from a freshly constructed sprite, and keeps every earlier sprite |
| Emitters.Emitter.AttackWithin | src/ofApp.cpp:264-272 | one proximity loop (reach 188 or 190) sets offset 300 exactly on the sprites at x <= reach, changes no other sprite, and gameOver becomes true exactly when it was or some sprite is at x <= 150 |
| Emitters.Emitter.Update | src/ofApp.cpp:260-288 | the new sprites are the updated survivors of the attack poses; gameOver is never reset and is set exactly when an enemy reached x <= 150 |
| Game.MushroomCadence | src/ofApp.cpp:456-460 | the mushroom emitter fires exactly when `roundedTime % enemyRate == 0` and the previous pass did not spawn |
| Game.JustSpawnedTracksTick | src/ofApp.cpp:456-484 | `justSpawned` becomes true on a multiple of the rate and false otherwise |
| Game.RateFloor | src/ofApp.cpp:474-481 | the rate only drops by one, only from above 2, and never below 2 |
| Game.Phase2Latch | src/ofApp.cpp:474-481 | phase 2 is entered on a ramp-up tick at rate 2 and never left |
| Game.EyeEveryTickInPhase2 | src/ofApp.cpp:462-469 | on a spawn tick the eye emitter fires once if in phase 2 and once more on every fourth multiple |
| Game.NoDoubleSpawn | src/ofApp.cpp:456-484 | a second pass in the same rounded second after a spawn emits nothing |
| Game.NothingBetweenTicks | src/ofApp.cpp:456-484 | off the rate's multiples nothing is emitted and only `justSpawned` changes, to false |
| Game.Schedule | src/ofApp.cpp:456-486 | the spawn block as a plan (mushroom or not, how many eyes, the next rate, `justSpawned` and phase 2); its meaning is stated by `Game.MushroomCadence`, `Game.JustSpawnedTracksTick`, `Game.RateFloor`, `Game.Phase2Latch`, `Game.EyeEveryTickInPhase2`, `Game.NoDoubleSpawn` and `Game.NothingBetweenTicks` |
| Game.RemainderZeroAgrees | src/ofApp.cpp:456 | the C++ truncated remainder is zero exactly when Dafny's is |
| Game.HitsAnyIgnoresMarks | src/ofApp.cpp:420-424 | marking one system does not change whom it overlaps |
| Game.CollisionRound | src/ofApp.cpp:420-424 | the four checkCollision calls mark every mushroom and eye that overlaps an arrow and every arrow that overlaps a mushroom or an eye, and change nothing else |
| Game.Collisions | src/ofApp.cpp:420-424 | the collision round on the three emitters' sprites keeps every system's length, the flags and the tile invariant; `Game.CollisionRound` states which sprites it marks |
| Game.EmittersUpdated | src/ofApp.cpp:450-452 | the three emitter updates as a value keep every tile in step; each system becomes its `AfterUpdate` and each flag is latched on `ReachesPlayer` |
| Game.Spawned | src/ofApp.cpp:456-482 | what the spawn block emits: the mushroom and eye systems are followed by exactly the sprites the plan spawns, and nothing else changes |
| Game.EnemiesUpdated | src/ofApp.cpp:450-486 | the emitter updates followed by the spawn block, as a relation between the enemies before and after |
| Game.PlayerStep | src/ofApp.cpp:426-437 | the player keeps a tile grid and a frame its sheet has, and from frame 15 on is back on the six-frame running sheet |
| Game.BowStep | src/ofApp.cpp:439-442 | the bow keeps its grid and a frame its sheet has, and from frame 23 on its animation stops and its frame stays |
| Game.ReleasedBowOutOfStep | src/ofApp.cpp:600-601 | the release writes the frame but not the tile, so a drawn bow in step at frame 10 is out of step at frame 11 of 24, and still climbs to frame 23 and holds there |
| Game.AdvancePlayerAndBow | src/ofApp.cpp:426-443 | the player and the bow, two distinct objects, end exactly in `PlayerStep` and `BowStep` of their old states and keep a tile grid |
| Game.JumpLastFrameResets | src/ofApp.cpp:544-555 | a jump starts the 16-frame sheet at frame 0 and, on its last frame, the next update puts the player back on the running sheet |
| Game.RunPose | src/ofApp.cpp:426-435 | the running pose as a value; `Game.SetRunPose` is proved to write exactly it and `Game.PlayerStep` applies it from frame 15 on |
| Game.JumpPose | src/ofApp.cpp:544-553 | the jump pose as a value; `Game.SetJumpPose` is proved to write exactly it and `Game.JumpLastFrameResets` states where it leads |
| Game.PlayerSetup | src/ofApp.cpp:329-338 | the player's setup as a value; `Game.SetUpPlayer` is proved to write exactly it and `Game.PlayerSetupTiled` states its tile invariant |
| Game.BowSetup | src/ofApp.cpp:341-348 | the bow's setup as a value; `Game.SetUpBow` is proved to write exactly it |
| Game.PlayerSetupTiled | src/ofApp.cpp:329-338 | the player set up by setup shows its first tile in step, runs, and its 2x3 sheet holds its 6 frames |
| Game.SetUpPlayer | src/ofApp.cpp:329-338 | the player's setup writes exactly the running sheet, the position and the offsets, then starts the animation |
| Game.SetUpBow | src/ofApp.cpp:341-348 | the bow's setup writes exactly its image, bow flag, position, size and 6x4 sheet of 11 frames, and does not start it |
| Game.SetRunPose | src/ofApp.cpp:426-435 | the reset to the running pose writes exactly those fields and rewinds to frame 0 |
| Game.SetJumpPose | src/ofApp.cpp:544-553 | the jump writes exactly the jump sheet, size and position and rewinds to frame 0 |
| Game.NewArrowEmitter | src/ofApp.cpp:353-359 | the arrow emitter gets the arrow image, its position, no animation, the arrow archetype and a copy of `arrowSystem` |
| Game.NewMushroomEmitter | src/ofApp.cpp:363-369 | the mushroom emitter gets its image, position, velocity (-225,0,0), the mushroom archetype and a copy of `mushroomSystem` |
| Game.NewEyeEmitter | src/ofApp.cpp:372-378 | the eye emitter gets its image, position, velocity (-225,90,0), the eye archetype and a copy of `eyeSystem` |
| Game.App.constructor | src/ofApp.cpp:326-378 | after setup the emitters are configured as above and each owns an empty system distinct from ofApp's; the player runs and the bow waits; with the member initialisers of src/ofApp.h:144-153 the game starts with score 0, enemy rate 5, `justSpawned` and `gameOver` false, and `phase2` arbitrary |
| Game.App.Collide | src/ofApp.cpp:420-424 | the three emitters' sprites and flags become exactly `Collisions` of the old ones, so each checkCollision marks only its receiver, the arrows against the already marked mushrooms and then the eyes; the emitter settings are unchanged |
| Game.App.StepEnemies | src/ofApp.cpp:420-491 | the collision round, the emitter updates and the spawn block: the emitters end exactly as `EnemiesUpdated` says of the `Collisions` of the old ones, and ofApp's own systems are untouched |
| Game.App.SpawnEnemies | src/ofApp.cpp:453-491 | the spawn state moves exactly as `Schedule` says; the mushroom system is followed by exactly the planned mushroom and the eye system by exactly the planned eyes, and the arrows and the emitters' flags do not change (`Spawned`); ofApp's gameOver is latched from the mushroom and eye emitters |
| Game.App.EmitOnTick | src/ofApp.cpp:458-472 | on a spawn tick, exactly the planned mushroom and eye sprites are appended |
| Game.App.UpdateEnemies | src/ofApp.cpp:450-491 | the emitter updates and then the spawn block: the three emitters end exactly as `EnemiesUpdated` relates them to their old sprites and flags, the spawn state follows `Schedule`, and ofApp's gameOver is latched from the enemy emitters |
| Game.App.StepPlayerAndBow | src/ofApp.cpp:426-443 | the player and the bow move exactly as `PlayerStep` and `BowStep` say, and nothing on the enemies' side, the spawn state or gameOver changes |
| Game.App.UpdateEmitters | src/ofApp.cpp:450-452 | the three emitters' sprites and flags become exactly `EmittersUpdated` of the old ones: each system holds the updated survivors of its proximity rules, and each flag becomes true exactly when it was or one of its enemies reached x <= 150 |
| Game.App.Frame | src/ofApp.cpp:393-494 | one frame keeps the emitters apart and the rate at least 2 and never touches ofApp's own three systems; each emitter's sprites and flag end exactly as `EnemiesUpdated` says of the `Collisions` of the old ones; the spawn state follows `Schedule`, gameOver is latched, and the player and the bow step as `PlayerStep` and `BowStep` say |
| Game.App.KeyPressed | src/ofApp.cpp:541-559 | the space key puts the player into the jump pose, any other key changes nothing |
| Game.App.MousePressed | src/ofApp.cpp:578-585 | the bow restarts an 11-frame draw animation at frame 0 |
| Game.App.MouseReleased | src/ofApp.cpp:588-602 | the arrow emitter aims at the mouse and fires exactly one arrow when the bow is on frame 10 and the game is not over, none otherwise; the bow jumps to frame 11 of 24 |

## Left out

- Sprites.SpriteState.Integrate: the Euler step (`pos += velocity * dt`, the
  summed forces, gravity, the `ofRandom` turbulence and the velocity update)
  is not modelled. Floating-point arithmetic and a random source are outside
  this model, so the new position and velocity come in as a `Motion`
  parameter. The frame-rate guard, the clearing of the force and the fact
  that the queued forces are never cleared are modelled.
- Sprites.SpriteState.Update: the new position and velocity of a moving
  sprite are whatever the `Tick`'s `motion` function supplies, for the reason
  above.
- Game.App.Frame: the parallax scrolling of the background layers and the bow's
  `atan2` rotation are left out, because they only move pictures. The player
  and bow steps are taken after the emitter updates and the spawn block rather
  than before them. Neither side reads or writes what the other does, so the
  outcome is the same.
- Clocks: every `ofGetSystemTimeMillis` read during one frame is the same
  `now` of the frame's `Tick`. The rounded `ofGetElapsedTimef` is a parameter,
  `roundedTime`.
- Floats are modelled as reals: single-precision rounding in positions,
  sizes, time stamps and the `lifespan == 0` test is not captured.
- `int` overflow of `frame`, `enemyRate` or the remainders' operands is not
  modelled.
  - Frames stay below `nframes` (`Sprites.UpdateKeepsFrameInRange`, and for
    the player and the bow `Game.PlayerStep` and `Game.BowStep`), and the
    rate only decreases.
- All drawing (`Sprite::draw`, `spriteSystem::draw`, `Emitter::draw`,
  `ofApp::draw`), image and sound loading, sound playback, the GUI slider,
  the console print of the new enemy rate (`cout << enemyRate`,
  src/ofApp.cpp:475) and the empty input handlers are left out. None of them
  changes engine state.
- Dead declarations are left out, because nothing reads or defines them:
  `Sprite::age`, `Emitter::sprites`, `damping`'s use, the unused `ofApp::arrow`
  sprite, and the fields used only for drawing or parallax.
- `glm::vec3` members without initialisers (`pos`, `cPos`) are treated as
  indeterminate, like the other uninitialised members.
- Images are opaque handles: `arrowImage.resize` and the pixel data are not
  modelled.
- The sprite setters (`SetSheet`, `SetLook`, `MoveTo`, `SetOffsets`,
  `SetFrames`) group field writes that the C++ code makes one by one. The
  helpers `NewPlayer`, `NewBow` and `HitsAnySameBoxes` only package proofs.
  None of them has a row above.

## Findings

| source | as written | input that shows it | evidently intended | confidence | as-written member | corrected member |
|---|---|---|---|---|---|---|
| src/ofApp.cpp:220-223 | The arrow branch of `Emitter::emit` sets no `ntiles_x` or `nframes`, and the Sprite constructor (src/ofApp.cpp:4-15) initialises neither. Yet `emit` calls `startAnim` on every archetype (line 255), so `Sprite::update` reaches `row = frame / ntiles_x` (line 55) on an indeterminate tile count. | an arrow emitted at time `now` whose indeterminate `ntiles_x` is 0 and `nframes` is not 1, updated at `now + 51` | every emitted sprite carries a defined, non-zero tile grid; the corrected constructor starts with a one-tile sheet of one frame | medium; not executed | Emitters.ArrowGridIndeterminate | Emitters.PresetTiled |
