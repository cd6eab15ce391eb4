/** The game object ofApp (src/ofApp.h:79-155, src/ofApp.cpp:293-604): the
    player and the bow, three emitters that each own a copy of a sprite system,
    the collision round between arrows and enemies, and the spawn scheduler
    that decides, from the rounded elapsed time, which emitters fire. */
module Game {
  import opened Basics
  import opened Sprites
  import opened SpriteSystems
  import opened Emitters

  /** The enemy rate the game starts with (src/ofApp.h:145). */
  const InitialEnemyRate: int := 5

  //------------------------------------------------------------------ spawn scheduler

  /** The fields of ofApp the spawn scheduler reads and writes. */
  datatype SpawnState = SpawnState(enemyRate: int, justSpawned: bool, phase2: bool)

  /** What one pass of the scheduler does: whether the mushroom emitter fires,
      how many times the eye emitter fires, and the new spawn state. */
  datatype SpawnPlan = SpawnPlan(mushroom: bool, eyes: nat, next: SpawnState)

  /** The spawn block of ofApp::update, as written (src/ofApp.cpp:456-482).

      The C++ remainder truncates toward zero while Dafny's is Euclidean, but the
      two are zero for exactly the same operands, and every remainder here is
      only compared with zero. The second eye test multiplies the remainder, not
      the rate, by two, as C++ precedence parses `t % r * 2`. */
  function Schedule(t: int, st: SpawnState): SpawnPlan
    requires st.enemyRate != 0
  {
    var r := st.enemyRate;
    var j := st.justSpawned;
    if t % r == 0 then
      var eyeEveryTick := !j && st.phase2 && (t % r) * 2 == 0;
      var eyeEveryFourth := t % (r * 4) == 0 && !j;
      var rampUp := t % (r * 10) == 0 && !j;
      SpawnPlan(
        !j,
        (if eyeEveryTick then 1 else 0) + (if eyeEveryFourth then 1 else 0),
        SpawnState(if rampUp && r > 2 then r - 1 else r, true, st.phase2 || (rampUp && r <= 2)))
    else
      SpawnPlan(false, 0, st.(justSpawned := false))
  }

  /** The mushroom emitter fires exactly on a multiple of the rate that does not
      follow a spawn. */
  lemma MushroomCadence(t: int, st: SpawnState)
    requires st.enemyRate != 0
    ensures Schedule(t, st).mushroom <==> t % st.enemyRate == 0 && !st.justSpawned
  {
  }

  /** `justSpawned` records whether this tick was a multiple of the rate. */
  lemma JustSpawnedTracksTick(t: int, st: SpawnState)
    requires st.enemyRate != 0
    ensures Schedule(t, st).next.justSpawned <==> t % st.enemyRate == 0
  {
  }

  /** The rate only ever drops by one, only from above 2, and so never below 2. */
  lemma RateFloor(t: int, st: SpawnState)
    requires st.enemyRate >= 2
    ensures var r' := Schedule(t, st).next.enemyRate;
      r' >= 2 && (r' == st.enemyRate || (st.enemyRate > 2 && r' == st.enemyRate - 1))
  {
  }

  /** Phase 2 starts on a ramp-up tick once the rate is down to 2 and is never
      left again. */
  lemma Phase2Latch(t: int, st: SpawnState)
    requires st.enemyRate >= 2
    ensures var p' := Schedule(t, st).next.phase2;
      p' <==> st.phase2
              || (t % st.enemyRate == 0 && t % (st.enemyRate * 10) == 0 && !st.justSpawned && st.enemyRate == 2)
  {
  }

  /** The precedence of `t % r * 2 == 0`: once phase 2 holds, the eye emitter
      fires on every spawn tick, and twice on every fourth one. */
  lemma EyeEveryTickInPhase2(t: int, st: SpawnState)
    requires st.enemyRate != 0
    requires t % st.enemyRate == 0 && !st.justSpawned
    ensures Schedule(t, st).eyes == (if st.phase2 then 1 else 0) + (if t % (st.enemyRate * 4) == 0 then 1 else 0)
    ensures st.phase2 ==> Schedule(t, st).eyes >= 1
  {
  }

  /** Nothing spawns twice on the same rounded second: a second pass with the
      same rounded time, after a pass that spawned, emits nothing. */
  lemma NoDoubleSpawn(t: int, st: SpawnState)
    requires st.enemyRate >= 2
    ensures var st' := Schedule(t, st).next;
      st'.enemyRate >= 2 && !Schedule(t, st').mushroom && Schedule(t, st').eyes == 0
  {
    RateFloor(t, st);
  }

  /** Nothing spawns off the rate's multiples, whatever the state. */
  lemma NothingBetweenTicks(t: int, st: SpawnState)
    requires st.enemyRate != 0 && t % st.enemyRate != 0
    ensures !Schedule(t, st).mushroom && Schedule(t, st).eyes == 0
    ensures Schedule(t, st).next == st.(justSpawned := false)
  {
  }

  /** The C++ remainder, truncated toward zero, is zero exactly when Dafny's is. */
  lemma RemainderZeroAgrees(a: int, b: int)
    requires b > 0
    ensures a - TruncDiv(a, b) * b == 0 <==> a % b == 0
  {
    if a < 0 {
      var m := -a;
      assert m == (m / b) * b + m % b;
      assert a - TruncDiv(a, b) * b == -(m % b);
      if m % b == 0 {
        DivModUnique(a, b, -(m / b), 0);
      } else {
        assert a == b * (-(m / b) - 1) + (b - m % b);
        DivModUnique(a, b, -(m / b) - 1, b - m % b);
      }
    }
  }

  //------------------------------------------------------------------ collisions

  /** Marking one side does not change whom the other side overlaps. */
  lemma HitsAnyIgnoresMarks(s: SpriteState, xs: seq<SpriteState>, ys: seq<SpriteState>)
    ensures HitsAny(s, KillHits(xs, ys)) <==> HitsAny(s, xs)
  {
    var k := KillHits(xs, ys);
    forall i | 0 <= i < |xs|
      ensures s.IsColliding(k[i]) <==> s.IsColliding(xs[i])
    {
      CollisionReadsOnlyBox(s, xs[i], s, k[i]);
    }
    if HitsAny(s, xs) {
      var i :| 0 <= i < |xs| && s.IsColliding(xs[i]);
      assert s.IsColliding(k[i]);
    }
  }

  /** The collision round of ofApp::update (src/ofApp.cpp:420-424): every
      mushroom and every eye that overlaps an arrow is marked, and every arrow
      that overlaps a mushroom or an eye is marked; nothing else changes. */
  lemma CollisionRound(m: seq<SpriteState>, a: seq<SpriteState>, e: seq<SpriteState>)
    ensures var m1 := KillHits(m, a); var a1 := KillHits(a, m1);
            var e1 := KillHits(e, a1); var a2 := KillHits(a1, e1);
      |m1| == |m| && |e1| == |e| && |a2| == |a|
      && (forall j :: 0 <= j < |m| ==>
            (m1[j] == m[j].(lifespan := m1[j].lifespan)
             && (m1[j].lifespan == 0.0 <==> m[j].lifespan == 0.0 || HitsAny(m[j], a))))
      && (forall k :: 0 <= k < |e| ==>
            (e1[k] == e[k].(lifespan := e1[k].lifespan)
             && (e1[k].lifespan == 0.0 <==> e[k].lifespan == 0.0 || HitsAny(e[k], a))))
      && (forall i :: 0 <= i < |a| ==>
            (a2[i] == a[i].(lifespan := a2[i].lifespan)
             && (a2[i].lifespan == 0.0 <==> a[i].lifespan == 0.0 || HitsAny(a[i], m) || HitsAny(a[i], e))))
  {
    var m1 := KillHits(m, a);
    var a1 := KillHits(a, m1);
    var e1 := KillHits(e, a1);
    var a2 := KillHits(a1, e1);
    KillHitsMarksExactlyHits(m, a);
    KillHitsMarksExactlyHits(a, m1);
    KillHitsMarksExactlyHits(e, a1);
    KillHitsMarksExactlyHits(a1, e1);
    forall k | 0 <= k < |e|
      ensures HitsAny(e[k], a1) <==> HitsAny(e[k], a)
    {
      HitsAnyIgnoresMarks(e[k], a, m1);
    }
    forall i | 0 <= i < |a|
      ensures HitsAny(a[i], m1) <==> HitsAny(a[i], m)
      ensures HitsAny(a1[i], e1) <==> HitsAny(a[i], e)
    {
      HitsAnyIgnoresMarks(a[i], m, a);
      HitsAnyIgnoresMarks(a[i], e, a1);
      forall k | 0 <= k < |e1|
        ensures a1[i].IsColliding(e1[k]) <==> a[i].IsColliding(e1[k])
      {
        CollisionReadsOnlyBox(a1[i], e1[k], a[i], e1[k]);
      }
      if HitsAny(a1[i], e1) {
        var k :| 0 <= k < |e1| && a1[i].IsColliding(e1[k]);
        assert a[i].IsColliding(e1[k]);
      }
      if HitsAny(a[i], e1) {
        var k :| 0 <= k < |e1| && a[i].IsColliding(e1[k]);
        assert a1[i].IsColliding(e1[k]);
      }
    }
  }

  //------------------------------------------------------------------ the enemies of one frame

  /** The sprites and game-over flags of the three emitters, as values. */
  datatype Enemies = Enemies(mushrooms: seq<SpriteState>, arrows: seq<SpriteState>, eyes: seq<SpriteState>,
                             mushroomOver: bool, arrowOver: bool, eyeOver: bool)

  predicate EnemiesTiled(e: Enemies) {
    AllTiled(e.mushrooms) && AllTiled(e.arrows) && AllTiled(e.eyes)
  }

  /** The collision round of ofApp::update (src/ofApp.cpp:420-424): the
      mushrooms against the arrows, the arrows against the marked mushrooms,
      the eyes against the marked arrows, and the arrows against the marked
      eyes. The flags are not touched, and every tile stays in step. */
  function Collisions(e: Enemies): (r: Enemies)
    ensures |r.mushrooms| == |e.mushrooms| && |r.arrows| == |e.arrows| && |r.eyes| == |e.eyes|
    ensures r.mushroomOver == e.mushroomOver && r.arrowOver == e.arrowOver && r.eyeOver == e.eyeOver
    ensures EnemiesTiled(e) ==> EnemiesTiled(r)
  {
    var m1 := KillHits(e.mushrooms, e.arrows);
    var a1 := KillHits(e.arrows, m1);
    var e1 := KillHits(e.eyes, a1);
    e.(mushrooms := m1, arrows := KillHits(a1, e1), eyes := e1)
  }

  /** The settings of the three emitters, which a frame does not change. */
  datatype EmitterSettings = EmitterSettings(mushroom: EmitterConfig, arrow: EmitterConfig, eye: EmitterConfig)

  /** The emitter updates of ofApp::update (src/ofApp.cpp:450-452): each
      emitter's flag is latched when one of its enemies reached the player, and
      each system holds the updated survivors of its proximity rules. */
  function EmittersUpdated(e: Enemies, cfg: EmitterSettings, t: Tick): (r: Enemies)
    requires EnemiesTiled(e)
    ensures EnemiesTiled(r)
  {
    Enemies(AfterUpdate(cfg.mushroom, e.mushrooms, t), AfterUpdate(cfg.arrow, e.arrows, t),
            AfterUpdate(cfg.eye, e.eyes, t),
            e.mushroomOver || ReachesPlayer(cfg.mushroom, e.mushrooms), e.arrowOver || ReachesPlayer(cfg.arrow, e.arrows),
            e.eyeOver || ReachesPlayer(cfg.eye, e.eyes))
  }

  /** The emissions of the spawn block (src/ofApp.cpp:456-482) from `before`
      to `after`: the mushroom and eye systems are followed by the sprites the
      plan spawns, and nothing else changes. */
  ghost predicate Spawned(before: Enemies, after: Enemies, cfg: EmitterSettings, now: real, plan: SpawnPlan)
  {
    after.arrows == before.arrows
    && after.mushroomOver == before.mushroomOver && after.arrowOver == before.arrowOver
    && after.eyeOver == before.eyeOver
    && Appended(before.mushrooms, after.mushrooms, cfg.mushroom, now, if plan.mushroom then 1 else 0)
    && Appended(before.eyes, after.eyes, cfg.eye, now, plan.eyes)
  }

  /** The emitter updates and then the spawn block (src/ofApp.cpp:450-486). */
  ghost predicate EnemiesUpdated(before: Enemies, after: Enemies, cfg: EmitterSettings, t: Tick, plan: SpawnPlan)
    requires EnemiesTiled(before)
  {
    Spawned(EmittersUpdated(before, cfg, t), after, cfg, t.now, plan)
  }

  //------------------------------------------------------------------ player and bow

  /** The images ofApp::setup loads; the files themselves are not modelled. */
  datatype Assets = Assets(horseRun: Image, horseJump: Image, bow: Image,
                           arrow: Image, mushroom: Image, eye: Image)

  /** The player's running pose, which ofApp::update restores once the jump
      animation has reached frame 15 (src/ofApp.cpp:426-436). */
  function RunPose(s: SpriteState, horseRun: Image): SpriteState {
    s.(image := horseRun, width := 80.0, height := 64.0, nTilesX := 2, nTilesY := 3,
       nFrames := 6, pos := Vec3(100.0, 705.0, 0.0), frame := 0)
  }

  /** The jump pose the space key starts (src/ofApp.cpp:546-555). */
  function JumpPose(s: SpriteState, horseJump: Image): SpriteState {
    s.(image := horseJump, nTilesX := 4, nTilesY := 4, nFrames := 16, width := 80.0, height := 82.0,
       pos := s.pos.(x := 100.0, y := 687.0), frame := 0)
  }

  /** One player step of ofApp::update. */
  function PlayerStep(s: SpriteState, horseRun: Image, t: Tick): (r: SpriteState)
    requires s.nTilesX > 0
    ensures r.nTilesX > 0
    ensures s.frame >= 15 ==> r.image == horseRun && r.nTilesX == 2 && r.nFrames == 6
    ensures 0 <= s.frame < s.nFrames ==> 0 <= r.frame < r.nFrames
  {
    var posed := if s.frame >= 15 then RunPose(s, horseRun) else s;
    if 0 <= posed.frame < posed.nFrames then UpdateKeepsFrameInRange(posed, t); posed.Update(t)
    else posed.Update(t)
  }

  /** One bow step of ofApp::update: the draw-and-release animation stops at frame 23. */
  function BowStep(s: SpriteState, t: Tick): (r: SpriteState)
    requires s.nTilesX > 0
    ensures r.nTilesX == s.nTilesX
    ensures s.frame >= 23 ==> !r.animRunning && r.frame == s.frame
    ensures 0 <= s.frame < s.nFrames ==> 0 <= r.frame < r.nFrames
  {
    var held := if s.frame >= 23 then s.StopAnim() else s;
    if 0 <= held.frame < held.nFrames then UpdateKeepsFrameInRange(held, t); held.Update(t)
    else held.Update(t)
  }

  /** A jump runs the 16-frame jump sheet from its first frame; the reset in
      ofApp::update then brings the player back to the run sheet on frame 15,
      the jump's last frame. */
  lemma JumpLastFrameResets(s: SpriteState, img: Image, run: Image, t: Tick)
    requires s.nTilesX > 0
    ensures JumpPose(s, img).frame == 0 && JumpPose(s, img).nFrames == 16
    ensures var last := JumpPose(s, img).(frame := JumpPose(s, img).nFrames - 1);
      PlayerStep(last, run, t).image == run && PlayerStep(last, run, t).nFrames == 6
  {
  }

  /** The release of ofApp::mouseReleased (src/ofApp.cpp:600-601) writes the
      frame but not the tile: a fully drawn bow on its 6-wide sheet, in step at
      frame 10, is out of step afterwards, yet still climbs to its last frame
      and holds there. */
  lemma ReleasedBowOutOfStep(s: SpriteState, k: nat)
    requires s.TileInvariant() && s.isBow && s.nTilesX == 6 && s.frame == 10
    ensures !s.(frame := 11, nFrames := 24).TileInvariant()
    ensures AdvanceFrames(s.(frame := 11, nFrames := 24), k).frame == Min(11 + k, 23)
  {
    BowAnimationHolds(s.(frame := 11, nFrames := 24), k);
  }

  /** The player's part of ofApp::setup, before its startAnim (src/ofApp.cpp:329-337). */
  function PlayerSetup(s: SpriteState, horseRun: Image): SpriteState {
    s.(image := horseRun, pos := Vec3(100.0, 705.0, 0.0), width := 80.0, height := 64.0,
       nTilesX := 2, nTilesY := 3, vOff := 0.0, hOff := 0.0, nFrames := 6)
  }

  /** The bow's part of ofApp::setup (src/ofApp.cpp:341-348). */
  function BowSetup(s: SpriteState, bowImage: Image): SpriteState {
    s.(image := bowImage, isBow := true, pos := Vec3(132.0, 703.0, 0.0), width := 35.0, height := 45.0,
       nTilesX := 6, nTilesY := 4, nFrames := 11)
  }

  /** A freshly constructed player, once set up, shows the first tile of its
      six-frame running sheet and animates. */
  lemma PlayerSetupTiled(s: SpriteState, horseRun: Image, now: real)
    requires ConstructedWithGrid(s)
    ensures var r := PlayerSetup(s, horseRun).StartAnim(now);
      r.TileInvariant() && r.animRunning && r.nFrames == 6 && r.nFrames <= r.nTilesX * r.nTilesY
  {
  }

  method SetUpPlayer(p: Sprite, horseRun: Image, now: real)
    modifies p
    ensures p.State() == PlayerSetup(old(p.State()), horseRun).StartAnim(now)
  {
    p.SetLook(horseRun, 80.0, 64.0);
    p.MoveTo(Vec3(100.0, 705.0, 0.0));
    p.SetSheet(2, 3, 6);
    p.SetOffsets(0.0, 0.0);
    p.StartAnim(now);
  }

  method SetUpBow(b: Sprite, bowImage: Image)
    modifies b
    ensures b.State() == BowSetup(old(b.State()), bowImage)
  {
    b.SetLook(bowImage, 35.0, 45.0);
    b.isBow := true;
    b.MoveTo(Vec3(132.0, 703.0, 0.0));
    b.SetSheet(6, 4, 11);
  }

  method SetRunPose(p: Sprite, horseRun: Image)
    modifies p
    ensures p.State() == RunPose(old(p.State()), horseRun)
  {
    p.SetLook(horseRun, 80.0, 64.0);
    p.SetSheet(2, 3, 6);
    p.MoveTo(Vec3(100.0, 705.0, 0.0));
    p.frame := 0;
  }

  method SetJumpPose(p: Sprite, horseJump: Image)
    modifies p
    ensures p.State() == JumpPose(old(p.State()), horseJump)
  {
    p.SetLook(horseJump, 80.0, 82.0);
    p.SetSheet(4, 4, 16);
    p.MoveTo(p.pos.(x := 100.0, y := 687.0));
    p.frame := 0;
  }

  /** A player as ofApp::setup leaves it (src/ofApp.cpp:329-338). */
  method NewPlayer(horseRun: Image, now: real) returns (p: Sprite)
    ensures fresh(p)
    ensures p.State().TileInvariant() && p.animRunning && p.nFrames == 6 && p.image == horseRun
  {
    p := new Sprite();
    PlayerSetupTiled(p.State(), horseRun, now);
    SetUpPlayer(p, horseRun, now);
  }

  /** A bow as ofApp::setup leaves it (src/ofApp.cpp:341-348). */
  method NewBow(bowImage: Image) returns (b: Sprite)
    ensures fresh(b)
    ensures b.isBow && b.nTilesX == 6 && b.nFrames == 11 && b.frame == 0 && !b.animRunning && b.image == bowImage
  {
    b := new Sprite();
    SetUpBow(b, bowImage);
  }

  /** The arrow emitter's part of ofApp::setup (src/ofApp.cpp:351-358). */
  method NewArrowEmitter(arrowImage: Image, source: SpriteSystem) returns (e: Emitter)
    requires AllTiled(source.sprites)
    ensures fresh(e) && fresh(e.system) && !e.gameOver && e.Valid()
    ensures e.Config() == EmitterConfig(arrowImage, false, false, true, false, Zero, Vec3(132.0, 710.0, 0.0))
    ensures e.system.sprites == source.sprites
  {
    e := new Emitter();
    e.spriteImage := arrowImage;
    e.pos := Vec3(132.0, 710.0, 0.0);
    e.animates := false;
    e.AssignSystem(source);
    e.arrow := true;
  }

  /** The mushroom emitter's part of ofApp::setup (src/ofApp.cpp:362-369). */
  method NewMushroomEmitter(mushroomImage: Image, source: SpriteSystem) returns (e: Emitter)
    requires AllTiled(source.sprites)
    ensures fresh(e) && fresh(e.system) && !e.gameOver && e.Valid()
    ensures e.Config()
      == EmitterConfig(mushroomImage, true, true, false, false, Vec3(-225.0, 0.0, 0.0), Vec3(850.0, 665.0, 0.0))
    ensures e.system.sprites == source.sprites
  {
    e := new Emitter();
    e.spriteImage := mushroomImage;
    e.pos := Vec3(850.0, 665.0, 0.0);
    e.animates := true;
    e.mushroom := true;
    e.velocity := Vec3(-225.0, 0.0, 0.0);
    e.AssignSystem(source);
  }

  /** The player and bow steps of ofApp::update (src/ofApp.cpp:426-443): the
      run pose comes back once the jump reaches frame 15, the bow stops at
      frame 23, and both sprites update. */
  method AdvancePlayerAndBow(player: Sprite, bow: Sprite, horseRun: Image, t: Tick)
    requires player != bow && player.nTilesX > 0 && bow.nTilesX > 0
    modifies player, bow
    ensures player.nTilesX > 0 && bow.nTilesX > 0
    ensures player.State() == PlayerStep(old(player.State()), horseRun, t)
    ensures bow.State() == BowStep(old(bow.State()), t)
  {
    if player.frame >= 15 {
      SetRunPose(player, horseRun);
    }
    player.Update(t);

    if bow.frame >= 23 {
      bow.StopAnim();
    }
    bow.Update(t);
  }

  /** The eye emitter's part of ofApp::setup (src/ofApp.cpp:372-378). */
  method NewEyeEmitter(eyeImage: Image, source: SpriteSystem) returns (e: Emitter)
    requires AllTiled(source.sprites)
    ensures fresh(e) && fresh(e.system) && !e.gameOver && e.Valid()
    ensures e.Config()
      == EmitterConfig(eyeImage, true, false, false, true, Vec3(-225.0, 90.0, 0.0), Vec3(900.0, 300.0, 0.0))
    ensures e.system.sprites == source.sprites
  {
    e := new Emitter();
    e.spriteImage := eyeImage;
    e.pos := Vec3(900.0, 300.0, 0.0);
    e.animates := true;
    e.eye := true;
    e.velocity := Vec3(-225.0, 90.0, 0.0);
    e.AssignSystem(source);
  }

  //------------------------------------------------------------------ the object

  class App {
    var player: Sprite
    var bow: Sprite
    var mushroomSystem: SpriteSystem
    var arrowSystem: SpriteSystem
    var eyeSystem: SpriteSystem
    var mushroomEmitter: Emitter
    var arrowEmitter: Emitter
    var eyeEmitter: Emitter
    var horseRun: Image
    var horseJump: Image
    var score: int
    var enemyRate: int
    var justSpawned: bool
    var phase2: bool
    var gameOver: bool

    function Spawn(): SpawnState
      reads this
    {
      SpawnState(enemyRate, justSpawned, phase2)
    }

    /** The enemies' part of the game state. */
    ghost function EnemyView(): Enemies
      reads this`mushroomEmitter, this`arrowEmitter, this`eyeEmitter
      reads mushroomEmitter`system, arrowEmitter`system, eyeEmitter`system
      reads mushroomEmitter`gameOver, arrowEmitter`gameOver, eyeEmitter`gameOver
      reads mushroomEmitter.system`sprites, arrowEmitter.system`sprites, eyeEmitter.system`sprites
    {
      Enemies(mushroomEmitter.system.sprites, arrowEmitter.system.sprites, eyeEmitter.system.sprites,
              mushroomEmitter.gameOver, arrowEmitter.gameOver, eyeEmitter.gameOver)
    }

    /** The settings of the three emitters. */
    function Settings(): EmitterSettings
      reads this`mushroomEmitter, this`arrowEmitter, this`eyeEmitter
      reads mushroomEmitter, arrowEmitter, eyeEmitter
    {
      EmitterSettings(mushroomEmitter.Config(), arrowEmitter.Config(), eyeEmitter.Config())
    }

    /** The emitters are distinct objects, each owning a system of its own
        that is none of the systems declared in ofApp; the rate is at least 2;
        every emitted sprite shows the tile its frame selects. */
    ghost predicate Valid()
      reads this`mushroomEmitter, this`arrowEmitter, this`eyeEmitter, this`enemyRate
      reads this`mushroomSystem, this`arrowSystem, this`eyeSystem
      reads mushroomEmitter`system, arrowEmitter`system, eyeEmitter`system
      reads mushroomEmitter.system, arrowEmitter.system, eyeEmitter.system
    {
      mushroomEmitter != arrowEmitter && mushroomEmitter != eyeEmitter && arrowEmitter != eyeEmitter
      && mushroomEmitter.system != arrowEmitter.system && mushroomEmitter.system != eyeEmitter.system
      && arrowEmitter.system != eyeEmitter.system
      && mushroomEmitter.system != mushroomSystem && mushroomEmitter.system != arrowSystem
      && mushroomEmitter.system != eyeSystem
      && arrowEmitter.system != mushroomSystem && arrowEmitter.system != arrowSystem
      && arrowEmitter.system != eyeSystem
      && eyeEmitter.system != mushroomSystem && eyeEmitter.system != arrowSystem
      && eyeEmitter.system != eyeSystem
      && enemyRate >= 2
      && mushroomEmitter.Valid() && arrowEmitter.Valid() && eyeEmitter.Valid()
    }

    /** The player and the bow are two objects with a non-empty tile grid, each
        on a frame its sheet has. */
    predicate SpritesReady()
      reads this`player, this`bow, player, bow
    {
      player != bow && player.nTilesX > 0 && bow.nTilesX > 0
      && 0 <= player.frame < player.nFrames && 0 <= bow.frame < bow.nFrames
    }

    /** ofApp's member initialisers followed by ofApp::setup
        (src/ofApp.h:119-153, src/ofApp.cpp:327-378); `now` is the clock reading
        of the player's startAnim, and `phase2` stays indeterminate. */
    constructor (assets: Assets, now: real)
      ensures Valid() && SpritesReady()
      ensures enemyRate == InitialEnemyRate && !justSpawned && !gameOver && score == 0
      ensures player.State().TileInvariant() && player.animRunning && player.nFrames == 6
      ensures bow.isBow && bow.nTilesX == 6 && bow.nFrames == 11 && !bow.animRunning
      ensures arrowEmitter.Config() == EmitterConfig(assets.arrow, false, false, true, false, Zero, Vec3(132.0, 710.0, 0.0))
      ensures mushroomEmitter.Config()
        == EmitterConfig(assets.mushroom, true, true, false, false, Vec3(-225.0, 0.0, 0.0), Vec3(850.0, 665.0, 0.0))
      ensures eyeEmitter.Config()
        == EmitterConfig(assets.eye, true, false, false, true, Vec3(-225.0, 90.0, 0.0), Vec3(900.0, 300.0, 0.0))
      ensures !mushroomEmitter.gameOver && !eyeEmitter.gameOver
      ensures arrowEmitter.system.sprites == arrowSystem.sprites == []
      ensures mushroomEmitter.system.sprites == mushroomSystem.sprites == []
      ensures eyeEmitter.system.sprites == eyeSystem.sprites == []
    {
      var ms := new SpriteSystem();
      var rs := new SpriteSystem();
      var es := new SpriteSystem();
      var p := NewPlayer(assets.horseRun, now);
      var b := NewBow(assets.bow);
      var ae := NewArrowEmitter(assets.arrow, rs);
      var me := NewMushroomEmitter(assets.mushroom, ms);
      var ee := NewEyeEmitter(assets.eye, es);
      player, bow := p, b;
      mushroomSystem, arrowSystem, eyeSystem := ms, rs, es;
      arrowEmitter, mushroomEmitter, eyeEmitter := ae, me, ee;
      score := 0;
      enemyRate := InitialEnemyRate;
      justSpawned := false;
      gameOver := false;
      horseRun, horseJump := assets.horseRun, assets.horseJump;
    }

    /** The collision round of ofApp::update (src/ofApp.cpp:420-424). Each call
        receives the other system by value, so each marks only its receiver. */
    method Collide()
      requires Valid()
      modifies mushroomEmitter.system, arrowEmitter.system, eyeEmitter.system
      ensures Valid() && Settings() == old(Settings())
      ensures EnemyView() == Collisions(old(EnemyView()))
    {
      mushroomEmitter.system.CheckCollision(arrowEmitter.system);
      arrowEmitter.system.CheckCollision(mushroomEmitter.system);
      eyeEmitter.system.CheckCollision(arrowEmitter.system);
      arrowEmitter.system.CheckCollision(eyeEmitter.system);
    }

    /** The spawn block and the game-over latch of ofApp::update
        (src/ofApp.cpp:453-491), with the rounded elapsed seconds and the clock
        of each new sprite passed in. */
    method SpawnEnemies(roundedTime: int, now: real)
      requires Valid()
      modifies mushroomEmitter.system, eyeEmitter.system, this`enemyRate, this`justSpawned, this`phase2, this`gameOver
      ensures Valid() && Settings() == old(Settings())
      ensures Spawn() == Schedule(roundedTime, old(Spawn())).next
      ensures gameOver == (old(gameOver) || mushroomEmitter.gameOver || eyeEmitter.gameOver)
      ensures Spawned(old(EnemyView()), EnemyView(), old(Settings()), now, Schedule(roundedTime, old(Spawn())))
    {
      if roundedTime % enemyRate == 0 {
        EmitOnTick(roundedTime, now);
        if roundedTime % (enemyRate * 10) == 0 && !justSpawned {
          if enemyRate > 2 {
            enemyRate := enemyRate - 1;
          } else {
            phase2 := true;
          }
        }
        justSpawned := true;
      } else {
        justSpawned := false;
        assert Appended(old(mushroomEmitter.system.sprites), mushroomEmitter.system.sprites, mushroomEmitter.Config(), now, 0);
        assert Appended(old(eyeEmitter.system.sprites), eyeEmitter.system.sprites, eyeEmitter.Config(), now, 0);
      }
      if mushroomEmitter.gameOver || eyeEmitter.gameOver {
        gameOver := true;
      }
    }

    /** The emissions of a spawn tick (src/ofApp.cpp:458-472): the mushroom
        emitter fires unless the previous pass spawned, the eye emitter once
        more for each of the two eye tests that hold. */
    method EmitOnTick(roundedTime: int, now: real)
      requires Valid() && roundedTime % enemyRate == 0
      modifies mushroomEmitter.system, eyeEmitter.system
      ensures Valid()
      ensures Appended(old(mushroomEmitter.system.sprites), mushroomEmitter.system.sprites, mushroomEmitter.Config(), now,
                       if Schedule(roundedTime, Spawn()).mushroom then 1 else 0)
      ensures Appended(old(eyeEmitter.system.sprites), eyeEmitter.system.sprites, eyeEmitter.Config(), now,
                       Schedule(roundedTime, Spawn()).eyes)
    {
      ghost var mushrooms := mushroomEmitter.system.sprites;
      ghost var eyes := eyeEmitter.system.sprites;
      ghost var eyeCount := 0;
      assert Appended(mushrooms, mushrooms, mushroomEmitter.Config(), now, 0);
      assert Appended(eyes, eyes, eyeEmitter.Config(), now, 0);
      if !justSpawned {
        mushroomEmitter.Emit(now);
      }
      if !justSpawned && phase2 && (roundedTime % enemyRate) * 2 == 0 {
        ghost var before := eyeEmitter.system.sprites;
        eyeEmitter.Emit(now);
        AppendedTrans(eyes, before, eyeEmitter.system.sprites, eyeEmitter.Config(), now, eyeCount, 1);
        eyeCount := eyeCount + 1;
      }
      if roundedTime % (enemyRate * 4) == 0 && !justSpawned {
        ghost var before := eyeEmitter.system.sprites;
        eyeEmitter.Emit(now);
        AppendedTrans(eyes, before, eyeEmitter.system.sprites, eyeEmitter.Config(), now, eyeCount, 1);
        eyeCount := eyeCount + 1;
      }
    }

    /** The player and bow steps of ofApp::update on the app's own sprites;
        nothing on the enemies' side changes. */
    method StepPlayerAndBow(t: Tick)
      requires SpritesReady()
      modifies player, bow
      ensures SpritesReady()
      ensures player.State() == PlayerStep(old(player.State()), horseRun, t)
      ensures bow.State() == BowStep(old(bow.State()), t)
      ensures Valid() == old(Valid()) && Settings() == old(Settings()) && EnemyView() == old(EnemyView())
      ensures Spawn() == old(Spawn()) && gameOver == old(gameOver)
      ensures mushroomSystem.sprites == old(mushroomSystem.sprites) && arrowSystem.sprites == old(arrowSystem.sprites)
        && eyeSystem.sprites == old(eyeSystem.sprites)
    {
      AdvancePlayerAndBow(player, bow, horseRun, t);
    }

    /** ofApp::update without the parallax scrolling and the bow's rotation
        (src/ofApp.cpp:394-494). The emitters' systems change; the systems
        declared in ofApp, which setup copied into the emitters, do not. Each
        enemy system ends as the updated survivors of the collision round,
        followed by the sprites the schedule spawns. The player and bow steps
        read and write only the player and the bow, which nothing else in the
        frame touches, so they are taken last here. */
    method Frame(t: Tick, roundedTime: int)
      requires Valid() && SpritesReady()
      modifies player, bow
      modifies mushroomEmitter`gameOver, arrowEmitter`gameOver, eyeEmitter`gameOver
      modifies mushroomEmitter.system, arrowEmitter.system, eyeEmitter.system
      modifies this`enemyRate, this`justSpawned, this`phase2, this`gameOver
      ensures SpritesReady()
      ensures player.State() == PlayerStep(old(player.State()), horseRun, t)
      ensures bow.State() == BowStep(old(bow.State()), t)
      ensures Valid() && Settings() == old(Settings())
      ensures Spawn() == Schedule(roundedTime, old(Spawn())).next
      ensures gameOver == (old(gameOver) || mushroomEmitter.gameOver || eyeEmitter.gameOver)
      ensures mushroomSystem.sprites == old(mushroomSystem.sprites) && arrowSystem.sprites == old(arrowSystem.sprites)
        && eyeSystem.sprites == old(eyeSystem.sprites)
      ensures EnemiesUpdated(Collisions(old(EnemyView())), EnemyView(), old(Settings()), t,
                             Schedule(roundedTime, old(Spawn())))
    {
      StepEnemies(t, roundedTime);
      StepPlayerAndBow(t);
    }

    /** The enemy half of ofApp::update: the collision round, the emitter
        updates, the spawn block and the game-over latch (src/ofApp.cpp:420-424,
        450-491). */
    method StepEnemies(t: Tick, roundedTime: int)
      requires Valid()
      modifies mushroomEmitter`gameOver, arrowEmitter`gameOver, eyeEmitter`gameOver
      modifies mushroomEmitter.system, arrowEmitter.system, eyeEmitter.system
      modifies this`enemyRate, this`justSpawned, this`phase2, this`gameOver
      ensures Valid() && Settings() == old(Settings())
      ensures Spawn() == Schedule(roundedTime, old(Spawn())).next
      ensures gameOver == (old(gameOver) || mushroomEmitter.gameOver || eyeEmitter.gameOver)
      ensures mushroomSystem.sprites == old(mushroomSystem.sprites) && arrowSystem.sprites == old(arrowSystem.sprites)
        && eyeSystem.sprites == old(eyeSystem.sprites)
      ensures EnemiesUpdated(Collisions(old(EnemyView())), EnemyView(), old(Settings()), t,
                             Schedule(roundedTime, old(Spawn())))
    {
      Collide();
      UpdateEnemies(t, roundedTime);
    }

    /** The emitter updates, the spawn block and the game-over latch of
        ofApp::update (src/ofApp.cpp:450-491). */
    method UpdateEnemies(t: Tick, roundedTime: int)
      requires Valid()
      modifies mushroomEmitter`gameOver, arrowEmitter`gameOver, eyeEmitter`gameOver
      modifies mushroomEmitter.system, arrowEmitter.system, eyeEmitter.system
      modifies this`enemyRate, this`justSpawned, this`phase2, this`gameOver
      ensures Valid() && Settings() == old(Settings())
      ensures Spawn() == Schedule(roundedTime, old(Spawn())).next
      ensures gameOver == (old(gameOver) || mushroomEmitter.gameOver || eyeEmitter.gameOver)
      ensures EnemiesUpdated(old(EnemyView()), EnemyView(), old(Settings()), t, Schedule(roundedTime, old(Spawn())))
    {
      UpdateEmitters(t);
      SpawnEnemies(roundedTime, t.now);
    }

    /** The emitter updates of ofApp::update (src/ofApp.cpp:450-452). */
    method UpdateEmitters(t: Tick)
      requires Valid()
      modifies mushroomEmitter`gameOver, arrowEmitter`gameOver, eyeEmitter`gameOver
      modifies mushroomEmitter.system, arrowEmitter.system, eyeEmitter.system
      ensures Valid() && Settings() == old(Settings())
      ensures EnemyView() == EmittersUpdated(old(EnemyView()), old(Settings()), t)
    {
      arrowEmitter.Update(t);
      mushroomEmitter.Update(t);
      eyeEmitter.Update(t);
    }

    /** ofApp::keyPressed: the space key starts the jump. */
    method KeyPressed(key: char)
      requires SpritesReady()
      modifies player
      ensures SpritesReady()
      ensures player.State() == if key == ' ' then JumpPose(old(player.State()), horseJump) else old(player.State())
    {
      if key == ' ' {
        SetJumpPose(player, horseJump);
      }
    }

    /** ofApp::mousePressed: the bow starts drawing. */
    method MousePressed(now: real)
      requires SpritesReady()
      modifies bow
      ensures SpritesReady()
      ensures bow.State() == old(bow.State()).(frame := 0, nFrames := 11).StartAnim(now)
    {
      bow.SetFrames(0, 11);
      bow.StartAnim(now);
    }

    /** ofApp::mouseReleased: aim the arrow emitter at the mouse, fire one arrow
        if the bow is fully drawn and the game goes on, and play the release. */
    method MouseReleased(mouseX: real, mouseY: real, now: real)
      requires Valid() && SpritesReady()
      modifies arrowEmitter`velocity, arrowEmitter.system, bow
      ensures Valid() && SpritesReady()
      ensures arrowEmitter.velocity == Vec3(mouseX - arrowEmitter.pos.x, mouseY - arrowEmitter.pos.y, -arrowEmitter.pos.z)
      ensures Appended(old(arrowEmitter.system.sprites), arrowEmitter.system.sprites, arrowEmitter.Config(), now,
                       if old(bow.frame) == 10 && !gameOver then 1 else 0)
      ensures bow.State() == old(bow.State()).(frame := 11, nFrames := 24)
    {
      var aim := Vec3(mouseX - arrowEmitter.pos.x, mouseY - arrowEmitter.pos.y, 0.0 - arrowEmitter.pos.z);
      arrowEmitter.velocity := aim;
      assert Appended(arrowEmitter.system.sprites, arrowEmitter.system.sprites, arrowEmitter.Config(), now, 0);
      if bow.frame == 10 && !gameOver {
        arrowEmitter.Emit(now);
      }
      bow.SetFrames(11, 24);
    }
  }
}
