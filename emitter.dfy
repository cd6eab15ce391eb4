/** Emitter (src/ofApp.h:59-77, src/ofApp.cpp:212-288): a spawner that owns one
    spriteSystem by value, builds new sprites from per-archetype presets (arrow,
    mushroom, eye), and applies the enemies' proximity rules every frame. */
module Emitters {
  import opened Basics
  import opened Sprites
  import opened SpriteSystems

  /** A mushroom at or left of this x switches to its attack row. */
  const MushroomReach: real := 188.0
  /** An eye at or left of this x switches to its attack row. */
  const EyeReach: real := 190.0
  /** An enemy at or left of this x ends the game. */
  const GameOverX: real := 150.0
  /** The vertical tile offset of the attack animation. */
  const AttackVOff: real := 300.0

  /** The emitter fields that Emitter::emit copies into a new sprite. */
  datatype EmitterConfig = EmitterConfig(
    image: Image, animates: bool, mushroom: bool, arrow: bool, eye: bool,
    velocity: Vec3, pos: Vec3)

  /** The sprite Emitter::emit builds out of a freshly constructed `base`. */
  function Preset(cfg: EmitterConfig, base: SpriteState, now: real): SpriteState {
    EyePreset(cfg, MushroomPreset(cfg, ArrowPreset(cfg, CommonPreset(cfg, base)))).StartAnim(now)
  }

  /** The settings emit applies to every archetype (src/ofApp.cpp:214-219). */
  function CommonPreset(cfg: EmitterConfig, s: SpriteState): SpriteState {
    s.(velocity := cfg.velocity, acceleration := Vec3(200.0, 200.0, 200.0),
       image := cfg.image, moves := true, pos := cfg.pos, animates := cfg.animates)
  }

  /** src/ofApp.cpp:220-223. */
  function ArrowPreset(cfg: EmitterConfig, s: SpriteState): SpriteState {
    if cfg.arrow then s.(useGrav := true, cWidth := 10.0, cHeight := 2.0, cPos := cfg.pos) else s
  }

  /** src/ofApp.cpp:226-240. */
  function MushroomPreset(cfg: EmitterConfig, s: SpriteState): SpriteState {
    if cfg.mushroom then
      s.(acceleration := Zero, nTilesX := 4, nTilesY := 3, nFrames := 8,
         height := 150.0, width := 150.0, cHeight := 150.0, cWidth := 150.0,
         cPos := s.cPos.(x := cfg.pos.x + 50.0, y := cfg.pos.y + 50.0),
         vOff := 0.0, hOff := 0.0)
    else s
  }

  /** src/ofApp.cpp:242-253. */
  function EyePreset(cfg: EmitterConfig, s: SpriteState): SpriteState {
    if cfg.eye then
      s.(acceleration := Zero, nTilesX := 4, nTilesY := 2, nFrames := 8,
         height := 150.0, width := 150.0, cHeight := 150.0, cWidth := 150.0,
         vOff := 0.0, hOff := 0.0)
    else s
  }

  /** `s` is a sprite emit can build at time `now` for an emitter configured as `cfg`. */
  ghost predicate Emitted(cfg: EmitterConfig, now: real, s: SpriteState) {
    exists base :: ConstructedWithGrid(base) && s == Preset(cfg, base, now)
  }

  /** `after` is `before` followed by `k` sprites emitted at time `now`. */
  ghost predicate Appended(before: seq<SpriteState>, after: seq<SpriteState>, cfg: EmitterConfig, now: real, k: nat) {
    |after| == |before| + k && after[..|before|] == before
    && forall i :: |before| <= i < |after| ==> Emitted(cfg, now, after[i])
  }

  /** Whether a sprite is within attack reach for the emitter's archetype. */
  predicate InReach(cfg: EmitterConfig, s: SpriteState) {
    (cfg.mushroom && s.pos.x <= MushroomReach) || (cfg.eye && s.pos.x <= EyeReach)
  }

  /** The sprites after the proximity rules of Emitter::update. */
  function AttackPoses(cfg: EmitterConfig, ss: seq<SpriteState>): (r: seq<SpriteState>)
    ensures |r| == |ss|
    ensures forall i :: 0 <= i < |ss| ==> r[i] == ss[i].(vOff := r[i].vOff)
  {
    seq(|ss|, i requires 0 <= i < |ss| => if InReach(cfg, ss[i]) then ss[i].(vOff := AttackVOff) else ss[i])
  }

  /** The sprites Emitter::update leaves behind: the updated survivors of the
      proximity rules. None of them is dead, and each shows the tile its frame
      selects. */
  function AfterUpdate(cfg: EmitterConfig, ss: seq<SpriteState>, t: Tick): (r: seq<SpriteState>)
    requires AllTiled(ss)
    ensures AllTiled(r)
    ensures forall s :: s in r ==> s.lifespan != 0.0
  {
    AttackPosesKeepTiles(cfg, ss);
    SystemUpdateInvariant(AttackPoses(cfg, ss), t);
    UpdateAll(Survivors(AttackPoses(cfg, ss)), t)
  }

  /** Whether an enemy of this emitter has reached the player. */
  predicate ReachesPlayer(cfg: EmitterConfig, ss: seq<SpriteState>) {
    (cfg.mushroom || cfg.eye) && exists i :: 0 <= i < |ss| && ss[i].pos.x <= GameOverX
  }

  //------------------------------------------------------------------ presets

  /** Every archetype: the new sprite starts its animation at frame 0, moves,
      and copies the emitter's position, velocity, image and draw mode. */
  lemma PresetCommon(cfg: EmitterConfig, base: SpriteState, now: real)
    requires Constructed(base)
    ensures var r := Preset(cfg, base, now);
      r.frame == 0 && r.animRunning && r.moves && r.lastTimeRec == now
      && r.pos == cfg.pos && r.velocity == cfg.velocity && r.image == cfg.image && r.animates == cfg.animates
      && r.lifespan == InitialLifespan && r.mass == 1.0 && r.force == Zero && r.forces == []
      && r.row == 0 && r.col == 0 && !r.isBow
  {
  }

  lemma PresetArrow(cfg: EmitterConfig, base: SpriteState, now: real)
    requires cfg.arrow && !cfg.mushroom && !cfg.eye
    ensures var r := Preset(cfg, base, now);
      r.useGrav && r.cWidth == 10.0 && r.cHeight == 2.0 && r.cPos == cfg.pos
      && r.acceleration == Vec3(200.0, 200.0, 200.0)
      && r.nTilesX == base.nTilesX && r.nFrames == base.nFrames
  {
  }

  lemma PresetMushroom(cfg: EmitterConfig, base: SpriteState, now: real)
    requires cfg.mushroom && !cfg.eye
    ensures var r := Preset(cfg, base, now);
      r.nTilesX == 4 && r.nTilesY == 3 && r.nFrames == 8
      && r.width == 150.0 && r.height == 150.0 && r.cWidth == 150.0 && r.cHeight == 150.0
      && r.acceleration == Zero && r.vOff == 0.0 && r.hOff == 0.0
      && r.cPos.x == cfg.pos.x + 50.0 && r.cPos.y == cfg.pos.y + 50.0
  {
  }

  lemma PresetEye(cfg: EmitterConfig, base: SpriteState, now: real)
    requires cfg.eye
    ensures var r := Preset(cfg, base, now);
      r.nTilesX == 4 && r.nTilesY == 2 && r.nFrames == 8
      && r.width == 150.0 && r.height == 150.0 && r.cWidth == 150.0 && r.cHeight == 150.0
      && r.acceleration == Zero && r.vOff == 0.0 && r.hOff == 0.0
  {
  }

  /** As written, the arrow preset sets no tile grid, yet emit starts the
      animation: a default-constructed sprite may carry a zero tile count, and
      50 ms later Sprite::update would divide the frame by it. */
  lemma ArrowGridIndeterminate(cfg: EmitterConfig, now: real)
    requires cfg.arrow && !cfg.mushroom && !cfg.eye
    ensures exists base :: (Constructed(base)
      && Preset(cfg, base, now).FrameDue(now + 51.0) && Preset(cfg, base, now).nTilesX == 0
      && Preset(cfg, base, now).frame != Preset(cfg, base, now).nFrames - 1)
  {
    var base := SpriteState(Zero, Zero, Zero, Zero, Zero, [], 0.99, 1.0, InitialLifespan, 0.0,
                            0.0, 0.0, 0.0, 0.0, 0.0, 0.0, cfg.image,
                            false, false, true, false, 0, 0, 0, 0, 0, 0, false, 0.0);
    assert Constructed(base);
    assert Preset(cfg, base, now).FrameDue(now + 51.0) && Preset(cfg, base, now).nTilesX == 0;
  }

  /** With the corrected constructor every emitted sprite, whatever its
      archetype, shows the tile its frame selects and has a tile to show for
      every frame. */
  lemma PresetTiled(cfg: EmitterConfig, base: SpriteState, now: real)
    requires ConstructedWithGrid(base)
    ensures Preset(cfg, base, now).TileInvariant()
    ensures Preset(cfg, base, now).nFrames <= Preset(cfg, base, now).nTilesX * Preset(cfg, base, now).nTilesY
  {
  }

  /** Emitting k sprites and then m more emits k + m. */
  lemma AppendedTrans(a: seq<SpriteState>, b: seq<SpriteState>, c: seq<SpriteState>,
                      cfg: EmitterConfig, now: real, k: nat, m: nat)
    requires Appended(a, b, cfg, now, k) && Appended(b, c, cfg, now, m)
    ensures Appended(a, c, cfg, now, k + m)
  {
    assert c[..|a|] == b[..|b|][..|a|];
  }

  //------------------------------------------------------------------ proximity rules

  /** The proximity rules move only the vertical tile offset, and only of the
      sprites in reach. */
  lemma AttackPosesExactly(cfg: EmitterConfig, ss: seq<SpriteState>)
    ensures |AttackPoses(cfg, ss)| == |ss|
    ensures forall i :: 0 <= i < |ss| ==>
      AttackPoses(cfg, ss)[i] == ss[i].(vOff := AttackPoses(cfg, ss)[i].vOff)
      && AttackPoses(cfg, ss)[i].vOff == (if InReach(cfg, ss[i]) then AttackVOff else ss[i].vOff)
  {
  }

  lemma AttackPosesKeepTiles(cfg: EmitterConfig, ss: seq<SpriteState>)
    requires AllTiled(ss)
    ensures AllTiled(AttackPoses(cfg, ss))
  {
  }

  //------------------------------------------------------------------ the object

  class Emitter {
    var system: SpriteSystem
    var spriteImage: Image
    var animates: bool
    var mushroom: bool
    var arrow: bool
    var eye: bool
    var velocity: Vec3
    var pos: Vec3
    var gameOver: bool

    function Config(): EmitterConfig
      reads this`spriteImage, this`animates, this`mushroom, this`arrow, this`eye, this`velocity, this`pos
    {
      EmitterConfig(spriteImage, animates, mushroom, arrow, eye, velocity, pos)
    }

    /** Every sprite the emitter owns shows the tile its frame selects. */
    ghost predicate Valid()
      reads this`system, system
    {
      AllTiled(system.sprites)
    }

    /** An Emitter with its member initialisers and an empty system of its own;
        the image and the position stay indeterminate. */
    constructor ()
      ensures Valid() && fresh(system) && system.sprites == []
      ensures animates && !mushroom && !arrow && !eye && !gameOver && velocity == Zero
    {
      system := new SpriteSystem();
      animates := true;
      mushroom, arrow, eye := false, false, false;
      velocity := Zero;
      gameOver := false;
    }

    /** The copy assignment `emitter.system = other` of the C++ code: the
        emitter gets its own copy of the sprites. */
    method AssignSystem(other: SpriteSystem)
      requires AllTiled(other.sprites)
      modifies system
      ensures Valid() && system.sprites == old(other.sprites)
    {
      system.CopyFrom(other);
    }

    /** Emitter::emit: append exactly one new sprite to the owned system. */
    method Emit(now: real)
      requires Valid()
      modifies system
      ensures Valid()
      ensures Appended(old(system.sprites), system.sprites, Config(), now, 1)
    {
      // The local `Sprite sprite;` is a stack value: it is built as one.
      var constructed := new Sprite();
      var sprite := constructed.State();
      ghost var base := sprite;
      sprite := sprite.(velocity := velocity, acceleration := Vec3(200.0, 200.0, 200.0),
                        image := spriteImage, moves := true, pos := pos, animates := animates);
      if arrow {
        sprite := sprite.(useGrav := true, cWidth := 10.0, cHeight := 2.0, cPos := pos);
      }
      if mushroom {
        sprite := sprite.(acceleration := Zero, nTilesX := 4, nTilesY := 3, nFrames := 8,
                          height := 150.0, width := 150.0, cHeight := 150.0, cWidth := 150.0,
                          cPos := sprite.cPos.(x := pos.x + 50.0, y := pos.y + 50.0),
                          vOff := 0.0, hOff := 0.0);
      }
      if eye {
        sprite := sprite.(acceleration := Zero, nTilesX := 4, nTilesY := 2, nFrames := 8,
                          height := 150.0, width := 150.0, cHeight := 150.0, cWidth := 150.0,
                          vOff := 0.0, hOff := 0.0);
      }
      sprite := sprite.StartAnim(now);
      assert sprite == Preset(Config(), base, now);
      PresetTiled(Config(), base, now);
      assert Emitted(Config(), now, sprite);
      system.AddSprite(sprite);
      assert system.sprites[..|old(system.sprites)|] == old(system.sprites);
    }

    /** One pass of the proximity rule of Emitter::update
        (src/ofApp.cpp:264-272 with reach 188, 275-282 with reach 190). */
    method AttackWithin(reach: real)
      modifies system, this`gameOver
      ensures |system.sprites| == |old(system.sprites)|
      ensures forall i :: 0 <= i < |system.sprites| ==>
        system.sprites[i] == (if old(system.sprites)[i].pos.x <= reach
                              then old(system.sprites)[i].(vOff := AttackVOff) else old(system.sprites)[i])
      ensures gameOver == (old(gameOver)
        || exists i :: 0 <= i < |old(system.sprites)| && old(system.sprites)[i].pos.x <= GameOverX)
    {
      ghost var before := system.sprites;
      for i := 0 to |system.sprites|
        invariant |system.sprites| == |before|
        invariant forall m :: 0 <= m < i ==>
          system.sprites[m] == (if before[m].pos.x <= reach then before[m].(vOff := AttackVOff) else before[m])
        invariant forall m :: i <= m < |system.sprites| ==> system.sprites[m] == before[m]
        invariant gameOver == (old(gameOver) || exists m :: 0 <= m < i && before[m].pos.x <= GameOverX)
      {
        if system.sprites[i].pos.x <= reach {
          system.sprites := system.sprites[i := system.sprites[i].(vOff := AttackVOff)];
        }
        if system.sprites[i].pos.x <= GameOverX {
          gameOver := true;
        }
      }
    }

    /** Emitter::update: the archetype's proximity rules, then the system's update. */
    method Update(t: Tick)
      requires Valid()
      modifies system, this`gameOver
      ensures Valid()
      ensures old(gameOver) ==> gameOver
      ensures gameOver == (old(gameOver) || ReachesPlayer(Config(), old(system.sprites)))
      ensures system.sprites == AfterUpdate(Config(), old(system.sprites), t)
    {
      ghost var before := system.sprites;
      if mushroom {
        AttackWithin(MushroomReach);
      }
      if eye {
        AttackWithin(EyeReach);
      }
      assert system.sprites == AttackPoses(Config(), before);
      AttackPosesKeepTiles(Config(), before);
      SystemUpdateInvariant(system.sprites, t);
      system.Update(t);
    }
  }
}
