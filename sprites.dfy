/** One `Sprite` of the game engine (src/ofApp.h:7-46, src/ofApp.cpp:4-144).

    A C++ Sprite lives two lives: the player and the bow are objects whose
    member functions change their fields in place, while vector<Sprite> and
    every by-value parameter hold copies.
    `SpriteState` is such a copy, and its member functions give the meaning of
    each C++ member function; `Sprite` is the object, and each of its methods is
    proved to change its state exactly as the matching function says. */
module Sprites {
  import opened Basics

  /** Sprite::update advances one frame only when strictly more than this many
      milliseconds have passed since the last advance. */
  const FrameMillis: real := 50.0

  /** Below this frame rate Sprite::integrate skips the Euler step. */
  const MinFrameRate: real := 5.0

  const InitialLifespan: real := 500000.0

  /** The outcome of one Euler step of Sprite::integrate: the new position and
      velocity. The floating-point arithmetic, the gravity and the random
      turbulence that produce it are not part of this model. */
  datatype Motion = Motion(pos: Vec3, velocity: Vec3)

  /** What one pass of updates reads from the outside world: the system clock in
      milliseconds, the frame rate, and the Euler step each sprite would take. */
  datatype Tick = Tick(now: real, frameRate: real, motion: SpriteState -> Motion)

  /** The fields of a Sprite, as a value. */
  datatype SpriteState = SpriteState(
    pos: Vec3, cPos: Vec3,
    force: Vec3, velocity: Vec3, acceleration: Vec3, forces: seq<Vec3>,
    damping: real, mass: real, lifespan: real, birthtime: real,
    width: real, height: real, vOff: real, hOff: real,
    cWidth: real, cHeight: real,
    image: Image,
    isBow: bool, moves: bool, animates: bool, useGrav: bool,
    nTilesX: int, nTilesY: int, nFrames: int,
    frame: int, row: int, col: int,
    animRunning: bool, lastTimeRec: real)
  {
    /** The tile shown is the one the frame number selects: the frame is in
        range, `row` is the frame's line in the sheet and `col` its column. */
    predicate TileInvariant() {
      nTilesX > 0 && 0 <= frame < nFrames && row == frame / nTilesX && col == frame % nTilesX
    }

    /** Sprite::advanceFrame: loop back to frame 0 after the last frame, or hold
        the last frame for the bow; otherwise step to the next tile. */
    function AdvanceFrame(): (r: SpriteState)
      requires frame != nFrames - 1 ==> nTilesX != 0
      ensures r == this.(frame := r.frame, row := r.row, col := r.col)
    {
      if frame == nFrames - 1 then
        if !isBow then this.(col := 0, row := 0, frame := 0) else this
      else
        var next := frame + 1;
        this.(frame := next,
              col := if col == nTilesX - 1 then 0 else col + 1,
              row := TruncDiv(next, nTilesX))
    }

    /** Sprite::startAnim, with the clock reading passed in. */
    function StartAnim(now: real): SpriteState {
      this.(frame := 0, animRunning := true, lastTimeRec := now)
    }

    /** Sprite::stopAnim. */
    function StopAnim(): SpriteState {
      this.(animRunning := false)
    }

    /** Sprite::integrate. Only its frame-rate guard and its last statement are
        modelled exactly: the accumulated force always ends at zero, and the
        queued forces are never cleared. The Euler step itself is `step`. */
    function Integrate(frameRate: real, step: Motion): (r: SpriteState)
      ensures r == this.(force := Zero, pos := r.pos, velocity := r.velocity)
    {
      if frameRate < MinFrameRate then this.(force := Zero)
      else this.(pos := step.pos, velocity := step.velocity, force := Zero)
    }

    /** Whether Sprite::update, called at time `now`, advances the animation. */
    predicate FrameDue(now: real) {
      animRunning && now - lastTimeRec > FrameMillis
    }

    /** Sprite::update. The division in AdvanceFrame needs a non-zero tile count,
        but only when a frame is actually due and it is not the last one. */
    function Update(t: Tick): (r: SpriteState)
      requires FrameDue(t.now) && frame != nFrames - 1 ==> nTilesX != 0
      ensures r == this.(frame := r.frame, row := r.row, col := r.col, lastTimeRec := r.lastTimeRec,
                         pos := r.pos, velocity := r.velocity, force := r.force)
    {
      if !animRunning then this
      else
        var stepped := if t.now - lastTimeRec > FrameMillis then AdvanceFrame().(lastTimeRec := t.now) else this;
        if moves then stepped.Integrate(t.frameRate, t.motion(stepped)) else stepped
    }

    /** Sprite::isColliding: the two collision boxes, centred on the positions,
        overlap with a strict inequality on both axes. */
    predicate IsColliding(s: SpriteState) {
      var xDistance := s.pos.x - pos.x;
      var yDistance := s.pos.y - pos.y;
      Abs(xDistance) < s.cWidth / 2.0 + cWidth / 2.0 && Abs(yDistance) < s.cHeight / 2.0 + cHeight / 2.0
    }
  }

  /** The state the Sprite constructor and the member initialisers of the class
      leave behind (src/ofApp.h:32-42, src/ofApp.cpp:4-15). Every other field is
      left indeterminate by the C++ code. */
  predicate Constructed(s: SpriteState) {
    s.velocity == Zero && s.acceleration == Zero && s.force == Zero && s.forces == []
    && s.lifespan == InitialLifespan && s.birthtime == 0.0 && s.damping == 0.99 && s.mass == 1.0
    && !s.isBow && !s.moves && s.animates && !s.useGrav
    && s.frame == 0 && s.row == 0 && s.col == 0 && !s.animRunning
  }

  /** The corrected constructor also gives the sprite a one-tile sheet with a
      single frame, so that no sprite animates over an indeterminate grid. */
  predicate ConstructedWithGrid(s: SpriteState) {
    Constructed(s) && s.nTilesX == 1 && s.nTilesY == 1 && s.nFrames == 1
  }

  //------------------------------------------------------------------ animation

  lemma LastFrameLoopsOrHolds(s: SpriteState)
    requires s.frame == s.nFrames - 1
    ensures !s.isBow ==> s.AdvanceFrame() == s.(frame := 0, row := 0, col := 0)
    ensures s.isBow ==> s.AdvanceFrame() == s
  {
  }

  lemma StepToNextFrame(s: SpriteState)
    requires s.nTilesX != 0 && s.frame != s.nFrames - 1
    ensures var r := s.AdvanceFrame();
      r.frame == s.frame + 1
      && r.col == (if s.col == s.nTilesX - 1 then 0 else s.col + 1)
      && r.row == TruncDiv(r.frame, s.nTilesX)
  {
  }

  /** Advancing the animation keeps the frame in range and the tile in step. */
  lemma AdvanceFrameKeepsTile(s: SpriteState)
    requires s.TileInvariant()
    ensures s.AdvanceFrame().TileInvariant()
  {
    if s.frame != s.nFrames - 1 {
      var n, q := s.nTilesX, s.frame / s.nTilesX;
      if s.col == n - 1 {
        DivModUnique(s.frame + 1, n, q + 1, 0);
      } else {
        DivModUnique(s.frame + 1, n, q, s.col + 1);
      }
    }
  }

  /** advanceFrame keeps the frame in range on its own, whatever row and
      column the sprite shows. */
  lemma FrameStaysInRange(s: SpriteState)
    requires 0 <= s.frame < s.nFrames && (s.frame != s.nFrames - 1 ==> s.nTilesX != 0)
    ensures 0 <= s.AdvanceFrame().frame < s.nFrames
  {
  }

  /** advanceFrame keeps the column in step with the frame, whatever the row. */
  lemma ColumnStaysInStep(s: SpriteState)
    requires s.nTilesX > 0 && 0 <= s.frame < s.nFrames && s.col == s.frame % s.nTilesX
    ensures s.AdvanceFrame().col == s.AdvanceFrame().frame % s.nTilesX
  {
    if s.frame != s.nFrames - 1 {
      var n, q := s.nTilesX, s.frame / s.nTilesX;
      if s.col == n - 1 {
        DivModUnique(s.frame + 1, n, q + 1, 0);
      } else {
        DivModUnique(s.frame + 1, n, q, s.col + 1);
      }
    }
  }

  /** Sprite::update keeps the frame in range. */
  lemma UpdateKeepsFrameInRange(s: SpriteState, t: Tick)
    requires 0 <= s.frame < s.nFrames && s.nTilesX != 0
    ensures 0 <= s.Update(t).frame < s.Update(t).nFrames
  {
    if s.FrameDue(t.now) {
      FrameStaysInRange(s);
    }
  }

  /** The state after `k` frame advances. */
  function AdvanceFrames(s: SpriteState, k: nat): (r: SpriteState)
    requires s.nTilesX != 0
    ensures r == s.(frame := r.frame, row := r.row, col := r.col)
    decreases k
  {
    if k == 0 then s else AdvanceFrames(s, k - 1).AdvanceFrame()
  }

  /** Any number of frame advances keeps the tile in step. */
  lemma {:induction false} AdvanceFramesKeepTile(s: SpriteState, k: nat)
    requires s.TileInvariant()
    ensures AdvanceFrames(s, k).TileInvariant()
  {
    if k > 0 {
      AdvanceFramesKeepTile(s, k - 1);
      AdvanceFrameKeepsTile(AdvanceFrames(s, k - 1));
    }
  }

  /** A looping animation cycles through its frames modulo the frame count,
      whether or not its row and column are in step with the frame. */
  lemma {:induction false} LoopingAnimationCycles(s: SpriteState, k: nat)
    requires 0 <= s.frame < s.nFrames && s.nTilesX != 0 && !s.isBow
    ensures AdvanceFrames(s, k).frame == (s.frame + k) % s.nFrames
  {
    if k > 0 {
      LoopingAnimationCycles(s, k - 1);
      var p := AdvanceFrames(s, k - 1);
      NextInCycle(s.frame + k - 1, s.nFrames, p.frame);
      NextFrame(p);
    }
  }

  /** The frame number advanceFrame moves to. */
  lemma NextFrame(s: SpriteState)
    requires s.nTilesX != 0
    ensures s.AdvanceFrame().frame
      == if s.frame != s.nFrames - 1 then s.frame + 1 else if s.isBow then s.frame else 0
  {
  }

  lemma NextInCycle(g: int, n: int, f: int)
    requires n > 0 && g >= 0 && f == g % n
    ensures (if f == n - 1 then 0 else f + 1) == (g + 1) % n
  {
    if f == n - 1 {
      DivModUnique(g + 1, n, g / n + 1, 0);
    } else {
      DivModUnique(g + 1, n, g / n, f + 1);
    }
  }

  function Min(a: int, b: int): int {
    if a < b then a else b
  }

  /** A one-shot (bow) animation climbs to its last frame and stays there,
      whether or not its row and column are in step with the frame. */
  lemma {:induction false} BowAnimationHolds(s: SpriteState, k: nat)
    requires 0 <= s.frame < s.nFrames && s.nTilesX != 0 && s.isBow
    ensures AdvanceFrames(s, k).frame == Min(s.frame + k, s.nFrames - 1)
  {
    if k > 0 {
      BowAnimationHolds(s, k - 1);
    }
  }

  /** When the sheet has a tile for every frame, the tile drawn lies inside the sheet. */
  lemma TileWithinSheet(s: SpriteState)
    requires s.TileInvariant() && s.nFrames <= s.nTilesX * s.nTilesY
    ensures 0 <= s.row < s.nTilesY && 0 <= s.col < s.nTilesX
  {
    assert s.row < s.nTilesY by {
      if s.row >= s.nTilesY {
        MulMonotone(s.nTilesX, s.row, s.nTilesY);
      }
    }
  }

  /** startAnim rewinds the frame but not the tile: on a sprite whose tile was in
      step, the tile stays in step exactly when it was already the first one. */
  lemma StartAnimRealignsOnlyFromFirstTile(s: SpriteState, now: real)
    requires s.TileInvariant()
    ensures s.StartAnim(now).TileInvariant() <==> (s.row == 0 && s.col == 0)
    ensures s.StartAnim(now).animRunning && s.StartAnim(now).frame == 0
    ensures s.StartAnim(now).row == s.row && s.StartAnim(now).col == s.col
  {
  }

  //------------------------------------------------------------------ update

  /** A stopped animation makes Sprite::update a no-op. */
  lemma UpdateWhenStopped(s: SpriteState, t: Tick)
    requires !s.animRunning
    ensures s.Update(t) == s
  {
  }

  /** Sprite::update advances exactly one frame, and stamps the time, exactly
      when the animation runs and strictly more than 50 ms have passed. */
  lemma UpdateCadence(s: SpriteState, t: Tick)
    requires s.FrameDue(t.now) && s.frame != s.nFrames - 1 ==> s.nTilesX != 0
    ensures var r := s.Update(t);
      if s.FrameDue(t.now) then
        var a := s.AdvanceFrame();
        r.frame == a.frame && r.row == a.row && r.col == a.col && r.lastTimeRec == t.now
      else
        r.frame == s.frame && r.row == s.row && r.col == s.col && r.lastTimeRec == s.lastTimeRec
  {
  }

  /** Sprite::update keeps the tile in step, and never touches the lifespan. */
  lemma UpdateKeepsTile(s: SpriteState, t: Tick)
    requires s.TileInvariant()
    ensures s.Update(t).TileInvariant() && s.Update(t).lifespan == s.lifespan
  {
    if s.FrameDue(t.now) {
      AdvanceFrameKeepsTile(s);
    }
  }

  /** Below 5 frames per second the physics step only clears the force. */
  lemma IntegrateGuard(s: SpriteState, frameRate: real, step: Motion)
    requires frameRate < MinFrameRate
    ensures s.Integrate(frameRate, step) == s.(force := Zero)
  {
  }

  //------------------------------------------------------------------ collision

  lemma CollisionSymmetric(a: SpriteState, b: SpriteState)
    ensures a.IsColliding(b) <==> b.IsColliding(a)
  {
  }

  /** Boxes whose edges exactly touch on either axis do not collide. */
  lemma TouchingBoxesDoNotCollide(a: SpriteState, b: SpriteState)
    requires Abs(b.pos.x - a.pos.x) == (a.cWidth + b.cWidth) / 2.0
          || Abs(b.pos.y - a.pos.y) == (a.cHeight + b.cHeight) / 2.0
    ensures !a.IsColliding(b)
  {
  }

  /** The collision test reads only the position and the collision box. */
  lemma CollisionReadsOnlyBox(a: SpriteState, b: SpriteState, a': SpriteState, b': SpriteState)
    requires a'.pos.x == a.pos.x && a'.pos.y == a.pos.y && a'.cWidth == a.cWidth && a'.cHeight == a.cHeight
    requires b'.pos.x == b.pos.x && b'.pos.y == b.pos.y && b'.cWidth == b.cWidth && b'.cHeight == b.cHeight
    ensures a.IsColliding(b) <==> a'.IsColliding(b')
  {
  }

  /** A point strictly inside a sprite's collision box. */
  predicate Inside(px: real, py: real, s: SpriteState) {
    Abs(px - s.pos.x) < s.cWidth / 2.0 && Abs(py - s.pos.y) < s.cHeight / 2.0
  }

  /** For boxes of positive size, isColliding holds exactly when some point lies
      strictly inside both boxes. */
  lemma CollidingIffSharedPoint(a: SpriteState, b: SpriteState)
    requires a.cWidth > 0.0 && a.cHeight > 0.0 && b.cWidth > 0.0 && b.cHeight > 0.0
    ensures a.IsColliding(b) <==> exists px, py :: Inside(px, py, a) && Inside(px, py, b)
  {
    if a.IsColliding(b) {
      var px := Overlap(a.pos.x, a.cWidth, b.pos.x, b.cWidth);
      var py := Overlap(a.pos.y, a.cHeight, b.pos.y, b.cHeight);
      assert Inside(px, py, a) && Inside(px, py, b);
    }
  }

  /** The middle of the overlap of two open intervals of positive width that overlap. */
  function Overlap(c1: real, w1: real, c2: real, w2: real): (m: real)
    requires w1 > 0.0 && w2 > 0.0 && Abs(c2 - c1) < w2 / 2.0 + w1 / 2.0
    ensures Abs(m - c1) < w1 / 2.0 && Abs(m - c2) < w2 / 2.0
  {
    var lo := if c1 - w1 / 2.0 < c2 - w2 / 2.0 then c2 - w2 / 2.0 else c1 - w1 / 2.0;
    var hi := if c1 + w1 / 2.0 < c2 + w2 / 2.0 then c1 + w1 / 2.0 else c2 + w2 / 2.0;
    (lo + hi) / 2.0
  }

  //------------------------------------------------------------------ the object

  /** A Sprite object, updated in place. */
  class Sprite {
    var pos: Vec3
    var cPos: Vec3
    var force: Vec3
    var velocity: Vec3
    var acceleration: Vec3
    var forces: seq<Vec3>
    var damping: real
    var mass: real
    var lifespan: real
    var birthtime: real
    var width: real
    var height: real
    var vOff: real
    var hOff: real
    var cWidth: real
    var cHeight: real
    var image: Image
    var isBow: bool
    var moves: bool
    var animates: bool
    var useGrav: bool
    var nTilesX: int
    var nTilesY: int
    var nFrames: int
    var frame: int
    var row: int
    var col: int
    var animRunning: bool
    var lastTimeRec: real

    /** A copy of this sprite, as `vector<Sprite>` or a by-value parameter holds it. */
    function State(): SpriteState
      reads this
    {
      SpriteState(pos, cPos, force, velocity, acceleration, forces,
                  damping, mass, lifespan, birthtime,
                  width, height, vOff, hOff, cWidth, cHeight, image,
                  isBow, moves, animates, useGrav,
                  nTilesX, nTilesY, nFrames, frame, row, col,
                  animRunning, lastTimeRec)
    }

    /** Sprite::Sprite with the member initialisers, corrected to start with a
        one-tile sheet of one frame; positions, sizes, the image and the clock
        stamp stay indeterminate as in the C++ code. */
    constructor ()
      ensures ConstructedWithGrid(State())
    {
      velocity := Zero;
      acceleration := Zero;
      force := Zero;
      forces := [];
      lifespan := InitialLifespan;
      birthtime := 0.0;
      damping := 0.99;
      mass := 1.0;
      isBow, moves, animates, useGrav := false, false, true, false;
      nTilesX, nTilesY, nFrames := 1, 1, 1;
      frame, row, col := 0, 0, 0;
      animRunning := false;
    }

    method StartAnim(now: real)
      modifies this
      ensures State() == old(State()).StartAnim(now)
    {
      frame := 0;
      animRunning := true;
      lastTimeRec := now;
    }

    method StopAnim()
      modifies this
      ensures State() == old(State()).StopAnim()
    {
      animRunning := false;
    }

    method AdvanceFrame()
      requires frame != nFrames - 1 ==> nTilesX != 0
      modifies this
      ensures State() == old(State()).AdvanceFrame()
    {
      if frame == nFrames - 1 {
        if !isBow {
          col := 0;
          row := 0;
          frame := 0;
        }
      } else {
        frame := frame + 1;
        if col == nTilesX - 1 {
          col := 0;
        } else {
          col := col + 1;
        }
        row := TruncDiv(frame, nTilesX);
      }
    }

    method Integrate(frameRate: real, step: Motion)
      modifies this
      ensures State() == old(State()).Integrate(frameRate, step)
    {
      if frameRate < MinFrameRate {
        force := Zero;
        return;
      }
      pos := step.pos;
      velocity := step.velocity;
      force := Zero;
    }

    method Update(t: Tick)
      requires State().FrameDue(t.now) && frame != nFrames - 1 ==> nTilesX != 0
      modifies this
      ensures State() == old(State()).Update(t)
    {
      if !animRunning {
        return;
      }
      var curTime := t.now;
      if curTime - lastTimeRec > FrameMillis {
        AdvanceFrame();
        lastTimeRec := curTime;
      }
      if moves {
        Integrate(t.frameRate, t.motion(State()));
      }
    }

    /** Select a sprite sheet: its tile grid and its number of frames. */
    method SetSheet(tilesX: int, tilesY: int, frames: int)
      modifies this
      ensures State() == old(State()).(nTilesX := tilesX, nTilesY := tilesY, nFrames := frames)
    {
      nTilesX, nTilesY, nFrames := tilesX, tilesY, frames;
    }

    /** Select the image and the size it is drawn at. */
    method SetLook(img: Image, w: real, h: real)
      modifies this
      ensures State() == old(State()).(image := img, width := w, height := h)
    {
      image, width, height := img, w, h;
    }

    /** Jump to frame `f` of an animation of `frames` frames. */
    method SetFrames(f: int, frames: int)
      modifies this
      ensures State() == old(State()).(frame := f, nFrames := frames)
    {
      frame, nFrames := f, frames;
    }

    method MoveTo(p: Vec3)
      modifies this
      ensures State() == old(State()).(pos := p)
    {
      pos := p;
    }

    method SetOffsets(v: real, h: real)
      modifies this
      ensures State() == old(State()).(vOff := v, hOff := h)
    {
      vOff, hOff := v, h;
    }

    /** Sprite::addForce: queue a force for every later physics step. */
    method AddForce(f: Vec3)
      modifies this
      ensures State() == old(State()).(forces := old(forces) + [f])
    {
      forces := forces + [f];
    }
  }
}
