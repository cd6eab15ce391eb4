/** spriteSystem (src/ofApp.h:48-55, src/ofApp.cpp:148-210): a vector of
    sprites, held by value, that is culled, updated and collision-checked once
    per frame. */
module SpriteSystems {
  import opened Basics
  import opened Sprites

  /** The play field that spriteSystem::update keeps sprites inside. */
  const FieldWidth: real := 1024.0
  const FieldHeight: real := 768.0

  /** Whether a position lies in the closed play field [0,1024]x[0,768]. */
  predicate InBounds(s: SpriteState) {
    0.0 <= s.pos.x <= FieldWidth && 0.0 <= s.pos.y <= FieldHeight
  }

  /** Whether spriteSystem::update keeps a sprite: it is alive and on the field. */
  predicate Keeps(s: SpriteState) {
    s.lifespan != 0.0 && InBounds(s)
  }

  /** The first pass of spriteSystem::update on one sprite: a sprite off the
      field is marked dead. */
  function MarkOutOfBounds(s: SpriteState): (r: SpriteState)
    ensures r.lifespan == 0.0 <==> !Keeps(s)
    ensures Keeps(s) ==> r == s
    ensures r == s.(lifespan := r.lifespan)
  {
    if s.pos.x > FieldWidth || s.pos.x < 0.0 || s.pos.y > FieldHeight || s.pos.y < 0.0 then
      s.(lifespan := 0.0)
    else s
  }

  /** The sprites spriteSystem::update keeps, in their original order. */
  function Survivors(ss: seq<SpriteState>): (r: seq<SpriteState>)
    ensures |r| <= |ss|
    ensures forall i :: 0 <= i < |r| ==> Keeps(r[i]) && r[i] in ss
  {
    if |ss| == 0 then []
    else
      var kept := Survivors(ss[..|ss| - 1]);
      if Keeps(ss[|ss| - 1]) then kept + [ss[|ss| - 1]] else kept
  }

  /** The last pass of spriteSystem::update: Sprite::update on every sprite. */
  function UpdateAll(ss: seq<SpriteState>, t: Tick): seq<SpriteState>
    requires CanUpdate(ss, t.now)
  {
    seq(|ss|, i requires 0 <= i < |ss| => ss[i].Update(t))
  }

  /** Every sprite whose frame is due has a tile count to divide by. */
  predicate CanUpdate(ss: seq<SpriteState>, now: real) {
    forall i :: 0 <= i < |ss| ==> (ss[i].FrameDue(now) && ss[i].frame != ss[i].nFrames - 1 ==> ss[i].nTilesX != 0)
  }

  /** Every sprite shows the tile its frame selects. */
  predicate AllTiled(ss: seq<SpriteState>) {
    forall i :: 0 <= i < |ss| ==> ss[i].TileInvariant()
  }

  /** Whether a sprite overlaps at least one sprite of `others`. */
  predicate HitsAny(s: SpriteState, others: seq<SpriteState>) {
    exists j :: 0 <= j < |others| && s.IsColliding(others[j])
  }

  /** The receiver's sprites after spriteSystem::checkCollision: each one that
      overlaps a sprite of `theirs` is marked dead. */
  function KillHits(mine: seq<SpriteState>, theirs: seq<SpriteState>): (r: seq<SpriteState>)
    ensures |r| == |mine|
    ensures AllTiled(mine) ==> AllTiled(r)
  {
    seq(|mine|, i requires 0 <= i < |mine| =>
      if HitsAny(mine[i], theirs) then mine[i].(lifespan := 0.0) else mine[i])
  }

  //------------------------------------------------------------------ culling

  /** Culling distributes over concatenation, so it keeps relative order. */
  lemma {:induction false} SurvivorsAppend(a: seq<SpriteState>, b: seq<SpriteState>)
    ensures Survivors(a + b) == Survivors(a) + Survivors(b)
    decreases |b|
  {
    if |b| > 0 {
      var b' := b[..|b| - 1];
      assert (a + b)[..|a + b| - 1] == a + b';
      SurvivorsAppend(a, b');
    } else {
      assert a + b == a;
    }
  }

  /** Culling keeps each sprite the field keeps, as many times as it occurs,
      and nothing else. */
  lemma {:induction false} SurvivorsCount(ss: seq<SpriteState>, x: SpriteState)
    ensures multiset(Survivors(ss))[x] == if Keeps(x) then multiset(ss)[x] else 0
  {
    if |ss| > 0 {
      var init := ss[..|ss| - 1];
      SurvivorsCount(init, x);
      assert ss == init + [ss[|ss| - 1]];
    }
  }

  lemma SurvivorsMembers(ss: seq<SpriteState>, x: SpriteState)
    ensures x in Survivors(ss) <==> x in ss && Keeps(x)
  {
    SurvivorsCount(ss, x);
    assert x in Survivors(ss) <==> multiset(Survivors(ss))[x] > 0;
    assert x in ss <==> multiset(ss)[x] > 0;
  }

  /** Culling a culled system changes nothing. */
  lemma {:induction false} SurvivorsIdempotent(ss: seq<SpriteState>)
    ensures Survivors(Survivors(ss)) == Survivors(ss)
  {
    if |ss| > 0 {
      var init := ss[..|ss| - 1];
      SurvivorsIdempotent(init);
      var last := ss[|ss| - 1];
      if Keeps(last) {
        SurvivorsAppend(Survivors(init), [last]);
        assert Survivors([last]) == Survivors([])+ [last] by {
          assert [last][..0] == [];
        }
      }
    }
  }

  lemma SurvivorsOfEmpty()
    ensures Survivors([]) == []
  {
  }

  //------------------------------------------------------------------ updating

  /** Updating every sprite keeps each sprite's lifespan and tile invariant. */
  lemma UpdateAllKeeps(ss: seq<SpriteState>, t: Tick)
    requires AllTiled(ss)
    ensures CanUpdate(ss, t.now)
    ensures |UpdateAll(ss, t)| == |ss|
    ensures AllTiled(UpdateAll(ss, t))
    ensures forall i :: 0 <= i < |ss| ==> UpdateAll(ss, t)[i].lifespan == ss[i].lifespan
  {
    forall i | 0 <= i < |ss|
      ensures UpdateAll(ss, t)[i].TileInvariant()
    {
      UpdateKeepsTile(ss[i], t);
    }
  }

  /** After a whole update no sprite is dead and every sprite still shows the
      tile its frame selects. */
  lemma SystemUpdateInvariant(ss: seq<SpriteState>, t: Tick)
    requires AllTiled(ss)
    ensures AllTiled(Survivors(ss)) && CanUpdate(Survivors(ss), t.now)
    ensures AllTiled(UpdateAll(Survivors(ss), t))
    ensures forall s :: s in UpdateAll(Survivors(ss), t) ==> s.lifespan != 0.0
  {
    var kept := Survivors(ss);
    forall i | 0 <= i < |kept|
      ensures kept[i].TileInvariant()
    {
      SurvivorsMembers(ss, kept[i]);
    }
    UpdateAllKeeps(kept, t);
  }

  //------------------------------------------------------------------ collisions

  /** checkCollision marks exactly the receiver's sprites that overlap one of
      the argument's, and changes nothing else. */
  lemma KillHitsMarksExactlyHits(mine: seq<SpriteState>, theirs: seq<SpriteState>)
    ensures |KillHits(mine, theirs)| == |mine|
    ensures forall i :: 0 <= i < |mine| ==>
      KillHits(mine, theirs)[i] == mine[i].(lifespan := KillHits(mine, theirs)[i].lifespan)
    ensures forall i :: 0 <= i < |mine| ==>
      (KillHits(mine, theirs)[i].lifespan == 0.0 <==> mine[i].lifespan == 0.0 || HitsAny(mine[i], theirs))
    ensures forall i :: 0 <= i < |mine| && !HitsAny(mine[i], theirs) ==> KillHits(mine, theirs)[i] == mine[i]
  {
  }

  /** Checking A against B and then B against the marked A marks both sprites
      of every overlapping pair; a sprite of B that overlaps nothing in A is
      left as it was. */
  lemma MutualCollision(a: seq<SpriteState>, b: seq<SpriteState>)
    ensures var a1 := KillHits(a, b); var b1 := KillHits(b, a1);
      |a1| == |a| && |b1| == |b|
      && (forall i, j :: 0 <= i < |a| && 0 <= j < |b| && a[i].IsColliding(b[j]) ==>
            a1[i].lifespan == 0.0 && b1[j].lifespan == 0.0)
      && (forall j :: 0 <= j < |b| && !HitsAny(b[j], a) ==> b1[j] == b[j])
  {
    var a1 := KillHits(a, b);
    var b1 := KillHits(b, a1);
    forall i, j | 0 <= i < |a| && 0 <= j < |b| && a[i].IsColliding(b[j])
      ensures a1[i].lifespan == 0.0 && b1[j].lifespan == 0.0
    {
      CollisionSymmetric(a[i], b[j]);
      CollisionReadsOnlyBox(b[j], a[i], b[j], a1[i]);
      assert b[j].IsColliding(a1[i]);
    }
    forall j | 0 <= j < |b| && !HitsAny(b[j], a)
      ensures b1[j] == b[j]
    {
      forall i | 0 <= i < |a1|
        ensures !b[j].IsColliding(a1[i])
      {
        CollisionReadsOnlyBox(b[j], a[i], b[j], a1[i]);
      }
    }
  }

  /** After checkCollision, the next update keeps exactly the sprites it would
      have kept that overlapped nothing. */
  lemma CollisionThenCull(mine: seq<SpriteState>, theirs: seq<SpriteState>, x: SpriteState)
    ensures x in Survivors(KillHits(mine, theirs)) <==> x in mine && Keeps(x) && !HitsAny(x, theirs)
  {
    var k := KillHits(mine, theirs);
    SurvivorsMembers(k, x);
    SurvivorsMembers(mine, x);
    if x in k && Keeps(x) {
      var i :| 0 <= i < |k| && k[i] == x;
      assert x == mine[i];
    }
    if x in mine && Keeps(x) && !HitsAny(x, theirs) {
      var i :| 0 <= i < |mine| && mine[i] == x;
      assert k[i] == x;
    }
  }

  //------------------------------------------------------------------ the object

  class SpriteSystem {
    var sprites: seq<SpriteState>

    constructor ()
      ensures sprites == []
    {
      sprites := [];
    }

    /** spriteSystem::addSprite: append a copy. */
    method AddSprite(s: SpriteState)
      modifies this
      ensures sprites == old(sprites) + [s]
    {
      sprites := sprites + [s];
    }

    /** The copy assignment `system = other` of the C++ code. */
    method CopyFrom(other: SpriteSystem)
      modifies this
      ensures sprites == old(other.sprites)
    {
      sprites := other.sprites;
    }

    /** spriteSystem::update: mark the sprites off the field, erase every dead
        sprite in one pass, then update the rest. Each pass is a method below. */
    method Update(t: Tick)
      requires CanUpdate(Survivors(sprites), t.now)
      modifies this
      ensures sprites == UpdateAll(Survivors(old(sprites)), t)
    {
      if |sprites| == 0 {
        return;
      }
      ghost var original := sprites;
      KillOutOfBounds();
      EraseDead(original);
      UpdateEach(t);
    }

    /** First pass of spriteSystem::update (src/ofApp.cpp:166-170). */
    method KillOutOfBounds()
      modifies this
      ensures |sprites| == |old(sprites)|
      ensures forall m :: 0 <= m < |sprites| ==> sprites[m] == MarkOutOfBounds(old(sprites)[m])
    {
      ghost var original := sprites;
      for j := 0 to |sprites|
        invariant |sprites| == |original|
        invariant forall m :: 0 <= m < j ==> sprites[m] == MarkOutOfBounds(original[m])
        invariant forall m :: j <= m < |sprites| ==> sprites[m] == original[m]
      {
        if sprites[j].pos.x > FieldWidth || sprites[j].pos.x < 0.0
          || sprites[j].pos.y > FieldHeight || sprites[j].pos.y < 0.0 {
          sprites := sprites[j := sprites[j].(lifespan := 0.0)];
        }
      }
    }

    /** Second pass of spriteSystem::update (src/ofApp.cpp:175-183): erase each
        sprite whose lifespan is zero, stepping past the survivors, so that no
        sprite is skipped or visited twice. */
    method EraseDead(ghost original: seq<SpriteState>)
      requires |sprites| == |original|
      requires forall m :: 0 <= m < |sprites| ==> sprites[m] == MarkOutOfBounds(original[m])
      modifies this
      ensures sprites == Survivors(original)
    {
      ghost var marked := sprites;
      var i := 0;
      ghost var k := 0;  // the position in the vector before any erase
      while i < |sprites|
        invariant 0 <= i <= |sprites| && 0 <= k <= |original|
        invariant |sprites| - i == |original| - k
        invariant sprites[..i] == Survivors(original[..k])
        invariant sprites[i..] == marked[k..]
      {
        assert original[..k + 1][..k] == original[..k];
        assert sprites[i + 1..] == sprites[i..][1..] == marked[k..][1..] == marked[k + 1..];
        if sprites[i].lifespan == 0.0 {
          assert Survivors(original[..k + 1]) == Survivors(original[..k]);
          var rest := sprites[i + 1..];
          sprites := sprites[..i] + rest;
          assert sprites[i..] == rest;
        } else {
          assert Survivors(original[..k + 1]) == Survivors(original[..k]) + [original[k]];
          assert sprites[..i + 1] == sprites[..i] + [sprites[i]];
          i := i + 1;
        }
        k := k + 1;
      }
      assert original[..k] == original;
    }

    /** Last pass of spriteSystem::update (src/ofApp.cpp:187-189). */
    method UpdateEach(t: Tick)
      requires CanUpdate(sprites, t.now)
      modifies this
      ensures sprites == UpdateAll(old(sprites), t)
    {
      ghost var kept := sprites;
      for m := 0 to |sprites|
        invariant |sprites| == |kept|
        invariant forall n :: 0 <= n < m ==> sprites[n] == kept[n].Update(t)
        invariant forall n :: m <= n < |sprites| ==> sprites[n] == kept[n]
      {
        sprites := sprites[m := sprites[m].Update(t)];
      }
    }

    /** spriteSystem::checkCollision. The argument is taken by value: the marks
        written to its sprites land in a copy the caller never sees, so only
        the receiver's sprites change. */
    method CheckCollision(other: SpriteSystem)
      modifies this
      ensures sprites == KillHits(old(sprites), old(other.sprites))
    {
      var s := other.sprites;
      ghost var theirs := s;
      ghost var mine := sprites;
      for i := 0 to |sprites|
        invariant |sprites| == |mine| && |s| == |theirs|
        invariant forall n :: 0 <= n < |s| ==> SameBox(s[n], theirs[n])
        invariant forall m :: 0 <= m < i ==> sprites[m] == KillHits(mine, theirs)[m]
        invariant forall m :: i <= m < |sprites| ==> sprites[m] == mine[m]
      {
        HitsAnySameBoxes(sprites[i], s, theirs);
        s := MarkAgainst(i, s);
      }
      assert sprites == KillHits(mine, theirs);
    }

    /** The inner loop of spriteSystem::checkCollision for the receiver's
        sprite `i`: it is marked dead if it overlaps a sprite of the copy `s`,
        and each sprite of the copy it overlaps is marked dead in the copy. */
    method MarkAgainst(i: int, s: seq<SpriteState>) returns (s': seq<SpriteState>)
      requires 0 <= i < |sprites|
      modifies this
      ensures var me := old(sprites)[i];
        sprites == old(sprites)[i := if HitsAny(me, s) then me.(lifespan := 0.0) else me]
      ensures |s'| == |s| && forall n :: 0 <= n < |s| ==> SameBox(s'[n], s[n])
    {
      s' := s;
      ghost var me := sprites[i];
      for j := 0 to |s'|
        invariant |s'| == |s| && forall n :: 0 <= n < |s| ==> SameBox(s'[n], s[n])
        invariant sprites == old(sprites)[i := if HitsBefore(me, s, j) then me.(lifespan := 0.0) else me]
      {
        CollisionReadsOnlyBox(sprites[i], s'[j], me, s[j]);
        if sprites[i].IsColliding(s'[j]) {
          sprites := sprites[i := sprites[i].(lifespan := 0.0)];
          s' := s'[j := s'[j].(lifespan := 0.0)];
        }
      }
    }
  }

  /** Whether a sprite hits one of a system's sprites depends only on their boxes. */
  lemma HitsAnySameBoxes(x: SpriteState, a: seq<SpriteState>, b: seq<SpriteState>)
    requires |a| == |b| && forall n :: 0 <= n < |a| ==> SameBox(a[n], b[n])
    ensures HitsAny(x, a) <==> HitsAny(x, b)
  {
    forall n | 0 <= n < |a|
      ensures x.IsColliding(a[n]) <==> x.IsColliding(b[n])
    {
      CollisionReadsOnlyBox(x, a[n], x, b[n]);
    }
  }

  /** Whether a sprite overlaps one of the first `n` sprites of `others`. */
  predicate HitsBefore(s: SpriteState, others: seq<SpriteState>, n: int)
    requires 0 <= n <= |others|
  {
    exists j :: 0 <= j < n && s.IsColliding(others[j])
  }

  /** Two sprites with the same position and collision box. */
  predicate SameBox(a: SpriteState, b: SpriteState) {
    a.pos.x == b.pos.x && a.pos.y == b.pos.y && a.cWidth == b.cWidth && a.cHeight == b.cHeight
  }
}
