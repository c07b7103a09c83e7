/** Mario's physics step in r1smb4k.py: the same input and gravity phase, then a
    two-pass (horizontal, then vertical) collision resolution per platform, then
    the floor clamp. There is no left-edge clamp. */
module Smb4kMario {
  import opened Geometry
  import opened Level
  import opened Kinematics
  import Smb3Mario

  /** One platform of the loop. `r` is the rectangle the horizontal test uses: the
      one recomputed by the previous platform's vertical test (before that test's
      snap), or the one computed after moving for the first platform. The vertical
      test uses a rectangle recomputed after the horizontal snap. The result carries
      that rectangle on to the next platform. */
  function Separate(b: Body, r: Rect, p: Rect): (Body, Rect) {
    var b1 := if !Collide(r, p) then b
              else if b.velX > 0.0 then b.(x := p.left - MarioWidth)
              else if b.velX < 0.0 then b.(x := p.Right())
              else b;
    var r1 := BodyRect(b1);
    var b2 := if !Collide(r1, p) then b1
              else if b1.velY > 0.0 then b1.(y := p.top - MarioHeight, onGround := true, velY := 0.0)
              else if b1.velY < 0.0 then b1.(y := p.Bottom(), velY := 0.0)
              else b1;
    (b2, r1)
  }

  /** The two-pass resolution over the platform list, in order. */
  function Sweep(b: Body, r: Rect, ps: seq<Platform>): (Body, Rect)
    decreases |ps|
  {
    if ps == [] then (b, r)
    else
      var prev := Sweep(b, r, ps[..|ps| - 1]);
      Separate(prev.0, prev.1, ps[|ps| - 1].Bounds())
  }

  /** The floor clamp, which also grounds the body. */
  function FloorClamp(b: Body): Body {
    if b.y > FloorY then b.(y := FloorY, onGround := true, velY := 0.0) else b
  }

  /** One call of Mario.update, as a function of the body before it. */
  function Step(b: Body, keys: Keys, ps: seq<Platform>): Body {
    var k := Integrate(b, keys);
    FloorClamp(Sweep(k, BodyRect(k), ps).0)
  }

  /** Resolution never touches the horizontal velocity, only ever zeroes the
      vertical one, and grounds the body only together with zeroing it. */
  lemma {:induction false} SweepKeeps(b: Body, r: Rect, ps: seq<Platform>)
    ensures Sweep(b, r, ps).0.velX == b.velX
    ensures Sweep(b, r, ps).0.velY == b.velY || Sweep(b, r, ps).0.velY == 0.0
    ensures (b.onGround ==> b.velY == 0.0) ==> (Sweep(b, r, ps).0.onGround ==> Sweep(b, r, ps).0.velY == 0.0)
    decreases |ps|
  {
    if ps != [] {
      SweepKeeps(b, r, ps[..|ps| - 1]);
    }
  }

  /** After every update: the horizontal velocity is the keys' choice (left wins),
      the fall speed is capped, the body is above the bottom screen edge, and a
      grounded body has no vertical velocity. */
  lemma StepBounds(b: Body, keys: Keys, ps: seq<Platform>)
    ensures Step(b, keys, ps).velX == HorizontalSpeed(keys)
    ensures Step(b, keys, ps).velY <= TerminalVelocity
    ensures Step(b, keys, ps).y <= FloorY
    ensures Step(b, keys, ps).onGround ==> Step(b, keys, ps).velY == 0.0
  {
    var k := Integrate(b, keys);
    SweepKeeps(k, BodyRect(k), ps);
  }

  /** The vertical pass separates: whenever the body is still moving vertically
      when it reaches it, the body leaves the platform no longer overlapping it. */
  lemma SeparateLeavesNoOverlap(b: Body, r: Rect, p: Rect)
    requires b.velY != 0.0
    ensures !Collide(BodyRect(Separate(b, r, p).0), p)
  {
    var b1 := if !Collide(r, p) then b
              else if b.velX > 0.0 then b.(x := p.left - MarioWidth)
              else if b.velX < 0.0 then b.(x := p.Right())
              else b;
    assert b1.velY == b.velY;
  }

  /** Nothing keeps Mario inside the left screen edge: walking left from x = 0 in
      open air takes him to x = -5, where the first game's clamp holds him at 0. */
  lemma NoLeftClamp()
    ensures Step(Body(0.0, 100.0, 0.0, 0.0, false), Keys(true, false, false), []).x == -Speed
    ensures Smb3Mario.Step(Body(0.0, 100.0, 0.0, 0.0, false), Keys(true, false, false), []).x == 0.0
  {
  }

  /** The two games resolve the same corner contact differently. Falling to the
      right into the top-left corner of a platform, the first game's classifier
      lands Mario on top; this game's horizontal pass pushes him out to the left
      first, and the vertical pass then finds no overlap, so he keeps falling. */
  lemma CornerPolicies()
    ensures var k := Body(70.0, 75.0, Speed, 5.0, false);
            var p := Platform(100.0, 100.0, 100.0, 20.0);
            Smb3Mario.Resolve(k, BodyRect(k), [p]) == Body(70.0, 68.0, Speed, 0.0, true) &&
            Sweep(k, BodyRect(k), [p]).0 == Body(68.0, 75.0, Speed, 5.0, false)
  {
    var k := Body(70.0, 75.0, Speed, 5.0, false);
    var p := Platform(100.0, 100.0, 100.0, 20.0);
    assert [p][..0] == [];
  }

  class Mario {
    var x: real
    var y: real
    var velX: real
    var velY: real
    var onGround: bool

    constructor (x: real, y: real)
      ensures State() == Body(x, y, 0.0, 0.0, false)
    {
      this.x := x;
      this.y := y;
      velX := 0.0;
      velY := 0.0;
      onGround := false;
    }

    function State(): Body
      reads this
    {
      Body(x, y, velX, velY, onGround)
    }

    /** The input, gravity and movement phase of Mario.update. */
    method Move(keys: Keys)
      modifies this
      ensures State() == Integrate(old(State()), keys)
    {
      velX := 0.0;
      if keys.right {
        velX := Speed;
      }
      if keys.left {
        velX := -Speed;
      }
      if keys.jump && onGround {
        velY := -JumpPower;
        onGround := false;
      }
      velY := velY + Gravity;
      if velY > TerminalVelocity {
        velY := TerminalVelocity;
      }
      x := x + velX;
      y := y + velY;
      onGround := false;
    }

    /** The platform loop of Mario.update: a horizontal, then a vertical test per platform. */
    method CollidePlatforms(platforms: seq<Platform>)
      modifies this
      ensures State() == Sweep(old(State()), BodyRect(old(State())), platforms).0
    {
      var marioRect := Rect(x, y, MarioWidth, MarioHeight);
      ghost var start := State();
      for i := 0 to |platforms|
        invariant (State(), marioRect) == Sweep(start, BodyRect(start), platforms[..i])
      {
        var plat := platforms[i].Bounds();
        if Collide(marioRect, plat) {
          if velX > 0.0 {
            x := plat.left - MarioWidth;
          } else if velX < 0.0 {
            x := plat.Right();
          }
        }
        marioRect := Rect(x, y, MarioWidth, MarioHeight);
        if Collide(marioRect, plat) {
          if velY > 0.0 {
            y := plat.top - MarioHeight;
            onGround := true;
            velY := 0.0;
          } else if velY < 0.0 {
            y := plat.Bottom();
            velY := 0.0;
          }
        }
        assert platforms[..i + 1][..i] == platforms[..i];
      }
      assert platforms[..|platforms|] == platforms;
    }

    /** One tick of Mario.update with the polled keys. */
    method Update(keys: Keys, platforms: seq<Platform>)
      modifies this
      ensures State() == Step(old(State()), keys, platforms)
      ensures velX == HorizontalSpeed(keys) && velY <= TerminalVelocity
      ensures y <= FloorY && (onGround ==> velY == 0.0)
    {
      Move(keys);
      CollidePlatforms(platforms);
      if y > FloorY {
        y := FloorY;
        onGround := true;
        velY := 0.0;
      }
      StepBounds(old(State()), keys, platforms);
    }
  }
}
