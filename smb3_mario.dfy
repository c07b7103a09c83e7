/** Mario's physics step in smb31.010.4.25.py: input, gravity, a directional
    collision classifier per platform, then the floor and left-edge clamps. */
module Smb3Mario {
  import opened Geometry
  import opened Level
  import opened Kinematics

  /** The classifier for one platform. `r` is the rectangle computed once,
      before the loop, from the integrated position; it is not recomputed after a
      snap. The velocity tests read the body's current velocities, which an
      earlier platform may already have zeroed. The first matching case wins. */
  function Classify(b: Body, r: Rect, p: Rect): Body {
    if !Collide(r, p) then b
    else if b.velY > 0.0 && r.Bottom() > p.top && r.top < p.top then
      b.(y := p.top - MarioHeight, onGround := true, velY := 0.0)        // landing on top
    else if b.velY < 0.0 && r.top < p.Bottom() && r.Bottom() > p.Bottom() then
      b.(y := p.Bottom(), velY := 0.0)                                   // bumping from below
    else if b.velX > 0.0 && r.Right() > p.left && r.left < p.left then
      b.(x := p.left - MarioWidth)                                        // wall on the right
    else if b.velX < 0.0 && r.left < p.Right() && r.Right() > p.Right() then
      b.(x := p.Right())                                                  // wall on the left
    else b
  }

  /** The classifier applied to every platform in list order. */
  function Resolve(b: Body, r: Rect, ps: seq<Platform>): Body
    decreases |ps|
  {
    if ps == [] then b else Classify(Resolve(b, r, ps[..|ps| - 1]), r, ps[|ps| - 1].Bounds())
  }

  /** The floor clamp (which also grounds the body) and then the left clamp. */
  function ClampToScreen(b: Body): Body {
    var b1 := if b.y > FloorY then b.(y := FloorY, onGround := true, velY := 0.0) else b;
    if b1.x < 0.0 then b1.(x := 0.0) else b1
  }

  /** One call of Mario.update, as a function of the body before it. */
  function Step(b: Body, keys: Keys, ps: seq<Platform>): Body {
    var k := Integrate(b, keys);
    ClampToScreen(Resolve(k, BodyRect(k), ps))
  }

  /** Resolution never touches the horizontal velocity, only ever zeroes the
      vertical one, and grounds the body only together with zeroing it. */
  lemma {:induction false} ResolveKeeps(b: Body, r: Rect, ps: seq<Platform>)
    ensures Resolve(b, r, ps).velX == b.velX
    ensures Resolve(b, r, ps).velY == b.velY || Resolve(b, r, ps).velY == 0.0
    ensures (b.onGround ==> b.velY == 0.0) ==> (Resolve(b, r, ps).onGround ==> Resolve(b, r, ps).velY == 0.0)
    decreases |ps|
  {
    if ps != [] {
      ResolveKeeps(b, r, ps[..|ps| - 1]);
    }
  }

  /** Resolution over a concatenation is resolution over each part in turn. */
  lemma {:induction false} ResolveAppend(b: Body, r: Rect, ps: seq<Platform>, qs: seq<Platform>)
    ensures Resolve(b, r, ps + qs) == Resolve(Resolve(b, r, ps), r, qs)
    decreases |qs|
  {
    if qs == [] {
      assert ps + qs == ps;
    } else {
      assert (ps + qs)[..|ps + qs| - 1] == ps + qs[..|qs| - 1];
      ResolveAppend(b, r, ps, qs[..|qs| - 1]);
    }
  }

  /** Platforms the rectangle does not touch leave the body as it is. */
  lemma {:induction false} ResolveMisses(b: Body, r: Rect, ps: seq<Platform>)
    requires forall j :: 0 <= j < |ps| ==> !Collide(r, ps[j].Bounds())
    ensures Resolve(b, r, ps) == b
    decreases |ps|
  {
    if ps != [] {
      ResolveMisses(b, r, ps[..|ps| - 1]);
    }
  }

  /** After every update: the horizontal velocity is the keys' choice (left wins),
      the fall speed is capped, the body is inside the left and bottom screen
      edges, and a grounded body has no vertical velocity. */
  lemma StepBounds(b: Body, keys: Keys, ps: seq<Platform>)
    ensures Step(b, keys, ps).velX == HorizontalSpeed(keys)
    ensures Step(b, keys, ps).velY <= TerminalVelocity
    ensures Step(b, keys, ps).x >= 0.0 && Step(b, keys, ps).y <= FloorY
    ensures Step(b, keys, ps).onGround ==> Step(b, keys, ps).velY == 0.0
  {
    var k := Integrate(b, keys);
    ResolveKeeps(k, BodyRect(k), ps);
  }

  /** While airborne the jump key changes nothing about the update. */
  lemma JumpIgnoredInAir(b: Body, keys: Keys, ps: seq<Platform>)
    requires !b.onGround
    ensures Step(b, keys, ps) == Step(b, keys.(jump := false), ps)
  {
  }

  /** A body standing still on platform k, with no key held, stays where it is
      and is grounded, provided no other platform reaches into the 0.8 it sinks
      under gravity before the classifier lifts it back. */
  lemma StandingIsStable(b: Body, ps: seq<Platform>, k: nat)
    requires k < |ps|
    requires b.velX == 0.0 && b.velY == 0.0
    requires 0.0 <= b.x && b.y <= FloorY
    requires b.y + MarioHeight == ps[k].y && ps[k].height > 0.0
    requires ps[k].x < b.x + MarioWidth && b.x < ps[k].x + ps[k].width
    requires forall j :: 0 <= j < |ps| && j != k ==>
      !Collide(Rect(b.x, b.y + Gravity, MarioWidth, MarioHeight), ps[j].Bounds())
    ensures Step(b, Keys(false, false, false), ps) == b.(onGround := true)
  {
    var keys := Keys(false, false, false);
    var kb := Integrate(b, keys);
    var r := BodyRect(kb);
    assert r == Rect(b.x, b.y + Gravity, MarioWidth, MarioHeight);
    assert ps == ps[..k] + [ps[k]] + ps[k + 1..];
    ResolveAppend(kb, r, ps[..k] + [ps[k]], ps[k + 1..]);
    ResolveAppend(kb, r, ps[..k], [ps[k]]);
    ResolveMisses(kb, r, ps[..k]);
    assert Resolve(kb, r, ps[..k] + [ps[k]]) == Classify(kb, r, ps[k].Bounds()) by {
      assert (ps[..k] + [ps[k]])[..k] == ps[..k];
    }
    var landed := b.(onGround := true);
    assert Classify(kb, r, ps[k].Bounds()) == landed;
    ResolveMisses(landed, r, ps[k + 1..]);
  }

  /** Mario standing on the ground strip of the level stays there. */
  lemma RestsOnGround(x: real)
    requires 0.0 <= x < 2400.0
    ensures Step(Body(x, 528.0, 0.0, 0.0, false), Keys(false, false, false), LevelPlatforms())
         == Body(x, 528.0, 0.0, 0.0, true)
  {
    StandingIsStable(Body(x, 528.0, 0.0, 0.0, false), LevelPlatforms(), 0);
  }

  class Mario {
    var x: real
    var y: real
    var velX: real
    var velY: real
    var onGround: bool
    /** 0 small, 1 super, 2 fire; only comparisons with 0 matter. */
    var powerUpState: int

    constructor (x: real, y: real)
      ensures State() == Body(x, y, 0.0, 0.0, false) && powerUpState == 0
    {
      this.x := x;
      this.y := y;
      velX := 0.0;
      velY := 0.0;
      onGround := false;
      powerUpState := 0;
    }

    function State(): Body
      reads this
    {
      Body(x, y, velX, velY, onGround)
    }

    /** The input, gravity and movement phase of Mario.update. */
    method Move(keys: Keys)
      modifies this`x, this`y, this`velX, this`velY, this`onGround
      ensures State() == Integrate(old(State()), keys)
    {
      velX := 0.0;
      if keys.right {
        velX := Speed;
      }
      if keys.left {
        velX := -Speed;
      }
      if keys.jump && onGround {
        velY := -JumpPower;
        onGround := false;
      }
      velY := velY + Gravity;
      if velY > TerminalVelocity {
        velY := TerminalVelocity;
      }
      x := x + velX;
      y := y + velY;
      onGround := false;
    }

    /** The platform loop of Mario.update, against the rectangle computed before it. */
    method CollidePlatforms(marioRect: Rect, platforms: seq<Platform>)
      modifies this`x, this`y, this`velY, this`onGround
      ensures State() == Resolve(old(State()), marioRect, platforms)
    {
      for i := 0 to |platforms|
        invariant State() == Resolve(old(State()), marioRect, platforms[..i])
      {
        var plat := platforms[i].Bounds();
        if Collide(marioRect, plat) {
          if velY > 0.0 && marioRect.Bottom() > plat.top && marioRect.top < plat.top {
            y := plat.top - MarioHeight;
            onGround := true;
            velY := 0.0;
          } else if velY < 0.0 && marioRect.top < plat.Bottom() && marioRect.Bottom() > plat.Bottom() {
            y := plat.Bottom();
            velY := 0.0;
          } else if velX > 0.0 && marioRect.Right() > plat.left && marioRect.left < plat.left {
            x := plat.left - MarioWidth;
          } else if velX < 0.0 && marioRect.left < plat.Right() && marioRect.Right() > plat.Right() {
            x := plat.Right();
          }
        }
        assert platforms[..i + 1][..i] == platforms[..i];
      }
      assert platforms[..|platforms|] == platforms;
    }

    /** One tick of Mario.update with the polled keys. */
    method Update(keys: Keys, platforms: seq<Platform>)
      modifies this`x, this`y, this`velX, this`velY, this`onGround
      ensures State() == Step(old(State()), keys, platforms)
      ensures velX == HorizontalSpeed(keys) && velY <= TerminalVelocity
      ensures x >= 0.0 && y <= FloorY && (onGround ==> velY == 0.0)
    {
      Move(keys);
      var marioRect := Rect(x, y, MarioWidth, MarioHeight);
      CollidePlatforms(marioRect, platforms);

      if y > FloorY {
        y := FloorY;
        onGround := true;
        velY := 0.0;
      }
      if x < 0.0 {
        x := 0.0;
      }
      StepBounds(old(State()), keys, platforms);
    }
  }
}
