/** The input-and-gravity phase of Mario.update, identical in both games. */
module Kinematics {
  import opened Geometry

  /** The keys polled each tick: left arrow, right arrow and space. */
  datatype Keys = Keys(left: bool, right: bool, jump: bool)

  const MarioWidth: real := 32.0
  const MarioHeight: real := 32.0
  const Speed: real := 5.0
  const JumpPower: real := 15.0
  const Gravity: real := 0.8
  const TerminalVelocity: real := 15.0
  /** The lowest y the floor clamp allows: the body's bottom on the screen's bottom edge. */
  const FloorY: real := ScreenHeight - MarioHeight

  /** The part of Mario that the physics step reads and writes. */
  datatype Body = Body(x: real, y: real, velX: real, velY: real, onGround: bool)

  function BodyRect(b: Body): Rect { Rect(b.x, b.y, MarioWidth, MarioHeight) }

  /** Horizontal speed chosen from the keys: left takes precedence over right. */
  function HorizontalSpeed(keys: Keys): real {
    if keys.left then -Speed else if keys.right then Speed else 0.0
  }

  /** Vertical velocity before gravity: the jump impulse needs the jump key and solid ground. */
  function TakeOffVelocity(b: Body, keys: Keys): real {
    if keys.jump && b.onGround then -JumpPower else b.velY
  }

  /** Input, gravity with its terminal-velocity cap, and position integration;
      the grounded flag is cleared, to be recomputed by collision resolution. */
  function Integrate(b: Body, keys: Keys): (r: Body)
    ensures !r.onGround
    ensures r.velY <= TerminalVelocity
    ensures r.velX in {-Speed, 0.0, Speed}
    ensures r.x - b.x == r.velX && r.y - b.y == r.velY
  {
    var vx := HorizontalSpeed(keys);
    var vy := Min(TakeOffVelocity(b, keys) + Gravity, TerminalVelocity);
    Body(b.x + vx, b.y + vy, vx, vy, false)
  }

  /** The jump key has no effect unless the body is grounded. */
  lemma JumpNeedsGround(b: Body, keys: Keys)
    ensures Integrate(b, keys) != Integrate(b, keys.(jump := false)) ==> b.onGround && keys.jump
    ensures b.onGround && b.velY == 0.0 && keys.jump ==>
      Integrate(b, keys).velY == Gravity - JumpPower &&
      Integrate(b, keys.(jump := false)).velY == Gravity
  {
  }
}
