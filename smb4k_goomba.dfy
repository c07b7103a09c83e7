/** The enemy of r1smb4k.py: it walks by its velocity and turns around as soon as
    one platform's horizontal span does not contain it. It never falls. */
module Smb4kGoomba {
  import opened Geometry
  import opened Level

  /** The edge test against one platform: some part of the goomba is outside the
      platform's horizontal span. */
  predicate OutsideSpan(x: real, p: Platform) {
    x < p.x || x + GoombaWidth > p.x + p.width
  }

  /** The loop turns the goomba around, at most once, when some platform's span
      does not contain it. */
  predicate Turns(x: real, ps: seq<Platform>) {
    exists j :: 0 <= j < |ps| && OutsideSpan(x, ps[j])
  }

  /** The part of a goomba that its update reads and writes. */
  datatype Pace = Pace(x: real, velX: real)

  /** One call of Goomba.update for a live goomba. */
  function PaceStep(g: Pace, ps: seq<Platform>): Pace {
    var moved := g.x + g.velX;
    Pace(moved, if Turns(moved, ps) then -g.velX else g.velX)
  }

  /** No position lies inside the spans of both the platform at 200..400 and the
      one at 500..650, so on the level's platforms every step turns the goomba. */
  lemma {:induction false} AlwaysTurnsOnLevel(x: real)
    ensures Turns(x, LevelPlatforms())
  {
    var ps := LevelPlatforms();
    if x < 500.0 {
      assert OutsideSpan(x, ps[2]);
    } else {
      assert OutsideSpan(x, ps[1]);
    }
  }

  /** Consequently, on the level's platforms a goomba only jitters: two updates
      bring it back to where it was, moving the same way. */
  lemma Jitters(g: Pace)
    ensures PaceStep(PaceStep(g, LevelPlatforms()), LevelPlatforms()) == g
  {
    AlwaysTurnsOnLevel(g.x + g.velX);
    AlwaysTurnsOnLevel(g.x + g.velX - g.velX);
  }

  class Goomba {
    var x: real
    var y: real
    var velX: real
    var alive: bool

    constructor (x: real, y: real)
      ensures x == this.x && y == this.y && velX == -1.0 && alive
    {
      this.x := x;
      this.y := y;
      velX := -1.0;
      alive := true;
    }

    function State(): Pace
      reads this
    {
      Pace(x, velX)
    }

    /** One tick of Goomba.update. */
    method Update(platforms: seq<Platform>)
      modifies this`x, this`velX
      ensures old(alive) ==> State() == PaceStep(old(State()), platforms)
      ensures !old(alive) ==> State() == old(State())
    {
      if alive {
        x := x + velX;
        for i := 0 to |platforms|
          invariant x == old(x) + old(velX) && velX == old(velX)
          invariant forall j :: 0 <= j < i ==> !OutsideSpan(x, platforms[j])
        {
          if x < platforms[i].x || x + GoombaWidth > platforms[i].x + platforms[i].width {
            velX := velX * -1.0;
            break;
          }
        }
      }
    }
  }
}
