/** The patrolling enemy of smb31.010.4.25.py: walk, bounce off every platform
    it runs into, and drop a fixed 5 pixels per tick while unsupported. */
module Smb3Goomba {
  import opened Geometry
  import opened Level

  const FallStep: real := 5.0
  /** The goomba only falls while its y is above this (its bottom above the screen's bottom). */
  const GoombaFloorY: real := ScreenHeight - GoombaHeight

  /** The ground check: the goomba's bottom edge is exactly the platform's top edge
      and the two overlap strictly in x. */
  predicate RestsOn(r: Rect, p: Rect) {
    r.Bottom() == p.top && r.Right() > p.left && r.left < p.Right()
  }

  predicate Supported(r: Rect, ps: seq<Platform>) {
    exists j :: 0 <= j < |ps| && RestsOn(r, ps[j].Bounds())
  }

  /** Horizontal position and velocity while the wall checks run. */
  datatype Walk = Walk(x: real, velX: real)

  /** The wall check against one platform. The rectangle is the one computed after
      moving, before the loop; the direction test reads the current velocity, which an
      earlier wall may already have reversed. */
  function Bounce(w: Walk, r: Rect, p: Rect): Walk {
    if !Collide(r, p) then w
    else if w.velX > 0.0 then Walk(p.left - GoombaWidth, -w.velX)
    else if w.velX < 0.0 then Walk(p.Right(), -w.velX)
    else w
  }

  /** The wall checks over the platform list, in order. */
  function Bounces(w: Walk, r: Rect, ps: seq<Platform>): Walk
    decreases |ps|
  {
    if ps == [] then w else Bounce(Bounces(w, r, ps[..|ps| - 1]), r, ps[|ps| - 1].Bounds())
  }

  /** How many platforms of the list the rectangle overlaps. */
  function Hits(r: Rect, ps: seq<Platform>): nat
    decreases |ps|
  {
    if ps == [] then 0
    else Hits(r, ps[..|ps| - 1]) + (if Collide(r, ps[|ps| - 1].Bounds()) then 1 else 0)
  }

  lemma {:induction false} HitsNone(r: Rect, ps: seq<Platform>)
    requires forall j :: 0 <= j < |ps| ==> !Collide(r, ps[j].Bounds())
    ensures Hits(r, ps) == 0
    decreases |ps|
  {
    if ps != [] {
      HitsNone(r, ps[..|ps| - 1]);
    }
  }

  /** The velocity is reversed once per overlapped platform: an even number of
      overlaps leaves the direction as it was. In particular the speed never changes. */
  lemma {:induction false} BouncesParity(w: Walk, r: Rect, ps: seq<Platform>)
    ensures Bounces(w, r, ps).velX == if Hits(r, ps) % 2 == 0 then w.velX else -w.velX
    decreases |ps|
  {
    if ps != [] {
      BouncesParity(w, r, ps[..|ps| - 1]);
    }
  }

  /** With no overlap the walk is untouched; otherwise a moving goomba ends with x at
      the left edge minus its width, or at the right edge, of some platform it overlaps. */
  lemma {:induction false} BouncesSnap(w: Walk, r: Rect, ps: seq<Platform>)
    ensures Hits(r, ps) == 0 ==> Bounces(w, r, ps) == w
    ensures w.velX != 0.0 && Hits(r, ps) > 0 ==>
      exists j :: 0 <= j < |ps| && Collide(r, ps[j].Bounds()) &&
        (Bounces(w, r, ps).x == ps[j].x - GoombaWidth || Bounces(w, r, ps).x == ps[j].x + ps[j].width)
    decreases |ps|
  {
    if ps != [] {
      var init := ps[..|ps| - 1];
      BouncesSnap(w, r, init);
      BouncesParity(w, r, init);
      var last := |ps| - 1;
      if Collide(r, ps[last].Bounds()) {
        if w.velX != 0.0 {
          assert Bounces(w, r, ps).x == ps[last].x - GoombaWidth || Bounces(w, r, ps).x == ps[last].x + ps[last].width;
        }
      } else if w.velX != 0.0 && Hits(r, ps) > 0 {
        var j :| 0 <= j < |init| && Collide(r, init[j].Bounds()) &&
          (Bounces(w, r, init).x == init[j].x - GoombaWidth || Bounces(w, r, init).x == init[j].x + init[j].width);
        assert init[j] == ps[j];
      }
    }
  }

  /** The part of a goomba that its update reads and writes. */
  datatype Patrol = Patrol(x: real, y: real, velX: real)

  /** One call of Goomba.update for a live goomba. */
  function PatrolStep(g: Patrol, ps: seq<Platform>): Patrol {
    var moved := g.x + g.velX;
    var r := GoombaRect(moved, g.y);
    var w := Bounces(Walk(moved, g.velX), r, ps);
    Patrol(w.x, if !Supported(r, ps) && g.y < GoombaFloorY then g.y + FallStep else g.y, w.velX)
  }

  /** A goomba on the ground strip of the level, clear of its ends, is supported,
      meets no wall, and just walks on by its velocity. */
  lemma WalksAlongGround(g: Patrol)
    requires g.y == ScreenHeight - 40.0 - GoombaHeight
    requires -GoombaWidth < g.x + g.velX < ScreenWidth * 3.0
    ensures PatrolStep(g, LevelPlatforms()) == Patrol(g.x + g.velX, g.y, g.velX)
  {
    var ps := LevelPlatforms();
    var r := GoombaRect(g.x + g.velX, g.y);
    assert RestsOn(r, ps[0].Bounds());
    HitsNone(r, ps);
    BouncesSnap(Walk(g.x + g.velX, g.velX), r, ps);
  }

  class Goomba {
    var x: real
    var y: real
    var velX: real
    var alive: bool

    constructor (x: real, y: real)
      ensures State() == Patrol(x, y, -1.0) && alive
    {
      this.x := x;
      this.y := y;
      velX := -1.0;
      alive := true;
    }

    function State(): Patrol
      reads this
    {
      Patrol(x, y, velX)
    }

    /** One tick of Goomba.update. */
    method Update(platforms: seq<Platform>)
      modifies this`x, this`y, this`velX
      ensures alive == old(alive)
      ensures !old(alive) ==> State() == old(State())
      ensures old(alive) ==> State() == PatrolStep(old(State()), platforms)
      ensures velX == old(velX) || velX == -old(velX)
      ensures old(alive) ==>
        (y == old(y) + FallStep <==>
           !Supported(GoombaRect(old(x) + old(velX), old(y)), platforms) && old(y) < GoombaFloorY)
      ensures y == old(y) || y == old(y) + FallStep
    {
      if alive {
        x := x + velX;

        var onGround := false;
        var goombaRect := Rect(x, y, GoombaWidth, GoombaHeight);
        ghost var start := Walk(x, velX);
        for i := 0 to |platforms|
          invariant onGround <==> exists j :: 0 <= j < i && RestsOn(goombaRect, platforms[j].Bounds())
          invariant Walk(x, velX) == Bounces(start, goombaRect, platforms[..i])
          invariant y == old(y)
        {
          var plat := platforms[i].Bounds();
          if goombaRect.Bottom() == plat.top && goombaRect.Right() > plat.left && goombaRect.left < plat.Right() {
            onGround := true;
          }
          if Collide(goombaRect, plat) {
            if velX > 0.0 {
              x := plat.left - GoombaWidth;
              velX := velX * -1.0;
            } else if velX < 0.0 {
              x := plat.Right();
              velX := velX * -1.0;
            }
          }
          assert platforms[..i + 1][..i] == platforms[..i];
        }
        assert platforms[..|platforms|] == platforms;

        if !onGround && y < GoombaFloorY {
          y := y + FallStep;
        }
        BouncesParity(start, goombaRect, platforms);
      }
    }
  }
}
