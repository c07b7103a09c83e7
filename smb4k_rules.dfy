/** The pure rules behind Game.handle_collisions and Game.update_camera in
    r1smb4k.py: 100 points per coin with no coin tally, stomp versus damage with
    no power-ups, the end of the game at zero lives, and a camera with no right limit. */
module Smb4kRules {
  import opened Geometry
  import opened Level

  /** The game counters and the parts of Mario that the collision rules read and write. */
  datatype Session = Session(score: int, lives: int, running: bool, x: real, y: real, velY: real)

  /** Once the lives are used up the game is no longer running. */
  predicate Consistent(s: Session) { s.lives <= 0 ==> !s.running }

  /** The coin loop: 100 points for each coin the fixed rectangle collects. */
  function Gains(score: int, r: Rect, cs: seq<CoinView>): int
    decreases |cs|
  {
    if cs == [] then score
    else Gains(score, r, cs[..|cs| - 1]) + (if Collects(r, cs[|cs| - 1]) then CoinReward else 0)
  }

  lemma {:induction false} GainsCount(score: int, r: Rect, cs: seq<CoinView>)
    ensures Gains(score, r, cs) == score + CoinReward * NewCoins(r, cs)
    decreases |cs|
  {
    if cs != [] {
      GainsCount(score, r, cs[..|cs| - 1]);
    }
  }

  /** Mario is falling and his top is above the goomba's top. */
  predicate Stomps(s: Session, g: GoombaView) { s.velY > 0.0 && s.y < g.y }

  /** One goomba of the combat loop. The overlap uses the rectangle computed before
      both loops; the stomp test reads Mario's current y and velocity. A hit costs
      a life and sends Mario back to the start; the camera is left where it is. */
  function Contact(s: Session, r: Rect, g: GoombaView): Session {
    if !Touches(r, g) then s
    else if Stomps(s, g) then s.(velY := StompBounce, score := s.score + StompReward)
    else
      var hurt := s.(lives := s.lives - 1, x := StartX, y := StartY);
      if hurt.lives <= 0 then hurt.(running := false) else hurt
  }

  /** The goomba loop, in list order. */
  function Contacts(s: Session, r: Rect, gs: seq<GoombaView>): Session
    decreases |gs|
  {
    if gs == [] then s else Contact(Contacts(s, r, gs[..|gs| - 1]), r, gs[|gs| - 1])
  }

  /** Whether goomba j is still alive after the loop. */
  predicate AliveAfter(s: Session, r: Rect, gs: seq<GoombaView>, j: nat)
    requires j < |gs|
  {
    gs[j].alive && !(Touches(r, gs[j]) && Stomps(Contacts(s, r, gs[..j]), gs[j]))
  }

  /** The goomba loop never lowers the score, never grants a life, costs at most
      one life per goomba, stops the game when the lives run out, and never
      restarts a stopped game. */
  lemma {:induction false} ContactsBounds(s: Session, r: Rect, gs: seq<GoombaView>)
    ensures Contacts(s, r, gs).score >= s.score
    ensures s.lives - |gs| <= Contacts(s, r, gs).lives <= s.lives
    ensures Consistent(s) ==> Consistent(Contacts(s, r, gs))
    ensures !s.running ==> !Contacts(s, r, gs).running
    decreases |gs|
  {
    if gs != [] {
      ContactsBounds(s, r, gs[..|gs| - 1]);
    }
  }

  /** The loop does not stop at the last life: two goombas met while jumping with
      one life left take the lives to -1. */
  lemma LivesGoNegative(s: Session, r: Rect, g1: GoombaView, g2: GoombaView)
    requires Touches(r, g1) && Touches(r, g2)
    requires s.lives == 1 && s.velY <= 0.0
    ensures Contacts(s, r, [g1, g2]).lives == -1 && !Contacts(s, r, [g1, g2]).running
  {
    assert [g1, g2][..1] == [g1];
    assert [g1][..0] == [];
    assert Contacts(s, r, [g1]) == Contact(s, r, g1);
    assert Contacts(s, r, [g1, g2]) == Contact(Contact(s, r, g1), r, g2);
  }

  /** update_camera: Mario is kept at the screen's middle once he is past it;
      the camera never goes left of the level's start and has no right limit. */
  function CameraFollow(x: real): (c: real)
    ensures c >= 0.0
    ensures x - c == Min(x, ScreenWidth / 2.0)
  {
    var c := x - ScreenWidth / 2.0;
    if c < 0.0 then 0.0 else c
  }
}
