/** The pure rules behind Game.handle_collisions and Game.update_camera in
    smb31.010.4.25.py: coin pickup with the 100-coin extra life, stomp versus
    damage, power-down, life loss and game over, and the clamped camera. */
module Smb3Rules {
  import opened Geometry
  import opened Level
  import opened Kinematics

  datatype Mode = Overworld | InLevel

  const CoinsPerLife: int := 100
  const GameOverPenalty: int := 1000
  /** The camera never scrolls past two screen widths: the level is three screens wide. */
  const CameraLimit: real := ScreenWidth * 2.0

  /** The session counters and the parts of Mario that the collision rules read and write. */
  datatype Tally = Tally(score: int, coins: int, lives: int, mode: Mode, cameraX: real,
                         x: real, y: real, velY: real, power: int)

  /** What the invariants of a running session promise about a tally. */
  predicate Sane(t: Tally) {
    t.score >= 0 && 0 <= t.coins < CoinsPerLife && t.lives >= 1 && t.power >= 0 &&
    0.0 <= t.cameraX <= CameraLimit
  }

  /** One more coin in the tally; reaching 100 resets it and grants a life. */
  function AddCoin(t: Tally): Tally {
    if t.coins + 1 >= CoinsPerLife then t.(coins := 0, lives := t.lives + 1)
    else t.(coins := t.coins + 1)
  }

  function PickUp(t: Tally, r: Rect, c: CoinView): Tally {
    if Collects(r, c) then AddCoin(t.(score := t.score + CoinReward)) else t
  }

  /** The coin loop: every coin in list order against the same Mario rectangle. */
  function PickUps(t: Tally, r: Rect, cs: seq<CoinView>): Tally
    decreases |cs|
  {
    if cs == [] then t else PickUp(PickUps(t, r, cs[..|cs| - 1]), r, cs[|cs| - 1])
  }

  /** The coin loop in closed form: n new coins add 100 points each, and the tally
      wraps modulo 100 with one extra life per wrap. */
  lemma {:induction false} PickUpsTally(t: Tally, r: Rect, cs: seq<CoinView>)
    requires 0 <= t.coins < CoinsPerLife
    ensures PickUps(t, r, cs) == t.(score := t.score + CoinReward * NewCoins(r, cs),
                                     coins := (t.coins + NewCoins(r, cs)) % CoinsPerLife,
                                     lives := t.lives + (t.coins + NewCoins(r, cs)) / CoinsPerLife)
    decreases |cs|
  {
    if cs != [] {
      PickUpsTally(t, r, cs[..|cs| - 1]);
    }
  }

  /** The coin loop keeps a sane session sane. */
  lemma PickUpsSane(t: Tally, r: Rect, cs: seq<CoinView>)
    requires Sane(t)
    ensures Sane(PickUps(t, r, cs))
    ensures PickUps(t, r, cs).lives >= t.lives && PickUps(t, r, cs).score >= t.score
  {
    PickUpsTally(t, r, cs);
  }

  /** Mario is falling and his bottom, less a 10-pixel allowance, is above the goomba's top. */
  predicate Stomps(t: Tally, g: GoombaView) {
    t.velY > 0.0 && t.y + MarioHeight - 10.0 < g.y
  }

  /** One goomba of the combat loop. The overlap uses the rectangle computed before
      both loops; the stomp test reads Mario's current y and velocity, which an
      earlier goomba may already have changed. */
  function Contact(t: Tally, r: Rect, g: GoombaView): Tally {
    if !Touches(r, g) then t
    else if Stomps(t, g) then t.(velY := StompBounce, score := t.score + StompReward)
    else if t.power > 0 then t.(power := t.power - 1)
    else
      var hurt := t.(lives := t.lives - 1, x := StartX, y := StartY, cameraX := 0.0);
      if hurt.lives <= 0 then
        hurt.(mode := Overworld, lives := StartLives, score := if hurt.score - GameOverPenalty > 0 then hurt.score - GameOverPenalty else 0)
      else hurt
  }

  /** The goomba loop, in list order. */
  function Contacts(t: Tally, r: Rect, gs: seq<GoombaView>): Tally
    decreases |gs|
  {
    if gs == [] then t else Contact(Contacts(t, r, gs[..|gs| - 1]), r, gs[|gs| - 1])
  }

  /** Whether goomba j is still alive after the loop: it dies only when it is
      touched while Mario, as the earlier goombas left him, stomps it. */
  predicate AliveAfter(t: Tally, r: Rect, gs: seq<GoombaView>, j: nat)
    requires j < |gs|
  {
    gs[j].alive && !(Touches(r, gs[j]) && Stomps(Contacts(t, r, gs[..j]), gs[j]))
  }

  /** The goomba loop keeps a sane session sane (score never negative, at least one
      life, power never below base, camera in range), never touches the coin tally,
      and can only switch the mode back to the overworld. */
  lemma {:induction false} ContactsSane(t: Tally, r: Rect, gs: seq<GoombaView>)
    requires Sane(t)
    ensures Sane(Contacts(t, r, gs))
    ensures Contacts(t, r, gs).coins == t.coins
    ensures Contacts(t, r, gs).mode == t.mode || Contacts(t, r, gs).mode == Overworld
    decreases |gs|
  {
    if gs != [] {
      ContactsSane(t, r, gs[..|gs| - 1]);
    }
  }

  /** Landing on two goombas at once: the first is stomped, but the bounce leaves
      Mario rising, so the second one hurts him. */
  lemma StompThenHurt(t: Tally, r: Rect, g1: GoombaView, g2: GoombaView)
    requires Touches(r, g1) && Touches(r, g2) && Stomps(t, g1)
    requires t.power == 0 && t.lives >= 2
    ensures var u := Contacts(t, r, [g1, g2]);
      u.lives == t.lives - 1 && u.score == t.score + StompReward &&
      u.x == StartX && u.y == StartY && u.velY == StompBounce && u.mode == t.mode
    ensures AliveAfter(t, r, [g1, g2], 1)
    ensures !AliveAfter(t, r, [g1, g2], 0)
  {
    assert [g1, g2][..1] == [g1];
    assert [g1][..0] == [];
    assert Contacts(t, r, [g1]) == Contact(t, r, g1);
    assert Contacts(t, r, [g1, g2]) == Contact(Contact(t, r, g1), r, g2);
  }

  /** The Mario rectangle is not recomputed after a reset: once a goomba hurts a
      falling Mario and sends him back to the start, a second goomba overlapping the
      old rectangle is stomped from there. */
  lemma HurtThenStomp(t: Tally, r: Rect, g1: GoombaView, g2: GoombaView)
    requires Touches(r, g1) && Touches(r, g2) && !Stomps(t, g1)
    requires t.velY > 0.0 && t.power == 0 && t.lives >= 2 && g2.y > StartY + MarioHeight - 10.0
    ensures var u := Contacts(t, r, [g1, g2]);
      u.lives == t.lives - 1 && u.score == t.score + StompReward && u.velY == StompBounce
    ensures AliveAfter(t, r, [g1, g2], 0) && !AliveAfter(t, r, [g1, g2], 1)
  {
    assert [g1, g2][..1] == [g1];
    assert [g1][..0] == [];
    assert Contacts(t, r, [g1]) == Contact(t, r, g1);
    assert Contacts(t, r, [g1, g2]) == Contact(Contact(t, r, g1), r, g2);
  }

  /** update_camera: follow Mario with him in the middle of the screen, clamped to
      the level's scrolling range. */
  function CameraFor(x: real): (c: real)
    ensures 0.0 <= c <= CameraLimit
    ensures c == Min(Max(x - 400.0, 0.0), 1600.0)
  {
    var target := x - ScreenWidth / 2.0;
    if target < 0.0 then 0.0
    else if target > CameraLimit then CameraLimit
    else target
  }
}
