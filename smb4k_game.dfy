/** The Game object of r1smb4k.py: level setup, the per-tick update, the
    collision events and the camera. */
module Smb4kGame {
  import opened Geometry
  import opened Level
  import opened Kinematics
  import opened Smb4kMario
  import opened Smb4kGoomba
  import opened Smb4kRules

  /** The pygame events handle_events reacts to. */
  datatype Event = Quit | OtherEvent

  /** Goombas are placed with their feet at height 400, level with the top of the first
      floating platform but not over it (they start at x = 400 and 800, the platform spans
      200..400), and not on the ground strip. */
  const GoombaSpawnY: real := 368.0

  ghost function ViewGoombas(gs: seq<Goomba>): seq<GoombaView>
    reads gs
  {
    seq(|gs|, i requires 0 <= i < |gs| reads gs => GoombaView(gs[i].x, gs[i].y, gs[i].alive))
  }

  class Game {
    var running: bool
    var score: int
    var lives: int
    var cameraX: real
    const mario: Mario
    var platforms: seq<Platform>
    var coins: seq<Coin>
    var goombas: seq<Goomba>

    ghost function Snapshot(): Session
      reads this, mario
    {
      Session(score, lives, running, mario.x, mario.y, mario.velY)
    }

    /** The score never drops below zero, lives are never gained, the game stops
        once they are used up, the camera is right of the level start, and every
        goomba walks at speed one. */
    ghost predicate Valid()
      reads this, mario, goombas
    {
      && Distinct(coins) && Distinct(goombas)
      && score >= 0 && lives <= StartLives && Consistent(Snapshot())
      && cameraX >= 0.0
      && (forall j :: 0 <= j < |goombas| ==> goombas[j].velX == 1.0 || goombas[j].velX == -1.0)
    }

    constructor ()
      ensures Valid() && fresh(mario)
      ensures running && score == 0 && lives == StartLives && cameraX == 0.0
      ensures mario.State() == Body(StartX, StartY, 0.0, 0.0, false)
      ensures platforms == LevelPlatforms() && |coins| == CoinCount && |goombas| == 2
      ensures forall j :: 0 <= j < |coins| ==> coins[j].x == CoinX(j) && coins[j].y == CoinY && !coins[j].collected
      ensures goombas[0].x == 400.0 && goombas[1].x == 800.0
      ensures forall j :: 0 <= j < |goombas| ==> goombas[j].y == GoombaSpawnY && goombas[j].velX == -1.0 && goombas[j].alive
    {
      running := true;
      score := 0;
      lives := StartLives;
      cameraX := 0.0;
      mario := new Mario(StartX, StartY);
      platforms, coins, goombas := [], [], [];
      new;
      SetupLevel();
    }

    /** setup_level: append the level's platforms, coins and goombas to the lists
        (they are not cleared first). */
    method SetupLevel()
      requires Distinct(coins) && Distinct(goombas)
      requires forall j :: 0 <= j < |goombas| ==> goombas[j].velX == 1.0 || goombas[j].velX == -1.0
      modifies this`platforms, this`coins, this`goombas
      ensures platforms == old(platforms) + LevelPlatforms()
      ensures |coins| == |old(coins)| + CoinCount && coins[..|old(coins)|] == old(coins)
      ensures forall j :: |old(coins)| <= j < |coins| ==>
        coins[j].x == CoinX(j - |old(coins)|) && coins[j].y == CoinY && !coins[j].collected
      ensures |goombas| == |old(goombas)| + 2 && goombas[..|old(goombas)|] == old(goombas)
      ensures forall j :: |old(goombas)| <= j < |goombas| ==>
        goombas[j].x == 400.0 * (j - |old(goombas)| + 1) as real && goombas[j].y == GoombaSpawnY &&
        goombas[j].velX == -1.0 && goombas[j].alive
      ensures Distinct(coins) && Distinct(goombas)
      ensures forall j :: 0 <= j < |goombas| ==> goombas[j].velX == 1.0 || goombas[j].velX == -1.0
    {
      platforms := platforms + [Platform(0.0, ScreenHeight - 40.0, ScreenWidth * 3.0, 40.0)];
      platforms := platforms + [Platform(200.0, 400.0, 200.0, 20.0)];
      platforms := platforms + [Platform(500.0, 350.0, 150.0, 20.0)];
      platforms := platforms + [Platform(700.0, 300.0, 100.0, 20.0)];
      platforms := platforms + [Platform(900.0, 400.0, 200.0, 20.0)];

      var row := PlaceCoins();
      coins := coins + row;

      var first := new Goomba(400.0, 368.0);
      var second := new Goomba(800.0, 368.0);
      goombas := goombas + [first];
      goombas := goombas + [second];
    }

    /** handle_events: a quit event stops the game. */
    method HandleEvents(events: seq<Event>)
      requires Valid()
      modifies this`running
      ensures Valid()
      ensures running == (old(running) && Quit !in events)
    {
      for i := 0 to |events|
        invariant Valid()
        invariant running == (old(running) && Quit !in events[..i])
      {
        if events[i] == Quit {
          running := false;
        }
        assert events[..i + 1] == events[..i] + [events[i]];
      }
      assert events[..|events|] == events;
    }

    /** The goomba loop of Game.update. */
    method UpdateGoombas()
      requires Valid()
      modifies goombas`x, goombas`velX
      ensures Valid()
      ensures forall j :: 0 <= j < |goombas| ==>
        goombas[j].State() == if goombas[j].alive then PaceStep(old(goombas[j].State()), platforms)
                              else old(goombas[j].State())
    {
      var gs := goombas;
      for i := 0 to |gs|
        invariant forall j :: 0 <= j < |gs| ==>
          gs[j].State() == if j < i && gs[j].alive then PaceStep(old(gs[j].State()), platforms)
                           else old(gs[j].State())
        invariant forall j :: 0 <= j < |gs| ==> gs[j].velX == 1.0 || gs[j].velX == -1.0
      {
        gs[i].Update(platforms);
      }
    }

    /** One iteration of the coin loop of handle_collisions. */
    method TakeCoin(coin: Coin, marioRect: Rect)
      modifies this`score, coin`collected
      ensures score == old(score) + if Collects(marioRect, old(CoinView(coin.x, coin.y, coin.collected))) then CoinReward else 0
      ensures coin.collected == (old(coin.collected) || Collide(marioRect, coin.Bounds()))
    {
      if !coin.collected {
        var coinRect := coin.Bounds();
        if Collide(marioRect, coinRect) {
          coin.collected := true;
          score := score + CoinReward;
        }
      }
    }

    /** The coin loop of handle_collisions, against the rectangle computed before it. */
    method CollectCoins(marioRect: Rect)
      requires Distinct(coins)
      modifies this`score, coins`collected
      ensures score == Gains(old(score), marioRect, old(ViewCoins(coins)))
      ensures forall j :: 0 <= j < |coins| ==>
        coins[j].collected == (old(coins[j].collected) || Collide(marioRect, coins[j].Bounds()))
    {
      ghost var cs0 := ViewCoins(coins);
      var cs := coins;
      for i := 0 to |cs|
        invariant score == Gains(old(score), marioRect, cs0[..i])
        invariant forall j :: 0 <= j < |cs| ==>
          cs[j].collected == (cs0[j].collected || (j < i && Collide(marioRect, cs[j].Bounds())))
      {
        TakeCoin(cs[i], marioRect);
        assert cs0[..i + 1][..i] == cs0[..i];
      }
      assert cs0[..|cs|] == cs0;
    }

    /** One iteration of the goomba loop of handle_collisions. */
    method MeetGoomba(goomba: Goomba, marioRect: Rect)
      modifies this`score, this`lives, this`running, mario`x, mario`y, mario`velY, goomba`alive
      ensures Snapshot() == Contact(old(Snapshot()), marioRect, old(GoombaView(goomba.x, goomba.y, goomba.alive)))
      ensures goomba.alive == (old(goomba.alive) &&
        !(Touches(marioRect, old(GoombaView(goomba.x, goomba.y, goomba.alive))) &&
          Stomps(old(Snapshot()), old(GoombaView(goomba.x, goomba.y, goomba.alive)))))
    {
      if goomba.alive {
        var goombaRect := Rect(goomba.x, goomba.y, GoombaWidth, GoombaHeight);
        if Collide(marioRect, goombaRect) {
          if mario.velY > 0.0 && mario.y < goomba.y {
            goomba.alive := false;
            mario.velY := StompBounce;
            score := score + StompReward;
          } else {
            lives := lives - 1;
            mario.x := StartX;
            mario.y := StartY;
            if lives <= 0 {
              running := false;
            }
          }
        }
      }
    }

    /** The goomba loop of handle_collisions, against the same rectangle. */
    method FightGoombas(marioRect: Rect)
      requires Distinct(goombas)
      modifies this`score, this`lives, this`running, mario`x, mario`y, mario`velY, goombas`alive
      ensures Snapshot() == Contacts(old(Snapshot()), marioRect, old(ViewGoombas(goombas)))
      ensures forall j :: 0 <= j < |goombas| ==>
        goombas[j].alive == AliveAfter(old(Snapshot()), marioRect, old(ViewGoombas(goombas)), j)
    {
      ghost var s0 := Snapshot();
      ghost var gs0 := ViewGoombas(goombas);
      var gs := goombas;
      for i := 0 to |gs|
        invariant Snapshot() == Contacts(s0, marioRect, gs0[..i])
        invariant forall j :: 0 <= j < |gs| ==>
          gs[j].alive == if j < i then AliveAfter(s0, marioRect, gs0, j) else gs0[j].alive
      {
        MeetGoomba(gs[i], marioRect);
        assert gs0[..i + 1][..i] == gs0[..i];
      }
      assert gs0[..|gs|] == gs0;
    }

    /** handle_collisions: coins, then goombas, both against Mario's rectangle as it
        was on entry. */
    method HandleCollisions()
      requires Valid()
      modifies this`score, this`lives, this`running, mario`x, mario`y, mario`velY,
               coins`collected, goombas`alive
      ensures Valid()
      ensures var r := Rect(old(mario.x), old(mario.y), MarioWidth, MarioHeight);
        Snapshot() == Contacts(old(Snapshot()).(score := Gains(old(score), r, old(ViewCoins(coins)))),
                              r, old(ViewGoombas(goombas)))
      ensures var r := Rect(old(mario.x), old(mario.y), MarioWidth, MarioHeight);
        forall j :: 0 <= j < |coins| ==>
          coins[j].collected == (old(coins[j].collected) || Collide(r, coins[j].Bounds()))
      ensures var r := Rect(old(mario.x), old(mario.y), MarioWidth, MarioHeight);
        forall j :: 0 <= j < |goombas| ==>
          goombas[j].alive ==
            AliveAfter(old(Snapshot()).(score := Gains(old(score), r, old(ViewCoins(coins)))), r, old(ViewGoombas(goombas)), j)
    {
      var marioRect := Rect(mario.x, mario.y, MarioWidth, MarioHeight);
      CollectCoins(marioRect);
      GainsCount(old(score), marioRect, old(ViewCoins(coins)));
      ghost var s1 := Snapshot();
      ContactsBounds(s1, marioRect, ViewGoombas(goombas));
      FightGoombas(marioRect);
    }

    /** update_camera. */
    method UpdateCamera()
      modifies this`cameraX
      ensures cameraX == CameraFollow(mario.x)
    {
      cameraX := mario.x - ScreenWidth / 2.0;
      if cameraX < 0.0 {
        cameraX := 0.0;
      }
    }

    /** Game.update: Mario, the goombas, the collisions and the camera, in that
        order. It runs whether or not the game is still running; the frame loop
        is what stops calling it. */
    method Update(keys: Keys)
      requires Valid()
      modifies this`score, this`lives, this`running, this`cameraX,
               mario, coins`collected, goombas`x, goombas`velX, goombas`alive
      ensures Valid()
    {
      mario.Update(keys, platforms);
      UpdateGoombas();
      HandleCollisions();
      UpdateCamera();
    }
  }
}
