/** The Game object of smb31.010.4.25.py: the overworld/level mode machine,
    the per-tick level update, the collision events, the camera and the timer. */
module Smb3Game {
  import opened Geometry
  import opened Level
  import opened Kinematics
  import opened Smb3Overworld
  import opened Smb3Mario
  import opened Smb3Goomba
  import opened Smb3Rules

  /** The level timer in ticks: 300 seconds at 60 ticks per second. */
  const LevelTicks: int := 18000
  /** Mario completes the level once he is right of two and a half screens. */
  const CompletionX: real := ScreenWidth * 2.5
  const CompletionBonus: int := 1000
  /** Goombas are placed standing on the ground strip. */
  const GoombaSpawnY: real := ScreenHeight - 40.0 - 32.0

  /** The pygame events handle_events reacts to: the window's quit event and key presses. */
  datatype Event = Quit | KeyDown(key: MapKey) | OtherEvent

  /** The part of the game state that overworld key presses read and write:
      the mode and the player's cell on the map. */
  datatype Nav = Nav(mode: Mode, x: int, y: int)

  /** The keyboard branch of handle_events for one key on grid m. In a level keys
      do nothing; in the overworld an arrow moves to the neighbouring cell when
      can_move_to accepts it, and the confirm key enters a level from an entrance tile. */
  function KeyEffect(m: seq<seq<int>>, s: Nav, key: MapKey): Nav
    requires WellShaped(m)
  {
    if s.mode == InLevel then s
    else if key == Return then
      // The bounds test only makes the lookup well defined: the source indexes the grid
      // unchecked, and under NavValid the position is always in range.
      if 0 <= s.x < MapWidth && 0 <= s.y < MapHeight && IsEntry(m[s.y][s.x]) then s.(mode := InLevel) else s
    else
      var t := Neighbour(s.x, s.y, key);
      if Enterable(m, t.0, t.1) then Nav(s.mode, t.0, t.1) else s
  }

  /** handle_events over one frame's events, in order, as seen by the navigation state. */
  function EventsEffect(m: seq<seq<int>>, s: Nav, events: seq<Event>): Nav
    requires WellShaped(m)
    decreases |events|
  {
    if events == [] then s
    else
      var prev := EventsEffect(m, s, events[..|events| - 1]);
      match events[|events| - 1]
      case KeyDown(key) => KeyEffect(m, prev, key)
      case _ => prev
  }

  /** An arrow key in the overworld moves the player iff can_move_to accepts the
      neighbouring cell, and then changes exactly one coordinate by one; the mode
      stays the overworld. */
  lemma ArrowMovesOneCell(m: seq<seq<int>>, s: Nav, key: MapKey)
    requires WellShaped(m) && s.mode == Overworld
    requires key != Return && key != OtherKey
    ensures var r := KeyEffect(m, s, key);
      var t := Neighbour(s.x, s.y, key);
      r.mode == Overworld && (r != s <==> Enterable(m, t.0, t.1)) &&
      (r != s ==> (r.x == s.x && (r.y == s.y + 1 || r.y == s.y - 1)) || (r.y == s.y && (r.x == s.x + 1 || r.x == s.x - 1)))
  {
  }

  /** The navigation invariant of the generated map: the player stands on a walkable
      cell, and on an entrance while in a level. */
  ghost predicate NavValid(m: seq<seq<int>>, s: Nav) {
    PathLayout(m) && Enterable(m, s.x, s.y) && (s.mode == InLevel ==> IsEntry(m[s.y][s.x]))
  }

  /** Any frame of events keeps the navigation invariant, and a level once entered
      is not left by key presses. */
  lemma {:induction false} EventsKeepNav(m: seq<seq<int>>, s: Nav, events: seq<Event>)
    requires NavValid(m, s)
    ensures NavValid(m, EventsEffect(m, s, events))
    ensures s.mode == InLevel ==> EventsEffect(m, s, events) == s
    decreases |events|
  {
    if events != [] {
      var init := events[..|events| - 1];
      EventsKeepNav(m, s, init);
      var prev := EventsEffect(m, s, init);
      match events[|events| - 1]
      case KeyDown(key) =>
        if prev.mode == Overworld && key != Return {
          var t := Neighbour(prev.x, prev.y, key);
          assert Enterable(m, t.0, t.1) ==> 2 <= t.0 <= 17 && 6 <= t.1 <= 9;
        }
      case _ =>
    }
  }

  ghost function ViewGoombas(gs: seq<Goomba>): seq<GoombaView>
    reads gs
  {
    seq(|gs|, i requires 0 <= i < |gs| reads gs => GoombaView(gs[i].x, gs[i].y, gs[i].alive))
  }

  class Game {
    /** Cleared by a quit event; the frame loop stops then. */
    var running: bool
    var score: int
    var lives: int
    /** The coin tally shown in the HUD. */
    var coins: int
    /** Remaining level time, in ticks. */
    var timeLeft: int
    var cameraX: real
    var mode: Mode
    const overworldMap: OverworldMap
    const mario: Mario
    var platforms: seq<Platform>
    var levelCoins: seq<Coin>
    var goombas: seq<Goomba>

    /** The session counters together with the parts of Mario the collision rules use. */
    ghost function Session(): Tally
      reads this, mario
    {
      Tally(score, coins, lives, mode, cameraX, mario.x, mario.y, mario.velY, mario.powerUpState)
    }

    ghost predicate Valid()
      reads this, mario, overworldMap
    {
      && Distinct(levelCoins) && Distinct(goombas)
      && overworldMap.Valid()
      && (mode == InLevel ==> overworldMap.OnEntry())
      && Sane(Session())
      && 0 <= timeLeft <= LevelTicks
    }

    ghost function Navigation(): Nav
      reads this, overworldMap
    {
      Nav(mode, overworldMap.playerX, overworldMap.playerY)
    }

    /** The level exactly as setup_level builds it, whatever was there before. */
    ghost predicate FreshLevel()
      reads this, levelCoins, goombas
    {
      && platforms == LevelPlatforms()
      && timeLeft == LevelTicks
      && |levelCoins| == CoinCount
      && (forall i :: 0 <= i < |levelCoins| ==>
            levelCoins[i].x == CoinX(i) && levelCoins[i].y == CoinY && !levelCoins[i].collected)
      && |goombas| == 2
      && goombas[0].State() == Patrol(400.0, GoombaSpawnY, -1.0) && goombas[0].alive
      && goombas[1].State() == Patrol(800.0, GoombaSpawnY, -1.0) && goombas[1].alive
    }

    constructor ()
      ensures Valid() && fresh(mario) && fresh(overworldMap)
      ensures running && score == 0 && lives == StartLives && coins == 0 && mode == Overworld && cameraX == 0.0
      ensures mario.State() == Body(StartX, StartY, 0.0, 0.0, false) && mario.powerUpState == 0
      ensures overworldMap.mapData == WorldMap() && overworldMap.playerX == 2 && overworldMap.playerY == 7
      ensures FreshLevel()
    {
      running := true;
      score, lives, coins := 0, StartLives, 0;
      timeLeft := LevelTicks;
      cameraX := 0.0;
      mode := Overworld;
      overworldMap := new OverworldMap();
      mario := new Mario(StartX, StartY);
      platforms, levelCoins, goombas := [], [], [];
      new;
      SetupLevel();
    }

    /** setup_level: clear the three lists and rebuild the level, resetting the timer. */
    method SetupLevel()
      modifies this`platforms, this`levelCoins, this`goombas, this`timeLeft
      ensures FreshLevel() && Distinct(levelCoins) && Distinct(goombas)
    {
      platforms := [];
      levelCoins := [];
      goombas := [];

      timeLeft := LevelTicks;

      platforms := platforms + [Platform(0.0, ScreenHeight - 40.0, ScreenWidth * 3.0, 40.0)];
      platforms := platforms + [Platform(200.0, 400.0, 200.0, 20.0)];
      platforms := platforms + [Platform(500.0, 350.0, 150.0, 20.0)];
      platforms := platforms + [Platform(700.0, 300.0, 100.0, 20.0)];
      platforms := platforms + [Platform(900.0, 400.0, 200.0, 20.0)];

      var row := PlaceCoins();
      levelCoins := levelCoins + row;

      var first := new Goomba(400.0, ScreenHeight - 40.0 - 32.0);
      var second := new Goomba(800.0, ScreenHeight - 40.0 - 32.0);
      goombas := goombas + [first];
      goombas := goombas + [second];
    }

    /** One key press in the overworld: an arrow moves one cell when the target cell
        can be entered, the confirm key enters a level from grass, a castle or a pipe. */
    method HandleKey(key: MapKey)
      requires Valid()
      modifies this`mode, this`platforms, this`levelCoins, this`goombas, this`timeLeft,
               overworldMap`playerX, overworldMap`playerY
      ensures Valid()
      ensures old(mode) == InLevel ==> unchanged(this) && unchanged(overworldMap)
      ensures old(mode) == Overworld && key != Return ==>
        mode == Overworld && unchanged(this) &&
        var target := Neighbour(old(overworldMap.playerX), old(overworldMap.playerY), key);
        (overworldMap.playerX, overworldMap.playerY) ==
          (if old(overworldMap.CanMoveTo(target.0, target.1)) then target
           else (old(overworldMap.playerX), old(overworldMap.playerY)))
      ensures old(mode) == Overworld && key == Return ==>
        unchanged(overworldMap) && (mode == InLevel <==> old(overworldMap.OnEntry())) &&
        (mode == InLevel ==> FreshLevel()) && (mode == Overworld ==> unchanged(this))
      ensures Navigation() == KeyEffect(overworldMap.mapData, old(Navigation()), key)
      ensures unchanged(mario)
    {
      if mode == Overworld {
        match key {
          case Right =>
            var newX := overworldMap.playerX + 1;
            if overworldMap.CanMoveTo(newX, overworldMap.playerY) {
              overworldMap.playerX := newX;
            }
          case Left =>
            var newX := overworldMap.playerX - 1;
            if overworldMap.CanMoveTo(newX, overworldMap.playerY) {
              overworldMap.playerX := newX;
            }
          case Up =>
            var newY := overworldMap.playerY - 1;
            if overworldMap.CanMoveTo(overworldMap.playerX, newY) {
              overworldMap.playerY := newY;
            }
          case Down =>
            var newY := overworldMap.playerY + 1;
            if overworldMap.CanMoveTo(overworldMap.playerX, newY) {
              overworldMap.playerY := newY;
            }
          case Return =>
            var tileType := overworldMap.mapData[overworldMap.playerY][overworldMap.playerX];
            if tileType == Grass || tileType == Castle || tileType == Pipe {
              mode := InLevel;
              SetupLevel();
            }
          case OtherKey =>
        }
      }
    }

    /** One event of handle_events: quit stops the game, a key press is handled
        as a map key. */
    method HandleEvent(event: Event)
      requires Valid()
      modifies this`running, this`mode, this`platforms, this`levelCoins, this`goombas, this`timeLeft,
               overworldMap`playerX, overworldMap`playerY
      ensures Valid()
      ensures running == (old(running) && event != Quit)
      ensures event.Quit? || event.OtherEvent? ==> unchanged(this`mode) && unchanged(overworldMap)
      ensures Navigation() ==
        if event.KeyDown? then KeyEffect(overworldMap.mapData, old(Navigation()), event.key) else old(Navigation())
      ensures old(mode) == Overworld && mode == InLevel ==> FreshLevel()
      ensures mode == old(mode) ==>
        platforms == old(platforms) && levelCoins == old(levelCoins) && goombas == old(goombas) &&
        timeLeft == old(timeLeft)
    {
      match event {
        case Quit =>
          running := false;
        case KeyDown(key) =>
          HandleKey(key);
        case OtherEvent =>
      }
    }

    /** handle_events: the events of one frame, in order; all of them are handled
        even after a quit event. */
    method HandleEvents(events: seq<Event>)
      requires Valid()
      modifies this`running, this`mode, this`platforms, this`levelCoins, this`goombas, this`timeLeft,
               overworldMap`playerX, overworldMap`playerY
      ensures Valid()
      ensures running == (old(running) && Quit !in events)
      ensures Navigation() == EventsEffect(overworldMap.mapData, old(Navigation()), events)
      ensures old(mode) == Overworld && mode == InLevel ==> FreshLevel()
      ensures mode == old(mode) ==>
        platforms == old(platforms) && levelCoins == old(levelCoins) && goombas == old(goombas) &&
        timeLeft == old(timeLeft)
    {
      for i := 0 to |events|
        invariant Valid()
        invariant running == (old(running) && Quit !in events[..i])
        invariant Navigation() == EventsEffect(overworldMap.mapData, old(Navigation()), events[..i])
        invariant old(mode) == InLevel ==> mode == InLevel
        invariant old(mode) == Overworld && mode == InLevel ==> FreshLevel()
        invariant mode == old(mode) ==>
          platforms == old(platforms) && levelCoins == old(levelCoins) && goombas == old(goombas) &&
          timeLeft == old(timeLeft)
      {
        HandleEvent(events[i]);
        assert events[..i + 1] == events[..i] + [events[i]];
        assert events[..i + 1][..i] == events[..i];
      }
      assert events[..|events|] == events;
    }

    /** update_camera. */
    method UpdateCamera()
      requires Valid()
      modifies this`cameraX
      ensures Valid() && cameraX == CameraFor(mario.x)
    {
      var targetX := mario.x - ScreenWidth / 2.0;
      if targetX < 0.0 {
        cameraX := 0.0;
      } else if targetX > ScreenWidth * 2.0 {
        cameraX := ScreenWidth * 2.0;
      } else {
        cameraX := targetX;
      }
    }

    /** The goomba loop of Game.update. */
    method UpdateGoombas()
      requires Valid()
      modifies goombas`x, goombas`y, goombas`velX
      ensures Valid()
      ensures forall j :: 0 <= j < |goombas| ==>
        goombas[j].State() == if goombas[j].alive then PatrolStep(old(goombas[j].State()), platforms)
                              else old(goombas[j].State())
    {
      var gs := goombas;
      for i := 0 to |gs|
        invariant forall j :: 0 <= j < |gs| ==>
          gs[j].State() == if j < i && gs[j].alive then PatrolStep(old(gs[j].State()), platforms)
                           else old(gs[j].State())
      {
        gs[i].Update(platforms);
      }
    }

    /** One iteration of the coin loop of handle_collisions. */
    method TakeCoin(coin: Coin, marioRect: Rect)
      modifies this`score, this`coins, this`lives, coin`collected
      ensures Session() == PickUp(old(Session()), marioRect, old(CoinView(coin.x, coin.y, coin.collected)))
      ensures coin.collected == (old(coin.collected) || Collide(marioRect, coin.Bounds()))
    {
      if !coin.collected {
        var coinRect := coin.Bounds();
        if Collide(marioRect, coinRect) {
          coin.collected := true;
          score := score + CoinReward;
          coins := coins + 1;
          if coins >= CoinsPerLife {
            coins := 0;
            lives := lives + 1;
          }
        }
      }
    }

    /** The coin loop of handle_collisions, against the rectangle computed before it. */
    method CollectCoins(marioRect: Rect)
      requires Distinct(levelCoins)
      modifies this`score, this`coins, this`lives, levelCoins`collected
      ensures Session() == PickUps(old(Session()), marioRect, old(ViewCoins(levelCoins)))
      ensures forall j :: 0 <= j < |levelCoins| ==>
        levelCoins[j].collected == (old(levelCoins[j].collected) || Collide(marioRect, levelCoins[j].Bounds()))
    {
      ghost var t0 := Session();
      ghost var cs0 := ViewCoins(levelCoins);
      var cs := levelCoins;
      for i := 0 to |cs|
        invariant Session() == PickUps(t0, marioRect, cs0[..i])
        invariant forall j :: 0 <= j < |cs| ==>
          cs[j].collected == (cs0[j].collected || (j < i && Collide(marioRect, cs[j].Bounds())))
      {
        TakeCoin(cs[i], marioRect);
        assert cs0[..i + 1][..i] == cs0[..i];
      }
      assert cs0[..|cs|] == cs0;
    }

    /** One iteration of the goomba loop of handle_collisions. */
    method MeetGoomba(goomba: Goomba, marioRect: Rect)
      modifies this`score, this`lives, this`mode, this`cameraX, mario`x, mario`y, mario`velY, mario`powerUpState, goomba`alive
      ensures Session() == Contact(old(Session()), marioRect, old(GoombaView(goomba.x, goomba.y, goomba.alive)))
      ensures goomba.alive == (old(goomba.alive) &&
        !(Touches(marioRect, old(GoombaView(goomba.x, goomba.y, goomba.alive))) &&
          Stomps(old(Session()), old(GoombaView(goomba.x, goomba.y, goomba.alive)))))
    {
      if goomba.alive {
        var goombaRect := Rect(goomba.x, goomba.y, GoombaWidth, GoombaHeight);
        if Collide(marioRect, goombaRect) {
          if mario.velY > 0.0 && mario.y + MarioHeight - 10.0 < goomba.y {
            goomba.alive := false;
            mario.velY := StompBounce;
            score := score + StompReward;
          } else {
            if mario.powerUpState > 0 {
              mario.powerUpState := mario.powerUpState - 1;
            } else {
              lives := lives - 1;
              mario.x := StartX;
              mario.y := StartY;
              cameraX := 0.0;
              if lives <= 0 {
                mode := Overworld;
                lives := StartLives;
                score := if score - GameOverPenalty > 0 then score - GameOverPenalty else 0;
              }
            }
          }
        }
      }
    }

    /** The goomba loop of handle_collisions, against the same rectangle. */
    method FightGoombas(marioRect: Rect)
      requires Distinct(goombas)
      modifies this`score, this`lives, this`mode, this`cameraX, mario`x, mario`y, mario`velY, mario`powerUpState, goombas`alive
      ensures Session() == Contacts(old(Session()), marioRect, old(ViewGoombas(goombas)))
      ensures forall j :: 0 <= j < |goombas| ==>
        goombas[j].alive == AliveAfter(old(Session()), marioRect, old(ViewGoombas(goombas)), j)
    {
      ghost var t0 := Session();
      ghost var gs0 := ViewGoombas(goombas);
      var gs := goombas;
      for i := 0 to |gs|
        invariant Session() == Contacts(t0, marioRect, gs0[..i])
        invariant forall j :: 0 <= j < |gs| ==>
          gs[j].alive == if j < i then AliveAfter(t0, marioRect, gs0, j) else gs0[j].alive
      {
        MeetGoomba(gs[i], marioRect);
        assert gs0[..i + 1][..i] == gs0[..i];
      }
      assert gs0[..|gs|] == gs0;
    }

    /** handle_collisions: coins, then goombas, both against Mario's rectangle as it
        was on entry. */
    method HandleCollisions()
      requires Valid()
      modifies this`score, this`coins, this`lives, this`mode, this`cameraX, mario`x, mario`y, mario`velY,
               mario`powerUpState, levelCoins`collected, goombas`alive
      ensures Valid()
      ensures var r := Rect(old(mario.x), old(mario.y), MarioWidth, MarioHeight);
        Session() == Contacts(PickUps(old(Session()), r, old(ViewCoins(levelCoins))), r, old(ViewGoombas(goombas)))
      ensures var r := Rect(old(mario.x), old(mario.y), MarioWidth, MarioHeight);
        forall j :: 0 <= j < |levelCoins| ==>
          levelCoins[j].collected == (old(levelCoins[j].collected) || Collide(r, levelCoins[j].Bounds()))
      ensures var r := Rect(old(mario.x), old(mario.y), MarioWidth, MarioHeight);
        forall j :: 0 <= j < |goombas| ==>
          goombas[j].alive == AliveAfter(PickUps(old(Session()), r, old(ViewCoins(levelCoins))), r, old(ViewGoombas(goombas)), j)
    {
      var marioRect := Rect(mario.x, mario.y, MarioWidth, MarioHeight);
      ghost var t0 := Session();
      ghost var gv := ViewGoombas(goombas);
      PickUpsSane(t0, marioRect, ViewCoins(levelCoins));
      CollectCoins(marioRect);
      ghost var t1 := Session();
      assert ViewGoombas(goombas) == gv;
      ContactsSane(t1, marioRect, gv);
      FightGoombas(marioRect);
    }

    /** The timer part of Game.update: one tick passes; at zero a life is lost and
        either the game returns to the overworld or the level restarts. */
    method TickTimer()
      requires Valid()
      modifies this`timeLeft, this`lives, this`mode, this`cameraX, this`platforms, this`levelCoins,
               this`goombas, mario`x, mario`y
      ensures Valid()
      ensures old(timeLeft) > 1 ==>
        timeLeft == old(timeLeft) - 1 && lives == old(lives) && mode == old(mode) &&
        mario.x == old(mario.x) && mario.y == old(mario.y) && cameraX == old(cameraX) &&
        platforms == old(platforms) && levelCoins == old(levelCoins) && goombas == old(goombas)
      ensures old(timeLeft) <= 1 && old(lives) > 1 ==>
        lives == old(lives) - 1 && mode == old(mode) && FreshLevel() &&
        mario.x == StartX && mario.y == StartY && cameraX == 0.0
      ensures old(timeLeft) <= 1 && old(lives) <= 1 ==>
        timeLeft == 0 && mode == Overworld && lives == StartLives &&
        mario.x == old(mario.x) && mario.y == old(mario.y) && cameraX == old(cameraX) &&
        platforms == old(platforms) && levelCoins == old(levelCoins) && goombas == old(goombas)
    {
      timeLeft := timeLeft - 1;
      if timeLeft <= 0 {
        timeLeft := 0;
        lives := lives - 1;
        if lives <= 0 {
          mode := Overworld;
          lives := StartLives;
        } else {
          RestartLevel();
        }
      }
    }

    /** The time-out branch of Game.update while lives remain: the level is rebuilt
        and Mario and the camera go back to the start. */
    method RestartLevel()
      requires Valid()
      modifies this`cameraX, this`platforms, this`levelCoins, this`goombas, this`timeLeft, mario`x, mario`y
      ensures Valid() && FreshLevel()
      ensures mario.x == StartX && mario.y == StartY && cameraX == 0.0
    {
      SetupLevel();
      mario.x := StartX;
      mario.y := StartY;
      cameraX := 0.0;
    }

    /** The completion part of Game.update: right of 2000 the level is complete;
        the overworld position moves one cell right, unchecked, and 1000 points are won. */
    method CheckCompletion()
      requires Valid() && overworldMap.OnEntry()
      modifies this`mode, this`score, overworldMap`playerX
      ensures Valid()
      ensures mario.x > CompletionX ==>
        mode == Overworld && score == old(score) + CompletionBonus &&
        overworldMap.playerX == old(overworldMap.playerX) + 1 && overworldMap.playerY == old(overworldMap.playerY)
      ensures mario.x <= CompletionX ==> mode == old(mode) && score == old(score) && unchanged(overworldMap)
    {
      if mario.x > CompletionX {
        var x, y := overworldMap.playerX, overworldMap.playerY;
        CanMoveToLayout(overworldMap, x + 1, y);
        mode := Overworld;
        overworldMap.playerX := overworldMap.playerX + 1;
        score := score + CompletionBonus;
      }
    }

    /** Game.update: in the overworld nothing happens; in a level, one tick of play. */
    method Update(keys: Keys)
      requires Valid()
      modifies this`score, this`coins, this`lives, this`mode, this`cameraX, this`timeLeft,
               this`platforms, this`levelCoins, this`goombas, overworldMap`playerX,
               mario`x, mario`y, mario`velX, mario`velY, mario`onGround, mario`powerUpState,
               levelCoins`collected, goombas`x, goombas`y, goombas`velX, goombas`alive
      ensures Valid()
      ensures old(mode) == Overworld ==>
        unchanged(this) && unchanged(mario) && unchanged(overworldMap) && unchanged(levelCoins) && unchanged(goombas)
    {
      if mode == InLevel {
        mario.Update(keys, platforms);
        assert Valid();
        UpdateGoombas();
        HandleCollisions();
        UpdateCamera();
        TickTimer();
        CheckCompletion();
      }
    }
  }
}
