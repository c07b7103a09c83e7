/** The level layout both games build in setup_level, and the coin entity they share. */
module Level {
  import opened Geometry

  /** A static obstacle. Colour and the breakable flag are cosmetic and not modelled. */
  datatype Platform = Platform(x: real, y: real, width: real, height: real)
  {
    function Bounds(): Rect { Rect(x, y, width, height) }
  }

  /** The five platforms setup_level appends, in list order: the ground strip
      across three screens, then four floating ledges. */
  function LevelPlatforms(): seq<Platform> {
    [ Platform(0.0, ScreenHeight - 40.0, ScreenWidth * 3.0, 40.0),
      Platform(200.0, 400.0, 200.0, 20.0),
      Platform(500.0, 350.0, 150.0, 20.0),
      Platform(700.0, 300.0, 100.0, 20.0),
      Platform(900.0, 400.0, 200.0, 20.0) ]
  }

  // Values both games share.
  const StartX: real := 100.0
  const StartY: real := 300.0
  const StartLives: int := 3
  const CoinReward: int := 100
  const StompReward: int := 200
  const StompBounce: real := -8.0
  const GoombaWidth: real := 32.0
  const GoombaHeight: real := 32.0

  function GoombaRect(x: real, y: real): Rect { Rect(x, y, GoombaWidth, GoombaHeight) }

  /** No object appears twice in the list. */
  predicate Distinct<T(==)>(s: seq<T>) {
    forall i, j :: 0 <= i < j < |s| ==> s[i] != s[j]
  }

  const CoinCount: nat := 10
  const CoinSize: real := 16.0

  /** Where setup_level places the i-th coin of a level. */
  function CoinX(i: nat): real { 300.0 + 50.0 * i as real }
  const CoinY: real := 350.0

  /** A coin: it never moves; only its collected flag changes. The spinning
      rotation is cosmetic and not modelled. */
  class Coin {
    const x: real
    const y: real
    var collected: bool

    constructor (x: real, y: real)
      ensures this.x == x && this.y == y && !collected
    {
      this.x := x;
      this.y := y;
      collected := false;
    }

    function Bounds(): Rect { Rect(x, y, CoinSize, CoinSize) }
  }

  /** The coin row both games' setup_level lays out: ten new coins, 50 apart,
      starting at x = 300, all at y = 350. */
  method PlaceCoins() returns (row: seq<Coin>)
    ensures |row| == CoinCount && Distinct(row)
    ensures forall j :: 0 <= j < |row| ==>
      fresh(row[j]) && row[j].x == CoinX(j) && row[j].y == CoinY && !row[j].collected
  {
    row := [];
    for i := 0 to CoinCount
      invariant |row| == i && Distinct(row)
      invariant forall j :: 0 <= j < i ==>
        fresh(row[j]) && row[j].x == CoinX(j) && row[j].y == CoinY && !row[j].collected
    {
      var coin := new Coin(300.0 + i as real * 50.0, 350.0);
      row := row + [coin];
    }
  }

  /** The parts of a coin the collision loop reads. */
  datatype CoinView = CoinView(x: real, y: real, collected: bool)

  function CoinRect(c: CoinView): Rect { Rect(c.x, c.y, CoinSize, CoinSize) }

  /** An uncollected coin the (fixed) Mario rectangle overlaps is collected. */
  predicate Collects(r: Rect, c: CoinView) { !c.collected && Collide(r, CoinRect(c)) }

  /** The coin objects of a list, as values. */
  ghost function ViewCoins(cs: seq<Coin>): seq<CoinView>
    reads cs
  {
    seq(|cs|, i requires 0 <= i < |cs| reads cs => CoinView(cs[i].x, cs[i].y, cs[i].collected))
  }

  /** How many coins of the list the rectangle collects. */
  function NewCoins(r: Rect, cs: seq<CoinView>): nat
    decreases |cs|
  {
    if cs == [] then 0 else NewCoins(r, cs[..|cs| - 1]) + (if Collects(r, cs[|cs| - 1]) then 1 else 0)
  }

  /** The parts of a goomba the collision loop reads. */
  datatype GoombaView = GoombaView(x: real, y: real, alive: bool)

  /** A live goomba the (fixed) Mario rectangle overlaps. */
  predicate Touches(r: Rect, g: GoombaView) { g.alive && Collide(r, GoombaRect(g.x, g.y)) }
}
