/** The overworld of smb31.010.4.25.py: a fixed 20 x 15 tile grid and the
    player's grid position on it. */
module Smb3Overworld {

  const MapWidth: int := 20
  const MapHeight: int := 15

  // Tile kinds.
  const Empty: int := 0
  const Path: int := 1
  const Grass: int := 2
  const Water: int := 3
  const Castle: int := 4
  const Pipe: int := 5

  /** A row of empty tiles. */
  function EmptyRow(): seq<int> {
    [0, 0, 0, 0, 0, 0, 0, 0, 0, 0, 0, 0, 0, 0, 0, 0, 0, 0, 0, 0]
  }

  /** A row of path from column 2 to column 17. */
  function PathRow(): seq<int> {
    [0, 0, 1, 1, 1, 1, 1, 1, 1, 1, 1, 1, 1, 1, 1, 1, 1, 1, 0, 0]
  }

  /** A row of grass patches separated by path, framed by path at columns 2 and 17. */
  function GrassRow(): seq<int> {
    [0, 0, 1, 2, 2, 2, 1, 2, 2, 1, 2, 2, 1, 2, 2, 2, 2, 1, 0, 0]
  }

  /** Row 7 after generate_map places the castle at column 15 and pipes at columns 5 and 11. */
  function SpecialRow(): seq<int> {
    GrassRow()[15 := Castle][5 := Pipe][11 := Pipe]
  }

  /** The grid generate_map builds, row by row (index [y][x]): a ring of path around
      two rows of grass, with a castle at (15, 7) and pipes at (5, 7) and (11, 7). */
  function WorldMap(): seq<seq<int>> {
    var rows := [
      EmptyRow(), EmptyRow(), EmptyRow(), EmptyRow(), EmptyRow(), EmptyRow(),
      PathRow(), GrassRow(), GrassRow(), PathRow(),
      EmptyRow(), EmptyRow(), EmptyRow(), EmptyRow(), EmptyRow()
    ];
    var withCastle := rows[7 := rows[7][15 := Castle]];
    var withPipe := withCastle[7 := withCastle[7][5 := Pipe]];
    withPipe[7 := withPipe[7][11 := Pipe]]
  }

  predicate WellShaped(m: seq<seq<int>>) {
    |m| == MapHeight && forall row :: row in m ==> |row| == MapWidth
  }

  /** Tiles the player may stand on: path, grass, castle and pipe (not empty, not water). */
  predicate Walkable(kind: int) { kind == Path || kind == Grass || kind == Castle || kind == Pipe }

  /** Tiles from which the confirm key enters a level: grass, castle and pipe. */
  predicate IsEntry(kind: int) { kind == Grass || kind == Castle || kind == Pipe }

  /** The layout facts for row y of the map. */
  ghost predicate RowLayout(row: seq<int>, y: int) {
    && |row| == MapWidth
    && (forall x :: 0 <= x < MapWidth ==> (Walkable(row[x]) <==> 2 <= x <= 17 && 6 <= y <= 9))
    && (forall x :: 0 <= x < MapWidth && IsEntry(row[x]) ==> 3 <= x <= 16 && 7 <= y <= 8)
  }

  /** The layout facts the game relies on: the walkable tiles form exactly the
      rectangle of columns 2..17 and rows 6..9, and the level entrances lie in
      rows 7..8 and columns 3..16, so the cell right of an entrance is walkable. */
  ghost predicate PathLayout(m: seq<seq<int>>) {
    && WellShaped(m)
    && (forall y, x :: 0 <= y < MapHeight && 0 <= x < MapWidth ==>
          (Walkable(m[y][x]) <==> 2 <= x <= 17 && 6 <= y <= 9))
    && (forall y, x :: 0 <= y < MapHeight && 0 <= x < MapWidth && IsEntry(m[y][x]) ==>
          3 <= x <= 16 && 7 <= y <= 8)
  }

  lemma EmptyRowLayout(y: int)
    requires 0 <= y < 6 || 10 <= y < MapHeight
    ensures RowLayout(EmptyRow(), y)
  {
    var row := EmptyRow();
    forall x | 0 <= x < MapWidth ensures row[x] == Empty { }
  }

  lemma PathRowLayout(y: int)
    requires y == 6 || y == 9
    ensures RowLayout(PathRow(), y)
  {
    var row := PathRow();
    forall x | 0 <= x < MapWidth ensures row[x] == if 2 <= x <= 17 then Path else Empty { }
  }

  lemma GrassRowLayout(y: int)
    requires y == 7 || y == 8
    ensures RowLayout(GrassRow(), y)
    ensures RowLayout(SpecialRow(), y)
  {
    var row := GrassRow();
    forall x | 0 <= x < MapWidth
      ensures row[x] == if x < 2 || 17 < x then Empty else if x in {2, 6, 9, 12, 17} then Path else Grass
    { }
  }

  lemma WorldMapLayout()
    ensures PathLayout(WorldMap())
  {
    var m := WorldMap();
    assert m == [
      EmptyRow(), EmptyRow(), EmptyRow(), EmptyRow(), EmptyRow(), EmptyRow(),
      PathRow(), SpecialRow(), GrassRow(), PathRow(),
      EmptyRow(), EmptyRow(), EmptyRow(), EmptyRow(), EmptyRow()
    ];
    forall y | 0 <= y < MapHeight
      ensures RowLayout(m[y], y)
    {
      if y == 6 || y == 9 {
        PathRowLayout(y);
      } else if y == 7 || y == 8 {
        GrassRowLayout(y);
      } else {
        EmptyRowLayout(y);
      }
    }
  }

  /** The overworld navigation keys; Return is the confirm key. */
  datatype MapKey = Right | Left | Up | Down | Return | OtherKey

  /** The cell an arrow key asks for; any other key asks for the current cell. */
  function Neighbour(x: int, y: int, key: MapKey): (int, int) {
    match key
    case Right => (x + 1, y)
    case Left => (x - 1, y)
    case Up => (x, y - 1)
    case Down => (x, y + 1)
    case _ => (x, y)
  }

  /** can_move_to on a grid: out-of-grid cells are never enterable; in-grid cells are when walkable. */
  function Enterable(m: seq<seq<int>>, x: int, y: int): bool
    requires WellShaped(m)
  {
    if 0 <= x < MapWidth && 0 <= y < MapHeight then Walkable(m[y][x]) else false
  }

  class OverworldMap {
    const mapData: seq<seq<int>>
    var playerX: int
    var playerY: int

    constructor ()
      ensures mapData == WorldMap() && playerX == 2 && playerY == 7
      ensures Valid()
    {
      mapData := WorldMap();
      playerX, playerY := 2, 7;
      new;
      WorldMapLayout();
    }

    /** Out-of-grid cells are never enterable; in-grid cells are when walkable. */
    function CanMoveTo(x: int, y: int): (ok: bool)
      reads this
      requires WellShaped(mapData)
      ensures ok ==> 0 <= x < MapWidth && 0 <= y < MapHeight
    {
      Enterable(mapData, x, y)
    }

    /** The map has the generated layout and the player stands on a walkable tile. */
    ghost predicate Valid()
      reads this
    {
      PathLayout(mapData) && CanMoveTo(playerX, playerY)
    }

    predicate OnEntry()
      reads this
      requires Valid()
    {
      IsEntry(mapData[playerY][playerX])
    }
  }

  /** On a map with the generated layout, CanMoveTo accepts exactly the path rectangle. */
  lemma CanMoveToLayout(o: OverworldMap, x: int, y: int)
    requires PathLayout(o.mapData)
    ensures o.CanMoveTo(x, y) <==> 2 <= x <= 17 && 6 <= y <= 9
  {
  }
}
