/**
 * The tile map (src/GameMap.js): a `rows x cols` grid of tile codes with start
 * and end markers, edited in place, loaded from and saved to a plain record.
 */
module Maps {
  import opened Tiles

  /** The record `toJSON` produces and `fromJSON` consumes. */
  datatype MapData = MapData(
    width: int, height: int, blockSize: int,
    tiles: seq<seq<int>>, startPos: Pos, endPos: Pos)
  {
    /** A payload whose grid matches the dimensions it declares. */
    predicate Loadable() {
      blockSize > 0 && WellFormed(tiles, width / blockSize, height / blockSize)
    }
  }

  /** A grid of `rows` rows of `cols` zeros. */
  function EmptyGrid(cols: nat, rows: nat): (t: seq<seq<int>>)
    ensures WellFormed(t, cols, rows)
    ensures forall r, c :: 0 <= r < rows && 0 <= c < cols ==> t[r][c] == 0
  {
    seq(rows, _ => seq(cols, _ => 0))
  }

  /**
   * The code `loadDefaultMap` leaves at (`col`, `row`) of a `cols x rows` grid
   * whose code there was `prev`. Later writes of the source win, so the
   * cases are listed from the last write (the final platform) back to the
   * first (the ground strip).
   */
  function DefaultLayout(cols: int, rows: int, col: int, row: int, prev: int): int {
    if row == 11 && cols - 6 <= col < cols - 1 then 1      // final platform
    else if col == 15 && 11 <= row < 15 then 3              // wall
    else if row == 8 && 20 <= col < 25 then 1               // third platform
    else if row == 10 && 12 <= col < 18 then 1              // second platform
    else if row == 12 && 5 <= col < 10 then 1               // first platform
    else if row == rows - 2 then 2                          // dirt under the grass
    else if row == rows - 1 then 1                          // grass on the bottom row
    else prev
  }

  /** From 16 rows up, the bottom row is grass in every column: the wall stops above it. */
  lemma DefaultGrass(cols: int, rows: int, col: int, prev: int)
    requires rows >= 16 && cols >= 25 && 0 <= col < cols
    ensures DefaultLayout(cols, rows, col, rows - 1, prev) == 1
  {
  }

  /** From 17 rows up, the row above the grass is dirt in every column. */
  lemma DefaultDirt(cols: int, rows: int, col: int, prev: int)
    requires rows >= 17 && cols >= 25 && 0 <= col < cols
    ensures DefaultLayout(cols, rows, col, rows - 2, prev) == 2
  {
  }

  /** The wall: column 15 is stone in rows 11 to 14, whatever was there before. */
  lemma DefaultWall(cols: int, rows: int, row: int, prev: int)
    requires rows >= 15 && cols >= 25 && 11 <= row < 15
    ensures DefaultLayout(cols, rows, 15, row, prev) == 3
  {
  }

  /**
   * On short grids the wall overwrites the ground strip at column 15: both
   * rows of it on 15 rows, only the dirt row on 16 rows.
   */
  lemma DefaultWallCutsShortGround(prev: int)
    ensures DefaultLayout(25, 15, 15, 14, prev) == 3
    ensures DefaultLayout(25, 15, 15, 13, prev) == 3
    ensures DefaultLayout(25, 15, 14, 14, prev) == 1
    ensures DefaultLayout(25, 16, 15, 14, prev) == 3
    ensures DefaultLayout(25, 16, 15, 15, prev) == 1
  {
  }

  class GameMap {
    var width: int
    var height: int
    var blockSize: int
    var cols: int
    var rows: int
    var tiles: seq<seq<int>>
    var startPos: Pos
    var endPos: Pos

    /** The dimensions agree with width, height and block size, and the grid with the dimensions. */
    ghost predicate Valid()
      reads this
    {
      && blockSize > 0
      && cols == width / blockSize
      && rows == height / blockSize
      && WellFormed(tiles, cols, rows)
    }

    /** The grid as the player and the editor query it. */
    function View(): TileView
      reads this
    {
      TileView(blockSize, cols, rows, tiles)
    }

    /** `toJSON`, by value. */
    function ToJSON(): MapData
      reads this
    {
      MapData(width, height, blockSize, tiles, startPos, endPos)
    }

    constructor (width: int, height: int, blockSize: int)
      requires blockSize > 0 && width >= 0 && height >= 0
      ensures Valid()
      ensures this.width == width && this.height == height && this.blockSize == blockSize
      ensures cols == width / blockSize && rows == height / blockSize
      ensures forall r, c :: 0 <= r < rows && 0 <= c < cols ==> tiles[r][c] == 0
      ensures startPos == Pos(2, 10) && endPos == Pos(cols - 3, 10)
    {
      this.width := width;
      this.height := height;
      this.blockSize := blockSize;
      cols := width / blockSize;
      rows := height / blockSize;
      tiles := EmptyGrid(width / blockSize, height / blockSize);
      startPos := Pos(2, 10);
      endPos := Pos(width / blockSize - 3, 10);
    }

    /** `setTile`: writes one in-range cell; out of range it changes nothing. */
    method SetTile(col: int, row: int, value: int)
      requires Valid()
      modifies this
      ensures Valid()
      ensures unchanged(this`width, this`height, this`blockSize, this`cols, this`rows, this`startPos, this`endPos)
      ensures View().InBounds(col, row) ==> View().GetTile(col, row) == value
      ensures forall r, c :: 0 <= r < rows && 0 <= c < cols && (r != row || c != col) ==>
                tiles[r][c] == old(tiles[r][c])
      ensures !View().InBounds(col, row) ==> tiles == old(tiles)
    {
      if col >= 0 && col < cols && row >= 0 && row < rows {
        tiles := tiles[row := tiles[row][col := value]];
      }
    }

    /** One ascending `for` loop writing `value` into columns `from .. to-1` of `row`. */
    method FillRow(row: int, from: int, to: int, value: int)
      requires Valid() && 0 <= row < rows && 0 <= from <= to <= cols
      modifies this
      ensures Valid()
      ensures unchanged(this`width, this`height, this`blockSize, this`cols, this`rows, this`startPos, this`endPos)
      ensures forall r, c :: 0 <= r < rows && 0 <= c < cols ==>
                tiles[r][c] == if r == row && from <= c < to then value else old(tiles[r][c])
    {
      var col := from;
      while col < to
        invariant Valid() && from <= col <= to
        invariant unchanged(this`width, this`height, this`blockSize, this`cols, this`rows, this`startPos, this`endPos)
        invariant forall r, c :: 0 <= r < rows && 0 <= c < cols ==>
                    tiles[r][c] == if r == row && from <= c < col then value else old(tiles[r][c])
      {
        tiles := tiles[row := tiles[row][col := value]];
        col := col + 1;
      }
    }

    /** `loadDefaultMap`: overlays the fixed demonstration layout on the current grid. */
    method LoadDefaultMap()
      requires Valid() && rows >= 15 && cols >= 25
      modifies this
      ensures Valid()
      ensures unchanged(this`width, this`height, this`blockSize, this`cols, this`rows, this`startPos, this`endPos)
      ensures forall r, c :: 0 <= r < rows && 0 <= c < cols ==>
                tiles[r][c] == DefaultLayout(cols, rows, c, r, old(tiles[r][c]))
    {
      // Ground
      var col := 0;
      while col < cols
        invariant Valid() && 0 <= col <= cols
        invariant unchanged(this`width, this`height, this`blockSize, this`cols, this`rows, this`startPos, this`endPos)
        invariant forall r, c :: 0 <= r < rows && 0 <= c < cols ==>
                    tiles[r][c] == if c < col && r == rows - 2 then 2
                                   else if c < col && r == rows - 1 then 1
                                   else old(tiles[r][c])
      {
        tiles := tiles[rows - 1 := tiles[rows - 1][col := 1]];
        tiles := tiles[rows - 2 := tiles[rows - 2][col := 2]];
        col := col + 1;
      }
      // Platforms
      FillRow(12, 5, 10, 1);
      FillRow(10, 12, 18, 1);
      FillRow(8, 20, 25, 1);
      // Obstacles
      var row := 11;
      while row < 15
        invariant Valid() && 11 <= row <= 15
        invariant unchanged(this`width, this`height, this`blockSize, this`cols, this`rows, this`startPos, this`endPos)
        invariant forall r, c :: 0 <= r < rows && 0 <= c < cols ==>
                    tiles[r][c] == if c == 15 && 11 <= r < row then 3
                                   else if r == 8 && 20 <= c < 25 then 1
                                   else if r == 10 && 12 <= c < 18 then 1
                                   else if r == 12 && 5 <= c < 10 then 1
                                   else if r == rows - 2 then 2
                                   else if r == rows - 1 then 1
                                   else old(tiles[r][c])
      {
        tiles := tiles[row := tiles[row][15 := 3]];
        row := row + 1;
      }
      // Final platform
      FillRow(11, cols - 6, cols - 1, 1);
    }

    /** `fromJSON`: takes every field from the record and recomputes the dimensions. */
    method FromJSON(data: MapData)
      requires data.Loadable()
      modifies this
      ensures Valid()
      ensures ToJSON() == data
      ensures cols == data.width / data.blockSize && rows == data.height / data.blockSize
    {
      width := data.width;
      height := data.height;
      blockSize := data.blockSize;
      tiles := data.tiles;
      startPos := data.startPos;
      endPos := data.endPos;
      cols := width / blockSize;
      rows := height / blockSize;
    }

    /** `clear`: every in-range tile becomes 0; dimensions and markers stay. */
    method Clear()
      requires Valid()
      modifies this
      ensures Valid()
      ensures unchanged(this`width, this`height, this`blockSize, this`cols, this`rows, this`startPos, this`endPos)
      ensures forall r, c :: 0 <= r < rows && 0 <= c < cols ==> tiles[r][c] == 0
    {
      tiles := EmptyGrid(cols, rows);
    }
  }

  /**
   * The serialisation round trip of tests/GameMap.test.js: a fresh map of the
   * same dimensions that loads `m.toJSON()` answers every query as `m` does.
   */
  method CopyThroughJSON(m: GameMap) returns (copy: GameMap)
    requires m.Valid()
    ensures fresh(copy) && copy.Valid()
    ensures copy.View() == m.View() && copy.ToJSON() == m.ToJSON()
    ensures forall col, row :: copy.View().GetTile(col, row) == m.View().GetTile(col, row)
  {
    copy := new GameMap(m.width, m.height, m.blockSize);
    copy.FromJSON(m.ToJSON());
  }
}
