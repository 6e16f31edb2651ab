/**
 * The read-only side of the tile map: grid coordinates, tile codes and the
 * occupancy queries `isSolid` and `getTile` (src/GameMap.js).
 */
module Tiles {
  import opened Wrappers

  /** A grid coordinate: column `x`, row `y` (the source's `{x, y}` objects). */
  datatype Pos = Pos(x: int, y: int)

  /** The materials a tile code can name. */
  datatype TileType = Grass | Dirt | Stone

  /** `getTileType`: codes 1, 2 and 3 name a material, any other code names none (`null`). */
  function TypeOf(code: int): (t: Option<TileType>)
    ensures t.Some? <==> 1 <= code <= 3
    ensures t == Some(Grass) <==> code == 1
    ensures t == Some(Dirt) <==> code == 2
    ensures t == Some(Stone) <==> code == 3
  {
    if code == 1 then Some(Grass)
    else if code == 2 then Some(Dirt)
    else if code == 3 then Some(Stone)
    else None
  }

  /** `Math.floor(a / b)` for a positive divisor: the cell index whose cell holds `a`. */
  function FloorDiv(a: int, b: int): (q: int)
    requires b > 0
    ensures q * b <= a < q * b + b
  {
    a / b
  }

  /** A grid of `rows` rows of `cols` codes each, indexed `tiles[row][col]`. */
  predicate WellFormed(tiles: seq<seq<int>>, cols: int, rows: int) {
    && 0 <= cols
    && rows == |tiles|
    && forall r :: 0 <= r < |tiles| ==> |tiles[r]| == cols
  }

  /** The part of a map that collision and editing consult: block size, dimensions, grid. */
  datatype TileView = TileView(blockSize: int, cols: int, rows: int, tiles: seq<seq<int>>) {
    predicate Valid() {
      blockSize > 0 && WellFormed(tiles, cols, rows)
    }

    predicate InBounds(col: int, row: int) {
      0 <= col < cols && 0 <= row < rows
    }

    /** `isSolid`: everything outside the grid is solid; inside, a positive code is. */
    predicate IsSolid(col: int, row: int)
      requires Valid()
    {
      if !InBounds(col, row) then true else tiles[row][col] > 0
    }

    /** `getTile`: the stored code, or 0 outside the grid. */
    function GetTile(col: int, row: int): int
      requires Valid()
    {
      if InBounds(col, row) then tiles[row][col] else 0
    }
  }

  /** The grid is walled in: every cell outside it is solid and reads as 0. */
  lemma OutOfBoundsIsSolidWall(v: TileView, col: int, row: int)
    requires v.Valid()
    requires col < 0 || col >= v.cols || row < 0 || row >= v.rows
    ensures v.IsSolid(col, row) && v.GetTile(col, row) == 0
  {
  }

  /** Inside the grid, solidity is exactly a positive stored code. */
  lemma SolidIffPositiveTile(v: TileView, col: int, row: int)
    requires v.Valid() && 0 <= col < v.cols && 0 <= row < v.rows
    ensures v.IsSolid(col, row) <==> v.GetTile(col, row) > 0
    ensures v.GetTile(col, row) == v.tiles[row][col]
  {
  }
}
