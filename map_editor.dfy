/**
 * The paint logic of the level editor (src/MapEditor.js): a selected tile
 * code, a mouse-button flag, and clicks turned into `setTile` calls.
 * Mouse positions are whole pixels relative to the canvas.
 */
module Editor {
  import opened Wrappers
  import opened Tiles
  import Maps

  /** `setBlockType`: the code a block-type name selects; unknown names select grass. */
  function BlockCode(name: string): int {
    if name == "grass" then 1
    else if name == "dirt" then 2
    else if name == "stone" then 3
    else if name == "erase" then 0
    else 1
  }

  /** The editor's names agree with the map's tile types, only "erase" selects the empty code, and any other name selects grass. */
  lemma BlockCodesNameTileTypes(name: string)
    ensures TypeOf(BlockCode("grass")) == Some(Grass)
    ensures TypeOf(BlockCode("dirt")) == Some(Dirt)
    ensures TypeOf(BlockCode("stone")) == Some(Stone)
    ensures BlockCode(name) == 0 <==> name == "erase"
    ensures 0 <= BlockCode(name) <= 3
    ensures name != "grass" && name != "dirt" && name != "stone" && name != "erase" ==> BlockCode(name) == 1
  {
  }

  /** The cell under pixel (`x`, `y`): floor division by the block size on each axis. */
  function CellAt(x: int, y: int, blockSize: int): (p: Pos)
    requires blockSize > 0
    ensures p.x * blockSize <= x < p.x * blockSize + blockSize
    ensures p.y * blockSize <= y < p.y * blockSize + blockSize
  {
    Pos(FloorDiv(x, blockSize), FloorDiv(y, blockSize))
  }

  class MapEditor {
    const tileMap: Maps.GameMap
    var selectedBlock: int
    var mouseDown: bool

    ghost predicate Valid()
      reads this, tileMap
    {
      tileMap.Valid()
    }

    /** A blank 800 x 600 map of 32 px blocks, grass selected, button up. */
    constructor ()
      ensures Valid() && fresh(tileMap)
      ensures selectedBlock == 1 && !mouseDown
      ensures tileMap.width == 800 && tileMap.height == 600
      ensures tileMap.cols == 25 && tileMap.rows == 18 && tileMap.blockSize == 32
      ensures tileMap.startPos == Pos(2, 10) && tileMap.endPos == Pos(22, 10)
      ensures forall r, c :: 0 <= r < 18 && 0 <= c < 25 ==> tileMap.tiles[r][c] == 0
    {
      tileMap := new Maps.GameMap(800, 600, 32);
      selectedBlock := 1;
      mouseDown := false;
    }

    /** `handleClick`: paint the selected code into the cell under the pointer, if it is on the grid. */
    method HandleClick(x: int, y: int)
      requires Valid()
      modifies tileMap
      ensures Valid()
      ensures var cell := CellAt(x, y, tileMap.blockSize);
        && unchanged(tileMap`width, tileMap`height, tileMap`blockSize, tileMap`cols, tileMap`rows, tileMap`startPos, tileMap`endPos)
        && (tileMap.View().InBounds(cell.x, cell.y) ==> tileMap.View().GetTile(cell.x, cell.y) == selectedBlock)
        && (forall r, c :: 0 <= r < tileMap.rows && 0 <= c < tileMap.cols && Pos(c, r) != cell ==>
              tileMap.tiles[r][c] == old(tileMap.tiles[r][c]))
        && (!tileMap.View().InBounds(cell.x, cell.y) ==> tileMap.tiles == old(tileMap.tiles))
    {
      var col := FloorDiv(x, tileMap.blockSize);
      var row := FloorDiv(y, tileMap.blockSize);
      if selectedBlock == 0 {
        tileMap.SetTile(col, row, 0);
      } else {
        tileMap.SetTile(col, row, selectedBlock);
      }
    }

    /** `handleRightClick`: erase the cell under the pointer, whatever is selected. */
    method HandleRightClick(x: int, y: int)
      requires Valid()
      modifies tileMap
      ensures Valid()
      ensures var cell := CellAt(x, y, tileMap.blockSize);
        && unchanged(tileMap`width, tileMap`height, tileMap`blockSize, tileMap`cols, tileMap`rows, tileMap`startPos, tileMap`endPos)
        && (tileMap.View().InBounds(cell.x, cell.y) ==> tileMap.View().GetTile(cell.x, cell.y) == 0)
        && (forall r, c :: 0 <= r < tileMap.rows && 0 <= c < tileMap.cols && Pos(c, r) != cell ==>
              tileMap.tiles[r][c] == old(tileMap.tiles[r][c]))
        && (!tileMap.View().InBounds(cell.x, cell.y) ==> tileMap.tiles == old(tileMap.tiles))
    {
      var col := FloorDiv(x, tileMap.blockSize);
      var row := FloorDiv(y, tileMap.blockSize);
      tileMap.SetTile(col, row, 0);
    }

    /** The 'mousedown' listener: hold the button and paint. */
    method OnMouseDown(x: int, y: int)
      requires Valid()
      modifies this, tileMap
      ensures Valid() && mouseDown && selectedBlock == old(selectedBlock)
      ensures var cell := CellAt(x, y, tileMap.blockSize);
        && unchanged(tileMap`width, tileMap`height, tileMap`blockSize, tileMap`cols, tileMap`rows, tileMap`startPos, tileMap`endPos)
        && (tileMap.View().InBounds(cell.x, cell.y) ==> tileMap.View().GetTile(cell.x, cell.y) == selectedBlock)
        && (forall r, c :: 0 <= r < tileMap.rows && 0 <= c < tileMap.cols && Pos(c, r) != cell ==>
              tileMap.tiles[r][c] == old(tileMap.tiles[r][c]))
        && (!tileMap.View().InBounds(cell.x, cell.y) ==> tileMap.tiles == old(tileMap.tiles))
    {
      mouseDown := true;
      HandleClick(x, y);
    }

    /** The 'mouseup' listener: release the button; the map is untouched. */
    method OnMouseUp()
      modifies this
      ensures !mouseDown && selectedBlock == old(selectedBlock)
    {
      mouseDown := false;
    }

    /** The 'mousemove' listener: paint only while the button is held. */
    method OnMouseMove(x: int, y: int)
      requires Valid()
      modifies tileMap
      ensures Valid()
      ensures !mouseDown ==> tileMap.tiles == old(tileMap.tiles)
      ensures var cell := CellAt(x, y, tileMap.blockSize);
        && unchanged(tileMap`width, tileMap`height, tileMap`blockSize, tileMap`cols, tileMap`rows, tileMap`startPos, tileMap`endPos)
        && (mouseDown && tileMap.View().InBounds(cell.x, cell.y) ==> tileMap.View().GetTile(cell.x, cell.y) == selectedBlock)
        && (forall r, c :: 0 <= r < tileMap.rows && 0 <= c < tileMap.cols && Pos(c, r) != cell ==>
              tileMap.tiles[r][c] == old(tileMap.tiles[r][c]))
        && (!tileMap.View().InBounds(cell.x, cell.y) ==> tileMap.tiles == old(tileMap.tiles))
    {
      if mouseDown {
        HandleClick(x, y);
      }
    }

    /** The 'contextmenu' listener: erase under the pointer. */
    method OnContextMenu(x: int, y: int)
      requires Valid()
      modifies tileMap
      ensures Valid()
      ensures var cell := CellAt(x, y, tileMap.blockSize);
        && unchanged(tileMap`width, tileMap`height, tileMap`blockSize, tileMap`cols, tileMap`rows, tileMap`startPos, tileMap`endPos)
        && (tileMap.View().InBounds(cell.x, cell.y) ==> tileMap.View().GetTile(cell.x, cell.y) == 0)
        && (forall r, c :: 0 <= r < tileMap.rows && 0 <= c < tileMap.cols && Pos(c, r) != cell ==>
              tileMap.tiles[r][c] == old(tileMap.tiles[r][c]))
        && (!tileMap.View().InBounds(cell.x, cell.y) ==> tileMap.tiles == old(tileMap.tiles))
    {
      HandleRightClick(x, y);
    }

    /** `setBlockType`. */
    method SetBlockType(name: string)
      modifies this
      ensures selectedBlock == BlockCode(name) && mouseDown == old(mouseDown)
    {
      if name == "grass" {
        selectedBlock := 1;
      } else if name == "dirt" {
        selectedBlock := 2;
      } else if name == "stone" {
        selectedBlock := 3;
      } else if name == "erase" {
        selectedBlock := 0;
      } else {
        selectedBlock := 1;
      }
    }

    /** `saveMap`, with storage as the returned record. */
    method SaveMap() returns (data: Maps.MapData)
      requires Valid()
      ensures data == tileMap.ToJSON() && data.Loadable()
    {
      data := tileMap.ToJSON();
    }

    /** `loadMap` from an optional storage slot: an empty slot loads nothing and answers false. */
    method LoadMap(stored: Option<Maps.MapData>) returns (loaded: bool)
      requires Valid() && (stored.Some? ==> stored.value.Loadable())
      modifies tileMap
      ensures Valid()
      ensures loaded <==> stored.Some?
      ensures loaded ==> tileMap.ToJSON() == stored.value
      ensures !loaded ==> tileMap.ToJSON() == old(tileMap.ToJSON())
    {
      if stored.Some? {
        tileMap.FromJSON(stored.value);
        return true;
      }
      return false;
    }

    /** `clearMap`. */
    method ClearMap()
      requires Valid()
      modifies tileMap
      ensures Valid()
      ensures unchanged(tileMap`width, tileMap`height, tileMap`blockSize, tileMap`cols, tileMap`rows, tileMap`startPos, tileMap`endPos)
      ensures forall r, c :: 0 <= r < tileMap.rows && 0 <= c < tileMap.cols ==> tileMap.tiles[r][c] == 0
    {
      tileMap.Clear();
    }

    /** `getMap`: the editor's own map object. */
    method GetMap() returns (m: Maps.GameMap)
      ensures m == tileMap
    {
      m := tileMap;
    }
  }

  /** Saving and then loading what was saved gives back the same map. */
  method SaveThenLoad(editor: MapEditor) returns (loaded: bool)
    requires editor.Valid()
    modifies editor.tileMap
    ensures editor.Valid() && loaded
    ensures editor.tileMap.ToJSON() == old(editor.tileMap.ToJSON())
  {
    var data := editor.SaveMap();
    loaded := editor.LoadMap(Some(data));
  }
}
