# Matilda Dash simulation core in Dafny

This project models the simulation core of a tile-based browser platformer with a level editor:

- the tile map (`GameMap`): a `rows x cols` grid of small integer tile codes with start and end markers;
- one tick of player physics (`Player.update`): horizontal intent, jump, gravity, and collision resolved X first, then Y;
- the game loop (`Game`): spawning, `start`/`stop`, the win test and falling off the map;
- the editor's paint logic (`MapEditor`): block-type selection, clicks turned into `setTile` calls, and the mouse-button state machine.

Layout, one module per file:

- `wrappers.dfy` (`Wrappers`): `Option`.
- `tiles.dfy` (`Tiles`): grid coordinates, tile types and `TileView`, the read-only grid that answers `isSolid` and `getTile`.
- `game_map.dfy` (`Maps`): the `GameMap` class, the persisted `MapData` record and the default layout.
- `physics.dfy` (`Physics`): the player's tick as functions on a `Body` value: `Steer`, `Launch`, `Fall`, `CollideX`, `CollideY`, `Animate`, `Step`.
- `player.dfy` (`Players`): the `Player` class. Its methods update fields in place and are proved equal to the `Physics` functions.
- `scenarios.dfy` (`Scenarios`): multi-tick lemmas (pushing against a wall; resting on a floor).
- `game.dfy` (`Games`): the `Game` class and `Tick`, the function that specifies `update`.
- `map_editor.dfy` (`Editor`): the `MapEditor` class.

Units:

- Player positions and velocities are integers counted in **half pixels**. So speed 4 px is 8, jump power 12 px is 24, gravity 0.5 px is 1, and the 32 px player is 64. Every position the program can reach is a multiple of half a pixel, so nothing is rounded.
- Map block sizes and editor mouse coordinates stay in whole pixels. A block of `blockSize` pixels is `2 * blockSize` half pixels on the player side.
- `Math.floor(a / b)` with `b > 0` is Dafny's `/` on `int`, which rounds down for a positive divisor (`Tiles.FloorDiv`).
- The source's `map` parameter and field are called `tileMap`, because `map` is a Dafny keyword.

Behaviour of the code that is easy to misread, which the model follows as written:

- **`update` checks only `won`.** A stopped game is held back by `gameLoop`, not by `update` (src/Game.js:40, 49).
- **`start` runs one frame straight away.** It calls `gameLoop`, which runs `update` once, so `Games.Game.Start` takes that first frame's input.
- **The first solid tile wins.** The collision scan zeroes the velocity on the first solid tile in row-major order (rows top to bottom, columns left to right). Later solid tiles then see a zero velocity and move nothing, so the first tile decides the snap, not the last (`Physics.CollideXFirstWins`, `Physics.CollideYFirstWins`).
- **Resting on a floor is a two-tick cycle.** The upper tile bound uses the last occupied pixel (`coord + size - 1`), so a half-pixel overlap is not detected. A player standing on a floor spends one tick half a pixel lower, airborne and in state `Jump`, then lands back (`Scenarios.RestingAlternates`). So `y` does not settle at one value.
- **The win cell is one row above the end marker** (`Games.ReachedIsWinCell`).
- **The ground strip can be cut by the wall.** The stone wall at column 15 covers rows 11 to 14 and is written after the ground strip (`Maps.DefaultWallCutsShortGround`). On 15 rows it overwrites both ground rows at that column; on 16 rows only the dirt row. So the bottom row is grass in every column from 16 rows up (`Maps.DefaultGrass`), and the dirt row is complete from 17 rows up (`Maps.DefaultDirt`); the game's map has 18.

## Model

| member | source | states |
|---|---|---|
| `Maps.GameMap.constructor` | src/GameMap.js:2-13 | `cols = floor(width/blockSize)` and `rows = floor(height/blockSize)`; every tile is 0; `startPos = (2,10)`; `endPos = (cols-3, 10)` |
| `Tiles.OutOfBoundsIsSolidWall` | src/GameMap.js:15-27 | any cell outside the grid is solid for `isSolid` and reads 0 for `getTile` |
| `Tiles.SolidIffPositiveTile` | src/GameMap.js:15-27 | inside the grid, `isSolid` holds iff the stored code is positive, and `getTile` returns the stored code |
| `Tiles.TileView.IsSolid` | src/GameMap.js:15-20 | reference definition of `isSolid` (out of range is solid, else code > 0), used by the collision functions and characterised by the two lemmas above |
| `Tiles.TileView.GetTile` | src/GameMap.js:22-27 | reference definition of `getTile` (out of range reads 0), characterised by the two lemmas above |
| `Maps.GameMap.SetTile` | src/GameMap.js:29-33 | an in-range write is read back by `getTile`; every other cell is unchanged; an out-of-range write changes nothing; dimensions and markers stay |
| `Tiles.TypeOf` | src/GameMap.js:35-46 | codes 1, 2, 3 are grass, dirt and stone; every other code has no type |
| `Maps.GameMap.FillRow` | src/GameMap.js:104-114 | a platform loop writes the code into exactly the columns `from..to-1` of its row |
| `Maps.GameMap.LoadDefaultMap` | src/GameMap.js:96-125 | with at least 15 rows and 25 columns, every cell ends as `DefaultLayout` of its previous code (later loops overwrite earlier ones) |
| `Maps.DefaultLayout` | src/GameMap.js:96-125 | reference definition of the default layout cell by cell, latest loop first; `LoadDefaultMap` is proved equal to it and the three lemmas below state its shape |
| `Maps.DefaultGrass` | src/GameMap.js:98-101 | from 16 rows up, the bottom row is grass in every column |
| `Maps.DefaultDirt` | src/GameMap.js:98-101 | from 17 rows up, the row above the bottom row is dirt in every column |
| `Maps.DefaultWall` | src/GameMap.js:117-119 | column 15 is stone in rows 11 to 14 |
| `Maps.DefaultWallCutsShortGround` | src/GameMap.js:96-125 | at column 15 the wall overwrites both ground rows on a 15-row map, and only the dirt row on a 16-row map |
| `Maps.GameMap.FromJSON` | src/GameMap.js:138-147 | after loading a record, `toJSON` gives that record back; `cols` and `rows` are recomputed from its width, height and block size |
| `Maps.GameMap.ToJSON` | src/GameMap.js:127-136 | reference definition of the saved record (all six fields), which `FromJSON` is proved to invert |
| `Maps.CopyThroughJSON` | src/GameMap.js:127-147 | a fresh map of the same size that loads `toJSON()` has the same grid, markers and answers to every `getTile` |
| `Maps.GameMap.Clear` | src/GameMap.js:149-153 | every in-range tile becomes 0; dimensions, `startPos` and `endPos` stay |
| `Maps.EmptyGrid` | src/GameMap.js:8-10 | a well-formed grid of the given size holding only zeros |
| `Players.Player.constructor` | src/Player.js:2-17 | the player starts at the given position, at rest, airborne, facing right, idle, on animation frame 0 |
| `Players.Player.Update` | src/Player.js:20-66 | the new fields are exactly `Step` of the old ones, and the animation counters stay in range |
| `Physics.Step` | src/Player.js:20-66 | reference definition of one tick as a composition of the nine stages; `Players.Player.Update` is proved equal to it and the `Physics.Step*` lemmas state its properties |
| `Players.Player.CheckCollisionX` | src/Player.js:68-87 | the nested row/column scan leaves the player exactly as `CollideX` says |
| `Players.Player.CheckCollisionY` | src/Player.js:89-111 | the nested scan, after clearing `onGround`, leaves the player exactly as `CollideY` says |
| `Physics.CollideX` | src/Player.js:68-87 | reference definition of the horizontal check, snapping on `FirstInBox`; `CheckCollisionX` is proved equal to it and `CollideXFree`/`CollideXFirstWins` state its outcome |
| `Physics.CollideY` | src/Player.js:89-111 | reference definition of the vertical check; `CheckCollisionY` is proved equal to it and `CollideYFree`/`CollideYFirstWins`/`GroundedIffLanded` state its outcome |
| `Players.Player.AdvanceAnimation` | src/Player.js:52-61 | the animation block: counts ticks while moving or airborne, otherwise shows frame 0 |
| `Players.Player.Reset` | src/Player.js:148-154 | sets the position, zeroes both velocities, clears `onGround`; facing, state and animation untouched |
| `Physics.Covered` | src/Player.js:70-73 | the tile span runs from the tile of the first pixel to the tile of the last occupied pixel, and is never empty |
| `Physics.FirstInRow` | src/Player.js:75-76 | the first solid column of a row segment, and that no earlier column is solid; none if the segment is clear |
| `Physics.FirstInBox` | src/Player.js:74-86 | the first solid tile of the box in row-major order, and that no earlier tile is solid; none if the box is clear |
| `Physics.CollideXFree` | src/Player.js:68-87 | with no solid tile under the box, `x` and `vx` are unchanged |
| `Physics.CollideXFirstWins` | src/Player.js:76-83 | otherwise `vx` ends at 0, and the first solid tile decides: moving right ends flush left of it, moving left ends flush right of it, standing still keeps `x` |
| `Physics.CollideYFree` | src/Player.js:89-111 | with no solid tile under the box, only `onGround` changes, to false |
| `Physics.CollideYFirstWins` | src/Player.js:97-108 | a hit zeroes `vy`, snaps flush to the first solid tile, and grounds the player iff it was moving down |
| `Physics.GroundedIffLanded` | src/Player.js:89-111 | `onGround` ends true iff the player was moving down and some tile under it is solid |
| `Physics.StepSteering` | src/Player.js:21-33 | left beats right, right beats nothing, no intent keeps the facing; `vx` ends at the intended speed or 0 |
| `Physics.StepMotion` | src/Player.js:35-50 | the jump impulse applies only on the ground and gravity is added once; a surviving velocity is the full move made; landing needs a downward speed and ends with `vy = 0` |
| `Physics.StepState` | src/Player.js:21-65 | after a tick, `state` is `Jump` iff airborne; on the ground it is `Walk` iff left or right was held, else `Idle` |
| `Physics.StepAnimation` | src/Player.js:52-61 | the frame stays in 0..3 and the timer below 8; a grounded player with zero `vx` shows frame 0 |
| `Scenarios.AgainstWallStep` | src/Player.js:20-111 | holding right against a block while standing keeps the player pressed flush against it |
| `Scenarios.WallHolds` | src/Player.js:20-111 | for any number of ticks of holding right, `x` stays flush with the block's left face |
| `Scenarios.WallTest` | tests/Player.test.js:69-80 | the test's player, held right for 20 ticks next to a block at column 2, stays left of x = 64 px |
| `Scenarios.RestingAlternates` | src/Player.js:89-111 | a player resting on a floor is half a pixel lower and airborne after one tick and back on the floor after two |
| `Games.ReachedIsWinCell` | src/Game.js:54-66 | the four strict inequalities hold iff the centre is strictly inside the cell one row above `endPos` (not on its edge) |
| `Games.TickFrozenOnceWon` | src/Game.js:49 | once `won`, `update` changes nothing, so `won` is never cleared |
| `Games.TickWins` | src/Game.js:51-66 | in a live game, `won` is set iff the moved player's centre is strictly inside the win cell |
| `Games.TickFallRespawns` | src/Game.js:68-74 | below the canvas, the player goes back to spawn at rest; `won` is left as the win test set it |
| `Games.TickNoFall` | src/Game.js:68-74 | above the canvas, the player stays where physics put it |
| `Games.WonStaysFrozen` | src/Game.js:48-49 | after the win, any sequence of frames leaves the world unchanged |
| `Games.Game.constructor` | src/Game.js:6-20 | an 800 x 600 px map of 32 px blocks (25 x 18) with the default layout, start marker (2,10) and end marker (22,10); the player at spawn (64, 288) px, at rest; not running, not won |
| `Games.Game.Start` | src/Game.js:22-30 | running, `won` cleared, the player reset to spawn, then one `update` frame |
| `Games.Game.Stop` | src/Game.js:32-37 | not running; `won` and the player untouched |
| `Games.Game.GameLoop` | src/Game.js:39-46 | one `update` if running, nothing otherwise |
| `Games.Game.Update` | src/Game.js:48-75 | the new player and `won` are `Tick` of the old ones |
| `Games.Tick` | src/Game.js:48-75 | reference definition of one `update` on the player and `won`; `Games.Game.Update` is proved equal to it and the `Games.Tick*` lemmas state its cases |
| `Games.Game.LoadCustomMap` | src/Game.js:113-119 | the map becomes the record, and the spawn comes from the record's `startPos` and block size |
| `Editor.MapEditor.constructor` | src/MapEditor.js:4-12 | a blank 800 x 600 px map of 32 px blocks (25 x 18), start marker (2,10) and end marker (22,10); `selectedBlock = 1`; `mouseDown = false` |
| `Editor.BlockCodesNameTileTypes` | src/MapEditor.js:62-79 | grass, dirt and stone select the codes of those tile types; only "erase" selects 0; any other name selects 1; every selection is in 0..3 |
| `Editor.BlockCode` | src/MapEditor.js:62-79 | reference definition of the block-type table; `SetBlockType` is proved to select it and `BlockCodesNameTileTypes` states its codes |
| `Editor.MapEditor.SetBlockType` | src/MapEditor.js:62-79 | `selectedBlock` becomes the name's code (unknown names select grass) |
| `Editor.CellAt` | src/MapEditor.js:41-42 | the cell under a pixel holds that pixel: floor division on each axis |
| `Editor.MapEditor.HandleClick` | src/MapEditor.js:36-49 | paints `selectedBlock` into the cell under the pointer if it is on the grid; no other cell changes; a click off the grid changes nothing; the map's size, block size and markers stay |
| `Editor.MapEditor.HandleRightClick` | src/MapEditor.js:51-60 | writes 0 into the cell under the pointer, whatever is selected; no other cell, nor the map's size, block size or markers, changes |
| `Editor.MapEditor.OnMouseDown` | src/MapEditor.js:15-18 | sets `mouseDown` and paints as `HandleClick` does (off the grid nothing is painted); the map's size, block size and markers stay |
| `Editor.MapEditor.OnMouseUp` | src/MapEditor.js:20-22 | clears `mouseDown`; the map is untouched |
| `Editor.MapEditor.OnMouseMove` | src/MapEditor.js:24-28 | paints as `HandleClick` does only while `mouseDown` holds, otherwise the grid is untouched; the map's size, block size and markers stay |
| `Editor.MapEditor.OnContextMenu` | src/MapEditor.js:30-33 | erases the cell under the pointer as `HandleRightClick` does; off the grid nothing changes; the map's size, block size and markers stay |
| `Editor.MapEditor.SaveMap` | src/MapEditor.js:101-105 | the saved record is `toJSON()` of the map, and it can be loaded |
| `Editor.MapEditor.LoadMap` | src/MapEditor.js:107-114 | returns true iff a record is stored, and then the map becomes it; an empty slot leaves the map unchanged |
| `Editor.SaveThenLoad` | src/MapEditor.js:101-114 | loading what was just saved succeeds and gives back the same map |
| `Editor.MapEditor.ClearMap` | src/MapEditor.js:116-118 | every tile becomes 0; width, height, block size, grid size and markers stay |
| `Editor.MapEditor.GetMap` | src/MapEditor.js:120-122 | returns the editor's own map object |

## Left out

- Every `render` method and the camera (src/GameMap.js:48-94, src/Player.js:113-146, src/Game.js:77-111, src/MapEditor.js:81-99): canvas drawing only.
- Frame scheduling with `requestAnimationFrame`/`cancelAnimationFrame` and `animationId`: `GameLoop` is one frame, guarded by `running`.
- The keyboard and touch listeners (src/InputHandler.js): each tick takes the three intents as an `Input` value.
- The canvas and assets passed to `Game` and `MapEditor`: `canvas.height` is a parameter of `Update`, `GameLoop` and `Start`.
- Screen switching, buttons, `alert`/`confirm` and canvas resizing (src/index.js); asset and audio loading (src/AssetLoader.js, src/AudioManager.js); the Python asset generators and the jest configuration.
- `localStorage`, `JSON.stringify` and `JSON.parse`: `SaveMap` returns the record and `LoadMap` takes an optional stored record. The text encoding is not modelled.
- `getBoundingClientRect` and `preventDefault`: the editor takes canvas-relative coordinates in whole pixels. Fractional event coordinates are not modelled.
- Aliasing: `toJSON` hands out the live `tiles` array and `fromJSON` keeps the caller's array and position objects. The model copies by value, so an edit to one map never shows in another.
- `Maps.GameMap.FromJSON`: requires a record whose grid matches its declared width, height and block size. The source loads a mismatched record unchecked, and a later read of a missing row would throw.
- `Maps.GameMap.constructor`: requires `blockSize > 0` and non-negative width and height. Otherwise JavaScript raises a RangeError (negative array length) or computes with Infinity/NaN. The default `blockSize = 32` is always passed explicitly.
- `Maps.GameMap.LoadDefaultMap`: requires at least 15 rows and 25 columns. On smaller grids the source either throws on a missing row or grows rows past `cols`.
- IEEE floating point: positions are exact multiples of half a pixel, so they are integers here.
