/**
 * The game loop of src/Game.js: a map, a player, and the `running` and `won`
 * flags, advanced by one `update` per frame.
 */
module Games {
  import opened Tiles
  import opened Physics
  import Maps
  import Players

  /** `player.reset` to the spawn point: the start cell's left edge, 32 px above the start row's top. */
  function Respawn(b: Body, startPos: Pos, blockSize: int): Body {
    b.(x := 2 * (startPos.x * blockSize), y := 2 * (startPos.y * blockSize - 32),
       vx := 0, vy := 0, onGround := false)
  }

  /** The win test of `update`: four strict inequalities on the player's centre. */
  predicate Reached(b: Body, endPos: Pos, blockSize: int) {
    var centerX := b.x + Width / 2;
    var centerY := b.y + Height / 2;
    var endX := 2 * (endPos.x * blockSize);
    var endY := 2 * (endPos.y * blockSize);
    var block := 2 * blockSize;
    && centerX > endX
    && centerX < endX + block
    && centerY > endY - block
    && centerY < endY
  }

  /** `a` lies strictly inside cell `q` of width `k`: the cell is `a`'s and `a` is not on its edge. */
  lemma StrictlyInsideCell(a: int, q: int, k: int)
    requires k > 0
    ensures q * k < a < q * k + k <==> a / k == q && a % k != 0
  {
    var d := a / k;
    assert a == d * k + a % k;
    if q * k < a < q * k + k {
      if d < q {
        MulMonotone(d + 1, q, k);
      } else if d > q {
        MulMonotone(q + 1, d, k);
      }
    }
  }

  /**
   * The winning cell is the block one row ABOVE `endPos`, and a centre on one
   * of its edges does not count yet.
   */
  lemma ReachedIsWinCell(b: Body, endPos: Pos, blockSize: int)
    requires blockSize > 0
    ensures var block := 2 * blockSize;
      var centerX := b.x + Width / 2;
      var centerY := b.y + Height / 2;
      Reached(b, endPos, blockSize) <==>
        && FloorDiv(centerX, block) == endPos.x && centerX % block != 0
        && FloorDiv(centerY, block) == endPos.y - 1 && centerY % block != 0
  {
    var block := 2 * blockSize;
    assert 2 * (endPos.x * blockSize) == endPos.x * block;
    assert 2 * (endPos.y * blockSize) - block == (endPos.y - 1) * block;
    StrictlyInsideCell(b.x + Width / 2, endPos.x, block);
    StrictlyInsideCell(b.y + Height / 2, endPos.y - 1, block);
  }

  /** What `update` reads and writes besides the map. */
  datatype World = World(player: Body, won: bool)

  /** `update`: nothing once won; otherwise physics, then the win test, then the fall check. */
  function Tick(w: World, input: Input, v: TileView, startPos: Pos, endPos: Pos, canvasHeight: int): World
    requires v.Valid()
  {
    if w.won then w
    else
      var b := Step(w.player, input, v);
      World(if b.y > 2 * canvasHeight then Respawn(b, startPos, v.blockSize) else b,
            Reached(b, endPos, v.blockSize))
  }

  /** A won game is frozen: `update` changes nothing, so `won` is never cleared. */
  lemma TickFrozenOnceWon(w: World, input: Input, v: TileView, startPos: Pos, endPos: Pos, canvasHeight: int)
    requires v.Valid() && w.won
    ensures Tick(w, input, v, startPos, endPos, canvasHeight) == w
  {
  }

  /** `won` is set exactly when the moved player's centre is strictly inside the cell above `endPos`. */
  lemma TickWins(w: World, input: Input, v: TileView, startPos: Pos, endPos: Pos, canvasHeight: int)
    requires v.Valid() && !w.won
    ensures var b := Step(w.player, input, v);
      var centerX := b.x + Width / 2;
      var centerY := b.y + Height / 2;
      Tick(w, input, v, startPos, endPos, canvasHeight).won <==>
        && FloorDiv(centerX, Block(v)) == endPos.x && centerX % Block(v) != 0
        && FloorDiv(centerY, Block(v)) == endPos.y - 1 && centerY % Block(v) != 0
  {
    ReachedIsWinCell(Step(w.player, input, v), endPos, v.blockSize);
  }

  /**
   * Falling below the canvas is not a failure: the player is put back at the
   * spawn point at rest, and `won` is whatever the win test said.
   */
  lemma TickFallRespawns(w: World, input: Input, v: TileView, startPos: Pos, endPos: Pos, canvasHeight: int)
    requires v.Valid() && !w.won && Step(w.player, input, v).y > 2 * canvasHeight
    ensures var r := Tick(w, input, v, startPos, endPos, canvasHeight);
      && r.player.x == 2 * (startPos.x * v.blockSize) && r.player.y == 2 * (startPos.y * v.blockSize - 32)
      && r.player.vx == 0 && r.player.vy == 0 && !r.player.onGround
      && r.won == Reached(Step(w.player, input, v), endPos, v.blockSize)
  {
  }

  /** A tick that does not fall below the canvas leaves the player where physics put it. */
  lemma TickNoFall(w: World, input: Input, v: TileView, startPos: Pos, endPos: Pos, canvasHeight: int)
    requires v.Valid() && !w.won && Step(w.player, input, v).y <= 2 * canvasHeight
    ensures Tick(w, input, v, startPos, endPos, canvasHeight).player == Step(w.player, input, v)
  {
  }

  /** `update` driven by one input per frame. */
  function Ticks(w: World, inputs: seq<Input>, v: TileView, startPos: Pos, endPos: Pos, canvasHeight: int): World
    requires v.Valid()
    decreases |inputs|
  {
    if inputs == [] then w
    else Ticks(Tick(w, inputs[0], v, startPos, endPos, canvasHeight), inputs[1..], v, startPos, endPos, canvasHeight)
  }

  /** After the win, whatever is pressed, every later frame shows the same player. */
  lemma {:induction false} WonStaysFrozen(w: World, inputs: seq<Input>, v: TileView, startPos: Pos, endPos: Pos, canvasHeight: int)
    requires v.Valid() && w.won
    ensures Ticks(w, inputs, v, startPos, endPos, canvasHeight) == w
    decreases |inputs|
  {
    if inputs != [] {
      TickFrozenOnceWon(w, inputs[0], v, startPos, endPos, canvasHeight);
      WonStaysFrozen(w, inputs[1..], v, startPos, endPos, canvasHeight);
    }
  }

  class Game {
    const tileMap: Maps.GameMap
    const player: Players.Player
    var running: bool
    var won: bool

    ghost predicate Valid()
      reads this, tileMap, player
    {
      tileMap.Valid() && player.Valid()
    }

    function State(): World
      reads this, player
    {
      World(player.Snapshot(), won)
    }

    /** The spawn point of the current map, in half pixels. */
    function SpawnX(): int
      reads this, tileMap
    {
      2 * (tileMap.startPos.x * tileMap.blockSize)
    }

    function SpawnY(): int
      reads this, tileMap
    {
      2 * (tileMap.startPos.y * tileMap.blockSize - 32)
    }

    /** An 800 x 600 map of 32 px blocks with the default layout, the player at its spawn point. */
    constructor ()
      ensures Valid() && fresh(tileMap) && fresh(player)
      ensures !running && !won
      ensures tileMap.width == 800 && tileMap.height == 600
      ensures tileMap.cols == 25 && tileMap.rows == 18 && tileMap.blockSize == 32
      ensures tileMap.startPos == Pos(2, 10) && tileMap.endPos == Pos(22, 10)
      ensures forall r, c :: 0 <= r < 18 && 0 <= c < 25 ==> tileMap.tiles[r][c] == Maps.DefaultLayout(25, 18, c, r, 0)
      ensures player.Snapshot() == Body(128, 576, 0, 0, false, Right, Idle, 0, 0)
    {
      var m := new Maps.GameMap(800, 600, 32);
      m.LoadDefaultMap();
      tileMap := m;
      player := new Players.Player(2 * (m.startPos.x * m.blockSize), 2 * (m.startPos.y * m.blockSize - 32));
      running := false;
      won := false;
    }

    /** `start`: run, clear `won`, put the player at spawn, and run the first frame. */
    method Start(input: Input, canvasHeight: int)
      requires Valid()
      modifies this, player
      ensures Valid() && running
      ensures State() == Tick(World(Respawn(old(player.Snapshot()), tileMap.startPos, tileMap.blockSize), false),
                              input, tileMap.View(), tileMap.startPos, tileMap.endPos, canvasHeight)
    {
      running := true;
      won := false;
      player.Reset(SpawnX(), SpawnY());
      GameLoop(input, canvasHeight);
    }

    /** `stop`: no further frames; nothing else changes. */
    method Stop()
      modifies this
      ensures !running && won == old(won)
    {
      running := false;
    }

    /** One frame of `gameLoop`: an `update` if running, nothing otherwise. */
    method GameLoop(input: Input, canvasHeight: int)
      requires Valid()
      modifies this, player
      ensures Valid() && running == old(running)
      ensures State() == if old(running)
                         then Tick(old(State()), input, tileMap.View(), tileMap.startPos, tileMap.endPos, canvasHeight)
                         else old(State())
    {
      if !running {
        return;
      }
      Update(input, canvasHeight);
    }

    /** `update`: checks `won` only; `running` is the frame driver's concern. */
    method Update(input: Input, canvasHeight: int)
      requires Valid()
      modifies this, player
      ensures Valid() && running == old(running)
      ensures State() == Tick(old(State()), input, tileMap.View(), tileMap.startPos, tileMap.endPos, canvasHeight)
    {
      if won {
        return;
      }
      player.Update(input, tileMap);

      // Win condition
      var centerX := player.x + Width / 2;
      var centerY := player.y + Height / 2;
      var endX := 2 * (tileMap.endPos.x * tileMap.blockSize);
      var endY := 2 * (tileMap.endPos.y * tileMap.blockSize);
      var block := 2 * tileMap.blockSize;
      if centerX > endX && centerX < endX + block && centerY > endY - block && centerY < endY {
        won := true;
      }

      // Fall off the map
      if player.y > 2 * canvasHeight {
        player.Reset(SpawnX(), SpawnY());
      }
    }

    /** `loadCustomMap`: load the record, then respawn from ITS start and block size. */
    method LoadCustomMap(data: Maps.MapData)
      requires Valid() && data.Loadable()
      modifies tileMap, player
      ensures Valid() && tileMap.ToJSON() == data
      ensures player.Snapshot() == Respawn(old(player.Snapshot()), data.startPos, data.blockSize)
    {
      tileMap.FromJSON(data);
      player.Reset(SpawnX(), SpawnY());
    }
  }
}
