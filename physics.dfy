/**
 * One tick of player kinematics and collision (Player.update and
 * checkCollisionX/Y in src/Player.js), as functions of a body snapshot.
 *
 * Units: every player coordinate and velocity is counted in HALF pixels, so
 * the source's constants (speed 4, jump 12, gravity 0.5, size 32) are whole
 * numbers. A map block of `blockSize` pixels is `2 * blockSize` half pixels.
 */
module Physics {
  import opened Wrappers
  import opened Tiles

  const Width := 64           // 32 px
  const Height := 64          // 32 px
  const Speed := 8            // 4 px per tick
  const JumpPower := 24       // 12 px per tick
  const Gravity := 1          // 0.5 px per tick, per tick
  const AnimationSpeed := 8   // ticks per animation frame
  const FrameCount := 4

  /** The three level-triggered intents sampled once per tick. */
  datatype Input = Input(left: bool, right: bool, jump: bool)

  datatype Direction = Left | Right

  /** The player's `state` field: 'idle', 'walk' or 'jump'. */
  datatype Motion = Idle | Walk | Jump

  /** Every field of a player that `update` reads or writes. */
  datatype Body = Body(
    x: int, y: int, vx: int, vy: int, onGround: bool,
    direction: Direction, state: Motion, frame: int, timer: int)

  /** The animation counters are in range. */
  predicate AnimationOk(b: Body) {
    0 <= b.frame < FrameCount && 0 <= b.timer < AnimationSpeed
  }

  /** A map block in half pixels. */
  function Block(v: TileView): int
    requires v.Valid()
  {
    2 * v.blockSize
  }

  /** An inclusive range of tile indices. */
  datatype Span = Span(lo: int, hi: int)

  /**
   * The tiles under a box edge running from `coord` over `size` half pixels:
   * from the tile of its first pixel to the tile of its last occupied pixel,
   * which starts one pixel (two half pixels) before `coord + size`.
   */
  function Covered(coord: int, size: int, v: TileView): (s: Span)
    requires v.Valid() && size >= 2
    ensures s.lo <= s.hi
    ensures s.lo * Block(v) <= coord < s.lo * Block(v) + Block(v)
    ensures s.hi * Block(v) <= coord + size - 2 < s.hi * Block(v) + Block(v)
  {
    var lo := FloorDiv(coord, Block(v));
    var hi := FloorDiv(coord + size - 2, Block(v));
    assert lo <= hi by {
      if hi < lo {
        MulMonotone(hi + 1, lo, Block(v));
      }
    }
    Span(lo, hi)
  }

  lemma MulMonotone(a: int, b: int, k: int)
    requires a <= b && k > 0
    ensures a * k <= b * k
  {
  }

  datatype Cell = Cell(col: int, row: int)

  /** `a` comes before `b` in the row-major order in which the collision loops scan. */
  predicate Before(a: Cell, b: Cell) {
    a.row < b.row || (a.row == b.row && a.col < b.col)
  }

  /** No tile of rows `rows` and columns `cols` is solid. */
  predicate NoSolid(v: TileView, rows: Span, cols: Span)
    requires v.Valid()
  {
    forall row, col :: rows.lo <= row <= rows.hi && cols.lo <= col <= cols.hi ==> !v.IsSolid(col, row)
  }

  /** `c` is the first solid tile of the box in row-major order. */
  predicate IsFirstSolid(v: TileView, rows: Span, cols: Span, c: Cell)
    requires v.Valid()
  {
    && rows.lo <= c.row <= rows.hi && cols.lo <= c.col <= cols.hi
    && v.IsSolid(c.col, c.row)
    && forall row, col :: rows.lo <= row <= rows.hi && cols.lo <= col <= cols.hi && Before(Cell(col, row), c)
                          ==> !v.IsSolid(col, row)
  }

  /** A box has at most one first solid tile. */
  lemma FirstSolidUnique(v: TileView, rows: Span, cols: Span, c: Cell, d: Cell)
    requires v.Valid() && IsFirstSolid(v, rows, cols, c) && IsFirstSolid(v, rows, cols, d)
    ensures c == d
  {
  }

  /** The first solid column of `row` among `lo .. end-1`, scanning left to right. */
  function FirstInRow(v: TileView, row: int, lo: int, end: int): (r: Option<int>)
    requires v.Valid()
    decreases end - lo
    ensures r.Some? ==> lo <= r.value < end && v.IsSolid(r.value, row)
    ensures r.Some? ==> forall col :: lo <= col < r.value ==> !v.IsSolid(col, row)
    ensures r.None? ==> forall col :: lo <= col < end ==> !v.IsSolid(col, row)
  {
    if end <= lo then None
    else match FirstInRow(v, row, lo, end - 1)
      case Some(col) => Some(col)
      case None => if v.IsSolid(end - 1, row) then Some(end - 1) else None
  }

  /** The result of a scan that has finished the earlier rows (`done`) and scanned `row` (`inRow`). */
  function Then(done: Option<Cell>, row: int, inRow: Option<int>): Option<Cell> {
    if done.Some? then done
    else if inRow.Some? then Some(Cell(inRow.value, row))
    else None
  }

  /** The first solid tile of rows `top .. end-1` and columns `cols`, in row-major order. */
  function FirstInBox(v: TileView, top: int, end: int, cols: Span): (r: Option<Cell>)
    requires v.Valid()
    decreases end - top
    ensures r.Some? ==> IsFirstSolid(v, Span(top, end - 1), cols, r.value)
    ensures r.None? ==> NoSolid(v, Span(top, end - 1), cols)
  {
    if end <= top then None
    else Then(FirstInBox(v, top, end - 1, cols), end - 1, FirstInRow(v, end - 1, cols.lo, cols.hi + 1))
  }

  /** The solid tiles a box with top-left corner (`x`, `y`) overlaps: rows, then columns. */
  function RowsUnder(b: Body, v: TileView): Span
    requires v.Valid()
  {
    Covered(b.y, Height, v)
  }

  function ColsUnder(b: Body, v: TileView): Span
    requires v.Valid()
  {
    Covered(b.x, Width, v)
  }

  /** The horizontal snap once the scan has found `hit`: later solid tiles see a zero velocity. */
  function SnapX(b: Body, hit: Option<Cell>, block: int): Body {
    match hit
    case None => b
    case Some(c) =>
      b.(x := if b.vx > 0 then c.col * block - Width else if b.vx < 0 then (c.col + 1) * block else b.x,
         vx := 0)
  }

  /** The vertical snap once the scan has found `hit`; only a downward hit grounds the body. */
  function SnapY(b: Body, hit: Option<Cell>, block: int): Body {
    match hit
    case None => b
    case Some(c) =>
      b.(y := if b.vy > 0 then c.row * block - Height else if b.vy < 0 then (c.row + 1) * block else b.y,
         vy := 0,
         onGround := b.onGround || b.vy > 0)
  }

  /** `checkCollisionX`, run on the body after its horizontal move. */
  function CollideX(b: Body, v: TileView): Body
    requires v.Valid()
  {
    var rows := RowsUnder(b, v);
    SnapX(b, FirstInBox(v, rows.lo, rows.hi + 1, ColsUnder(b, v)), Block(v))
  }

  /** `checkCollisionY`, run on the body after its vertical move. */
  function CollideY(b: Body, v: TileView): Body
    requires v.Valid()
  {
    var rows := RowsUnder(b, v);
    SnapY(b.(onGround := false), FirstInBox(v, rows.lo, rows.hi + 1, ColsUnder(b, v)), Block(v))
  }

  /** With no solid tile under the box, the horizontal check changes nothing. */
  lemma CollideXFree(b: Body, v: TileView)
    requires v.Valid() && NoSolid(v, RowsUnder(b, v), ColsUnder(b, v))
    ensures CollideX(b, v) == b
  {
  }

  /**
   * Otherwise the first solid tile in scan order decides: the box ends flush
   * against it on the side it was moving towards, and stops.
   */
  lemma {:induction false} CollideXFirstWins(b: Body, v: TileView, c: Cell)
    requires v.Valid() && IsFirstSolid(v, RowsUnder(b, v), ColsUnder(b, v), c)
    ensures var r := CollideX(b, v);
      && r == b.(x := r.x, vx := 0)
      && (b.vx > 0 ==> r.x + Width == c.col * Block(v))
      && (b.vx < 0 ==> r.x == (c.col + 1) * Block(v))
      && (b.vx == 0 ==> r.x == b.x)
  {
    var rows := RowsUnder(b, v);
    var hit := FirstInBox(v, rows.lo, rows.hi + 1, ColsUnder(b, v));
    if hit.Some? {
      FirstSolidUnique(v, rows, ColsUnder(b, v), c, hit.value);
    }
  }

  /** With no solid tile under the box, the vertical check only clears `onGround`. */
  lemma CollideYFree(b: Body, v: TileView)
    requires v.Valid() && NoSolid(v, RowsUnder(b, v), ColsUnder(b, v))
    ensures CollideY(b, v) == b.(onGround := false)
  {
  }

  /** A vertical hit stops the body flush against the first solid tile; falling onto it grounds it. */
  lemma {:induction false} CollideYFirstWins(b: Body, v: TileView, c: Cell)
    requires v.Valid() && IsFirstSolid(v, RowsUnder(b, v), ColsUnder(b, v), c)
    ensures var r := CollideY(b, v);
      && r == b.(y := r.y, vy := 0, onGround := r.onGround)
      && (r.onGround <==> b.vy > 0)
      && (b.vy > 0 ==> r.y + Height == c.row * Block(v))
      && (b.vy < 0 ==> r.y == (c.row + 1) * Block(v))
      && (b.vy == 0 ==> r.y == b.y)
  {
    var rows := RowsUnder(b, v);
    var hit := FirstInBox(v, rows.lo, rows.hi + 1, ColsUnder(b, v));
    if hit.Some? {
      FirstSolidUnique(v, rows, ColsUnder(b, v), c, hit.value);
    }
  }

  /** `onGround` after the vertical check: the body was moving down and some tile under it is solid. */
  lemma GroundedIffLanded(b: Body, v: TileView)
    requires v.Valid()
    ensures CollideY(b, v).onGround <==> b.vy > 0 && !NoSolid(v, RowsUnder(b, v), ColsUnder(b, v))
    ensures CollideY(b, v).onGround ==> CollideY(b, v).vy == 0
  {
    var rows := RowsUnder(b, v);
    var hit := FirstInBox(v, rows.lo, rows.hi + 1, ColsUnder(b, v));
    if hit.Some? {
      assert !NoSolid(v, rows, ColsUnder(b, v)) by {
        assert v.IsSolid(hit.value.col, hit.value.row);
      }
    }
  }

  /** Horizontal intent: left is checked first, then right, else the body stands still. */
  function Steer(b: Body, input: Input): Body {
    if input.left then b.(vx := -Speed, direction := Left, state := Walk)
    else if input.right then b.(vx := Speed, direction := Right, state := Walk)
    else b.(vx := 0, state := Idle)
  }

  /** A jump only from the ground. */
  function Launch(b: Body, input: Input): Body {
    if input.jump && b.onGround then b.(vy := -JumpPower, onGround := false) else b
  }

  /** The cyclic 4-frame counter, advanced while moving or airborne, otherwise back to frame 0. */
  function Animate(b: Body): Body {
    if b.vx != 0 || !b.onGround then
      if b.timer + 1 >= AnimationSpeed then b.(frame := (b.frame + 1) % FrameCount, timer := 0)
      else b.(timer := b.timer + 1)
    else b.(frame := 0)
  }

  /** Gravity, added once per tick after any jump impulse. */
  function Fall(b: Body): Body {
    b.(vy := b.vy + Gravity)
  }

  function MoveX(b: Body): Body {
    b.(x := b.x + b.vx)
  }

  function MoveY(b: Body): Body {
    b.(y := b.y + b.vy)
  }

  /** An airborne body shows the jump state whatever its horizontal intent. */
  function Settle(b: Body): Body {
    if !b.onGround then b.(state := Jump) else b
  }

  /** `Player.update`: intent, jump, gravity, move and resolve X, move and resolve Y, animate. */
  function Step(b: Body, input: Input, v: TileView): Body
    requires v.Valid()
  {
    Settle(Animate(CollideY(MoveY(CollideX(MoveX(Fall(Launch(Steer(b, input), input))), v)), v)))
  }

  /** `count` ticks under the same input. */
  function Run(b: Body, input: Input, v: TileView, count: nat): Body
    requires v.Valid()
    decreases count
  {
    if count == 0 then b else Run(Step(b, input, v), input, v, count - 1)
  }

  /** The vertical speed a tick moves with: the jump impulse if grounded, then gravity once. */
  function FallSpeed(b: Body, input: Input): int {
    (if input.jump && b.onGround then -JumpPower else b.vy) + Gravity
  }

  /** The horizontal speed a tick moves with. */
  function WalkSpeed(input: Input): int {
    if input.left then -Speed else if input.right then Speed else 0
  }

  /** Left wins over right; a body with no horizontal intent keeps its facing. */
  lemma StepSteering(b: Body, input: Input, v: TileView)
    requires v.Valid()
    ensures var r := Step(b, input, v);
      && r.direction == (if input.left then Left else if input.right then Right else b.direction)
      && (r.vx == WalkSpeed(input) || r.vx == 0)
  {
  }

  /**
   * A velocity that survives the tick is the one the body moved with, by its
   * full amount; a collision zeroes it; landing needs a downward speed.
   */
  lemma StepMotion(b: Body, input: Input, v: TileView)
    requires v.Valid()
    ensures var r := Step(b, input, v);
      && (r.vx != 0 ==> r.vx == WalkSpeed(input) && r.x == b.x + r.vx)
      && (r.vy == 0 || r.vy == FallSpeed(b, input))
      && (r.vy != 0 ==> r.y == b.y + r.vy && !r.onGround)
      && (r.onGround ==> FallSpeed(b, input) > 0 && r.vy == 0)
  {
  }

  /** `state` is 'jump' exactly when airborne; on the ground it says whether a direction was held. */
  lemma StepState(b: Body, input: Input, v: TileView)
    requires v.Valid()
    ensures var r := Step(b, input, v);
      && (r.state == Jump <==> !r.onGround)
      && (r.onGround ==> r.state == (if input.left || input.right then Walk else Idle))
  {
  }

  /** The animation counters stay in range, and a grounded body standing still shows frame 0. */
  lemma StepAnimation(b: Body, input: Input, v: TileView)
    requires v.Valid() && AnimationOk(b)
    ensures AnimationOk(Step(b, input, v))
    ensures Step(b, input, v).vx == 0 && Step(b, input, v).onGround ==> Step(b, input, v).frame == 0
  {
  }
}
