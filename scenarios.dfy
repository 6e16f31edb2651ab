/**
 * Multi-tick behaviour of the physics step on the layout of
 * tests/Player.test.js and on a flat floor.
 */
module Scenarios {
  import opened Tiles
  import opened Physics

  const HoldRight := Input(false, true, false)
  const NoKeys := Input(false, false, false)

  /**
   * The map of tests/Player.test.js: 25 x 18 blocks of 32 px, grass along
   * the bottom row and one extra block at column 2 of row 16.
   */
  function FloorWithBlock(): (v: TileView)
    ensures v.Valid()
  {
    TileView(32, 25, 18, seq(18, r => seq(25, c => if r == 17 || (r == 16 && c == 2) then 1 else 0)))
  }

  /** The tiles the wall scenario touches: free at (1, 16), solid at (2, 16) and (1, 17). */
  predicate WallAhead(v: TileView) {
    v.Valid() && v.blockSize == 32 && !v.IsSolid(1, 16) && v.IsSolid(2, 16) && v.IsSolid(1, 17)
  }

  lemma FloorWithBlockHasWall()
    ensures WallAhead(FloorWithBlock())
  {
  }

  /**
   * Pressed against the block at column 2 (x = 32 px, flush with its left
   * face) while standing on row 17: either resting at y = 512 px, or half a
   * pixel lower and falling after a tick on the ground.
   */
  predicate AgainstWall(b: Body) {
    b.x == 64 && ((b.y == 1024 && b.vy == 0) || (b.y == 1025 && b.vy == 1 && !b.onGround))
  }

  /** One tick of holding right keeps the player pressed against the block. */
  lemma {:induction false} AgainstWallStep(b: Body, v: TileView)
    requires WallAhead(v) && AgainstWall(b)
    ensures AgainstWall(Step(b, HoldRight, v))
  {
    var moved := MoveX(Fall(Launch(Steer(b, HoldRight), HoldRight)));
    assert moved.x == 72 && moved.vx == Speed;
    assert ColsUnder(moved, v) == Span(1, 2);
    assert RowsUnder(moved, v) == Span(16, 16);
    CollideXFirstWins(moved, v, Cell(2, 16));
    var stopped := CollideX(moved, v);
    assert stopped.x == 64 && stopped.vx == 0;
    var dropped := MoveY(stopped);
    assert ColsUnder(dropped, v) == Span(1, 1);
    if b.y == 1024 {
      assert dropped.y == 1025 && dropped.vy == 1;
      assert RowsUnder(dropped, v) == Span(16, 16);
      CollideYFree(dropped, v);
    } else {
      assert dropped.y == 1027 && dropped.vy == 2;
      assert RowsUnder(dropped, v) == Span(16, 17);
      CollideYFirstWins(dropped, v, Cell(1, 17));
    }
  }

  /** However long right is held, the player stays flush against the block's left face. */
  lemma {:induction false} WallHolds(b: Body, v: TileView, ticks: nat)
    requires WallAhead(v) && AgainstWall(b)
    ensures AgainstWall(Run(b, HoldRight, v, ticks))
    ensures Run(b, HoldRight, v, ticks).x + Width == 2 * Block(v)
    decreases ticks
  {
    if ticks > 0 {
      AgainstWallStep(b, v);
      WallHolds(Step(b, HoldRight, v), v, ticks - 1);
    }
  }

  /** The test's player, built at (100, 100) and moved to (32, 512) px, is left of x = 64 px after 20 ticks. */
  lemma WallTest()
    ensures Run(Body(64, 1024, 0, 0, false, Right, Idle, 0, 0), HoldRight, FloorWithBlock(), 20).x < 128
  {
    FloorWithBlockHasWall();
    WallHolds(Body(64, 1024, 0, 0, false, Right, Idle, 0, 0), FloorWithBlock(), 20);
  }

  /**
   * Resting is a two-tick cycle, not a fixed point: with 32 px blocks, a body
   * standing on row `k` (its bottom edge at the top of that row) with nothing
   * in row `k - 1` drifts half a pixel down and leaves the ground for one tick,
   * then lands back at the same height.
   */
  lemma {:induction false} RestingAlternates(b: Body, v: TileView, k: int)
    requires v.Valid() && v.blockSize == 32
    requires b.y + Height == k * Block(v) && b.vy == 0 && b.onGround
    requires NoSolid(v, Span(k - 1, k - 1), ColsUnder(b, v))
    requires !NoSolid(v, Span(k, k), ColsUnder(b, v))
    ensures var once := Step(b, NoKeys, v);
      && once.x == b.x && once.y == b.y + 1 && once.vy == 1 && !once.onGround && once.state == Jump
    ensures var twice := Step(Step(b, NoKeys, v), NoKeys, v);
      && twice.x == b.x && twice.y == b.y && twice.vy == 0 && twice.onGround && twice.state == Idle
  {
    var cols := ColsUnder(b, v);
    // first tick: half a pixel down, nothing below yet
    var m1 := MoveX(Fall(Launch(Steer(b, NoKeys), NoKeys)));
    assert RowsUnder(m1, v) == Span(k - 1, k - 1);
    CollideXFree(m1, v);
    var d1 := MoveY(CollideX(m1, v));
    assert d1.y == b.y + 1 && ColsUnder(d1, v) == cols;
    assert RowsUnder(d1, v) == Span(k - 1, k - 1);
    CollideYFree(d1, v);
    var once := Step(b, NoKeys, v);
    assert once.x == b.x && once.y == b.y + 1 && once.vy == 1 && !once.onGround;
    // second tick: one and a half pixels down reaches row k
    var m2 := MoveX(Fall(Launch(Steer(once, NoKeys), NoKeys)));
    assert RowsUnder(m2, v) == Span(k - 1, k - 1);
    CollideXFree(m2, v);
    var d2 := MoveY(CollideX(m2, v));
    assert d2.y == b.y + 3 && d2.vy == 2 && ColsUnder(d2, v) == cols;
    assert RowsUnder(d2, v) == Span(k - 1, k);
    var hit := FirstInBox(v, k - 1, k + 1, cols);
    assert hit.Some? && hit.value.row == k;
    CollideYFirstWins(d2, v, hit.value);
  }
}
