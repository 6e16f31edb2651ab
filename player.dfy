/** The player object of src/Player.js, updated field by field each tick. */
module Players {
  import opened Tiles
  import opened Physics
  import Maps

  class Player {
    var x: int
    var y: int
    var velocityX: int
    var velocityY: int
    var onGround: bool
    var direction: Direction
    var state: Motion
    var animationFrame: int
    var animationTimer: int

    ghost predicate Valid()
      reads this
    {
      AnimationOk(Snapshot())
    }

    /** The player's fields as a value. */
    function Snapshot(): Body
      reads this
    {
      Body(x, y, velocityX, velocityY, onGround, direction, state, animationFrame, animationTimer)
    }

    /** A player at rest at (`x`, `y`), facing right. */
    constructor (x: int, y: int)
      ensures Valid()
      ensures Snapshot() == Body(x, y, 0, 0, false, Right, Idle, 0, 0)
    {
      this.x := x;
      this.y := y;
      velocityX := 0;
      velocityY := 0;
      onGround := false;
      direction := Right;
      state := Idle;
      animationFrame := 0;
      animationTimer := 0;
    }

    /** `update`: one tick of the player against `map`. */
    method Update(input: Input, tileMap: Maps.GameMap)
      requires Valid() && tileMap.Valid()
      modifies this
      ensures Valid()
      ensures Snapshot() == Step(old(Snapshot()), input, tileMap.View())
    {
      ghost var b0 := Snapshot();
      ghost var view := tileMap.View();
      // Horizontal movement
      velocityX := 0;
      if input.left {
        velocityX := -Speed;
        direction := Left;
        state := Walk;
      } else if input.right {
        velocityX := Speed;
        direction := Right;
        state := Walk;
      } else {
        state := Idle;
      }
      assert Snapshot() == Steer(b0, input);
      // Jump
      if input.jump && onGround {
        velocityY := -JumpPower;
        onGround := false;
      }
      assert Snapshot() == Launch(Steer(b0, input), input);
      // Gravity
      velocityY := velocityY + Gravity;
      // Move horizontally
      x := x + velocityX;
      ghost var moved := MoveX(Fall(Launch(Steer(b0, input), input)));
      assert Snapshot() == moved;
      CheckCollisionX(tileMap);
      // Move vertically
      y := y + velocityY;
      assert Snapshot() == MoveY(CollideX(moved, view));
      CheckCollisionY(tileMap);
      ghost var collided := CollideY(MoveY(CollideX(moved, view)), view);
      // Animation
      AdvanceAnimation();
      if !onGround {
        state := Jump;
      }
      assert Snapshot() == Settle(Animate(collided));
      StepAnimation(b0, input, view);
    }

    /** The animation block of `update`: count ticks while moving or airborne, else show frame 0. */
    method AdvanceAnimation()
      modifies this
      ensures Snapshot() == Animate(old(Snapshot()))
    {
      if velocityX != 0 || !onGround {
        animationTimer := animationTimer + 1;
        if animationTimer >= AnimationSpeed {
          animationFrame := (animationFrame + 1) % FrameCount;
          animationTimer := 0;
        }
      } else {
        animationFrame := 0;
      }
    }

    /** `checkCollisionX`: scans the covered tiles row by row and snaps on the first solid one. */
    method CheckCollisionX(tileMap: Maps.GameMap)
      requires tileMap.Valid()
      modifies this
      ensures Snapshot() == CollideX(old(Snapshot()), tileMap.View())
    {
      var view := tileMap.View();
      var blockSize := 2 * tileMap.blockSize;
      var left := FloorDiv(x, blockSize);
      var right := FloorDiv(x + Width - 2, blockSize);
      var top := FloorDiv(y, blockSize);
      var bottom := FloorDiv(y + Height - 2, blockSize);
      ghost var b0 := Snapshot();
      ghost var cols := Span(left, right);
      assert cols == ColsUnder(b0, view) && Span(top, bottom) == RowsUnder(b0, view);

      var row := top;
      while row <= bottom
        invariant top <= row <= bottom + 1
        invariant Snapshot() == SnapX(b0, FirstInBox(view, top, row, cols), blockSize)
      {
        var col := left;
        while col <= right
          invariant left <= col <= right + 1
          invariant Snapshot() == SnapX(b0, Then(FirstInBox(view, top, row, cols), row, FirstInRow(view, row, left, col)), blockSize)
        {
          if view.IsSolid(col, row) {
            if velocityX > 0 {
              x := col * blockSize - Width;
            } else if velocityX < 0 {
              x := (col + 1) * blockSize;
            }
            velocityX := 0;
          }
          col := col + 1;
        }
        row := row + 1;
      }
    }

    /** `checkCollisionY`: clears `onGround`, then scans like the horizontal check. */
    method CheckCollisionY(tileMap: Maps.GameMap)
      requires tileMap.Valid()
      modifies this
      ensures Snapshot() == CollideY(old(Snapshot()), tileMap.View())
    {
      var view := tileMap.View();
      var blockSize := 2 * tileMap.blockSize;
      var left := FloorDiv(x, blockSize);
      var right := FloorDiv(x + Width - 2, blockSize);
      var top := FloorDiv(y, blockSize);
      var bottom := FloorDiv(y + Height - 2, blockSize);
      ghost var b0 := Snapshot();
      ghost var cols := Span(left, right);
      assert cols == ColsUnder(b0, view) && Span(top, bottom) == RowsUnder(b0, view);

      onGround := false;

      var row := top;
      while row <= bottom
        invariant top <= row <= bottom + 1
        invariant Snapshot() == SnapY(b0.(onGround := false), FirstInBox(view, top, row, cols), blockSize)
      {
        var col := left;
        while col <= right
          invariant left <= col <= right + 1
          invariant Snapshot() == SnapY(b0.(onGround := false), Then(FirstInBox(view, top, row, cols), row, FirstInRow(view, row, left, col)), blockSize)
        {
          if view.IsSolid(col, row) {
            if velocityY > 0 {
              y := row * blockSize - Height;
              onGround := true;
            } else if velocityY < 0 {
              y := (row + 1) * blockSize;
            }
            velocityY := 0;
          }
          col := col + 1;
        }
        row := row + 1;
      }
    }

    /** `reset`: a new position at rest in the air; facing, state and animation stay. */
    method Reset(x: int, y: int)
      modifies this
      ensures Snapshot() == old(Snapshot()).(x := x, y := y, vx := 0, vy := 0, onGround := false)
    {
      this.x := x;
      this.y := y;
      velocityX := 0;
      velocityY := 0;
      onGround := false;
    }
  }
}
