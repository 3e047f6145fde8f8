/**
 * Screen geometry and the four movement vectors of the game.
 * Positions are pixel coordinates: the snake moves one grid cell of
 * GridSize pixels per tick and wraps around the screen edges.
 */
module Board {
  /** A pixel position (x, y); segments and apples live on such points. */
  type Cell = (int, int)
  /** A movement vector (dx, dy) in grid units. */
  type Vector = (int, int)

  const ScreenWidth: int := 640
  const ScreenHeight: int := 480
  const GridSize: int := 20
  const GridWidth: int := ScreenWidth / GridSize
  const GridHeight: int := ScreenHeight / GridSize

  /** The cell every snake starts from and is reset to. */
  const Center: Cell := (ScreenWidth / 2, ScreenHeight / 2)

  const Up: Vector := (0, -1)
  const Down: Vector := (0, 1)
  const Left: Vector := (-1, 0)
  const Right: Vector := (1, 0)

  predicate IsDirection(d: Vector) {
    d == Up || d == Down || d == Left || d == Right
  }

  /** The componentwise negation of a vector: a direction's reversal partner. */
  function Reverse(d: Vector): (r: Vector)
    ensures IsDirection(d) ==> IsDirection(r) && r != d
    ensures d == Up <==> r == Down
    ensures d == Left <==> r == Right
  {
    (-d.0, -d.1)
  }

  predicate OnScreen(c: Cell) {
    0 <= c.0 < ScreenWidth && 0 <= c.1 < ScreenHeight
  }

  predicate Aligned(c: Cell) {
    c.0 % GridSize == 0 && c.1 % GridSize == 0
  }

  /** The cells the snake can occupy: on screen and on a grid line. */
  predicate OnGrid(c: Cell) {
    OnScreen(c) && Aligned(c)
  }

  /** One grid step from `c` along `d`, before any wrap-around. */
  function Shift(c: Cell, d: Vector): Cell {
    (c.0 + d.0 * GridSize, c.1 + d.1 * GridSize)
  }

  /** A multiple of GridSize stays one after reduction modulo a screen dimension. */
  lemma {:induction false} AlignedMod(q: int, m: int)
    requires m == ScreenWidth || m == ScreenHeight
    ensures q % GridSize == 0 ==> (q % m) % GridSize == 0
  {
    if q % GridSize == 0 {
      var t := q / GridSize;
      var k := q / m;
      var j := m / GridSize;
      assert q == GridSize * t;
      assert m == GridSize * j;
      assert q % m == q - m * k;
      assert q % m == GridSize * (t - j * k);
      MultipleMod(t - j * k);
    }
  }

  lemma MultipleMod(t: int)
    ensures (GridSize * t) % GridSize == 0
  {
  }

  /** A step of the grid size keeps a coordinate on a grid line. */
  lemma {:induction false} AlignedShift(a: int, delta: int)
    ensures a % GridSize == 0 ==> (a + delta * GridSize) % GridSize == 0
  {
    assert a == GridSize * (a / GridSize) + a % GridSize;
    assert a + delta * GridSize == GridSize * (a / GridSize + delta) + a % GridSize;
  }

  /**
   * The head's next cell: one step along `d`, wrapped around the screen
   * with the (non-negative) remainder on each axis.
   */
  function Step(head: Cell, d: Vector): (r: Cell)
    ensures OnScreen(r)
    ensures Aligned(head) ==> Aligned(r)
    ensures OnScreen(Shift(head, d)) ==> r == Shift(head, d)
    ensures OnScreen(head) && IsDirection(d) ==>
      r == Shift(head, d) ||
      r == (Shift(head, d).0 - d.0 * ScreenWidth, Shift(head, d).1 - d.1 * ScreenHeight)
    ensures OnScreen(head) && IsDirection(d) ==> r != head
  {
    var x := head.0 + d.0 * GridSize;
    var y := head.1 + d.1 * GridSize;
    AlignedShift(head.0, d.0);
    AlignedShift(head.1, d.1);
    AlignedMod(x, ScreenWidth);
    AlignedMod(y, ScreenHeight);
    (x % ScreenWidth, y % ScreenHeight)
  }
}
