/** The apple: a single position, redrawn from two random grid indices. */
module Apples {
  import opened Board

  /** The range of the two random draws: each index runs from 1 to the grid size inclusive. */
  predicate ValidDraws(rx: int, ry: int) {
    1 <= rx <= GridWidth && 1 <= ry <= GridHeight
  }

  /**
   * The apple's new position from the draws `rx` and `ry`. The indices start at 1
   * and include the grid size, so the left column and top row are never chosen,
   * and an index at its maximum puts the apple just past the screen edge.
   */
  function RandomizePosition(rx: int, ry: int): (c: Cell)
    requires ValidDraws(rx, ry)
    ensures Aligned(c)
    ensures GridSize <= c.0 <= ScreenWidth && GridSize <= c.1 <= ScreenHeight
    ensures OnGrid(c) <==> rx < GridWidth && ry < GridHeight
  {
    (rx * GridSize, ry * GridSize)
  }

  /** Every cell the snake can reach, except those in the left column or top row, is some draw's position. */
  lemma RandomizeReaches(c: Cell)
    requires OnGrid(c) && c.0 != 0 && c.1 != 0
    ensures ValidDraws(c.0 / GridSize, c.1 / GridSize)
    ensures RandomizePosition(c.0 / GridSize, c.1 / GridSize) == c
  {
  }

  class Apple {
    var position: Cell

    constructor (rx: int, ry: int)
      requires ValidDraws(rx, ry)
      ensures position == RandomizePosition(rx, ry)
    {
      position := RandomizePosition(rx, ry);
    }
  }
}
