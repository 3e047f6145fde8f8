/**
 * The snake: its state as a value, the state changes of its methods as
 * functions over that value, and the class whose methods perform them in place.
 */
module Snakes {
  import opened Wrappers
  import opened Board

  /**
   * The fields of a snake object. `position` is the field inherited from the
   * game-object base, `positions` the body from head (index 0) to tail,
   * `length` the number of segments the body is allowed, `last` the cell the
   * most recent move vacated (None when the body grew instead).
   */
  datatype SnakeState = SnakeState(
    position: Cell,
    positions: seq<Cell>,
    direction: Vector,
    nextDirection: Option<Vector>,
    length: int,
    last: Option<Cell>)

  /** What holds of a snake between any two of its operations. */
  predicate Inv(s: SnakeState) {
    s.position == Center &&
    s.positions != [] &&
    (forall i :: 0 <= i < |s.positions| ==> OnGrid(s.positions[i])) &&
    IsDirection(s.direction) &&
    (s.nextDirection.Some? ==> IsDirection(s.nextDirection.value)) &&
    (s.last.Some? ==> OnGrid(s.last.value))
  }

  /** What holds at the start and end of every tick: the body has its full length and nothing is pending. */
  predicate AtRest(s: SnakeState) {
    Inv(s) && |s.positions| == s.length && s.nextDirection == None
  }

  function Head(s: SnakeState): Cell
    requires s.positions != []
  {
    s.positions[0]
  }

  /** A freshly built snake. */
  function Initial(): (s: SnakeState)
    ensures AtRest(s)
    ensures Head(s) == Center && s.length == 1 && s.direction == Right && s.last == None
  {
    SnakeState(Center, [Center], Right, None, 1, None)
  }

  /**
   * The effect of `move`: the new head is pushed in front of the body and,
   * when the body is then longer than `length`, the tail is popped into `last`.
   */
  function Moved(s: SnakeState): (r: SnakeState)
    requires s.positions != []
    ensures r.positions != [] && Head(r) == Step(Head(s), s.direction)
    ensures r.last.Some? <==> |s.positions| + 1 > s.length
    ensures r.last.Some? ==> r.positions + [r.last.value] == [Head(r)] + s.positions
    ensures r.last.None? ==> r.positions == [Head(r)] + s.positions
    ensures |s.positions| == s.length ==> |r.positions| == r.length
    ensures |s.positions| + 1 == s.length ==> |r.positions| == |s.positions| + 1 && |r.positions| == r.length
    ensures r.(positions := s.positions, last := s.last) == s
    ensures Inv(s) ==> Inv(r)
  {
    var grown := [Step(Head(s), s.direction)] + s.positions;
    if |grown| > s.length then
      s.(positions := grown[..|grown| - 1], last := Some(grown[|grown| - 1]))
    else
      s.(positions := grown, last := None)
  }

  /** The effect of `update_direction`: a pending direction becomes the direction. */
  function DirectionUpdated(s: SnakeState): (r: SnakeState)
    ensures r.nextDirection == None
    ensures s.nextDirection.Some? ==> r.direction == s.nextDirection.value
    ensures s.nextDirection.None? ==> r == s
    ensures r.(direction := s.direction, nextDirection := s.nextDirection) == s
    ensures Inv(s) ==> Inv(r)
  {
    if s.nextDirection.Some? then
      s.(direction := s.nextDirection.value, nextDirection := None)
    else
      s
  }

  /** The effect of `reset`: the body, direction and length start over; `nextDirection` and `last` stay. */
  function AfterReset(s: SnakeState): (r: SnakeState)
    ensures r.positions == [s.position] && r.direction == Right && r.length == 1
    ensures r.(positions := s.positions, direction := s.direction, length := s.length) == s
    ensures Inv(s) ==> Inv(r) && r.positions == [Center] && |r.positions| == r.length
  {
    s.(positions := [s.position], direction := Right, length := 1)
  }

  /** The tick's collision test: the head occurs among the segments from index 2 on. */
  function SelfCollision(s: SnakeState): (b: bool)
    requires s.positions != []
    ensures b <==> exists i :: 2 <= i < |s.positions| && s.positions[i] == Head(s)
  {
    |s.positions| > 2 && Head(s) in s.positions[2..]
  }

  class Snake {
    var position: Cell
    var positions: seq<Cell>
    var direction: Vector
    var nextDirection: Option<Vector>
    var length: int
    var last: Option<Cell>

    function State(): SnakeState
      reads this
    {
      SnakeState(position, positions, direction, nextDirection, length, last)
    }

    /** A new snake: its base `position` is always the centre, and its body is that one cell. */
    constructor ()
      ensures State() == Initial()
    {
      var start := Center;
      position := start;
      direction := Right;
      nextDirection := None;
      positions := [start];
      length := 1;
      last := None;
    }

    method Move()
      requires positions != []
      modifies this
      ensures State() == Moved(old(State()))
    {
      var (headX, headY) := positions[0];
      var (deltaX, deltaY) := direction;
      var newHead := ((headX + deltaX * GridSize) % ScreenWidth, (headY + deltaY * GridSize) % ScreenHeight);
      positions := [newHead] + positions;
      if |positions| > length {
        last := Some(positions[|positions| - 1]);
        positions := positions[..|positions| - 1];
      } else {
        last := None;
      }
    }

    method UpdateDirection()
      modifies this
      ensures State() == DirectionUpdated(old(State()))
    {
      if nextDirection.Some? {
        direction := nextDirection.value;
        nextDirection := None;
      }
    }

    function GetHeadPosition(): (c: Cell)
      reads this
      requires positions != []
      ensures c == Head(State())
      ensures Inv(State()) ==> OnGrid(c)
    {
      positions[0]
    }

    method Reset()
      modifies this
      ensures State() == AfterReset(old(State()))
    {
      positions := [position];
      direction := Right;
      length := 1;
    }
  }
}
