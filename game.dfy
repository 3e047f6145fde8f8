/**
 * One tick of the main loop, and a bounded run of ticks: handle the keys,
 * eat the apple under the head, apply the pending direction, move, and
 * reset the snake when its head lands on its own body.
 */
module Game {
  import opened Wrappers
  import opened Board
  import opened Snakes
  import opened Apples
  import opened Input

  /** The state the main loop owns: the snake and the apple's position. */
  datatype World = World(snake: SnakeState, apple: Cell)

  /** A tick either ends the game on a quit request or leaves a new world. */
  datatype TickResult = Exited | Running(world: World)

  /** The inputs of one tick: the queued events and the two draws used if the apple is eaten. */
  datatype TickInput = TickInput(events: seq<Event>, rx: int, ry: int)

  predicate ValidInputs(inputs: seq<TickInput>) {
    forall i :: 0 <= i < |inputs| ==> ValidDraws(inputs[i].rx, inputs[i].ry)
  }

  /** `eat_apple`: when the head is on the apple the snake may grow by one and the apple is redrawn. */
  function EatStep(w: World, rx: int, ry: int): (r: World)
    requires w.snake.positions != [] && ValidDraws(rx, ry)
    ensures r.snake.length == w.snake.length + 1 <==> Head(w.snake) == w.apple
    ensures Head(w.snake) == w.apple ==> r.apple == RandomizePosition(rx, ry)
    ensures Head(w.snake) != w.apple ==> r == w
    ensures r.snake.(length := w.snake.length) == w.snake
  {
    if Head(w.snake) == w.apple then
      World(w.snake.(length := w.snake.length + 1), RandomizePosition(rx, ry))
    else
      w
  }

  /** The direction the snake moves in once the pending direction, if any, is applied. */
  function Heading(s: SnakeState): Vector {
    if s.nextDirection.Some? then s.nextDirection.value else s.direction
  }

  /** How many of the old segments stay in the body after the move. */
  function Kept(s: SnakeState): int
    requires s.positions != []
  {
    if |s.positions| + 1 > s.length then |s.positions| - 1 else |s.positions|
  }

  /** The cell the move vacates: the old tail, when it is popped. */
  function Vacated(s: SnakeState): Option<Cell>
    requires s.positions != []
  {
    if |s.positions| + 1 > s.length then Some(s.positions[|s.positions| - 1]) else None
  }

  /** The new head `h` lands on one of the first `kept` old segments other than the old head. */
  predicate HitsBody(body: seq<Cell>, kept: int, h: Cell) {
    exists i :: 1 <= i < kept && i < |body| && body[i] == h
  }

  /** The moved snake's body, and its collision test read off the old body. */
  lemma MovedCollision(s: SnakeState)
    requires s.positions != []
    ensures var m := Moved(DirectionUpdated(s));
      var h := Step(Head(s), Heading(s));
      m.positions == [h] + s.positions[..Kept(s)] &&
      (SelfCollision(m) <==> HitsBody(s.positions, Kept(s), h))
  {
    var m := Moved(DirectionUpdated(s));
    var h := Step(Head(s), Heading(s));
    var k := Kept(s);
    if m.last.Some? {
      assert m.positions + [m.last.value] == [h] + s.positions;
      assert m.positions == ([h] + s.positions)[..|s.positions|];
    }
    assert m.positions == [h] + s.positions[..k];
    if SelfCollision(m) {
      var j :| 2 <= j < |m.positions| && m.positions[j] == h;
      assert s.positions[j - 1] == m.positions[j];
    }
    if HitsBody(s.positions, k, h) {
      var i :| 1 <= i < k && i < |s.positions| && s.positions[i] == h;
      assert m.positions[i + 1] == s.positions[i];
    }
  }

  /**
   * The snake's part of a tick after the keys and the apple: turn, move, and
   * reset exactly when the new head lands on the old body beyond the neck.
   */
  function Advance(s: SnakeState): (r: SnakeState)
    requires s.positions != []
    ensures r.positions != [] && !SelfCollision(r)
    ensures var h := Step(Head(s), Heading(s));
      HitsBody(s.positions, Kept(s), h) ==>
        r == s.(positions := [s.position], direction := Right, length := 1,
                nextDirection := None, last := Vacated(s))
    ensures var h := Step(Head(s), Heading(s));
      !HitsBody(s.positions, Kept(s), h) ==>
        r == s.(positions := [h] + s.positions[..Kept(s)], direction := Heading(s),
                nextDirection := None, last := Vacated(s))
    ensures Inv(s) ==> Inv(r)
  {
    MovedCollision(s);
    var moved := Moved(DirectionUpdated(s));
    if SelfCollision(moved) then AfterReset(moved) else moved
  }

  /** The snake was just put back to its starting shape. */
  predicate WasReset(s: SnakeState) {
    s.positions == [Center] && s.length == 1 && s.direction == Right
  }

  /** The body of the main loop, for one tick. */
  function TickStep(w: World, input: TickInput): (r: TickResult)
    requires w.snake.positions != [] && ValidDraws(input.rx, input.ry)
    ensures r.Exited? <==> QuitEvent in input.events
    ensures r.Running? ==> r.world.snake.positions != [] && !SelfCollision(r.world.snake)
    ensures r.Running? && AtRest(w.snake) ==> AtRest(r.world.snake)
    // From rest: the snake heads in the direction the keys resolved to (or keeps
    // its own), and its new head collides exactly when it lands on an old segment
    // beyond the neck that is not popped this tick. A collision resets it;
    // otherwise it moved one step and either grew by one (the head was on the
    // apple when the tick began) or vacated its old tail.
    ensures r.Running? && AtRest(w.snake) ==>
      var keys := ResolveEvents(w.snake.direction, None, input.events);
      var d := if keys.next.Some? then keys.next.value else w.snake.direction;
      var h := Step(Head(w.snake), d);
      var eaten := Head(w.snake) == w.apple;
      var p := w.snake.positions;
      var collides := HitsBody(p, if eaten then |p| else |p| - 1, h);
      var s := r.world.snake;
      (eaten ==> r.world.apple == RandomizePosition(input.rx, input.ry)) &&
      (!eaten ==> r.world.apple == w.apple) &&
      d != Reverse(w.snake.direction) &&
      s.nextDirection == None &&
      (collides ==> WasReset(s) && s.last == (if eaten then None else Some(p[|p| - 1]))) &&
      (!collides ==>
        s.direction == d && Head(s) == h &&
        (eaten ==> s.length == w.snake.length + 1 && s.last == None && s.positions == [h] + p) &&
        (!eaten ==> s.length == w.snake.length && s.last == Some(p[|p| - 1]) &&
                    s.positions + [p[|p| - 1]] == [h] + p))
  {
    var keys := ResolveEvents(w.snake.direction, w.snake.nextDirection, input.events);
    if keys.quit then Exited
    else
      var fed := EatStep(World(w.snake.(nextDirection := keys.next), w.apple), input.rx, input.ry);
      Running(World(Advance(fed.snake), fed.apple))
  }

  /** The main loop over a finite sequence of ticks, stopping at the first quit request. */
  function Run(w: World, inputs: seq<TickInput>): (r: TickResult)
    requires w.snake.positions != [] && ValidInputs(inputs)
    ensures r.Running? ==> r.world.snake.positions != []
    ensures r.Running? && AtRest(w.snake) ==> AtRest(r.world.snake)
    decreases |inputs|
  {
    if inputs == [] then Running(w)
    else
      match TickStep(w, inputs[0])
      case Exited => Exited
      case Running(next) => Run(next, inputs[1..])
  }

  /**
   * An apple that was placed off the reachable cells is never eaten: over any
   * run it stays where it is and the snake never grows.
   */
  lemma {:induction false} OffGridAppleStays(w: World, inputs: seq<TickInput>)
    requires AtRest(w.snake) && !OnGrid(w.apple) && ValidInputs(inputs)
    requires Run(w, inputs).Running?
    ensures Run(w, inputs).world.apple == w.apple
    ensures Run(w, inputs).world.snake.length <= w.snake.length
    decreases |inputs|
  {
    if inputs != [] {
      var next := TickStep(w, inputs[0]).world;
      assert Head(w.snake) != w.apple;
      assert ValidInputs(inputs[1..]) by {
        forall i | 0 <= i < |inputs[1..]| ensures ValidDraws(inputs[1..][i].rx, inputs[1..][i].ry) {
          assert inputs[1..][i] == inputs[i + 1];
        }
      }
      OffGridAppleStays(next, inputs[1..]);
    }
  }

  /** A quiet tick moves a one-segment snake that is off the apple by one step and vacates its old cell. */
  lemma QuietTick(s: SnakeState, apple: Cell, rx: int, ry: int)
    requires |s.positions| == 1 && s.length == 1 && s.nextDirection == None
    requires Head(s) != apple && ValidDraws(rx, ry)
    ensures TickStep(World(s, apple), TickInput([], rx, ry))
      == Running(World(s.(positions := [Step(Head(s), s.direction)], last := Some(Head(s))), apple))
  {
    assert ResolveEvents(s.direction, None, []) == Resolution(None, false);
    assert Kept(s) == 0 && !HitsBody(s.positions, 0, Step(Head(s), s.direction));
  }

  /**
   * With no input and the apple off the path, three ticks carry the new snake
   * three cells to the right, leaving it one segment long.
   */
  lemma ThreeQuietTicks(apple: Cell, rx: int, ry: int)
    requires apple != (320, 240) && apple != (340, 240) && apple != (360, 240)
    requires ValidDraws(rx, ry)
    ensures var quiet := TickInput([], rx, ry);
      Run(World(Initial(), apple), [quiet, quiet, quiet])
        == Running(World(SnakeState(Center, [(380, 240)], Right, None, 1, Some((360, 240))), apple))
  {
    var quiet := TickInput([], rx, ry);
    var w0 := World(Initial(), apple);
    var w1 := World(SnakeState(Center, [(340, 240)], Right, None, 1, Some((320, 240))), apple);
    var w2 := World(SnakeState(Center, [(360, 240)], Right, None, 1, Some((340, 240))), apple);
    var w3 := World(SnakeState(Center, [(380, 240)], Right, None, 1, Some((360, 240))), apple);
    QuietTick(w0.snake, apple, rx, ry);
    QuietTick(w1.snake, apple, rx, ry);
    QuietTick(w2.snake, apple, rx, ry);
    assert Step((320, 240), Right) == (340, 240);
    assert Step((340, 240), Right) == (360, 240);
    assert Step((360, 240), Right) == (380, 240);
    assert [quiet, quiet, quiet][1..] == [quiet, quiet];
    assert [quiet, quiet][1..] == [quiet];
    assert Run(w2, [quiet]) == Run(w3, []) == Running(w3);
    assert Run(w1, [quiet, quiet]) == Run(w2, [quiet]);
  }

  /**
   * An apple one cell ahead: the first tick moves the head onto it without
   * growing; the second finds the head on the apple, so the snake grows to two
   * segments and the apple is redrawn.
   */
  lemma EatThenGrow(rx1: int, ry1: int, rx2: int, ry2: int)
    requires ValidDraws(rx1, ry1) && ValidDraws(rx2, ry2)
    ensures var w1 := TickStep(World(Initial(), (340, 240)), TickInput([], rx1, ry1));
      w1 == Running(World(SnakeState(Center, [(340, 240)], Right, None, 1, Some((320, 240))), (340, 240))) &&
      TickStep(w1.world, TickInput([], rx2, ry2))
        == Running(World(SnakeState(Center, [(360, 240), (340, 240)], Right, None, 2, None), RandomizePosition(rx2, ry2)))
  {
  }

  /** A pending turn straight back is never produced: with the snake going right, a left press is ignored. */
  lemma ReverseKeyIgnored(w: World, rx: int, ry: int)
    requires AtRest(w.snake) && w.snake.direction == Right && ValidDraws(rx, ry)
    ensures TickStep(w, TickInput([KeyPress(ArrowLeft)], rx, ry))
      == TickStep(w, TickInput([], rx, ry))
  {
  }

  /** `eat_apple`, on the two objects. */
  method EatApple(snake: Snake, apple: Apple, rx: int, ry: int)
    requires snake.positions != [] && ValidDraws(rx, ry)
    modifies snake`length, apple`position
    ensures World(snake.State(), apple.position)
      == EatStep(World(old(snake.State()), old(apple.position)), rx, ry)
  {
    if snake.GetHeadPosition() == apple.position {
      snake.length := snake.length + 1;
      apple.position := RandomizePosition(rx, ry);
    }
  }

  /** One pass through the body of the main loop; `quit` reports a quit request. */
  method Tick(snake: Snake, apple: Apple, input: TickInput) returns (quit: bool)
    requires snake.positions != [] && ValidDraws(input.rx, input.ry)
    modifies snake, apple
    ensures var r := TickStep(World(old(snake.State()), old(apple.position)), input);
      if quit then r.Exited? else r == Running(World(snake.State(), apple.position))
    ensures snake.positions != []
  {
    quit := HandleKeys(snake, input.events);
    if quit {
      return;
    }
    EatApple(snake, apple, input.rx, input.ry);
    snake.UpdateDirection();
    snake.Move();
    var head := snake.GetHeadPosition();
    if |snake.positions| > 2 && head in snake.positions[2..] {
      snake.Reset();
    }
  }

  /** The main loop over a finite sequence of tick inputs, until the inputs run out or a quit is requested. */
  method Play(snake: Snake, apple: Apple, inputs: seq<TickInput>) returns (quit: bool)
    requires snake.positions != [] && ValidInputs(inputs)
    modifies snake, apple
    ensures var r := Run(World(old(snake.State()), old(apple.position)), inputs);
      if quit then r.Exited? else r == Running(World(snake.State(), apple.position))
  {
    var i := 0;
    while i < |inputs|
      invariant 0 <= i <= |inputs|
      invariant snake.positions != []
      invariant ValidInputs(inputs[i..])
      invariant Run(World(old(snake.State()), old(apple.position)), inputs)
        == Run(World(snake.State(), apple.position), inputs[i..])
    {
      assert inputs[i..][0] == inputs[i] && inputs[i..][1..] == inputs[i + 1..];
      quit := Tick(snake, apple, inputs[i]);
      if quit {
        return;
      }
      i := i + 1;
    }
    return false;
  }
}
