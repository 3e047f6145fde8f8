/** Turning the events of one tick into the snake's pending direction. */
module Input {
  import opened Wrappers
  import opened Board
  import opened Snakes

  datatype Key = ArrowUp | ArrowDown | ArrowLeft | ArrowRight | OtherKey

  /** An event from the queue: a request to quit, a key press, or anything else. */
  datatype Event = QuitEvent | KeyPress(key: Key) | OtherEvent

  /** The direction an arrow key asks for. */
  function Intended(k: Key): (d: Option<Vector>)
    ensures d.Some? <==> k != OtherKey
    ensures d.Some? ==> IsDirection(d.value)
  {
    match k
    case ArrowUp => Some(Up)
    case ArrowDown => Some(Down)
    case ArrowLeft => Some(Left)
    case ArrowRight => Some(Right)
    case OtherKey => None
  }

  /**
   * The branch chain for one key press: the direction it sets as pending, or
   * None when the key is not an arrow or asks to turn straight back.
   */
  function KeyAccept(k: Key, direction: Vector): (r: Option<Vector>)
    ensures r == if Intended(k).Some? && Intended(k).value != Reverse(direction) then Intended(k) else None
  {
    if k == ArrowUp && direction != Down then Some(Up)
    else if k == ArrowDown && direction != Up then Some(Down)
    else if k == ArrowLeft && direction != Right then Some(Left)
    else if k == ArrowRight && direction != Left then Some(Right)
    else None
  }

  /** What handling a tick's events leaves behind: the pending direction, and whether a quit was seen. */
  datatype Resolution = Resolution(next: Option<Vector>, quit: bool)

  /**
   * The events handled in order against a fixed `direction`, starting from the
   * pending direction `pending`; handling stops at the first quit request.
   */
  function ResolveEvents(direction: Vector, pending: Option<Vector>, events: seq<Event>): (r: Resolution)
    ensures r.quit <==> QuitEvent in events
    ensures r.next == pending ||
      exists i :: 0 <= i < |events| && QuitEvent !in events[..i] &&
        events[i].KeyPress? && KeyAccept(events[i].key, direction) == r.next
    ensures r.next != pending ==>
      r.next.Some? && IsDirection(r.next.value) && r.next.value != Reverse(direction)
    decreases |events|
  {
    if events == [] then Resolution(pending, false)
    else
      match events[0]
      case QuitEvent => Resolution(pending, true)
      case KeyPress(k) =>
        var accepted := KeyAccept(k, direction);
        ResolveEvents(direction, if accepted.Some? then accepted else pending, events[1..])
      case OtherEvent => ResolveEvents(direction, pending, events[1..])
  }

  /**
   * The last accepted key press before any quit decides the pending direction:
   * presses after it that are rejected change nothing.
   */
  lemma {:induction false} LastAcceptedKeyWins(
    direction: Vector, pending: Option<Vector>, before: seq<Event>, k: Key, after: seq<Event>)
    requires QuitEvent !in before
    requires KeyAccept(k, direction).Some?
    requires forall i :: 0 <= i < |after| && after[i].KeyPress? ==> KeyAccept(after[i].key, direction).None?
    ensures ResolveEvents(direction, pending, before + [KeyPress(k)] + after).next == KeyAccept(k, direction)
    decreases |before|
  {
    if before == [] {
      assert before + [KeyPress(k)] + after == [KeyPress(k)] + after;
      assert ([KeyPress(k)] + after)[1..] == after;
    } else {
      var events := before + [KeyPress(k)] + after;
      assert events[0] == before[0];
      assert events[1..] == before[1..] + [KeyPress(k)] + after;
      match before[0]
      case KeyPress(k0) =>
        var accepted := KeyAccept(k0, direction);
        LastAcceptedKeyWins(direction, if accepted.Some? then accepted else pending, before[1..], k, after);
      case OtherEvent =>
        LastAcceptedKeyWins(direction, pending, before[1..], k, after);
    }
  }

  /**
   * `handle_keys`: each key press that is accepted against the committed
   * direction overwrites the pending direction; a quit request ends handling.
   */
  method HandleKeys(snake: Snake, events: seq<Event>) returns (quit: bool)
    modifies snake`nextDirection
    ensures snake.direction == old(snake.direction)
    ensures Resolution(snake.nextDirection, quit) == ResolveEvents(snake.direction, old(snake.nextDirection), events)
  {
    var i := 0;
    while i < |events|
      invariant 0 <= i <= |events|
      invariant ResolveEvents(snake.direction, snake.nextDirection, events[i..])
        == ResolveEvents(snake.direction, old(snake.nextDirection), events)
    {
      match events[i] {
        case QuitEvent =>
          return true;
        case KeyPress(k) =>
          if k == ArrowUp && snake.direction != Down {
            snake.nextDirection := Some(Up);
          } else if k == ArrowDown && snake.direction != Up {
            snake.nextDirection := Some(Down);
          } else if k == ArrowLeft && snake.direction != Right {
            snake.nextDirection := Some(Left);
          } else if k == ArrowRight && snake.direction != Left {
            snake.nextDirection := Some(Right);
          }
        case OtherEvent =>
      }
      i := i + 1;
    }
    return false;
  }
}
