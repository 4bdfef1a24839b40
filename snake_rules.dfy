// Grid geometry and steering rules of the snake game: the pure parts of
// the game component (cells, headings, one-cell moves, the collision test
// and the rules that accept or reject a heading request).
module SnakeRules {

  /** Cells per side of the square board. */
  const GridSize: int := 20

  /** Points awarded for eating one piece of food. */
  const Reward: int := 10

  /** Smallest swipe travel, in pixels, that counts as a gesture. */
  const MinSwipeDistance: int := 30

  datatype Cell = Cell(x: int, y: int)

  datatype Direction = Up | Down | Left | Right

  datatype Option<T> = None | Some(value: T)

  predicate InGrid(c: Cell) {
    0 <= c.x < GridSize && 0 <= c.y < GridSize
  }

  function Abs(n: int): (r: int)
    ensures r >= 0 && (r == n || r == -n)
  {
    if n < 0 then -n else n
  }

  /** Manhattan distance between two cells. */
  function Distance(a: Cell, b: Cell): nat {
    Abs(a.x - b.x) + Abs(a.y - b.y)
  }

  /** Two cells share an edge. */
  predicate Adjacent(a: Cell, b: Cell) {
    Distance(a, b) == 1
  }

  /** The heading that exactly reverses `d`. */
  function Opposite(d: Direction): (r: Direction)
    ensures r != d
    ensures (r == Up || r == Down) <==> (d == Up || d == Down)
  {
    match d
    case Up => Down
    case Down => Up
    case Left => Right
    case Right => Left
  }

  /** Reversing twice gives back the original heading. */
  lemma OppositeInvolutive(d: Direction)
    ensures Opposite(Opposite(d)) == d
  {
  }

  /** The cell one step from `c` towards `d`; screen coordinates, so Up decreases y. */
  function Step(c: Cell, d: Direction): (r: Cell)
    ensures Adjacent(c, r)
    ensures (d == Up || d == Down) <==> r.x == c.x
    ensures (d == Left || d == Right) <==> r.y == c.y
    ensures r.x < c.x <==> d == Left
    ensures r.y < c.y <==> d == Up
  {
    match d
    case Up => Cell(c.x, c.y - 1)
    case Down => Cell(c.x, c.y + 1)
    case Left => Cell(c.x - 1, c.y)
    case Right => Cell(c.x + 1, c.y)
  }

  /** Stepping back the opposite way undoes a step. */
  lemma StepBack(c: Cell, d: Direction)
    ensures Step(Step(c, d), Opposite(d)) == c
  {
    match d
    case Up =>
    case Down =>
    case Left =>
    case Right =>
  }

  /**
   * The segment test of the tick: does some segment of `body` sit on `c`?
   * Walks the body front to back, like `Array.prototype.some`.
   */
  function Hits(body: seq<Cell>, c: Cell): (r: bool)
    ensures r <==> c in body
  {
    if body == [] then false
    else if body[0] == c then true
    else
      assert body == [body[0]] + body[1..];
      Hits(body[1..], c)
  }

  /**
   * The shared guard of every heading request: a request that exactly
   * reverses the current heading is dropped, any other one is taken.
   */
  function Turn(current: Direction, requested: Direction): (r: Direction)
    ensures r == current || r == requested
    ensures r == requested <==> requested != Opposite(current)
  {
    if requested == Opposite(current) then current else requested
  }

  /** The heading a key asks for, if the key is one of the game's controls. */
  function KeyDirection(key: string): (r: Option<Direction>)
    ensures r == Some(Up) <==> key in {"ArrowUp", "w", "W"}
    ensures r == Some(Down) <==> key in {"ArrowDown", "s", "S"}
    ensures r == Some(Left) <==> key in {"ArrowLeft", "a", "A"}
    ensures r == Some(Right) <==> key in {"ArrowRight", "d", "D"}
  {
    if key == "ArrowUp" || key == "w" || key == "W" then Some(Up)
    else if key == "ArrowDown" || key == "s" || key == "S" then Some(Down)
    else if key == "ArrowLeft" || key == "a" || key == "A" then Some(Left)
    else if key == "ArrowRight" || key == "d" || key == "D" then Some(Right)
    else None
  }

  /**
   * The keyboard handler: each control key carries its own reversal guard,
   * and together they are the shared guard applied to the key's heading.
   */
  function KeyTurn(current: Direction, key: string): (r: Direction)
    ensures KeyDirection(key) == None ==> r == current
    ensures KeyDirection(key).Some? ==> r == Turn(current, KeyDirection(key).value)
  {
    if key == "ArrowUp" || key == "w" || key == "W" then
      (if current != Down then Up else current)
    else if key == "ArrowDown" || key == "s" || key == "S" then
      (if current != Up then Down else current)
    else if key == "ArrowLeft" || key == "a" || key == "A" then
      (if current != Right then Left else current)
    else if key == "ArrowRight" || key == "d" || key == "D" then
      (if current != Left then Right else current)
    else current
  }

  /**
   * The heading a swipe by (dx, dy) asks for: the axis with the larger
   * travel wins (ties go to the vertical axis), and the travel on it must
   * exceed the minimum swipe distance.
   */
  function SwipeDirection(dx: int, dy: int): (r: Option<Direction>)
    ensures r.Some? && (r.value == Left || r.value == Right) ==>
              Abs(dx) > Abs(dy) && Abs(dx) > MinSwipeDistance
    ensures r.Some? && (r.value == Up || r.value == Down) ==>
              Abs(dx) <= Abs(dy) && Abs(dy) > MinSwipeDistance
    ensures r == None <==> Abs(dx) <= MinSwipeDistance && Abs(dy) <= MinSwipeDistance
    ensures r == Some(Right) ==> dx > 0
    ensures r == Some(Left) ==> dx < 0
    ensures r == Some(Down) ==> dy > 0
    ensures r == Some(Up) ==> dy < 0
  {
    if Abs(dx) > Abs(dy) then
      if Abs(dx) > MinSwipeDistance then (if dx > 0 then Some(Right) else Some(Left))
      else None
    else
      if Abs(dy) > MinSwipeDistance then (if dy > 0 then Some(Down) else Some(Up))
      else None
  }

  /**
   * The swipe handler, branch for branch; it is the shared guard applied
   * to the swipe's heading.
   */
  function SwipeTurn(current: Direction, dx: int, dy: int): (r: Direction)
    ensures SwipeDirection(dx, dy) == None ==> r == current
    ensures SwipeDirection(dx, dy).Some? ==> r == Turn(current, SwipeDirection(dx, dy).value)
  {
    if Abs(dx) > Abs(dy) then
      if Abs(dx) > MinSwipeDistance then
        if dx > 0 && current != Left then Right
        else if dx < 0 && current != Right then Left
        else current
      else current
    else
      if Abs(dy) > MinSwipeDistance then
        if dy > 0 && current != Up then Down
        else if dy < 0 && current != Down then Up
        else current
      else current
  }
}
