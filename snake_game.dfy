// The snake game's state machine: the pure meaning of a tick and of a
// restart, the invariants every reachable state keeps, and the game object
// whose fields the tick, the steering handlers and the restart overwrite.
module SnakeGame {
  import opened SnakeRules

  /** Everything the game remembers between ticks. */
  datatype State = State(
    snake: seq<Cell>,      // head first
    food: Cell,
    direction: Direction,  // the last accepted heading
    over: bool,
    score: int)

  /** The single segment every game starts from: the middle of the board. */
  const StartCell: Cell := Cell(10, 10)

  /** No cell appears twice in `body`. */
  predicate Distinct(body: seq<Cell>) {
    forall i, j :: 0 <= i < j < |body| ==> body[i] != body[j]
  }

  /** Each segment shares an edge with the one before it. */
  predicate Connected(body: seq<Cell>) {
    forall i :: 1 <= i < |body| ==> Adjacent(body[i - 1], body[i])
  }

  predicate AllInGrid(body: seq<Cell>) {
    forall i :: 0 <= i < |body| ==> InGrid(body[i])
  }

  /**
   * The invariant of every reachable state: a non-empty, self-avoiding,
   * connected snake inside the board, food on the board, and a score that
   * counts ten points for every segment grown since the start.
   */
  predicate Invariant(s: State) {
    |s.snake| >= 1 &&
    AllInGrid(s.snake) &&
    Distinct(s.snake) &&
    Connected(s.snake) &&
    InGrid(s.food) &&
    s.score == Reward * (|s.snake| - 1)
  }

  /** The state a new or restarted game begins in; `drawn` is the random food cell. */
  function Initial(drawn: Cell): (r: State)
    requires InGrid(drawn)
    ensures Invariant(r)
    ensures r.snake == [StartCell] && r.direction == Right
    ensures !r.over && r.score == 0 && r.food == drawn
  {
    State([StartCell], drawn, Right, false, 0)
  }

  /** The cell the head moves to on the next tick: always a neighbour of the head. */
  function NextHead(s: State): (r: Cell)
    requires s.snake != []
    ensures Adjacent(s.snake[0], r)
  {
    Step(s.snake[0], s.direction)
  }

  /**
   * One tick of the game. `drawn` is the cell the random draw would give
   * for new food; it is only used when the head lands on the food.
   */
  function Next(s: State, drawn: Cell): (r: State)
    requires s.snake != []
    ensures r.snake != []
    ensures r.direction == s.direction
  {
    if s.over then s
    else
      var head := NextHead(s);
      if !InGrid(head) then s.(over := true)
      else if Hits(s.snake, head) then s.(over := true)
      else
        var grown := [head] + s.snake;
        if head == s.food then
          s.(snake := grown, score := s.score + Reward, food := drawn)
        else
          s.(snake := grown[..|grown| - 1])
  }

  /** A finished game stays exactly as it is, however often the timer fires. */
  lemma NextWhenOver(s: State, drawn: Cell)
    requires s.snake != [] && s.over
    ensures Next(s, drawn) == s
  {
  }

  /** A head that would leave the board ends the game and moves nothing. */
  lemma NextOffBoard(s: State, drawn: Cell)
    requires s.snake != [] && !s.over
    requires !InGrid(NextHead(s))
    ensures Next(s, drawn) == s.(over := true)
  {
  }

  /**
   * A head that would land on any segment, the tail included, ends the
   * game and moves nothing.
   */
  lemma NextSelfCollision(s: State, drawn: Cell, k: nat)
    requires s.snake != [] && !s.over
    requires InGrid(NextHead(s))
    requires k < |s.snake| && s.snake[k] == NextHead(s)
    ensures Next(s, drawn) == s.(over := true)
  {
  }

  /**
   * A legal move onto an empty cell: the head advances, the tail cell is
   * freed, and length, score and food stay the same.
   */
  lemma NextMove(s: State, drawn: Cell)
    requires s.snake != [] && !s.over
    requires InGrid(NextHead(s)) && NextHead(s) !in s.snake
    requires NextHead(s) != s.food
    ensures Next(s, drawn).snake == [NextHead(s)] + s.snake[..|s.snake| - 1]
    ensures |Next(s, drawn).snake| == |s.snake|
    ensures Next(s, drawn).score == s.score && Next(s, drawn).food == s.food
    ensures !Next(s, drawn).over
  {
    var grown := [NextHead(s)] + s.snake;
    assert grown[..|grown| - 1] == [NextHead(s)] + s.snake[..|s.snake| - 1];
  }

  /**
   * A legal move onto the food: the snake grows by the new head, the score
   * rises by exactly the reward and the food moves to the drawn cell.
   */
  lemma NextEat(s: State, drawn: Cell)
    requires s.snake != [] && !s.over
    requires InGrid(NextHead(s)) && NextHead(s) !in s.snake
    requires NextHead(s) == s.food
    ensures Next(s, drawn).snake == [NextHead(s)] + s.snake
    ensures |Next(s, drawn).snake| == |s.snake| + 1
    ensures Next(s, drawn).score == s.score + Reward
    ensures Next(s, drawn).food == drawn
    ensures !Next(s, drawn).over
  {
  }

  /** The game ends on a tick exactly when the head would leave the board or hit the body. */
  lemma NextEndsGame(s: State, drawn: Cell)
    requires s.snake != [] && !s.over
    ensures Next(s, drawn).over <==> !InGrid(NextHead(s)) || NextHead(s) in s.snake
    ensures Next(s, drawn).over ==> Next(s, drawn).snake == s.snake
  {
  }

  /**
   * Even the tail cell, which a move would free this very tick, blocks the
   * head: steering a snake of two or more segments onto its own tail ends
   * the game.
   */
  lemma NextIntoTail(s: State, drawn: Cell)
    requires |s.snake| >= 2 && !s.over
    requires NextHead(s) == s.snake[|s.snake| - 1] && InGrid(NextHead(s))
    ensures Next(s, drawn).over && Next(s, drawn).snake == s.snake
  {
    NextSelfCollision(s, drawn, |s.snake| - 1);
  }

  /**
   * While the heading is the one the last tick moved by, the second segment
   * sits behind the head, and the only heading that leads onto it is the
   * one the reversal guard refuses.
   */
  lemma NeckWhenHeadingIsLastMove(s: State, requested: Direction)
    requires |s.snake| >= 2
    requires s.snake[0] == Step(s.snake[1], s.direction)
    ensures Step(s.snake[0], requested) == s.snake[1] <==> requested == Opposite(s.direction)
  {
    StepBack(s.snake[1], s.direction);
  }

  lemma PrependDistinct(c: Cell, body: seq<Cell>)
    requires Distinct(body) && c !in body
    ensures Distinct([c] + body)
  {
    var b := [c] + body;
    forall i, j | 0 <= i < j < |b| ensures b[i] != b[j] {
      if i == 0 {
        assert b[j] == body[j - 1];
      }
    }
  }

  lemma PrependConnected(c: Cell, body: seq<Cell>)
    requires Connected(body) && body != [] && Adjacent(c, body[0])
    ensures Connected([c] + body)
  {
    var b := [c] + body;
    forall i | 1 <= i < |b| ensures Adjacent(b[i - 1], b[i]) {
      if i > 1 {
        assert b[i - 1] == body[i - 2] && b[i] == body[i - 1];
      }
    }
  }

  /**
   * Every tick keeps the invariant: the snake stays non-empty, on the board,
   * self-avoiding and connected, and the score stays a non-negative multiple
   * of the reward that matches the snake's growth.
   */
  lemma {:induction false} NextPreservesInvariant(s: State, drawn: Cell)
    requires Invariant(s) && InGrid(drawn)
    ensures Invariant(Next(s, drawn))
    ensures Next(s, drawn).score >= 0 && Next(s, drawn).score % Reward == 0
  {
    var r := Next(s, drawn);
    if !s.over {
      var head := NextHead(s);
      if InGrid(head) && head !in s.snake {
        var grown := [head] + s.snake;
        PrependDistinct(head, s.snake);
        PrependConnected(head, s.snake);
        if head == s.food {
          assert r.snake == grown;
        } else {
          var kept := grown[..|grown| - 1];
          assert r.snake == kept;
          forall i, j | 0 <= i < j < |kept| ensures kept[i] != kept[j] {
            assert kept[i] == grown[i] && kept[j] == grown[j];
          }
          forall i | 1 <= i < |kept| ensures Adjacent(kept[i - 1], kept[i]) {
            assert kept[i - 1] == grown[i - 1] && kept[i] == grown[i];
          }
        }
      }
    }
  }

  /** The game component: the five pieces of state its handlers overwrite. */
  class Game {
    var snake: seq<Cell>
    var food: Cell
    var direction: Direction
    var over: bool
    var score: int

    /** The game's fields as one value. */
    ghost function Model(): State
      reads this
    {
      State(snake, food, direction, over, score)
    }

    ghost predicate Valid()
      reads this
    {
      Invariant(Model())
    }

    /** A new game; `drawn` is the first random food cell. */
    constructor (drawn: Cell)
      requires InGrid(drawn)
      ensures Valid() && Model() == Initial(drawn)
    {
      snake := [StartCell];
      food := drawn;
      direction := Right;
      over := false;
      score := 0;
    }

    /** The timer callback: advance the game by one cell. */
    method Tick(drawn: Cell)
      requires Valid() && InGrid(drawn)
      modifies this
      ensures Valid()
      ensures Model() == Next(old(Model()), drawn)
    {
      NextPreservesInvariant(Model(), drawn);
      if over {
        return;
      }
      var head := Step(snake[0], direction);
      if !InGrid(head) {
        over := true;
        return;
      }
      if Hits(snake, head) {
        over := true;
        return;
      }
      var grown := [head] + snake;
      if head == food {
        score := score + Reward;
        food := drawn;
      } else {
        grown := grown[..|grown| - 1];
      }
      snake := grown;
    }

    /**
     * A heading request: taken unless it exactly reverses the current
     * heading. The length of the snake and whether the game is over play
     * no part.
     */
    method SetHeading(requested: Direction)
      modifies this`direction
      ensures direction == Turn(old(direction), requested)
      ensures requested == Opposite(old(direction)) ==> direction == old(direction)
      ensures requested != Opposite(old(direction)) ==> direction == requested
    {
      if requested != Opposite(direction) {
        direction := requested;
      }
    }

    /** The keyboard handler. */
    method OnKey(key: string)
      modifies this`direction
      ensures KeyDirection(key) == None ==> direction == old(direction)
      ensures KeyDirection(key).Some? ==> direction == Turn(old(direction), KeyDirection(key).value)
    {
      direction := KeyTurn(direction, key);
    }

    /** The swipe handler, given the finger's travel between touch start and end. */
    method OnSwipe(dx: int, dy: int)
      modifies this`direction
      ensures SwipeDirection(dx, dy) == None ==> direction == old(direction)
      ensures SwipeDirection(dx, dy).Some? ==>
                direction == Turn(old(direction), SwipeDirection(dx, dy).value)
    {
      direction := SwipeTurn(direction, dx, dy);
    }

    /** The restart button; `drawn` is the new random food cell. */
    method Reset(drawn: Cell)
      requires InGrid(drawn)
      modifies this
      ensures Valid() && Model() == Initial(drawn)
    {
      snake := [StartCell];
      food := drawn;
      direction := Right;
      over := false;
      score := 0;
    }
  }
}
