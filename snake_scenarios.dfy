// Concrete runs of the game that pin down its observable behaviour,
// including the places where it differs from what a player might expect.
module SnakeScenarios {
  import opened SnakeRules
  import opened SnakeGame

  /**
   * From the start position, heading right with food five cells ahead,
   * five ticks eat the food: the head is on the old food cell, the snake
   * has two segments and the score is one reward.
   */
  lemma FiveTicksToFood(drawn: Cell)
    ensures var s0 := Initial(Cell(15, 10));
            var s5 := Next(Next(Next(Next(Next(s0, drawn), drawn), drawn), drawn), drawn);
            s5.snake == [Cell(15, 10), Cell(14, 10)] && s5.score == Reward &&
            s5.food == drawn && !s5.over
  {
    var s0 := Initial(Cell(15, 10));
    NextMove(s0, drawn);
    var s1 := Next(s0, drawn);
    assert s1 == s0.(snake := [Cell(11, 10)]);
    NextMove(s1, drawn);
    var s2 := Next(s1, drawn);
    assert s2 == s0.(snake := [Cell(12, 10)]);
    NextMove(s2, drawn);
    var s3 := Next(s2, drawn);
    assert s3 == s0.(snake := [Cell(13, 10)]);
    NextMove(s3, drawn);
    var s4 := Next(s3, drawn);
    assert s4 == s0.(snake := [Cell(14, 10)]);
    NextEat(s4, drawn);
  }

  /** A one-cell snake on the left edge heading left ends the game where it is. */
  lemma LeftWallEndsGame(food: Cell, drawn: Cell)
    ensures var s := State([Cell(0, 10)], food, Left, false, 0);
            Next(s, drawn) == s.(over := true)
  {
  }

  /** A head turned into the second segment of a closed loop ends the game. */
  lemma LoopCollision(food: Cell, drawn: Cell)
    ensures var s := State([Cell(5, 5), Cell(6, 5), Cell(6, 6), Cell(5, 6)], food, Right, false, 30);
            Next(s, drawn).over && Next(s, drawn).snake == s.snake
  {
  }

  /**
   * The reversal guard compares with the last accepted heading, not with
   * the heading of the last tick, so two turns between ticks reverse the
   * snake into its own neck.
   */
  lemma TwoTurnsReverse(food: Cell, drawn: Cell)
    ensures Turn(Turn(Right, Up), Left) == Left
    ensures var s := State([Cell(10, 10), Cell(9, 10)], food, Turn(Turn(Right, Up), Left), false, 10);
            Next(s, drawn).over
  {
  }

  /**
   * A one-cell snake cannot reverse either: after a request for the
   * opposite heading, the next tick still moves it the old way.
   */
  lemma ReverseDroppedForOneCell(c: Cell, d: Direction, food: Cell, drawn: Cell)
    requires InGrid(c) && InGrid(Step(c, d)) && food != Step(c, d)
    ensures var s := State([c], food, Turn(d, Opposite(d)), false, 0);
            Next(s, drawn).snake == [Step(c, d)] && !Next(s, drawn).over
  {
    var s := State([c], food, Turn(d, Opposite(d)), false, 0);
    assert s.direction == d;
    NextMove(s, drawn);
  }

  /** New food is not kept off the snake: the drawn cell is used even if a segment sits on it. */
  lemma FoodMayLandOnSnake()
    ensures var s := State([Cell(10, 10), Cell(9, 10)], Cell(11, 10), Right, false, 10);
            var r := Next(s, Cell(9, 10));
            r.food == Cell(9, 10) && r.food in r.snake && Invariant(r)
  {
    var s := State([Cell(10, 10), Cell(9, 10)], Cell(11, 10), Right, false, 10);
    assert Distinct(s.snake) by {
      assert s.snake[0] != s.snake[1];
    }
    assert Connected(s.snake) by {
      assert Adjacent(s.snake[0], s.snake[1]);
    }
    NextEat(s, Cell(9, 10));
    NextPreservesInvariant(s, Cell(9, 10));
  }
}
