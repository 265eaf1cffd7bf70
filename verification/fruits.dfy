/** The fruit and the quiz question of game.py. The random numbers the
    source draws with `random.randint` are supplied by the caller, each
    within the range the source draws it from. */
module Fruits {
  import opened Grid
  import Text

  /** Range of the quiz operands (get_random_number). */
  const MIN_OPERAND: int := 1
  const MAX_OPERAND: int := 10

  /** Range the wrong answer is drawn from. */
  const MIN_WRONG: int := 2
  const MAX_WRONG: int := 20

  class Fruit {
    var pos: Vec
    const answer: int

    /** FRUIT(answer): a first random cell, immediately replaced by randomize. */
    constructor (answer: int, first: Vec, second: Vec)
      requires InGrid(first) && InGrid(second)
      ensures this.answer == answer && pos == second
    {
      this.answer := answer;
      pos := first;
      new;
      Randomize(second);
    }

    /** randomize: move to the drawn cell, which lies on the board. */
    method Randomize(draw: Vec)
      requires InGrid(draw)
      modifies this
      ensures pos == draw && InGrid(pos)
    {
      pos := draw;
    }
  }

  /** The question text "a + b = ?"; both operands read back from it. */
  function QuestionText(a: nat, b: nat): (t: string)
    ensures var n := |Text.Decimal(a)|;
      |t| == n + 3 + |Text.Decimal(b)| + 4 && t[n..n + 3] == " + " && t[|t| - 4..] == " = ?"
      && Text.AllDigits(t[..n]) && Text.Value(t[..n]) == a
      && Text.AllDigits(t[n + 3..|t| - 4]) && Text.Value(t[n + 3..|t| - 4]) == b
  {
    var da, db := Text.Decimal(a), Text.Decimal(b);
    Text.DecimalValue(a);
    Text.DecimalValue(b);
    var t := da + " + " + db + " = ?";
    assert t[..|da|] == da && t[|da| + 3..|t| - 4] == db;
    t
  }

  predicate IsOperand(n: int) {
    MIN_OPERAND <= n <= MAX_OPERAND
  }

  class Question {
    var a: int
    var b: int
    var text: string
    var answer: int

    constructor (a: int, b: int)
      requires IsOperand(a) && IsOperand(b)
      ensures this.a == a && this.b == b && answer == a + b
      ensures text == QuestionText(a, b)
      ensures 2 <= answer <= 20
    {
      new;
      NewQuestion(a, b);
    }

    /** new_question: two operands in [1, 10]; the correct answer is their
        sum and so lies in [2, 20]. */
    method NewQuestion(a: int, b: int)
      requires IsOperand(a) && IsOperand(b)
      modifies this
      ensures this.a == a && this.b == b
      ensures text == QuestionText(a, b)
      ensures answer == a + b && 2 * MIN_OPERAND <= answer <= 2 * MAX_OPERAND
    {
      this.a := a;
      this.b := b;
      text := QuestionText(a, b);
      answer := a + b;
    }
  }

  /** The resampling loop of MAIN.__init__: starting from the correct answer,
      draw until the draw differs from it. `draws` is the sequence of values
      randint(2, 20) returns; the loop stops at the first one that differs. */
  method PickWrongAnswer(answer: int, draws: seq<int>) returns (wrong: int, taken: nat)
    requires forall i :: 0 <= i < |draws| ==> MIN_WRONG <= draws[i] <= MAX_WRONG
    requires exists i :: 0 <= i < |draws| && draws[i] != answer
    ensures 1 <= taken <= |draws| && wrong == draws[taken - 1]
    ensures wrong != answer && MIN_WRONG <= wrong <= MAX_WRONG
    ensures forall i :: 0 <= i < taken - 1 ==> draws[i] == answer
  {
    wrong := answer;
    taken := 0;
    while wrong == answer
      invariant 0 <= taken <= |draws|
      invariant taken == 0 ==> wrong == answer
      invariant taken > 0 ==> wrong == draws[taken - 1]
      invariant forall i :: 0 <= i < taken - 1 ==> draws[i] == answer
      decreases |draws| - taken
    {
      wrong := draws[taken];
      taken := taken + 1;
    }
  }
}
