/** MAIN of game.py: one snake, the quiz question and two fruits, with the
    per-tick update (move, collision check, failure check) and the
    direction rule applied to arrow-key presses. */
module Game {
  import opened Grid
  import opened SnakeBody
  import opened Fruits

  datatype Key = KeyUp | KeyRight | KeyDown | KeyLeft

  /** The direction each arrow key asks for. */
  function KeyVec(key: Key): (v: Vec)
    ensures IsUnit(v)
  {
    match key
    case KeyUp => UP
    case KeyRight => RIGHT
    case KeyDown => DOWN
    case KeyLeft => LEFT
  }

  /** The key handler of the main loop: each key is refused while the snake
      heads along the matching axis the other way (tested on one component
      of the current direction). */
  function Steer(key: Key, dir: Vec): (r: Vec)
    ensures r == dir || r == KeyVec(key)
  {
    match key
    case KeyUp => if dir.y != 1 then Vec(0, -1) else dir
    case KeyRight => if dir.x != -1 then Vec(1, 0) else dir
    case KeyDown => if dir.y != -1 then Vec(0, 1) else dir
    case KeyLeft => if dir.x != 1 then Vec(-1, 0) else dir
  }

  /** Whatever the current direction, a key press never sets its exact reverse. */
  lemma SteerNeverReverses(key: Key, dir: Vec)
    ensures Steer(key, dir) != dir ==> Steer(key, dir) != dir.Neg()
  {
    match key
    case KeyUp => assert Steer(key, dir) != dir ==> dir.y != 1;
    case KeyRight => assert Steer(key, dir) != dir ==> dir.x != -1;
    case KeyDown => assert Steer(key, dir) != dir ==> dir.y != -1;
    case KeyLeft => assert Steer(key, dir) != dir ==> dir.x != 1;
  }

  /** For every direction the snake can hold, a key press takes effect
      exactly when it does not ask for the reverse of the current direction. */
  lemma SteerNoReversal(key: Key, dir: Vec)
    requires IsDirection(dir)
    ensures Steer(key, dir) == KeyVec(key) <==> KeyVec(key) != dir.Neg()
    ensures Steer(key, dir) != KeyVec(key) ==> Steer(key, dir) == dir
  {
    if dir == ZERO {
      assert dir.Neg() == ZERO;
    } else if dir == UP {
      assert dir.Neg() == DOWN;
    } else if dir == DOWN {
      assert dir.Neg() == UP;
    } else if dir == LEFT {
      assert dir.Neg() == RIGHT;
    } else {
      assert dir.Neg() == LEFT;
    }
  }

  /** The loop over `body[1:]` in check_collision, after its first `k`
      blocks: each block found on the fruit sends it to the next drawn cell,
      and later blocks are compared with the new position. Returns the
      position and the number of draws used so far. */
  function Sweep(pos: Vec, blocks: seq<Vec>, k: nat, draws: seq<Vec>): (r: (Vec, nat))
    requires k <= |blocks| <= |draws|
    ensures r.1 <= k
    ensures r.0 == if r.1 == 0 then pos else draws[r.1 - 1]
    decreases k
  {
    if k == 0 then (pos, 0)
    else
      var r := Sweep(pos, blocks, k - 1, draws);
      if blocks[k - 1] == r.0 then (draws[r.1], r.1 + 1) else r
  }

  /** A fruit under none of the swept blocks stays where it is. */
  lemma {:induction false} SweepKeepsUncovered(pos: Vec, blocks: seq<Vec>, k: nat, draws: seq<Vec>)
    requires k <= |blocks| <= |draws|
    requires forall j :: 0 <= j < k ==> blocks[j] != pos
    ensures Sweep(pos, blocks, k, draws) == (pos, 0)
    decreases k
  {
    if k > 0 {
      SweepKeepsUncovered(pos, blocks, k - 1, draws);
    }
  }

  /** A fruit lying under one of the swept blocks is moved at least once. */
  lemma {:induction false} SweepMovesCovered(pos: Vec, blocks: seq<Vec>, k: nat, draws: seq<Vec>)
    requires k <= |blocks| <= |draws|
    requires exists j :: 0 <= j < k && blocks[j] == pos
    ensures Sweep(pos, blocks, k, draws).1 >= 1
    decreases k
  {
    if exists j :: 0 <= j < k - 1 && blocks[j] == pos {
      SweepMovesCovered(pos, blocks, k - 1, draws);
    } else {
      SweepKeepsUncovered(pos, blocks, k - 1, draws);
    }
  }

  /** check_collision as a function of the fruit position, the body just
      after the move and the drawn cells: the fruit position afterwards,
      whether the head ate it, and the draws used. */
  function Collision(pos: Vec, body: seq<Vec>, draws: seq<Vec>): (r: (Vec, bool, nat))
    requires 1 <= |body| <= |draws|
    ensures r.1 <==> pos == body[0]
    ensures r.2 <= |body|
    ensures r.1 ==> r.2 >= 1
  {
    if pos == body[0] then
      var (p, n) := Sweep(draws[0], body[1..], |body| - 1, draws[1..]);
      (p, true, n + 1)
    else
      var (p, n) := Sweep(pos, body[1..], |body| - 1, draws);
      (p, false, n)
  }

  /** Whatever happens, the correct fruit ends on the board, at its old cell
      or at the last cell drawn; and one lying under the body is moved. */
  lemma CollisionResult(pos: Vec, body: seq<Vec>, draws: seq<Vec>)
    requires 1 <= |body| <= |draws|
    requires InGrid(pos) && forall i :: 0 <= i < |draws| ==> InGrid(draws[i])
    ensures var r := Collision(pos, body, draws);
      InGrid(r.0) && r.0 == (if r.2 == 0 then pos else draws[r.2 - 1])
    ensures pos in body ==> Collision(pos, body, draws).2 >= 1
    ensures pos !in body ==> Collision(pos, body, draws) == (pos, false, 0)
  {
    if pos !in body {
      SweepKeepsUncovered(pos, body[1..], |body| - 1, draws);
    }
    if pos in body && pos != body[0] {
      var j :| 0 <= j < |body| && body[j] == pos;
      assert body[1..][j - 1] == pos;
      SweepMovesCovered(pos, body[1..], |body| - 1, draws);
    }
  }

  /** The condition of check_fail: the head is off the board or on another
      cell of the body. */
  predicate Fails(body: seq<Vec>): (b: bool)
    requires |body| >= 1
    ensures b <==> !InGrid(body[0]) || exists i :: 1 <= i < |body| && body[i] == body[0]
  {
    !InGrid(body[0]) || body[0] in body[1..]
  }

  /** While the snake stands still (zero direction), every tick fails: the
      new head lands on the old head, which is now the second cell. */
  lemma IdleTickFails(body: seq<Vec>, grow: bool)
    requires |body| >= 2
    ensures Fails(Advance(body, ZERO, grow))
  {
    var r := Advance(body, ZERO, grow);
    assert r[1..][0] == r[0];
  }

  /** Moving back onto the neck (the exact reverse of the last step) fails. */
  lemma ReverseTickFails(body: seq<Vec>, dir: Vec)
    requires |body| >= 3 && body[0] == body[1].Plus(dir)
    ensures Fails(Advance(body, dir.Neg(), false))
  {
    var r := Advance(body, dir.Neg(), false);
    assert r[0] == body[1] == r[2] && r[1..][1] == r[2];
  }

  class MainGame {
    const snake: Snake
    const question: Question
    const correctFruit: Fruit
    const badFruit: Fruit

    ghost predicate Valid()
      reads this, snake, question, correctFruit, badFruit
    {
      snake.Valid() && QuizValid()
    }

    /** Both fruits are on the board, the correct fruit carries the answer
        and the bad fruit a different value in [2, 20]. */
    ghost predicate QuizValid()
      reads this, question, correctFruit, badFruit
    {
      correctFruit != badFruit
      && InGrid(correctFruit.pos) && InGrid(badFruit.pos)
      && IsOperand(question.a) && IsOperand(question.b)
      && question.answer == question.a + question.b
      && correctFruit.answer == question.answer
      && badFruit.answer != question.answer
      && MIN_WRONG <= badFruit.answer <= MAX_WRONG
    }

    /** MAIN(): the operands, the two cells each FRUIT draws and the values
        the wrong-answer loop draws are supplied. */
    constructor (a: int, b: int, correctFirst: Vec, correctSecond: Vec,
                 wrongDraws: seq<int>, badFirst: Vec, badSecond: Vec)
      requires IsOperand(a) && IsOperand(b)
      requires InGrid(correctFirst) && InGrid(correctSecond)
      requires InGrid(badFirst) && InGrid(badSecond)
      requires forall i :: 0 <= i < |wrongDraws| ==> MIN_WRONG <= wrongDraws[i] <= MAX_WRONG
      requires exists i :: 0 <= i < |wrongDraws| && wrongDraws[i] != a + b
      ensures Valid()
      ensures snake.body == INITIAL_BODY && snake.direction == ZERO && !snake.newBlock
      ensures question.a == a && question.b == b && question.text == QuestionText(a, b)
      ensures correctFruit.answer == a + b && correctFruit.pos == correctSecond
      ensures badFruit.answer != a + b && badFruit.pos == badSecond
      ensures exists k :: 0 <= k < |wrongDraws| && badFruit.answer == wrongDraws[k]
                && forall i :: 0 <= i < k ==> wrongDraws[i] == a + b
    {
      snake := new Snake();
      var q := new Question(a, b);
      question := q;
      correctFruit := new Fruit(q.answer, correctFirst, correctSecond);
      var wrong, taken := PickWrongAnswer(q.answer, wrongDraws);
      badFruit := new Fruit(wrong, badFirst, badSecond);
    }

    /** draw_score's value: the blocks gained since the last reset. */
    function Score(): (s: int)
      reads this, snake
      requires snake.Valid()
      ensures s >= 0 && s + |INITIAL_BODY| == |snake.body|
    {
      |snake.body| - 3
    }

    /** An arrow-key press from the main loop. */
    method OnKey(key: Key)
      requires Valid()
      modifies snake
      ensures Valid()
      ensures snake.direction == Steer(key, old(snake.direction))
      ensures snake.body == old(snake.body) && snake.newBlock == old(snake.newBlock)
    {
      var d := Steer(key, snake.direction);
      assert IsDirection(d);
      snake.direction := d;
    }

    /** update: one tick. `draws` supplies the cells randomize draws (at most
        one per body cell is used). */
    method Update(draws: seq<Vec>) returns (used: nat)
      requires Valid()
      requires |draws| > |snake.body|
      requires forall i :: 0 <= i < |draws| ==> InGrid(draws[i])
      modifies snake, correctFruit
      ensures Valid()
      ensures badFruit.pos == old(badFruit.pos)
      ensures var moved := Advance(old(snake.body), old(snake.direction), old(snake.newBlock));
        var c := Collision(old(correctFruit.pos), moved, draws);
        correctFruit.pos == c.0 && snake.newBlock == c.1 && used == c.2
        && (Fails(moved) ==> snake.body == INITIAL_BODY && snake.direction == ZERO)
        && (!Fails(moved) ==> snake.body == moved && snake.direction == old(snake.direction))
    {
      snake.MoveSnake();
      used := CheckCollision(draws);
      CheckFail();
    }

    /** check_collision: the head on the correct fruit moves it and schedules
        growth; then every other body cell on it moves it again. The bad
        fruit is never looked at. */
    method CheckCollision(draws: seq<Vec>) returns (used: nat)
      requires Valid()
      requires |draws| >= |snake.body|
      requires forall i :: 0 <= i < |draws| ==> InGrid(draws[i])
      modifies snake, correctFruit
      ensures Valid()
      ensures snake.body == old(snake.body) && snake.direction == old(snake.direction)
      ensures badFruit.pos == old(badFruit.pos)
      ensures var c := Collision(old(correctFruit.pos), snake.body, draws);
        correctFruit.pos == c.0 && used == c.2
        && snake.newBlock == (old(snake.newBlock) || c.1)
    {
      used := 0;
      if correctFruit.pos == snake.body[0] {
        correctFruit.Randomize(draws[0]);
        used := 1;
        snake.AddBlock();
      }
      var blocks := snake.body[1..];
      ghost var start, offset := correctFruit.pos, used;
      ghost var rest := draws[offset..];
      for i := 0 to |blocks|
        modifies correctFruit
        invariant InGrid(correctFruit.pos)
        invariant offset <= used <= offset + i
        invariant (correctFruit.pos, used - offset) == Sweep(start, blocks, i, rest)
      {
        assert used - offset < |rest| && rest[used - offset] == draws[used];
        if blocks[i] == correctFruit.pos {
          correctFruit.Randomize(draws[used]);
          used := used + 1;
        }
      }
      assert Collision(old(correctFruit.pos), snake.body, draws) == (correctFruit.pos, offset == 1, used);
    }

    /** check_fail: off the board, or the head on another body cell, ends
        the game. The loop walks the cells after the head as they were when
        it started; resetting again inside it changes nothing. */
    method CheckFail()
      requires Valid()
      modifies snake
      ensures Valid()
      ensures Fails(old(snake.body)) ==> snake.body == INITIAL_BODY && snake.direction == ZERO
      ensures !Fails(old(snake.body)) ==> snake.body == old(snake.body) && snake.direction == old(snake.direction)
      ensures snake.newBlock == old(snake.newBlock)
    {
      ghost var head := snake.body[0];
      if !InGrid(snake.body[0]) {
        GameOver();
      }
      var blocks := snake.body[1..];
      for i := 0 to |blocks|
        invariant Valid()
        invariant snake.newBlock == old(snake.newBlock)
        invariant InGrid(head) ==> blocks == old(snake.body)[1..]
        invariant !InGrid(head) || head in blocks[..i] ==>
          snake.body == INITIAL_BODY && snake.direction == ZERO
        invariant !(!InGrid(head) || head in blocks[..i]) ==>
          snake.body == old(snake.body) && snake.direction == old(snake.direction)
      {
        assert blocks[..i + 1] == blocks[..i] + [blocks[i]];
        if blocks[i] == snake.body[0] {
          GameOver();
        }
      }
      assert blocks[..|blocks|] == blocks;
    }

    /** game_over: the quiz variant resets the snake and carries on. */
    method GameOver()
      requires Valid()
      modifies snake
      ensures Valid()
      ensures snake.body == INITIAL_BODY && snake.direction == ZERO
      ensures snake.newBlock == old(snake.newBlock)
    {
      snake.Reset();
    }
  }
}
