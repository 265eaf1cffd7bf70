/** The snake of game.py: its body (head first), its direction and the
    pending-growth flag, with the step, grow and reset operations. */
module SnakeBody {
  import opened Grid

  /** The body after one step. Every segment moves into the cell of the
      segment in front of it and the head moves by `dir`; the old tail cell
      stays occupied only when a block is pending. Without growth the
      source copies `body[:-1]` and reads its first cell, so it needs two
      cells. */
  function Advance(body: seq<Vec>, dir: Vec, grow: bool): (r: seq<Vec>)
    requires |body| >= 1 && (grow || |body| >= 2)
    ensures |r| == if grow then |body| + 1 else |body|
    ensures r[0] == body[0].Plus(dir)
    ensures forall i :: 1 <= i < |r| ==> r[i] == body[i - 1]
  {
    if grow then [body[0].Plus(dir)] + body
    else [body[0].Plus(dir)] + body[..|body| - 1]
  }

  /** Without growth the length is kept and exactly the last cell is dropped. */
  lemma AdvanceWithoutGrowth(body: seq<Vec>, dir: Vec)
    requires |body| >= 2
    ensures |Advance(body, dir, false)| == |body|
    ensures Advance(body, dir, false)[1..] == body[..|body| - 1]
  {
    var r := Advance(body, dir, false);
    assert forall i :: 0 <= i < |body| - 1 ==> r[1..][i] == body[i];
  }

  /** With growth the length grows by exactly one and the whole old body follows the head. */
  lemma AdvanceWithGrowth(body: seq<Vec>, dir: Vec)
    requires |body| >= 1
    ensures |Advance(body, dir, true)| == |body| + 1
    ensures Advance(body, dir, true)[1..] == body
  {
    var r := Advance(body, dir, true);
    assert forall i :: 0 <= i < |body| ==> r[1..][i] == body[i];
  }

  /** A snake whose consecutive cells are grid neighbours. */
  predicate Connected(body: seq<Vec>) {
    forall i :: 1 <= i < |body| ==> IsUnit(body[i - 1].Minus(body[i]))
  }

  /** A step in a unit direction keeps the body connected. */
  lemma AdvanceConnected(body: seq<Vec>, dir: Vec, grow: bool)
    requires |body| >= 1 && (grow || |body| >= 2)
    requires Connected(body) && IsUnit(dir)
    ensures Connected(Advance(body, dir, grow))
  {
    var r := Advance(body, dir, grow);
    forall i | 1 <= i < |r|
      ensures IsUnit(r[i - 1].Minus(r[i]))
    {
      if i == 1 {
        assert r[0].Minus(r[1]) == dir;
      } else {
        assert r[i - 1] == body[i - 2] && r[i] == body[i - 1];
      }
    }
  }

  class Snake {
    var body: seq<Vec>
    var direction: Vec
    var newBlock: bool

    /** The body always has at least three cells (so the score `len(body) - 3`
        is never negative) and the direction is still or a unit. */
    ghost predicate Valid()
      reads this
    {
      |body| >= |INITIAL_BODY| && IsDirection(direction)
    }

    constructor ()
      ensures Valid()
      ensures body == INITIAL_BODY && direction == ZERO && !newBlock
    {
      body := INITIAL_BODY;
      direction := ZERO;
      newBlock := false;
    }

    /** move_snake: one step, consuming the pending block if there is one. */
    method MoveSnake()
      requires Valid()
      modifies this
      ensures Valid()
      ensures body == Advance(old(body), old(direction), old(newBlock))
      ensures |body| == |old(body)| + (if old(newBlock) then 1 else 0)
      ensures direction == old(direction) && !newBlock
    {
      if newBlock {
        var bodyCopy := body;
        bodyCopy := [bodyCopy[0].Plus(direction)] + bodyCopy;
        body := bodyCopy;
        newBlock := false;
      } else {
        var bodyCopy := body[..|body| - 1];
        bodyCopy := [bodyCopy[0].Plus(direction)] + bodyCopy;
        body := bodyCopy;
      }
    }

    /** add_block: schedule growth for the next step; nothing else changes. */
    method AddBlock()
      modifies this
      ensures newBlock
      ensures body == old(body) && direction == old(direction)
    {
      newBlock := true;
    }

    /** reset: back to the starting body, standing still. The pending-growth
        flag is left as it was. */
    method Reset()
      modifies this
      ensures Valid()
      ensures body == INITIAL_BODY && direction == ZERO
      ensures newBlock == old(newBlock)
    {
      body := INITIAL_BODY;
      direction := ZERO;
    }
  }
}
