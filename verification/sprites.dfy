/** Sprite selection for drawing the snake: which head, tail and body
    sprite each cell gets, decided from the offsets to its neighbours. */
module SnakeSprites {
  import opened Grid
  import SnakeBody

  /** The way a head or tail sprite points (head_up, tail_left, ...). */
  datatype Facing = FacesUp | FacesDown | FacesLeft | FacesRight

  /** The interior segment sprites: the two straights and the four corners
      (br, tr, bl, tl); `Blank` when no case applies and nothing is drawn. */
  datatype Segment = Vertical | Horizontal | CornerBR | CornerTR | CornerBL | CornerTL | Blank

  /** The unit vector a sprite points along. */
  function FacingVec(f: Facing): (v: Vec)
    ensures IsUnit(v)
  {
    match f
    case FacesUp => UP
    case FacesDown => DOWN
    case FacesLeft => LEFT
    case FacesRight => RIGHT
  }

  /** The shared rule of update_head_graphics and update_tail_graphics: from
      the offset of the single neighbour, pick the sprite pointing away from
      it; any other offset keeps the sprite chosen before. */
  function Orient(relation: Vec, previous: Facing): (f: Facing)
    ensures IsUnit(relation) ==> FacingVec(f) == relation.Neg()
    ensures !IsUnit(relation) ==> f == previous
  {
    if relation == Vec(1, 0) then FacesLeft
    else if relation == Vec(-1, 0) then FacesRight
    else if relation == Vec(0, 1) then FacesUp
    else if relation == Vec(0, -1) then FacesDown
    else previous
  }

  /** Distinct unit offsets pick distinct sprites. */
  lemma OrientInjective(r1: Vec, r2: Vec, previous: Facing)
    requires IsUnit(r1) && IsUnit(r2)
    requires Orient(r1, previous) == Orient(r2, previous)
    ensures r1 == r2
  {
    if r1 == UP {
      assert Orient(r1, previous) == FacesDown;
    } else if r1 == DOWN {
      assert Orient(r1, previous) == FacesUp;
    } else if r1 == LEFT {
      assert Orient(r1, previous) == FacesRight;
    } else {
      assert Orient(r1, previous) == FacesLeft;
    }
  }

  /** Every sprite is picked by the unit offset opposite to the way it points. */
  lemma OrientOnto(f: Facing, previous: Facing)
    ensures Orient(FacingVec(f).Neg(), previous) == f
  {
    match f
    case FacesUp => assert FacingVec(f).Neg() == Vec(0, 1);
    case FacesDown => assert FacingVec(f).Neg() == Vec(0, -1);
    case FacesLeft => assert FacingVec(f).Neg() == Vec(1, 0);
    case FacesRight => assert FacingVec(f).Neg() == Vec(-1, 0);
  }

  /** update_head_graphics: the head sprite, from the neck's offset. */
  function HeadSprite(body: seq<Vec>, previous: Facing): (f: Facing)
    requires |body| >= 2
    ensures IsUnit(body[1].Minus(body[0])) ==> FacingVec(f) == body[0].Minus(body[1])
    ensures !IsUnit(body[1].Minus(body[0])) ==> f == previous
  {
    Orient(body[1].Minus(body[0]), previous)
  }

  /** update_tail_graphics: the tail sprite, from the offset of the cell before it. */
  function TailSprite(body: seq<Vec>, previous: Facing): (f: Facing)
    requires |body| >= 2
    ensures var n := |body|;
      IsUnit(body[n - 2].Minus(body[n - 1])) ==> FacingVec(f) == body[n - 1].Minus(body[n - 2])
    ensures var n := |body|;
      !IsUnit(body[n - 2].Minus(body[n - 1])) ==> f == previous
  {
    Orient(body[|body| - 2].Minus(body[|body| - 1]), previous)
  }

  /** After a step in a unit direction the head sprite points that way. */
  lemma HeadFacesDirection(body: seq<Vec>, dir: Vec, grow: bool, previous: Facing)
    requires |body| >= 2 && IsUnit(dir)
    ensures FacingVec(HeadSprite(SnakeBody.Advance(body, dir, grow), previous)) == dir
  {
    var r := SnakeBody.Advance(body, dir, grow);
    assert r[1].Minus(r[0]) == dir.Neg();
  }

  /** The interior-segment case analysis of draw_snake; `previous` is the
      offset to the cell behind (towards the tail), `next` to the cell in
      front (towards the head). */
  function SegmentSprite(previous: Vec, next: Vec): (s: Segment)
    ensures previous.x == next.x <==> s == Vertical
    ensures previous.x != next.x && previous.y == next.y <==> s == Horizontal
  {
    if previous.x == next.x then Vertical
    else if previous.y == next.y then Horizontal
    else if (previous.x == -1 && next.y == -1) || (previous.y == -1 && next.x == -1) then CornerBR
    else if (previous.x == -1 && next.y == 1) || (previous.y == 1 && next.x == -1) then CornerTR
    else if (previous.x == 1 && next.y == -1) || (previous.y == -1 && next.x == 1) then CornerBL
    else if (previous.x == 1 && next.y == 1) || (previous.y == 1 && next.x == 1) then CornerTL
    else Blank
  }

  /** Reference: a corner is named by the diagonal its two neighbours span
      (left+up is br, left+down is tr, right+up is bl, right+down is tl). */
  function CornerFor(diagonal: Vec): Segment {
    if diagonal == Vec(-1, -1) then CornerBR
    else if diagonal == Vec(-1, 1) then CornerTR
    else if diagonal == Vec(1, -1) then CornerBL
    else if diagonal == Vec(1, 1) then CornerTL
    else Blank
  }

  /** Two perpendicular unit neighbours always give exactly the corner their
      diagonal names. */
  lemma SegmentCorner(previous: Vec, next: Vec)
    requires IsUnit(previous) && IsUnit(next)
    requires previous.x != next.x && previous.y != next.y
    ensures SegmentSprite(previous, next) == CornerFor(previous.Plus(next))
    ensures SegmentSprite(previous, next) !in {Vertical, Horizontal, Blank}
  {
  }

  /** The choice does not depend on which neighbour is called previous. */
  lemma SegmentSymmetric(previous: Vec, next: Vec)
    ensures SegmentSprite(previous, next) == SegmentSprite(next, previous)
  {
  }

  /** The sprite of interior cell `i` of the body. */
  function SegmentAt(body: seq<Vec>, i: nat): (s: Segment)
    requires 0 < i < |body| - 1
    ensures SnakeBody.Connected(body) ==> s != Blank
  {
    SegmentSprite(body[i + 1].Minus(body[i]), body[i - 1].Minus(body[i]))
  }
}
