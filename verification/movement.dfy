/** Where a falling pair may sit, and the three player commands that move it
    (left, right, rotate). Every command is guarded by CanMove; a rejected command
    leaves the pair as it was. */
module Movement {
  import opened PuyoTypes

  /** One puyo may occupy its position: above the floor, between the side walls
      and, when it is inside the field (y >= 0), on an empty cell. A puyo above the
      field (y < 0) is never checked against the field. */
  predicate Placeable(f: Field, p: PlayerPuyo)
    requires IsField(f)
  {
    p.y < FIELD_HEIGHT && 0 <= p.x < FIELD_WIDTH && (p.y >= 0 ==> f[p.y][p.x] == Empty)
  }

  /** The source's guard chain: floor first, then walls, then a collision test for
      each puyo that is inside the field. */
  function CanMove(f: Field, puyo1: PlayerPuyo, puyo2: PlayerPuyo): (r: bool)
    requires IsField(f)
    ensures r <==> Placeable(f, puyo1) && Placeable(f, puyo2)
  {
    if puyo1.y >= FIELD_HEIGHT || puyo2.y >= FIELD_HEIGHT then false
    else if puyo1.x < 0 || puyo1.x >= FIELD_WIDTH || puyo2.x < 0 || puyo2.x >= FIELD_WIDTH then false
    else if puyo1.y >= 0 && f[puyo1.y][puyo1.x] != Empty then false
    else if puyo2.y >= 0 && f[puyo2.y][puyo2.x] != Empty then false
    else true
  }

  /** Each rejection rule is sufficient on its own, and anything they do not reject
      is accepted. */
  lemma CanMoveRules(f: Field, puyo1: PlayerPuyo, puyo2: PlayerPuyo)
    requires IsField(f)
    ensures puyo1.y >= FIELD_HEIGHT || puyo2.y >= FIELD_HEIGHT ==> !CanMove(f, puyo1, puyo2)
    ensures !(0 <= puyo1.x < FIELD_WIDTH) || !(0 <= puyo2.x < FIELD_WIDTH) ==> !CanMove(f, puyo1, puyo2)
    ensures (0 <= puyo1.y < FIELD_HEIGHT && 0 <= puyo1.x < FIELD_WIDTH && f[puyo1.y][puyo1.x] != Empty)
              ==> !CanMove(f, puyo1, puyo2)
    ensures (0 <= puyo2.y < FIELD_HEIGHT && 0 <= puyo2.x < FIELD_WIDTH && f[puyo2.y][puyo2.x] != Empty)
              ==> !CanMove(f, puyo1, puyo2)
    ensures puyo1.y < 0 && puyo2.y < 0 ==>
              (CanMove(f, puyo1, puyo2) <==> 0 <= puyo1.x < FIELD_WIDTH && 0 <= puyo2.x < FIELD_WIDTH)
  {
  }

  /** The pair one row lower (one step of falling). */
  function Lowered(p: PlayerState): (r: PlayerState)
    ensures r.puyo1.y == p.puyo1.y + 1 && r.puyo2.y == p.puyo2.y + 1
    ensures r.puyo1.x == p.puyo1.x && r.puyo2.x == p.puyo2.x
    ensures r.puyo1.color == p.puyo1.color && r.puyo2.color == p.puyo2.color
  {
    PlayerState(p.puyo1.(y := p.puyo1.y + 1), p.puyo2.(y := p.puyo2.y + 1))
  }

  /** The pair shifted horizontally by dx columns, without any check. */
  function Shifted(p: PlayerState, dx: int): (r: PlayerState)
    ensures r.puyo1.x == p.puyo1.x + dx && r.puyo2.x == p.puyo2.x + dx
    ensures r.puyo1.y == p.puyo1.y && r.puyo2.y == p.puyo2.y
    ensures r.puyo1.color == p.puyo1.color && r.puyo2.color == p.puyo2.color
  {
    PlayerState(p.puyo1.(x := p.puyo1.x + dx), p.puyo2.(x := p.puyo2.x + dx))
  }

  /** The left (dx = -1) and right (dx = +1) commands: the shifted pair if CanMove
      accepts it, the pair unchanged otherwise. */
  function MoveHorizontally(f: Field, prev: PlayerState, dx: int): (r: PlayerState)
    requires IsField(f)
    ensures r == prev || (r == Shifted(prev, dx) && CanMove(f, r.puyo1, r.puyo2))
    ensures r == prev <== !CanMove(f, Shifted(prev, dx).puyo1, Shifted(prev, dx).puyo2)
  {
    var next := Shifted(prev, dx);
    if CanMove(f, next.puyo1, next.puyo2) then next else prev
  }

  /** Left then right (or right then left) returns a placeable pair to where it was:
      when the first move is rejected the pair has not moved and the second move is a
      step back onto a placeable position, or it is rejected too. */
  lemma {:induction false} MoveInverse(f: Field, prev: PlayerState, dx: int)
    requires IsField(f) && CanMove(f, prev.puyo1, prev.puyo2)
    requires dx == 1 || dx == -1
    ensures var there := MoveHorizontally(f, prev, dx);
            there != prev ==> MoveHorizontally(f, there, -dx) == prev
  {
    var there := MoveHorizontally(f, prev, dx);
    if there != prev {
      assert Shifted(there, -dx) == prev;
    }
  }

  /** The child's position after a quarter turn about the axis: the offset (dx, dy)
      of the child from the axis becomes (-dy, dx). */
  function TurnedChild(p: PlayerState): (c: PlayerPuyo)
    ensures c.color == p.puyo2.color
    ensures c.x - p.puyo1.x == -(p.puyo2.y - p.puyo1.y)
    ensures c.y - p.puyo1.y == p.puyo2.x - p.puyo1.x
  {
    var dx := p.puyo2.x - p.puyo1.x;
    var dy := p.puyo2.y - p.puyo1.y;
    p.puyo2.(x := p.puyo1.x - dy, y := p.puyo1.y + dx)
  }

  /** The pair after a quarter turn of the child about the axis. */
  function Turned(p: PlayerState): (r: PlayerState)
    ensures r.puyo1 == p.puyo1 && r.puyo2.color == p.puyo2.color
    ensures r.puyo2.x - r.puyo1.x == -(p.puyo2.y - p.puyo1.y)
    ensures r.puyo2.y - r.puyo1.y == p.puyo2.x - p.puyo1.x
  {
    PlayerState(p.puyo1, TurnedChild(p))
  }

  /** The rotate command: the axis stays put and the child turns a quarter about it,
      if CanMove accepts the turned pair; otherwise nothing changes. */
  function Rotate(f: Field, prev: PlayerState): (r: PlayerState)
    requires IsField(f)
    ensures r.puyo1 == prev.puyo1
    ensures r == prev || (r == Turned(prev) && CanMove(f, r.puyo1, r.puyo2))
    ensures r == prev <== !CanMove(f, prev.puyo1, TurnedChild(prev))
  {
    var nextPuyo2 := TurnedChild(prev);
    if CanMove(f, prev.puyo1, nextPuyo2) then PlayerState(prev.puyo1, nextPuyo2) else prev
  }

  /** Squared distance between the two puyos of a pair. */
  function OffsetLength(p: PlayerState): int {
    (p.puyo2.x - p.puyo1.x) * (p.puyo2.x - p.puyo1.x) + (p.puyo2.y - p.puyo1.y) * (p.puyo2.y - p.puyo1.y)
  }

  /** A turn keeps the child at the same distance from the axis, and four turns
      bring it back to where it started. */
  lemma TurnProperties(p: PlayerState)
    ensures OffsetLength(Turned(p)) == OffsetLength(p)
    ensures Turned(Turned(Turned(Turned(p)))) == p
    ensures Turned(Turned(p)) != p <== (p.puyo2.x, p.puyo2.y) != (p.puyo1.x, p.puyo1.y)
  {
  }

  /** Four accepted rotations in a row restore the pair; a rejected rotation leaves it
      as it was, so rotating never changes the distance between the two puyos. */
  lemma {:induction false} FourRotations(f: Field, p: PlayerState)
    requires IsField(f)
    ensures OffsetLength(Rotate(f, p)) == OffsetLength(p)
    ensures var r1 := Rotate(f, p); var r2 := Rotate(f, r1); var r3 := Rotate(f, r2); var r4 := Rotate(f, r3);
            r1 != p && r2 != r1 && r3 != r2 && r4 != r3 ==> r4 == p
  {
    TurnProperties(p);
    var r1 := Rotate(f, p);
    var r2 := Rotate(f, r1);
    var r3 := Rotate(f, r2);
    var r4 := Rotate(f, r3);
    if r1 != p && r2 != r1 && r3 != r2 && r4 != r3 {
      assert r4 == Turned(Turned(Turned(Turned(p))));
    }
  }
}
