/** The data model of the game: colours, cells, the 6x12 field, falling pairs and a
    player's game state. Rows are indexed top to bottom (row 0 is the top row), so a
    field is a sequence of FIELD_HEIGHT rows of FIELD_WIDTH cells: field[y][x]. */
module PuyoTypes {

  const FIELD_WIDTH: int := 6
  const FIELD_HEIGHT: int := 12
  /** Number of pairs shown in the next queue. */
  const NEXT_PUYO_COUNT: int := 2

  datatype Color = Red | Green | Blue | Yellow | Purple

  /** A cell holds one coloured puyo or is empty (the source's `color: null`). */
  datatype Cell = Empty | Puyo(color: Color)

  type Field = seq<seq<Cell>>

  /** A falling puyo: a position that may lie above the field (y < 0) and a colour. */
  datatype PlayerPuyo = PlayerPuyo(x: int, y: int, color: Color)

  /** A falling pair: the axis puyo1 and the child puyo2. */
  datatype PlayerState = PlayerState(puyo1: PlayerPuyo, puyo2: PlayerPuyo)

  /** One player's game state, as the source keeps it in a single record. */
  datatype GameState = GameState(
    field: Field,
    score: int,
    isGameOver: bool,
    nextPuyos: seq<PlayerState>,
    incomingNuisancePuyos: int)

  datatype Option<T> = None | Some(value: T)

  /** A grid position (row, column). */
  datatype Pos = Pos(y: int, x: int)

  predicate InField(p: Pos) {
    0 <= p.y < FIELD_HEIGHT && 0 <= p.x < FIELD_WIDTH
  }

  /** A well-formed field: exactly FIELD_HEIGHT rows of FIELD_WIDTH cells. */
  predicate IsField(f: Field) {
    |f| == FIELD_HEIGHT && forall y :: 0 <= y < |f| ==> |f[y]| == FIELD_WIDTH
  }

  /** The cell at a position of a well-formed field. */
  function At(f: Field, p: Pos): Cell
    requires IsField(f) && InField(p)
  {
    f[p.y][p.x]
  }

  /** The field with one cell replaced. */
  function SetCell(f: Field, y: int, x: int, c: Cell): (r: Field)
    requires IsField(f) && 0 <= y < FIELD_HEIGHT && 0 <= x < FIELD_WIDTH
    ensures IsField(r)
    ensures r[y][x] == c
    ensures forall yy, xx :: 0 <= yy < FIELD_HEIGHT && 0 <= xx < FIELD_WIDTH && (yy != y || xx != x)
              ==> r[yy][xx] == f[yy][xx]
  {
    f[y := f[y][x := c]]
  }

  /** The empty field that a new game starts with. */
  function EmptyField(): (r: Field)
    ensures IsField(r)
    ensures forall y, x :: 0 <= y < FIELD_HEIGHT && 0 <= x < FIELD_WIDTH ==> r[y][x] == Empty
  {
    seq(FIELD_HEIGHT, _ => seq(FIELD_WIDTH, _ => Empty))
  }

  /** Every cell of the field is empty (the all-clear test). */
  predicate AllEmpty(f: Field)
    requires IsField(f)
  {
    forall y, x :: 0 <= y < FIELD_HEIGHT && 0 <= x < FIELD_WIDTH ==> f[y][x] == Empty
  }

  /** A drawn pair at the spawn position: axis at (2, -1), child at (2, 0). The two
      colours are the ones the source draws at random. */
  function NewPuyoPair(c1: Color, c2: Color): (p: PlayerState)
    ensures p.puyo1.color == c1 && p.puyo2.color == c2
    ensures p.puyo1.x == p.puyo2.x == 2
    ensures p.puyo1.y < 0 <= p.puyo2.y && p.puyo2.y == p.puyo1.y + 1
  {
    PlayerState(PlayerPuyo(2, -1, c1), PlayerPuyo(2, 0, c2))
  }

  /** The initial game state: empty field, score 0, not over, a full next queue built
      from the given colour pairs, nothing incoming. */
  function InitialGameState(colors: seq<(Color, Color)>): (g: GameState)
    requires |colors| == NEXT_PUYO_COUNT
    ensures IsField(g.field) && AllEmpty(g.field)
    ensures g.score == 0 && !g.isGameOver && g.incomingNuisancePuyos == 0
    ensures |g.nextPuyos| == NEXT_PUYO_COUNT
    ensures forall i :: 0 <= i < |g.nextPuyos| ==> g.nextPuyos[i] == NewPuyoPair(colors[i].0, colors[i].1)
  {
    GameState(EmptyField(), 0, false,
              seq(NEXT_PUYO_COUNT, i requires 0 <= i < NEXT_PUYO_COUNT => NewPuyoPair(colors[i].0, colors[i].1)),
              0)
  }

  /** The next queue after a lock: the head leaves it (it becomes the active pair)
      and a drawn pair joins at the back, so the length is unchanged. */
  function Advance(queue: seq<PlayerState>, drawn: PlayerState): (r: seq<PlayerState>)
    requires |queue| > 0
    ensures |r| == |queue| && r[|r| - 1] == drawn
    ensures forall i :: 0 <= i < |queue| - 1 ==> r[i] == queue[i + 1]
  {
    queue[1..] + [drawn]
  }
}
