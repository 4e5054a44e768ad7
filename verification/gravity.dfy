/** Gravity: every column is compacted downwards, the puyos keeping their
    top-to-bottom order and the empty cells collecting at the top. */
module Falling {
  import opened PuyoTypes

  /** Column x of a field, read top to bottom. */
  function Column(f: Field, x: int): (c: seq<Cell>)
    requires IsField(f) && 0 <= x < FIELD_WIDTH
    ensures |c| == FIELD_HEIGHT
    ensures forall y :: 0 <= y < FIELD_HEIGHT ==> c[y] == f[y][x]
  {
    seq(FIELD_HEIGHT, y requires 0 <= y < FIELD_HEIGHT => f[y][x])
  }

  /** Two fields with the same columns are the same field. */
  lemma ColumnsDetermineField(a: Field, b: Field)
    requires IsField(a) && IsField(b)
    requires forall x :: 0 <= x < FIELD_WIDTH ==> Column(a, x) == Column(b, x)
    ensures a == b
  {
    forall y | 0 <= y < FIELD_HEIGHT
      ensures a[y] == b[y]
    {
      forall x | 0 <= x < FIELD_WIDTH
        ensures a[y][x] == b[y][x]
      {
        assert Column(a, x)[y] == Column(b, x)[y];
      }
    }
  }

  /** The puyos (non-empty cells) of a column, in their top-to-bottom order. */
  function Puyos(c: seq<Cell>): (r: seq<Cell>)
    ensures |r| <= |c|
    ensures forall i :: 0 <= i < |r| ==> r[i] != Empty
  {
    if c == [] then [] else (if c[0] != Empty then [c[0]] else []) + Puyos(c[1..])
  }

  /** Unfolding Puyos at an arbitrary starting row. */
  lemma PuyosFrom(c: seq<Cell>, y: int)
    requires 0 <= y < |c|
    ensures Puyos(c[y..]) == (if c[y] != Empty then [c[y]] else []) + Puyos(c[y + 1..])
  {
    assert c[y..][1..] == c[y + 1..];
  }

  function Blanks(n: nat): (r: seq<Cell>)
    ensures |r| == n && forall i :: 0 <= i < n ==> r[i] == Empty
  {
    seq(n, _ => Empty)
  }

  /** A column after gravity: the empty cells on top, then the puyos in order. */
  function Settle(c: seq<Cell>): (r: seq<Cell>)
    ensures |r| == |c|
  {
    Blanks(|c| - |Puyos(c)|) + Puyos(c)
  }

  /** A settled column has no empty cell below a puyo. */
  predicate Settled(c: seq<Cell>) {
    forall i, j :: 0 <= i < j < |c| && c[i] != Empty ==> c[j] != Empty
  }

  /** Gravity on a whole field: each column settled on its own. */
  function Gravity(f: Field): (r: Field)
    requires IsField(f)
    ensures IsField(r)
    ensures forall x :: 0 <= x < FIELD_WIDTH ==> Column(r, x) == Settle(Column(f, x))
  {
    var r := seq(FIELD_HEIGHT, y requires 0 <= y < FIELD_HEIGHT =>
                 seq(FIELD_WIDTH, x requires 0 <= x < FIELD_WIDTH => Settle(Column(f, x))[y]));
    assert forall x :: 0 <= x < FIELD_WIDTH ==> Column(r, x) == Settle(Column(f, x));
    r
  }

  /** The source's compaction of a copy of the field: for each column a cursor
      writeY starts at the bottom row, the scan goes upwards, and every puyo found
      is moved down to writeY (its old cell emptied) before writeY moves up. The
      argument is not modified (fields are values here). */
  method ApplyGravity(field: Field) returns (newField: Field)
    requires IsField(field)
    ensures newField == Gravity(field)
  {
    newField := field;
    for x := 0 to FIELD_WIDTH
      invariant IsField(newField)
      invariant forall xx :: 0 <= xx < x ==> Column(newField, xx) == Settle(Column(field, xx))
      invariant forall xx :: x <= xx < FIELD_WIDTH ==> Column(newField, xx) == Column(field, xx)
    {
      newField := SettleColumn(newField, x);
    }
    ColumnsDetermineField(newField, Gravity(field));
  }

  /** The body of the source's column loop: the writeY scan of one column x, done
      in place on the working copy. */
  method SettleColumn(field: Field, x: int) returns (newField: Field)
    requires IsField(field) && 0 <= x < FIELD_WIDTH
    ensures IsField(newField)
    ensures Column(newField, x) == Settle(Column(field, x))
    ensures forall xx :: 0 <= xx < FIELD_WIDTH && xx != x ==> Column(newField, xx) == Column(field, xx)
  {
    ghost var c := Column(field, x);
    newField := field;
    var writeY := FIELD_HEIGHT - 1;
    var y := FIELD_HEIGHT - 1;
    while y >= 0
      invariant -1 <= y <= writeY < FIELD_HEIGHT
      invariant IsField(newField)
      invariant writeY == FIELD_HEIGHT - 1 - |Puyos(c[y + 1..])|
      invariant ScanState(Column(newField, x), c, y, writeY)
      invariant forall xx :: 0 <= xx < FIELD_WIDTH && xx != x ==> Column(newField, xx) == Column(field, xx)
      decreases y + 1
    {
      newField, writeY := ScanCell(newField, x, y, writeY, c);
      y := y - 1;
    }
    assert c[0..] == c;
    SettleLayout(c);
    assert Column(newField, x) == Settle(c);
  }

  /** One step of the writeY scan: the cell at row y of column x drops to row writeY
      when it holds a puyo. */
  method ScanCell(field: Field, x: int, y: int, writeY: int, ghost c: seq<Cell>)
    returns (newField: Field, writeY': int)
    requires IsField(field) && 0 <= x < FIELD_WIDTH && |c| == FIELD_HEIGHT
    requires 0 <= y <= writeY < FIELD_HEIGHT
    requires writeY == FIELD_HEIGHT - 1 - |Puyos(c[y + 1..])|
    requires ScanState(Column(field, x), c, y, writeY)
    ensures IsField(newField) && y - 1 <= writeY' <= writeY
    ensures writeY' == FIELD_HEIGHT - 1 - |Puyos(c[y..])|
    ensures ScanState(Column(newField, x), c, y - 1, writeY')
    ensures forall xx :: 0 <= xx < FIELD_WIDTH && xx != x ==> Column(newField, xx) == Column(field, xx)
  {
    ghost var col := Column(field, x);
    PuyosFrom(c, y);
    newField := field;
    writeY' := writeY;
    if field[y][x] != Empty {
      if y != writeY {
        newField := SetCell(newField, writeY, x, field[y][x]);
        newField := SetCell(newField, y, x, Empty);
        assert Column(newField, x) == col[writeY := c[y]][y := Empty];
      }
      ScanStepPuyo(Column(newField, x), col, c, y, writeY);
      writeY' := writeY - 1;
    } else {
      ScanStepEmpty(col, c, y, writeY);
    }
  }

  /** The column during the writeY scan: rows 0..y not yet visited, rows y+1..writeY
      emptied, and below writeY the puyos found so far, in order. */
  ghost predicate ScanState(col: seq<Cell>, c: seq<Cell>, y: int, writeY: int)
    requires |col| == |c| == FIELD_HEIGHT && -1 <= y <= writeY < FIELD_HEIGHT
    requires writeY == FIELD_HEIGHT - 1 - |Puyos(c[y + 1..])|
  {
    forall yy :: 0 <= yy < FIELD_HEIGHT ==>
      col[yy] == (if yy <= y then c[yy]
                  else if yy <= writeY then Empty
                  else Puyos(c[y + 1..])[yy - writeY - 1])
  }

  lemma ScanStepEmpty(col: seq<Cell>, c: seq<Cell>, y: int, writeY: int)
    requires |col| == |c| == FIELD_HEIGHT && 0 <= y <= writeY < FIELD_HEIGHT
    requires writeY == FIELD_HEIGHT - 1 - |Puyos(c[y + 1..])|
    requires ScanState(col, c, y, writeY) && c[y] == Empty
    requires Puyos(c[y..]) == Puyos(c[y + 1..])
    ensures ScanState(col, c, y - 1, writeY)
  {
  }

  lemma ScanStepPuyo(col': seq<Cell>, col: seq<Cell>, c: seq<Cell>, y: int, writeY: int)
    requires |col| == |col'| == |c| == FIELD_HEIGHT && 0 <= y <= writeY < FIELD_HEIGHT
    requires writeY == FIELD_HEIGHT - 1 - |Puyos(c[y + 1..])|
    requires ScanState(col, c, y, writeY) && c[y] != Empty
    requires Puyos(c[y..]) == [c[y]] + Puyos(c[y + 1..])
    requires col' == if y == writeY then col else col[writeY := c[y]][y := Empty]
    ensures ScanState(col', c, y - 1, writeY - 1)
  {
  }

  // ----- Properties of gravity -----

  /** Blanks contribute nothing to the puyos of a column. */
  lemma {:induction false} PuyosOfBlanks(n: nat, s: seq<Cell>)
    ensures Puyos(Blanks(n) + s) == Puyos(s)
  {
    if n > 0 {
      assert (Blanks(n) + s)[1..] == Blanks(n - 1) + s;
      PuyosOfBlanks(n - 1, s);
    } else {
      assert Blanks(n) + s == s;
    }
  }

  /** A sequence of puyos is its own list of puyos. */
  lemma {:induction false} PuyosOfPuyos(s: seq<Cell>)
    requires forall i :: 0 <= i < |s| ==> s[i] != Empty
    ensures Puyos(s) == s
  {
    if s != [] {
      PuyosOfPuyos(s[1..]);
    }
  }

  /** Gravity keeps every puyo of a column, in its order. */
  lemma SettleKeepsPuyos(c: seq<Cell>)
    ensures Puyos(Settle(c)) == Puyos(c)
  {
    PuyosOfBlanks(|c| - |Puyos(c)|, Puyos(c));
    PuyosOfPuyos(Puyos(c));
  }

  /** How many cells of a column hold the value v. */
  function Occurrences(s: seq<Cell>, v: Cell): (n: nat)
    ensures n <= |s|
  {
    if s == [] then 0 else (if s[0] == v then 1 else 0) + Occurrences(s[1..], v)
  }

  lemma {:induction false} OccurrencesAppend(a: seq<Cell>, b: seq<Cell>, v: Cell)
    ensures Occurrences(a + b, v) == Occurrences(a, v) + Occurrences(b, v)
  {
    if a != [] {
      assert (a + b)[1..] == a[1..] + b;
      OccurrencesAppend(a[1..], b, v);
    } else {
      assert a + b == b;
    }
  }

  lemma {:induction false} OccurrencesOfBlanks(n: nat, v: Cell)
    ensures Occurrences(Blanks(n), v) == if v == Empty then n else 0
  {
    if n > 0 {
      assert Blanks(n)[1..] == Blanks(n - 1);
      OccurrencesOfBlanks(n - 1, v);
    }
  }

  /** Puyos drops exactly the empty cells of a column and keeps every colour. */
  lemma {:induction false} OccurrencesInPuyos(c: seq<Cell>, v: Cell)
    ensures Occurrences(c, v) == Occurrences(Puyos(c), v) + if v == Empty then |c| - |Puyos(c)| else 0
  {
    if c != [] {
      OccurrencesInPuyos(c[1..], v);
      OccurrencesAppend(if c[0] != Empty then [c[0]] else [], Puyos(c[1..]), v);
    }
  }

  /** The multiplicity of v in a column's multiset is its count. */
  lemma {:induction false} MultisetOccurrences(s: seq<Cell>, v: Cell)
    ensures multiset(s)[v] == Occurrences(s, v)
  {
    if s != [] {
      assert s == [s[0]] + s[1..];
      MultisetOccurrences(s[1..], v);
    }
  }

  /** Settling a column keeps its multiset of cells. */
  lemma SettleMultiset(c: seq<Cell>)
    ensures multiset(Settle(c)) == multiset(c)
  {
    forall v: Cell
      ensures multiset(Settle(c))[v] == multiset(c)[v]
    {
      MultisetOccurrences(Settle(c), v);
      MultisetOccurrences(c, v);
      OccurrencesAppend(Blanks(|c| - |Puyos(c)|), Puyos(c), v);
      OccurrencesOfBlanks(|c| - |Puyos(c)|, v);
      OccurrencesInPuyos(c, v);
    }
  }

  /** Where the cells of a settled column are: empty cells in the top rows, then the
      puyos of the column in their original order. */
  lemma SettleLayout(c: seq<Cell>)
    ensures forall i :: 0 <= i < |c| - |Puyos(c)| ==> Settle(c)[i] == Empty
    ensures forall i :: |c| - |Puyos(c)| <= i < |c| ==> Settle(c)[i] == Puyos(c)[i - (|c| - |Puyos(c)|)]
  {
  }

  /** A settled column: puyos at the bottom rows in their original order, empty
      cells above, the same multiset of cells. */
  lemma SettleSpec(c: seq<Cell>)
    ensures Settled(Settle(c))
    ensures multiset(Settle(c)) == multiset(c)
    ensures Puyos(Settle(c)) == Puyos(c)
  {
    SettleMultiset(c);
    SettleKeepsPuyos(c);
    SettleLayout(c);
  }

  /** An already settled column is left unchanged. */
  lemma {:induction false} SettledIsFixed(c: seq<Cell>)
    requires Settled(c)
    ensures Settle(c) == c
  {
    if c != [] {
      SettledIsFixed(c[1..]);
      if c[0] != Empty {
        assert forall j :: 0 <= j < |c| ==> c[j] != Empty;
        PuyosOfPuyos(c);
      } else {
        var k := |c[1..]| - |Puyos(c[1..])|;
        assert Blanks(k + 1) == [Empty] + Blanks(k);
      }
    }
  }

  /** Gravity leaves a field unchanged exactly when every column is already settled. */
  lemma GravityFixesSettled(f: Field)
    requires IsField(f)
    ensures Gravity(f) == f <==> forall x :: 0 <= x < FIELD_WIDTH ==> Settled(Column(f, x))
  {
    if forall x :: 0 <= x < FIELD_WIDTH ==> Settled(Column(f, x)) {
      forall x | 0 <= x < FIELD_WIDTH
        ensures Column(Gravity(f), x) == Column(f, x)
      {
        SettledIsFixed(Column(f, x));
      }
      ColumnsDetermineField(Gravity(f), f);
    }
    if Gravity(f) == f {
      forall x | 0 <= x < FIELD_WIDTH
        ensures Settled(Column(f, x))
      {
        SettleSpec(Column(f, x));
      }
    }
  }

  /** Gravity is idempotent. */
  lemma GravityIdempotent(f: Field)
    requires IsField(f)
    ensures Gravity(Gravity(f)) == Gravity(f)
  {
    forall x | 0 <= x < FIELD_WIDTH
      ensures Settled(Column(Gravity(f), x))
    {
      SettleSpec(Column(f, x));
    }
    GravityFixesSettled(Gravity(f));
  }

  /** Columns do not affect one another: a column of the result depends only on the
      same column of the argument. */
  lemma GravityColumnsIndependent(f: Field, g: Field, x: int)
    requires IsField(f) && IsField(g) && 0 <= x < FIELD_WIDTH
    requires forall y :: 0 <= y < FIELD_HEIGHT ==> f[y][x] == g[y][x]
    ensures forall y :: 0 <= y < FIELD_HEIGHT ==> Gravity(f)[y][x] == Gravity(g)[y][x]
  {
    assert Column(f, x) == Column(g, x);
    assert Column(Gravity(f), x) == Column(Gravity(g), x);
    forall y | 0 <= y < FIELD_HEIGHT
      ensures Gravity(f)[y][x] == Gravity(g)[y][x]
    {
      assert Column(Gravity(f), x)[y] == Column(Gravity(g), x)[y];
    }
  }

  /** The worked example of the source's tests, laid into the bottom-left corner of
      a 6x12 field: red over an empty cell in column 0 and blue at the bottom of
      column 1 end up side by side on the bottom row. */
  lemma GravityExample()
    ensures var f := SetCell(SetCell(EmptyField(), 10, 0, Puyo(Red)), 11, 1, Puyo(Blue));
            var g := Gravity(f);
            g == SetCell(SetCell(EmptyField(), 11, 0, Puyo(Red)), 11, 1, Puyo(Blue))
  {
    var f := SetCell(SetCell(EmptyField(), 10, 0, Puyo(Red)), 11, 1, Puyo(Blue));
    var want := SetCell(SetCell(EmptyField(), 11, 0, Puyo(Red)), 11, 1, Puyo(Blue));
    forall x | 0 <= x < FIELD_WIDTH
      ensures Column(Gravity(f), x) == Column(want, x)
    {
      var c := Column(f, x);
      if x == 0 {
        assert c == Blanks(10) + [Puyo(Red), Empty];
        PuyosOfBlanks(10, [Puyo(Red), Empty]);
        assert Puyos(c) == [Puyo(Red)];
        assert Column(want, x) == Blanks(11) + [Puyo(Red)];
      } else if x == 1 {
        assert c == Blanks(11) + [Puyo(Blue)];
        PuyosOfBlanks(11, [Puyo(Blue)]);
        assert Column(want, x) == c;
      } else {
        assert c == Blanks(12) + [];
        PuyosOfBlanks(12, []);
        assert Column(want, x) == c;
      }
    }
    ColumnsDetermineField(Gravity(f), want);
  }
}
