/** What happens after a pair locks: the chain loop (erase, then gravity, until a
    pass erases nothing), its score, the outgoing nuisance amount, netting against
    the incoming counter, and the materialisation of pending nuisance puyos. */
module Chain {
  import opened PuyoTypes
  import opened Falling
  import opened Connections

  // ---------------------------------------------------------------------------
  // Counting puyos
  // ---------------------------------------------------------------------------

  /** Number of puyos in columns x, x+1, ... of a field. */
  function CountFrom(f: Field, x: int): nat
    requires IsField(f) && 0 <= x <= FIELD_WIDTH
    decreases FIELD_WIDTH - x
  {
    if x == FIELD_WIDTH then 0 else |Puyos(Column(f, x))| + CountFrom(f, x + 1)
  }

  /** Number of puyos on the field. */
  function Count(f: Field): nat
    requires IsField(f)
  {
    CountFrom(f, 0)
  }

  /** Gravity moves puyos but never creates or destroys one. */
  lemma {:induction false} GravityKeepsCountFrom(f: Field, x: int)
    requires IsField(f) && 0 <= x <= FIELD_WIDTH
    ensures CountFrom(Gravity(f), x) == CountFrom(f, x)
    decreases FIELD_WIDTH - x
  {
    if x < FIELD_WIDTH {
      SettleKeepsPuyos(Column(f, x));
      GravityKeepsCountFrom(f, x + 1);
    }
  }

  lemma GravityKeepsCount(f: Field)
    requires IsField(f)
    ensures Count(Gravity(f)) == Count(f)
  {
    GravityKeepsCountFrom(f, 0);
  }

  /** b is a with some puyos removed. */
  predicate Thinned(a: seq<Cell>, b: seq<Cell>) {
    |a| == |b| && forall i :: 0 <= i < |a| ==> b[i] == a[i] || b[i] == Empty
  }

  lemma {:induction false} ThinnedPuyos(a: seq<Cell>, b: seq<Cell>)
    requires Thinned(a, b)
    ensures |Puyos(b)| <= |Puyos(a)|
  {
    if a != [] {
      assert Thinned(a[1..], b[1..]);
      ThinnedPuyos(a[1..], b[1..]);
    }
  }

  lemma {:induction false} ThinnedPuyosStrict(a: seq<Cell>, b: seq<Cell>, k: int)
    requires Thinned(a, b) && 0 <= k < |a| && a[k] != Empty && b[k] == Empty
    ensures |Puyos(b)| < |Puyos(a)|
  {
    assert Thinned(a[1..], b[1..]);
    if k == 0 {
      ThinnedPuyos(a[1..], b[1..]);
    } else {
      ThinnedPuyosStrict(a[1..], b[1..], k - 1);
    }
  }

  /** Emptying cells never raises the count, and emptying a puyo lowers it. */
  lemma {:induction false} CountThinned(f: Field, g: Field, x: int, p: Pos)
    requires IsField(f) && IsField(g) && 0 <= x <= FIELD_WIDTH
    requires forall y, xx :: 0 <= y < FIELD_HEIGHT && 0 <= xx < FIELD_WIDTH ==> g[y][xx] == f[y][xx] || g[y][xx] == Empty
    ensures CountFrom(g, x) <= CountFrom(f, x)
    ensures InField(p) && x <= p.x && f[p.y][p.x] != Empty && g[p.y][p.x] == Empty ==> CountFrom(g, x) < CountFrom(f, x)
    decreases FIELD_WIDTH - x
  {
    if x < FIELD_WIDTH {
      assert Thinned(Column(f, x), Column(g, x));
      ThinnedPuyos(Column(f, x), Column(g, x));
      if InField(p) && x == p.x && f[p.y][p.x] != Empty && g[p.y][p.x] == Empty {
        ThinnedPuyosStrict(Column(f, x), Column(g, x), p.y);
      }
      CountThinned(f, g, x + 1, p);
    }
  }

  /** An erase pass that empties something strictly lowers the number of puyos;
      this is why the chain loop ends. */
  lemma EraseDecreases(f: Field)
    requires IsField(f) && ErasedCells(f) != {}
    ensures Count(Erase(f)) < Count(f)
  {
    var p :| p in ErasedCells(f);
    CountThinned(f, Erase(f), 0, p);
  }

  lemma SubsetSize<T>(a: set<T>, b: set<T>)
    requires a <= b
    ensures |a| <= |b|
  {
    assert b == a + (b - a);
  }

  /** A field with fewer than four puyos has nothing to erase. */
  lemma FewPuyosNeverErase(f: Field, cells: set<Pos>)
    requires IsField(f) && |cells| < 4
    requires forall p :: InField(p) && At(f, p) != Empty ==> p in cells
    ensures ErasedCells(f) == {}
  {
    forall p | p in ErasedCells(f)
      ensures false
    {
      forall q | q in Group(f, p)
        ensures q in cells
      {
        LinkedSameCell(f, p, q);
      }
      SubsetSize(Group(f, p), cells);
    }
  }

  /** Whenever a pass erases something it erases at least four cells: every member
      of an erasable cell's group is erasable too. */
  lemma ErasedAtLeastFour(f: Field)
    requires IsField(f) && ErasedCells(f) != {}
    ensures |ErasedCells(f)| >= 4
  {
    var p :| p in ErasedCells(f);
    forall q | q in Group(f, p)
      ensures q in ErasedCells(f)
    {
      LinkedSameCell(f, p, q);
      GroupOfMember(f, p, q);
    }
    SubsetSize(Group(f, p), ErasedCells(f));
  }

  /** Four puyos of one colour side by side in one row, on an otherwise empty
      field, are exactly the cells one pass erases. */
  lemma FourInARowErased(f: Field, y: int, x: int, c: Color)
    requires IsField(f) && 0 <= y < FIELD_HEIGHT && 0 <= x && x + 3 < FIELD_WIDTH
    requires forall p :: InField(p) ==> At(f, p) == if p.y == y && x <= p.x <= x + 3 then Puyo(c) else Empty
    ensures ErasedCells(f) == {Pos(y, x), Pos(y, x + 1), Pos(y, x + 2), Pos(y, x + 3)}
    ensures |ErasedCells(f)| == 4
  {
    var a, b, d, e := Pos(y, x), Pos(y, x + 1), Pos(y, x + 2), Pos(y, x + 3);
    var four := {a, b, d, e};
    assert |four| == 4;
    LinkedSelf(f, a);
    LinkedStep(f, a, a, b);
    LinkedStep(f, a, b, d);
    LinkedStep(f, a, d, e);
    assert four <= Group(f, a);
    SubsetSize(four, Group(f, a));
    forall q | q in four
      ensures q in ErasedCells(f)
    {
      GroupOfMember(f, a, q);
    }
    forall p | p in ErasedCells(f)
      ensures p in four
    {
      assert InField(p) && At(f, p) != Empty;
      RowMember(p, y, x);
    }
  }

  lemma RowMember(p: Pos, y: int, x: int)
    requires p.y == y && x <= p.x <= x + 3
    ensures p in {Pos(y, x), Pos(y, x + 1), Pos(y, x + 2), Pos(y, x + 3)}
  {
  }

  // ---------------------------------------------------------------------------
  // The chain
  // ---------------------------------------------------------------------------

  /** The outcome of a chain: the field it ends on and how many cells each level
      erased. */
  datatype Resolution = Resolution(field: Field, erased: seq<int>)

  /** The number of cells one erase pass empties. */
  ghost function ErasedCount(f: Field): nat
    requires IsField(f)
  {
    |ErasedCells(f)|
  }

  /** One level of a chain: erase, then settle. */
  ghost function Step(f: Field): (g: Field)
    requires IsField(f)
    ensures IsField(g)
  {
    Gravity(Erase(f))
  }

  /** A level that erases something leaves fewer puyos; this is why a chain ends. */
  lemma StepDecreases(f: Field)
    requires IsField(f) && ErasedCount(f) > 0
    ensures Count(Step(f)) < Count(f)
  {
    EraseDecreases(f);
    GravityKeepsCount(Erase(f));
  }

  /** The chain loop as a specification: erase; if nothing was erased stop,
      otherwise settle and go again. */
  ghost function Resolve(f: Field): (r: Resolution)
    requires IsField(f)
    ensures IsField(r.field)
    decreases Count(f)
  {
    if ErasedCount(f) == 0 then Resolution(f, [])
    else
      StepDecreases(f);
      var rest := Resolve(Step(f));
      Resolution(rest.field, [ErasedCount(f)] + rest.erased)
  }

  /** A chain ends on a field with nothing left to erase, every level erases at
      least four cells, and there is no level at all exactly when the first pass
      erases nothing. */
  lemma {:induction false} ResolveProperties(f: Field)
    requires IsField(f)
    ensures ErasedCount(Resolve(f).field) == 0
    ensures AtLeastFour(Resolve(f).erased)
    ensures Resolve(f).erased == [] <==> ErasedCount(f) == 0
    decreases Count(f)
  {
    if ErasedCount(f) == 0 {
      ResolveBase(f);
    } else {
      StepDecreases(f);
      ResolveProperties(Step(f));
      ResolveUnfold(f);
      ErasedAtLeastFour(f);
      ConsAtLeastFour(ErasedCount(f), Resolve(Step(f)).erased, Resolve(f).erased);
    }
  }

  predicate AtLeastFour(s: seq<int>) {
    forall k :: 0 <= k < |s| ==> s[k] >= 4
  }

  lemma ConsAtLeastFour(e: int, rest: seq<int>, s: seq<int>)
    requires e >= 4 && AtLeastFour(rest) && s == [e] + rest
    ensures AtLeastFour(s) && s != []
  {
  }

  /** A field with nothing to erase is its own chain, with no level. */
  lemma ResolveBase(f: Field)
    requires IsField(f) && ErasedCount(f) == 0
    ensures Resolve(f) == Resolution(f, [])
  {
  }

  /** One level of the chain unfolded. */
  lemma ResolveUnfold(f: Field)
    requires IsField(f) && ErasedCount(f) > 0
    ensures Resolve(f).field == Resolve(Step(f)).field
    ensures Resolve(f).erased == [ErasedCount(f)] + Resolve(Step(f)).erased
  {
  }

  function Sum(s: seq<int>): int {
    if s == [] then 0 else Sum(s[..|s| - 1]) + s[|s| - 1]
  }

  lemma SumAppend(s: seq<int>, e: int)
    ensures Sum(s + [e]) == Sum(s) + e
  {
    assert (s + [e])[..|s|] == s;
  }

  /** Score of a chain of n levels: level k adds 100 * k. */
  function ChainScore(n: nat): nat {
    if n == 0 then 0 else ChainScore(n - 1) + 100 * n
  }

  /** n levels score 100 * n(n+1)/2 in total (300 for two). */
  lemma {:induction false} ChainScoreClosed(n: nat)
    ensures ChainScore(n) == 50 * n * (n + 1)
  {
    if n > 0 {
      ChainScoreClosed(n - 1);
    }
  }

  /** The state of the chain loop after the levels in done: what is left of the
      chain of field is the chain of current. */
  ghost predicate ChainState(field: Field, current: Field, done: seq<int>, chain: int, totalErased: int, scoreGain: int)
  {
    IsField(field) && IsField(current) &&
    Resolve(field).field == Resolve(current).field &&
    Resolve(field).erased == done + Resolve(current).erased &&
    chain == |done| && totalErased == Sum(done) && scoreGain == ChainScore(chain)
  }

  lemma ChainLevel(field: Field, current: Field, done: seq<int>, chain: int, totalErased: int, scoreGain: int, next: Field)
    requires ChainState(field, current, done, chain, totalErased, scoreGain)
    requires ErasedCount(current) > 0 && next == Step(current)
    ensures ChainState(field, next, done + [ErasedCount(current)], chain + 1,
                       totalErased + ErasedCount(current), scoreGain + 100 * (chain + 1))
  {
    ResolveUnfold(current);
    LevelsAppend(Resolve(field).erased, done, Resolve(current).erased, ErasedCount(current), Resolve(next).erased);
  }

  lemma LevelsAppend(all: seq<int>, done: seq<int>, left: seq<int>, e: int, rest: seq<int>)
    requires all == done + left && left == [e] + rest
    ensures all == (done + [e]) + rest
    ensures Sum(done + [e]) == Sum(done) + e
  {
    assert done + ([e] + rest) == (done + [e]) + rest;
    SumAppend(done, e);
  }

  lemma ChainEnd(field: Field, current: Field, done: seq<int>, chain: int, totalErased: int, scoreGain: int)
    requires ChainState(field, current, done, chain, totalErased, scoreGain)
    requires ErasedCount(current) == 0
    ensures current == Resolve(field).field
    ensures chain == |Resolve(field).erased| && totalErased == Sum(Resolve(field).erased)
  {
    assert done + Resolve(current).erased == done;
  }

  lemma StepIsGravityErase(f: Field, erased: Field, next: Field)
    requires IsField(f) && erased == Erase(f) && next == Gravity(erased)
    ensures next == Step(f)
  {
  }

  /** One pass of the chain loop: erase the groups of four or more and, when
      something was erased, let the rest fall. */
  method ErasePass(current: Field) returns (erased: bool, erasedCount: int, next: Field)
    requires IsField(current)
    ensures erasedCount == ErasedCount(current)
    ensures erased <==> erasedCount > 0
    ensures erased ==> next == Step(current)
  {
    var newField;
    newField, erased, erasedCount := CheckConnections(current);
    next := current;
    if erased {
      next := ApplyGravity(newField);
      StepIsGravityErase(current, newField, next);
    }
  }

  /** One turn of the chain loop: stop when a pass erases nothing, otherwise count
      one more level and go on with the settled field. */
  method ChainPass(ghost field: Field, current: Field, ghost done: seq<int>, chain: int, totalErased: int, scoreGain: int)
    returns (stop: bool, next: Field, chain': int, totalErased': int, scoreGain': int, ghost done': seq<int>)
    requires ChainState(field, current, done, chain, totalErased, scoreGain)
    ensures stop ==> ErasedCount(current) == 0
    ensures !stop ==> ChainState(field, next, done', chain', totalErased', scoreGain') && Count(next) < Count(current)
  {
    var erased, erasedCount;
    erased, erasedCount, next := ErasePass(current);
    stop := !erased;
    chain', totalErased', scoreGain', done' := chain, totalErased, scoreGain, done;
    if erased {
      StepDecreases(current);
      ChainLevel(field, current, done, chain, totalErased, scoreGain, next);
      chain' := chain + 1;
      totalErased' := totalErased + erasedCount;
      scoreGain' := scoreGain + 100 * chain';
      done' := done + [erasedCount];
    }
  }

  /** The chain loop of a lock: keeps erasing and settling until a pass erases
      nothing, counting the levels and the erased cells and adding 100 * k to the
      score at level k. */
  method ResolveChain(field: Field) returns (finalField: Field, chain: int, totalErased: int, scoreGain: int)
    requires IsField(field)
    ensures finalField == Resolve(field).field
    ensures chain == |Resolve(field).erased| && totalErased == Sum(Resolve(field).erased)
    ensures scoreGain == ChainScore(chain)
  {
    var current := field;
    chain, totalErased, scoreGain := 0, 0, 0;
    ghost var done: seq<int> := [];
    while true
      invariant ChainState(field, current, done, chain, totalErased, scoreGain)
      decreases Count(current)
    {
      var stop, next, chain', totalErased', scoreGain', done' := ChainPass(field, current, done, chain, totalErased, scoreGain);
      if stop {
        break;
      }
      current, chain, totalErased, scoreGain, done := next, chain', totalErased', scoreGain', done';
    }
    ChainEnd(field, current, done, chain, totalErased, scoreGain);
    finalField := current;
  }

  // ---------------------------------------------------------------------------
  // Outgoing nuisance and netting
  // ---------------------------------------------------------------------------

  /** The bonus table indexed by the chain length, capped at its last entry. */
  const CHAIN_POWER: seq<nat> := [0, 8, 16, 32, 64, 96, 128, 160]
  const ALL_CLEAR_BONUS: nat := 30

  function ChainBonus(chain: int): nat
    requires chain >= 0
  {
    CHAIN_POWER[if chain < |CHAIN_POWER| - 1 then chain else |CHAIN_POWER| - 1]
  }

  /** Nuisance puyos a lock sends: nothing without a chain, otherwise
      (erased / 4 + bonus) / 70, both divisions rounding down; plus 30 when the
      field ends empty. */
  function Outgoing(chain: int, totalErased: int, allClear: bool): (r: int)
    ensures chain <= 0 ==> r == if allClear then ALL_CLEAR_BONUS else 0
    ensures totalErased >= 0 ==> r >= if allClear then ALL_CLEAR_BONUS else 0
  {
    (if chain > 0 then (totalErased / 4 + ChainBonus(chain)) / 70 else 0)
    + (if allClear then ALL_CLEAR_BONUS else 0)
  }

  lemma MulAtLeast(d: nat, k: int)
    requires k >= 1
    ensures d * k >= d
  {
  }

  lemma DivMonotone(a: nat, b: nat, d: nat)
    requires a <= b && d > 0
    ensures a / d <= b / d
  {
    var qa, qb := a / d, b / d;
    assert a == d * qa + a % d && 0 <= a % d < d;
    assert b == d * qb + b % d && 0 <= b % d < d;
    if qa > qb {
      MulAtLeast(d, qa - qb);
    }
  }

  /** The outgoing amount: zero without a chain or all clear, exactly 30 more with
      an all clear, never decreasing in the number of erased cells or in the chain
      length, and the bonus table stops growing after seven levels. */
  lemma {:induction false} OutgoingProperties(chain: nat, totalErased: nat, allClear: bool)
    ensures chain == 0 ==> Outgoing(chain, totalErased, allClear) == (if allClear then 30 else 0)
    ensures Outgoing(chain, totalErased, true) == Outgoing(chain, totalErased, false) + 30
    ensures forall t :: totalErased <= t ==> Outgoing(chain, totalErased, allClear) <= Outgoing(chain, t, allClear)
    ensures forall c :: 0 < chain <= c ==> Outgoing(chain, totalErased, allClear) <= Outgoing(c, totalErased, allClear)
    ensures chain >= 7 ==> Outgoing(chain, totalErased, allClear) == Outgoing(7, totalErased, allClear)
  {
    forall t | totalErased <= t
      ensures Outgoing(chain, totalErased, allClear) <= Outgoing(chain, t, allClear)
    {
      if chain > 0 {
        DivMonotone(totalErased, t, 4);
        DivMonotone(totalErased / 4 + ChainBonus(chain), t / 4 + ChainBonus(chain), 70);
      }
    }
    forall c | 0 < chain <= c
      ensures Outgoing(chain, totalErased, allClear) <= Outgoing(c, totalErased, allClear)
    {
      assert ChainBonus(chain) <= ChainBonus(c);
      DivMonotone(totalErased / 4 + ChainBonus(chain), totalErased / 4 + ChainBonus(c), 70);
    }
  }

  /** Worked values: one level of four sends nothing; a seven-level chain of
      forty cells sends two; an all clear without a chain sends thirty. */
  lemma OutgoingExamples()
    ensures Outgoing(1, 4, false) == 0
    ensures Outgoing(2, 8, false) == 0
    ensures Outgoing(7, 40, false) == 2
    ensures Outgoing(0, 0, true) == 30
  {
  }

  /** Netting against the incoming counter: the new counter is incoming - outgoing
      when that is not negative; otherwise the counter becomes 0 and the excess
      outgoing - incoming is what is left to send. */
  function Net(incoming: int, outgoing: int): (r: (int, int))
    ensures r.0 >= 0 && r.1 >= 0
    ensures r.0 - r.1 == incoming - outgoing
    ensures r.0 == 0 || r.1 == 0
  {
    var remaining := incoming - outgoing;
    if remaining < 0 then (0, -remaining) else (remaining, 0)
  }

  /** Netting is determined by its contract: the only split of incoming - outgoing
      into a non-negative counter and a non-negative excess, one of them zero; the
      counter is max(0, incoming - outgoing). */
  lemma NetUnique(incoming: int, outgoing: int, remaining: int, excess: int)
    requires remaining >= 0 && excess >= 0
    requires remaining - excess == incoming - outgoing && (remaining == 0 || excess == 0)
    ensures Net(incoming, outgoing) == (remaining, excess)
    ensures remaining == if incoming > outgoing then incoming - outgoing else 0
  {
  }

  // ---------------------------------------------------------------------------
  // Materialising pending nuisance
  // ---------------------------------------------------------------------------

  /** The row the scan stops at in column x, starting from row y and going down:
      the first empty cell, or FIELD_HEIGHT when there is none. */
  function FirstEmptyRow(f: Field, x: int, y: int): (r: int)
    requires IsField(f) && 0 <= x < FIELD_WIDTH && 0 <= y <= FIELD_HEIGHT
    ensures y <= r <= FIELD_HEIGHT
    ensures r < FIELD_HEIGHT ==> f[r][x] == Empty
    ensures forall yy :: y <= yy < r ==> f[yy][x] != Empty
    decreases FIELD_HEIGHT - y
  {
    if y == FIELD_HEIGHT then FIELD_HEIGHT
    else if f[y][x] == Empty then y
    else FirstEmptyRow(f, x, y + 1)
  }

  /** One nuisance puyo dropped into column x: the first empty cell from the top
      becomes purple; a full column is left as it is. */
  function DropNuisance(f: Field, x: int): (r: Field)
    requires IsField(f) && 0 <= x < FIELD_WIDTH
    ensures IsField(r)
  {
    var y := FirstEmptyRow(f, x, 0);
    if y < FIELD_HEIGHT then SetCell(f, y, x, Puyo(Purple)) else f
  }

  predicate ValidColumns(columns: seq<int>) {
    forall i :: 0 <= i < |columns| ==> 0 <= columns[i] < FIELD_WIDTH
  }

  /** Nuisance puyos dropped one after another into the given columns. */
  function Materialized(f: Field, columns: seq<int>): (r: Field)
    requires IsField(f) && ValidColumns(columns)
    ensures IsField(r)
  {
    if columns == [] then f
    else DropNuisance(Materialized(f, columns[..|columns| - 1]), columns[|columns| - 1])
  }

  /** The scan of one column: walks down from row 0 and turns the first empty cell
      purple. */
  method DropOne(field: Field, x: int) returns (newField: Field)
    requires IsField(field) && 0 <= x < FIELD_WIDTH
    ensures newField == DropNuisance(field, x)
  {
    newField := field;
    for y := 0 to FIELD_HEIGHT
      invariant newField == field
      invariant FirstEmptyRow(field, x, 0) == FirstEmptyRow(field, x, y)
    {
      if newField[y][x] == Empty {
        newField := newField[y := newField[y][x := Puyo(Purple)]];
        return;
      }
    }
  }

  /** The materialisation loop: count nuisance puyos, each into the column the
      oracle names. */
  method MaterializeNuisance(field: Field, count: nat, columns: seq<int>) returns (newField: Field)
    requires IsField(field) && ValidColumns(columns) && count <= |columns|
    ensures newField == Materialized(field, columns[..count])
  {
    newField := field;
    for i := 0 to count
      invariant newField == Materialized(field, columns[..i])
    {
      assert columns[..i + 1][..i] == columns[..i];
      newField := DropOne(newField, columns[i]);
    }
  }

  /** Dropping a nuisance puyo never changes an occupied cell; a changed cell was
      empty and is now purple. */
  lemma {:induction false} MaterializedKeepsPuyos(f: Field, columns: seq<int>)
    requires IsField(f) && ValidColumns(columns)
    ensures forall y, x :: 0 <= y < FIELD_HEIGHT && 0 <= x < FIELD_WIDTH ==>
              var r := Materialized(f, columns);
              r[y][x] == f[y][x] || (f[y][x] == Empty && r[y][x] == Puyo(Purple))
  {
    if columns != [] {
      MaterializedKeepsPuyos(f, columns[..|columns| - 1]);
    }
  }

  lemma {:induction false} PuyosOfFilled(c: seq<Cell>, k: int, v: Cell)
    requires 0 <= k < |c| && c[k] == Empty && v != Empty
    ensures |Puyos(c[k := v])| == |Puyos(c)| + 1
  {
    if k == 0 {
      assert c[k := v][1..] == c[1..];
    } else {
      assert c[k := v][1..] == c[1..][k - 1 := v];
      PuyosOfFilled(c[1..], k - 1, v);
    }
  }

  lemma {:induction false} CountOfFilled(f: Field, y: int, x0: int, x: int)
    requires IsField(f) && 0 <= y < FIELD_HEIGHT && 0 <= x0 < FIELD_WIDTH && 0 <= x <= FIELD_WIDTH
    requires f[y][x0] == Empty
    ensures CountFrom(SetCell(f, y, x0, Puyo(Purple)), x) == CountFrom(f, x) + (if x <= x0 then 1 else 0)
    decreases FIELD_WIDTH - x
  {
    var g := SetCell(f, y, x0, Puyo(Purple));
    if x < FIELD_WIDTH {
      if x == x0 {
        assert Column(g, x) == Column(f, x)[y := Puyo(Purple)];
        PuyosOfFilled(Column(f, x), y, Puyo(Purple));
      } else {
        assert Column(g, x) == Column(f, x);
      }
      CountOfFilled(f, y, x0, x + 1);
    }
  }

  /** Each dropped nuisance puyo adds exactly one puyo, unless its column is full. */
  lemma DropNuisanceCount(f: Field, x: int)
    requires IsField(f) && 0 <= x < FIELD_WIDTH
    ensures Count(DropNuisance(f, x)) == Count(f) + (if FirstEmptyRow(f, x, 0) < FIELD_HEIGHT then 1 else 0)
  {
    var y := FirstEmptyRow(f, x, 0);
    if y < FIELD_HEIGHT {
      CountOfFilled(f, y, x, 0);
    }
  }

  /** No more puyos are added than are pending. */
  lemma {:induction false} MaterializedCount(f: Field, columns: seq<int>)
    requires IsField(f) && ValidColumns(columns)
    ensures Count(f) <= Count(Materialized(f, columns)) <= Count(f) + |columns|
  {
    if columns != [] {
      var prefix := columns[..|columns| - 1];
      MaterializedCount(f, prefix);
      DropNuisanceCount(Materialized(f, prefix), columns[|columns| - 1]);
    }
  }

  /** On a settled column with at least two empty cells, the nuisance puyo is put in
      row 0 and stays there with an empty cell under it: it is placed on top of the
      field, not dropped onto the stack. */
  lemma NuisanceLandsOnTop(f: Field, x: int)
    requires IsField(f) && 0 <= x < FIELD_WIDTH
    requires Settled(Column(f, x)) && |Puyos(Column(f, x))| < FIELD_HEIGHT - 1
    ensures DropNuisance(f, x)[0][x] == Puyo(Purple)
    ensures DropNuisance(f, x)[1][x] == Empty
  {
    var c := Column(f, x);
    assert c[0..] == c;
    if c[1] != Empty {
      assert forall i :: 0 <= i < |c| - 1 ==> c[1..][i] != Empty;
      PuyosOfPuyos(c[1..]);
      PuyosFrom(c, 0);
      assert false;
    }
  }
}
