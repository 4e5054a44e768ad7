/** The game against the computer: both sides share one processing flag, a lock
    writes only cells inside the field, a lock's outgoing nuisance goes straight
    to the other side's counter (there is no netting), and the computer picks its
    move by simulating every column and orientation. */
module AIGame {
  import opened PuyoTypes
  import opened Movement
  import opened Falling
  import opened Connections
  import opened Chain
  import OnlineGame

  /** A puyo position inside the field. */
  predicate InBounds(q: PlayerPuyo) {
    0 <= q.y < FIELD_HEIGHT && 0 <= q.x < FIELD_WIDTH
  }

  /** The bounds-guarded lock of this mode (also the scratch placement of the move
      search): a copy of the field with each puyo written only if its cell lies
      inside the field, the axis first and the child second. */
  function PlaceInBounds(f: Field, p: PlayerState): (r: Field)
    requires IsField(f)
    ensures IsField(r)
    ensures forall y, x :: 0 <= y < FIELD_HEIGHT && 0 <= x < FIELD_WIDTH ==>
              r[y][x] == if InBounds(p.puyo2) && y == p.puyo2.y && x == p.puyo2.x then Puyo(p.puyo2.color)
                         else if InBounds(p.puyo1) && y == p.puyo1.y && x == p.puyo1.x then Puyo(p.puyo1.color)
                         else f[y][x]
  {
    var f1 := if InBounds(p.puyo1) then SetCell(f, p.puyo1.y, p.puyo1.x, Puyo(p.puyo1.color)) else f;
    if InBounds(p.puyo2) then SetCell(f1, p.puyo2.y, p.puyo2.x, Puyo(p.puyo2.color)) else f1
  }

  /** On every pair the online game can hold, the guarded lock writes the same
      cells as the online lock. */
  lemma PlaceInBoundsIsLock(f: Field, p: PlayerState)
    requires IsField(f) && OnlineGame.PairInBounds(p)
    ensures PlaceInBounds(f, p) == OnlineGame.Lock(f, p)
  {
    var a, b := PlaceInBounds(f, p), OnlineGame.Lock(f, p);
    forall y | 0 <= y < FIELD_HEIGHT
      ensures a[y] == b[y]
    {
    }
  }

  // ---------------------------------------------------------------------------
  // Simulated hard drop
  // ---------------------------------------------------------------------------

  /** Where a pair comes to rest when it keeps falling one row at a time while
      CanMove accepts the next row. */
  function Landing(f: Field, p: PlayerState): (r: PlayerState)
    requires IsField(f)
    ensures var lowered := Lowered(r); !CanMove(f, lowered.puyo1, lowered.puyo2)
    ensures r.puyo1.x == p.puyo1.x && r.puyo2.x == p.puyo2.x
    ensures r.puyo1.color == p.puyo1.color && r.puyo2.color == p.puyo2.color
    ensures r.puyo1.y - p.puyo1.y == r.puyo2.y - p.puyo2.y >= 0
    ensures r == p || CanMove(f, r.puyo1, r.puyo2)
    decreases FIELD_HEIGHT - p.puyo1.y
  {
    var lowered := Lowered(p);
    if CanMove(f, lowered.puyo1, lowered.puyo2) then Landing(f, lowered) else p
  }

  /** The simulated drop loop: both puyos advance one row per step. */
  method HardDrop(field: Field, p: PlayerState) returns (temp: PlayerState)
    requires IsField(field)
    ensures temp == Landing(field, p)
  {
    temp := p;
    while CanMove(field, Lowered(temp).puyo1, Lowered(temp).puyo2)
      invariant Landing(field, temp) == Landing(field, p)
      decreases FIELD_HEIGHT - temp.puyo1.y
    {
      temp := Lowered(temp);
    }
  }

  // ---------------------------------------------------------------------------
  // Candidate evaluation
  // ---------------------------------------------------------------------------

  /** The value of a simulated chain: level k adds ten per erased cell plus
      100 * k. */
  ghost function Evaluation(f: Field): (r: int)
    requires IsField(f)
    ensures r >= 140 * |Resolve(f).erased|
    ensures r == 0 <==> Resolve(f).erased == []
  {
    ResolveProperties(f);
    SumAtLeastFour(Resolve(f).erased);
    ChainScoreAtLeast(|Resolve(f).erased|);
    10 * Sum(Resolve(f).erased) + ChainScore(|Resolve(f).erased|)
  }

  lemma ChainScoreAtLeast(n: nat)
    ensures ChainScore(n) >= 100 * n
  {
  }

  lemma {:induction false} SumAtLeastFour(s: seq<int>)
    requires AtLeastFour(s)
    ensures Sum(s) >= 4 * |s|
  {
    if s != [] {
      SumAtLeastFour(s[..|s| - 1]);
    }
  }

  /** An evaluation is never negative, it is zero exactly when the first pass
      erases nothing, and any chain is worth at least 140 (four cells and one
      level). */
  lemma EvaluationProperties(f: Field)
    requires IsField(f)
    ensures Evaluation(f) >= 0
    ensures Evaluation(f) == 0 <==> ErasedCount(f) == 0
    ensures ErasedCount(f) > 0 ==> Evaluation(f) >= 140
  {
    var r := Resolve(f);
    ResolveProperties(f);
    SumAtLeastFour(r.erased);
    ChainScoreClosed(|r.erased|);
  }

  /** The simulated chain loop of the move search. */
  method EvaluateChain(field: Field) returns (evaluation: int)
    requires IsField(field)
    ensures evaluation == Evaluation(field)
  {
    evaluation := 0;
    var simulatedChain := 0;
    var tempSimulatedField := field;
    ghost var done: seq<int> := [];
    ghost var totalErased, scoreGain := 0, 0;
    while true
      invariant ChainState(field, tempSimulatedField, done, simulatedChain, totalErased, scoreGain)
      invariant evaluation == 10 * totalErased + scoreGain
      decreases Count(tempSimulatedField)
    {
      var newField, erased, erasedCount := CheckConnections(tempSimulatedField);
      if !erased {
        ChainEnd(field, tempSimulatedField, done, simulatedChain, totalErased, scoreGain);
        break;
      }
      var next := ApplyGravity(newField);
      StepIsGravityErase(tempSimulatedField, newField, next);
      StepDecreases(tempSimulatedField);
      ChainLevel(field, tempSimulatedField, done, simulatedChain, totalErased, scoreGain, next);
      simulatedChain := simulatedChain + 1;
      evaluation := evaluation + erasedCount * 10 + simulatedChain * 100;
      totalErased, scoreGain := totalErased + erasedCount, scoreGain + 100 * simulatedChain;
      done := done + [erasedCount];
      tempSimulatedField := next;
    }
  }

  // ---------------------------------------------------------------------------
  // Move search, with each candidate a value
  // ---------------------------------------------------------------------------

  /** The pair after n quarter turns of the child about the axis. */
  function TurnedTimes(p: PlayerState, n: nat): (r: PlayerState)
    ensures r.puyo1 == p.puyo1 && r.puyo2.color == p.puyo2.color
    ensures OffsetLength(r) == OffsetLength(p)
  {
    if n == 0 then p else TurnProperties(TurnedTimes(p, n - 1)); Turned(TurnedTimes(p, n - 1))
  }

  /** The candidate for column x and `rotation` quarter turns: the turned pair with
      its axis moved to column x and the child kept at the same offset from it. */
  function Candidate(current: PlayerState, x: int, rotation: nat): PlayerState {
    var turned := TurnedTimes(current, rotation);
    PlayerState(turned.puyo1.(x := x), turned.puyo2.(x := x + (turned.puyo2.x - current.puyo1.x)))
  }

  /** A candidate has the current pair's colours and row of the axis, its axis in
      column x and the child at the same distance from the axis. */
  lemma CandidateProperties(current: PlayerState, x: int, rotation: nat)
    ensures var c := Candidate(current, x, rotation);
            && c.puyo1.x == x && c.puyo1.y == current.puyo1.y
            && c.puyo1.color == current.puyo1.color && c.puyo2.color == current.puyo2.color
            && OffsetLength(c) == OffsetLength(current)
  {
    var t := TurnedTimes(current, rotation);
    var c := Candidate(current, x, rotation);
    assert c.puyo2.x - c.puyo1.x == t.puyo2.x - t.puyo1.x;
    assert c.puyo2.y - c.puyo1.y == t.puyo2.y - t.puyo1.y;
  }

  /** The four orientations of a column are four different placements whenever the
      child is not on the axis. */
  lemma CandidatesDistinct(current: PlayerState, x: int)
    requires current.puyo2.x != current.puyo1.x || current.puyo2.y != current.puyo1.y
    ensures forall r1: nat, r2: nat :: r1 < r2 < 4 ==> Candidate(current, x, r1) != Candidate(current, x, r2)
  {
    var dx := current.puyo2.x - current.puyo1.x;
    var dy := current.puyo2.y - current.puyo1.y;
    var c0, c1, c2, c3 := Candidate(current, x, 0), Candidate(current, x, 1), Candidate(current, x, 2), Candidate(current, x, 3);
    assert c0.puyo2.x - x == dx && c0.puyo2.y - c0.puyo1.y == dy;
    assert c1.puyo2.x - x == -dy && c1.puyo2.y - c1.puyo1.y == dx;
    assert c2.puyo2.x - x == -dx && c2.puyo2.y - c2.puyo1.y == -dy;
    assert c3.puyo2.x - x == dy && c3.puyo2.y - c3.puyo1.y == -dx;
  }

  /** Candidate number i of the search order: columns 0..5, and in each column the
      rotations 0..3. */
  function CandidateAt(current: PlayerState, i: nat): PlayerState {
    Candidate(current, i / 4, i % 4)
  }

  ghost function Landed(f: Field, current: PlayerState, i: nat): PlayerState
    requires IsField(f)
  {
    Landing(f, CandidateAt(current, i))
  }

  ghost function CandidateScore(f: Field, current: PlayerState, i: nat): int
    requires IsField(f)
  {
    Evaluation(PlaceInBounds(f, Landed(f, current, i)))
  }

  /** The evaluations of all 24 candidates, in search order. */
  ghost function Scores(f: Field, current: PlayerState): (s: seq<int>)
    requires IsField(f)
  {
    seq(4 * FIELD_WIDTH, i requires 0 <= i => CandidateScore(f, current, i))
  }

  /** The selection rule over evaluations in search order: start from -1 and take a
      candidate only when it scores strictly more; the result is the chosen index
      (-1 when none) and its evaluation. */
  function Select(scores: seq<int>): (r: (int, int))
    ensures -1 <= r.0 < |scores|
    ensures 0 <= r.0 ==> r.1 == scores[r.0]
    ensures r.0 == -1 ==> r.1 == -1
  {
    if scores == [] then (-1, -1)
    else
      var prev := Select(scores[..|scores| - 1]);
      if scores[|scores| - 1] > prev.1 then (|scores| - 1, scores[|scores| - 1]) else prev
  }

  /** Over non-negative evaluations the selection finds the first maximum: it is one
      of the candidates, none scores more, every earlier candidate scores less (an
      equal score never displaces an earlier one), and the first candidate is
      always taken. */
  lemma {:induction false} SelectProperties(scores: seq<int>)
    requires forall i :: 0 <= i < |scores| ==> scores[i] >= 0
    ensures scores == [] ==> Select(scores) == (-1, -1)
    ensures scores != [] ==> 0 <= Select(scores).0 < |scores| && Select(scores).1 == scores[Select(scores).0]
    ensures forall i :: 0 <= i < |scores| ==> scores[i] <= Select(scores).1
    ensures forall i :: 0 <= i < Select(scores).0 ==> scores[i] < Select(scores).1
    ensures |scores| == 1 ==> Select(scores).0 == 0
  {
    if scores != [] {
      var prefix := scores[..|scores| - 1];
      SelectProperties(prefix);
      assert forall i :: 0 <= i < |prefix| ==> prefix[i] == scores[i];
    }
  }

  /** When every candidate scores the same the first one is selected. */
  lemma SelectFirstOfTies(scores: seq<int>)
    requires scores != [] && forall i :: 0 <= i < |scores| ==> scores[i] == scores[0] >= 0
    ensures Select(scores) == (0, scores[0])
  {
    SelectProperties(scores);
  }

  /** The move the search settles on: the landed position of the selected
      candidate, or the current pair when none was selected. */
  ghost function Chosen(f: Field, current: PlayerState): PlayerState
    requires IsField(f)
  {
    var r := Select(Scores(f, current));
    if 0 <= r.0 then Landed(f, current, r.0) else current
  }

  lemma PrefixExtend(s: seq<int>, i: nat, e: int)
    requires i < |s| && s[i] == e
    ensures s[..i] + [e] == s[..i + 1]
  {
  }

  /** One candidate of the search: turn the pair, move its axis to column x keeping
      the child's offset, drop it, place it in a scratch copy of the field and
      evaluate the chain there. */
  method SimulateCandidate(currentField: Field, currentPuyo: PlayerState, x: int, rotation: int)
    returns (tempPuyo: PlayerState, evaluation: int)
    requires IsField(currentField) && 0 <= x < FIELD_WIDTH && 0 <= rotation < 4
    ensures tempPuyo == Landed(currentField, currentPuyo, 4 * x + rotation)
    ensures evaluation == CandidateScore(currentField, currentPuyo, 4 * x + rotation)
  {
    var simulatedPuyo := currentPuyo;
    for turn := 0 to rotation
      invariant simulatedPuyo == TurnedTimes(currentPuyo, turn)
    {
      simulatedPuyo := PlayerState(simulatedPuyo.puyo1, TurnedChild(simulatedPuyo));
    }
    simulatedPuyo := PlayerState(simulatedPuyo.puyo1.(x := x),
                                 simulatedPuyo.puyo2.(x := x + (simulatedPuyo.puyo2.x - currentPuyo.puyo1.x)));
    ghost var i := 4 * x + rotation;
    assert i / 4 == x && i % 4 == rotation;
    assert simulatedPuyo == CandidateAt(currentPuyo, i);
    tempPuyo := HardDrop(currentField, simulatedPuyo);
    var simulatedField := PlaceInBounds(currentField, tempPuyo);
    evaluation := EvaluateChain(simulatedField);
  }

  /** Selecting over one more evaluation: the new candidate is taken only when it
      scores strictly more than the best so far. */
  lemma SelectAppend(scores: seq<int>, e: int)
    ensures Select(scores + [e]) == if e > Select(scores).1 then (|scores|, e) else Select(scores)
  {
    assert (scores + [e])[..|scores|] == scores;
  }

  /** The state of the search after the first n candidates: their evaluations, and
      the index, evaluation and landed pair of the one selected so far (the input
      pair while none is). */
  ghost predicate Searched(f: Field, current: PlayerState, n: nat, scores: seq<int>,
                           bestIndex: int, maxEvaluation: int, bestMove: PlayerState)
    requires IsField(f) && n <= 4 * FIELD_WIDTH
  {
    && scores == Scores(f, current)[..n]
    && Select(scores) == (bestIndex, maxEvaluation)
    && bestMove == if 0 <= bestIndex then Landed(f, current, bestIndex) else current
  }

  /** One step of the search: simulate candidate (x, rotation) and keep it when it
      beats the best so far. */
  method Consider(currentField: Field, currentPuyo: PlayerState, x: int, rotation: int,
                  bestMove: PlayerState, maxEvaluation: int, ghost scores: seq<int>, ghost bestIndex: int)
    returns (bestMove': PlayerState, maxEvaluation': int, ghost scores': seq<int>, ghost bestIndex': int)
    requires IsField(currentField) && 0 <= x < FIELD_WIDTH && 0 <= rotation < 4
    requires Searched(currentField, currentPuyo, 4 * x + rotation, scores, bestIndex, maxEvaluation, bestMove)
    ensures Searched(currentField, currentPuyo, 4 * x + rotation + 1, scores', bestIndex', maxEvaluation', bestMove')
  {
    ghost var i := 4 * x + rotation;
    var tempPuyo, evaluation := SimulateCandidate(currentField, currentPuyo, x, rotation);
    PrefixExtend(Scores(currentField, currentPuyo), i, evaluation);
    SelectAppend(scores, evaluation);
    scores' := scores + [evaluation];
    bestMove', maxEvaluation', bestIndex' := bestMove, maxEvaluation, bestIndex;
    if evaluation > maxEvaluation {
      maxEvaluation' := evaluation;
      bestMove' := tempPuyo;
      bestIndex' := i;
    }
  }

  /** findBestAIMove with every candidate a fresh value: each orientation is turned
      as often as its rotation number says, and the chosen move is the landed
      position of the first best candidate. */
  method FindBestAIMove(currentField: Field, currentPuyo: PlayerState) returns (bestMove: PlayerState)
    requires IsField(currentField)
    ensures bestMove == Chosen(currentField, currentPuyo)
  {
    bestMove := currentPuyo;
    var maxEvaluation := -1;
    ghost var bestIndex := -1;
    ghost var scores: seq<int> := [];
    for x := 0 to FIELD_WIDTH
      invariant Searched(currentField, currentPuyo, 4 * x, scores, bestIndex, maxEvaluation, bestMove)
    {
      for rotation := 0 to 4
        invariant Searched(currentField, currentPuyo, 4 * x + rotation, scores, bestIndex, maxEvaluation, bestMove)
      {
        bestMove, maxEvaluation, scores, bestIndex :=
          Consider(currentField, currentPuyo, x, rotation, bestMove, maxEvaluation, scores, bestIndex);
      }
    }
    assert scores == Scores(currentField, currentPuyo);
  }

  /** Two puyos on an empty field never erase anything. */
  lemma PairOnEmptyFieldScoresZero(p: PlayerState)
    ensures Evaluation(PlaceInBounds(EmptyField(), p)) == 0
  {
    var f := PlaceInBounds(EmptyField(), p);
    var cells := {Pos(p.puyo1.y, p.puyo1.x), Pos(p.puyo2.y, p.puyo2.x)};
    assert |cells| <= 2;
    FewPuyosNeverErase(f, cells);
    EvaluationProperties(f);
  }

  /** On an empty field every candidate scores zero, so the search keeps the very
      first one: the move lands in column 0 with the pair unturned. */
  lemma EmptyFieldPicksFirstColumn(current: PlayerState)
    ensures Chosen(EmptyField(), current) == Landing(EmptyField(), Candidate(current, 0, 0))
    ensures Chosen(EmptyField(), current).puyo1.x == 0
  {
    var scores := Scores(EmptyField(), current);
    forall i | 0 <= i < |scores|
      ensures scores[i] == 0
    {
      PairOnEmptyFieldScoresZero(Landed(EmptyField(), current, i));
    }
    SelectFirstOfTies(scores);
  }

  // ---------------------------------------------------------------------------
  // Move search as written, with the puyos as shared objects
  // ---------------------------------------------------------------------------

  /** A falling puyo as the move search handles it: an object whose position is
      updated in place. */
  class PuyoObject {
    var x: int
    var y: int
    const color: Color

    constructor (x0: int, y0: int, c: Color)
      ensures x == x0 && y == y0 && color == c
    {
      x, y, color := x0, y0, c;
    }

    function Value(): PlayerPuyo
      reads this
    {
      PlayerPuyo(x, y, color)
    }
  }

  /** A pair record holding references to its two puyo objects; copying the record
      copies the references, not the objects. */
  datatype PairRef = PairRef(puyo1: PuyoObject, puyo2: PuyoObject)

  function ValueOf(p: PairRef): PlayerState
    reads p.puyo1, p.puyo2
  {
    PlayerState(p.puyo1.Value(), p.puyo2.Value())
  }

  /** findBestAIMove as written. Each candidate starts from a record copy of the
      current pair, which shares the axis object (and, without rotation, the child
      object) with the caller: setting the candidate's axis column and dropping it
      move the caller's own puyos, and the rotated child's column is left as it was
      because the axis has already been moved when its offset is taken. The move
      returned shares the caller's axis object, which ends in the last column tried. */
  method FindBestAIMoveAsWritten(currentField: Field, currentPuyo: PairRef) returns (bestMove: PairRef)
    requires IsField(currentField) && currentPuyo.puyo1 != currentPuyo.puyo2
    modifies currentPuyo.puyo1, currentPuyo.puyo2
    ensures bestMove.puyo1 == currentPuyo.puyo1
    ensures currentPuyo.puyo1.x == FIELD_WIDTH - 1
    ensures currentPuyo.puyo2.x == old(currentPuyo.puyo2.x)
    ensures bestMove.puyo2 == currentPuyo.puyo2 || fresh(bestMove.puyo2)
  {
    bestMove := currentPuyo;
    var maxEvaluation := -1;
    for x := 0 to FIELD_WIDTH
      invariant bestMove.puyo1 == currentPuyo.puyo1
      invariant bestMove.puyo2 == currentPuyo.puyo2 || fresh(bestMove.puyo2)
      invariant x > 0 ==> currentPuyo.puyo1.x == x - 1
      invariant currentPuyo.puyo2.x == old(currentPuyo.puyo2.x)
    {
      for rotation := 0 to 4
        invariant bestMove.puyo1 == currentPuyo.puyo1
        invariant bestMove.puyo2 == currentPuyo.puyo2 || fresh(bestMove.puyo2)
        invariant rotation > 0 ==> currentPuyo.puyo1.x == x
        invariant currentPuyo.puyo2.x == old(currentPuyo.puyo2.x)
      {
        var simulatedPuyo := currentPuyo;
        if rotation > 0 {
          var dx := simulatedPuyo.puyo2.x - simulatedPuyo.puyo1.x;
          var dy := simulatedPuyo.puyo2.y - simulatedPuyo.puyo1.y;
          var turned := new PuyoObject(simulatedPuyo.puyo1.x - dy, simulatedPuyo.puyo1.y + dx, simulatedPuyo.puyo2.color);
          simulatedPuyo := simulatedPuyo.(puyo2 := turned);
        }
        simulatedPuyo.puyo1.x := x;
        simulatedPuyo.puyo2.x := x + (simulatedPuyo.puyo2.x - currentPuyo.puyo1.x);
        var tempPuyo := simulatedPuyo;
        while CanMove(currentField, tempPuyo.puyo1.Value().(y := tempPuyo.puyo1.y + 1),
                      tempPuyo.puyo2.Value().(y := tempPuyo.puyo2.y + 1))
          invariant tempPuyo.puyo1 == currentPuyo.puyo1 && tempPuyo.puyo1 != tempPuyo.puyo2
          invariant tempPuyo.puyo2 == currentPuyo.puyo2 || fresh(tempPuyo.puyo2)
          invariant currentPuyo.puyo1.x == x && currentPuyo.puyo2.x == old(currentPuyo.puyo2.x)
          modifies tempPuyo.puyo1, tempPuyo.puyo2
          decreases FIELD_HEIGHT - tempPuyo.puyo1.y
        {
          tempPuyo.puyo1.y := tempPuyo.puyo1.y + 1;
          tempPuyo.puyo2.y := tempPuyo.puyo2.y + 1;
        }
        var simulatedField := PlaceInBounds(currentField, ValueOf(tempPuyo));
        var evaluation := EvaluateChain(simulatedField);
        if evaluation > maxEvaluation {
          maxEvaluation := evaluation;
          bestMove := tempPuyo;
        }
      }
    }
  }

  /** The candidate placement as lines 51-60 of the search compute it, taken as a
      value (the sharing of puyo objects is modelled separately): every rotation
      number above zero applies the same single quarter turn. */
  function CandidateAsWritten(current: PlayerState, x: int, rotation: nat): (r: PlayerState)
    ensures r.puyo1 == current.puyo1.(x := x) && r.puyo2.color == current.puyo2.color
    ensures rotation == 0 ==> r.puyo2.x - r.puyo1.x == current.puyo2.x - current.puyo1.x
    ensures rotation == 0 ==> r.puyo2.y == current.puyo2.y
    ensures rotation > 0 ==> r.puyo2.x - r.puyo1.x == -(current.puyo2.y - current.puyo1.y)
    ensures rotation > 0 ==> r.puyo2.y - r.puyo1.y == current.puyo2.x - current.puyo1.x
  {
    var turned := if rotation > 0 then Turned(current) else current;
    PlayerState(turned.puyo1.(x := x), turned.puyo2.(x := x + (turned.puyo2.x - current.puyo1.x)))
  }

  /** Rotations 1, 2 and 3 are the same candidate as written, so the child is never
      tried above or to the other side of the axis by a second or third turn; the
      intended candidate for two turns differs from it whenever the child is not on
      the axis. */
  lemma RotationsCollapse(current: PlayerState, x: int)
    ensures CandidateAsWritten(current, x, 2) == CandidateAsWritten(current, x, 1)
    ensures CandidateAsWritten(current, x, 3) == CandidateAsWritten(current, x, 1)
    ensures CandidateAsWritten(current, x, 0) == Candidate(current, x, 0)
    ensures CandidateAsWritten(current, x, 1) == Candidate(current, x, 1)
    ensures current.puyo2.x != current.puyo1.x || current.puyo2.y != current.puyo1.y ==>
              CandidateAsWritten(current, x, 2) != Candidate(current, x, 2)
  {
    assert TurnedTimes(current, 1) == Turned(current);
    if current.puyo2.x != current.puyo1.x || current.puyo2.y != current.puyo1.y {
      CandidatesDistinct(current, x);
    }
  }

  // ---------------------------------------------------------------------------
  // The lock of this mode
  // ---------------------------------------------------------------------------

  /** The outcome of one side's lock in this mode: the side's new game state and
      pair, the nuisance it adds to the other side, and whether it topped out. */
  datatype Locked = Locked(game: GameState, pair: PlayerState, sent: int, toppedOut: bool)

  /** fixPuyo(isAI) for one side as a specification: the guarded lock; a topped-out
      spawn cell ends the game and nothing else changes; otherwise the chain runs,
      its score is added, the queue advances, and the whole outgoing amount goes to
      the other side. The side's own counter is never netted. */
  ghost function SideFixed(g: GameState, p: PlayerState, drawn: PlayerState): Locked
    requires IsField(g.field) && |g.nextPuyos| > 0
  {
    var placed := PlaceInBounds(g.field, p);
    if placed[0][2] != Empty then Locked(g.(isGameOver := true), p, 0, true)
    else
      var r := Resolve(placed);
      Resolved(g, drawn, r.field, |r.erased|, Sum(r.erased))
  }

  /** The state after a chain of the given length and erased total that ended on
      finalField. */
  function Resolved(g: GameState, drawn: PlayerState, finalField: Field, chain: int, totalErased: int): Locked
    requires IsField(finalField) && |g.nextPuyos| > 0 && chain >= 0
  {
    Locked(g.(field := finalField, score := g.score + ChainScore(chain), nextPuyos := Advance(g.nextPuyos, drawn)),
           g.nextPuyos[0], Outgoing(chain, totalErased, AllEmpty(finalField)), false)
  }

  /** What a lock of this mode does: on top-out only the game-over flag changes and
      nothing is sent; otherwise the field is the stable end of the chain, the
      score grows by 50 * n * (n + 1), the queue advances, the own counter and flag
      are untouched, and the amount sent is never negative and includes the
      all-clear bonus when the field ends empty. */
  lemma SideFixedProperties(g: GameState, p: PlayerState, drawn: PlayerState)
    requires IsField(g.field) && |g.nextPuyos| > 0
    ensures var t := SideFixed(g, p, drawn);
            t.toppedOut <==> PlaceInBounds(g.field, p)[0][2] != Empty
    ensures var t := SideFixed(g, p, drawn);
            t.toppedOut ==> t == Locked(g.(isGameOver := true), p, 0, true)
    ensures var t := SideFixed(g, p, drawn);
            var r := Resolve(PlaceInBounds(g.field, p));
            !t.toppedOut ==>
              && t.game.field == r.field && ErasedCount(t.game.field) == 0
              && t.game.score == g.score + 50 * |r.erased| * (|r.erased| + 1)
              && t.game.nextPuyos == g.nextPuyos[1..] + [drawn] && t.pair == g.nextPuyos[0]
              && t.game.incomingNuisancePuyos == g.incomingNuisancePuyos && t.game.isGameOver == g.isGameOver
              && t.sent >= 0 && (AllEmpty(t.game.field) ==> t.sent >= 30)
  {
    var placed := PlaceInBounds(g.field, p);
    if placed[0][2] == Empty {
      var r := Resolve(placed);
      ResolveProperties(placed);
      ChainScoreClosed(|r.erased|);
      OnlineGame.SumNonNegative(r.erased);
    }
  }

  /** With nothing pending, the two modes agree on an in-bounds pair: the online
      lock (netting against an empty counter) produces the same game state and next
      pair, and sends exactly what this mode adds to the other side, when that is
      positive. */
  lemma ModesAgreeWithoutPending(g: GameState, p: PlayerState, drawn: PlayerState)
    requires IsField(g.field) && |g.nextPuyos| > 0 && OnlineGame.PairInBounds(p)
    requires g.incomingNuisancePuyos == 0
    ensures var a := SideFixed(g, p, drawn);
            var o := OnlineGame.Fixed(g, p, true, drawn);
            o.game == a.game && o.pair == a.pair && o.sent == (if a.sent > 0 then Some(a.sent) else None)
  {
    PlaceInBoundsIsLock(g.field, p);
    SideFixedProperties(g, p, drawn);
    OnlineGame.FixedProperties(g, p, true, drawn);
  }

  /** fixPuyo(isAI) for one side: the guarded lock, the chain loop and the outgoing
      amount, as SideFixed describes. */
  method LockAndResolve(g: GameState, p: PlayerState, drawn: PlayerState) returns (t: Locked)
    requires IsField(g.field) && |g.nextPuyos| > 0
    ensures t == SideFixed(g, p, drawn)
  {
    var currentField := PlaceInBounds(g.field, p);
    if currentField[0][2] != Empty {
      return Locked(g.(isGameOver := true), p, 0, true);
    }
    var finalField, chain, totalErased, scoreGain := ResolveChain(currentField);
    t := Resolved(g, drawn, finalField, chain, totalErased);
  }

  /** dropPuyo(isAI) for one side as a specification: nothing while processing or
      after game over; a fall by one row when CanMove accepts it; otherwise the lock,
      after which a positive pending count of the side is dropped into the columns
      the oracle names and cleared. */
  ghost function SideDropped(g: GameState, p: PlayerState, processing: bool, drawn: PlayerState, columns: seq<int>): Locked
    requires IsField(g.field) && |g.nextPuyos| > 0
    requires ValidColumns(columns) && g.incomingNuisancePuyos <= |columns|
  {
    if processing || g.isGameOver then Locked(g, p, 0, false)
    else
      var lowered := Lowered(p);
      if CanMove(g.field, lowered.puyo1, lowered.puyo2) then Locked(g, lowered, 0, false)
      else
        var t := SideFixed(g, p, drawn);
        if g.incomingNuisancePuyos > 0 then
          t.(game := t.game.(field := Materialized(t.game.field, columns[..g.incomingNuisancePuyos]), incomingNuisancePuyos := 0))
        else t
  }

  /** A drop step of this mode that locks clears a positive pending count, keeps every
      puyo of the resolved field and adds at most the pending number of puyos; a
      step that does not lock sends nothing. */
  lemma SideDroppedProperties(g: GameState, p: PlayerState, processing: bool, drawn: PlayerState, columns: seq<int>)
    requires IsField(g.field) && |g.nextPuyos| > 0
    requires ValidColumns(columns) && g.incomingNuisancePuyos <= |columns|
    ensures var lowered := Lowered(p);
            processing || g.isGameOver || CanMove(g.field, lowered.puyo1, lowered.puyo2) ==>
              var d := SideDropped(g, p, processing, drawn, columns);
              d.game == g && d.sent == 0 && !d.toppedOut && (d.pair == p || d.pair == lowered)
    ensures var lowered := Lowered(p);
            var t := SideFixed(g, p, drawn);
            var d := SideDropped(g, p, processing, drawn, columns);
            !processing && !g.isGameOver && !CanMove(g.field, lowered.puyo1, lowered.puyo2) ==>
              && IsField(d.game.field) && d.pair == t.pair && d.sent == t.sent && d.toppedOut == t.toppedOut
              && d.game.score == t.game.score && d.game.nextPuyos == t.game.nextPuyos
              && (g.incomingNuisancePuyos >= 0 ==> d.game.incomingNuisancePuyos == 0)
              && (forall y, x :: 0 <= y < FIELD_HEIGHT && 0 <= x < FIELD_WIDTH && t.game.field[y][x] != Empty ==>
                    d.game.field[y][x] == t.game.field[y][x])
              && Count(d.game.field) <= Count(t.game.field) + (if g.incomingNuisancePuyos > 0 then g.incomingNuisancePuyos else 0)
  {
    var lowered := Lowered(p);
    if !processing && !g.isGameOver && !CanMove(g.field, lowered.puyo1, lowered.puyo2) {
      var t := SideFixed(g, p, drawn);
      SideFixedProperties(g, p, drawn);
      if g.incomingNuisancePuyos > 0 {
        MaterializedKeepsPuyos(t.game.field, columns[..g.incomingNuisancePuyos]);
        MaterializedCount(t.game.field, columns[..g.incomingNuisancePuyos]);
      }
    }
  }

  /** The player's left, right and rotate commands. */
  function Command(f: Field, p: PlayerState, key: OnlineGame.Key): (r: PlayerState)
    requires IsField(f)
    ensures r.puyo1.color == p.puyo1.color && r.puyo2.color == p.puyo2.color
    ensures r == p || CanMove(f, r.puyo1, r.puyo2)
    ensures key !in {OnlineGame.ArrowLeft, OnlineGame.ArrowRight, OnlineGame.ArrowUp} ==> r == p
  {
    match key
    case ArrowLeft => MoveHorizontally(f, p, -1)
    case ArrowRight => MoveHorizontally(f, p, 1)
    case ArrowUp => Rotate(f, p)
    case _ => p
  }

  /** Both games of a match against the computer, with the fields the source keeps
      as component state. */
  class VersusAI {
    var gameState: GameState
    var playerState: PlayerState
    var aiGameState: GameState
    var aiPlayerState: PlayerState
    var isProcessing: bool
    var isAIGameOver: bool

    ghost predicate Valid()
      reads this
    {
      IsField(gameState.field) && |gameState.nextPuyos| == NEXT_PUYO_COUNT &&
      IsField(aiGameState.field) && |aiGameState.nextPuyos| == NEXT_PUYO_COUNT
    }

    /** The side that acts, and the other one. */
    function Own(isAI: bool): GameState
      reads this
    {
      if isAI then aiGameState else gameState
    }

    function OwnPair(isAI: bool): PlayerState
      reads this
    {
      if isAI then aiPlayerState else playerState
    }

    function Other(isAI: bool): GameState
      reads this
    {
      if isAI then gameState else aiGameState
    }

    function OtherPair(isAI: bool): PlayerState
      reads this
    {
      if isAI then playerState else aiPlayerState
    }

    /** Two fresh games; the colours stand for the random draws. */
    constructor (colors: seq<(Color, Color)>, first: (Color, Color), aiColors: seq<(Color, Color)>, aiFirst: (Color, Color))
      requires |colors| == NEXT_PUYO_COUNT && |aiColors| == NEXT_PUYO_COUNT
      ensures Valid()
      ensures gameState == InitialGameState(colors) && playerState == NewPuyoPair(first.0, first.1)
      ensures aiGameState == InitialGameState(aiColors) && aiPlayerState == NewPuyoPair(aiFirst.0, aiFirst.1)
      ensures !isProcessing && !isAIGameOver
    {
      gameState := InitialGameState(colors);
      playerState := NewPuyoPair(first.0, first.1);
      aiGameState := InitialGameState(aiColors);
      aiPlayerState := NewPuyoPair(aiFirst.0, aiFirst.1);
      isProcessing := false;
      isAIGameOver := false;
    }

    /** Applies a side's lock outcome: the side's state and pair, and the nuisance
        it adds to the other side. */
    method Apply(isAI: bool, t: Locked)
      requires Valid() && IsField(t.game.field) && |t.game.nextPuyos| == NEXT_PUYO_COUNT
      modifies this
      ensures Valid()
      ensures Own(isAI) == t.game && OwnPair(isAI) == t.pair
      ensures Other(isAI) == old(Other(isAI)).(incomingNuisancePuyos := old(Other(isAI)).incomingNuisancePuyos + t.sent)
      ensures OtherPair(isAI) == old(OtherPair(isAI))
      ensures isAIGameOver == (old(isAIGameOver) || (isAI && t.toppedOut))
      ensures isProcessing == old(isProcessing)
    {
      if isAI {
        aiGameState, aiPlayerState := t.game, t.pair;
        gameState := gameState.(incomingNuisancePuyos := gameState.incomingNuisancePuyos + t.sent);
        if t.toppedOut {
          isAIGameOver := true;
        }
      } else {
        gameState, playerState := t.game, t.pair;
        aiGameState := aiGameState.(incomingNuisancePuyos := aiGameState.incomingNuisancePuyos + t.sent);
      }
    }

    /** fixPuyo(isAI): nothing while a lock is in progress; otherwise the side locks
        as SideFixed describes, its outgoing amount is added to the other side and,
        on top-out of the computer's side, the computer's game-over flag is set. */
    method FixPuyo(isAI: bool, drawn: (Color, Color))
      requires Valid()
      modifies this
      ensures Valid()
      ensures old(isProcessing) ==> unchanged(this)
      ensures !old(isProcessing) ==>
                var t := SideFixed(old(Own(isAI)), old(OwnPair(isAI)), NewPuyoPair(drawn.0, drawn.1));
                && Own(isAI) == t.game && OwnPair(isAI) == t.pair
                && Other(isAI) == old(Other(isAI)).(incomingNuisancePuyos := old(Other(isAI)).incomingNuisancePuyos + t.sent)
                && OtherPair(isAI) == old(OtherPair(isAI))
                && isAIGameOver == (old(isAIGameOver) || (isAI && t.toppedOut))
                && !isProcessing
    {
      if isProcessing {
        return;
      }
      isProcessing := true;
      var t := LockAndResolve(Own(isAI), OwnPair(isAI), NewPuyoPair(drawn.0, drawn.1));
      SideFixedProperties(Own(isAI), OwnPair(isAI), NewPuyoPair(drawn.0, drawn.1));
      Apply(isAI, t);
      isProcessing := false;
    }

    /** dropPuyo(isAI), as SideDropped describes; columns are the random column
        choices for the side's pending nuisance. */
    method DropPuyo(isAI: bool, drawn: (Color, Color), columns: seq<int>)
      requires Valid() && ValidColumns(columns) && Own(isAI).incomingNuisancePuyos <= |columns|
      modifies this
      ensures Valid() && isProcessing == old(isProcessing)
      ensures var t := SideDropped(old(Own(isAI)), old(OwnPair(isAI)), old(isProcessing), NewPuyoPair(drawn.0, drawn.1), columns);
              && Own(isAI) == t.game && OwnPair(isAI) == t.pair
              && Other(isAI) == old(Other(isAI)).(incomingNuisancePuyos := old(Other(isAI)).incomingNuisancePuyos + t.sent)
              && OtherPair(isAI) == old(OtherPair(isAI))
              && isAIGameOver == (old(isAIGameOver) || (isAI && t.toppedOut))
    {
      var currentGameState := Own(isAI);
      var currentPuyoState := OwnPair(isAI);
      if isProcessing || currentGameState.isGameOver {
        Apply(isAI, Locked(currentGameState, currentPuyoState, 0, false));
        return;
      }
      var lowered := Lowered(currentPuyoState);
      if CanMove(currentGameState.field, lowered.puyo1, lowered.puyo2) {
        Apply(isAI, Locked(currentGameState, lowered, 0, false));
        return;
      }
      FixPuyo(isAI, drawn);
      SideFixedProperties(currentGameState, currentPuyoState, NewPuyoPair(drawn.0, drawn.1));
      if currentGameState.incomingNuisancePuyos > 0 {
        var own := Own(isAI);
        var newField := MaterializeNuisance(own.field, own.incomingNuisancePuyos, columns);
        Apply(isAI, Locked(own.(field := newField, incomingNuisancePuyos := 0), OwnPair(isAI), 0, false));
      }
    }

    /** One tick of the computer's timer: nothing while a lock is in progress or after
        the computer's game is over; otherwise the computer's pair becomes the move
        the search chooses, and that pair takes its drop step. */
    method AIStep(drawn: (Color, Color), columns: seq<int>)
      requires Valid() && ValidColumns(columns) && aiGameState.incomingNuisancePuyos <= |columns|
      modifies this
      ensures Valid() && isProcessing == old(isProcessing)
      ensures old(isProcessing) || old(aiGameState.isGameOver) ==> unchanged(this)
      ensures !old(isProcessing) && !old(aiGameState.isGameOver) ==>
                var t := SideDropped(old(aiGameState), Chosen(old(aiGameState.field), old(aiPlayerState)), false,
                                     NewPuyoPair(drawn.0, drawn.1), columns);
                && aiGameState == t.game && aiPlayerState == t.pair
                && gameState == old(gameState).(incomingNuisancePuyos := old(gameState).incomingNuisancePuyos + t.sent)
                && playerState == old(playerState) && isAIGameOver == (old(isAIGameOver) || t.toppedOut)
    {
      if aiGameState.isGameOver || isProcessing {
        return;
      }
      var bestMove := FindBestAIMove(aiGameState.field, aiPlayerState);
      aiPlayerState := bestMove;
      DropPuyo(true, drawn, columns);
    }

    /** handleKeyPress of this mode (the player's side only): nothing while
        processing or after the player's game is over; left, right and up move the
        player's pair as the commands describe; down is the player's drop step. */
    method HandleKeyPress(key: OnlineGame.Key, drawn: (Color, Color), columns: seq<int>)
      requires Valid() && ValidColumns(columns) && gameState.incomingNuisancePuyos <= |columns|
      modifies this
      ensures Valid() && isProcessing == old(isProcessing)
      ensures old(isProcessing) || old(gameState.isGameOver) ==> unchanged(this)
      ensures !old(isProcessing) && !old(gameState.isGameOver) && key != OnlineGame.ArrowDown ==>
                && playerState == Command(gameState.field, old(playerState), key)
                && gameState == old(gameState) && aiGameState == old(aiGameState)
                && aiPlayerState == old(aiPlayerState) && isAIGameOver == old(isAIGameOver)
      ensures !old(isProcessing) && !old(gameState.isGameOver) && key == OnlineGame.ArrowDown ==>
                var t := SideDropped(old(gameState), old(playerState), false, NewPuyoPair(drawn.0, drawn.1), columns);
                && gameState == t.game && playerState == t.pair
                && aiGameState == old(aiGameState).(incomingNuisancePuyos := old(aiGameState).incomingNuisancePuyos + t.sent)
                && aiPlayerState == old(aiPlayerState) && isAIGameOver == old(isAIGameOver)
    {
      if isProcessing || gameState.isGameOver {
        return;
      }
      if key == OnlineGame.ArrowDown {
        DropPuyo(false, drawn, columns);
      } else {
        playerState := Command(gameState.field, playerState, key);
      }
    }
  }
}
