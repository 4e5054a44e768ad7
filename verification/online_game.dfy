/** One player's side of an online match: the falling pair, the lock, the chain,
    the nuisance exchange with the opponent and the next queue. Each transition
    (a drop step, a lock with its whole chain, a key press) is one sequential step;
    the delays between animation frames are not modelled. */
module OnlineGame {
  import opened PuyoTypes
  import opened Movement
  import opened Chain

  datatype Key = ArrowLeft | ArrowRight | ArrowDown | ArrowUp | OtherKey

  /** A falling puyo whose column is on the field and whose row is not below it;
      every position CanMove accepts is one. */
  predicate PuyoInBounds(q: PlayerPuyo) {
    0 <= q.x < FIELD_WIDTH && q.y < FIELD_HEIGHT
  }

  predicate PairInBounds(p: PlayerState) {
    PuyoInBounds(p.puyo1) && PuyoInBounds(p.puyo2)
  }

  /** The online lock: each puyo whose row is on the field (y >= 0) is written into
      a copy of the field, the axis first and the child second; a puyo above the
      field is dropped. */
  function Lock(f: Field, p: PlayerState): (r: Field)
    requires IsField(f) && PairInBounds(p)
    ensures IsField(r)
    ensures forall y, x :: 0 <= y < FIELD_HEIGHT && 0 <= x < FIELD_WIDTH ==>
              r[y][x] == if y == p.puyo2.y && x == p.puyo2.x then Puyo(p.puyo2.color)
                         else if y == p.puyo1.y && x == p.puyo1.x then Puyo(p.puyo1.color)
                         else f[y][x]
  {
    var f1 := if p.puyo1.y >= 0 then SetCell(f, p.puyo1.y, p.puyo1.x, Puyo(p.puyo1.color)) else f;
    if p.puyo2.y >= 0 then SetCell(f1, p.puyo2.y, p.puyo2.x, Puyo(p.puyo2.color)) else f1
  }

  /** A pair that CanMove accepts is in bounds, and locking it never overwrites a
      puyo already on the field. */
  lemma LockKeepsPuyos(f: Field, p: PlayerState)
    requires IsField(f) && CanMove(f, p.puyo1, p.puyo2)
    ensures PairInBounds(p)
    ensures forall y, x :: 0 <= y < FIELD_HEIGHT && 0 <= x < FIELD_WIDTH && f[y][x] != Empty ==>
              Lock(f, p)[y][x] == f[y][x]
  {
  }

  /** The result of one transition: the new game state, the active pair and the
      nuisance amount sent to the opponent, if any. */
  datatype Transition = Transition(game: GameState, pair: PlayerState, sent: Option<int>)

  /** fixPuyo as a specification. Lock the pair; if the spawn cell (row 0, column 2)
      is then occupied the game is over and nothing else changes (the locked field
      is not kept). Otherwise run the chain, add its score, compute the outgoing
      nuisance (with the all-clear bonus), net it against the incoming counter,
      send the excess when in a room, and take the next pair from the queue. */
  ghost function Fixed(g: GameState, p: PlayerState, joined: bool, drawn: PlayerState): Transition
    requires IsField(g.field) && PairInBounds(p) && |g.nextPuyos| > 0
  {
    var locked := Lock(g.field, p);
    if locked[0][2] != Empty then Transition(g.(isGameOver := true), p, None)
    else
      var r := Resolve(locked);
      AfterChain(g, joined, drawn, r.field, |r.erased|, Sum(r.erased))
  }

  /** The rest of a lock once the chain has ended on finalField after the given
      number of levels and erased cells. */
  function AfterChain(g: GameState, joined: bool, drawn: PlayerState, finalField: Field, chain: int, totalErased: int): Transition
    requires IsField(finalField) && |g.nextPuyos| > 0 && chain >= 0
  {
    var out := Outgoing(chain, totalErased, AllEmpty(finalField));
    var net := Net(g.incomingNuisancePuyos, out);
    Transition(GameState(finalField, g.score + ChainScore(chain), g.isGameOver, Advance(g.nextPuyos, drawn), net.0),
               g.nextPuyos[0],
               if net.1 > 0 && joined then Some(net.1) else None)
  }

  lemma SumNonNegative(s: seq<int>)
    requires AtLeastFour(s)
    ensures Sum(s) >= 0
  {
    if s != [] {
      SumNonNegative(s[..|s| - 1]);
    }
  }

  lemma OutgoingNonNegative(chain: int, totalErased: int, allClear: bool)
    requires chain >= 0 && totalErased >= 0
    ensures Outgoing(chain, totalErased, allClear) >= 0
  {
  }

  /** What a lock does. On game over: only the flag changes. Otherwise: the field is
      the end of the chain and has nothing left to erase, the score grows by
      50 * n * (n + 1) for n levels, the head of the queue becomes the active pair
      and the drawn pair joins the back, the counter never goes negative and never
      grows past a positive pending count, and an amount is sent only from a room,
      and then it is exactly the outgoing nuisance left after netting. */
  lemma FixedProperties(g: GameState, p: PlayerState, joined: bool, drawn: PlayerState)
    requires IsField(g.field) && PairInBounds(p) && |g.nextPuyos| > 0
    ensures var t := Fixed(g, p, joined, drawn);
            Lock(g.field, p)[0][2] != Empty ==> t == Transition(g.(isGameOver := true), p, None)
    ensures var t := Fixed(g, p, joined, drawn);
            var locked := Lock(g.field, p);
            var r := Resolve(locked);
            var out := Outgoing(|r.erased|, Sum(r.erased), AllEmpty(r.field));
            locked[0][2] == Empty ==>
              && t.game.field == r.field && ErasedCount(t.game.field) == 0
              && t.game.score == g.score + 50 * |r.erased| * (|r.erased| + 1)
              && t.game.isGameOver == g.isGameOver
              && t.pair == g.nextPuyos[0] && t.game.nextPuyos == g.nextPuyos[1..] + [drawn]
              && out >= 0
              && t.game.incomingNuisancePuyos == (if g.incomingNuisancePuyos > out then g.incomingNuisancePuyos - out else 0)
              && (t.sent.Some? <==> joined && out > g.incomingNuisancePuyos)
              && (t.sent.Some? ==> t.sent.value == out - g.incomingNuisancePuyos)
  {
    var locked := Lock(g.field, p);
    if locked[0][2] == Empty {
      var r := Resolve(locked);
      ResolveProperties(locked);
      ChainScoreClosed(|r.erased|);
      SumNonNegative(r.erased);
      OutgoingNonNegative(|r.erased|, Sum(r.erased), AllEmpty(r.field));
    }
  }

  /** A lock never raises a positive pending count, and leaves it non-negative. */
  lemma FixedIncomingBound(g: GameState, p: PlayerState, joined: bool, drawn: PlayerState)
    requires IsField(g.field) && PairInBounds(p) && |g.nextPuyos| > 0
    requires g.incomingNuisancePuyos > 0
    ensures 0 <= Fixed(g, p, joined, drawn).game.incomingNuisancePuyos <= g.incomingNuisancePuyos
  {
    FixedProperties(g, p, joined, drawn);
  }

  /** dropPuyo as a specification: nothing while a lock is in progress or after the
      game is over; otherwise the pair falls one row if CanMove accepts it there,
      and if not it locks, after which the pending nuisance (if there was any
      before the lock) is dropped into the columns the oracle names and the
      counter is cleared. */
  ghost function Dropped(g: GameState, p: PlayerState, processing: bool, joined: bool,
                         drawn: PlayerState, columns: seq<int>): Transition
    requires IsField(g.field) && PairInBounds(p) && |g.nextPuyos| > 0
    requires ValidColumns(columns) && g.incomingNuisancePuyos <= |columns|
  {
    if processing || g.isGameOver then Transition(g, p, None)
    else
      var lowered := Lowered(p);
      if CanMove(g.field, lowered.puyo1, lowered.puyo2) then Transition(g, lowered, None)
      else
        var t := Fixed(g, p, joined, drawn);
        if g.incomingNuisancePuyos > 0 then
          FixedIncomingBound(g, p, joined, drawn);
          var count := t.game.incomingNuisancePuyos;
          t.(game := t.game.(field := Materialized(t.game.field, columns[..count]), incomingNuisancePuyos := 0))
        else t
  }

  /** What a drop step does: a no-op while processing or after game over; a plain
      fall of both puyos by one row when the lower position is free; otherwise a
      lock after which no pending nuisance is left (for a non-negative counter),
      every puyo of the locked-and-resolved field is still in place, and at most
      the pending number of nuisance puyos was added. */
  lemma DroppedProperties(g: GameState, p: PlayerState, processing: bool, joined: bool,
                          drawn: PlayerState, columns: seq<int>)
    requires IsField(g.field) && PairInBounds(p) && |g.nextPuyos| > 0
    requires ValidColumns(columns) && g.incomingNuisancePuyos <= |columns|
    ensures processing || g.isGameOver ==> Dropped(g, p, processing, joined, drawn, columns) == Transition(g, p, None)
    ensures var lowered := Lowered(p);
            !processing && !g.isGameOver && CanMove(g.field, lowered.puyo1, lowered.puyo2) ==>
              Dropped(g, p, processing, joined, drawn, columns) == Transition(g, lowered, None)
    ensures var lowered := Lowered(p);
            var t := Fixed(g, p, joined, drawn);
            var d := Dropped(g, p, processing, joined, drawn, columns);
            !processing && !g.isGameOver && !CanMove(g.field, lowered.puyo1, lowered.puyo2) ==>
              && IsField(d.game.field)
              && d.pair == t.pair && d.sent == t.sent && d.game.score == t.game.score
              && d.game.nextPuyos == t.game.nextPuyos && d.game.isGameOver == t.game.isGameOver
              && (g.incomingNuisancePuyos >= 0 ==> d.game.incomingNuisancePuyos == 0)
              && (forall y, x :: 0 <= y < FIELD_HEIGHT && 0 <= x < FIELD_WIDTH && t.game.field[y][x] != Empty ==>
                    d.game.field[y][x] == t.game.field[y][x])
              && Count(d.game.field) <= Count(t.game.field) + (if g.incomingNuisancePuyos > 0 then g.incomingNuisancePuyos else 0)
  {
    var lowered := Lowered(p);
    if !processing && !g.isGameOver && !CanMove(g.field, lowered.puyo1, lowered.puyo2) {
      var t := Fixed(g, p, joined, drawn);
      FixedProperties(g, p, joined, drawn);
      if g.incomingNuisancePuyos > 0 {
        FixedIncomingBound(g, p, joined, drawn);
        var count := t.game.incomingNuisancePuyos;
        MaterializedKeepsPuyos(t.game.field, columns[..count]);
        MaterializedCount(t.game.field, columns[..count]);
      }
    }
  }

  /** handleKeyPress as a specification: nothing while processing or after game
      over; left and right shift the pair when CanMove accepts the shifted pair;
      up turns the child a quarter about the axis when CanMove accepts that; down
      is a drop step; any other key does nothing. */
  ghost function KeyPressed(g: GameState, p: PlayerState, processing: bool, joined: bool, key: Key,
                            drawn: PlayerState, columns: seq<int>): Transition
    requires IsField(g.field) && PairInBounds(p) && |g.nextPuyos| > 0
    requires ValidColumns(columns) && g.incomingNuisancePuyos <= |columns|
  {
    if processing || g.isGameOver then Transition(g, p, None)
    else match key
      case ArrowLeft => Transition(g, MoveHorizontally(g.field, p, -1), None)
      case ArrowRight => Transition(g, MoveHorizontally(g.field, p, 1), None)
      case ArrowDown => Dropped(g, p, processing, joined, drawn, columns)
      case ArrowUp => Transition(g, Rotate(g.field, p), None)
      case OtherKey => Transition(g, p, None)
  }

  /** Advancing a queue of in-bounds pairs with a spawn pair keeps every pair in bounds. */
  lemma AdvanceInBounds(queue: seq<PlayerState>, drawn: PlayerState)
    requires |queue| > 0 && forall i :: 0 <= i < |queue| ==> PairInBounds(queue[i])
    requires PairInBounds(drawn)
    ensures forall i :: 0 <= i < |queue| ==> PairInBounds(Advance(queue, drawn)[i])
  {
  }

  /** Left, right and up only ever move the active pair, and to a position CanMove
      accepts (or not at all); they never touch the game state or send anything. */
  lemma KeyMovesOnlyThePair(g: GameState, p: PlayerState, processing: bool, joined: bool, key: Key,
                            drawn: PlayerState, columns: seq<int>)
    requires IsField(g.field) && PairInBounds(p) && |g.nextPuyos| > 0
    requires ValidColumns(columns) && g.incomingNuisancePuyos <= |columns|
    requires key != ArrowDown
    ensures var t := KeyPressed(g, p, processing, joined, key, drawn, columns);
            t.game == g && t.sent == None && (t.pair == p || CanMove(g.field, t.pair.puyo1, t.pair.puyo2))
    ensures var t := KeyPressed(g, p, processing, joined, key, drawn, columns);
            t.pair.puyo1.color == p.puyo1.color && t.pair.puyo2.color == p.puyo2.color
  {
  }

  /** The body of fixPuyo for one game state: lock, and on a free spawn cell the
      chain loop followed by scoring, nuisance, netting and the next queue. */
  method LockAndResolve(g: GameState, p: PlayerState, joined: bool, drawn: PlayerState) returns (t: Transition)
    requires IsField(g.field) && PairInBounds(p) && |g.nextPuyos| > 0 && PairInBounds(drawn)
    requires forall i :: 0 <= i < |g.nextPuyos| ==> PairInBounds(g.nextPuyos[i])
    ensures t == Fixed(g, p, joined, drawn)
    ensures IsField(t.game.field) && |t.game.nextPuyos| == |g.nextPuyos| && PairInBounds(t.pair)
    ensures forall i :: 0 <= i < |t.game.nextPuyos| ==> PairInBounds(t.game.nextPuyos[i])
  {
    var locked := Lock(g.field, p);
    if locked[0][2] != Empty {
      return Transition(g.(isGameOver := true), p, None);
    }
    var finalField, chain, totalErased, scoreGain := ResolveChain(locked);
    AdvanceInBounds(g.nextPuyos, drawn);
    t := AfterChain(g, joined, drawn, finalField, chain, totalErased);
  }

  /** One player's game, with the fields the source keeps as component state.
      joinedRoom stands for "a socket exists and the player has joined a room". */
  class PuyoGame {
    var gameState: GameState
    var playerState: PlayerState
    var isProcessing: bool
    var joinedRoom: bool

    ghost predicate Valid()
      reads this
    {
      IsField(gameState.field) && |gameState.nextPuyos| == NEXT_PUYO_COUNT &&
      PairInBounds(playerState) &&
      forall i :: 0 <= i < |gameState.nextPuyos| ==> PairInBounds(gameState.nextPuyos[i])
    }

    /** The initial state: a drawn game, a drawn pair, not processing, not in a
        room. The colours stand for the random draws. */
    constructor (colors: seq<(Color, Color)>, first: (Color, Color))
      requires |colors| == NEXT_PUYO_COUNT
      ensures Valid()
      ensures gameState == InitialGameState(colors) && playerState == NewPuyoPair(first.0, first.1)
      ensures !isProcessing && !joinedRoom
    {
      gameState := InitialGameState(colors);
      playerState := NewPuyoPair(first.0, first.1);
      isProcessing := false;
      joinedRoom := false;
    }

    /** The startGame event: the player is now in a room and the game restarts. */
    method StartGame(colors: seq<(Color, Color)>, first: (Color, Color))
      requires |colors| == NEXT_PUYO_COUNT
      modifies this
      ensures Valid()
      ensures gameState == InitialGameState(colors) && playerState == NewPuyoPair(first.0, first.1)
      ensures joinedRoom && isProcessing == old(isProcessing)
    {
      joinedRoom := true;
      gameState := InitialGameState(colors);
      playerState := NewPuyoPair(first.0, first.1);
    }

    /** The receiveNuisancePuyos event: the amount is added to the counter. */
    method ReceiveNuisancePuyos(nuisancePuyos: int)
      requires Valid()
      modifies this
      ensures Valid()
      ensures gameState == old(gameState).(incomingNuisancePuyos := old(gameState.incomingNuisancePuyos) + nuisancePuyos)
      ensures playerState == old(playerState) && isProcessing == old(isProcessing) && joinedRoom == old(joinedRoom)
    {
      gameState := gameState.(incomingNuisancePuyos := gameState.incomingNuisancePuyos + nuisancePuyos);
    }

    /** The opponentDisconnected event: the game is over. */
    method OpponentDisconnected()
      requires Valid()
      modifies this
      ensures Valid()
      ensures gameState == old(gameState).(isGameOver := true)
      ensures playerState == old(playerState) && isProcessing == old(isProcessing) && joinedRoom == old(joinedRoom)
    {
      gameState := gameState.(isGameOver := true);
    }

    /** fixPuyo: lock, chain, score, nuisance, netting and next queue, as Fixed
        describes; a call while a lock is in progress does nothing. */
    method FixPuyo(drawn: (Color, Color)) returns (sent: Option<int>)
      requires Valid()
      modifies this
      ensures Valid() && joinedRoom == old(joinedRoom)
      ensures old(isProcessing) ==> gameState == old(gameState) && playerState == old(playerState) && isProcessing && sent == None
      ensures !old(isProcessing) ==>
                (!isProcessing &&
                 Transition(gameState, playerState, sent) ==
                 Fixed(old(gameState), old(playerState), joinedRoom, NewPuyoPair(drawn.0, drawn.1)))
    {
      if isProcessing {
        return None;
      }
      isProcessing := true;
      var t := LockAndResolve(gameState, playerState, joinedRoom, NewPuyoPair(drawn.0, drawn.1));
      gameState, playerState, sent := t.game, t.pair, t.sent;
      isProcessing := false;
    }

    /** dropPuyo, as Dropped describes; columns are the random column choices for
        the pending nuisance puyos. */
    method DropPuyo(drawn: (Color, Color), columns: seq<int>) returns (sent: Option<int>)
      requires Valid() && ValidColumns(columns) && gameState.incomingNuisancePuyos <= |columns|
      modifies this
      ensures Valid() && joinedRoom == old(joinedRoom) && isProcessing == old(isProcessing)
      ensures Transition(gameState, playerState, sent) ==
              Dropped(old(gameState), old(playerState), old(isProcessing), joinedRoom,
                      NewPuyoPair(drawn.0, drawn.1), columns)
    {
      if isProcessing || gameState.isGameOver {
        return None;
      }
      var lowered := Lowered(playerState);
      if CanMove(gameState.field, lowered.puyo1, lowered.puyo2) {
        playerState := lowered;
        return None;
      }
      ghost var g, p := gameState, playerState;
      var pending := gameState.incomingNuisancePuyos;
      sent := FixPuyo(drawn);
      if pending > 0 {
        FixedIncomingBound(g, p, joinedRoom, NewPuyoPair(drawn.0, drawn.1));
        var newField := MaterializeNuisance(gameState.field, gameState.incomingNuisancePuyos, columns);
        gameState := gameState.(field := newField, incomingNuisancePuyos := 0);
      }
    }

    /** handleKeyPress, as KeyPressed describes. */
    method HandleKeyPress(key: Key, drawn: (Color, Color), columns: seq<int>) returns (sent: Option<int>)
      requires Valid() && ValidColumns(columns) && gameState.incomingNuisancePuyos <= |columns|
      modifies this
      ensures Valid() && joinedRoom == old(joinedRoom) && isProcessing == old(isProcessing)
      ensures Transition(gameState, playerState, sent) ==
              KeyPressed(old(gameState), old(playerState), old(isProcessing), joinedRoom, key,
                         NewPuyoPair(drawn.0, drawn.1), columns)
    {
      if isProcessing || gameState.isGameOver {
        return None;
      }
      sent := None;
      match key {
        case ArrowLeft =>
          playerState := MoveHorizontally(gameState.field, playerState, -1);
        case ArrowRight =>
          playerState := MoveHorizontally(gameState.field, playerState, 1);
        case ArrowDown =>
          sent := DropPuyo(drawn, columns);
        case ArrowUp =>
          playerState := Rotate(gameState.field, playerState);
        case OtherKey =>
      }
    }
  }
}
