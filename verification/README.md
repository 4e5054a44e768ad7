# Puyo Puyo engine and room registry, in Dafny

This project models the game engine of a two-player falling-pair puzzle (Puyo Puyo)
and the room registry of its relay server, and proves properties of the model.

- **Field.** The field is 12 rows of 6 cells, indexed `field[y][x]`, with row 0 at the top.
  A cell is empty or holds a puyo of one of five colours.
  A falling pair is an axis puyo (`puyo1`) and a child puyo (`puyo2`) with integer coordinates.
- **Grid primitives** (`movement.dfy`, `gravity.dfy`, `connections.dfy`).
  - `canMove` decides whether a pair may occupy a position.
  - `applyGravity` compacts every column downwards. It is an in-place scan with a `writeY` cursor over a copy of the field.
  - `checkConnections` is one erase pass. A breadth-first search runs from every cell, marks every same-coloured 4-connected group of four or more, and counts the marked cells.
  - Each operation is proved against a specification: paths and groups for erasure, a "puyos of the column, pushed to the bottom" function for gravity.
- **Chain, score and nuisance** (`chain.dfy`).
  - The chain loop erases, then applies gravity, until a pass erases nothing. Level `k` scores `100 * k`.
  - The outgoing nuisance amount comes from the chain-power table, plus the all-clear bonus.
  - Netting is done against the pending counter.
  - Pending nuisance is materialised column by column.
- **Online player** (`online_game.dfy`). A class whose fields are the hook's state: game state, active pair, processing flag and room flag.
  Its methods are the lock-and-resolve step (`fixPuyo`), the drop (`dropPuyo`), the key handler and the two socket handlers that change game state.
  Each method is tied to a specification function of the old state.
- **Versus-AI mode** (`ai_game.dfy`).
  - The AI's move search (`findBestAIMove`) is modelled twice.
    `AIGame.FindBestAIMove` is the intended search, the corrected member of rows 1 and 2 of "## Findings": every candidate is an independent copy, and rotation `r` is `r` quarter turns. It is a method over the 6 × 4 candidates, proved to return the first candidate with the highest evaluation.
  - `AIGame.FindBestAIMoveAsWritten` is the search as the code computes it, with the shared, mutated puyo objects.
  - The two-sided lock step has no netting and adds the outgoing amount to the other side.
- **Relay server** (`relay.dfy`). A class holding the list of rooms.
  - Its handlers are `joinRoom`, `updateField`, `sendNuisancePuyos` and `disconnect`.
  - Each handler's emits become returned event values.

Randomness is a parameter:
- the colours of each new pair;
- the column chosen for each nuisance puyo.

The timers themselves are not modelled, only the step each timer tick takes:
- the player's one-second drop timer calls `dropPuyo(false)`, modelled by `DropPuyo(false, …)`;
- the AI's timer runs the move search, sets the AI's pair to its result and drops it, modelled by `AIGame.VersusAI.AIStep` (see "## Left out" for how the source's stale closure differs).
The `sleep` delays and React's queued state updates are folded into one sequential transition per call.
Within that transition, lock, chain and nuisance materialisation run in that order.

Where the code and its design notes disagree, the model follows the code:
- A nuisance puyo goes to the first empty cell of its column scanning from row 0, the top row (`Chain.NuisanceLandsOnTop`), not to the lowest empty cell.
- The AI evaluates a candidate by `Σ_k (erased_k * 10 + 100 * k)` only.
- The AI mode does no netting.

## Model

| member | source | states |
|---|---|---|
| PuyoTypes.EmptyField | src/hooks/usePuyoGame.ts:30-32 | the initial field is 12 × 6 and every cell is empty |
| PuyoTypes.NewPuyoPair | src/hooks/usePuyoGame.ts:15-18 | a new pair has the given colours, both puyos in column 2, the axis above the field (`y < 0`) and the child directly below it in row 0 |
| PuyoTypes.InitialGameState | src/hooks/usePuyoGame.ts:24-38 | the initial state has an empty field, score 0, not over, nothing pending, and a next-queue of `NEXT_PUYO_COUNT` = 2 pairs with the drawn colours |
| PuyoTypes.Advance | src/hooks/usePuyoGame.ts:135-137 | advancing the next-queue keeps its length, shifts every entry forward by one, and puts the newly drawn pair last |
| Movement.CanMove | src/utils/gameLogic.ts:11-21 | a pair may be placed iff each puyo is in columns 0..5, above row 12, and either above the field or on an empty cell |
| Movement.CanMoveRules | src/utils/gameLogic.ts:13-20 | rejected when either puyo is at `y >= 12`; rejected when either `x` is outside 0..5 whatever `y` is; rejected when either puyo in the field hits a puyo; a pair entirely above the field is accepted iff both columns are in range |
| Movement.Lowered | src/hooks/usePuyoGame.ts:151-152 | lowering adds 1 to both `y` and keeps columns and colours |
| Movement.Shifted | src/hooks/usePuyoGame.ts:198-199 | shifting adds `dx` to both `x` and keeps rows and colours |
| Movement.MoveHorizontally | src/hooks/usePuyoGame.ts:196-215 | a left/right key gives the shifted pair when `canMove` accepts it, and the unchanged pair otherwise |
| Movement.MoveInverse | src/hooks/usePuyoGame.ts:196-215 | from a placeable pair, an accepted move one way is undone by a move the other way |
| Movement.TurnedChild | src/hooks/usePuyoGame.ts:223-225 | the turned child's offset from the axis is `(-dy, dx)` for the old offset `(dx, dy)`, and its colour is kept |
| Movement.Turned | src/hooks/usePuyoGame.ts:221-225 | a quarter turn keeps the axis and the child's colour and turns the child's offset `(dx, dy)` into `(-dy, dx)` |
| Movement.Rotate | src/hooks/usePuyoGame.ts:219-231 | the up key never moves the axis; it gives the turned pair when `canMove` accepts the turned child, and the unchanged pair otherwise |
| Movement.TurnProperties | src/hooks/usePuyoGame.ts:223-225 | a turn keeps the offset length; four turns give back the pair; two turns change any pair whose child is off the axis |
| Movement.FourRotations | src/hooks/usePuyoGame.ts:219-231 | a rotation keeps the offset length; four accepted rotations in a row restore the pair |
| Falling.Settle | src/utils/gameLogic.ts:33-43 | a settled column has the column's height |
| Falling.Gravity | src/utils/gameLogic.ts:29-46 | gravity gives a 12 × 6 field whose every column is the old column settled |
| Falling.ApplyGravity | src/utils/gameLogic.ts:29-46 | the imperative column-by-column scan returns exactly `Gravity(field)`; the argument is a value and is not changed |
| Falling.SettleColumn | src/utils/gameLogic.ts:32-43 | the `writeY` scan of one column settles that column and leaves every other column as it was |
| Falling.SettleLayout | src/utils/gameLogic.ts:35-43 | in a settled column the empties fill the rows above and the puyos fill the bottom rows in their original top-to-bottom order |
| Falling.SettleSpec | src/utils/gameLogic.ts:35-43 | a settled column is settled, keeps the multiset of cells, and keeps its puyos in order |
| Falling.SettleMultiset | src/utils/gameLogic.ts:35-43 | settling a column keeps the multiset of its cells: every colour, and the empty cell, occurs as often as before |
| Falling.SettleKeepsPuyos | src/utils/gameLogic.ts:36-41 | settling keeps the sequence of puyos of a column |
| Falling.SettledIsFixed | src/utils/gameLogic.ts:37-41 | a column with no puyo above an empty cell is left unchanged |
| Falling.GravityFixesSettled | src/utils/gameLogic.test.ts:56-63 | gravity leaves a field unchanged iff no column has a floating puyo |
| Falling.GravityIdempotent | src/utils/gameLogic.ts:29-46 | applying gravity twice is the same as applying it once |
| Falling.GravityColumnsIndependent | src/utils/gameLogic.ts:32-44 | a column after gravity depends only on that column before it |
| Falling.GravityExample | src/utils/gameLogic.test.ts:42-54 | a floating red puyo falls to the bottom row while a blue puyo already there stays |
| Connections.Erase | src/utils/gameLogic.ts:100 | one pass empties exactly the puyos whose same-coloured 4-connected group has four or more members, and copies every other cell |
| Connections.LinkedSameCell | src/utils/gameLogic.ts:81-82 | every member of a group lies in the field and has the colour of its origin |
| Connections.LinkedSymmetric | src/utils/gameLogic.ts:77-87 | up/down/left/right connectivity is symmetric |
| Connections.LinkedTransitive | src/utils/gameLogic.ts:77-87 | connectivity is transitive |
| Connections.GroupOfMember | src/utils/gameLogic.ts:65 | the group of any member is the whole group, so starting the search from an already marked cell would find nothing new |
| Connections.Search | src/utils/gameLogic.ts:67-88 | the breadth-first search from a puyo returns each member of its group exactly once, and nothing else |
| Connections.MarkAll | src/utils/gameLogic.ts:94 | marking sets exactly the old marks plus the found cells |
| Connections.ClearMarked | src/utils/gameLogic.ts:100 | the new field empties the marked cells and copies the others |
| Connections.ScanRow | src/utils/gameLogic.ts:61-97 | after scanning rows 0..y, the marks are exactly the erasable cells of those rows' groups, and the count and flag agree with them |
| Connections.CheckConnections | src/utils/gameLogic.ts:54-102 | the erase pass returns `Erase(field)`, a count equal to the number of erasable cells, and `erased` iff that count is positive |
| Chain.FewPuyosNeverErase | src/utils/gameLogic.test.ts:82-92 | a field with fewer than four puyos erases nothing |
| Chain.FourInARowErased | src/utils/gameLogic.test.ts:67-80 | four same-coloured puyos in a row on an otherwise empty field are exactly the erased cells, four of them |
| Chain.ErasedAtLeastFour | src/utils/gameLogic.ts:91-94 | a pass that erases anything erases at least four cells |
| Chain.EraseDecreases | src/utils/gameLogic.ts:91-94 | a pass that erases anything lowers the number of puyos on the field |
| Chain.GravityKeepsCount | src/utils/gameLogic.ts:36-41 | gravity keeps the number of puyos on the field |
| Chain.StepDecreases | src/hooks/usePuyoGame.ts:89-104 | an erasing chain level, erase then gravity, strictly lowers the number of puyos, so the chain loop ends |
| Chain.ResolveProperties | src/hooks/usePuyoGame.ts:89-104 | the chain ends on a field where nothing erases; every level erased at least four cells; there is no level iff the first pass erases nothing |
| Chain.ResolveUnfold | src/hooks/usePuyoGame.ts:90-103 | an erasing first pass is one level followed by the chain of the erased-and-fallen field |
| Chain.ChainScoreClosed | src/hooks/usePuyoGame.ts:96 | scoring `100 * k` at each level `k` adds `50 * n * (n + 1)` for `n` levels |
| Chain.ErasePass | src/hooks/usePuyoGame.ts:90-99 | one pass of the chain loop counts the cells `Erase` removes, reports a pass as erasing iff that count is positive, and then yields `Step` of the field |
| Chain.ResolveChain | src/hooks/usePuyoGame.ts:83-104 | the chain loop returns the final field of `Resolve`, the number of levels, the total erased and the score gained |
| Chain.Outgoing | src/hooks/usePuyoGame.ts:106-119 | without a chain the amount is the all-clear bonus of 30 or nothing; with a non-negative erased total it is never below that bonus |
| Chain.OutgoingProperties | src/hooks/usePuyoGame.ts:107-119 | with no chain only the all-clear bonus of 30 is sent; the all-clear adds exactly 30; the amount grows with the erased total and with the chain length; chains of 7 or more use the last table entry |
| Chain.OutgoingExamples | src/hooks/usePuyoGame.ts:86 | four puyos in one chain send 0; a 7-chain of 40 sends 2; an all-clear with no chain sends 30 |
| Chain.Net | src/hooks/usePuyoGame.ts:122-132 | netting gives a non-negative remainder and a non-negative excess whose difference is `incoming - outgoing`, at most one of them non-zero |
| Chain.NetUnique | src/hooks/usePuyoGame.ts:123-129 | those conditions determine the result, and the remainder is `max(0, incoming - outgoing)` |
| Chain.FirstEmptyRow | src/hooks/usePuyoGame.ts:166-171 | the row found is the first empty cell of the column at or below the start, or 12 when there is none |
| Chain.DropOne | src/hooks/usePuyoGame.ts:165-171 | placing one nuisance puyo gives `DropNuisance` of the column |
| Chain.MaterializeNuisance | src/hooks/usePuyoGame.ts:161-173 | materialising the pending amount places one nuisance puyo per drawn column |
| Chain.MaterializedKeepsPuyos | src/hooks/useAIGame.ts:203-211 | materialisation changes no puyo; a cell it changes was empty and becomes purple |
| Chain.MaterializedCount | src/hooks/useAIGame.ts:203-211 | materialisation adds no more puyos than there are pending ones (a full column gets none) |
| Chain.DropNuisanceCount | src/hooks/useAIGame.ts:205-210 | a nuisance puyo adds one puyo exactly when its column has an empty cell |
| Chain.NuisanceLandsOnTop | src/hooks/useAIGame.ts:205-210 | in a settled column with room, the nuisance puyo lands in row 0, the top row, and floats above an empty cell |
| OnlineGame.Lock | src/hooks/usePuyoGame.ts:68-71 | locking writes the axis and then the child into the field, only where `y >= 0`, and copies every other cell |
| OnlineGame.LockKeepsPuyos | src/hooks/usePuyoGame.ts:69-71 | a placeable pair is inside the field's columns and rows, and locking it never overwrites a puyo |
| OnlineGame.FixedProperties | src/hooks/usePuyoGame.ts:63-141 | when cell [0][2] is occupied after the lock, only `isGameOver` changes. Otherwise: the chain's final field remains, with nothing left to erase; the score rises by `50n(n+1)`; the queue head becomes the active pair and the drawn pair is appended; the pending count becomes `max(0, incoming - outgoing)`; the excess is sent iff the player is in a room and it is positive |
| OnlineGame.FixedIncomingBound | src/hooks/usePuyoGame.ts:122-132 | netting never raises the pending count and never makes it negative |
| OnlineGame.DroppedProperties | src/hooks/usePuyoGame.ts:148-177 | a drop does nothing while processing or after game over. When the lowered pair is placeable it moves down one row and nothing else changes. Otherwise it is the lock step, after which the pending count is 0, no puyo of the resolved field changes, and at most the pending number of puyos is added |
| OnlineGame.KeyMovesOnlyThePair | src/hooks/usePuyoGame.ts:193-233 | a left, right or up key, or any other key, changes only the pair, to a placeable position or not at all, and keeps its colours |
| OnlineGame.LockAndResolve | src/hooks/usePuyoGame.ts:68-140 | the lock-and-resolve computation returns the transition `Fixed` describes, keeping the field, the pair and the queue in range |
| OnlineGame.PuyoGame.constructor | src/hooks/usePuyoGame.ts:53-58 | the hook starts with the initial game state, a new pair, and neither processing nor in a room |
| OnlineGame.PuyoGame.StartGame | src/hooks/usePuyoGame.ts:252-259 | a `startGame` event marks the player as in a room and resets the game state and the active pair |
| OnlineGame.PuyoGame.ReceiveNuisancePuyos | src/hooks/usePuyoGame.ts:267-269 | a received amount is added to the pending count, and nothing else changes |
| OnlineGame.PuyoGame.OpponentDisconnected | src/hooks/usePuyoGame.ts:277-280 | an opponent's departure sets `isGameOver`, and nothing else changes |
| OnlineGame.PuyoGame.FixPuyo | src/hooks/usePuyoGame.ts:63-142 | while processing nothing happens; otherwise the state and the sent amount are exactly `Fixed` of the old state, and the processing flag is clear again |
| OnlineGame.PuyoGame.DropPuyo | src/hooks/usePuyoGame.ts:148-177 | the new state and the sent amount are exactly `Dropped` of the old state |
| OnlineGame.PuyoGame.HandleKeyPress | src/hooks/usePuyoGame.ts:193-233 | the new state and the sent amount are exactly `KeyPressed` of the old state |
| AIGame.PlaceInBounds | src/hooks/useAIGame.ts:111-116 | the AI-mode lock writes each puyo only when it is inside the field, child last, and copies every other cell |
| AIGame.PlaceInBoundsIsLock | src/hooks/useAIGame.ts:108-116 | for a pair inside the field's columns and rows it is the online lock |
| AIGame.Landing | src/hooks/useAIGame.ts:63-67 | the simulated drop ends where the next row is not placeable, lowers both puyos by the same non-negative amount, keeps columns and colours, and ends on a placeable position unless it never moved |
| AIGame.HardDrop | src/hooks/useAIGame.ts:63-67 | the drop loop returns `Landing` |
| AIGame.Evaluation | src/hooks/useAIGame.ts:80-89 | a candidate's evaluation is at least 140 per chain level, and 0 exactly when its chain has no level |
| AIGame.EvaluationProperties | src/hooks/useAIGame.ts:80-89 | a candidate's evaluation is never negative; it is 0 iff the first pass erases nothing; otherwise it is at least 140 |
| AIGame.EvaluateChain | src/hooks/useAIGame.ts:80-89 | the simulated chain loop returns `Σ_k (erased_k * 10 + 100 * k)` over the chain of the placed field |
| AIGame.TurnedTimes | src/hooks/useAIGame.ts:51-56 | turning keeps the axis, the child's colour and the offset length |
| AIGame.CandidateProperties | src/hooks/useAIGame.ts:58-60 | a candidate has its axis in the requested column at its old row, keeps both colours, and keeps the offset length |
| AIGame.CandidatesDistinct | src/hooks/useAIGame.ts:48-56 | with the child off the axis, the four rotations of a column are four different pairs |
| AIGame.Select | src/hooks/useAIGame.ts:43-44 | the selection is -1 with evaluation -1, or the index of one of the candidates together with that candidate's evaluation |
| AIGame.SelectProperties | src/hooks/useAIGame.ts:43-44 | selection with `-1` as the start and a strict `>` returns the first index of a maximal score |
| AIGame.SelectFirstOfTies | src/hooks/useAIGame.ts:91-94 | when no later score beats the first, the first candidate is kept |
| AIGame.SimulateCandidate | src/hooks/useAIGame.ts:49-89 | one candidate is dropped and placed to give `Landed`, and its evaluation is `CandidateScore` |
| AIGame.FindBestAIMove | src/hooks/useAIGame.ts:42-98 | the intended search (the corrected member of Findings rows 1 and 2: independent candidate copies, rotation `r` as `r` quarter turns) over columns 0..5 and rotations 0..3 returns the landed first candidate of highest evaluation (`Chosen`) |
| AIGame.PairOnEmptyFieldScoresZero | src/hooks/useAIGame.ts:80-89 | placing one pair on an empty field evaluates to 0 |
| AIGame.EmptyFieldPicksFirstColumn | src/hooks/useAIGame.ts:91-94 | on an empty field every candidate ties at 0, so the choice is the first candidate, landed, with its axis in column 0 |
| AIGame.PuyoObject.constructor | src/hooks/useAIGame.ts:49 | a puyo object starts with the given position and colour |
| AIGame.FindBestAIMoveAsWritten | src/hooks/useAIGame.ts:42-98 | with the shared puyo objects of the code, the returned axis is the caller's own axis object, left in column 5, and the caller's child keeps its column |
| AIGame.CandidateAsWritten | src/hooks/useAIGame.ts:49-60 | the candidate as the code places it, taken as a value: axis moved to column `x` at its old row; rotation 0 keeps the child's offset and row; every rotation above 0 gives the offset of one quarter turn; colours kept |
| AIGame.RotationsCollapse | src/hooks/useAIGame.ts:51-56 | as written, rotations 2 and 3 give the pair of rotation 1; rotations 0 and 1 agree with the intended candidates; rotation 2 differs from the intended half turn whenever the child is off the axis |
| AIGame.SideFixedProperties | src/hooks/useAIGame.ts:100-181 | the AI-mode lock tops out iff [0][2] is occupied after the in-bounds lock, and then only `isGameOver` changes. Otherwise: the chain's final field remains; the score rises by `50n(n+1)`; the queue advances; the own pending count is unchanged; the outgoing amount is at least 0, and at least 30 on an all-clear |
| AIGame.ModesAgreeWithoutPending | src/hooks/useAIGame.ts:162-172 | with nothing pending and the pair inside the field, the AI-mode lock agrees with the online lock, and the amount sent online is the AI amount when positive |
| AIGame.LockAndResolve | src/hooks/useAIGame.ts:108-179 | the two-sided lock computation returns `SideFixed` |
| AIGame.SideDroppedProperties | src/hooks/useAIGame.ts:183-216 | an AI-mode drop while processing, after game over, or with room below changes at most the pair. Otherwise it is the lock step, after which the pending count is 0, no puyo of the resolved field changes, and at most the pending number of puyos is added |
| AIGame.VersusAI.constructor | src/hooks/useAIGame.ts:26-33 | both sides start from their initial states and neither is processing or over |
| AIGame.VersusAI.Apply | src/hooks/useAIGame.ts:162-179 | a lock result replaces the own side, adds the sent amount to the other side's pending count, and records an AI top-out |
| AIGame.VersusAI.FixPuyo | src/hooks/useAIGame.ts:100-181 | while processing nothing changes; otherwise the own side becomes `SideFixed` of its old state and the other side's pending count rises by the outgoing amount |
| AIGame.VersusAI.DropPuyo | src/hooks/useAIGame.ts:183-216 | the own side becomes `SideDropped` of its old state, and the other side receives its outgoing amount |
| AIGame.Command | src/hooks/useAIGame.ts:240-273 | the player's left, right and up keys keep both colours and give either the old pair or one that `canMove` accepts; any other key leaves the pair alone |
| AIGame.VersusAI.AIStep | src/hooks/useAIGame.ts:225-235 | a tick of the computer's timer does nothing while processing or after the computer's game is over; otherwise the computer's side becomes `SideDropped` of the move `Chosen` by the search, the player's pending count receives what it sends, and the player's pair is untouched |
| AIGame.VersusAI.HandleKeyPress | src/hooks/useAIGame.ts:237-276 | the player's keys move or turn the player's pair through `canMove`, or drop it, and change nothing else; nothing happens while processing or after game over |
| Relay.FindRoom | server/src/index.ts:40 | the room found is the first with the id, or -1 when no room has it |
| Relay.FindPlayerRoom | server/src/index.ts:72 | the room found is the first holding the socket, or -1 |
| Relay.IndexOf | server/src/index.ts:107 | the index is the socket's first position in the list, or -1 |
| Relay.FindOpponent | server/src/index.ts:75 | the index is the first player other than the socket, or -1 |
| Relay.JoinedProperties | server/src/index.ts:39-64 | an unknown id adds a room at the end holding just the caller; a full room is left unchanged and the caller is told `roomFull`; otherwise the caller is appended, with `startGame` iff the room had one player; a valid registry (unique ids, one or two players per room) stays valid |
| Relay.JoinTwice | server/src/index.ts:49-50 | a socket that joins the room it is already in is added a second time, and the game starts |
| Relay.Remove | server/src/index.ts:109 | removing one entry shortens the list by one and keeps the others in order |
| Relay.DepartedUntouched | server/src/index.ts:106-108 | rooms without the socket are passed over unchanged and nobody is told |
| Relay.DisconnectStranger | server/src/index.ts:104-123 | a socket in no room leaves the registry unchanged and sends nothing |
| Relay.DisconnectLastPlayer | server/src/index.ts:111-114 | a socket that is alone in its only room deletes that room and tells nobody |
| Relay.DisconnectFromPair | server/src/index.ts:106-121 | a socket sharing its only room leaves the other player alone in it, and that player is told `opponentDisconnected` |
| Relay.DepartedValid | server/src/index.ts:104-123 | a disconnect keeps the registry valid |
| Relay.DisconnectSkipsNextRoom | server/src/index.ts:106-115 | after the joins s→A, s→B, t→B, disconnecting s deletes A and never visits B, so s stays in B and t is not told |
| Relay.RoomRegistry.constructor | server/src/index.ts:24 | the registry starts empty |
| Relay.RoomRegistry.JoinRoom | server/src/index.ts:39-64 | the new registry and the events are exactly `Joined` of the old registry, and the registry stays valid |
| Relay.RoomRegistry.UpdateField | server/src/index.ts:71-81 | nothing is sent iff the sender is in no room, or no one else is in its first room; otherwise one event carries the field, unchanged, to another player of that room |
| Relay.RoomRegistry.SendNuisancePuyos | server/src/index.ts:88-98 | nothing is sent iff the sender is in no room, or no one else is in its first room; otherwise one event carries the amount, unchanged, to another player of that room |
| Relay.DepartStep | server/src/index.ts:106-121 | one turn of the `forEach` over the rooms is exactly one unfolding of `Departed`: the room at position k loses the socket, is dropped when empty, and a lone remaining player is sent `opponentDisconnected` |
| Relay.RoomRegistry.Disconnect | server/src/index.ts:104-123 | the loop over the rooms gives exactly `Departed` of the old registry, and the registry stays valid |

## Left out

- React plumbing: `useState`, `useEffect`, `useCallback`, the `setInterval` game loops (the player's drop timer and the AI's think-and-drop timer), `window` key listeners. The player's timer step is `DropPuyo(false, …)` and the AI's timer step is `AIGame.VersusAI.AIStep`.
- The `sleep` delays and the asynchronous interleaving of queued state updates. In particular, the nuisance update that `dropPuyo` queues can race with the later field writes of the pending `fixPuyo`. The model runs lock, chain and materialisation as one sequential step; with nothing pending the two orders agree.
- `Math.random`: the colours of new pairs and the nuisance columns are parameters. Materialisation requires at least as many drawn columns as there are pending puyos.
- The socket.io transport, `useSocket`, the express/http setup and `listen`. Emits become returned event values. `OnlineGame.PuyoGame.FixPuyo` returns the amount it would emit with `sendNuisancePuyos`.
- Rendering and UI: the components, `displayField` and its AI-mode variants, `alert`, `console.log`, `handleJoinRoom` and `handleRestart`.
- `opponentFieldUpdate` and `roomFull` on the client only store or show a value. They are not modelled.
- Relay.RoomRegistry.UpdateField: the source also skips an opponent whose id is the empty string, which is falsy. The model assumes socket ids are non-empty, as socket.io generates them.
- Relay: the `Room` objects are modelled as values inside the list. `rooms.indexOf(room)` is therefore the room's current position during the iteration, which is what the shared object would give.
- AIGame.VersusAI.AIStep: drops the move the search chose, with the intended search and in sequence. In the source (src/hooks/useAIGame.ts:229-232) the `dropPuyo(true)` that the timer calls is the closure of the render before `setAIPlayerState(bestMove)`. It therefore lowers or locks the pair from before that update, whose axis object the search has moved (Findings row 1), and its own pair update replaces `bestMove`. The stale closure and React's queued updates are not modelled.
- Numbers are mathematical integers: the counts involved (at most 72 cells, scores from short chains) stay far inside the range where JavaScript numbers are exact.
- AIGame.FindBestAIMoveAsWritten: the contract of the object-based search states only what the aliasing of the puyo objects does to the caller's pair and to the returned move; it runs the same drop loop and `AIGame.EvaluateChain`, but its contract says nothing about the evaluations. It requires the caller's two puyos to be distinct objects, as they are whenever a pair is created by `createNewPuyoPair`.

## Findings

| source | as written | input that shows it | evidently intended | confidence | as-written member | corrected member |
|---|---|---|---|---|---|---|
| src/hooks/useAIGame.ts:49,59-60,63-66 | `{ ...currentPuyo }` copies the pair but shares its puyo objects. Every candidate writes `x` and `y` into the caller's own axis object. The returned move's axis is that object, so its column is always the last one tried, 5 | an empty field and the spawn pair: every candidate scores 0, yet the returned axis sits in column 5 | each candidate is an independent copy, so on an empty field the first candidate (column 0, rotation 0) is kept | not executed | AIGame.FindBestAIMoveAsWritten | AIGame.FindBestAIMove, with AIGame.EmptyFieldPicksFirstColumn |
| src/hooks/useAIGame.ts:51-56 | every `rotation > 0` applies the same single quarter turn to the original child, so rotations 2 and 3 repeat rotation 1. This is shown on the candidate taken as a value (`AIGame.CandidateAsWritten`); the sharing of puyo objects is modelled separately in row 1. With that sharing, the axis also keeps the row where the previous candidate's drop left it, so in the full search the candidates can drift further | any pair whose child is off the axis, e.g. the spawn pair: rotation 2 gives the same pair as rotation 1 | rotation `r` turns the child `r` quarter turns, so the four rotations try four different orientations | not executed | AIGame.RotationsCollapse | AIGame.Candidate, with AIGame.CandidatesDistinct |
