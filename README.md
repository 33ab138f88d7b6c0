# 3D-Maze: a verified model of the maze generator and the race state

This project models, in Dafny, the parts of the 3D-Maze racing game that
decide what happens rather than how it looks:

- **the grid maze generator** (`generateMaze`, `generateRandomMaze`,
  `carvePassages`, `ensurePathToFinish`, `CELL_TYPES`). The grid is an
  `array2<Cell>` that the methods fill and carve in place. `Math.random()`
  is a `RandomStream`: a fixed stream of draws in `[0, 1)` with a cursor.
  Every property is proved for every stream;
- **the client race store** (`gameStore.js`), a class whose methods are
  the store actions. `Date.now()` is a `now` parameter, and each firing of
  the 100 ms interval is a call of `Tick`;
- **the server room** (`MazeRoom.js`), a class holding the players by
  session id, the ranking list, the maze index and the race clock. The
  message handlers and room callbacks are its methods;
- **the pure helpers**: `formatTime` and the `seededRandom` recurrence on
  the client; `sortRankings`, `simplifyRanking`, `simplifyPlayer` and
  `generatePlayerName` on the server;
- **the discrete rules inside the scene code**:
  - the teleporter lookup and cooldown, the checkpoint update and the
    respawn target in the player component;
  - the start/finish scans in the maze scene and in the maze-logic hook.

The modules are:

- `Values`: optional values, positions, JavaScript truthiness, `%`,
  `Math.round`.
- `Text`: `toString`, `padStart`.
- `Rankings`: the stable sort by time.
- `ClientHelpers`, `ServerHelpers`, `MazeGenerator`, `MazeScan`,
  `PlayerRules`, `GameStore` and `MazeRoomModel`.

The ranking sort is `sort((a, b) => a.time - b.time)`. JavaScript's sort is
stable, so the model is a stable insertion sort. It is proved to yield a
sorted permutation that keeps entries with equal times in their order.

What the generator in `MazeGenerator.jsx` does, and the model with it:

- It places no traps, teleporters or checkpoints, and runs no path
  search.
- It takes no seed. A fourth argument to `generateMaze` is ignored, and
  every draw comes from `Math.random()`.
- It never makes a grid smaller than 5x5, and every side is odd
  (`OddSize`).
- Its 3x3 clear area around the finish is clamped to the interior. Only
  the 2x2 block ending at the finish and the four cells orthogonally next to the finish
  are cleared. Two of those four cells lie on the outer border, so the
  border is broken there, and the three border corners of the 3x3 block
  stay walls.
- The clear area overwrites whatever was there.
- The start cell is not protected. A side branch from walk cell (2,2) can
  turn it into a path (`MazeGenerator.BranchCanHitStart`).

The model keeps these behaviours of the code, each shown by a scenario
member:

- A room player who joins after the race started has finish time 0. The
  all-finished test (`finishTime !== null`) counts them as finished
  (`MazeRoomModel.LateJoinerCountsAsFinished`).
- Ranking entries carry player ids, but the rotation test compares the
  first entry with the requester's session id. A finisher who joined with
  a player id of their own cannot rotate the maze
  (`MazeRoomModel.SessionIdBlocksRotation`).
- A finish time of 0 is falsy, so the same player can finish again and is
  ranked twice (`MazeRoomModel.ZeroTimeFinishRepeats`).
- A best time of 0 is forgotten by the next finish
  (`GameStore.ZeroBestIsForgotten`).
- A negative maze index that is not a multiple of 5 selects no layout,
  because JavaScript's `%` keeps the sign
  (`MazeGenerator.LayoutComplexity`).
- `carvePassages` is never called, because `createInterestingMaze` is the
  constant `true`. It is modelled on its own.

## Model

| member | source | states |
|---|---|---|
| Values.StringOr | server/utils/helpers.js:40-41 | JavaScript's `or` default on strings: a present, non-empty string is kept, anything else gives the fallback |
| Values.IntOr | server/utils/helpers.js:64 | JavaScript's `or` default on numbers: a present non-zero number is kept, `null`/0 gives the fallback |
| Values.RealOr | server/utils/helpers.js:44-46 | the same rule for coordinates, so 0 is replaced by the default |
| Values.TruncRem | src/state/gameStore.js:87 | JavaScript `%` for a positive modulus: the Euclidean remainder for a non-negative dividend, the negated remainder of the magnitude for a negative one |
| Values.Round | src/components/Player/Player.jsx:277-280 | `Math.round`: the result is within half a unit of the value, halves rounding up |
| Text.NatToString | src/utils/helpers.js:16-18 | `toString()` of a natural number: at least one digit, only digits, a single digit exactly when the number is below 10, and a leading `0` exactly when the number is 0 |
| Text.IntToString | src/utils/helpers.js:16-18 | `toString()` of an integer: a minus sign before the digits of its magnitude when it is negative |
| Text.PadStart2 | src/utils/helpers.js:16-18 | `padStart(2, "0")`: text of two or more characters is kept; one character gets a `0` in front; the empty text becomes `00` |
| Text.NatToStringValue | src/utils/helpers.js:16-18 | the printed digits read back as the number |
| Text.PadStart2Digits | src/utils/helpers.js:16-18 | `padStart(2, "0")` keeps the digits and their value and pads to at least two characters, leaving longer text alone |
| ClientHelpers.TimeFields | src/utils/helpers.js:11-14 | for a natural time: seconds in 0..59, hundredths in 0..99, minutes = t div 60000, seconds = (t div 1000) mod 60, and the three fields recombine to t minus t mod 10 |
| ClientHelpers.FieldsRecombine | src/utils/helpers.js:11-14 | the arithmetic of the fields: seconds in range and the recombination identity |
| ClientHelpers.TwoDigitField | src/utils/helpers.js:16-18 | a field below 100 prints as exactly two digits that read back as the field |
| ClientHelpers.FormatTime | src/utils/helpers.js:8-19 | a missing time prints `--:--:--`; a natural time prints as `M…M:SS.hh`, at least eight characters, with `:` six and `.` three characters from the end and digits everywhere else; exactly eight characters below 100 minutes |
| ClientHelpers.FormatTimeRoundTrip | src/utils/helpers.js:8-19 | reading `formatTime(t)` back as `M…M:SS.hh` gives t truncated to a multiple of 10 ms, for every natural t |
| ClientHelpers.FormatTimeFields | src/utils/helpers.js:11-18 | for every natural time the three printed fields read back as TimeFields' minutes, seconds of the minute (0..59) and hundredths (0..99) |
| ClientHelpers.MissingAndZeroTime | src/utils/helpers.js:9 | a missing time prints `--:--:--`, which is not a time; 0 prints `00:00.00` |
| ClientHelpers.LcgStep | src/utils/helpers.js:88 | one step `(state * 9301 + 49297) % 233280`: in 0..233279 from a non-negative state, of magnitude below 233280 always |
| ClientHelpers.Iterate | src/utils/helpers.js:84-90 | the state after n calls: after at least one call its magnitude is below 233280, and from a non-negative start it is never negative, so in 0..233279 |
| ClientHelpers.SeededRandom.constructor | src/utils/helpers.js:84-85 | the state starts at the seed when it is truthy, else at the unseeded draw |
| ClientHelpers.SeededRandom.Next | src/utils/helpers.js:87-90 | a call advances the state by one recurrence step and returns the new state divided by 233280, which lies in [0, 1) for a non-negative start |
| ClientHelpers.SameSeedSameStream | src/utils/helpers.js:84-90 | two generators from the same non-zero seed return the same values call for call, whatever unseeded start each would have drawn |
| Rankings.Insert | src/state/gameStore.js:71-74 | putting an entry behind every entry whose time is not larger: one entry longer, holding exactly the old entries and the new one |
| Rankings.SortByTime | server/utils/helpers.js:76 | the stable sort by time: as long as its input and holding exactly the same entries (order, multiplicities and stability are in the lemmas below) |
| Rankings.InsertPermutes | src/state/gameStore.js:71-74 | putting an entry behind the sorted list adds exactly that entry |
| Rankings.InsertSorted | src/state/gameStore.js:71-74 | inserting into a sorted list keeps it sorted by time |
| Rankings.InsertStable | src/state/gameStore.js:71-74 | among the entries with any one time, the inserted one comes last and the others keep their order |
| Rankings.SortByTimeOrders | server/utils/helpers.js:76 | the sort by time yields a sorted permutation of its input |
| Rankings.SortByTimeStable | server/utils/helpers.js:76 | the sort keeps entries with equal times in their input order |
| Rankings.SortByTimeCorrect | server/utils/helpers.js:76 | sorted, a permutation, and stable, together |
| Rankings.SortSortedIsIdentity | server/rooms/MazeRoom.js:114 | sorting a list that is already sorted by time leaves it unchanged |
| Rankings.AppendThenSort | src/state/gameStore.js:103-109 | appending one entry to a sorted list and sorting equals inserting it: sorted, old entries plus the new one, the new one last among equal times |
| ServerHelpers.SortRankings | server/utils/helpers.js:73-77 | `None`, standing for `null`, `undefined` and any non-array value, gives `[]`; otherwise a sorted, stable permutation of the input |
| ServerHelpers.SimplifyRanking | server/utils/helpers.js:58-66 | `null` stays `null`; a falsy id, name or time becomes `"unknown"`, `"Unknown"` or 0, truthy fields are kept, and the result's id and name are never empty |
| ServerHelpers.SimplifyRankingIdempotent | server/utils/helpers.js:58-66 | simplifying a simplified ranking changes nothing |
| ServerHelpers.SimplifyPlayer | server/utils/helpers.js:36-51 | `null` stays `null`; a missing position becomes (0, 0.5, 0); each falsy coordinate takes its default, so y is never 0; falsy id, name and finish time take their defaults |
| ServerHelpers.SimplifyPlayerIdempotent | server/utils/helpers.js:36-51 | simplifying a simplified player changes nothing |
| ServerHelpers.GeneratePlayerName | server/utils/helpers.js:16-21 | `Player_` followed by the first five characters (all of a shorter id) of a truthy session id, else by the digits of the random number, which read back as it and start with `0` only for 0 |
| MazeGenerator.Code | src/components/Maze/MazeGenerator.jsx:4-9 | each cell type has its own number (1 wall, 0 path, 3 start, 2 finish), which decodes back to it |
| MazeGenerator.ScaledFloor | src/components/Maze/MazeGenerator.jsx:124-125 | `Math.floor(Math.random() * n)` is an index in 0..n-1 |
| MazeGenerator.LayoutComplexity | src/components/Maze/MazeGenerator.jsx:12-50 | layout `mazeIndex % 5` with complexity 0.3/0.4/0.5/0.25/0.35 for a non-negative index; none for a negative index that is not a multiple of 5 |
| MazeGenerator.OddSize | src/components/Maze/MazeGenerator.jsx:55-56 | `max(5, 2*floor(n/2)+1)` is odd, at least 5, at least n and at most max(5, n+1) |
| MazeGenerator.MonotoneRouteIsConnected | src/components/Maze/MazeGenerator.jsx:83-94 | a walk that moves right or down each step is a 4-connected chain |
| MazeGenerator.MonotoneRouteDistance | src/components/Maze/MazeGenerator.jsx:83-94 | the i-th cell of such a walk is i city-block steps from the first, so no cell repeats and only the last is the end point |
| MazeGenerator.Advance | src/components/Maze/MazeGenerator.jsx:85-94 | before the finish corner, each step moves exactly one cell right or down and stays within the finish row and column; a draw below 0.5 goes right unless the finish column is reached, otherwise down unless the finish row is reached |
| MazeGenerator.WalkStep | src/components/Maze/MazeGenerator.jsx:84-94 | one draw is taken, the walk moves as Advance says, and only the new cell changes, to a path |
| MazeGenerator.BranchPlan | src/components/Maze/MazeGenerator.jsx:96-119 | the branch writes at most two cells, all interior. The diagonal neighbour of the walk cell picked by draws 2 and 3 is written exactly when the first draw is below 0.2 and that neighbour is interior. Its diagonal neighbour picked by draws 5 and 6 is written next exactly when draw 4 is below 0.5 and that cell is interior. Draws used: 1 when the first draw is 0.2 or more, 3 when the first neighbour is not interior, otherwise 4 or 6 as draw 4 is 0.5 or more or below |
| MazeGenerator.ExtendPlan | src/components/Maze/MazeGenerator.jsx:104-117 | the extension writes at most one cell: the diagonal neighbour picked by draws 2 and 3, exactly when the first draw is below 0.5 and that neighbour is interior; it uses 3 draws when the first draw is below 0.5 and 1 otherwise |
| MazeGenerator.BranchCanHitStart | src/components/Maze/MazeGenerator.jsx:66-119 | for some draws, the branch from walk cell (2,2) of a 5x5 grid writes a path onto the start cell (1,1) |
| MazeGenerator.Branch | src/components/Maze/MazeGenerator.jsx:96-119 | the grid changes exactly at the cells BranchPlan names, to paths, and the stream advances by its draw count |
| MazeGenerator.Extend | src/components/Maze/MazeGenerator.jsx:104-117 | the grid changes exactly at the cell ExtendPlan names, to a path, and the stream advances by its draw count |
| MazeGenerator.RoomPlan | src/components/Maze/MazeGenerator.jsx:124-145 | the interior cell picked by the first two draws, and its orthogonal neighbour in the direction picked by draw 4 exactly when draw 3 is below 0.4 and that neighbour is interior; 4 draws when draw 3 is below 0.4, else 3 |
| MazeGenerator.ScatterOne | src/components/Maze/MazeGenerator.jsx:123-147 | when the chosen cell was a wall, exactly the cells RoomPlan names become paths; otherwise nothing changes and two draws are used |
| MazeGenerator.ShuffleDirections | src/components/Maze/MazeGenerator.jsx:223-231 | the shuffled directions are a permutation of down, right, up, left by two cells |
| MazeGenerator.CarvePassages | src/components/Maze/MazeGenerator.jsx:221-265 | every cell either keeps its value or becomes an interior path; the recursion ends because each call follows a wall-to-path write |
| MazeGenerator.EnsurePathToFinish | src/components/Maze/MazeGenerator.jsx:268-296 | the result says whether an interior 4-neighbour of the finish was a path; only when none was, the cell to the left of the finish becomes a path, and nothing else changes; afterwards an interior finish has a path neighbour |
| MazeGenerator.StampFinish | src/components/Maze/MazeGenerator.jsx:159-181 | the finish cell becomes FINISH, the clamped block and the four orthogonal neighbours become paths, and every other cell keeps its value |
| MazeGenerator.Stride | src/components/Maze/MazeGenerator.jsx:83-119 | one loop iteration extends the walked route by one cell right or down, keeping the route open and the carving invariant |
| MazeGenerator.WindingWalk | src/components/Maze/MazeGenerator.jsx:79-120 | the walk ends at the finish corner after (w-3)+(h-3) steps, right or down each time; every cell after the start is a path; the outer wall, a start only at (1,1) and no finish are kept |
| MazeGenerator.ScatterRooms | src/components/Maze/MazeGenerator.jsx:123-147 | the scatter only turns interior cells into paths, so the walked route stays open |
| MazeGenerator.FinishBlock | src/components/Maze/MazeGenerator.jsx:159-181 | stamping the finish over a walked grid gives a well-generated maze: the route's inner cells stay paths because none of them is the finish |
| MazeGenerator.GenerateRandomMaze | src/components/Maze/MazeGenerator.jsx:53-218 | an odd grid of OddSize(height) rows and OddSize(width) columns. It holds an open monotone route from (1,1) to the finish, with every inner cell a path. Exactly one FINISH, at row h-2 and column w-2, with its clear cells paths. A START, if any, only at (1,1). The outer wall is broken only at the two cells below and right of the finish |
| MazeGenerator.GenerateMaze | src/components/Maze/MazeGenerator.jsx:46-50 | the layout's maze, with the same guarantees as GenerateRandomMaze |
| MazeScan.LastInRow | src/components/Maze/MazeScene.jsx:56-82 | the last column of a row holding a cell type: it holds it, no later column does, or no column does |
| MazeScan.LastIn | src/components/Maze/MazeScene.jsx:55-83 | the last cell in row-major order holding a cell type: it holds it, every cell holding it comes no later, or none does |
| MazeScan.LastUpTo | src/components/Maze/useMazeLogic.js:27-41 | the same, for the cells scanned before a given row and column |
| MazeScan.LastUpToStep | src/components/Maze/useMazeLogic.js:35-39 | scanning one more cell makes that cell the answer exactly when it holds the type |
| MazeScan.CellPosition | src/components/Maze/useMazeLogic.js:29-33 | a cell's world position is (col - width/2, 0.5, row - height/2) |
| MazeScan.ScanGrid | src/components/Maze/MazeScene.jsx:55-83 | the scan's start is the last START cell's position or (0, 0.5, 0), and its finish is the last FINISH cell's position, if any |
| MazeScan.OnlyFinishFound | src/components/Maze/MazeScene.jsx:72-81 | in a grid with exactly one FINISH cell the scan finds that cell |
| MazeScan.SceneScan | src/components/Maze/MazeScene.jsx:32-132 | the start as scanned; the scanned finish when there is one and then the grid is unchanged; otherwise the bottom-right cell becomes the finish, is written FINISH, and no other cell changes |
| MazeScan.SceneScanTwice | src/components/Maze/MazeScene.jsx:96-127 | after the effect the grid has a FINISH, and a second run gives the same finish |
| MazeScan.SceneOnGeneratedMaze | src/components/Maze/MazeScene.jsx:20-132 | for the 20x20 request the generated grid is 21x21 with its finish at row 19 and column 19: the scan finds (9, 0.5, 9) without the fallback, and the start is (-9, 0.5, -9) or the default |
| MazeScan.MazeLogic.constructor | src/components/Maze/useMazeLogic.js:14-15 | the start is (0, 0.5, 0) and there is no finish |
| MazeScan.MazeLogic.Recompute | src/components/Maze/useMazeLogic.js:21-60 | the start is the scanned one, the finish the scanned one or the grid's bottom-right cell, and each setter reports a change exactly when the value differs |
| MazeScan.RecomputeIsStable | src/components/Maze/useMazeLogic.js:43-59 | re-running the effect on an unchanged grid replaces neither value |
| PlayerRules.FindDestination | src/components/Player/Player.jsx:282-297 | none exactly when no pair has the pad as an end; otherwise the other end of the first pair that has it, the entry being tested before the exit |
| PlayerRules.TeleportRoundTrip | src/components/Player/Player.jsx:282-297 | when no cell is an end of two pairs, teleporting from the landing cell leads back to the starting pad |
| PlayerRules.PadCell | src/components/Player/Player.jsx:277-280 | the pad's grid cell is within half a unit of its shifted world coordinates |
| PlayerRules.CellRoundTrip | src/components/Player/Player.jsx:277-313 | mapping a cell to world coordinates, with or without the 0.1 landing offset, and rounding back gives the same cell |
| PlayerRules.PlayerController.constructor | src/components/Player/Player.jsx:264-354 | the player starts at the start position, with teleport time 0, no checkpoint and no penalties |
| PlayerRules.PlayerController.ActivateTeleporter | src/components/Player/Player.jsx:234-354 | without teleporter pairs or without the scene's half width the check does not run and nothing changes. Within 1000 ms of the last teleport nothing changes. Otherwise a found destination moves the player to the landing point at their own height, records the time and reports the position. A missing one sends the player to the start without recording the time |
| PlayerRules.PlayerController.TouchCheckpoint | src/components/Player/Player.jsx:384-408 | the checkpoint becomes the touched one, and it was replaced exactly when it was none or a different cell |
| PlayerRules.PlayerController.Respawn | src/components/Player/Player.jsx:122-148 | the penalty is always applied; with scene data the player moves to, and reports, RespawnTarget; without it nothing else changes |
| PlayerRules.RespawnTarget | src/components/Player/Player.jsx:128-139 | the start position without a checkpoint; otherwise a point at the start height that lies in the checkpoint's cell |
| PlayerRules.TeleportCooldownHolds | src/components/Player/Player.jsx:266-316 | an activation less than a second after a successful teleport is skipped, even on the exit pad |
| PlayerRules.CheckpointThenRespawn | src/components/Player/Player.jsx:122-148 | after touching a checkpoint a respawn lands in that checkpoint's cell, and touching it again replaces nothing |
| GameStore.BestAfter | src/state/gameStore.js:66-69 | the new best is the smaller of the time and the previous best, a falsy previous best counting as infinity: never above the new time; the smaller of the two when the previous best is truthy; the new time when it is missing or 0 |
| GameStore.RecordBest | src/state/gameStore.js:62-70 | only the current maze's entry is set, to BestAfter of its old value; every other maze keeps its best |
| GameStore.BestAfterTwice | src/state/gameStore.js:66-69 | two finishes, the first non-zero, keep the smaller time |
| GameStore.ZeroBestIsForgotten | src/state/gameStore.js:68 | a recorded best of 0 is replaced by the next finish time |
| GameStore.Store.constructor | src/state/gameStore.js:4-20 | maze 0, no race, no start time, no positions or rankings, clock 0, no best times |
| GameStore.Store.SetPlayerPosition | src/state/gameStore.js:23-29 | only that player's position entry changes |
| GameStore.Store.StartRace | src/state/gameStore.js:32-53 | the race starts now with clock 0, and one more interval runs |
| GameStore.Store.Tick | src/state/gameStore.js:41-50 | a finished race clears the interval and changes nothing else; otherwise the clock becomes now minus the start time, a null start reading as 0 |
| GameStore.Store.SetRaceFinished | src/state/gameStore.js:56-79 | finishing an unfinished race records the best via RecordBest and adds the player's ranking in sorted order; otherwise best times and rankings are unchanged; the flag is set in every case |
| GameStore.Store.NextMaze | src/state/gameStore.js:82-97 | the index becomes (index+1) % 5, the race flags, clock and rankings are cleared, best times and player data stay |
| GameStore.Store.SetPlayerInfo | src/state/gameStore.js:100 | only the player id and name change |
| GameStore.Store.AddPlayerRanking | src/state/gameStore.js:103-109 | one more entry even for an id already ranked; the list is sorted and a permutation of the old list plus the entry |
| GameStore.Store.ResetGame | src/state/gameStore.js:112-120 | back to maze 0 with a fresh race; best times, positions and player data stay |
| GameStore.FinishIsIdempotent | src/state/gameStore.js:56-79 | a second `setRaceFinished(true)` changes neither rankings nor best times |
| GameStore.ClockStopsAtFinish | src/state/gameStore.js:41-50 | after the race is finished a tick leaves the clock where it stopped |
| GameStore.FiveMazesComeBack | src/state/gameStore.js:82-97 | five `nextMaze` calls return to the same layout with the best times untouched |
| MazeRoomModel.NewPlayer | server/rooms/MazeRoom.js:19-27 | a new player is at (0, 0.5, 0) with finish time 0 and maze 0, named by the given name when truthy, else `Player_` and the first five characters of the id |
| MazeRoomModel.AllFinished | server/rooms/MazeRoom.js:128-131 | true exactly when no player's finish time is `null`: a finish time of 0 counts as finished, and an empty room is all finished |
| MazeRoomModel.MayFinish | server/rooms/MazeRoom.js:100-104 | the sender may finish exactly when they have a player whose finish time is `null` or 0 |
| MazeRoomModel.FinisherId | server/rooms/MazeRoom.js:101-102 | the message's player id if truthy, else the client's stored player id if truthy, else the session id |
| MazeRoomModel.ResetFinishTimes | server/rooms/MazeRoom.js:215-217 | every player stays, with finish time `null` and nothing else changed |
| MazeRoomModel.MazeRoom.constructor | server/rooms/MazeRoom.js:53-62 | no players or rankings, maze 0, race inactive, clock started now |
| MazeRoomModel.MazeRoom.Move | server/rooms/MazeRoom.js:77-96 | only the sender's position changes, and nothing when the sender has no player |
| MazeRoomModel.MazeRoom.Finish | server/rooms/MazeRoom.js:99-140 | recorded exactly when the sender has a player with a falsy finish time. It sets that finish time to now minus the start. It adds one ranking under FinisherId, sorted and as a permutation. Otherwise nothing changes. The next-maze timer starts exactly when every player then has a non-null finish time |
| MazeRoomModel.MazeRoom.RequestNextMaze | server/rooms/MazeRoom.js:143-151 | rotates exactly when the first ranking's id is the requester's session id, and then performs nextMaze; otherwise nothing changes |
| MazeRoomModel.MazeRoom.Join | server/rooms/MazeRoom.js:154-190 | the session gets a new player with the given player id when it is truthy, else the session id; the race restarts exactly when that player is the only one |
| MazeRoomModel.MazeRoom.Leave | server/rooms/MazeRoom.js:192-202 | only that session's player is removed; an empty room is reset |
| MazeRoomModel.MazeRoom.StartRace | server/rooms/MazeRoom.js:209-224 | race active from now, no rankings, every finish time `null` |
| MazeRoomModel.MazeRoom.NextMaze | server/rooms/MazeRoom.js:227-236 | maze (index+1) % 5, staying in 0..4, then a new race |
| MazeRoomModel.MazeRoom.ResetRoom | server/rooms/MazeRoom.js:239-243 | maze 0, race inactive, no rankings, players unchanged |
| MazeRoomModel.LateJoinerCountsAsFinished | server/rooms/MazeRoom.js:129-138 | with one racer and a newcomer who joined later, the racer's finish alone starts the next-maze timer |
| MazeRoomModel.SessionIdBlocksRotation | server/rooms/MazeRoom.js:143-151 | the only finisher, ranked under a player id that differs from their session id, cannot rotate the maze |
| MazeRoomModel.ZeroTimeFinishRepeats | server/rooms/MazeRoom.js:104-114 | a finish at time 0 leaves the player able to finish again, giving two ranking entries |
| MazeRoomModel.JoinThenLeave | server/rooms/MazeRoom.js:154-202 | joining a non-empty room and leaving again leaves the other players as they were |

## Left out

- Rendering, animation, lighting, physics, collision and the trap
  components: they decide nothing beyond what is drawn.
- The proximity tests: the teleporter radius and height test, the
  checkpoint distance test, the finish distance tests, `calculateDistance`
  and `isWithinThreshold`. They rely on floating-point square roots.
  `ActivateTeleporter` and `TouchCheckpoint` start at the point where the
  player is already on the pad or at the checkpoint.
- The loop over teleporter meshes in one frame is left out. A frame
  activates at most one pad, because the source returns after any
  activation, and the model handles that one activation.
- Floating-point numbers are exact reals. NaN, infinities and rounding
  are not modelled. The scatter loop bound `i < w * h * 0.15` is compared
  exactly.
- Timers and scheduling:
  - The tick interval is the explicit `Tick`, and the cleanup function
    returned by `startRace` is not modelled.
  - The room's ten-second `setTimeout` is reported by `Finish` as
    `timerStarted` rather than run.
  - The scene's rotation timer and `debounce` are not modelled.
- Networking: `broadcast`, `client.send`, `sendMove`/`sendFinish`, the
  Colyseus hook and the server bootstrap. The room's `maxClients` limit
  of 8 is enforced by the framework and not modelled.
- Random identifiers: `generateUniqueId`, `generateRandomSeed` and the
  random default player id and name. Where the source draws a number
  (the unseeded start of `seededRandom`, the name suffix in
  `generatePlayerName`), it is a parameter.
- Console logging and the debug cell counts in the generator and the
  scene.
- JavaScript's default arguments of `generateMaze` (10, 10, 0) are not
  modelled. Width and height are integers.
- The store fields the player component reads but the store does not
  define are fields of `PlayerController`: `applyRespawnPenalty`,
  `lastCheckpoint` and `teleporterPairs`. A penalty is counted, not
  applied to the clock.
- A checkpoint set earlier in the same frame is visible to the next one.
  The source reads `lastCheckpoint` from the store, which may still be
  stale within a frame.
- Grids are rectangular (`array2`). Jagged rows, which the scans would
  tolerate, do not occur.
- `MapSchema` and `ArraySchema` are a map and a sequence. Schema change
  tracking is not modelled. `client.userData` is a map from session id to
  player id, dropped when the session leaves.
- The shuffle `directions.sort(() => Math.random() - 0.5)` depends on the
  engine's sort. It is modelled as each draw picking the next direction,
  and only its being a permutation is stated.
- MazeGenerator.GenerateMaze: requires a layout to exist. A negative
  index that is not a multiple of 5 makes the source throw, and the model
  does not describe the throw.
- MazeScan.SceneScan: requires a grid with at least one row. The source
  reads `mazeData[0].length` for a log line before scanning, which throws
  on an empty grid; the model does not describe the throw.
- MazeScan.MazeLogic.Recompute: requires a grid with at least one row.
  On an empty grid no FINISH is found and the fallback reads
  `generatedMaze[0].length`, which throws; the model does not describe
  the throw.
- PlayerRules.PlayerController.ActivateTeleporter: the third condition of
  the check, that the scene holds teleporter meshes, is part of the left
  out proximity test (without meshes no pad is ever stood on).
- MazeGenerator.CarvePassages: states only that it carves interior walls
  into paths, not which cells, because the source never calls it.
- GameStore.Store.SetRaceFinished: states the new ranking list as
  `SortByTime` of the old list plus the entry, and that it is sorted. It
  does not repeat the permutation in its own contract. That follows from
  `Rankings.SortByTimeCorrect`.
