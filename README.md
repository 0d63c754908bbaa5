# PuzzlePuzzle core in Dafny

PuzzlePuzzle is a grid puzzle game that mixes four modes. In **sliding** mode,
pieces slide into an empty slot. In **lights-out** mode, a click toggles the
lights in a neighbourhood. In **pipe** mode (Pipemania), pieces carry pipes
that must be turned until water from a pump fills every pipe. In **rhythm**
mode, a move counts only when it is made on the beat. This project models:

- the grid state: `PuzzleState`;
- the puzzle engine: `Puzzle`. This covers the pipe mask arithmetic, the
  flood fill from the pump, the pipe-map generator, the shuffle that
  scrambles a solved board into a level, undo, and the two click handlers;
- the procedural level generator: `GameManager.GetLevel`.

It proves properties of each of them.

The files follow the program's structure:

| file | module | what it holds |
|---|---|---|
| grid.dfy | `Grid` | the cell record, boards as maps from positions to optional cells, and the mutators of the grid state as functions on boards. It also holds the neighbourhood and win-test specifications and their lemmas. |
| rng.dfy | `Rng` | `Random`, the seeded generator, as a stream of raw draws with a cursor |
| pipes.dfy | `Pipes` | 4-bit opening masks, `RotateMask`, the pipe table and its matching, and `UpdatePipePos` |
| flow.dfy | `Flow` | reachability from the pump, the specification of the flood fill |
| pipe_map.dfy | `PipeMaps` | the pump and exit choices, the path finder's contract, and the conversion of paths into pipe pieces |
| moves.dfy | `Moves` | recorded actions, their undo, the shuffle's steps, and solution replay |
| level.dfy | `Levels` | the level record and `GetLevel` |
| puzzle_state.dfy | `PuzzleStates` | class `PuzzleState` over a 2-D array, with every method proved against the `Grid` functions |
| puzzle.dfy | `Puzzles` | class `Puzzle`: pipe map, `Build`, flood fill, undo, clicks and shuffle |

**How the state is represented.** A `PuzzleState` keeps its cells in an
`array2<Option<Element>>`. Its ghost `Board()` reads that array as a map.

**How the methods are specified.** Every mutator states its new board
outright as a function of the old one, for example
`Board() == SwapCells(old(Board()), p1, p2)`. Lemmas then state what the
source promises about those functions: involutions, round trips, ranges, and
"nothing else changes".

**How the flood fill is specified.** `UpdatePipes` is specified by
reachability. Afterwards, a present cell is full exactly when the pump
reaches it through matching openings. A drain is full exactly when a reached
cell, or the pump, opens onto it.

**How the shuffle is specified.** The shuffle is specified by its walk. After
it runs, replaying the recorded solution on the scrambled board gives back
the solved board. No two snapshots of the walk are alike under `IsSame`.

**Randomness and path finding.** Draws from `System.Random` come from an
oracle stream. So do draws from the list-picking helper that Shuffle uses. A*
path finding is a function parameter.

## Model

| member | source | states |
|---|---|---|
| Grid.CsRem | Assets/Scripts/PuzzleState.cs:103-113 | C#'s `%`, which truncates toward zero: it agrees with the Euclidean remainder for a non-negative dividend and lies in (−m, 0] for a negative one |
| Grid.TotalRotation | Assets/Scripts/PuzzleState.cs:192 | for a cell whose rotations are in range, the total rotation is pipe rotation plus piece rotation modulo 4, and lies in [0,4) |
| Grid.IdentityBoard | Assets/Scripts/PuzzleState.cs:64-73 | Identity fills exactly the cells of the grid |
| Grid.IdentityCells | Assets/Scripts/PuzzleState.cs:64-73 | after Identity each cell is present, remembers its own position, has its light on, has no pipe, has both rotations 0, and is neither full nor immovable |
| Grid.SwapCells | Assets/Scripts/PuzzleState.cs:96-101 | Swap exchanges the two slots, present or absent, and leaves every other slot unchanged |
| Grid.SwapSymmetric | Assets/Scripts/PuzzleState.cs:96-101 | Swap(p1, p2) and Swap(p2, p1) give the same grid |
| Grid.SwapTwice | Assets/Scripts/PuzzleState.cs:96-101 | swapping the same two slots twice restores the grid |
| Grid.RotateCell | Assets/Scripts/PuzzleState.cs:103-113 | Rotate changes only the piece rotation of the one cell and keeps it present |
| Grid.RotateInRange | Assets/Scripts/PuzzleState.cs:103-113 | a counterclockwise turn adds 1 modulo 4; a clockwise turn subtracts 1 and wraps −1 to 3; the rotation stays in [0,4) |
| Grid.RotateRoundTrip | Assets/Scripts/PuzzleState.cs:103-113 | a turn one way followed by a turn the other way restores the cell, in either order |
| Grid.RotateFourTimes | Assets/Scripts/PuzzleState.cs:103-113 | four turns in the same direction restore the cell |
| Grid.RotateCellRoundTrip | Assets/Scripts/PuzzleState.cs:103-113 | on the grid, Rotate(p, ccw) followed by Rotate(p, !ccw) restores every cell |
| Grid.ToggleLights | Assets/Scripts/PuzzleState.cs:316-345 | ToggleLight keeps the set of slots; the per-cell effect is stated by ToggleLightsEffect |
| Grid.ToggleLightsEffect | Assets/Scripts/PuzzleState.cs:316-345 | a slot's presence and every field other than the light are unchanged. A light flips exactly when the cell is present, in the grid, within the square of radius d, and also within Manhattan distance d (VonNeumann), anywhere in the square (Moore), or on the same row or column (Cross) |
| Grid.ToggleTwice | Assets/Scripts/PuzzleState.cs:316-345 | toggling twice at the same centre restores the grid |
| Grid.ActionsKeepWellFormed | Assets/Scripts/PuzzleState.cs:96-113 | ToggleLight, Swap and Rotate keep every cell's rotations and pipe type within their ranges |
| Grid.EmptyNeighbour | Assets/Scripts/PuzzleState.cs:140-149 | a neighbour is found iff one of the four orthogonal in-grid neighbours is empty. The one found is empty, adjacent, and the first empty one in the order −x, +x, −y, +y |
| Grid.SameReflexive | Assets/Scripts/PuzzleState.cs:194-232 | every state IsSame as itself |
| Grid.SameSymmetric | Assets/Scripts/PuzzleState.cs:194-232 | IsSame is symmetric for states of one configuration |
| Grid.SameKeepsPresence | Assets/Scripts/PuzzleState.cs:194-232 | two states that are the same have their empty slots in the same places |
| Grid.CloneBoard | Assets/Scripts/PuzzleState.cs:234-249 | Clone keeps the set of slots; its relation to the original is stated by CloneIsSame |
| Grid.CloneIsSame | Assets/Scripts/PuzzleState.cs:234-249 | a clone IsSame as its original in both directions, keeps which slots are present, and keeps every cell within its ranges |
| Grid.SameAsClone | Assets/Scripts/PuzzleState.cs:194-249 | comparing with a clone gives the same answer as comparing with the original |
| Grid.GapPos | Assets/Scripts/PuzzleState.cs:273-277 | the gap cell, (w/2 if w is odd else 0, h/2 if h is odd else h−1), lies inside any non-empty grid |
| Grid.IdentitySolved | Assets/Scripts/PuzzleState.cs:251-314 | right after Identity the win test holds, unless the level is sliding without an image, which needs its gap cleared |
| Grid.IdentityWithGapSolved | Assets/Scripts/PuzzleState.cs:251-314 | the identity grid with the gap cell cleared passes the win test |
| Grid.ToggleBreaksLights | Assets/Scripts/PuzzleState.cs:316-345 | from an all-lights-on grid, a toggle centred on a present cell leaves the lights-out test failing |
| Grid.KeepsPiecesTrans | Assets/Scripts/Puzzle.cs:553-598 | the generation steps, each of which only adds pipes, pins pieces or removes pieces, compose |
| Grid.GeneratedSolved | Assets/Scripts/Puzzle.cs:553-598 | a grid built from the identity pieces passes the win test outside pipe mode, given that in image-less sliding mode the gap is empty. Such a grid is unmoved, unrotated and all lights on |
| Grid.ClearedKeepsPieces | Assets/Scripts/Puzzle.cs:575-598 | clearing one slot only removes a piece |
| Grid.PinStep | Assets/Scripts/Puzzle.cs:564-572 | pinning one more present piece (not a pipe piece in pipe mode) changes only immovable flags, and only to true |
| Grid.PinnedKeepsPieces | Assets/Scripts/Puzzle.cs:564-572 | changing only immovable flags keeps every piece where it was |
| Rng.Pick | Assets/Scripts/Puzzle.cs:621 | a draw from Range(lo, hi) lies in [lo, hi) when that range is non-empty, and is lo otherwise |
| Rng.PickCovers | Assets/Scripts/Puzzle.cs:621 | every value of a non-empty range can be drawn |
| Rng.Random.constructor | Assets/Scripts/GameManager.cs:178 | a new generator starts at the head of its stream of draws |
| Rng.Random.Range | Assets/Scripts/Puzzle.cs:621 | Range consumes one draw and returns a value in its range |
| Rng.Random.RandomXY | Assets/Scripts/PuzzleState.cs:121 | RandomXY consumes two draws and returns a position inside any non-empty grid |
| Pipes.RotateMaskSteps | Assets/Scripts/Puzzle.cs:461-469 | the loop of RotateMask computes `count` single rotations of the byte, and none for a count ≤ 0 |
| Pipes.RotateLeftBits | Assets/Scripts/Puzzle.cs:461-469 | one step of RotateMask keeps a 4-bit mask within 4 bits and undoes the generator's right rotation |
| Pipes.RotateLeftBit | Assets/Scripts/Puzzle.cs:461-469 | one step moves the opening in direction i to direction i+1 mod 4 |
| Pipes.RotateMaskBound | Assets/Scripts/Puzzle.cs:461-469 | RotateMask of a 4-bit mask stays within 4 bits |
| Pipes.RotateMaskBits | Assets/Scripts/Puzzle.cs:461-469 | rotating by k moves the opening in direction i to direction i+k mod 4 |
| Pipes.StepModFour | Assets/Scripts/Puzzle.cs:461-469 | a modulo-4 counter advanced by one agrees with the count advanced by one |
| Pipes.RotateMaskCompose | Assets/Scripts/Puzzle.cs:461-469 | rotations compose additively |
| Pipes.RotateMaskFour | Assets/Scripts/Puzzle.cs:461-469 | rotating a 4-bit mask by 4 is the identity |
| Pipes.RotateMaskModulo | Assets/Scripts/Puzzle.cs:461-469 | rotating by k is rotating by k mod 4 |
| Pipes.RotateMaskPopCount | Assets/Scripts/Puzzle.cs:461-469 | a rotation keeps the number of openings |
| Pipes.ScanTable | Assets/Scripts/Puzzle.cs:703-710 | the downward scan of pipeBitmask returns −1 or an index whose entry equals the mask |
| Pipes.PipeMatchFrom | Assets/Scripts/Puzzle.cs:699-715 | after some right rotations have been tried, a match found later, rotated back by the difference, gives the mask it was matched for |
| Pipes.PipeMatchCorrect | Assets/Scripts/Puzzle.cs:699-715 | when a pipe type is assigned, pipeRot is in [0,4) and RotateMask(pipeBitmask[type], pipeRot) equals the neighbour mask |
| Pipes.PipeMatchNoneIffSparse | Assets/Scripts/Puzzle.cs:699-715 | a mask gets no pipe exactly when it has at most one opening |
| Pipes.MatchPipe | Assets/Scripts/Puzzle.cs:699-715 | the nested matching loop assigns the first table entry at the first rotation that matches, or type −1 |
| Pipes.UpdatePipePos | Assets/Scripts/Puzzle.cs:512-524 | a direction in [0,4) gives an orthogonal neighbour; any other value leaves the position |
| Pipes.UpdatePipePosOpposite | Assets/Scripts/Puzzle.cs:512-524 | stepping in direction i and then in (i+2) mod 4 returns to the start |
| Pipes.UpdatePipePosInjective | Assets/Scripts/Puzzle.cs:512-524 | different directions lead to different neighbours |
| Pipes.NeighbourMask | Assets/Scripts/Puzzle.cs:693-697 | the neighbour mask of a path cell has at most 4 bits |
| Pipes.NeighbourMaskBits | Assets/Scripts/Puzzle.cs:693-697 | bit i is set iff the neighbour in direction i is on a path |
| Pipes.AssignedPipeFitsPath | Assets/Scripts/Puzzle.cs:693-718 | a path cell gets a pipe iff at least two of its neighbours are path cells. The assigned pipe, under its rotation, opens in direction i iff that neighbour is a path cell |
| Flow.LitUpTo | Assets/Scripts/Puzzle.cs:494-500 | after scanning the first k drains at position pos, exactly those among them sitting at pos have been lit, in addition to the ones already lit |
| Flow.PumpReachable | Assets/Scripts/Puzzle.cs:448-456 | the flood starts at the pump |
| Flow.ReachStep | Assets/Scripts/Puzzle.cs:476-490 | a neighbour entered through an opening i whose pipe has the opening (i+2) mod 4 is reached |
| Flow.ReachableHasPipe | Assets/Scripts/Puzzle.cs:476-490 | every reached cell other than the pump is a present cell with a pipe |
| Flow.GrowsTrans | Assets/Scripts/Puzzle.cs:433-505 | the recursive fill only adds full cells and lit drains, and this composes across calls |
| Flow.ClosedDirGrows | Assets/Scripts/Puzzle.cs:471-505 | a direction already spread through stays settled as the fill grows |
| Flow.ClosedGrows | Assets/Scripts/Puzzle.cs:471-505 | a cell already spread through stays settled as the fill grows |
| Flow.SettledAcrossStep | Assets/Scripts/Puzzle.cs:473-503 | one more direction spread keeps every earlier direction and every newly filled cell settled |
| Flow.SettledAfterFill | Assets/Scripts/Puzzle.cs:435-445 | a cell filled and then spread through is settled, together with what its spread filled |
| Flow.OutMaskOfLayout | Assets/Scripts/Puzzle.cs:442-443 | filling cells does not change a pipe's openings |
| Flow.ClosedCoversReach | Assets/Scripts/Puzzle.cs:433-505 | once the pump and every full cell are settled, every cell the pump reaches is full |
| Flow.FloodedFromClosure | Assets/Scripts/Puzzle.cs:410-505 | a settled fill of reachable cells is exactly the flood of the layout |
| PipeMaps.EndPositions | Assets/Scripts/Puzzle.cs:681-691 | the list of drain positions follows pipeEndPos entry by entry |
| PipeMaps.EndPositionsAppend | Assets/Scripts/Puzzle.cs:667-670 | adding a drain adds its position at the end |
| PipeMaps.PumpMaskSingle | Assets/Scripts/Puzzle.cs:450-454 | the pump's mask, 0b0001 rotated by its rotation, has exactly the one opening in that direction |
| PipeMaps.PumpFacesGrid | Assets/Scripts/Puzzle.cs:621-624 | every pump placement lies outside the grid with a rotation in [0,4). Its single opening leads into the grid |
| PipeMaps.ExitAsWrittenMissesSide | Assets/Scripts/Puzzle.cs:649-655 | as written, no exit lands on the y = 0 side of the padded grid except its corners; the draw r = 3 gives the corner (0,0) with rotation 0 |
| PipeMaps.ExitAsWrittenFacesGrid | Assets/Scripts/Puzzle.cs:649-668 | as written, every exit is a border cell of the padded grid and its drain is outside the grid. Unless the exit is a corner, the drain's rotation leads into the grid |
| PipeMaps.CornerDrainIsolated | Assets/Scripts/Puzzle.cs:649-668 | the drain from r = 3 sits at (−1,−1), diagonal to the grid: no direction leads from it into the grid |
| PipeMaps.ExitFacesGrid | Assets/Scripts/Puzzle.cs:649-668 | with the fourth side reachable, every exit is a border cell of the padded grid and its drain is outside the grid. Unless the exit is a corner, the drain's rotation leads into the grid |
| PipeMaps.ExitCoversBorder | Assets/Scripts/Puzzle.cs:649-655 | with the fourth side reachable, every non-corner border cell of the padded grid can be drawn as an exit |
| PipeMaps.ClosedCells | Assets/Scripts/Puzzle.cs:638-659 | in one try, the pump's cell and the exit are open and every other border cell of the padded grid is closed |
| PipeMaps.OpenPathIsInner | Assets/Scripts/Puzzle.cs:657-664 | a path through open cells stays inside the grid except at the pump's cell and the exit |
| PipeMaps.PipedCellWellFormed | Assets/Scripts/Puzzle.cs:717-718 | SetPipe with a matched type and rotation keeps every cell in range |
| PipeMaps.PipedKeepsPieces | Assets/Scripts/Puzzle.cs:678-719 | converting paths into pipes changes no piece's position, light, piece rotation or fill |
| PipeMaps.PipedCellIdempotent | Assets/Scripts/Puzzle.cs:678-719 | converting a cell twice is converting it once, so repeated path cells are harmless |
| PipeMaps.PipedCellFitsPath | Assets/Scripts/Puzzle.cs:678-719 | the pump's cell, drain cells and cells off the paths are never converted. A converted cell's pipe opens in direction i iff that neighbour is a path cell. A cell that is not converted keeps its content |
| PipeMaps.ConvertStep | Assets/Scripts/Puzzle.cs:678-719 | each step of the foreach over allPaths extends the converted prefix by one path cell |
| PipeMaps.GapLoopAsWritten | Assets/Scripts/Puzzle.cs:586-598 | the image-less gap loop as written: when it ends, it has chosen the fixed gap cell, and that cell has no pipe |
| PipeMaps.GapLoopAsWrittenHangs | Assets/Scripts/Puzzle.cs:586-598 | if the fixed gap cell carries a pipe, the loop never ends, whatever the number of iterations allowed |
| PipeMaps.GapCanCarryPipe | Assets/Scripts/Puzzle.cs:586-598 | a concrete case the generator can reach: on a 3×3 sliding + pipe level without image, the pump drawn above column 0 (the only column Range(0, 3/2) gives) and the exit drawn at padded (2,4) are joined by an open path of adjacent cells that turns the gap cell (1,1) into a straight pipe |
| PipeMaps.GapPathOpen | Assets/Scripts/Puzzle.cs:638-660 | the witness path runs through open cells of a try without block tiles, one orthogonal step at a time |
| PipeMaps.GapPathPipes | Assets/Scripts/Puzzle.cs:678-719 | converting the witness path gives the identity piece at the centre a pipe |
| Moves.ApplyAction | Assets/Scripts/Puzzle.cs:196-274 | a player action keeps the set of slots; its effect is stated by the lemmas below |
| Moves.UndoAction | Assets/Scripts/Puzzle.cs:279-310 | an undo keeps the set of slots |
| Moves.UndoInvertsAction | Assets/Scripts/Puzzle.cs:279-310 | Undo restores the grid exactly after a move (toggle at end, then swap back) or a rotation (a clockwise turn after a counterclockwise one). After a toggle it does nothing |
| Moves.ShuffleStep | Assets/Scripts/Puzzle.cs:740-872 | a shuffle step keeps the set of slots |
| Moves.ActionRevertsShuffleStep | Assets/Scripts/Puzzle.cs:740-872 | playing the recorded action after the shuffle's step restores the grid, for moves, toggles and rotations |
| Moves.ShuffleStepWellFormed | Assets/Scripts/Puzzle.cs:740-872 | shuffle steps and player actions keep every cell in range |
| Moves.Replay | Assets/Scripts/Puzzle.cs:878 | playing a solution keeps the set of slots |
| Moves.Reversed | Assets/Scripts/Puzzle.cs:878 | List.Reverse: the k-th element is the (n−1−k)-th of the input |
| Moves.Clones | Assets/Scripts/Puzzle.cs:726 | the snapshots are clones of the walk's boards, one for one |
| Moves.ClonesAppend | Assets/Scripts/Puzzle.cs:772 | adding a snapshot adds one clone at the end |
| Moves.DistinctExtend | Assets/Scripts/Puzzle.cs:753-770 | a state unlike every earlier snapshot keeps all the snapshots pairwise distinct |
| Moves.ShuffleWalkExtend | Assets/Scripts/Puzzle.cs:772-781 | an accepted step extends the walk, and its recorded action leads back one step |
| Moves.ReplayReversedWalk | Assets/Scripts/Puzzle.cs:878 | replaying the recorded actions in reverse order, from the end of the walk, returns to its start |
| Moves.ShuffleOptions | Assets/Scripts/Puzzle.cs:728-732 | move (0) is offered iff sliding; toggle (1) iff lights-out without sliding; rotate (2) iff pipe mode |
| Moves.OptionRecordable | Assets/Scripts/Puzzle.cs:728-732 | every offered option records an action the level's modes allow |
| Moves.RecordableAppend | Assets/Scripts/Puzzle.cs:781 | appending allowed actions keeps the solution allowed |
| Moves.RecordableReversed | Assets/Scripts/Puzzle.cs:878 | reversing keeps the solution allowed |
| Levels.Clamp | Assets/Scripts/GameManager.cs:196-197 | Mathf.Clamp lands in [lo, hi] and leaves an in-range value alone |
| Levels.Int32 | Assets/Scripts/GameManager.cs:178 | the seed arithmetic wraps to a 32-bit int, leaving in-range values alone |
| Levels.SeedSmallLevels | Assets/Scripts/GameManager.cs:178 | the seed is level·12345 + level·123 + level = 12469·level as long as that fits in 32 bits |
| Levels.TypeGates | Assets/Scripts/GameManager.cs:180-192 | the first drawn mode is always present; a second only when a draw in [0,100) falls below baseLevel; a third only when a further such draw falls below it too |
| Levels.PickFrom | Assets/Scripts/GameManager.cs:222-225 | picking from a list gives an index into it iff the list is non-empty |
| Levels.Generate | Assets/Scripts/GameManager.cs:176-227 | see the list below the table |
| Levels.GetLevel | Assets/Scripts/GameManager.cs:172-230 | an index below the authored count returns the authored level unchanged; beyond it the level is generated, shuffled, not randomly seeded, 4..8 each way |
| Levels.GeneratedDeterministic | Assets/Scripts/GameManager.cs:172-230 | the level depends only on the draws its seed yields |
| PuzzleStates.SampleSound | Assets/Scripts/PuzzleState.cs:115-138 | a sampled position is present, movable unless allowed, piped if required, and with an empty neighbour if required. A failure returns (0,0). At most 100 tries, each consuming two draws |
| PuzzleStates.SampleFailsWhenNothingEligible | Assets/Scripts/PuzzleState.cs:115-138 | with no eligible cell, sampling fails after exactly 100 tries |
| PuzzleStates.PuzzleState.Board | Assets/Scripts/PuzzleState.cs:51 | the board is the state array read cell by cell |
| PuzzleStates.PuzzleState.constructor | Assets/Scripts/PuzzleState.cs:53-62 | a new state has the level's configuration and every slot empty |
| PuzzleStates.PuzzleState.Identity | Assets/Scripts/PuzzleState.cs:64-73 | the nested loops leave the identity board |
| PuzzleStates.PuzzleState.Clear | Assets/Scripts/PuzzleState.cs:75-78 | exactly the one slot becomes empty |
| PuzzleStates.PuzzleState.SetImmoveable | Assets/Scripts/PuzzleState.cs:80-86 | only the immovable flag of the one cell changes, if it is present |
| PuzzleStates.PuzzleState.SetFull | Assets/Scripts/PuzzleState.cs:88-94 | only the full flag of the one cell changes, if it is present |
| PuzzleStates.PuzzleState.SetPipe | Assets/Scripts/PuzzleState.cs:171-175 | only the pipe type and pipe rotation of the one cell change |
| PuzzleStates.PuzzleState.Swap | Assets/Scripts/PuzzleState.cs:96-101 | the grid becomes SwapCells of the old one |
| PuzzleStates.PuzzleState.Rotate | Assets/Scripts/PuzzleState.cs:103-113 | the grid becomes RotateCell of the old one |
| PuzzleStates.PuzzleState.GetEmptyNeighbour | Assets/Scripts/PuzzleState.cs:140-149 | it reports the first empty orthogonal neighbour, or false and (0,0) |
| PuzzleStates.PuzzleState.GetRandomGridPos | Assets/Scripts/PuzzleState.cs:115-138 | the result and the draws consumed are those of the sampling specification |
| PuzzleStates.PuzzleState.Accepts | Assets/Scripts/PuzzleState.cs:122-133 | the tests on one sampled position accept it iff it is eligible |
| PuzzleStates.PuzzleState.IsSame | Assets/Scripts/PuzzleState.cs:194-232 | the nested comparison loops return the specification's sameness: equal presence, positions under sliding with image, lights under lights-out, piece rotations under pipe mode |
| PuzzleStates.PuzzleState.Clone | Assets/Scripts/PuzzleState.cs:234-249 | a fresh state with the same configuration, holding a cell-by-cell clone |
| PuzzleStates.PuzzleState.CheckSolution | Assets/Scripts/PuzzleState.cs:251-314 | the win test is the conjunction of the tests of the active modes |
| PuzzleStates.PuzzleState.CheckSliding | Assets/Scripts/PuzzleState.cs:253-279 | sliding: with an image, every present piece is at its original position; without one, the gap cell is empty |
| PuzzleStates.PuzzleState.CheckLights | Assets/Scripts/PuzzleState.cs:282-294 | lights-out: every present light is on |
| PuzzleStates.PuzzleState.CheckPipes | Assets/Scripts/PuzzleState.cs:297-311 | pipe mode: every pipe piece is full, and unrotated when the level has an image |
| PuzzleStates.PuzzleState.ToggleLight | Assets/Scripts/PuzzleState.cs:316-345 | the grid becomes ToggleLights of the old one |
| Puzzles.Puzzle.constructor | Assets/Scripts/Puzzle.cs:553-554 | a level starts from a fresh identity state with no pump, drains, solution, snapshots or undo entries |
| Puzzles.Puzzle.PlacePump | Assets/Scripts/Puzzle.cs:621-624 | the pump lies outside the grid with a rotation in [0,4), and its one opening leads into the grid |
| Puzzles.Puzzle.DrainTry | Assets/Scripts/Puzzle.cs:636-661 | the exit is chosen as written: a side draw of 3 takes no position draw and aims at the corner (0,0). The exit is on the padded border, its drain is outside the grid, and its rotation leads into the grid unless it is a corner. Any path returned stays in the grid except at its ends |
| Puzzles.Puzzle.FindDrain | Assets/Scripts/Puzzle.cs:635-675 | a drain is accepted only with a path longer than minPathLength, with the exit properties above |
| Puzzles.Puzzle.PlaceDrains | Assets/Scripts/Puzzle.cs:628-676 | at most numberOfOuts drains, each outside the grid with a rotation in [0,4). Every path cell is the pump's cell, a drain's cell or a grid cell |
| Puzzles.Puzzle.ConvertCell | Assets/Scripts/Puzzle.cs:679-718 | one path cell: its grid slot becomes PipedCell of itself, and off-grid cells change nothing |
| Puzzles.Puzzle.IsEnd | Assets/Scripts/Puzzle.cs:681-691 | the drain scan answers iff some drain sits at that cell |
| Puzzles.Puzzle.SetPathPipe | Assets/Scripts/Puzzle.cs:693-718 | an inner path cell gets the matched pipe, or is left alone when nothing matches |
| Puzzles.Puzzle.ConvertPaths | Assets/Scripts/Puzzle.cs:678-719 | afterwards every grid slot is PipedCell of its old content, so exactly the converted path cells carry pipes |
| Puzzles.Puzzle.CreatePipeMap | Assets/Scripts/Puzzle.cs:619-720 | pump and drains placed as above; every slot ends as PipedCell of its old content; no piece moves, turns or changes light |
| Puzzles.Puzzle.RoutePipes | Assets/Scripts/Puzzle.cs:628-719 | drains placed, then paths converted, with the same guarantees |
| Puzzles.Puzzle.PlaceImmoveables | Assets/Scripts/Puzzle.cs:564-572 | only immovable flags change, only to true, and never on a pipe piece in pipe mode |
| Puzzles.Puzzle.MakeImmoveable | Assets/Scripts/Puzzle.cs:566-570 | one more piece pinned, keeping the above |
| Puzzles.Puzzle.ClearImageGap | Assets/Scripts/Puzzle.cs:575-585 | the cleared cell is in the grid and carried no pipe, and it is the only change |
| Puzzles.Puzzle.ClearFixedGap | Assets/Scripts/Puzzle.cs:586-598 | the fixed gap cell is cleared iff it carries no pipe; otherwise nothing changes |
| Puzzles.Puzzle.CarveSliding | Assets/Scripts/Puzzle.cs:562-599 | the sliding setup only pins and removes pieces. Outside pipe mode without an image, the gap cell ends empty |
| Puzzles.Puzzle.GenerateLayout | Assets/Scripts/Puzzle.cs:553-599 | the generated layout keeps the identity pieces; outside pipe mode it passes the win test |
| Puzzles.Puzzle.Build | Assets/Scripts/Puzzle.cs:527-614 | see the list below the table |
| Puzzles.Puzzle.UpdatePipes | Assets/Scripts/Puzzle.cs:410-431 | outside pipe mode nothing changes. In pipe mode a present cell ends full iff the pump reaches it through matching openings, and a drain ends full iff the flood opens onto it; nothing else changes |
| Puzzles.Puzzle.EmptyPipes | Assets/Scripts/Puzzle.cs:414-424 | every present cell is set not full, and nothing else changes |
| Puzzles.Puzzle.FillFrom | Assets/Scripts/Puzzle.cs:433-459 | the fill only grows. Everything it fills is reachable and settled. The cell itself ends full, or, for the pump, settled |
| Puzzles.Puzzle.FillCell | Assets/Scripts/Puzzle.cs:435-445 | a cell not yet full becomes full and is spread through; one already full stops the recursion |
| Puzzles.Puzzle.SetFullKeepsFlood | Assets/Scripts/Puzzle.cs:439-440 | filling a reachable pipe cell keeps the flood's invariant and only grows the fill |
| Puzzles.Puzzle.Spread | Assets/Scripts/Puzzle.cs:471-505 | after the four directions the source cell is settled, and the fill only grew |
| Puzzles.Puzzle.SpreadOne | Assets/Scripts/Puzzle.cs:473-503 | one more direction of the loop is settled, and earlier ones stay settled |
| Puzzles.Puzzle.SpreadTo | Assets/Scripts/Puzzle.cs:475-502 | an opening in direction i is settled: its neighbour is flooded if it opens back, or the drains there are lit |
| Puzzles.Puzzle.SpreadInto | Assets/Scripts/Puzzle.cs:478-490 | an in-grid neighbour is flooded iff it is present, has a pipe, and opens back in direction (i+2) mod 4 |
| Puzzles.Puzzle.LightDrains | Assets/Scripts/Puzzle.cs:494-500 | exactly the drains at that position are lit in addition to the ones already lit |
| Puzzles.Puzzle.LightDrain | Assets/Scripts/Puzzle.cs:496-499 | one reached drain is lit |
| Puzzles.Puzzle.Undo | Assets/Scripts/Puzzle.cs:279-310 | a move or rotation is undone and the pipes updated; a toggle or a missing element changes nothing |
| Puzzles.Puzzle.PlayAction | Assets/Scripts/Puzzle.cs:211-221 | the grid becomes ApplyAction of the old one |
| Puzzles.Puzzle.TakeBack | Assets/Scripts/Puzzle.cs:285-301 | the grid becomes the inverse step of the recorded action |
| Puzzles.Puzzle.MovePiece | Assets/Scripts/Puzzle.cs:208-227 | the slide, its lights-out toggle at the destination, then the pipe update |
| Puzzles.Puzzle.UndoLast | Assets/Scripts/Puzzle.cs:243-247 | the last buffered action is popped and undone |
| Puzzles.Puzzle.HandleLeftClick | Assets/Scripts/Puzzle.cs:192-277 | see the list below the table |
| Puzzles.Puzzle.HandleRightClick | Assets/Scripts/Puzzle.cs:312-356 | in pipe mode, for a present pipe piece: on the beat it turns counterclockwise, the pipes are updated, and the turn is buffered if undo is enabled; off the beat with undo enabled, the last action is undone. Otherwise nothing changes. The whole undo buffer stays undoable, last action first (UndoHistory) |
| Puzzles.Puzzle.HistoryReady | Assets/Scripts/Puzzle.cs:246-247 | when the whole buffer can be undone, its last action can be undone now |
| Puzzles.Puzzle.UpdateKeepsOccupied | Assets/Scripts/Puzzle.cs:410-505 | the pipe update empties and fills no slot |
| Puzzles.Puzzle.PushedHistory | Assets/Scripts/Puzzle.cs:229-240 | playing an on-beat action and buffering it keeps the whole buffer undoable |
| Puzzles.Puzzle.PoppedHistory | Assets/Scripts/Puzzle.cs:244-248 | popping and undoing the last action keeps the rest of the buffer undoable |
| Puzzles.LayoutKeepsOccupied | Assets/Scripts/Puzzle.cs:410-505 | boards that differ only in their full flags have the same occupied slots |
| Moves.OccupiedAfterAction | Assets/Scripts/Puzzle.cs:279-307 | only a move changes which slots hold a piece, exchanging its two slots, whether it is played or undone |
| Moves.ToggleKeepsOccupied | Assets/Scripts/PuzzleState.cs:316-345 | a toggle empties and fills no slot |
| Moves.SwapOccupiedCells | Assets/Scripts/PuzzleState.cs:96-101 | Swap exchanges the occupancy of its two slots |
| Moves.SwapOccupiedTwice | Assets/Scripts/PuzzleState.cs:96-101 | exchanging the same two slots twice changes no occupancy |
| Moves.UndoChainPush | Assets/Scripts/Puzzle.cs:231-240 | buffering an action that can be undone right after it keeps the buffer undoable from its end |
| Moves.UndoChainPop | Assets/Scripts/Puzzle.cs:246-247 | an undoable buffer's last action can be undone, and the rest stays undoable afterwards |
| Puzzles.Puzzle.ShuffleInvKept | Assets/Scripts/Puzzle.cs:734-876 | the shuffle invariant survives changes outside the puzzle and its arrays |
| Puzzles.Puzzle.SnapshotsKept | Assets/Scripts/Puzzle.cs:734-876 | the snapshot invariant survives changes to the current array |
| Puzzles.Puzzle.SolutionReversed | Assets/Scripts/Puzzle.cs:878 | after solution.Reverse(), replaying the solution from the scrambled board returns to the solved board |
| Puzzles.Puzzle.AlreadySeen | Assets/Scripts/Puzzle.cs:753-761 | the foreach reports whether some snapshot IsSame as the current state |
| Puzzles.Puzzle.AddSnapshot | Assets/Scripts/Puzzle.cs:772 | prevStates gains a clone of the current state |
| Puzzles.Puzzle.UnseenIsNew | Assets/Scripts/Puzzle.cs:753-770 | a state unlike every snapshot is unlike every board of the walk |
| Puzzles.Puzzle.Commit | Assets/Scripts/Puzzle.cs:772-781 | an accepted step adds a snapshot and its recorded action, extending the walk |
| Puzzles.Puzzle.ProposeStep | Assets/Scripts/Puzzle.cs:746-747 | the proposed action matches the option and fits the grid; only a failed pipe sample has nothing to rotate |
| Puzzles.Puzzle.Attempt | Assets/Scripts/Puzzle.cs:743-783 | one attempt either changes nothing or extends the walk by one new state and records its action |
| Puzzles.Puzzle.Probe | Assets/Scripts/Puzzle.cs:748-770 | a step that repeats a snapshot is taken back exactly, leaving the grid as it was; a new one stays applied |
| Puzzles.Puzzle.TryStep | Assets/Scripts/Puzzle.cs:748-783 | a step is accepted and recorded iff it leads to a state unlike every snapshot |
| Puzzles.Puzzle.ShuffleRound | Assets/Scripts/Puzzle.cs:740-786 | at most 10 attempts, then either no change or one accepted step |
| Puzzles.Puzzle.BeginShuffle | Assets/Scripts/Puzzle.cs:724-726 | the shuffle starts with an empty solution and a single snapshot of the current state |
| Puzzles.Puzzle.ShuffleRounds | Assets/Scripts/Puzzle.cs:734-876 | the invariant holds, the walk starts where it started, and there is at most one action per round, each of a kind the level allows |
| Puzzles.Puzzle.PickedRound | Assets/Scripts/Puzzle.cs:736-876 | one round: the picker chooses one of the options, and playing it keeps the invariant and adds at most one allowed action |
| Puzzles.Puzzle.Shuffle | Assets/Scripts/Puzzle.cs:722-878 | replaying the solution from the scrambled board gives the board before the shuffle. The solution has at most shuffleAmmount actions of allowed kinds. The walk's snapshots are pairwise distinct |
| Puzzles.LastOf | Assets/Scripts/Puzzle.cs:245 | PopLast's element: the last one, or none for an empty buffer |
| Puzzles.DropLast | Assets/Scripts/Puzzle.cs:245 | PopLast's list: all but its last element |
| Puzzles.NotFullShrinks | Assets/Scripts/Puzzle.cs:435-440 | a growing fill never adds non-full cells, so the recursion terminates even when pipes form loops |

`Levels.Generate` (Assets/Scripts/GameManager.cs:176-227) states that a
generated level has these properties:

- both sides are in [4,8];
- it is shuffled and not randomly seeded;
- apart from rhythm, its modes are exactly the type draws (TypeDraws), whose
  gates Levels.TypeGates states: the first drawn base mode, a second only when
  a draw falls below baseLevel, a third only when a second draw does too;
- shuffleAmmount = ⌊1.5·max⌋ plus its draw from [1, baseLevel/4), so at least
  ⌊1.5·max⌋ + 1;
- unmoveablePieceCount is set only for sliding;
- outside pipe mode, the pipe fields keep their defaults;
- in pipe mode, numberOfOuts is in [1, max/2], minPathLength = ⌊1.5·max⌋ and
  blockTiles = ⌊w·h/5⌋;
- rhythm is present iff its draw in [0,200) is below baseLevel, and a music
  track only comes with rhythm;
- it has an image iff there are images;
- the remaining fields keep their defaults.

`Puzzles.Puzzle.Build` (Assets/Scripts/Puzzle.cs:527-614) states:

- the generated board keeps the identity pieces;
- outside pipe mode, the generated board passes the win test;
- after the shuffle, replaying the solution gives the generated board back,
  and the solution has at most shuffleAmmount actions;
- the pipes are flooded;
- the undo buffer is reset exactly for rhythm levels that have undo enabled.

`Puzzles.Puzzle.HandleLeftClick` (Assets/Scripts/Puzzle.cs:192-277) states:

- in sliding mode, a present, movable piece with an empty neighbour slides
  there on the beat;
- the slide is buffered if undo is enabled;
- off the beat, with undo enabled, the last action is undone;
- in lights-out mode without sliding, lights toggle on the beat;
- in every other case nothing changes;
- the undo buffer stays undoable as a whole (UndoHistory): it fills only when
  undo is enabled, and undoing its actions from the last to the first finds,
  each time, its cells in the grid and the piece it moves or turns in place.

## Left out

- Rendering, tiles, tweens, sounds, sprites of the drains, the solution text and the
  scene flow (CreatePieces, Clear, ListPieces, InitLevel, NextLevel) are not modelled.
  A tween's completion callback runs at once: the pipe update, or the toggle and then
  the update, that follows an animation happens within the same call.
- The beat test (IsOnBeat) and the mouse lookup (GetMouseGridPos) are float and input
  code. The click handlers take the clicked cell and the beat result as parameters.
  beatThreshold and bpm are kept only as fields.
- AStar.GetPath is not part of this model. It is a function parameter, and
  Puzzles.Puzzle.CreatePipeMap and Build rely on it returning only paths through open
  cells (FindsOpenPaths). Such a path is what makes every SetPipe index valid.
- The padded pipeGrid array is modelled as the set of its closed cells. The
  distribution of block tiles, exits and pump positions is not modelled.
- Rng.Random.Range: the distribution of System.Random is not modelled. A draw is an
  oracle value mapped into [lo, hi). For hi ≤ lo the model returns lo, because the
  Range extension that the source calls is not part of this model.
- Shuffle's shuffleOptions.Random() uses a list helper that is not seeded from the
  level. It is modelled as a second, independent generator (`picker`).
- The random seed taken from the clock (randomSeed = true) is not modelled. The
  generator is a parameter, and the level seed only decides its stream.
- Puzzles.Puzzle.ClearImageGap: the image gap loop redraws until a cell without a pipe
  turns up. The model bounds it by a fuel parameter and reports None when the fuel runs
  out, so it does not capture a draw sequence that never ends.
- PipeMaps.GapLoopAsWritten: the as-written fixed-gap loop is bounded by fuel so that
  its non-termination can be stated.
- Puzzles.Puzzle.ShuffleRound: the three per-option loops of Shuffle are one round,
  parameterised by the option's action. A failed GetRandomGridPos does not end the
  attempt for the move and toggle options: their step is proposed at (0,0) and tried
  like any other. Only a rotate attempt whose failed sample leaves an absent (0,0)
  slot ends without a step, and it counts as one of the ten tries.
- Puzzles.Puzzle.ProposeStep: for a failed pipe sample, the source rotates the cell
  (0,0) whether or not it is present. The model skips a rotation of an absent cell,
  which the source would dereference as null. In the move option, whether
  GetEmptyNeighbour found a neighbour is not checked: a failed search gives (0,0).
- Puzzles.LastOf, Puzzles.DropLast: PopLast on an empty buffer is modelled as giving
  nothing and leaving the buffer empty. The list extension is not part of this model.
  An undo buffer that was never created (null) is modelled as an empty buffer.
- Puzzles.Puzzle.Undo and UndoLast require the touched cells to exist (Undoable,
  UndoReady). The source reaches those cells through tile objects, which would fail
  otherwise. The click handlers derive this from UndoHistory, which they keep.
- Puzzles.Puzzle.HandleLeftClick, HandleRightClick: they require UndoHistory on entry
  and keep it. It holds for an empty buffer, which the constructor leaves and which
  Build keeps, or resets for rhythm levels with undo enabled. No member states the
  game loop that chains the clicks.
- Puzzles.Puzzle.Build, Shuffle, ShuffleRounds and PickedRound require a non-empty
  option list when there are rounds to play. A level with shuffle on and none of
  sliding, lights-out or pipe mode (rhythm alone, say) hands an empty list to the
  list helper's Random. That helper is not part of this model, so such a level is
  not modelled.
- The music and image asset lists are reduced to their sizes: a level holds an index
  into each list.
- Getters that only read one field (GetOriginalPosition, isLightOn, GetPipeRotation,
  GetPieceRotation) are read through Board() and have no members of their own.
- The float factors of GetLevel are written as integer floors: `max*1.5f` as ⌊3·max/2⌋
  and `gx*gy*0.2f` as ⌊w·h/5⌋. Both agree with the float result for sides in [4,8].

## Findings

| source | as written | input that shows it | evidently intended | confidence | as-written member | corrected member |
|---|---|---|---|---|---|---|
| Assets/Scripts/Puzzle.cs:649-655 | the exit draw r comes from [0,4), but the fourth branch tests r == 4. For r == 3 the exit stays at the padded corner (0,0) with rotation 0 | any try drawing r = 3: the exit is the corner (0,0), whose drain would sit at (−1,−1), diagonal to the grid, where no pipe can open onto it. Such a try is wasted unless the path finder reaches the corner, which needs the pump next to it and minPathLength below 2 | r == 3 chooses an exit on the y = 0 side of the padded grid with rotation 1. The model's generator (DrainTry) follows the code as written; the corrected choice Exit is proved separately | not executed | PipeMaps.ExitAsWrittenMissesSide | PipeMaps.ExitCoversBorder |
| Assets/Scripts/Puzzle.cs:586-598 | the image-less gap loop recomputes the same fixed cell on every iteration and repeats while that cell has a pipe | a 3×3 sliding + pipe level without image, with the pump above column 0 (padded (1,0)), the exit at padded (2,4) and the path (1,0),(1,1),(2,1),(2,2),(2,3),(2,4) (PipeMaps.GapCanCarryPipe): the gap (1,1) carries a straight pipe, so the loop never ends | the generator terminates. The corrected member clears the gap cell only when it holds no pipe, and otherwise leaves the grid unchanged. The level then has no empty slot, so no piece can slide and CheckSliding (Assets/Scripts/PuzzleState.cs:275-278) never passes | not executed | PipeMaps.GapLoopAsWrittenHangs | Puzzles.Puzzle.ClearFixedGap |
