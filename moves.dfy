/**
 * Player actions, their undo, and the shuffle's steps, as functions on boards.
 *
 * A recorded action (SolutionElement) is a move of the piece at `start` into
 * the empty slot `end`, a quarter turn of the piece at `start`, or a light
 * toggle centred on `start`.  The shuffle walks away from the solved board
 * with steps whose recorded actions, played by the player in reverse order,
 * walk back to it.
 */
module Moves {
  import opened Grid

  datatype ActionType = Move | Rotate | ToggleLight

  datatype SolutionElement = SolutionElement(action: ActionType, start: Pos, end: Pos)

  /** The positions an action touches exist (and a rotated piece is present). */
  predicate Fits(b: Board, e: SolutionElement)
  {
    match e.action
    case Move => e.start in b && e.end in b
    case Rotate => Present(b, e.start)
    case ToggleLight => true
  }

  /**
   * What the player's action does once its animation has finished: a move
   * swaps the piece into the empty slot and, in lights-out mode, toggles at
   * the destination; a rotation turns the piece counterclockwise; a toggle
   * flips the lights around its centre.  Off the board nothing changes.
   */
  function ApplyAction(cfg: Config, b: Board, e: SolutionElement): (r: Board)
    ensures r.Keys == b.Keys
  {
    if !Fits(b, e) then b
    else match e.action
      case Move =>
        var s := SwapCells(b, e.start, e.end);
        if LightsOut in cfg.puzzleType then ToggleLights(cfg, s, e.end) else s
      case Rotate => RotateCell(b, e.start, true)
      case ToggleLight => ToggleLights(cfg, b, e.start)
  }

  /**
   * Undo of one recorded action: a move toggles at `end` (in lights-out
   * mode) and swaps back; a rotation turns clockwise; a toggle is not undone.
   */
  function UndoAction(cfg: Config, b: Board, e: SolutionElement): (r: Board)
    ensures r.Keys == b.Keys
  {
    if !Fits(b, e) then b
    else match e.action
      case Move =>
        var t := if LightsOut in cfg.puzzleType then ToggleLights(cfg, b, e.end) else b;
        SwapCells(t, e.end, e.start)
      case Rotate => RotateCell(b, e.start, false)
      case ToggleLight => b
  }

  /** Undo reverts a move or a rotation exactly; after a toggle it leaves the board as the toggle made it. */
  lemma UndoInvertsAction(cfg: Config, b: Board, e: SolutionElement)
    requires Fits(b, e) && WellFormed(b)
    ensures e.action != ToggleLight ==> UndoAction(cfg, ApplyAction(cfg, b, e), e) == b
    ensures e.action == ToggleLight ==> UndoAction(cfg, ApplyAction(cfg, b, e), e) == ToggleLights(cfg, b, e.start)
  {
    match e.action
    case Move =>
      var s := SwapCells(b, e.start, e.end);
      if LightsOut in cfg.puzzleType {
        ToggleTwice(cfg, s, e.end);
      }
      SwapSymmetric(s, e.end, e.start);
      SwapTwice(b, e.start, e.end);
    case Rotate =>
      RotateCellRoundTrip(b, e.start, true);
    case ToggleLight =>
  }

  /**
   * The shuffle's step that records `e`: a move of the piece at `end` into
   * the empty slot `start`, toggling at `end` first in lights-out mode; a
   * clockwise turn of the piece at `start`; or a toggle centred on `start`.
   */
  function ShuffleStep(cfg: Config, b: Board, e: SolutionElement): (r: Board)
    ensures r.Keys == b.Keys
  {
    if !Fits(b, e) then b
    else match e.action
      case Move =>
        var t := if LightsOut in cfg.puzzleType then ToggleLights(cfg, b, e.end) else b;
        SwapCells(t, e.end, e.start)
      case Rotate => RotateCell(b, e.start, false)
      case ToggleLight => ToggleLights(cfg, b, e.start)
  }

  /** Playing the recorded action after the shuffle's step restores the board. */
  lemma ActionRevertsShuffleStep(cfg: Config, b: Board, e: SolutionElement)
    requires Fits(b, e) && WellFormed(b)
    ensures Fits(ShuffleStep(cfg, b, e), e)
    ensures ApplyAction(cfg, ShuffleStep(cfg, b, e), e) == b
  {
    match e.action
    case Move =>
      var t := if LightsOut in cfg.puzzleType then ToggleLights(cfg, b, e.end) else b;
      SwapSymmetric(t, e.end, e.start);
      SwapTwice(t, e.start, e.end);
      if LightsOut in cfg.puzzleType {
        ToggleTwice(cfg, b, e.end);
      }
    case Rotate =>
      RotateCellRoundTrip(b, e.start, false);
    case ToggleLight =>
      ToggleTwice(cfg, b, e.start);
  }

  /** Shuffle steps and player actions keep every element's ranges. */
  lemma ShuffleStepWellFormed(cfg: Config, b: Board, e: SolutionElement)
    requires WellFormed(b)
    ensures WellFormed(ShuffleStep(cfg, b, e)) && WellFormed(ApplyAction(cfg, b, e))
  {
    if Fits(b, e) {
      match e.action
      case Move =>
        var s := SwapCells(b, e.start, e.end);
        var t := ToggleLights(cfg, b, e.end);
        ActionsKeepWellFormed(cfg, b, e.end, e.start, e.end, true);
        ActionsKeepWellFormed(cfg, s, e.end, e.start, e.end, true);
        ActionsKeepWellFormed(cfg, t, e.end, e.end, e.start, true);
        ActionsKeepWellFormed(cfg, b, e.end, e.end, e.start, true);
      case Rotate =>
        ActionsKeepWellFormed(cfg, b, e.start, e.start, e.start, false);
        ActionsKeepWellFormed(cfg, b, e.start, e.start, e.start, true);
      case ToggleLight =>
        ActionsKeepWellFormed(cfg, b, e.start, e.start, e.start, true);
    }
  }

  /** Plays a solution from the first action to the last. */
  function Replay(cfg: Config, b: Board, solution: seq<SolutionElement>): (r: Board)
    ensures r.Keys == b.Keys
    decreases |solution|
  {
    if |solution| == 0 then b else Replay(cfg, ApplyAction(cfg, b, solution[0]), solution[1..])
  }

  /** List.Reverse. */
  function Reversed<T>(s: seq<T>): (r: seq<T>)
    ensures |r| == |s| && forall k :: 0 <= k < |s| ==> r[k] == s[|s| - 1 - k]
  {
    if |s| == 0 then [] else Reversed(s[1..]) + [s[0]]
  }

  /**
   * A walk of shuffle steps: walk[k + 1] is walk[k] after the step that
   * recorded steps[k].
   */
  predicate ShuffleWalk(cfg: Config, walk: seq<Board>, steps: seq<SolutionElement>)
  {
    && |walk| == |steps| + 1
    && forall k :: 0 <= k < |steps| ==> ApplyAction(cfg, walk[k + 1], steps[k]) == walk[k]
  }

  /** The snapshots the shuffle keeps of a walk: a clone of every board. */
  function Clones(walk: seq<Board>): (r: seq<Board>)
    ensures |r| == |walk| && forall k :: 0 <= k < |walk| ==> r[k] == CloneBoard(walk[k])
  {
    seq(|walk|, k requires 0 <= k < |walk| => CloneBoard(walk[k]))
  }

  lemma ClonesAppend(walk: seq<Board>, b: Board)
    ensures Clones(walk + [b]) == Clones(walk) + [CloneBoard(b)]
  {
    assert forall k :: 0 <= k < |walk| + 1 ==> Clones(walk + [b])[k] == (Clones(walk) + [CloneBoard(b)])[k];
  }

  /** No two boards of the sequence are the same in the sense of IsSame. */
  ghost predicate AllDistinct(cfg: Config, bs: seq<Board>)
  {
    forall i, j :: 0 <= i < j < |bs| ==> !Same(cfg, bs[i], cfg, bs[j])
  }

  /** A board unlike every snapshot so far extends the snapshots without a repeat. */
  lemma DistinctExtend(cfg: Config, walk: seq<Board>, b: Board)
    requires AllDistinct(cfg, Clones(walk))
    requires forall k :: 0 <= k < |walk| ==> !Same(cfg, CloneBoard(walk[k]), cfg, b)
    ensures AllDistinct(cfg, Clones(walk + [b]))
  {
    var cs, cs' := Clones(walk), Clones(walk + [b]);
    forall i, j | 0 <= i < j < |cs'|
      ensures !Same(cfg, cs'[i], cfg, cs'[j])
    {
      assert cs'[i] == cs[i] == CloneBoard(walk[i]);
      if j < |cs| {
        assert cs'[j] == cs[j];
      } else {
        assert cs'[j] == CloneBoard(b);
        SameAsClone(cfg, cs[i], b);
      }
    }
  }

  /** A walk extended by a board from which the new recorded step leads back to the walk's end. */
  lemma ShuffleWalkExtend(cfg: Config, walk: seq<Board>, steps: seq<SolutionElement>, b: Board, e: SolutionElement)
    requires ShuffleWalk(cfg, walk, steps) && ApplyAction(cfg, b, e) == walk[|walk| - 1]
    ensures ShuffleWalk(cfg, walk + [b], steps + [e])
  {
    var walk', steps' := walk + [b], steps + [e];
    forall k | 0 <= k < |steps'|
      ensures ApplyAction(cfg, walk'[k + 1], steps'[k]) == walk'[k]
    {
      if k < |steps| {
        assert walk'[k + 1] == walk[k + 1] && walk'[k] == walk[k] && steps'[k] == steps[k];
      }
    }
  }

  /** Playing the recorded steps of a walk in reverse order leads from its end back to its start. */
  lemma {:induction false} ReplayReversedWalk(cfg: Config, walk: seq<Board>, steps: seq<SolutionElement>)
    requires ShuffleWalk(cfg, walk, steps)
    ensures Replay(cfg, walk[|walk| - 1], Reversed(steps)) == walk[0]
    decreases |steps|
  {
    if |steps| > 0 {
      var n := |steps|;
      var walk' := walk[..n];
      var steps' := steps[..n - 1];
      assert ShuffleWalk(cfg, walk', steps') by {
        forall k | 0 <= k < |steps'|
          ensures ApplyAction(cfg, walk'[k + 1], steps'[k]) == walk'[k]
        {
          assert walk'[k + 1] == walk[k + 1] && walk'[k] == walk[k] && steps'[k] == steps[k];
        }
      }
      ReplayReversedWalk(cfg, walk', steps');
      var rev := Reversed(steps);
      assert rev[0] == steps[n - 1];
      assert rev[1..] == Reversed(steps') by {
        var other := Reversed(steps');
        assert |rev[1..]| == |other|;
        forall k | 0 <= k < |other|
          ensures rev[1..][k] == other[k]
        {
        }
      }
      assert ApplyAction(cfg, walk[n], steps[n - 1]) == walk'[n - 1];
    }
  }

  /** Shuffle options: 0 slides in sliding mode, else 1 toggles in lights-out mode; 2 rotates in pipe mode. */
  function ShuffleOptions(puzzleType: set<Mode>): (r: seq<int>)
    ensures 0 in r <==> Sliding in puzzleType
    ensures 1 in r <==> LightsOut in puzzleType && Sliding !in puzzleType
    ensures 2 in r <==> Pipemania in puzzleType
    ensures |r| <= 2 && forall k :: 0 <= k < |r| ==> 0 <= r[k] < 3
  {
    (if Sliding in puzzleType then [0] else if LightsOut in puzzleType then [1] else []) +
    (if Pipemania in puzzleType then [2] else [])
  }

  /** The shuffle records an action of a kind only when it offers the matching option. */
  predicate Recordable(puzzleType: set<Mode>, a: ActionType)
  {
    match a
    case Move => Sliding in puzzleType
    case ToggleLight => LightsOut in puzzleType && Sliding !in puzzleType
    case Rotate => Pipemania in puzzleType
  }

  /** The action each shuffle option records: 0 a move, 1 a toggle, 2 a rotation. */
  function OptionAction(option: int): ActionType
  {
    if option == 0 then Move else if option == 1 then ToggleLight else Rotate
  }

  /** Every option the shuffle offers records an action the puzzle type allows. */
  lemma OptionRecordable(puzzleType: set<Mode>, option: int)
    requires option in ShuffleOptions(puzzleType)
    ensures Recordable(puzzleType, OptionAction(option))
  {
  }

  /** Appending recordable actions to a recordable solution keeps it recordable. */
  lemma RecordableAppend(puzzleType: set<Mode>, s: seq<SolutionElement>, t: seq<SolutionElement>)
    requires forall k :: 0 <= k < |s| ==> Recordable(puzzleType, s[k].action)
    requires forall k :: 0 <= k < |t| ==> Recordable(puzzleType, t[k].action)
    ensures forall k :: 0 <= k < |s + t| ==> Recordable(puzzleType, (s + t)[k].action)
  {
  }

  /** Reversing a recordable solution keeps it recordable. */
  lemma RecordableReversed(puzzleType: set<Mode>, s: seq<SolutionElement>)
    requires forall k :: 0 <= k < |s| ==> Recordable(puzzleType, s[k].action)
    ensures forall k :: 0 <= k < |s| ==> Recordable(puzzleType, Reversed(s)[k].action)
  {
  }

  /** A slide is attempted only for a present, movable piece that has an empty neighbour. */
  predicate SlideAllowed(cfg: Config, b: Board, p: Pos)
    requires Shaped(cfg, b)
  {
    InGrid(cfg.width, cfg.height, p) && Present(b, p) && !b[p].value.immoveable && EmptyNeighbour(cfg, b, p).Some?
  }

  // ---------------------------------------------------------------------
  // The undo buffer

  /** The slots that hold a piece. */
  function Occupied(b: Board): (r: set<Pos>)
    ensures forall p :: p in r <==> Present(b, p)
  {
    set p | p in b && b[p].Some?
  }

  /** The occupied slots once the contents of p1 and p2 are exchanged. */
  function SwapOccupied(occupied: set<Pos>, p1: Pos, p2: Pos): set<Pos>
  {
    (occupied - {p1, p2}) + (if p1 in occupied then {p2} else {}) + (if p2 in occupied then {p1} else {})
  }

  /** The occupied slots after an action or its undo: a move exchanges its two slots; a rotation or a toggle keeps them. */
  function MovedOccupied(occupied: set<Pos>, e: SolutionElement): set<Pos>
  {
    if e.action == Move then SwapOccupied(occupied, e.start, e.end) else occupied
  }

  /** Exchanging the same two slots twice gives back the occupied slots. */
  lemma SwapOccupiedTwice(occupied: set<Pos>, p1: Pos, p2: Pos)
    ensures SwapOccupied(SwapOccupied(occupied, p1, p2), p1, p2) == occupied
  {
  }

  /**
   * Which slots hold a piece changes only by a move, which exchanges its
   * two slots, whether the action is played or undone; lights and
   * rotations never empty or fill a slot.
   */
  lemma OccupiedAfterAction(cfg: Config, b: Board, e: SolutionElement)
    requires Fits(b, e)
    ensures Occupied(ApplyAction(cfg, b, e)) == MovedOccupied(Occupied(b), e)
    ensures Occupied(UndoAction(cfg, b, e)) == MovedOccupied(Occupied(b), e)
  {
    match e.action {
      case Move =>
        var s := SwapCells(b, e.start, e.end);
        ToggleKeepsOccupied(cfg, s, e.end);
        ToggleKeepsOccupied(cfg, b, e.end);
        var t := if LightsOut in cfg.puzzleType then ToggleLights(cfg, b, e.end) else b;
        SwapOccupiedCells(b, e.start, e.end);
        SwapOccupiedCells(t, e.end, e.start);
        assert SwapOccupied(Occupied(b), e.end, e.start) == SwapOccupied(Occupied(b), e.start, e.end);
      case Rotate =>
        assert Occupied(RotateCell(b, e.start, true)) == Occupied(b);
        assert Occupied(RotateCell(b, e.start, false)) == Occupied(b);
      case ToggleLight =>
        ToggleKeepsOccupied(cfg, b, e.start);
    }
  }

  /** A toggle flips lights only, so the occupied slots stay the same. */
  lemma ToggleKeepsOccupied(cfg: Config, b: Board, c: Pos)
    ensures Occupied(ToggleLights(cfg, b, c)) == Occupied(b)
  {
    forall p | p in b {
      ToggleLightsEffect(cfg, b, c, p);
    }
  }

  /** Swap exchanges the occupancy of its two slots. */
  lemma SwapOccupiedCells(b: Board, p1: Pos, p2: Pos)
    requires p1 in b && p2 in b
    ensures Occupied(SwapCells(b, p1, p2)) == SwapOccupied(Occupied(b), p1, p2)
  {
  }

  /** The undo of action e is possible when exactly the slots in `occupied` hold a piece: its slots lie in the grid and the piece it moved or turned is there. */
  predicate UndoableIn(cfg: Config, occupied: set<Pos>, e: SolutionElement)
  {
    match e.action
    case Move => InGrid(cfg.width, cfg.height, e.start) && InGrid(cfg.width, cfg.height, e.end) && e.end in occupied
    case Rotate => InGrid(cfg.width, cfg.height, e.start) && e.start in occupied
    case ToggleLight => true
  }

  /**
   * The undo buffer can be emptied from its end: its last action can be
   * undone with the given slots occupied, and the rest of the buffer can be
   * emptied the same way from the slots that undo leaves occupied.
   */
  ghost predicate UndoChain(cfg: Config, occupied: set<Pos>, buffer: seq<SolutionElement>)
    decreases |buffer|
  {
    |buffer| > 0 ==>
      var e := buffer[|buffer| - 1];
      && UndoableIn(cfg, occupied, e)
      && UndoChain(cfg, MovedOccupied(occupied, e), buffer[..|buffer| - 1])
  }

  /**
   * Recording the action just played keeps the buffer undoable: if the
   * buffer could be emptied before the action, and the action can be
   * undone right after it, the longer buffer can be emptied too.
   */
  lemma UndoChainPush(cfg: Config, occupied: set<Pos>, buffer: seq<SolutionElement>, e: SolutionElement)
    requires UndoChain(cfg, occupied, buffer)
    requires UndoableIn(cfg, MovedOccupied(occupied, e), e)
    ensures UndoChain(cfg, MovedOccupied(occupied, e), buffer + [e])
  {
    assert (buffer + [e])[..|buffer|] == buffer;
    if e.action == Move {
      SwapOccupiedTwice(occupied, e.start, e.end);
    }
  }

  /**
   * Taking the last action off an undoable buffer and undoing it leaves an
   * undoable buffer, and that last action could be undone.
   */
  lemma UndoChainPop(cfg: Config, occupied: set<Pos>, buffer: seq<SolutionElement>)
    requires UndoChain(cfg, occupied, buffer) && |buffer| > 0
    ensures UndoableIn(cfg, occupied, buffer[|buffer| - 1])
    ensures UndoChain(cfg, MovedOccupied(occupied, buffer[|buffer| - 1]), buffer[..|buffer| - 1])
  {
  }
}
