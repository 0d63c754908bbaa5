/**
 * One puzzle session (class Puzzle): the current grid state, the pump and
 * drains of the pipe mode, the shuffle's recorded solution and the undo
 * buffer of the rhythm mode.  Rendering objects (tiles, sprites, sounds)
 * are not modelled; a drain's sprite is modelled by whether it shows full.
 */
module Puzzles {
  import opened Grid
  import opened Rng
  import opened Pipes
  import opened Flow
  import opened Moves
  import opened Levels
  import opened PuzzleStates
  import opened PipeMaps

  /** The configuration a level gives its grid state. */
  function LevelConfig(levelDef: LevelDef): Config
    requires levelDef.gridWidth >= 0 && levelDef.gridHeight >= 0
  {
    Config(levelDef.puzzleType, levelDef.gridWidth, levelDef.gridHeight, levelDef.baseImage.Some?,
           levelDef.neighborhoodType, levelDef.neighborhoodDistance)
  }

  class Puzzle {
    const levelDef: LevelDef
    var currentState: PuzzleState
    var pipeStartPos: Pos
    var pipeStartRotation: int
    var pipeEndPos: seq<EndPoint>
    /** Whether each drain's sprite shows it full. */
    var drainFull: seq<bool>
    var solution: seq<SolutionElement>
    var prevStates: seq<PuzzleState>
    /** The arrays of the snapshots in prevStates. */
    ghost var snapshotRepr: set<array2<Option<Element>>>
    var undoBuffer: seq<SolutionElement>

    /**
     * A session on a level: the grid state is created and set to the
     * identity, as Build starts; there is no pipe network, solution or undo
     * history yet.
     */
    constructor (levelDef: LevelDef)
      requires levelDef.gridWidth >= 0 && levelDef.gridHeight >= 0
      ensures this.levelDef == levelDef && Ready()
      ensures fresh(currentState) && fresh(currentState.state)
      ensures currentState.Board() == IdentityBoard(levelDef.gridWidth, levelDef.gridHeight)
      ensures pipeEndPos == [] && drainFull == [] && solution == [] && prevStates == [] && undoBuffer == []
      ensures pipeStartPos == Pos(-1, -1) && pipeStartRotation == 0
    {
      this.levelDef := levelDef;
      var st := new PuzzleState(levelDef.puzzleType, levelDef.gridWidth, levelDef.gridHeight, levelDef.baseImage.Some?,
                                levelDef.neighborhoodType, levelDef.neighborhoodDistance);
      st.Identity();
      currentState := st;
      pipeStartPos := Pos(-1, -1);
      pipeStartRotation := 0;
      pipeEndPos := [];
      drainFull := [];
      solution := [];
      prevStates := [];
      snapshotRepr := {};
      undoBuffer := [];
      new;
      assert WellFormed(currentState.Board()) by {
        forall p | p in currentState.Board() && currentState.Board()[p].Some?
          ensures WellFormedElement(currentState.Board()[p].value)
        {
          IdentityCells(levelDef.gridWidth, levelDef.gridHeight, p);
        }
      }
    }

    ghost predicate Valid()
      reads this`currentState, this`drainFull, this`pipeEndPos, this`pipeStartPos, this`pipeStartRotation, currentState
    {
      && levelDef.gridWidth >= 0 && levelDef.gridHeight >= 0
      && currentState.Valid()
      && currentState.Cfg() == LevelConfig(levelDef)
      && |drainFull| == |pipeEndPos|
      && (Pipemania in levelDef.puzzleType ==> !InGrid(levelDef.gridWidth, levelDef.gridHeight, pipeStartPos))
    }

    /** Valid, and every element keeps its ranges. */
    ghost predicate Ready()
      reads this`currentState, this`drainFull, this`pipeEndPos, this`pipeStartPos, this`pipeStartRotation, currentState, currentState.state
    {
      Valid() && WellFormed(currentState.Board())
    }

    function Cfg(): Config
      reads this`currentState, currentState
    {
      currentState.Cfg()
    }

    function Ends(): seq<Pos>
      reads this`pipeEndPos
    {
      EndPositions(pipeEndPos)
    }

    /** IsInsideGrid. */
    predicate IsInsideGrid(x: int, y: int)
    {
      InGrid(levelDef.gridWidth, levelDef.gridHeight, Pos(x, y))
    }

    // -------------------------------------------------------------------
    // The pipe map

    /** The pump's cell on the padded grid. */
    function PaddedStart(): Pos
      reads this`pipeStartPos
    {
      Pos(pipeStartPos.x + 1, pipeStartPos.y + 1)
    }

    /** Every slot of the grid holds an element, as after Identity. */
    ghost predicate Filled()
      reads this`currentState, currentState, currentState.state
    {
      && currentState.Valid()
      && forall q :: InGrid(levelDef.gridWidth, levelDef.gridHeight, q) ==> Present(currentState.Board(), q)
    }

    /**
     * The first step of CreatePipeMap: a side draw in [0,3) and a position
     * draw put the pump above, left of or below the grid, facing into it.
     */
    method PlacePump(rng: Random)
      requires Valid() && levelDef.gridWidth >= 1 && levelDef.gridHeight >= 1
      modifies this`pipeStartPos, this`pipeStartRotation, rng
      ensures Valid()
      ensures !IsInsideGrid(pipeStartPos.x, pipeStartPos.y) && 0 <= pipeStartRotation < 4
      ensures IsInsideGrid(UpdatePipePos(pipeStartPos, pipeStartRotation).x, UpdatePipePos(pipeStartPos, pipeStartRotation).y)
      ensures forall i :: 0 <= i < 4 ==> (Bit(PumpMask(pipeStartRotation), i) <==> i == pipeStartRotation)
    {
      var w, h := levelDef.gridWidth, levelDef.gridHeight;
      var r := rng.Range(0, 3);
      var a;
      if r == 1 {
        a := rng.Range(0, h);
      } else {
        a := rng.Range(0, w / 2);
      }
      var pump := PumpPlacement(r, a, w, h);
      PumpFacesGrid(r, a, w, h);
      pipeStartPos := pump.pos;
      pipeStartRotation := pump.rotation;
    }

    /**
     * One try of the drain search: the padded grid's border and blockTiles
     * random tiles are closed, an exit is drawn on the border, and the path
     * finder is asked for a path from the pump's cell to it.  The exit is
     * chosen as ExitAsWritten: a side draw of 3 takes no position draw and
     * aims at the corner (0, 0).
     */
    method DrainTry(rng: Random, astar: PathFinder) returns (path: Option<seq<Pos>>, exit: EndPoint)
      requires levelDef.gridWidth >= 1 && levelDef.gridHeight >= 1
      modifies rng
      ensures OnBorder(levelDef.gridWidth + 2, levelDef.gridHeight + 2, exit.pos) && 0 <= exit.rotation < 4
      ensures !IsInsideGrid(exit.pos.x - 1, exit.pos.y - 1)
      ensures !IsCorner(levelDef.gridWidth + 2, levelDef.gridHeight + 2, exit.pos) ==>
        IsInsideGrid(UpdatePipePos(Pos(exit.pos.x - 1, exit.pos.y - 1), exit.rotation).x,
                     UpdatePipePos(Pos(exit.pos.x - 1, exit.pos.y - 1), exit.rotation).y)
      ensures FindsOpenPaths(astar) && path.Some? ==>
        InnerPath(levelDef.gridWidth, levelDef.gridHeight, PaddedStart(), exit.pos, path.value)
    {
      var w, h := levelDef.gridWidth, levelDef.gridHeight;
      var gsx, gsy := w + 2, h + 2;
      var tiles: set<Pos> := {};
      var k := 0;
      while k < levelDef.blockTiles
        decreases levelDef.blockTiles - k
      {
        var tx := rng.Range(0, gsx);
        var ty := rng.Range(0, gsy);
        tiles := tiles + {Pos(tx, ty)};
        k := k + 1;
      }
      var r := rng.Range(0, 4);
      var a := 0;
      if r == 0 || r == 2 {
        a := rng.Range(0, gsy);
      } else if r == 1 {
        a := rng.Range(0, gsx);
      }
      exit := ExitAsWritten(r, a, gsx, gsy);
      ExitAsWrittenFacesGrid(r, a, w, h);
      var closed := ClosedCells(gsx, gsy, tiles, PaddedStart(), exit.pos);
      path := astar(closed, gsx, gsy, PaddedStart(), exit.pos);
      if path.Some? && FindsOpenPaths(astar) {
        OpenPathIsInner(w, h, tiles, PaddedStart(), exit.pos, path.value);
      }
    }

    /**
     * The search for one drain: up to 50 tries, stopping at the first path
     * longer than minPathLength.
     */
    method FindDrain(rng: Random, astar: PathFinder) returns (found: bool, path: seq<Pos>, exit: EndPoint)
      requires levelDef.gridWidth >= 1 && levelDef.gridHeight >= 1
      modifies rng
      ensures found ==> |path| > levelDef.minPathLength
      ensures found ==> OnBorder(levelDef.gridWidth + 2, levelDef.gridHeight + 2, exit.pos) && 0 <= exit.rotation < 4
      ensures found ==> !IsInsideGrid(exit.pos.x - 1, exit.pos.y - 1)
      ensures found && FindsOpenPaths(astar) ==>
        InnerPath(levelDef.gridWidth, levelDef.gridHeight, PaddedStart(), exit.pos, path)
    {
      var nTries := 0;
      found, path, exit := false, [], EndPoint(Pos(0, 0), 0);
      while nTries < 50
        decreases 50 - nTries
      {
        var p, o := DrainTry(rng, astar);
        if p.Some? && |p.value| > levelDef.minPathLength {
          return true, p.value, o;
        }
        nTries := nTries + 1;
      }
    }

    /**
     * The drain part of CreatePipeMap: numberOfOuts searches, each found
     * drain registered at its exit's grid position, its path added to the
     * accumulated paths.
     */
    method PlaceDrains(rng: Random, astar: PathFinder) returns (allPaths: seq<Pos>)
      requires Valid() && levelDef.gridWidth >= 1 && levelDef.gridHeight >= 1
      modifies this`pipeEndPos, this`drainFull, rng
      ensures Valid()
      ensures |pipeEndPos| <= Max(levelDef.numberOfOuts, 0)
      ensures forall k :: 0 <= k < |pipeEndPos| ==>
        !IsInsideGrid(pipeEndPos[k].pos.x, pipeEndPos[k].pos.y) && 0 <= pipeEndPos[k].rotation < 4
      ensures FindsOpenPaths(astar) ==> forall p :: p in allPaths ==>
        p == PaddedStart() || Pos(p.x - 1, p.y - 1) in Ends() || IsInsideGrid(p.x - 1, p.y - 1)
    {
      pipeEndPos := [];
      drainFull := [];
      allPaths := [];
      var i := 0;
      while i < levelDef.numberOfOuts
        invariant Valid() && 0 <= i <= Max(levelDef.numberOfOuts, 0) && |pipeEndPos| <= i
        invariant forall k :: 0 <= k < |pipeEndPos| ==>
          !IsInsideGrid(pipeEndPos[k].pos.x, pipeEndPos[k].pos.y) && 0 <= pipeEndPos[k].rotation < 4
        invariant FindsOpenPaths(astar) ==> forall p :: p in allPaths ==>
          p == PaddedStart() || Pos(p.x - 1, p.y - 1) in Ends() || IsInsideGrid(p.x - 1, p.y - 1)
        decreases levelDef.numberOfOuts - i
      {
        var found, path, exit := FindDrain(rng, astar);
        if found {
          var drain := EndPoint(Pos(exit.pos.x - 1, exit.pos.y - 1), exit.rotation);
          EndPositionsAppend(pipeEndPos, drain);
          allPaths := allPaths + path;
          pipeEndPos := pipeEndPos + [drain];
          drainFull := drainFull + [false];
        }
        i := i + 1;
      }
    }

    /**
     * One cell of the conversion pass: unless it is the pump's cell or a
     * drain's, a path cell gets the pipe shape and rotation that match its
     * path neighbours, when one does.
     */
    method ConvertCell(p: Pos, allPaths: seq<Pos>)
      requires Ready() && Filled() && p in allPaths
      requires p == PaddedStart() || Pos(p.x - 1, p.y - 1) in Ends() || IsInsideGrid(p.x - 1, p.y - 1)
      modifies currentState.state
      ensures Ready() && Filled()
      ensures var q := Pos(p.x - 1, p.y - 1);
        IsInsideGrid(q.x, q.y) ==>
          currentState.Board() == old(currentState.Board())[q := PipedCell(old(currentState.Board())[q], allPaths, PaddedStart(), Ends(), p)]
      ensures !IsInsideGrid(p.x - 1, p.y - 1) ==> currentState.Board() == old(currentState.Board())
    {
      var q := Pos(p.x - 1, p.y - 1);
      var isEnd := false;
      if p != PaddedStart() {
        isEnd := IsEnd(q);
      }
      if p != PaddedStart() && !isEnd {
        SetPathPipe(p, allPaths);
      } else if IsInsideGrid(q.x, q.y) {
        assert currentState.Board()[q := currentState.Board()[q]] == currentState.Board();
      }
    }

    /** The scan of the drains for one sitting at grid position q. */
    method IsEnd(q: Pos) returns (isEnd: bool)
      ensures isEnd <==> q in Ends()
    {
      isEnd := false;
      var j := 0;
      while j < |pipeEndPos|
        invariant 0 <= j <= |pipeEndPos|
        invariant forall jj :: 0 <= jj < j ==> pipeEndPos[jj].pos != q
      {
        if pipeEndPos[j].pos == q {
          return true;
        }
        j := j + 1;
      }
    }

    /** A path cell that is neither the pump's nor a drain's gets the matching pipe, if there is one. */
    method SetPathPipe(p: Pos, allPaths: seq<Pos>)
      requires Ready() && Filled() && p in allPaths && p != PaddedStart()
      requires Pos(p.x - 1, p.y - 1) !in Ends() && IsInsideGrid(p.x - 1, p.y - 1)
      modifies currentState.state
      ensures Ready() && Filled()
      ensures var q := Pos(p.x - 1, p.y - 1);
        currentState.Board() == old(currentState.Board())[q := PipedCell(old(currentState.Board())[q], allPaths, PaddedStart(), Ends(), p)]
    {
      var q := Pos(p.x - 1, p.y - 1);
      var bmask := NeighbourMask(allPaths, p);
      var pipeType, pipeRot := MatchPipe(bmask);
      if pipeType != -1 {
        currentState.SetPipe(q.x, q.y, pipeType, pipeRot);
      } else {
        assert currentState.Board()[q := currentState.Board()[q]] == currentState.Board();
      }
      PipedCellWellFormed(old(currentState.Board()), q, allPaths, PaddedStart(), Ends(), p);
    }

    /**
     * The conversion pass of CreatePipeMap: every slot under a path cell
     * becomes what PipedCell says; every other slot keeps its content.
     */
    method ConvertPaths(allPaths: seq<Pos>)
      requires Ready() && Filled()
      requires forall p :: p in allPaths ==>
        p == PaddedStart() || Pos(p.x - 1, p.y - 1) in Ends() || IsInsideGrid(p.x - 1, p.y - 1)
      modifies currentState.state
      ensures Ready() && Filled()
      ensures forall q :: q in currentState.Board() <==> q in old(currentState.Board())
      ensures forall q :: q in old(currentState.Board()) ==>
        currentState.Board()[q] == PipedCell(old(currentState.Board())[q], allPaths, PaddedStart(), Ends(), Pos(q.x + 1, q.y + 1))
    {
      ghost var b0 := currentState.Board();
      ghost var start := PaddedStart();
      ghost var drains := Ends();
      assert forall q :: q in b0 <==> InGrid(levelDef.gridWidth, levelDef.gridHeight, q);
      for k := 0 to |allPaths|
        invariant Ready() && Filled()
        invariant forall q :: q in currentState.Board() <==> q in b0
        invariant forall q :: q in b0 ==>
          currentState.Board()[q] ==
            if Pos(q.x + 1, q.y + 1) in allPaths[..k] then PipedCell(b0[q], allPaths, start, drains, Pos(q.x + 1, q.y + 1)) else b0[q]
      {
        ghost var before := currentState.Board();
        ghost var q := Pos(allPaths[k].x - 1, allPaths[k].y - 1);
        ConvertCell(allPaths[k], allPaths);
        assert currentState.Board() == if InGrid(levelDef.gridWidth, levelDef.gridHeight, q)
          then before[q := PipedCell(before[q], allPaths, start, drains, allPaths[k])] else before;
        ConvertStep(b0, before, currentState.Board(), allPaths, k, start, drains, levelDef.gridWidth, levelDef.gridHeight);
      }
      assert allPaths[..|allPaths|] == allPaths;
      forall q | q in b0
        ensures PipedCell(b0[q], allPaths, start, drains, Pos(q.x + 1, q.y + 1)) ==
          if Pos(q.x + 1, q.y + 1) in allPaths then PipedCell(b0[q], allPaths, start, drains, Pos(q.x + 1, q.y + 1)) else b0[q]
      {
      }
    }

    /**
     * CreatePipeMap: the pump is placed, the drains are searched for, and
     * the cells of the accepted paths become pipes.  The pieces themselves
     * are otherwise left as they were.
     */
    method CreatePipeMap(rng: Random, astar: PathFinder) returns (allPaths: seq<Pos>)
      requires Ready() && Filled() && Pipemania in levelDef.puzzleType
      requires levelDef.gridWidth >= 1 && levelDef.gridHeight >= 1
      requires FindsOpenPaths(astar)
      modifies this`pipeStartPos, this`pipeStartRotation, this`pipeEndPos, this`drainFull, currentState.state, rng
      ensures Ready() && Filled()
      ensures !IsInsideGrid(pipeStartPos.x, pipeStartPos.y) && 0 <= pipeStartRotation < 4
      ensures IsInsideGrid(UpdatePipePos(pipeStartPos, pipeStartRotation).x, UpdatePipePos(pipeStartPos, pipeStartRotation).y)
      ensures |pipeEndPos| <= Max(levelDef.numberOfOuts, 0)
      ensures forall k :: 0 <= k < |pipeEndPos| ==>
        !IsInsideGrid(pipeEndPos[k].pos.x, pipeEndPos[k].pos.y) && 0 <= pipeEndPos[k].rotation < 4
      ensures forall q :: q in old(currentState.Board()) ==>
        currentState.Board()[q] == PipedCell(old(currentState.Board())[q], allPaths, PaddedStart(), Ends(), Pos(q.x + 1, q.y + 1))
      ensures KeepsPieces(old(currentState.Board()), currentState.Board())
    {
      PlacePump(rng);
      allPaths := RoutePipes(rng, astar);
    }

    /** The drains of CreatePipeMap, then the conversion of their paths into pipes. */
    method RoutePipes(rng: Random, astar: PathFinder) returns (allPaths: seq<Pos>)
      requires Ready() && Filled() && levelDef.gridWidth >= 1 && levelDef.gridHeight >= 1
      requires FindsOpenPaths(astar)
      modifies this`pipeEndPos, this`drainFull, currentState.state, rng
      ensures Ready() && Filled()
      ensures |pipeEndPos| <= Max(levelDef.numberOfOuts, 0)
      ensures forall k :: 0 <= k < |pipeEndPos| ==>
        !IsInsideGrid(pipeEndPos[k].pos.x, pipeEndPos[k].pos.y) && 0 <= pipeEndPos[k].rotation < 4
      ensures forall q :: q in old(currentState.Board()) ==>
        currentState.Board()[q] == PipedCell(old(currentState.Board())[q], allPaths, PaddedStart(), Ends(), Pos(q.x + 1, q.y + 1))
      ensures KeepsPieces(old(currentState.Board()), currentState.Board())
    {
      allPaths := PlaceDrains(rng, astar);
      ghost var b0 := currentState.Board();
      ConvertPaths(allPaths);
      PipedKeepsPieces(b0, currentState.Board(), allPaths, PaddedStart(), Ends());
    }

    /**
     * The immovable pieces of a sliding puzzle: unmoveablePieceCount random
     * draws, each making the drawn piece immovable unless, in pipe mode, it
     * carries a pipe.
     */
    method PlaceImmoveables(rng: Random)
      requires Ready() && Filled() && levelDef.gridWidth >= 1 && levelDef.gridHeight >= 1
      modifies currentState.state, rng
      ensures Ready() && Filled()
      ensures OnlyPinned(old(currentState.Board()), currentState.Board(), Pipemania in levelDef.puzzleType)
      ensures KeepsPieces(old(currentState.Board()), currentState.Board())
    {
      ghost var b0 := currentState.Board();
      var i := 0;
      while i < levelDef.unmoveablePieceCount
        invariant Ready() && Filled()
        invariant OnlyPinned(b0, currentState.Board(), Pipemania in levelDef.puzzleType)
        decreases levelDef.unmoveablePieceCount - i
      {
        var p := rng.RandomXY(levelDef.gridWidth, levelDef.gridHeight);
        if Pipemania in levelDef.puzzleType && currentState.GetPipeType(p.x, p.y) >= 0 {
          i := i + 1;
          continue;
        }
        MakeImmoveable(p, b0);
        i := i + 1;
      }
      PinnedKeepsPieces(b0, currentState.Board(), Pipemania in levelDef.puzzleType);
    }

    /** SetImmoveable(p, true) on a piece that carries no pipe in pipe mode. */
    method MakeImmoveable(p: Pos, ghost b0: Board)
      requires Ready() && Filled() && IsInsideGrid(p.x, p.y)
      requires !(Pipemania in levelDef.puzzleType && currentState.GetPipeType(p.x, p.y) >= 0)
      requires OnlyPinned(b0, currentState.Board(), Pipemania in levelDef.puzzleType)
      modifies currentState.state
      ensures Ready() && Filled()
      ensures OnlyPinned(b0, currentState.Board(), Pipemania in levelDef.puzzleType)
    {
      ghost var before := currentState.Board();
      currentState.SetImmoveable(p.x, p.y, true);
      PinStep(b0, before, p, Pipemania in levelDef.puzzleType);
      assert WellFormed(currentState.Board()) by {
        forall c | c in currentState.Board() && currentState.Board()[c].Some?
          ensures WellFormedElement(currentState.Board()[c].value)
        {
          if c != p {
            assert currentState.Board()[c] == before[c];
          }
        }
      }
    }

    /**
     * The gap of a sliding puzzle with an image: random slots are drawn
     * until one without a pipe comes up, and that slot is emptied.  The
     * draws are bounded by fuel; when it runs out nothing is cleared.
     */
    method ClearImageGap(rng: Random, fuel: nat) returns (cleared: Option<Pos>)
      requires Ready() && Filled() && levelDef.gridWidth >= 1 && levelDef.gridHeight >= 1
      modifies currentState.state, rng
      ensures Ready()
      ensures cleared.Some? ==>
        && IsInsideGrid(cleared.value.x, cleared.value.y)
        && !PipeAt(old(currentState.Board()), cleared.value)
        && currentState.Board() == old(currentState.Board())[cleared.value := None]
      ensures cleared.None? ==> currentState.Board() == old(currentState.Board()) && Filled()
    {
      var n := 0;
      while n < fuel
        invariant Ready() && Filled() && currentState.Board() == old(currentState.Board())
        decreases fuel - n
      {
        var p := rng.RandomXY(levelDef.gridWidth, levelDef.gridHeight);
        if currentState.GetPipeType(p.x, p.y) < 0 {
          currentState.Clear(p.x, p.y);
          return Some(p);
        }
        n := n + 1;
      }
      return None;
    }

    /**
     * The gap of a sliding puzzle without image: the fixed slot the win
     * test expects empty is cleared unless it carries a pipe, in which case
     * no slot is cleared (where the loop as written never ends).
     */
    method ClearFixedGap() returns (cleared: bool)
      requires Ready() && Filled() && levelDef.gridWidth >= 1 && levelDef.gridHeight >= 1
      modifies currentState.state
      ensures Ready()
      ensures cleared <==> !PipeAt(old(currentState.Board()), GapPos(Cfg()))
      ensures cleared ==> currentState.Board() == old(currentState.Board())[GapPos(Cfg()) := None]
      ensures !cleared ==> currentState.Board() == old(currentState.Board()) && Filled()
    {
      var w, h := levelDef.gridWidth, levelDef.gridHeight;
      var rx := if w % 2 != 0 then w / 2 else 0;
      var ry := if h % 2 != 0 then h / 2 else h - 1;
      if currentState.GetPipeType(rx, ry) >= 0 {
        return false;
      }
      currentState.Clear(rx, ry);
      return true;
    }

    /**
     * The sliding part of Build: the immovable pieces, then the gap, drawn
     * at random when the level has an image and at the fixed slot otherwise.
     */
    method CarveSliding(rng: Random, fuel: nat)
      requires Ready() && Filled() && levelDef.gridWidth >= 1 && levelDef.gridHeight >= 1
      requires Pipemania !in levelDef.puzzleType ==> !PipeAt(currentState.Board(), GapPos(Cfg()))
      modifies currentState.state, rng
      ensures Ready()
      ensures KeepsPieces(old(currentState.Board()), currentState.Board())
      ensures Pipemania !in levelDef.puzzleType && !Cfg().hasImage ==> currentState.Board()[GapPos(Cfg())].None?
    {
      ghost var b0 := currentState.Board();
      PlaceImmoveables(rng);
      ghost var placed := currentState.Board();
      if levelDef.baseImage.Some? {
        var cleared := ClearImageGap(rng, fuel);
        if cleared.Some? {
          ClearedKeepsPieces(placed, cleared.value);
        }
      } else {
        var cleared := ClearFixedGap();
        if cleared {
          ClearedKeepsPieces(placed, GapPos(Cfg()));
        }
      }
      KeepsPiecesTrans(b0, placed, currentState.Board());
    }

    /**
     * The generation part of Build, from the identity layout: the pipe map
     * in pipe mode, then the sliding pieces and gap in sliding mode.  Every
     * piece stays where the identity put it, so a level without pipes is
     * generated solved.
     */
    method GenerateLayout(rng: Random, astar: PathFinder, fuel: nat)
      requires Ready() && currentState.Board() == IdentityBoard(levelDef.gridWidth, levelDef.gridHeight)
      requires levelDef.gridWidth >= 1 && levelDef.gridHeight >= 1
      requires Pipemania in levelDef.puzzleType ==> FindsOpenPaths(astar)
      modifies this`pipeStartPos, this`pipeStartRotation, this`pipeEndPos, this`drainFull, currentState.state, rng
      ensures Ready()
      ensures KeepsPieces(IdentityBoard(levelDef.gridWidth, levelDef.gridHeight), currentState.Board())
      ensures Pipemania !in levelDef.puzzleType ==> Shaped(Cfg(), currentState.Board()) && Solved(Cfg(), currentState.Board())
    {
      ghost var identity := currentState.Board();
      assert Filled() by {
        forall q | InGrid(levelDef.gridWidth, levelDef.gridHeight, q)
          ensures Present(currentState.Board(), q)
        {
          IdentityCells(levelDef.gridWidth, levelDef.gridHeight, q);
        }
      }
      if Pipemania in levelDef.puzzleType {
        var _ := CreatePipeMap(rng, astar);
      } else {
        IdentityCells(levelDef.gridWidth, levelDef.gridHeight, GapPos(Cfg()));
      }
      ghost var piped := currentState.Board();
      if Sliding in levelDef.puzzleType {
        CarveSliding(rng, fuel);
        KeepsPiecesTrans(identity, piped, currentState.Board());
      }
      if Pipemania !in levelDef.puzzleType {
        GeneratedSolved(Cfg(), currentState.Board());
      }
    }

    /**
     * Build, after the grid state is created and set to the identity: the
     * generated layout, the shuffle, the flood, and a fresh undo buffer for
     * a rhythm level that undoes on a missed beat.  `generated` is the
     * layout before the shuffle and `shuffled` the one after it.
     */
    method Build(rng: Random, picker: Random, astar: PathFinder, fuel: nat)
      returns (ghost generated: Board, ghost shuffled: Board)
      requires Ready() && currentState.Board() == IdentityBoard(levelDef.gridWidth, levelDef.gridHeight)
      requires levelDef.gridWidth >= 1 && levelDef.gridHeight >= 1
      requires levelDef.shuffle && levelDef.shuffleAmmount > 0 ==> |ShuffleOptions(levelDef.puzzleType)| > 0
      requires Pipemania in levelDef.puzzleType ==> FindsOpenPaths(astar)
      modifies this`pipeStartPos, this`pipeStartRotation, this`pipeEndPos, this`drainFull, this`solution,
               this`prevStates, this`snapshotRepr, this`undoBuffer, currentState.state, rng, picker
      ensures Ready()
      ensures KeepsPieces(IdentityBoard(levelDef.gridWidth, levelDef.gridHeight), generated)
      ensures Pipemania !in levelDef.puzzleType ==> Shaped(Cfg(), generated) && Solved(Cfg(), generated)
      ensures levelDef.shuffle ==> Replay(Cfg(), shuffled, solution) == generated
      ensures levelDef.shuffle ==> |solution| <= Max(levelDef.shuffleAmmount, 0)
      ensures !levelDef.shuffle ==> solution == old(solution) && shuffled == generated
      ensures Pipemania in levelDef.puzzleType ==>
        Flooded(Cfg(), shuffled, pipeStartPos, pipeStartRotation, Ends(), currentState.Board(), drainFull)
      ensures Pipemania !in levelDef.puzzleType ==> currentState.Board() == shuffled
      ensures undoBuffer == if Rhythm in levelDef.puzzleType && levelDef.undoLastOnBeatFail then [] else old(undoBuffer)
    {
      GenerateLayout(rng, astar, fuel);
      generated := currentState.Board();
      if levelDef.shuffle {
        ghost var _ := Shuffle(rng, picker);
      }
      shuffled := currentState.Board();
      UpdatePipes();
      if Rhythm in levelDef.puzzleType && levelDef.undoLastOnBeatFail {
        undoBuffer := [];
      }
    }

    // -------------------------------------------------------------------
    // Flood fill

    /** What holds throughout a flood started on the layout b0. */
    ghost predicate FloodInv(b0: Board)
      reads this`currentState, this`drainFull, this`pipeEndPos, this`pipeStartPos, this`pipeStartRotation, currentState, currentState.state
    {
      && Ready()
      && Pipemania in levelDef.puzzleType
      && SameLayout(b0, currentState.Board())
      && (forall p :: FullAt(currentState.Board(), p) ==> Reachable(Cfg(), b0, pipeStartPos, pipeStartRotation, p))
      && (forall k :: 0 <= k < |drainFull| && drainFull[k] ==> DrainReached(Cfg(), b0, pipeStartPos, pipeStartRotation, Ends()[k]))
    }

    /** Source s is settled in the current fill state. */
    ghost predicate Settled(b0: Board, s: Pos)
      reads this`currentState, this`drainFull, this`pipeEndPos, this`pipeStartPos, this`pipeStartRotation, currentState, currentState.state
      requires Valid()
    {
      Closed(Cfg(), b0, pipeStartPos, pipeStartRotation, Ends(), currentState.Board(), drainFull, s)
    }

    /**
     * UpdatePipes(): in pipe mode, empties every present cell and every
     * drain, then floods from the pump.  Afterwards a present cell is full
     * exactly when the pump reaches it, and a drain is full exactly when a
     * reached cell or the pump opens onto it; nothing else changes.
     */
    method UpdatePipes()
      requires Ready()
      modifies this`drainFull, currentState.state
      ensures Ready()
      ensures Pipemania !in levelDef.puzzleType ==>
        currentState.Board() == old(currentState.Board()) && drainFull == old(drainFull)
      ensures Pipemania in levelDef.puzzleType ==>
        Flooded(Cfg(), old(currentState.Board()), pipeStartPos, pipeStartRotation, Ends(), currentState.Board(), drainFull)
    {
      if Pipemania !in levelDef.puzzleType {
        return;
      }
      ghost var b0 := currentState.Board();
      EmptyPipes();
      drainFull := seq(|pipeEndPos|, k => false);
      assert SameLayout(b0, currentState.Board());
      assert forall p :: !FullAt(currentState.Board(), p);
      FillFrom(pipeStartPos.x, pipeStartPos.y, b0);
      PumpReachable(Cfg(), b0, pipeStartPos, pipeStartRotation);
      FloodedFromClosure(Cfg(), b0, pipeStartPos, pipeStartRotation, Ends(), currentState.Board(), drainFull);
    }

    /** The emptying pass of UpdatePipes(): every present cell is set not full. */
    method EmptyPipes()
      requires Ready()
      modifies currentState.state
      ensures Ready()
      ensures forall p :: InGrid(levelDef.gridWidth, levelDef.gridHeight, p) ==>
        currentState.Board()[p] == Unfill(old(currentState.Board())[p])
    {
      ghost var b0 := currentState.Board();
      var w, h := levelDef.gridWidth, levelDef.gridHeight;
      for y := 0 to h
        invariant currentState.Valid()
        invariant forall p :: InGrid(w, h, p) ==>
          currentState.Board()[p] == if p.y < y then Unfill(b0[p]) else b0[p]
      {
        for x := 0 to w
          invariant currentState.Valid()
          invariant forall p :: InGrid(w, h, p) ==>
            currentState.Board()[p] == if p.y < y || (p.y == y && p.x < x) then Unfill(b0[p]) else b0[p]
        {
          if currentState.HasElement(x, y) {
            currentState.SetFull(x, y, false);
          }
        }
      }
      assert WellFormed(currentState.Board()) by {
        forall p | p in currentState.Board() && currentState.Board()[p].Some?
          ensures WellFormedElement(currentState.Board()[p].value)
        {
          assert Unfill(currentState.Board()[p]) == Unfill(b0[p]);
        }
      }
    }

    /**
     * UpdatePipes(x, y): an in-grid cell that is not yet full becomes full
     * and spreads through its openings; the pump spreads through its own.
     */
    method FillFrom(x: int, y: int, ghost b0: Board)
      requires FloodInv(b0)
      requires IsInsideGrid(x, y) ==>
        HasPipe(Cfg(), b0, Pos(x, y)) && Reachable(Cfg(), b0, pipeStartPos, pipeStartRotation, Pos(x, y))
      modifies this`drainFull, currentState.state
      ensures FloodInv(b0)
      ensures Grows(old(currentState.Board()), old(drainFull), currentState.Board(), drainFull)
      ensures forall s :: FullAt(currentState.Board(), s) && !FullAt(old(currentState.Board()), s) ==> Settled(b0, s)
      ensures IsInsideGrid(x, y) ==> FullAt(currentState.Board(), Pos(x, y))
      ensures !IsInsideGrid(x, y) && Pos(x, y) == pipeStartPos ==> Settled(b0, pipeStartPos)
      decreases NotFull(currentState.Board()), if IsInsideGrid(x, y) then 2 else 7
    {
      if IsInsideGrid(x, y) {
        FillCell(x, y, b0);
      } else if x == pipeStartPos.x && y == pipeStartPos.y {
        var mask := RotateMaskSteps(1, pipeStartRotation);
        PumpReachable(Cfg(), b0, pipeStartPos, pipeStartRotation);
        Spread(x, y, mask, b0);
      }
    }

    /** The in-grid half of UpdatePipes(x, y): a cell not yet full becomes full and spreads. */
    method FillCell(x: int, y: int, ghost b0: Board)
      requires FloodInv(b0) && IsInsideGrid(x, y)
      requires HasPipe(Cfg(), b0, Pos(x, y)) && Reachable(Cfg(), b0, pipeStartPos, pipeStartRotation, Pos(x, y))
      modifies this`drainFull, currentState.state
      ensures FloodInv(b0)
      ensures Grows(old(currentState.Board()), old(drainFull), currentState.Board(), drainFull)
      ensures forall s :: FullAt(currentState.Board(), s) && !FullAt(old(currentState.Board()), s) ==> Settled(b0, s)
      ensures FullAt(currentState.Board(), Pos(x, y))
      decreases NotFull(currentState.Board()), 1
    {
      // The tile's full flag mirrors the state's.
      if currentState.state[x, y].value.isFull {
        return;
      }
      ghost var before := currentState.Board();
      currentState.SetFull(x, y, true);
      assert Pos(x, y) in NotFull(before) && Pos(x, y) !in NotFull(currentState.Board());
      assert NotFull(currentState.Board()) <= NotFull(before);
      SetFullKeepsFlood(b0, before, Pos(x, y));
      var mask := RotateMaskSteps(PipeBitmask[currentState.GetPipeType(x, y)], currentState.GetTotalRotation(x, y));
      OutMaskOfLayout(Cfg(), b0, currentState.Board(), pipeStartPos, pipeStartRotation, Pos(x, y));
      ghost var mid := currentState.Board();
      ghost var midDrains := drainFull;
      Spread(x, y, mask, b0);
      GrowsTrans(before, midDrains, mid, midDrains, currentState.Board(), drainFull);
      SettledAfterFill(Cfg(), b0, pipeStartPos, pipeStartRotation, Ends(), before, mid, currentState.Board(), drainFull, Pos(x, y));
    }

    /** Marking a reachable piped cell full keeps the flood invariant and only grows the fill. */
    lemma SetFullKeepsFlood(b0: Board, before: Board, p: Pos)
      requires Ready() && Pipemania in levelDef.puzzleType
      requires SameLayout(b0, before) && Present(before, p)
      requires currentState.Board() == before[p := Some(before[p].value.(isFull := true))]
      requires forall q :: FullAt(before, q) ==> Reachable(Cfg(), b0, pipeStartPos, pipeStartRotation, q)
      requires forall k :: 0 <= k < |drainFull| && drainFull[k] ==> DrainReached(Cfg(), b0, pipeStartPos, pipeStartRotation, Ends()[k])
      requires Reachable(Cfg(), b0, pipeStartPos, pipeStartRotation, p)
      ensures FloodInv(b0)
      ensures Grows(before, drainFull, currentState.Board(), drainFull)
    {
      var b := currentState.Board();
      assert Unfill(b[p]) == Unfill(before[p]);
    }

    /**
     * UpdatePipes(x, y, mask): for each opening i of the mask, an in-grid
     * neighbour with a pipe opening back is flooded; an out-of-grid
     * neighbour lights every drain at that position.
     */
    method Spread(x: int, y: int, mask: bv8, ghost b0: Board)
      requires FloodInv(b0)
      requires Reachable(Cfg(), b0, pipeStartPos, pipeStartRotation, Pos(x, y))
      requires mask == OutMask(Cfg(), b0, pipeStartPos, pipeStartRotation, Pos(x, y))
      modifies this`drainFull, currentState.state
      ensures FloodInv(b0)
      ensures Grows(old(currentState.Board()), old(drainFull), currentState.Board(), drainFull)
      ensures forall s :: FullAt(currentState.Board(), s) && !FullAt(old(currentState.Board()), s) ==> Settled(b0, s)
      ensures Settled(b0, Pos(x, y))
      decreases NotFull(currentState.Board()), 6
    {
      var s := Pos(x, y);
      ghost var cfg := Cfg();
      ghost var ends := Ends();
      for i := 0 to 4
        invariant FloodInv(b0) && cfg == Cfg() && ends == Ends()
        invariant Grows(old(currentState.Board()), old(drainFull), currentState.Board(), drainFull)
        invariant forall t :: FullAt(currentState.Board(), t) && !FullAt(old(currentState.Board()), t) ==>
          Closed(cfg, b0, pipeStartPos, pipeStartRotation, ends, currentState.Board(), drainFull, t)
        invariant forall j :: 0 <= j < i ==>
          ClosedDir(cfg, b0, pipeStartPos, pipeStartRotation, ends, currentState.Board(), drainFull, s, j)
      {
        NotFullShrinks(currentState.Board(), drainFull, old(currentState.Board()), old(drainFull));
        SpreadOne(s, i, mask, b0, old(currentState.Board()), old(drainFull));
      }
      assert Settled(b0, s) by {
        assert forall j :: 0 <= j < 4 ==>
          ClosedDir(cfg, b0, pipeStartPos, pipeStartRotation, ends, currentState.Board(), drainFull, s, j);
      }
    }

    /**
     * One turn of the loop over the openings of source s: when mask opens
     * in direction i, that opening is handled; the openings before it stay closed, and every cell filled
     * since the source started (from start, startDrains) is settled.
     */
    method SpreadOne(s: Pos, i: int, mask: bv8, ghost b0: Board, ghost start: Board, ghost startDrains: seq<bool>)
      requires FloodInv(b0) && 0 <= i < 4
      requires Reachable(Cfg(), b0, pipeStartPos, pipeStartRotation, s)
      requires mask == OutMask(Cfg(), b0, pipeStartPos, pipeStartRotation, s)
      requires Grows(start, startDrains, currentState.Board(), drainFull)
      requires forall t :: FullAt(currentState.Board(), t) && !FullAt(start, t) ==>
        Closed(Cfg(), b0, pipeStartPos, pipeStartRotation, Ends(), currentState.Board(), drainFull, t)
      requires forall j :: 0 <= j < i ==>
        ClosedDir(Cfg(), b0, pipeStartPos, pipeStartRotation, Ends(), currentState.Board(), drainFull, s, j)
      modifies this`drainFull, currentState.state
      ensures FloodInv(b0)
      ensures Grows(start, startDrains, currentState.Board(), drainFull)
      ensures forall t :: FullAt(currentState.Board(), t) && !FullAt(start, t) ==>
        Closed(Cfg(), b0, pipeStartPos, pipeStartRotation, Ends(), currentState.Board(), drainFull, t)
      ensures forall j :: 0 <= j <= i ==>
        ClosedDir(Cfg(), b0, pipeStartPos, pipeStartRotation, Ends(), currentState.Board(), drainFull, s, j)
      decreases NotFull(currentState.Board()), 5
    {
      if !Bit(mask, i) {
        return;
      }
      ghost var before := currentState.Board();
      ghost var beforeDrains := drainFull;
      SpreadTo(s, i, b0);
      GrowsTrans(start, startDrains, before, beforeDrains, currentState.Board(), drainFull);
      SettledAcrossStep(Cfg(), b0, pipeStartPos, pipeStartRotation, Ends(), start,
                        before, beforeDrains, currentState.Board(), drainFull, s, i);
    }

    /**
     * One opening i of UpdatePipes(x, y, mask): the neighbour in direction i
     * is flooded when it is a present piped cell opening back in direction
     * (i + 2) mod 4; outside the grid, the drains at that position are lit.
     */
    method SpreadTo(s: Pos, i: int, ghost b0: Board)
      requires FloodInv(b0) && 0 <= i < 4
      requires Reachable(Cfg(), b0, pipeStartPos, pipeStartRotation, s)
      requires Bit(OutMask(Cfg(), b0, pipeStartPos, pipeStartRotation, s), i)
      modifies this`drainFull, currentState.state
      ensures FloodInv(b0)
      ensures Grows(old(currentState.Board()), old(drainFull), currentState.Board(), drainFull)
      ensures forall t :: FullAt(currentState.Board(), t) && !FullAt(old(currentState.Board()), t) ==> Settled(b0, t)
      ensures ClosedDir(Cfg(), b0, pipeStartPos, pipeStartRotation, Ends(), currentState.Board(), drainFull, s, i)
      decreases NotFull(currentState.Board()), 4
    {
      var newPos := UpdatePipePos(s, i);
      if IsInsideGrid(newPos.x, newPos.y) {
        SpreadInto(s, i, newPos, b0);
      } else {
        ghost var cfg := Cfg();
        assert DrainReached(cfg, b0, pipeStartPos, pipeStartRotation, newPos) by {
          assert 0 <= i < 4 && Reachable(cfg, b0, pipeStartPos, pipeStartRotation, s)
            && Bit(OutMask(cfg, b0, pipeStartPos, pipeStartRotation, s), i) && UpdatePipePos(s, i) == newPos;
        }
        LightDrains(newPos, b0);
      }
    }

    /** The in-grid half of SpreadTo: the neighbour newPos is flooded when its pipe opens back. */
    method SpreadInto(s: Pos, i: int, newPos: Pos, ghost b0: Board)
      requires FloodInv(b0) && 0 <= i < 4
      requires Reachable(Cfg(), b0, pipeStartPos, pipeStartRotation, s)
      requires Bit(OutMask(Cfg(), b0, pipeStartPos, pipeStartRotation, s), i)
      requires newPos == UpdatePipePos(s, i) && IsInsideGrid(newPos.x, newPos.y)
      modifies this`drainFull, currentState.state
      ensures FloodInv(b0)
      ensures Grows(old(currentState.Board()), old(drainFull), currentState.Board(), drainFull)
      ensures forall t :: FullAt(currentState.Board(), t) && !FullAt(old(currentState.Board()), t) ==> Settled(b0, t)
      ensures ClosedDir(Cfg(), b0, pipeStartPos, pipeStartRotation, Ends(), currentState.Board(), drainFull, s, i)
      decreases NotFull(currentState.Board()), 3
    {
      ghost var cfg := Cfg();
      assert Unfill(currentState.Board()[newPos]) == Unfill(b0[newPos]);
      if !currentState.HasElement(newPos.x, newPos.y) {
        return;
      }
      var t := currentState.GetPipeType(newPos.x, newPos.y);
      if t == -1 {
        return;
      }
      var rotation := currentState.GetTotalRotation(newPos.x, newPos.y);
      var otherMask := RotateMaskSteps(PipeBitmask[t], rotation);
      var newI := (i + 2) % 4;
      assert Bit(otherMask, newI) <==> Step(cfg, b0, pipeStartPos, pipeStartRotation, s, i);
      if Bit(otherMask, newI) {
        ReachStep(cfg, b0, pipeStartPos, pipeStartRotation, s, i);
        FillFrom(newPos.x, newPos.y, b0);
      }
    }

    /** The foreach over the drains: every drain at `pos` shows full. */
    method LightDrains(pos: Pos, ghost b0: Board)
      requires FloodInv(b0) && DrainReached(Cfg(), b0, pipeStartPos, pipeStartRotation, pos)
      modifies this`drainFull
      ensures FloodInv(b0)
      ensures |drainFull| == |old(drainFull)|
      ensures forall k :: 0 <= k < |drainFull| ==> drainFull[k] == (old(drainFull)[k] || Ends()[k] == pos)
    {
      ghost var ends := Ends();
      ghost var d0 := drainFull;
      for k := 0 to |pipeEndPos|
        invariant FloodInv(b0) && ends == Ends() && drainFull == LitUpTo(d0, ends, pos, k)
      {
        ghost var lit := drainFull;
        if pipeEndPos[k].pos == pos {
          LightDrain(k, b0);
        }
        assert drainFull == if ends[k] == pos then lit[k := true] else lit;
      }
    }

    /** One drain of LightDrains, reached by the flood, shows full. */
    method LightDrain(k: int, ghost b0: Board)
      requires FloodInv(b0) && 0 <= k < |drainFull|
      requires DrainReached(Cfg(), b0, pipeStartPos, pipeStartRotation, Ends()[k])
      modifies this`drainFull
      ensures FloodInv(b0) && drainFull == old(drainFull)[k := true]
    {
      drainFull := drainFull[k := true];
    }

    // -------------------------------------------------------------------
    // Player moves and undo

    /** The state after UpdatePipes has run on board b, the drains having been d before. */
    ghost predicate PipesUpdated(b: Board, d: seq<bool>)
      reads this`currentState, this`drainFull, this`pipeEndPos, this`pipeStartPos, this`pipeStartRotation, currentState, currentState.state
      requires Valid()
    {
      if Pipemania in levelDef.puzzleType then
        Flooded(Cfg(), b, pipeStartPos, pipeStartRotation, Ends(), currentState.Board(), drainFull)
      else currentState.Board() == b && drainFull == d
    }

    /** The cells an undo touches exist, and the piece it moves or turns is there. */
    ghost predicate Undoable(e: SolutionElement)
      reads this`currentState, this`drainFull, this`pipeEndPos, this`pipeStartPos, this`pipeStartRotation, currentState, currentState.state
      requires Valid()
    {
      match e.action
      case Move => IsInsideGrid(e.start.x, e.start.y) && IsInsideGrid(e.end.x, e.end.y) && Present(currentState.Board(), e.end)
      case Rotate => IsInsideGrid(e.start.x, e.start.y) && Present(currentState.Board(), e.start)
      case ToggleLight => true
    }

    /** The last buffered action, if any, can be undone. */
    ghost predicate UndoReady()
      reads this`currentState, this`drainFull, this`pipeEndPos, this`pipeStartPos, this`pipeStartRotation, currentState, currentState.state, this`undoBuffer
      requires Valid()
    {
      |undoBuffer| > 0 ==> Undoable(undoBuffer[|undoBuffer| - 1])
    }

    /**
     * The undo buffer as the click handlers keep it: it fills only when
     * undoLastOnBeatFail is set, and it can be emptied from its end, each
     * undo finding its cells in the grid and its piece in place.
     */
    ghost predicate UndoHistory()
      reads this`currentState, this`drainFull, this`pipeEndPos, this`pipeStartPos, this`pipeStartRotation, currentState, currentState.state, this`undoBuffer
      requires Valid()
    {
      && (|undoBuffer| > 0 ==> levelDef.undoLastOnBeatFail)
      && UndoChain(Cfg(), Occupied(currentState.Board()), undoBuffer)
    }

    /** An undoable buffer's last action can be undone now. */
    lemma HistoryReady()
      requires Valid() && UndoHistory()
      ensures UndoReady()
    {
      if |undoBuffer| > 0 {
        UndoChainPop(Cfg(), Occupied(currentState.Board()), undoBuffer);
      }
    }

    /** The pipe update leaves every slot as occupied as it was. */
    lemma UpdateKeepsOccupied(b: Board, d: seq<bool>)
      requires Valid() && PipesUpdated(b, d)
      ensures Occupied(currentState.Board()) == Occupied(b)
    {
      if Pipemania in levelDef.puzzleType {
        LayoutKeepsOccupied(b, currentState.Board());
      }
    }

    /**
     * After the undo of the buffer's last action, the rest of the buffer
     * can still be emptied from the new grid.
     */
    lemma PoppedHistory(b: Board, d: seq<bool>, buffer: seq<SolutionElement>)
      requires Valid() && Shaped(Cfg(), b) && UndoChain(Cfg(), Occupied(b), buffer)
      requires UndoneBy(b, d, LastOf(buffer))
      ensures UndoChain(Cfg(), Occupied(currentState.Board()), DropLast(buffer))
    {
      if |buffer| > 0 {
        var e := buffer[|buffer| - 1];
        UndoChainPop(Cfg(), Occupied(b), buffer);
        if e.action != ToggleLight {
          UpdateKeepsOccupied(UndoAction(Cfg(), b, e), d);
          OccupiedAfterAction(Cfg(), b, e);
        }
      }
    }

    /**
     * After the on-beat action e is played and the pipes updated, the
     * buffer, with e recorded when undoLastOnBeatFail is set, can still be
     * emptied from its end.
     */
    lemma PushedHistory(b: Board, d: seq<bool>, buffer: seq<SolutionElement>, e: SolutionElement)
      requires Valid() && Shaped(Cfg(), b) && Fits(b, e) && e.action != ToggleLight
      requires (|buffer| > 0 ==> levelDef.undoLastOnBeatFail) && UndoChain(Cfg(), Occupied(b), buffer)
      requires UndoableIn(Cfg(), MovedOccupied(Occupied(b), e), e)
      requires PipesUpdated(ApplyAction(Cfg(), b, e), d)
      requires undoBuffer == buffer + (if levelDef.undoLastOnBeatFail then [e] else [])
      ensures UndoHistory()
    {
      UpdateKeepsOccupied(ApplyAction(Cfg(), b, e), d);
      OccupiedAfterAction(Cfg(), b, e);
      if levelDef.undoLastOnBeatFail {
        UndoChainPush(Cfg(), Occupied(b), buffer, e);
      }
    }

    /** The state after Undo(elem) on board b, the drains having been d before. */
    ghost predicate UndoneBy(b: Board, d: seq<bool>, elem: Option<SolutionElement>)
      reads this`currentState, this`drainFull, this`pipeEndPos, this`pipeStartPos, this`pipeStartRotation, currentState, currentState.state
      requires Valid()
    {
      if elem.None? || elem.value.action == ToggleLight then currentState.Board() == b && drainFull == d
      else PipesUpdated(UndoAction(Cfg(), b, elem.value), d)
    }

    /**
     * Undo: a move toggles at its end (lights-out) and swaps back, a
     * rotation turns clockwise, each followed by UpdatePipes when its
     * animation ends; a toggle or a missing element does nothing.
     */
    method Undo(elem: Option<SolutionElement>)
      requires Ready() && (elem.Some? ==> Undoable(elem.value))
      modifies this`drainFull, currentState.state
      ensures Ready()
      ensures UndoneBy(old(currentState.Board()), old(drainFull), elem)
    {
      if elem.None? || elem.value.action == ToggleLight {
        return;
      }
      TakeBack(elem.value);
      UpdatePipes();
    }

    /**
     * Plays a recorded action on the grid state: a move swaps start and
     * end and, in lights-out mode, toggles around end; a rotation turns
     * counterclockwise; a toggle flips the lights around start.
     */
    method PlayAction(e: SolutionElement)
      requires Ready() && Fits(currentState.Board(), e)
      modifies currentState.state
      ensures Ready() && currentState.Board() == ApplyAction(Cfg(), old(currentState.Board()), e)
    {
      ghost var b := currentState.Board();
      match e.action {
        case Move =>
          currentState.Swap(e.start, e.end);
          if LightsOut in levelDef.puzzleType {
            currentState.ToggleLight(e.end);
          }
        case Rotate =>
          currentState.Rotate(e.start, true);
        case ToggleLight =>
          currentState.ToggleLight(e.start);
      }
      ShuffleStepWellFormed(Cfg(), b, e);
    }

    /**
     * The step that recorded action e takes back: a move toggles around
     * end (lights-out) and swaps end with start, a rotation turns
     * clockwise, a toggle flips the lights around start.  The shuffle and
     * Undo both make these steps.
     */
    method TakeBack(e: SolutionElement)
      requires Ready() && Fits(currentState.Board(), e)
      modifies currentState.state
      ensures Ready() && currentState.Board() == ShuffleStep(Cfg(), old(currentState.Board()), e)
    {
      ghost var b := currentState.Board();
      match e.action {
        case Move =>
          if LightsOut in levelDef.puzzleType {
            currentState.ToggleLight(e.end);
          }
          currentState.Swap(e.end, e.start);
        case Rotate =>
          currentState.Rotate(e.start, false);
        case ToggleLight =>
          currentState.ToggleLight(e.start);
      }
      ShuffleStepWellFormed(Cfg(), b, e);
    }

    /**
     * The on-beat slide of HandleLeftClick: the piece at gridPos moves into
     * the empty neighbour; when the animation ends the lights around the
     * destination toggle (lights-out) and the pipes are updated.
     */
    method MovePiece(gridPos: Pos, neighbour: Pos)
      requires Ready() && IsInsideGrid(gridPos.x, gridPos.y) && IsInsideGrid(neighbour.x, neighbour.y)
      modifies this`drainFull, currentState.state
      ensures Ready()
      ensures PipesUpdated(ApplyAction(Cfg(), old(currentState.Board()), SolutionElement(Move, gridPos, neighbour)), old(drainFull))
    {
      PlayAction(SolutionElement(Move, gridPos, neighbour));
      UpdatePipes();
    }

    /** The off-beat branch of both click handlers: pop the last recorded action and undo it. */
    method UndoLast()
      requires Ready() && UndoReady()
      modifies this`drainFull, this`undoBuffer, currentState.state
      ensures Ready()
      ensures UndoneBy(old(currentState.Board()), old(drainFull), LastOf(old(undoBuffer)))
      ensures undoBuffer == DropLast(old(undoBuffer))
    {
      var elem := LastOf(undoBuffer);
      undoBuffer := DropLast(undoBuffer);
      Undo(elem);
    }

    /**
     * HandleLeftClick on grid cell gridPos, onBeat being the rhythm test.
     * Sliding: a present, movable piece with an empty neighbour moves into
     * it on the beat (recorded for undo when undoLastOnBeatFail is set);
     * off the beat the last recorded action is undone instead.
     * Lights-out without sliding: the lights around gridPos toggle on the beat.
     */
    method HandleLeftClick(gridPos: Pos, onBeat: bool)
      requires Ready() && UndoHistory() && IsInsideGrid(gridPos.x, gridPos.y)
      modifies this`drainFull, this`undoBuffer, currentState.state
      ensures Ready() && UndoHistory()
      ensures var b := old(currentState.Board());
        var slide := Sliding in levelDef.puzzleType && SlideAllowed(Cfg(), b, gridPos);
        && (slide && onBeat ==>
              var e := SolutionElement(Move, gridPos, EmptyNeighbour(Cfg(), b, gridPos).value);
              && PipesUpdated(ApplyAction(Cfg(), b, e), old(drainFull))
              && undoBuffer == old(undoBuffer) + (if levelDef.undoLastOnBeatFail then [e] else []))
        && (slide && !onBeat && levelDef.undoLastOnBeatFail ==>
              && UndoneBy(b, old(drainFull), LastOf(old(undoBuffer)))
              && undoBuffer == DropLast(old(undoBuffer)))
        && (Sliding !in levelDef.puzzleType && LightsOut in levelDef.puzzleType && onBeat ==>
              && currentState.Board() == ApplyAction(Cfg(), b, SolutionElement(ToggleLight, gridPos, gridPos))
              && drainFull == old(drainFull) && undoBuffer == old(undoBuffer))
        && ((Sliding in levelDef.puzzleType && (!slide || (!onBeat && !levelDef.undoLastOnBeatFail))) ||
            (Sliding !in levelDef.puzzleType && (LightsOut !in levelDef.puzzleType || !onBeat)) ==>
              currentState.Board() == b && drainFull == old(drainFull) && undoBuffer == old(undoBuffer))
    {
      if Sliding in levelDef.puzzleType {
        if !currentState.HasElement(gridPos.x, gridPos.y) {
          return;
        }
        if currentState.GetImmoveable(gridPos.x, gridPos.y) {
          return;
        }
        var found, neighbour := currentState.GetEmptyNeighbour(gridPos);
        if found {
          ghost var b, d, buffer := currentState.Board(), drainFull, undoBuffer;
          if onBeat {
            var e := SolutionElement(Move, gridPos, neighbour);
            if levelDef.undoLastOnBeatFail {
              undoBuffer := undoBuffer + [e];
            }
            MovePiece(gridPos, neighbour);
            PushedHistory(b, d, buffer, e);
          } else if levelDef.undoLastOnBeatFail {
            HistoryReady();
            UndoLast();
            PoppedHistory(b, d, buffer);
          }
        }
      } else if LightsOut in levelDef.puzzleType {
        if onBeat {
          ghost var b := currentState.Board();
          currentState.ToggleLight(gridPos);
          ActionsKeepWellFormed(Cfg(), b, gridPos, gridPos, gridPos, true);
          ToggleKeepsOccupied(Cfg(), b, gridPos);
        }
      }
    }

    /**
     * HandleRightClick on grid cell gridPos: in pipe mode a present pipe
     * piece turns counterclockwise on the beat (recorded for undo when
     * undoLastOnBeatFail is set); off the beat the last recorded action is
     * undone instead.
     */
    method HandleRightClick(gridPos: Pos, onBeat: bool)
      requires Ready() && UndoHistory() && IsInsideGrid(gridPos.x, gridPos.y)
      modifies this`drainFull, this`undoBuffer, currentState.state
      ensures Ready() && UndoHistory()
      ensures var b := old(currentState.Board());
        var turn := Pipemania in levelDef.puzzleType && Present(b, gridPos) && b[gridPos].value.pipeType >= 0;
        var e := SolutionElement(Rotate, gridPos, Pos(0, 0));
        && (turn && onBeat ==>
              && PipesUpdated(ApplyAction(Cfg(), b, e), old(drainFull))
              && undoBuffer == old(undoBuffer) + (if levelDef.undoLastOnBeatFail then [e] else []))
        && (turn && !onBeat && levelDef.undoLastOnBeatFail ==>
              && UndoneBy(b, old(drainFull), LastOf(old(undoBuffer)))
              && undoBuffer == DropLast(old(undoBuffer)))
        && (!turn || (!onBeat && !levelDef.undoLastOnBeatFail) ==>
              currentState.Board() == b && drainFull == old(drainFull) && undoBuffer == old(undoBuffer))
    {
      if Pipemania in levelDef.puzzleType {
        if currentState.HasElement(gridPos.x, gridPos.y) {
          if currentState.GetPipeType(gridPos.x, gridPos.y) >= 0 {
            ghost var b, d, buffer := currentState.Board(), drainFull, undoBuffer;
            if onBeat {
              var e := SolutionElement(Rotate, gridPos, Pos(0, 0));
              if levelDef.undoLastOnBeatFail {
                undoBuffer := undoBuffer + [e];
              }
              PlayAction(e);
              UpdatePipes();
              PushedHistory(b, d, buffer, e);
            } else if levelDef.undoLastOnBeatFail {
              HistoryReady();
              UndoLast();
              PoppedHistory(b, d, buffer);
            }
          }
        }
      }
    }

    // -------------------------------------------------------------------
    // Shuffle

    /** The snapshots are valid states of configuration cfg holding the given boards. */
    ghost predicate Held(cfg: Config, boards: seq<Board>)
      reads this`prevStates, prevStates, this`snapshotRepr, snapshotRepr
    {
      && |prevStates| == |boards|
      && forall k :: 0 <= k < |prevStates| ==>
           && prevStates[k].state in snapshotRepr
           && prevStates[k].Valid() && prevStates[k].Cfg() == cfg
           && prevStates[k].Board() == boards[k]
    }

    /** A change to neither this puzzle, its current array nor the snapshots' arrays keeps ShuffleInv. */
    twostate lemma ShuffleInvKept(walk: seq<Board>)
      requires old(ShuffleInv(walk))
      requires unchanged(this) && old(currentState) == currentState
      requires unchanged(currentState.state) && unchanged(snapshotRepr)
      ensures ShuffleInv(walk)
    {
      SnapshotsKept(walk);
    }

    /** A change to neither the puzzle's shuffle fields nor the snapshots' arrays keeps Snapshots. */
    twostate lemma SnapshotsKept(walk: seq<Board>)
      requires old(Snapshots(walk))
      requires old(currentState) == currentState && old(prevStates) == prevStates && old(solution) == solution
      requires old(snapshotRepr) == snapshotRepr && unchanged(snapshotRepr)
      ensures Snapshots(walk)
    {
    }

    /**
     * Reversing the recorded steps of a walk turns them into a solution: played
     * from the shuffled state it leads back to the start of the walk.
     */
    twostate lemma SolutionReversed(walk: seq<Board>)
      requires old(ShuffleInv(walk))
      requires solution == Reversed(old(solution))
      requires old(currentState) == currentState && old(drainFull) == drainFull && old(pipeEndPos) == pipeEndPos
      requires old(pipeStartPos) == pipeStartPos && old(pipeStartRotation) == pipeStartRotation
      requires old(prevStates) == prevStates && old(snapshotRepr) == snapshotRepr
      requires unchanged(currentState.state) && unchanged(snapshotRepr)
      ensures Ready() && Replay(Cfg(), currentState.Board(), solution) == walk[0]
      ensures |walk| == |solution| + 1 && walk[|walk| - 1] == currentState.Board()
      ensures Held(Cfg(), Clones(walk)) && AllDistinct(Cfg(), Clones(walk))
    {
      ReplayReversedWalk(Cfg(), walk, old(solution));
    }

    /**
     * The shuffle's record of a walk: walk[k] is the board after k recorded
     * steps, prevStates[k] is a clone of it, no two snapshots are the same,
     * and playing recorded step k on walk[k + 1] gives walk[k].
     */
    ghost predicate Snapshots(walk: seq<Board>)
      reads this`currentState, currentState, this`prevStates, this`solution, prevStates, this`snapshotRepr, snapshotRepr
    {
      && |walk| == |prevStates| == |solution| + 1
      && ShuffleWalk(Cfg(), walk, solution)
      && Held(Cfg(), Clones(walk))
      && AllDistinct(Cfg(), Clones(walk))
      && currentState.state !in snapshotRepr
    }

    /** Between attempts the current state is the end of the walk. */
    ghost predicate ShuffleInv(walk: seq<Board>)
      reads this`currentState, this`drainFull, this`pipeEndPos, this`pipeStartPos, this`pipeStartRotation, currentState, currentState.state, this`prevStates, this`solution, prevStates, this`snapshotRepr, snapshotRepr
    {
      Ready() && Snapshots(walk) && currentState.Board() == walk[|walk| - 1]
    }

    /** The alreadySeen scan: whether some snapshot IsSame as the current state. */
    method AlreadySeen() returns (seen: bool)
      requires currentState.Valid() && forall k :: 0 <= k < |prevStates| ==> prevStates[k].Valid()
      ensures seen <==> (exists k :: 0 <= k < |prevStates| &&
                          Same(prevStates[k].Cfg(), prevStates[k].Board(), currentState.Cfg(), currentState.Board()))
    {
      for k := 0 to |prevStates|
        invariant forall j :: 0 <= j < k ==>
          !Same(prevStates[j].Cfg(), prevStates[j].Board(), currentState.Cfg(), currentState.Board())
      {
        var same := prevStates[k].IsSame(currentState);
        if same {
          return true;
        }
      }
      return false;
    }

    /** prevStates.Add(currentState.Clone()): the snapshots gain a clone of the current board. */
    method AddSnapshot(ghost boards: seq<Board>)
      requires currentState.Valid() && Held(Cfg(), boards) && currentState.state !in snapshotRepr
      modifies this`prevStates, this`snapshotRepr
      ensures Held(Cfg(), boards + [CloneBoard(currentState.Board())]) && currentState.state !in snapshotRepr
      ensures |prevStates| == |old(prevStates)| + 1
    {
      ghost var prev := prevStates;
      var snap := currentState.Clone();
      prevStates := prevStates + [snap];
      snapshotRepr := snapshotRepr + {snap.state};
      ghost var bs := boards + [CloneBoard(currentState.Board())];
      forall k | 0 <= k < |prevStates|
        ensures prevStates[k].state in snapshotRepr
        ensures prevStates[k].Valid() && prevStates[k].Cfg() == Cfg() && prevStates[k].Board() == bs[k]
      {
        if k < |prev| {
          assert prevStates[k] == prev[k];
        }
      }
    }

    /** Whether the current state is unlike every snapshot, as AlreadySeen reports it. */
    lemma UnseenIsNew(walk: seq<Board>)
      requires currentState.Valid() && |walk| == |prevStates| && Held(Cfg(), Clones(walk))
      requires forall k :: 0 <= k < |prevStates| ==>
        !Same(prevStates[k].Cfg(), prevStates[k].Board(), currentState.Cfg(), currentState.Board())
      ensures forall k :: 0 <= k < |walk| ==> !Same(Cfg(), CloneBoard(walk[k]), Cfg(), currentState.Board())
    {
      forall k | 0 <= k < |walk|
        ensures !Same(Cfg(), CloneBoard(walk[k]), Cfg(), currentState.Board())
      {
        assert prevStates[k].Board() == Clones(walk)[k];
      }
    }

    /**
     * A new state from which playing e leads back to the end of the walk:
     * it is snapshotted and e is added to the solution.
     */
    method Commit(e: SolutionElement, ghost walk: seq<Board>) returns (ghost walk': seq<Board>)
      requires Valid() && Snapshots(walk)
      requires ApplyAction(Cfg(), currentState.Board(), e) == walk[|walk| - 1]
      requires forall k :: 0 <= k < |walk| ==> !Same(Cfg(), CloneBoard(walk[k]), Cfg(), currentState.Board())
      modifies this`solution, this`prevStates, this`snapshotRepr
      ensures Snapshots(walk')
      ensures walk' == walk + [currentState.Board()] && solution == old(solution) + [e]
    {
      ghost var cur := currentState.Board();
      DistinctExtend(Cfg(), walk, cur);
      ShuffleWalkExtend(Cfg(), walk, solution, cur, e);
      solution := solution + [e];
      walk' := walk + [cur];
      AddSnapshot(Clones(walk));
      ClonesAppend(walk, cur);
    }

    /**
     * The step one shuffle attempt proposes.  Option 0 samples a movable
     * piece with an empty neighbour and records the move from that
     * neighbour back to the piece; option 1 samples any present cell and
     * records a toggle there; option 2 samples a pipe piece and records a
     * turn.  A failed sample gives gridPos (0,0), as GetRandomGridPos
     * leaves it on failure.
     */
    method ProposeStep(rng: Random, option: int) returns (ok: bool, e: SolutionElement)
      requires Ready() && levelDef.gridWidth >= 1 && levelDef.gridHeight >= 1
      modifies rng
      ensures e.action == OptionAction(option)
      ensures ok ==> Fits(currentState.Board(), e)
      ensures !ok ==> e.action == Rotate && !Present(currentState.Board(), e.start)
    {
      ghost var b := currentState.Board();
      ghost var c0 := rng.cursor;
      if option == 0 {
        var _, gridPos := currentState.GetRandomGridPos(rng, true, false, false);
        SampleSound(Cfg(), b, rng.draws, c0, 0, true, false, false);
        var _, neighbour := currentState.GetEmptyNeighbour(gridPos);
        return true, SolutionElement(Move, neighbour, gridPos);
      } else if option == 1 {
        var _, gridPos := currentState.GetRandomGridPos(rng, false, true, false);
        return true, SolutionElement(ToggleLight, gridPos, Pos(0, 0));
      } else {
        var _, gridPos := currentState.GetRandomGridPos(rng, false, false, true);
        SampleSound(Cfg(), b, rng.draws, c0, 0, false, false, true);
        e := SolutionElement(Rotate, gridPos, Pos(0, 0));
        ok := currentState.HasElement(gridPos.x, gridPos.y);
      }
    }

    /**
     * One shuffle attempt: a step is proposed and, when there is one, tried.
     */
    method Attempt(rng: Random, option: int, ghost walk: seq<Board>) returns (done: bool, e: SolutionElement, ghost walk': seq<Board>)
      requires ShuffleInv(walk) && levelDef.gridWidth >= 1 && levelDef.gridHeight >= 1
      modifies this`solution, this`prevStates, this`snapshotRepr, currentState.state, rng
      ensures ShuffleInv(walk') && e.action == OptionAction(option)
      ensures !done ==> walk' == walk && solution == old(solution)
      ensures done ==> walk' == walk + [currentState.Board()] && solution == old(solution) + [e]
    {
      var ok;
      ok, e := ProposeStep(rng, option);
      if !ok {
        ShuffleInvKept(walk);
        return false, e, walk;
      }
      done, walk' := TryStep(e, walk);
    }

    /**
     * The alreadySeen probe: the step is taken and the state compared with
     * every snapshot; if one IsSame, the step is played back.
     */
    method Probe(e: SolutionElement) returns (seen: bool)
      requires Ready() && Fits(currentState.Board(), e)
      requires forall k :: 0 <= k < |prevStates| ==> prevStates[k].Valid()
      modifies currentState.state
      ensures Ready()
      ensures seen ==> currentState.Board() == old(currentState.Board())
      ensures !seen ==> currentState.Board() == ShuffleStep(Cfg(), old(currentState.Board()), e)
      ensures !seen ==> forall k :: 0 <= k < |prevStates| ==>
        !Same(prevStates[k].Cfg(), prevStates[k].Board(), currentState.Cfg(), currentState.Board())
    {
      ghost var b := currentState.Board();
      TakeBack(e);
      ActionRevertsShuffleStep(Cfg(), b, e);
      seen := AlreadySeen();
      if seen {
        PlayAction(e);
      }
    }

    /**
     * The step is tried: a state IsSame as a snapshot fails the attempt,
     * a new one is committed.
     */
    method TryStep(e: SolutionElement, ghost walk: seq<Board>) returns (done: bool, ghost walk': seq<Board>)
      requires ShuffleInv(walk) && Fits(currentState.Board(), e)
      modifies this`solution, this`prevStates, this`snapshotRepr, currentState.state
      ensures ShuffleInv(walk')
      ensures !done ==> walk' == walk && solution == old(solution)
      ensures done ==> walk' == walk + [currentState.Board()] && solution == old(solution) + [e]
    {
      ghost var b := currentState.Board();
      var seen := Probe(e);
      SnapshotsKept(walk);
      if seen {
        return false, walk;
      }
      ActionRevertsShuffleStep(Cfg(), b, e);
      UnseenIsNew(walk);
      walk' := Commit(e, walk);
      return true, walk';
    }

    /**
     * A shuffle round with one option: up to ten attempts, stopping at the
     * first that commits a step.
     */
    method ShuffleRound(rng: Random, option: int, ghost walk: seq<Board>) returns (done: bool, e: SolutionElement, ghost walk': seq<Board>)
      requires ShuffleInv(walk) && levelDef.gridWidth >= 1 && levelDef.gridHeight >= 1
      modifies this`solution, this`prevStates, this`snapshotRepr, currentState.state, rng
      ensures ShuffleInv(walk')
      ensures e.action == OptionAction(option)
      ensures !done ==> walk' == walk && solution == old(solution)
      ensures done ==> walk' == walk + [currentState.Board()] && solution == old(solution) + [e]
    {
      var nTries := 0;
      walk' := walk;
      done, e := false, SolutionElement(OptionAction(option), Pos(0, 0), Pos(0, 0));
      while nTries < 10
        invariant ShuffleInv(walk) && walk' == walk && solution == old(solution) && !done
        invariant e.action == OptionAction(option)
      {
        done, e, walk' := Attempt(rng, option, walk);
        if done {
          return;
        }
        nTries := nTries + 1;
      }
    }

    /** The shuffle starts with an empty solution and one snapshot, of the current state. */
    method BeginShuffle() returns (ghost walk: seq<Board>)
      requires Ready()
      modifies this`solution, this`prevStates, this`snapshotRepr
      ensures ShuffleInv(walk) && walk == [currentState.Board()] && solution == []
    {
      solution := [];
      var first := currentState.Clone();
      prevStates := [first];
      snapshotRepr := {first.state};
      walk := [currentState.Board()];
      assert Clones(walk)[0] == first.Board();
    }

    /** Every recorded step is of a kind the level's puzzle types allow. */
    ghost predicate SolutionRecordable()
      reads this`solution
    {
      forall k :: 0 <= k < |solution| ==> Recordable(levelDef.puzzleType, solution[k].action)
    }

    /**
     * The shuffle's rounds: shuffleAmmount times, an option is picked at
     * random and a round of that option may record one step.
     */
    method ShuffleRounds(rng: Random, picker: Random, ghost walk: seq<Board>) returns (ghost walk': seq<Board>)
      requires ShuffleInv(walk) && solution == [] && levelDef.gridWidth >= 1 && levelDef.gridHeight >= 1
      requires levelDef.shuffleAmmount > 0 ==> |ShuffleOptions(levelDef.puzzleType)| > 0
      modifies this`solution, this`prevStates, this`snapshotRepr, currentState.state, rng, picker
      ensures ShuffleInv(walk') && walk'[0] == walk[0]
      ensures |solution| <= Max(levelDef.shuffleAmmount, 0)
      ensures SolutionRecordable()
    {
      walk' := walk;
      var shuffleOptions := ShuffleOptions(levelDef.puzzleType);
      var i := 0;
      while i < levelDef.shuffleAmmount
        invariant ShuffleInv(walk') && walk'[0] == walk[0]
        invariant 0 <= i <= Max(levelDef.shuffleAmmount, 0) && |solution| <= i
        invariant SolutionRecordable()
        decreases levelDef.shuffleAmmount - i
      {
        walk' := PickedRound(rng, picker, shuffleOptions, walk');
        i := i + 1;
      }
    }

    /** One round of ShuffleRounds: the picker chooses one of the options, which is then played. */
    method PickedRound(rng: Random, picker: Random, options: seq<int>, ghost walk: seq<Board>) returns (ghost walk': seq<Board>)
      requires ShuffleInv(walk) && levelDef.gridWidth >= 1 && levelDef.gridHeight >= 1
      requires options == ShuffleOptions(levelDef.puzzleType) && |options| > 0
      requires SolutionRecordable()
      modifies this`solution, this`prevStates, this`snapshotRepr, currentState.state, rng, picker
      ensures ShuffleInv(walk') && walk'[0] == walk[0]
      ensures |solution| <= |old(solution)| + 1
      ensures SolutionRecordable()
    {
      var k := picker.Range(0, |options|);
      var option := options[k];
      OptionRecordable(levelDef.puzzleType, option);
      ghost var before := solution;
      var done, e;
      done, e, walk' := ShuffleRound(rng, option, walk);
      if done {
        RecordableAppend(levelDef.puzzleType, before, [e]);
      }
    }

    /**
     * Shuffle: starting from the current (solved) state, shuffleAmmount
     * rounds each pick an option at random and make at most one recorded
     * step; the solution is then reversed.  Playing it from the shuffled
     * state gives back the initial state, and no two snapshots are the same.
     */
    method Shuffle(rng: Random, picker: Random) returns (ghost walk: seq<Board>)
      requires Ready() && levelDef.gridWidth >= 1 && levelDef.gridHeight >= 1
      requires levelDef.shuffleAmmount > 0 ==> |ShuffleOptions(levelDef.puzzleType)| > 0
      modifies this`solution, this`prevStates, this`snapshotRepr, currentState.state, rng, picker
      ensures Ready()
      ensures Replay(Cfg(), currentState.Board(), solution) == old(currentState.Board())
      ensures |solution| <= Max(levelDef.shuffleAmmount, 0)
      ensures forall k :: 0 <= k < |solution| ==> Recordable(levelDef.puzzleType, solution[k].action)
      ensures |walk| == |solution| + 1 && walk[0] == old(currentState.Board()) && walk[|walk| - 1] == currentState.Board()
      ensures Held(Cfg(), Clones(walk)) && AllDistinct(Cfg(), Clones(walk))
    {
      walk := BeginShuffle();
      walk := ShuffleRounds(rng, picker, walk);
      label Walked:
      RecordableReversed(levelDef.puzzleType, solution);
      solution := Reversed(solution);
      SolutionReversed@Walked(walk);
    }
  }

  /** List.PopLast's element: the last one, or nothing when the list is empty. */
  function LastOf<T>(s: seq<T>): (r: Option<T>)
    ensures r.Some? <==> |s| > 0
    ensures |s| > 0 ==> r.value == s[|s| - 1]
  {
    if |s| == 0 then None else Some(s[|s| - 1])
  }

  /** The list after PopLast: all but its last element; an empty list stays empty. */
  function DropLast<T>(s: seq<T>): (r: seq<T>)
    ensures |s| > 0 ==> r + [s[|s| - 1]] == s
    ensures |s| == 0 ==> r == []
  {
    if |s| == 0 then [] else s[..|s| - 1]
  }

  /** Boards that differ only in their full flags have the same occupied slots. */
  lemma LayoutKeepsOccupied(b: Board, b': Board)
    requires SameLayout(b, b')
    ensures Occupied(b) == Occupied(b')
  {
    forall p | p in b
      ensures Present(b, p) == Present(b', p)
    {
      assert Unfill(b[p]) == Unfill(b'[p]);
    }
  }

  lemma NotFullShrinks(b: Board, drains: seq<bool>, b0: Board, drains0: seq<bool>)
    requires Grows(b0, drains0, b, drains)
    ensures NotFull(b) <= NotFull(b0)
  {
    forall p | p in NotFull(b)
      ensures p in NotFull(b0)
    {
      assert Unfill(b[p]) == Unfill(b0[p]);
      assert FullAt(b0, p) ==> FullAt(b, p);
    }
  }
}
