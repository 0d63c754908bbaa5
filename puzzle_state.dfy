/**
 * The grid state of one puzzle (class PuzzleState): a `width × height`
 * array of optional elements that the game mutates in place.  Every method
 * is proved against the value-level specification of module Grid through
 * the ghost view `Board()`.
 */
module PuzzleStates {
  import opened Grid
  import opened Rng

  /** The filter GetRandomGridPos applies to a drawn position. */
  ghost predicate Eligible(cfg: Config, b: Board, p: Pos, withEmptyNeighbour: bool, allowImmobile: bool, needPipe: bool)
    requires Shaped(cfg, b)
  {
    && InGrid(cfg.width, cfg.height, p)
    && b[p].Some?
    && (allowImmobile || !b[p].value.immoveable)
    && (!needPipe || b[p].value.pipeType != -1)
    && (withEmptyNeighbour ==> EmptyNeighbour(cfg, b, p).Some?)
  }

  /** The most attempts GetRandomGridPos makes before giving up. */
  const MaxSampleTries := 100

  /**
   * The outcome of GetRandomGridPos from attempt `tries` on: whether a position
   * was found, the position, and the cursor after the draws consumed.  Each
   * attempt draws an x and a y.
   */
  ghost function Sample(cfg: Config, b: Board, draws: nat -> int, cursor: nat, tries: nat,
                        withEmptyNeighbour: bool, allowImmobile: bool, needPipe: bool): (bool, Pos, nat)
    requires Shaped(cfg, b)
    decreases MaxSampleTries - tries
  {
    if tries >= MaxSampleTries then (false, Pos(0, 0), cursor)
    else
      var p := Pos(Pick(draws(cursor), 0, cfg.width), Pick(draws(cursor + 1), 0, cfg.height));
      if Eligible(cfg, b, p, withEmptyNeighbour, allowImmobile, needPipe) then (true, p, cursor + 2)
      else Sample(cfg, b, draws, cursor + 2, tries + 1, withEmptyNeighbour, allowImmobile, needPipe)
  }

  /**
   * What a sample promises: a found position passes the filter, a failure
   * reports (0,0), and at most MaxSampleTries attempts (two draws each) are made.
   */
  lemma {:induction false} SampleSound(cfg: Config, b: Board, draws: nat -> int, cursor: nat, tries: nat,
                                       withEmptyNeighbour: bool, allowImmobile: bool, needPipe: bool)
    requires Shaped(cfg, b)
    ensures var r := Sample(cfg, b, draws, cursor, tries, withEmptyNeighbour, allowImmobile, needPipe);
      && (r.0 ==> Eligible(cfg, b, r.1, withEmptyNeighbour, allowImmobile, needPipe))
      && (!r.0 ==> r.1 == Pos(0, 0))
      && cursor <= r.2 <= cursor + 2 * (if tries >= MaxSampleTries then 0 else MaxSampleTries - tries)
      && (r.2 - cursor) % 2 == 0
    decreases MaxSampleTries - tries
  {
    if tries < MaxSampleTries {
      SampleSound(cfg, b, draws, cursor + 2, tries + 1, withEmptyNeighbour, allowImmobile, needPipe);
    }
  }

  /** On a grid where no position passes the filter, the sample gives up instead of looping. */
  lemma {:induction false} SampleFailsWhenNothingEligible(cfg: Config, b: Board, draws: nat -> int, cursor: nat, tries: nat,
                                                          withEmptyNeighbour: bool, allowImmobile: bool, needPipe: bool)
    requires Shaped(cfg, b)
    requires forall p :: !Eligible(cfg, b, p, withEmptyNeighbour, allowImmobile, needPipe)
    ensures Sample(cfg, b, draws, cursor, tries, withEmptyNeighbour, allowImmobile, needPipe)
            == (false, Pos(0, 0), cursor + 2 * (if tries >= MaxSampleTries then 0 else MaxSampleTries - tries))
    decreases MaxSampleTries - tries
  {
    if tries < MaxSampleTries {
      SampleFailsWhenNothingEligible(cfg, b, draws, cursor + 2, tries + 1, withEmptyNeighbour, allowImmobile, needPipe);
    }
  }

  class PuzzleState {
    const puzzleType: set<Mode>
    const width: nat
    const height: nat
    const hasImage: bool
    const neighborhoodType: NeighborhoodType
    const neighborhoodDistance: int
    const state: array2<Option<Element>>

    function Cfg(): Config
    {
      Config(puzzleType, width, height, hasImage, neighborhoodType, neighborhoodDistance)
    }

    ghost predicate Valid()
    {
      state.Length0 == width && state.Length1 == height
    }

    /** The abstract value of the state: the board the array holds. */
    ghost function Board(): (b: Board)
      reads state
      requires Valid()
      ensures Shaped(Cfg(), b)
      ensures forall p :: InGrid(width, height, p) ==> b[p] == state[p.x, p.y]
    {
      map p | p in Positions(width, height) :: state[p.x, p.y]
    }

    constructor (puzzleType: set<Mode>, gridWidth: nat, gridHeight: nat, hasImage: bool,
                 neighborhoodType: NeighborhoodType, neighborhoodDistance: int)
      ensures Valid() && fresh(state)
      ensures Cfg() == Config(puzzleType, gridWidth, gridHeight, hasImage, neighborhoodType, neighborhoodDistance)
      ensures forall p :: InGrid(gridWidth, gridHeight, p) ==> Board()[p] == None
    {
      this.puzzleType := puzzleType;
      this.width := gridWidth;
      this.height := gridHeight;
      this.hasImage := hasImage;
      this.neighborhoodType := neighborhoodType;
      this.neighborhoodDistance := neighborhoodDistance;
      state := new Option<Element>[gridWidth, gridHeight]((x, y) => None);
    }

    /** Identity: every slot holds the piece that belongs there, light on, no pipe, no rotation. */
    method Identity()
      requires Valid()
      modifies state
      ensures Board() == IdentityBoard(width, height)
    {
      for y := 0 to height
        invariant forall p :: InGrid(width, height, p) ==>
          state[p.x, p.y] == if p.y < y then Some(IdentityElement(p)) else old(state[p.x, p.y])
      {
        for x := 0 to width
          invariant forall p :: InGrid(width, height, p) ==>
            state[p.x, p.y] == if p.y < y || (p.y == y && p.x < x) then Some(IdentityElement(p)) else old(state[p.x, p.y])
        {
          state[x, y] := Some(IdentityElement(Pos(x, y)));
        }
      }
      assert forall p :: p in Board() ==> Board()[p] == IdentityBoard(width, height)[p];
    }

    /** Clear: the slot becomes empty; nothing else changes. */
    method Clear(x: int, y: int)
      requires Valid() && InGrid(width, height, Pos(x, y))
      modifies state
      ensures Board() == old(Board())[Pos(x, y) := None]
    {
      state[x, y] := None;
      assert forall p :: p in Board() ==> Board()[p] == old(Board())[Pos(x, y) := None][p];
    }

    /** SetImmoveable: sets the flag of a present element; an empty slot is left alone. */
    method SetImmoveable(x: int, y: int, v: bool)
      requires Valid() && InGrid(width, height, Pos(x, y))
      modifies state
      ensures Board() == match old(state[x, y])
                         case None => old(Board())
                         case Some(e) => old(Board())[Pos(x, y) := Some(e.(immoveable := v))]
    {
      if state[x, y] != None {
        state[x, y] := Some(state[x, y].value.(immoveable := v));
      }
      assert forall p :: p in Board() ==> Board()[p] == (match old(state[x, y])
                         case None => old(Board())
                         case Some(e) => old(Board())[Pos(x, y) := Some(e.(immoveable := v))])[p];
    }

    /** SetFull: sets the flow flag of a present element; an empty slot is left alone. */
    method SetFull(x: int, y: int, b: bool)
      requires Valid() && InGrid(width, height, Pos(x, y))
      modifies state
      ensures Board() == match old(state[x, y])
                         case None => old(Board())
                         case Some(e) => old(Board())[Pos(x, y) := Some(e.(isFull := b))]
    {
      if state[x, y] != None {
        state[x, y] := Some(state[x, y].value.(isFull := b));
      }
      assert forall p :: p in Board() ==> Board()[p] == (match old(state[x, y])
                         case None => old(Board())
                         case Some(e) => old(Board())[Pos(x, y) := Some(e.(isFull := b))])[p];
    }

    /** SetPipe: gives a present element a pipe shape and its authored rotation. */
    method SetPipe(x: int, y: int, pipeType: int, rotation: int)
      requires Valid() && InGrid(width, height, Pos(x, y)) && state[x, y].Some?
      modifies state
      ensures Board() == old(Board())[Pos(x, y) := Some(old(state[x, y]).value.(pipeType := pipeType, pipeRotation := rotation))]
    {
      state[x, y] := Some(state[x, y].value.(pipeType := pipeType, pipeRotation := rotation));
      assert forall p :: p in Board() ==>
        Board()[p] == old(Board())[Pos(x, y) := Some(old(state[x, y]).value.(pipeType := pipeType, pipeRotation := rotation))][p];
    }

    /** Swap: the two slots exchange their contents, whichever of them is empty. */
    method Swap(p1: Pos, p2: Pos)
      requires Valid() && InGrid(width, height, p1) && InGrid(width, height, p2)
      modifies state
      ensures Board() == SwapCells(old(Board()), p1, p2)
    {
      var tmp := state[p2.x, p2.y];
      state[p2.x, p2.y] := state[p1.x, p1.y];
      state[p1.x, p1.y] := tmp;
      assert forall p :: p in Board() ==> Board()[p] == SwapCells(old(Board()), p1, p2)[p];
    }

    /** Rotate: a quarter turn of a present piece, +1 when counterclockwise, -1 (wrapping to 3) otherwise. */
    method Rotate(p: Pos, counterclockwise: bool)
      requires Valid() && InGrid(width, height, p) && state[p.x, p.y].Some?
      modifies state
      ensures Board() == RotateCell(old(Board()), p, counterclockwise)
    {
      var e := state[p.x, p.y].value;
      if counterclockwise {
        state[p.x, p.y] := Some(e.(pieceRotation := CsRem(e.pieceRotation + 1, 4)));
      } else {
        e := e.(pieceRotation := e.pieceRotation - 1);
        if e.pieceRotation < 0 {
          e := e.(pieceRotation := 3);
        }
        state[p.x, p.y] := Some(e);
      }
      assert forall q :: q in Board() ==> Board()[q] == RotateCell(old(Board()), p, counterclockwise)[q];
    }

    /**
     * GetEmptyNeighbour: whether an orthogonal neighbour inside the grid is
     * empty, and the first such one in the order −x, +x, −y, +y ((0,0) if none).
     */
    method GetEmptyNeighbour(pos: Pos) returns (found: bool, neighbour: Pos)
      requires Valid() && InGrid(width, height, pos)
      ensures found == EmptyNeighbour(Cfg(), Board(), pos).Some?
      ensures found ==> neighbour == EmptyNeighbour(Cfg(), Board(), pos).value
      ensures !found ==> neighbour == Pos(0, 0)
    {
      if pos.x > 0 && state[pos.x - 1, pos.y] == None { return true, Pos(pos.x - 1, pos.y); }
      if pos.x < width - 1 && state[pos.x + 1, pos.y] == None { return true, Pos(pos.x + 1, pos.y); }
      if pos.y > 0 && state[pos.x, pos.y - 1] == None { return true, Pos(pos.x, pos.y - 1); }
      if pos.y < height - 1 && state[pos.x, pos.y + 1] == None { return true, Pos(pos.x, pos.y + 1); }
      return false, Pos(0, 0);
    }

    /**
     * GetRandomGridPos: up to MaxSampleTries attempts at drawing a present
     * position that passes the three filters.
     */
    method GetRandomGridPos(rng: Random, withEmptyNeighbour: bool, allowImmobile: bool, needPipe: bool)
      returns (found: bool, pos: Pos)
      requires Valid() && width >= 1 && height >= 1
      modifies rng
      ensures (found, pos, rng.cursor) ==
              Sample(Cfg(), Board(), rng.draws, old(rng.cursor), 0, withEmptyNeighbour, allowImmobile, needPipe)
    {
      var nTries := 0;
      while nTries < MaxSampleTries
        invariant 0 <= nTries <= MaxSampleTries
        invariant Sample(Cfg(), Board(), rng.draws, old(rng.cursor), 0, withEmptyNeighbour, allowImmobile, needPipe)
               == Sample(Cfg(), Board(), rng.draws, rng.cursor, nTries, withEmptyNeighbour, allowImmobile, needPipe)
      {
        nTries := nTries + 1;
        pos := rng.RandomXY(width, height);
        var ok := Accepts(pos, withEmptyNeighbour, allowImmobile, needPipe);
        if ok { return true, pos; }
      }
      return false, Pos(0, 0);
    }

    /** The filters of one GetRandomGridPos attempt, in their order. */
    method Accepts(pos: Pos, withEmptyNeighbour: bool, allowImmobile: bool, needPipe: bool) returns (ok: bool)
      requires Valid() && InGrid(width, height, pos)
      ensures ok == Eligible(Cfg(), Board(), pos, withEmptyNeighbour, allowImmobile, needPipe)
    {
      assert Board()[pos] == state[pos.x, pos.y];
      if state[pos.x, pos.y] == None { return false; }
      if !allowImmobile && state[pos.x, pos.y].value.immoveable { return false; }
      if needPipe && state[pos.x, pos.y].value.pipeType == -1 { return false; }
      if withEmptyNeighbour {
        var found, neighbour := GetEmptyNeighbour(pos);
        return found;
      }
      return true;
    }

    function HasElement(x: int, y: int): bool
      reads state
      requires Valid() && InGrid(width, height, Pos(x, y))
    {
      state[x, y].Some?
    }

    function GetPipeType(x: int, y: int): int
      reads state
      requires Valid() && InGrid(width, height, Pos(x, y)) && state[x, y].Some?
    {
      state[x, y].value.pipeType
    }

    function GetImmoveable(x: int, y: int): bool
      reads state
      requires Valid() && InGrid(width, height, Pos(x, y)) && state[x, y].Some?
    {
      state[x, y].value.immoveable
    }

    function GetTotalRotation(x: int, y: int): int
      reads state
      requires Valid() && InGrid(width, height, Pos(x, y)) && state[x, y].Some?
    {
      TotalRotation(state[x, y].value)
    }

    /** IsSame: the mode-gated comparison against another state. */
    method IsSame(other: PuzzleState) returns (r: bool)
      requires Valid() && other.Valid()
      ensures r == Same(Cfg(), Board(), other.Cfg(), other.Board())
    {
      if puzzleType != other.puzzleType { return false; }
      if width != other.width || height != other.height { return false; }
      for y := 0 to height
        invariant forall p :: InGrid(width, height, p) && p.y < y ==>
          CellSame(Cfg(), state[p.x, p.y], other.state[p.x, p.y])
      {
        for x := 0 to width
          invariant forall p :: InGrid(width, height, p) && (p.y < y || (p.y == y && p.x < x)) ==>
            CellSame(Cfg(), state[p.x, p.y], other.state[p.x, p.y])
        {
          var a, c := state[x, y], other.state[x, y];
          assert Board()[Pos(x, y)] == a && other.Board()[Pos(x, y)] == c;
          if (a.None? && c.Some?) || (a.Some? && c.None?) {
            return false;
          }
          if a.Some? && c.Some? {
            if Sliding in puzzleType && hasImage {
              if a.value.originalPosition != c.value.originalPosition { return false; }
            }
            if LightsOut in puzzleType {
              if a.value.lightState != c.value.lightState { return false; }
            }
            if Pipemania in puzzleType {
              if a.value.pipeType != c.value.pipeType || a.value.pipeRotation != c.value.pipeRotation ||
                 a.value.pieceRotation != c.value.pieceRotation {
                return false;
              }
            }
          }
        }
      }
      return true;
    }

    /** Clone: a fresh state of the same configuration holding a copy of every element (immoveable reset). */
    method Clone() returns (r: PuzzleState)
      requires Valid()
      ensures fresh(r) && fresh(r.state) && r.Valid()
      ensures r.Cfg() == Cfg() && r.Board() == CloneBoard(Board())
    {
      r := new PuzzleState(puzzleType, width, height, hasImage, neighborhoodType, neighborhoodDistance);
      for y := 0 to height
        invariant fresh(r.state) && r.Valid() && r.Cfg() == Cfg()
        invariant forall p :: InGrid(width, height, p) ==>
          r.state[p.x, p.y] == if p.y < y then CloneCell(state[p.x, p.y]) else None
      {
        for x := 0 to width
          invariant forall p :: InGrid(width, height, p) ==>
            r.state[p.x, p.y] == if p.y < y || (p.y == y && p.x < x) then CloneCell(state[p.x, p.y]) else None
        {
          if state[x, y] != None {
            r.state[x, y] := CloneCell(state[x, y]);
          }
        }
      }
      assert forall p :: p in r.Board() ==> r.Board()[p] == CloneBoard(Board())[p];
    }

    /** CheckSolution: whether every active mode is solved. */
    method CheckSolution() returns (r: bool)
      requires Valid() && GapReadable(Cfg())
      ensures r == Solved(Cfg(), Board())
    {
      if Sliding in puzzleType {
        var ok := CheckSliding();
        if !ok { return false; }
      }
      if LightsOut in puzzleType {
        var ok := CheckLights();
        if !ok { return false; }
      }
      if Pipemania in puzzleType {
        var ok := CheckPipes();
        if !ok { return false; }
      }
      return true;
    }

    /** The sliding part of CheckSolution: every piece home, or the gap empty. */
    method CheckSliding() returns (r: bool)
      requires Valid() && GapReadable(Cfg()) && Sliding in puzzleType
      ensures r == SlidingSolved(Cfg(), Board())
    {
      if hasImage {
        for y := 0 to height
          invariant forall p :: InGrid(width, height, p) && p.y < y && state[p.x, p.y].Some? ==>
            state[p.x, p.y].value.originalPosition == p
        {
          for x := 0 to width
            invariant forall p :: InGrid(width, height, p) && (p.y < y || (p.y == y && p.x < x)) && state[p.x, p.y].Some? ==>
              state[p.x, p.y].value.originalPosition == p
          {
            if state[x, y] != None {
              if state[x, y].value.originalPosition.x != x || state[x, y].value.originalPosition.y != y {
                assert Board()[Pos(x, y)] == state[x, y];
                return false;
              }
            }
          }
        }
        return true;
      } else {
        var rx := if width % 2 != 0 then width / 2 else 0;
        var ry := if height % 2 != 0 then height / 2 else height - 1;
        assert Pos(rx, ry) == GapPos(Cfg());
        return state[rx, ry] == None;
      }
    }

    /** The lights part of CheckSolution: every present piece lit. */
    method CheckLights() returns (r: bool)
      requires Valid()
      ensures r == LightsSolved(Cfg(), Board())
    {
      for y := 0 to height
        invariant forall p :: InGrid(width, height, p) && p.y < y && state[p.x, p.y].Some? ==> state[p.x, p.y].value.lightState
      {
        for x := 0 to width
          invariant forall p :: InGrid(width, height, p) && (p.y < y || (p.y == y && p.x < x)) && state[p.x, p.y].Some? ==>
            state[p.x, p.y].value.lightState
        {
          if state[x, y] != None {
            if !state[x, y].value.lightState {
              assert Board()[Pos(x, y)] == state[x, y];
              return false;
            }
          }
        }
      }
      return true;
    }

    /** The pipe part of CheckSolution: every pipe full, and unturned when the level has an image. */
    method CheckPipes() returns (r: bool)
      requires Valid()
      ensures r == PipesSolved(Cfg(), Board())
    {
      for y := 0 to height
        invariant forall p :: InGrid(width, height, p) && p.y < y && state[p.x, p.y].Some? && state[p.x, p.y].value.pipeType >= 0 ==>
          state[p.x, p.y].value.isFull && (hasImage ==> state[p.x, p.y].value.pieceRotation == 0)
      {
        for x := 0 to width
          invariant forall p :: InGrid(width, height, p) && (p.y < y || (p.y == y && p.x < x)) &&
                                state[p.x, p.y].Some? && state[p.x, p.y].value.pipeType >= 0 ==>
            state[p.x, p.y].value.isFull && (hasImage ==> state[p.x, p.y].value.pieceRotation == 0)
        {
          if state[x, y] != None && state[x, y].value.pipeType >= 0 {
            if !state[x, y].value.isFull {
              assert Board()[Pos(x, y)] == state[x, y];
              return false;
            }
            if hasImage && state[x, y].value.pieceRotation != 0 {
              assert Board()[Pos(x, y)] == state[x, y];
              return false;
            }
          }
        }
      }
      return true;
    }

    /**
     * ToggleLight: flips the light of every present element the toggle
     * centred on gridPos reaches; empty slots and positions outside the
     * grid are skipped.
     */
    method ToggleLight(gridPos: Pos)
      requires Valid()
      modifies state
      ensures Board() == ToggleLights(Cfg(), old(Board()), gridPos)
    {
      var d := neighborhoodDistance;
      var y := gridPos.y - d;
      while y <= gridPos.y + d
        invariant forall p :: InGrid(width, height, p) ==>
          state[p.x, p.y] == if p.y < y && old(state[p.x, p.y]).Some? && ToggleReaches(Cfg(), gridPos, p)
                             then Some(FlipLight(old(state[p.x, p.y]).value)) else old(state[p.x, p.y])
        decreases gridPos.y + d + 1 - y
      {
        if 0 <= y < height {
          var x := gridPos.x - d;
          while x <= gridPos.x + d
            invariant forall p :: InGrid(width, height, p) ==>
              state[p.x, p.y] == if (p.y < y || (p.y == y && p.x < x)) && old(state[p.x, p.y]).Some? && ToggleReaches(Cfg(), gridPos, p)
                                 then Some(FlipLight(old(state[p.x, p.y]).value)) else old(state[p.x, p.y])
            decreases gridPos.x + d + 1 - x
          {
            if 0 <= x < width && state[x, y] != None {
              var reached := match neighborhoodType
                case VonNeumann => Abs(x - gridPos.x) + Abs(y - gridPos.y) <= d
                case Moore => true
                case Cross => x == gridPos.x || y == gridPos.y;
              if reached {
                state[x, y] := Some(FlipLight(state[x, y].value));
              }
            }
            x := x + 1;
          }
        }
        y := y + 1;
      }
      assert forall p :: p in Board() ==> Board()[p] == ToggleLights(Cfg(), old(Board()), gridPos)[p];
    }
  }
}
