/**
 * The pipe-map generator of the pipe mode (CreatePipeMap), on values.
 *
 * The generator works on a padded grid: the puzzle grid with a one-cell
 * border around it, so that padded cell (x, y) is grid cell (x − 1, y − 1).
 * The pump sits just outside the grid and opens into it; each drain is
 * found by asking a path finder for a path from the pump's padded cell to
 * a cell of the padded border, through a padded grid whose border and a
 * few random block tiles are closed.  The cells of the accepted paths then
 * become pipe pieces that open towards their path neighbours.
 *
 * The path finder (AStar.GetPath) is not part of this model: it is a
 * function parameter, relied on only to return paths through open cells.
 */
module PipeMaps {
  import opened Grid
  import opened Pipes
  import opened Flow

  /** The pump or a drain: a position outside the grid and the direction its opening faces. */
  datatype EndPoint = EndPoint(pos: Pos, rotation: int)

  /** The positions of a list of drains. */
  function EndPositions(ends: seq<EndPoint>): (r: seq<Pos>)
    ensures |r| == |ends| && forall k :: 0 <= k < |ends| ==> r[k] == ends[k].pos
  {
    if |ends| == 0 then [] else [ends[0].pos] + EndPositions(ends[1..])
  }

  lemma {:induction false} EndPositionsAppend(ends: seq<EndPoint>, e: EndPoint)
    ensures EndPositions(ends + [e]) == EndPositions(ends) + [e.pos]
  {
    if |ends| > 0 {
      assert (ends + [e])[1..] == ends[1..] + [e];
      EndPositionsAppend(ends[1..], e);
    }
  }

  // ---------------------------------------------------------------------
  // The pump

  /**
   * Where the pump goes for the side draw r in [0,3) and the position draw
   * a: above the grid opening down (+y), left of it opening right (+x), or
   * below it opening up (−y).
   */
  function PumpPlacement(r: int, a: int, w: int, h: int): EndPoint
    requires 0 <= r < 3
  {
    if r == 0 then EndPoint(Pos(a, -1), 1)
    else if r == 1 then EndPoint(Pos(-1, a), 0)
    else EndPoint(Pos(a, h), 3)
  }

  /** The pump's single opening, 0b0001 rotated by its rotation, is the opening in direction `rotation`. */
  lemma PumpMaskSingle(rotation: int)
    requires 0 <= rotation < 4
    ensures forall i :: 0 <= i < 4 ==> (Bit(PumpMask(rotation), i) <==> i == rotation)
  {
    assert RotateMask(1, 0) == 1;
    assert RotateMask(1, 1) == 2;
    assert RotateMask(1, 2) == 4;
    assert RotateMask(1, 3) == 8;
  }

  /**
   * For in-range draws the pump lies outside the grid, and its only
   * opening points at a cell of the grid.
   */
  lemma PumpFacesGrid(r: int, a: int, w: int, h: int)
    requires 0 <= r < 3 && w >= 1 && h >= 1
    requires if r == 1 then 0 <= a < h else 0 <= a < w
    ensures var e := PumpPlacement(r, a, w, h);
      && !InGrid(w, h, e.pos)
      && 0 <= e.rotation < 4
      && InGrid(w, h, UpdatePipePos(e.pos, e.rotation))
      && forall i :: 0 <= i < 4 ==> (Bit(PumpMask(e.rotation), i) <==> i == e.rotation)
  {
    PumpMaskSingle(PumpPlacement(r, a, w, h).rotation);
  }

  // ---------------------------------------------------------------------
  // Exits

  /** A cell of the padded grid's border. */
  predicate OnBorder(gsx: int, gsy: int, o: Pos)
  {
    InGrid(gsx, gsy, o) && (o.x == 0 || o.y == 0 || o.x == gsx - 1 || o.y == gsy - 1)
  }

  predicate IsCorner(gsx: int, gsy: int, o: Pos)
  {
    (o.x == 0 || o.x == gsx - 1) && (o.y == 0 || o.y == gsy - 1)
  }

  /** The range the position draw of side r is taken from: the padded height for the right and left sides, the width otherwise. */
  function ExitSpan(r: int, gsx: int, gsy: int): int
  {
    if r == 0 || r == 2 then gsy else gsx
  }

  /**
   * The exit cell and drain rotation for the side draw r in [0,4) and the
   * position draw a, as the generator is written: the right, top-of-array
   * (y = gsy − 1) and left sides for r = 0, 1, 2; the branch meant for the
   * remaining side tests r == 4, which a draw in [0,4) never gives, so
   * r == 3 leaves the exit at the corner (0, 0) with rotation 0.
   */
  function ExitAsWritten(r: int, a: int, gsx: int, gsy: int): EndPoint
  {
    if r == 0 then EndPoint(Pos(gsx - 1, a), 2)
    else if r == 1 then EndPoint(Pos(a, gsy - 1), 3)
    else if r == 2 then EndPoint(Pos(0, a), 0)
    else if r == 4 then EndPoint(Pos(a, 0), 1)
    else EndPoint(Pos(0, 0), 0)
  }

  /** The exit choice with the fourth side reached by r == 3. */
  function Exit(r: int, a: int, gsx: int, gsy: int): EndPoint
  {
    if r == 3 then EndPoint(Pos(a, 0), 1) else ExitAsWritten(r, a, gsx, gsy)
  }

  /**
   * As written, no draw puts an exit on the y = 0 side of the padded grid
   * except at its two corners: whatever a is, r == 3 gives the corner (0, 0).
   */
  lemma ExitAsWrittenMissesSide(r: int, a: int, gsx: int, gsy: int)
    requires 0 <= r < 4 && gsx >= 3 && gsy >= 3 && 0 <= a < ExitSpan(r, gsx, gsy)
    ensures var o := ExitAsWritten(r, a, gsx, gsy).pos;
      OnBorder(gsx, gsy, o) && (o.y == 0 ==> IsCorner(gsx, gsy, o))
    ensures r == 3 ==> ExitAsWritten(r, a, gsx, gsy) == EndPoint(Pos(0, 0), 0)
  {
  }

  /** The drain of the as-written r == 3 exit, at (−1, −1), has no grid cell next to it. */
  lemma CornerDrainIsolated(gsx: int, gsy: int, a: int, w: int, h: int, i: int)
    requires 0 <= i < 4
    ensures var o := ExitAsWritten(3, a, gsx, gsy).pos;
      Pos(o.x - 1, o.y - 1) == Pos(-1, -1) && !InGrid(w, h, UpdatePipePos(Pos(o.x - 1, o.y - 1), i))
  {
  }

  /**
   * Every exit lies on the padded border, and the drain of an exit that is
   * not a corner lies outside the grid and faces a grid cell.
   */
  lemma ExitFacesGrid(r: int, a: int, w: int, h: int)
    requires 0 <= r < 4 && w >= 1 && h >= 1 && 0 <= a < ExitSpan(r, w + 2, h + 2)
    ensures var e := Exit(r, a, w + 2, h + 2);
      var d := Pos(e.pos.x - 1, e.pos.y - 1);
      && OnBorder(w + 2, h + 2, e.pos) && 0 <= e.rotation < 4
      && !InGrid(w, h, d)
      && (!IsCorner(w + 2, h + 2, e.pos) ==> InGrid(w, h, UpdatePipePos(d, e.rotation)))
  {
  }

  /**
   * As written, every exit still lies on the padded border with its drain
   * outside the grid, and the drain of an exit that is not a corner faces
   * a grid cell; for r == 3 the exit is the corner (0, 0), whatever a is.
   */
  lemma ExitAsWrittenFacesGrid(r: int, a: int, w: int, h: int)
    requires 0 <= r < 4 && w >= 1 && h >= 1 && (r < 3 ==> 0 <= a < ExitSpan(r, w + 2, h + 2))
    ensures var e := ExitAsWritten(r, a, w + 2, h + 2);
      var d := Pos(e.pos.x - 1, e.pos.y - 1);
      && OnBorder(w + 2, h + 2, e.pos) && 0 <= e.rotation < 4
      && !InGrid(w, h, d)
      && (!IsCorner(w + 2, h + 2, e.pos) ==> InGrid(w, h, UpdatePipePos(d, e.rotation)))
  {
  }

  /** With r == 3 going to the fourth side, every border cell that is not a corner can be drawn as an exit. */
  lemma ExitCoversBorder(gsx: int, gsy: int, o: Pos)
    requires gsx >= 3 && gsy >= 3 && OnBorder(gsx, gsy, o) && !IsCorner(gsx, gsy, o)
    ensures exists r, a :: 0 <= r < 4 && 0 <= a < ExitSpan(r, gsx, gsy) && Exit(r, a, gsx, gsy).pos == o
  {
    if o.x == gsx - 1 {
      assert Exit(0, o.y, gsx, gsy).pos == o;
    } else if o.y == gsy - 1 {
      assert Exit(1, o.x, gsx, gsy).pos == o;
    } else if o.x == 0 {
      assert Exit(2, o.y, gsx, gsy).pos == o;
    } else {
      assert Exit(3, o.x, gsx, gsy).pos == o;
    }
  }

  // ---------------------------------------------------------------------
  // The path finder

  /** AStar.GetPath(pipeGrid, start, goal) with pipeGrid given by its size and its closed cells. */
  type PathFinder = (set<Pos>, int, int, Pos, Pos) -> Option<seq<Pos>>

  /** The closed cells of one try: the padded border and the block tiles, with the start and the exit opened. */
  function ClosedCells(gsx: int, gsy: int, tiles: set<Pos>, start: Pos, o: Pos): (c: set<Pos>)
    ensures start !in c && o !in c
    ensures forall p :: OnBorder(gsx, gsy, p) && p != start && p != o ==> p in c
  {
    (set x, y | 0 <= x < gsx && 0 <= y < gsy && OnBorder(gsx, gsy, Pos(x, y)) :: Pos(x, y)) + tiles - {start, o}
  }

  /** A path through open cells of the padded grid. */
  predicate OpenPath(closed: set<Pos>, gsx: int, gsy: int, path: seq<Pos>)
  {
    forall k :: 0 <= k < |path| ==> InGrid(gsx, gsy, path[k]) && path[k] !in closed
  }

  /** What the generator relies on from the path finder: any path it returns runs through open cells. */
  ghost predicate FindsOpenPaths(astar: PathFinder)
  {
    forall closed, gsx, gsy, s, g :: astar(closed, gsx, gsy, s, g).Some? ==> OpenPath(closed, gsx, gsy, astar(closed, gsx, gsy, s, g).value)
  }

  /** Every cell of the path is the start, the exit, or a padded cell of the grid proper. */
  predicate InnerPath(w: int, h: int, start: Pos, o: Pos, path: seq<Pos>)
  {
    forall k :: 0 <= k < |path| ==> path[k] == start || path[k] == o || InGrid(w, h, Pos(path[k].x - 1, path[k].y - 1))
  }

  /** An open path of a try stays inside the grid apart from its start and its exit. */
  lemma OpenPathIsInner(w: int, h: int, tiles: set<Pos>, start: Pos, o: Pos, path: seq<Pos>)
    requires OpenPath(ClosedCells(w + 2, h + 2, tiles, start, o), w + 2, h + 2, path)
    ensures InnerPath(w, h, start, o, path)
  {
    forall k | 0 <= k < |path|
      ensures path[k] == start || path[k] == o || InGrid(w, h, Pos(path[k].x - 1, path[k].y - 1))
    {
      if path[k] != start && path[k] != o {
        assert !OnBorder(w + 2, h + 2, path[k]);
      }
    }
  }

  // ---------------------------------------------------------------------
  // Paths to pipes

  /**
   * Whether the path cell p (padded coordinates) becomes a pipe: it is on a
   * path, it is not the pump's cell, no drain sits on it, and its
   * neighbour mask matches the pipe table under some rotation.
   */
  predicate Converted(allPaths: seq<Pos>, start: Pos, drains: seq<Pos>, p: Pos)
  {
    && p in allPaths && p != start && Pos(p.x - 1, p.y - 1) !in drains
    && PipeMatch(NeighbourMask(allPaths, p), 0).0 != -1
  }

  /** The content of the grid slot under padded cell p once the paths are converted. */
  function PipedCell(c: Option<Element>, allPaths: seq<Pos>, start: Pos, drains: seq<Pos>, p: Pos): Option<Element>
  {
    if Converted(allPaths, start, drains, p) && c.Some? then
      var m := PipeMatch(NeighbourMask(allPaths, p), 0);
      Some(c.value.(pipeType := m.0, pipeRotation := m.1))
    else c
  }

  /** Conversion keeps every element within its ranges. */
  lemma PipedCellWellFormed(b: Board, q: Pos, allPaths: seq<Pos>, start: Pos, drains: seq<Pos>, p: Pos)
    requires WellFormed(b) && q in b
    ensures WellFormed(b[q := PipedCell(b[q], allPaths, start, drains, p)])
  {
    PipeMatchCorrect(NeighbourMask(allPaths, p));
  }

  /** Conversion changes pipes only: every piece stays at its slot with its own state. */
  lemma PipedKeepsPieces(b: Board, b': Board, allPaths: seq<Pos>, start: Pos, drains: seq<Pos>)
    requires forall q :: q in b' <==> q in b
    requires forall q :: q in b ==> b'[q] == PipedCell(b[q], allPaths, start, drains, Pos(q.x + 1, q.y + 1))
    ensures KeepsPieces(b, b')
  {
  }

  /** Converting a slot twice is converting it once. */
  lemma PipedCellIdempotent(c: Option<Element>, allPaths: seq<Pos>, start: Pos, drains: seq<Pos>, p: Pos)
    ensures PipedCell(PipedCell(c, allPaths, start, drains, p), allPaths, start, drains, p) == PipedCell(c, allPaths, start, drains, p)
  {
  }

  /**
   * A converted slot holding an unturned piece gets a pipe that opens
   * exactly towards the neighbours on a path; a slot not converted is left
   * as it was.  The pump's cell and the drains' cells are never converted.
   */
  lemma PipedCellFitsPath(c: Option<Element>, allPaths: seq<Pos>, start: Pos, drains: seq<Pos>, p: Pos)
    requires c.Some? && c.value.pieceRotation == 0
    ensures var c' := PipedCell(c, allPaths, start, drains, p);
      && c'.Some?
      && (p == start || Pos(p.x - 1, p.y - 1) in drains || p !in allPaths ==> c' == c)
      && (Converted(allPaths, start, drains, p) ==>
            && 0 <= c'.value.pipeType < 4 && 0 <= c'.value.pipeRotation < 4
            && forall i :: 0 <= i < 4 ==> (Bit(PieceMask(c'.value), i) <==> UpdatePipePos(p, i) in allPaths))
      && (!Converted(allPaths, start, drains, p) ==> c' == c)
  {
    var c' := PipedCell(c, allPaths, start, drains, p);
    AssignedPipeFitsPath(allPaths, p);
    if Converted(allPaths, start, drains, p) {
      var m := PipeMatch(NeighbourMask(allPaths, p), 0);
      assert TotalRotation(c'.value) == m.1;
    }
  }

  /**
   * One step of the conversion pass over the paths: once the slot under
   * allPaths[k] is converted, the slots under the first k + 1 path cells
   * are converted and every other slot is as it was.
   */
  lemma ConvertStep(b0: Board, before: Board, after: Board, allPaths: seq<Pos>, k: int,
                    start: Pos, drains: seq<Pos>, w: int, h: int)
    requires 0 <= k < |allPaths|
    requires forall q :: q in b0 <==> InGrid(w, h, q)
    requires forall q :: q in before <==> q in b0
    requires forall q :: q in b0 ==>
      before[q] == if Pos(q.x + 1, q.y + 1) in allPaths[..k] then PipedCell(b0[q], allPaths, start, drains, Pos(q.x + 1, q.y + 1)) else b0[q]
    requires var p := allPaths[k]; var q := Pos(p.x - 1, p.y - 1);
      after == if InGrid(w, h, q) then before[q := PipedCell(before[q], allPaths, start, drains, p)] else before
    ensures forall q :: q in after <==> q in b0
    ensures forall q :: q in b0 ==>
      after[q] == if Pos(q.x + 1, q.y + 1) in allPaths[..k + 1] then PipedCell(b0[q], allPaths, start, drains, Pos(q.x + 1, q.y + 1)) else b0[q]
  {
    var p := allPaths[k];
    assert allPaths[..k + 1] == allPaths[..k] + [p];
    forall q | q in b0
      ensures after[q] == if Pos(q.x + 1, q.y + 1) in allPaths[..k + 1] then PipedCell(b0[q], allPaths, start, drains, Pos(q.x + 1, q.y + 1)) else b0[q]
    {
      if Pos(q.x + 1, q.y + 1) == p {
        PipedCellIdempotent(b0[q], allPaths, start, drains, p);
      }
    }
  }

  // ---------------------------------------------------------------------
  // The gap of a sliding pipe puzzle without image

  /**
   * The do-while loop of Build that picks the gap of a sliding puzzle
   * without image, as written: every pass recomputes the same fixed slot
   * and the loop leaves only once that slot carries no pipe.  `fuel`
   * bounds the number of passes; None means the passes ran out.
   */
  function GapLoopAsWritten(cfg: Config, b: Board, fuel: nat): (r: Option<Pos>)
    ensures r.Some? ==> r.value == GapPos(cfg) && !PipeAt(b, GapPos(cfg))
  {
    if fuel == 0 then None
    else if PipeAt(b, GapPos(cfg)) then GapLoopAsWritten(cfg, b, fuel - 1)
    else Some(GapPos(cfg))
  }

  /** With a pipe on the fixed gap slot, no number of passes ends the loop as written. */
  lemma {:induction false} GapLoopAsWrittenHangs(cfg: Config, b: Board, fuel: nat)
    requires PipeAt(b, GapPos(cfg))
    ensures GapLoopAsWritten(cfg, b, fuel) == None
  {
    if fuel > 0 {
      GapLoopAsWrittenHangs(cfg, b, fuel - 1);
    }
  }

  /**
   * The generator can put a pipe on the fixed gap slot.  On a 3x3 sliding
   * pipe level without image the gap is the centre (1,1).  The pump's side
   * draw 0 puts it above the column drawn from [0, 3/2), that is column 0,
   * at padded cell (1,0); the exit's side draw 1 with position draw 2 puts
   * the exit at padded (2,4).  In a try without block tiles the adjacent
   * open path (1,0),(1,1),(2,1),(2,2),(2,3),(2,4) joins them, longer than any
   * minPathLength below 6, and it turns the centre into a straight pipe.
   */
  lemma GapCanCarryPipe(column: int)
    requires 0 <= column < 3 / 2
    ensures var cfg := Config({Sliding, Pipemania}, 3, 3, false, VonNeumann, 1);
      var pump := PumpPlacement(0, column, 3, 3);
      var exit := ExitAsWritten(1, 2, 5, 5);
      var start := Pos(pump.pos.x + 1, pump.pos.y + 1);
      var path := [start, Pos(1, 1), Pos(2, 1), Pos(2, 2), Pos(2, 3), exit.pos];
      var g := GapPos(cfg);
      var b := IdentityBoard(3, 3);
      && 2 < ExitSpan(1, 5, 5)
      && OpenPath(ClosedCells(5, 5, {}, start, exit.pos), 5, 5, path)
      && (forall k :: 0 <= k < |path| - 1 ==> Adjacent(path[k], path[k + 1]))
      && g == Pos(1, 1)
      && PipeAt(b[g := PipedCell(b[g], path, start, [Pos(exit.pos.x - 1, exit.pos.y - 1)], Pos(2, 2))], g)
  {
    assert column == 0;
    var path := [Pos(1, 0), Pos(1, 1), Pos(2, 1), Pos(2, 2), Pos(2, 3), Pos(2, 4)];
    GapPathOpen(path);
    GapPathPipes(path);
  }

  /** The witness path of GapCanCarryPipe runs through open cells, one step at a time. */
  lemma GapPathOpen(path: seq<Pos>)
    requires path == [Pos(1, 0), Pos(1, 1), Pos(2, 1), Pos(2, 2), Pos(2, 3), Pos(2, 4)]
    ensures OpenPath(ClosedCells(5, 5, {}, Pos(1, 0), Pos(2, 4)), 5, 5, path)
    ensures forall k :: 0 <= k < |path| - 1 ==> Adjacent(path[k], path[k + 1])
  {
    var closed := ClosedCells(5, 5, {}, Pos(1, 0), Pos(2, 4));
    forall k | 0 <= k < |path|
      ensures InGrid(5, 5, path[k]) && path[k] !in closed
    {
      if 0 < k < 5 {
        assert !OnBorder(5, 5, path[k]);
      }
    }
  }

  /** The witness path of GapCanCarryPipe makes the identity piece at the centre a straight pipe. */
  lemma GapPathPipes(path: seq<Pos>)
    requires path == [Pos(1, 0), Pos(1, 1), Pos(2, 1), Pos(2, 2), Pos(2, 3), Pos(2, 4)]
    ensures var b := IdentityBoard(3, 3);
      PipeAt(b[Pos(1, 1) := PipedCell(b[Pos(1, 1)], path, Pos(1, 0), [Pos(1, 3)], Pos(2, 2))], Pos(1, 1))
  {
    IdentityCells(3, 3, Pos(1, 1));
    assert NeighbourMask(path, Pos(2, 2)) == 10;
    assert ScanTable(10, 3) == -1;
    assert RotateRight(10) == 5;
    assert ScanTable(5, 3) == 1;
    assert Converted(path, Pos(1, 0), [Pos(1, 3)], Pos(2, 2));
  }
}
