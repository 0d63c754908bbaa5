/**
 * What the flood fill of the pipe puzzle is meant to compute.
 *
 * Water leaves the pump (outside the grid) through its single opening and
 * passes from a cell p to its neighbour q in direction i when p opens in
 * direction i and q carries a pipe that opens back in direction (i + 2) mod 4.
 * A cell is full exactly when such a chain of steps leads to it from the pump,
 * and a drain (outside the grid) is full when a reached cell, or the pump
 * itself, opens onto the drain's position.
 */
module Flow {
  import opened Grid
  import opened Pipes

  /** The pump's openings: 0b0001 rotated by the pump's rotation. */
  function PumpMask(rotation: int): bv8
  {
    RotateMask(1, rotation)
  }

  /** A present in-grid cell whose pipe type indexes the pipe table. */
  predicate HasPipe(cfg: Config, b: Board, p: Pos)
  {
    InGrid(cfg.width, cfg.height, p) && p in b && b[p].Some? && 0 <= b[p].value.pipeType < |PipeBitmask|
  }

  /** The openings of a piped element under its total rotation. */
  function PieceMask(e: Element): bv8
    requires 0 <= e.pipeType < |PipeBitmask|
  {
    RotateMask(PipeBitmask[e.pipeType], TotalRotation(e))
  }

  /** The openings water can leave p through: a piped cell's, or the pump's when p is the pump. */
  function OutMask(cfg: Config, b: Board, pump: Pos, pumpRotation: int, p: Pos): bv8
  {
    if InGrid(cfg.width, cfg.height, p) then
      (if HasPipe(cfg, b, p) then PieceMask(b[p].value) else 0)
    else if p == pump then PumpMask(pumpRotation)
    else 0
  }

  /** Water passes from p through opening i into a piped neighbour that opens back towards p. */
  predicate Step(cfg: Config, b: Board, pump: Pos, pumpRotation: int, p: Pos, i: int)
  {
    && 0 <= i < 4
    && Bit(OutMask(cfg, b, pump, pumpRotation, p), i)
    && HasPipe(cfg, b, UpdatePipePos(p, i))
    && Bit(PieceMask(b[UpdatePipePos(p, i)].value), (i + 2) % 4)
  }

  predicate Edge(cfg: Config, b: Board, pump: Pos, pumpRotation: int, p: Pos, q: Pos)
  {
    || (Step(cfg, b, pump, pumpRotation, p, 0) && q == UpdatePipePos(p, 0))
    || (Step(cfg, b, pump, pumpRotation, p, 1) && q == UpdatePipePos(p, 1))
    || (Step(cfg, b, pump, pumpRotation, p, 2) && q == UpdatePipePos(p, 2))
    || (Step(cfg, b, pump, pumpRotation, p, 3) && q == UpdatePipePos(p, 3))
  }

  /** A chain of steps starting at the pump. */
  predicate FlowPath(cfg: Config, b: Board, pump: Pos, pumpRotation: int, path: seq<Pos>)
  {
    && |path| >= 1
    && path[0] == pump
    && forall k :: 0 <= k < |path| - 1 ==> Edge(cfg, b, pump, pumpRotation, path[k], path[k + 1])
  }

  ghost predicate Reachable(cfg: Config, b: Board, pump: Pos, pumpRotation: int, p: Pos)
  {
    exists path :: FlowPath(cfg, b, pump, pumpRotation, path) && path[|path| - 1] == p
  }

  /** Some reached source (a cell or the pump) opens onto the out-of-grid position d. */
  ghost predicate DrainReached(cfg: Config, b: Board, pump: Pos, pumpRotation: int, d: Pos)
  {
    && !InGrid(cfg.width, cfg.height, d)
    && exists s, i :: 0 <= i < 4 && Reachable(cfg, b, pump, pumpRotation, s)
         && Bit(OutMask(cfg, b, pump, pumpRotation, s), i) && UpdatePipePos(s, i) == d
  }

  /** The drain flags d once the drains at pos among the first k are lit. */
  function LitUpTo(d: seq<bool>, ends: seq<Pos>, pos: Pos, k: nat): (r: seq<bool>)
    requires |ends| == |d| && k <= |d|
    ensures |r| == |d| && forall j :: 0 <= j < |d| ==> r[j] == (d[j] || (j < k && ends[j] == pos))
  {
    if k == 0 then d
    else
      var r := LitUpTo(d, ends, pos, k - 1);
      if ends[k - 1] == pos then r[k - 1 := true] else r
  }

  lemma PumpReachable(cfg: Config, b: Board, pump: Pos, pumpRotation: int)
    ensures Reachable(cfg, b, pump, pumpRotation, pump)
  {
    assert FlowPath(cfg, b, pump, pumpRotation, [pump]);
  }

  /** Reachability is closed under steps. */
  lemma ReachStep(cfg: Config, b: Board, pump: Pos, pumpRotation: int, s: Pos, i: int)
    requires Reachable(cfg, b, pump, pumpRotation, s) && Step(cfg, b, pump, pumpRotation, s, i)
    ensures Reachable(cfg, b, pump, pumpRotation, UpdatePipePos(s, i))
  {
    var path :| FlowPath(cfg, b, pump, pumpRotation, path) && path[|path| - 1] == s;
    var q := UpdatePipePos(s, i);
    var path' := path + [q];
    assert Edge(cfg, b, pump, pumpRotation, s, q);
    assert forall k :: 0 <= k < |path'| - 1 ==> Edge(cfg, b, pump, pumpRotation, path'[k], path'[k + 1]) by {
      forall k | 0 <= k < |path'| - 1
        ensures Edge(cfg, b, pump, pumpRotation, path'[k], path'[k + 1])
      {
        if k < |path| - 1 {
          assert path'[k] == path[k] && path'[k + 1] == path[k + 1];
        }
      }
    }
    assert FlowPath(cfg, b, pump, pumpRotation, path');
  }

  /** Every reached position other than the pump is a piped cell of the grid. */
  lemma ReachableHasPipe(cfg: Config, b: Board, pump: Pos, pumpRotation: int, p: Pos)
    requires Reachable(cfg, b, pump, pumpRotation, p) && p != pump
    ensures HasPipe(cfg, b, p)
  {
    var path :| FlowPath(cfg, b, pump, pumpRotation, path) && path[|path| - 1] == p;
    assert Edge(cfg, b, pump, pumpRotation, path[|path| - 2], path[|path| - 1]);
  }

  // ---------------------------------------------------------------------
  // Fill state: which cells are marked full and which drains are lit

  predicate FullAt(b: Board, p: Pos)
  {
    p in b && b[p].Some? && b[p].value.isFull
  }

  /** The present cells not yet marked full; the flood recursion shrinks this set. */
  ghost function NotFull(b: Board): set<Pos>
  {
    set p | p in b && b[p].Some? && !b[p].value.isFull
  }

  function Unfill(c: Option<Element>): Option<Element>
  {
    if c.Some? then Some(c.value.(isFull := false)) else None
  }

  /** Two boards agree on everything but the full flags. */
  ghost predicate SameLayout(b: Board, b': Board)
  {
    && (forall p :: p in b <==> p in b')
    && (forall p :: p in b ==> Unfill(b[p]) == Unfill(b'[p]))
  }

  /** Flags only go from empty to full, and drains only from dry to lit. */
  ghost predicate Grows(b: Board, drains: seq<bool>, b': Board, drains': seq<bool>)
  {
    && SameLayout(b, b')
    && |drains| == |drains'|
    && (forall p :: FullAt(b, p) ==> FullAt(b', p))
    && (forall k :: 0 <= k < |drains| && drains[k] ==> drains'[k])
  }

  lemma GrowsTrans(b1: Board, d1: seq<bool>, b2: Board, d2: seq<bool>, b3: Board, d3: seq<bool>)
    requires Grows(b1, d1, b2, d2) && Grows(b2, d2, b3, d3)
    ensures Grows(b1, d1, b3, d3)
  {
    forall p | p in b1
      ensures Unfill(b1[p]) == Unfill(b3[p])
    {
      assert Unfill(b1[p]) == Unfill(b2[p]);
    }
  }

  /**
   * Direction i of source s is settled: if water can step through it, the
   * neighbour is full, and if the opening leaves the grid, every drain at
   * that position is lit.
   */
  ghost predicate ClosedDir(cfg: Config, b0: Board, pump: Pos, pumpRotation: int, ends: seq<Pos>,
                            b: Board, drains: seq<bool>, s: Pos, i: int)
    requires 0 <= i < 4 && |drains| == |ends|
  {
    && (Step(cfg, b0, pump, pumpRotation, s, i) ==> FullAt(b, UpdatePipePos(s, i)))
    && (Bit(OutMask(cfg, b0, pump, pumpRotation, s), i) && !InGrid(cfg.width, cfg.height, UpdatePipePos(s, i)) ==>
          forall k :: 0 <= k < |ends| && ends[k] == UpdatePipePos(s, i) ==> drains[k])
  }

  ghost predicate Closed(cfg: Config, b0: Board, pump: Pos, pumpRotation: int, ends: seq<Pos>,
                         b: Board, drains: seq<bool>, s: Pos)
    requires |drains| == |ends|
  {
    && ClosedDir(cfg, b0, pump, pumpRotation, ends, b, drains, s, 0)
    && ClosedDir(cfg, b0, pump, pumpRotation, ends, b, drains, s, 1)
    && ClosedDir(cfg, b0, pump, pumpRotation, ends, b, drains, s, 2)
    && ClosedDir(cfg, b0, pump, pumpRotation, ends, b, drains, s, 3)
  }

  lemma ClosedDirGrows(cfg: Config, b0: Board, pump: Pos, pumpRotation: int, ends: seq<Pos>,
                       b: Board, drains: seq<bool>, b': Board, drains': seq<bool>, s: Pos, i: int)
    requires 0 <= i < 4 && |drains| == |ends|
    requires Grows(b, drains, b', drains') && ClosedDir(cfg, b0, pump, pumpRotation, ends, b, drains, s, i)
    ensures ClosedDir(cfg, b0, pump, pumpRotation, ends, b', drains', s, i)
  {
  }

  /** Settled sources stay settled as the flood grows. */
  lemma ClosedGrows(cfg: Config, b0: Board, pump: Pos, pumpRotation: int, ends: seq<Pos>,
                    b: Board, drains: seq<bool>, b': Board, drains': seq<bool>, s: Pos)
    requires |drains| == |ends|
    requires Grows(b, drains, b', drains') && Closed(cfg, b0, pump, pumpRotation, ends, b, drains, s)
    ensures Closed(cfg, b0, pump, pumpRotation, ends, b', drains', s)
  {
    ClosedDirGrows(cfg, b0, pump, pumpRotation, ends, b, drains, b', drains', s, 0);
    ClosedDirGrows(cfg, b0, pump, pumpRotation, ends, b, drains, b', drains', s, 1);
    ClosedDirGrows(cfg, b0, pump, pumpRotation, ends, b, drains, b', drains', s, 2);
    ClosedDirGrows(cfg, b0, pump, pumpRotation, ends, b, drains, b', drains', s, 3);
  }

  /**
   * One opening of a source handled: the openings already closed stay
   * closed, and so does the one just handled; every cell newly filled since the source started is
   * settled at the end of the step.
   */
  lemma SettledAcrossStep(cfg: Config, b0: Board, pump: Pos, pumpRotation: int, ends: seq<Pos>,
                          start: Board, b: Board, drains: seq<bool>, b': Board, drains': seq<bool>, s: Pos, i: int)
    requires 0 <= i < 4 && |drains| == |ends|
    requires Grows(b, drains, b', drains')
    requires forall j :: 0 <= j < i ==> ClosedDir(cfg, b0, pump, pumpRotation, ends, b, drains, s, j)
    requires forall t :: FullAt(b, t) && !FullAt(start, t) ==> Closed(cfg, b0, pump, pumpRotation, ends, b, drains, t)
    requires forall t :: FullAt(b', t) && !FullAt(b, t) ==> Closed(cfg, b0, pump, pumpRotation, ends, b', drains', t)
    requires ClosedDir(cfg, b0, pump, pumpRotation, ends, b', drains', s, i)
    ensures forall j :: 0 <= j <= i ==> ClosedDir(cfg, b0, pump, pumpRotation, ends, b', drains', s, j)
    ensures forall t :: FullAt(b', t) && !FullAt(start, t) ==> Closed(cfg, b0, pump, pumpRotation, ends, b', drains', t)
  {
    forall j | 0 <= j < i
      ensures ClosedDir(cfg, b0, pump, pumpRotation, ends, b', drains', s, j)
    {
      ClosedDirGrows(cfg, b0, pump, pumpRotation, ends, b, drains, b', drains', s, j);
    }
    forall t | FullAt(b', t) && !FullAt(start, t)
      ensures Closed(cfg, b0, pump, pumpRotation, ends, b', drains', t)
    {
      if FullAt(b, t) {
        ClosedGrows(cfg, b0, pump, pumpRotation, ends, b, drains, b', drains', t);
      }
    }
  }

  /** A cell filled just before spreading from it is settled once the spread has settled it. */
  lemma SettledAfterFill(cfg: Config, b0: Board, pump: Pos, pumpRotation: int, ends: seq<Pos>,
                         start: Board, mid: Board, b: Board, drains: seq<bool>, p: Pos)
    requires |drains| == |ends|
    requires p in start && start[p].Some? && mid == start[p := Some(start[p].value.(isFull := true))]
    requires Closed(cfg, b0, pump, pumpRotation, ends, b, drains, p)
    requires forall t :: FullAt(b, t) && !FullAt(mid, t) ==> Closed(cfg, b0, pump, pumpRotation, ends, b, drains, t)
    ensures forall t :: FullAt(b, t) && !FullAt(start, t) ==> Closed(cfg, b0, pump, pumpRotation, ends, b, drains, t)
  {
  }

  /** A piped cell's openings do not depend on its full flag. */
  lemma OutMaskOfLayout(cfg: Config, b0: Board, b: Board, pump: Pos, pumpRotation: int, p: Pos)
    requires SameLayout(b0, b) && HasPipe(cfg, b0, p)
    ensures HasPipe(cfg, b, p) && OutMask(cfg, b0, pump, pumpRotation, p) == PieceMask(b[p].value)
  {
    assert Unfill(b0[p]) == Unfill(b[p]);
  }

  /** The final state of the flood: exact agreement of the flags with reachability. */
  ghost predicate Flooded(cfg: Config, b0: Board, pump: Pos, pumpRotation: int, ends: seq<Pos>,
                          b: Board, drains: seq<bool>)
  {
    && SameLayout(b0, b)
    && |drains| == |ends|
    && (forall p :: p in b && b[p].Some? ==> (b[p].value.isFull <==> Reachable(cfg, b0, pump, pumpRotation, p)))
    && (forall k :: 0 <= k < |ends| ==> (drains[k] <==> DrainReached(cfg, b0, pump, pumpRotation, ends[k])))
  }

  /**
   * If the pump and every full cell are settled, every position the pump
   * reaches is the pump or a full cell.
   */
  lemma {:induction false} ClosedCoversReach(cfg: Config, b0: Board, pump: Pos, pumpRotation: int, ends: seq<Pos>,
                                             b: Board, drains: seq<bool>, p: Pos)
    requires |drains| == |ends|
    requires Closed(cfg, b0, pump, pumpRotation, ends, b, drains, pump)
    requires forall s :: FullAt(b, s) ==> Closed(cfg, b0, pump, pumpRotation, ends, b, drains, s)
    requires Reachable(cfg, b0, pump, pumpRotation, p)
    ensures p == pump || FullAt(b, p)
  {
    var path :| FlowPath(cfg, b0, pump, pumpRotation, path) && path[|path| - 1] == p;
    var k := 0;
    while k < |path| - 1
      invariant 0 <= k <= |path| - 1
      invariant path[k] == pump || FullAt(b, path[k])
    {
      var s := path[k];
      assert Closed(cfg, b0, pump, pumpRotation, ends, b, drains, s);
      assert Edge(cfg, b0, pump, pumpRotation, s, path[k + 1]);
      k := k + 1;
    }
  }

  /**
   * When the full cells are all reachable, every drain lit is reached, the
   * pump and every full cell are settled, and full flags are the only
   * difference from the layout, the fill state is exactly Flooded.
   */
  lemma FloodedFromClosure(cfg: Config, b0: Board, pump: Pos, pumpRotation: int, ends: seq<Pos>,
                           b: Board, drains: seq<bool>)
    requires SameLayout(b0, b) && |drains| == |ends|
    requires !InGrid(cfg.width, cfg.height, pump) && (forall p :: p in b ==> InGrid(cfg.width, cfg.height, p))
    requires forall p :: FullAt(b, p) ==> Reachable(cfg, b0, pump, pumpRotation, p)
    requires forall k :: 0 <= k < |ends| && drains[k] ==> DrainReached(cfg, b0, pump, pumpRotation, ends[k])
    requires Closed(cfg, b0, pump, pumpRotation, ends, b, drains, pump)
    requires forall s :: FullAt(b, s) ==> Closed(cfg, b0, pump, pumpRotation, ends, b, drains, s)
    ensures Flooded(cfg, b0, pump, pumpRotation, ends, b, drains)
  {
    forall p | p in b && b[p].Some? && Reachable(cfg, b0, pump, pumpRotation, p)
      ensures b[p].value.isFull
    {
      ClosedCoversReach(cfg, b0, pump, pumpRotation, ends, b, drains, p);
    }
    forall k | 0 <= k < |ends| && DrainReached(cfg, b0, pump, pumpRotation, ends[k])
      ensures drains[k]
    {
      var s, i :| 0 <= i < 4 && Reachable(cfg, b0, pump, pumpRotation, s)
         && Bit(OutMask(cfg, b0, pump, pumpRotation, s), i) && UpdatePipePos(s, i) == ends[k];
      ClosedCoversReach(cfg, b0, pump, pumpRotation, ends, b, drains, s);
      assert Closed(cfg, b0, pump, pumpRotation, ends, b, drains, s);
      if i == 0 {
        assert ClosedDir(cfg, b0, pump, pumpRotation, ends, b, drains, s, 0);
      } else if i == 1 {
        assert ClosedDir(cfg, b0, pump, pumpRotation, ends, b, drains, s, 1);
      } else if i == 2 {
        assert ClosedDir(cfg, b0, pump, pumpRotation, ends, b, drains, s, 2);
      } else {
        assert ClosedDir(cfg, b0, pump, pumpRotation, ends, b, drains, s, 3);
      }
    }
  }
}
