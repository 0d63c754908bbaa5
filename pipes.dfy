/**
 * Pipe openings as 4-bit masks.
 *
 * Bit i of a mask is an opening in direction i, with the convention of
 * UpdatePipePos: 0 = +x, 1 = +y, 2 = −x, 3 = −y.  RotateMask turns a mask by
 * quarter turns (bit i moves to bit i+1 mod 4); the pipe table holds the four
 * canonical shapes, and PipeMatch finds the shape and rotation that give a
 * required mask, as the pipe-map generator does.
 */
module Pipes {
  import opened Grid

  /** pipeBitmask: elbow (+x,−y), straight (+x,−x), T (+x,−x,−y) and cross. */
  const PipeBitmask: seq<bv8> := [0x9, 0x5, 0xD, 0xF]

  predicate Bit(m: bv8, i: int)
  {
    0 <= i < 4 && m & (1 << i) != 0
  }

  /** The number of open sides among the four low bits. */
  function PopCount(m: bv8): nat
  {
    (if Bit(m, 0) then 1 else 0) + (if Bit(m, 1) then 1 else 0) +
    (if Bit(m, 2) then 1 else 0) + (if Bit(m, 3) then 1 else 0)
  }

  /** One step of RotateMask: the low three bits move up, bit 3 wraps to bit 0. */
  function RotateLeft(m: bv8): bv8
  {
    ((m & 7) << 1) + ((m & 8) >> 3)
  }

  /** The opposite step, used by the pipe-map generator: bit 0 wraps to bit 3. */
  function RotateRight(m: bv8): bv8
  {
    ((m & 1) << 3) + (m >> 1)
  }

  /** RotateMask(mask, count): `count` left rotations; none when count <= 0. */
  function RotateMask(mask: bv8, count: int): bv8
    decreases count
  {
    if count <= 0 then mask else RotateLeft(RotateMask(mask, count - 1))
  }

  /** The loop of RotateMask: `count` single steps applied to the byte. */
  method RotateMaskSteps(mask: bv8, count: int) returns (ret: bv8)
    ensures ret == RotateMask(mask, count)
  {
    ret := mask;
    var i := 0;
    while i < count
      invariant 0 <= i <= if count < 0 then 0 else count
      invariant ret == RotateMask(mask, i)
    {
      ret := RotateLeft(ret);
      i := i + 1;
    }
  }

  lemma RotateLeftBits(m: bv8)
    requires m < 16
    ensures RotateLeft(m) < 16 && RotateLeft(RotateRight(m)) == m && RotateRight(m) < 16
  {
  }

  /** One left rotation moves the opening in direction i to direction i + 1 mod 4. */
  lemma RotateLeftBit(m: bv8, i: int)
    requires m < 16 && 0 <= i < 4
    ensures Bit(RotateLeft(m), (i + 1) % 4) <==> Bit(m, i)
  {
    if i == 0 {
      assert Bit(RotateLeft(m), 1) <==> Bit(m, 0);
    } else if i == 1 {
      assert Bit(RotateLeft(m), 2) <==> Bit(m, 1);
    } else if i == 2 {
      assert Bit(RotateLeft(m), 3) <==> Bit(m, 2);
    } else {
      assert Bit(RotateLeft(m), 0) <==> Bit(m, 3);
    }
  }

  /** A rotated 4-bit mask stays within 4 bits, and any rotation at all yields a 4-bit mask. */
  lemma {:induction false} RotateMaskBound(m: bv8, k: int)
    requires m < 16 || k >= 1
    ensures RotateMask(m, k) < 16
    decreases k
  {
    if k > 1 {
      RotateMaskBound(m, k - 1);
    }
  }

  /** Rotating by k moves the opening in direction i to direction (i + k) mod 4. */
  lemma {:induction false} RotateMaskBits(m: bv8, k: nat, i: int)
    requires m < 16 && 0 <= i < 4
    ensures Bit(RotateMask(m, k), (i + k) % 4) <==> Bit(m, i)
    decreases k
  {
    if k > 0 {
      RotateMaskBits(m, k - 1, i);
      RotateMaskBound(m, k - 1);
      var j := (i + k - 1) % 4;
      RotateLeftBit(RotateMask(m, k - 1), j);
      StepModFour(i + k - 1);
    }
  }

  lemma StepModFour(n: nat)
    ensures (n % 4 + 1) % 4 == (n + 1) % 4
  {
  }

  /** Rotations compose additively. */
  lemma {:induction false} RotateMaskCompose(m: bv8, a: nat, b: nat)
    ensures RotateMask(RotateMask(m, a), b) == RotateMask(m, a + b)
    decreases b
  {
    if b > 0 {
      RotateMaskCompose(m, a, b - 1);
    }
  }

  /** Four quarter turns restore a 4-bit mask. */
  lemma RotateMaskFour(m: bv8)
    requires m < 16
    ensures RotateMask(m, 4) == m
  {
    RotateLeftBits(m);
    RotateLeftBits(RotateLeft(m));
    RotateLeftBits(RotateLeft(RotateLeft(m)));
    assert RotateMask(m, 4) == RotateLeft(RotateLeft(RotateLeft(RotateLeft(m))));
  }

  /** Only the rotation modulo 4 matters. */
  lemma {:induction false} RotateMaskModulo(m: bv8, k: nat)
    requires m < 16
    ensures RotateMask(m, k) == RotateMask(m, k % 4)
    decreases k
  {
    if k >= 4 {
      RotateMaskModulo(m, k - 4);
      RotateMaskCompose(m, 4, k - 4);
      RotateMaskFour(m);
      assert RotateMask(m, k) == RotateMask(RotateMask(m, 4), k - 4);
    }
  }

  /** Rotating keeps the number of open sides. */
  lemma {:induction false} RotateMaskPopCount(m: bv8, k: nat)
    requires m < 16
    ensures PopCount(RotateMask(m, k)) == PopCount(m)
    decreases k
  {
    if k > 0 {
      RotateMaskPopCount(m, k - 1);
      RotateMaskBound(m, k - 1);
      var x := RotateMask(m, k - 1);
      RotateLeftBit(x, 0);
      RotateLeftBit(x, 1);
      RotateLeftBit(x, 2);
      RotateLeftBit(x, 3);
    }
  }

  // ---------------------------------------------------------------------
  // Matching a required mask against the pipe table

  /** The table scan of the generator: from index j down to 0, the first entry equal to m, or -1. */
  function ScanTable(m: bv8, j: int): (r: int)
    requires -1 <= j < |PipeBitmask|
    ensures -1 <= r <= j
    ensures r != -1 ==> PipeBitmask[r] == m
    decreases j
  {
    if j < 0 then -1
    else if PipeBitmask[j] == m then j
    else ScanTable(m, j - 1)
  }

  /**
   * The (pipe type, rotation) the generator assigns to mask m once it has
   * made `rot` right rotations: the first rotation at which the table holds
   * the mask, or type -1 when none of the four rotations matches.
   */
  function PipeMatch(m: bv8, rot: nat): (int, int)
    decreases 4 - rot
  {
    if rot >= 4 then (-1, rot)
    else if ScanTable(m, 3) != -1 then (ScanTable(m, 3), rot)
    else PipeMatch(RotateRight(m), rot + 1)
  }

  /** A match rotated back by its rotation gives the mask it was matched for. */
  lemma {:induction false} PipeMatchFrom(m: bv8, rot: nat)
    requires m < 16
    ensures var r := PipeMatch(m, rot);
      r.0 != -1 ==> 0 <= r.0 < 4 && rot <= r.1 < 4 && RotateMask(PipeBitmask[r.0], r.1 - rot) == m
    decreases 4 - rot
  {
    if rot < 4 && ScanTable(m, 3) == -1 {
      RotateLeftBits(m);
      PipeMatchFrom(RotateRight(m), rot + 1);
    }
  }

  /**
   * When a pipe type is assigned, the table entry rotated by the assigned
   * rotation is exactly the required mask, and the rotation is in [0,4).
   */
  lemma PipeMatchCorrect(m: bv8)
    requires m < 16
    ensures var r := PipeMatch(m, 0);
      r.0 != -1 ==> 0 <= r.0 < 4 && 0 <= r.1 < 4 && RotateMask(PipeBitmask[r.0], r.1) == m
  {
    PipeMatchFrom(m, 0);
  }

  /** A mask gets a pipe exactly when it has at least two open sides. */
  lemma PipeMatchNoneIffSparse(m: bv8)
    requires m < 16
    ensures PipeMatch(m, 0).0 == -1 <==> PopCount(m) <= 1
  {
    if m == 0 {} else if m == 1 {} else if m == 2 {} else if m == 3 {}
    else if m == 4 {} else if m == 5 {} else if m == 6 {} else if m == 7 {}
    else if m == 8 {} else if m == 9 {} else if m == 10 {} else if m == 11 {}
    else if m == 12 {} else if m == 13 {} else if m == 14 {} else {}
  }

  /** The matching loop of the pipe-map generator. */
  method MatchPipe(mask: bv8) returns (pipeType: int, pipeRot: int)
    ensures (pipeType, pipeRot) == PipeMatch(mask, 0)
  {
    var bmask := mask;
    pipeType := -1;
    pipeRot := 0;
    while pipeRot < 4
      invariant 0 <= pipeRot <= 4 && pipeType == -1
      invariant PipeMatch(mask, 0) == PipeMatch(bmask, pipeRot)
    {
      var j := |PipeBitmask| - 1;
      while j >= 0
        invariant -1 <= j <= 3 && pipeType == -1
        invariant ScanTable(bmask, 3) == ScanTable(bmask, j)
      {
        if PipeBitmask[j] == bmask {
          pipeType := j;
          break;
        }
        j := j - 1;
      }
      if pipeType != -1 {
        return;
      }
      pipeRot := pipeRot + 1;
      bmask := RotateRight(bmask);
    }
  }

  // ---------------------------------------------------------------------
  // Directions

  /** UpdatePipePos: the neighbour in direction `rotation`; any other value leaves the position. */
  function UpdatePipePos(pos: Pos, rotation: int): (r: Pos)
    ensures 0 <= rotation < 4 ==> Adjacent(pos, r)
    ensures !(0 <= rotation < 4) ==> r == pos
  {
    if rotation == 0 then Pos(pos.x + 1, pos.y)
    else if rotation == 1 then Pos(pos.x, pos.y + 1)
    else if rotation == 2 then Pos(pos.x - 1, pos.y)
    else if rotation == 3 then Pos(pos.x, pos.y - 1)
    else pos
  }

  /** Stepping in direction i and then in direction (i + 2) mod 4 comes back. */
  lemma UpdatePipePosOpposite(pos: Pos, i: int)
    requires 0 <= i < 4
    ensures UpdatePipePos(UpdatePipePos(pos, i), (i + 2) % 4) == pos
  {
  }

  /** Different directions lead to different neighbours. */
  lemma UpdatePipePosInjective(pos: Pos, i: int, j: int)
    requires 0 <= i < 4 && 0 <= j < 4 && UpdatePipePos(pos, i) == UpdatePipePos(pos, j)
    ensures i == j
  {
  }

  /** The neighbour mask of the generator: bit i is set when the neighbour in direction i is on a path. */
  function NeighbourMask(paths: seq<Pos>, p: Pos): (m: bv8)
    ensures m < 16
  {
    (if Pos(p.x + 1, p.y) in paths then 1 else 0) |
    (if Pos(p.x, p.y + 1) in paths then 2 else 0) |
    (if Pos(p.x - 1, p.y) in paths then 4 else 0) |
    (if Pos(p.x, p.y - 1) in paths then 8 else 0)
  }

  lemma NeighbourMaskBits(paths: seq<Pos>, p: Pos, i: int)
    requires 0 <= i < 4
    ensures Bit(NeighbourMask(paths, p), i) <==> UpdatePipePos(p, i) in paths
  {
    var a: bv8 := if Pos(p.x + 1, p.y) in paths then 1 else 0;
    var b: bv8 := if Pos(p.x, p.y + 1) in paths then 2 else 0;
    var c: bv8 := if Pos(p.x - 1, p.y) in paths then 4 else 0;
    var d: bv8 := if Pos(p.x, p.y - 1) in paths then 8 else 0;
    assert NeighbourMask(paths, p) == a | b | c | d;
  }

  /**
   * The pipe the generator assigns to a path cell opens towards exactly the
   * neighbours that are path cells too: a path cell is given a pipe iff at
   * least two of its neighbours are on a path, and then the assigned shape
   * rotated by the assigned rotation has an opening in direction i iff the
   * neighbour in direction i is a path cell.
   */
  lemma AssignedPipeFitsPath(paths: seq<Pos>, p: Pos)
    ensures var r := PipeMatch(NeighbourMask(paths, p), 0);
      && (r.0 == -1 <==> PopCount(NeighbourMask(paths, p)) <= 1)
      && (r.0 != -1 ==>
            && 0 <= r.0 < 4 && 0 <= r.1 < 4
            && forall i :: 0 <= i < 4 ==> (Bit(RotateMask(PipeBitmask[r.0], r.1), i) <==> UpdatePipePos(p, i) in paths))
  {
    var m := NeighbourMask(paths, p);
    PipeMatchCorrect(m);
    PipeMatchNoneIffSparse(m);
    forall i | 0 <= i < 4
      ensures Bit(m, i) <==> UpdatePipePos(p, i) in paths
    {
      NeighbourMaskBits(paths, p, i);
    }
  }
}
