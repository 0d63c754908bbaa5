/**
 * Value-level view of the puzzle grid.
 *
 * A board maps every coordinate of a `width × height` grid to an optional
 * element (absence is the empty slot of the sliding puzzle).  The functions
 * here are the specifications that the in-place operations of class
 * `PuzzleState` are proved against, and the lemmas state what the game relies
 * on: swaps and light toggles are involutions, rotations undo each other,
 * cloning keeps a state the same, and the identity layout is solved.
 */
module Grid {

  datatype Option<T> = None | Some(value: T)

  /** A grid coordinate (Unity's Vector2Int). */
  datatype Pos = Pos(x: int, y: int)

  /** The four combinable puzzle flags (the [Flags] enum PuzzleType). */
  datatype Mode = Sliding | LightsOut | Pipemania | Rhythm

  datatype NeighborhoodType = VonNeumann | Moore | Cross

  /** One piece of the puzzle (class PuzzleElement). */
  datatype Element = Element(
    originalPosition: Pos,
    lightState: bool,
    immoveable: bool,
    pieceRotation: int,
    pipeType: int,
    pipeRotation: int,
    isFull: bool)

  /** The parameters a PuzzleState is constructed with; they never change afterwards. */
  datatype Config = Config(
    puzzleType: set<Mode>,
    width: nat,
    height: nat,
    hasImage: bool,
    neighborhood: NeighborhoodType,
    distance: int)

  type Board = map<Pos, Option<Element>>

  predicate InGrid(w: int, h: int, p: Pos)
  {
    0 <= p.x < w && 0 <= p.y < h
  }

  function Positions(w: nat, h: nat): (r: set<Pos>)
    ensures forall p :: p in r <==> InGrid(w, h, p)
  {
    set x, y | 0 <= x < w && 0 <= y < h :: Pos(x, y)
  }

  /** The board has exactly one slot per coordinate of the grid. */
  ghost predicate Shaped(cfg: Config, b: Board)
  {
    forall p :: p in b <==> InGrid(cfg.width, cfg.height, p)
  }

  predicate Present(b: Board, p: Pos)
  {
    p in b && b[p].Some?
  }

  /** The ranges every element of a running puzzle keeps: rotations in [0,4), pipe type -1 or a table index. */
  predicate WellFormedElement(e: Element)
  {
    0 <= e.pieceRotation < 4 && 0 <= e.pipeRotation < 4 && -1 <= e.pipeType < 4
  }

  predicate WellFormed(b: Board)
  {
    forall p :: p in b && b[p].Some? ==> WellFormedElement(b[p].value)
  }

  /** C#'s `%`: the remainder takes the sign of the dividend. */
  function CsRem(a: int, m: int): (r: int)
    requires m > 0
    ensures a >= 0 ==> r == a % m
    ensures a < 0 ==> -m < r <= 0
  {
    if a >= 0 then a % m else -((-a) % m)
  }

  /** The rotation a pipe shows: authored rotation plus the player's quarter turns. */
  function TotalRotation(e: Element): (r: int)
    ensures WellFormedElement(e) ==> 0 <= r < 4 && r == (e.pipeRotation + e.pieceRotation) % 4
  {
    CsRem(e.pipeRotation + e.pieceRotation, 4)
  }

  // ---------------------------------------------------------------------
  // Identity, clearing and swapping

  function IdentityElement(p: Pos): Element
  {
    Element(p, true, false, 0, -1, 0, false)
  }

  function IdentityBoard(w: nat, h: nat): (b: Board)
    ensures forall p :: p in b <==> InGrid(w, h, p)
  {
    map p | p in Positions(w, h) :: Some(IdentityElement(p))
  }

  /** Every slot of the identity layout holds its own solved piece. */
  lemma IdentityCells(w: nat, h: nat, p: Pos)
    requires InGrid(w, h, p)
    ensures var b := IdentityBoard(w, h);
      && b[p].Some?
      && b[p].value.originalPosition == p
      && b[p].value.lightState
      && b[p].value.pipeType == -1
      && b[p].value.pieceRotation == 0 && b[p].value.pipeRotation == 0
      && !b[p].value.isFull && !b[p].value.immoveable
      && WellFormedElement(b[p].value)
  {
  }

  /** Swap: the slots at p1 and p2 exchange what they hold, present or absent. */
  function SwapCells(b: Board, p1: Pos, p2: Pos): (r: Board)
    requires p1 in b && p2 in b
    ensures r.Keys == b.Keys
    ensures r[p1] == b[p2] && r[p2] == b[p1]
    ensures forall q :: q in b && q != p1 && q != p2 ==> r[q] == b[q]
  {
    b[p2 := b[p1]][p1 := b[p2]]
  }

  /** Swapping is agnostic to the order of its two slots. */
  lemma SwapSymmetric(b: Board, p1: Pos, p2: Pos)
    requires p1 in b && p2 in b
    ensures SwapCells(b, p1, p2) == SwapCells(b, p2, p1)
  {
  }

  /** Swapping twice restores the board. */
  lemma SwapTwice(b: Board, p1: Pos, p2: Pos)
    requires p1 in b && p2 in b
    ensures SwapCells(SwapCells(b, p1, p2), p1, p2) == b
  {
  }

  // ---------------------------------------------------------------------
  // Rotation of one piece

  function RotateElement(e: Element, counterclockwise: bool): Element
  {
    if counterclockwise then e.(pieceRotation := CsRem(e.pieceRotation + 1, 4))
    else if e.pieceRotation - 1 < 0 then e.(pieceRotation := 3)
    else e.(pieceRotation := e.pieceRotation - 1)
  }

  function RotateCell(b: Board, p: Pos, counterclockwise: bool): (r: Board)
    requires Present(b, p)
    ensures r.Keys == b.Keys
    ensures forall q :: q in b && q != p ==> r[q] == b[q]
    ensures r[p].Some? && r[p].value == b[p].value.(pieceRotation := r[p].value.pieceRotation)
  {
    b[p := Some(RotateElement(b[p].value, counterclockwise))]
  }

  /** A quarter turn either way keeps pieceRotation in [0,4) and moves it by one modulo 4. */
  lemma RotateInRange(e: Element, counterclockwise: bool)
    requires 0 <= e.pieceRotation < 4
    ensures var r := RotateElement(e, counterclockwise).pieceRotation;
      && 0 <= r < 4
      && (if counterclockwise then r == (e.pieceRotation + 1) % 4 else r == (e.pieceRotation + 3) % 4)
  {
  }

  /** A turn one way followed by a turn the other way restores the element, in both orders. */
  lemma RotateRoundTrip(e: Element, counterclockwise: bool)
    requires 0 <= e.pieceRotation < 4
    ensures RotateElement(RotateElement(e, counterclockwise), !counterclockwise) == e
  {
  }

  /** Four quarter turns the same way restore the element. */
  lemma RotateFourTimes(e: Element, counterclockwise: bool)
    requires 0 <= e.pieceRotation < 4
    ensures RotateElement(RotateElement(RotateElement(RotateElement(e, counterclockwise), counterclockwise), counterclockwise), counterclockwise) == e
  {
  }

  lemma RotateCellRoundTrip(b: Board, p: Pos, counterclockwise: bool)
    requires Present(b, p) && 0 <= b[p].value.pieceRotation < 4
    ensures RotateCell(RotateCell(b, p, counterclockwise), p, !counterclockwise) == b
  {
    RotateRoundTrip(b[p].value, counterclockwise);
  }

  // ---------------------------------------------------------------------
  // Lights

  function Abs(v: int): nat
  {
    if v < 0 then -v else v
  }

  /**
   * Whether a light toggle centred on c reaches p: p lies in the box of
   * radius d around c and, per shape, within Manhattan distance d
   * (von Neumann), anywhere in the box (Moore) or on c's row or column
   * (cross).
   */
  predicate ToggleReaches(cfg: Config, c: Pos, p: Pos)
  {
    var d := cfg.distance;
    && c.y - d <= p.y <= c.y + d
    && c.x - d <= p.x <= c.x + d
    && match cfg.neighborhood
       case VonNeumann => Abs(p.x - c.x) + Abs(p.y - c.y) <= d
       case Moore => true
       case Cross => p.x == c.x || p.y == c.y
  }

  function FlipLight(e: Element): Element
  {
    e.(lightState := !e.lightState)
  }

  /** ToggleLight: flips the light of every present in-grid element the toggle reaches. */
  function ToggleLights(cfg: Config, b: Board, c: Pos): (r: Board)
    ensures r.Keys == b.Keys
  {
    map p | p in b ::
      if b[p].Some? && InGrid(cfg.width, cfg.height, p) && ToggleReaches(cfg, c, p)
      then Some(FlipLight(b[p].value)) else b[p]
  }

  /** Toggling changes exactly the light of the reached present cells and nothing else. */
  lemma ToggleLightsEffect(cfg: Config, b: Board, c: Pos, p: Pos)
    requires p in b
    ensures var r := ToggleLights(cfg, b, c);
      && r[p].Some? == b[p].Some?
      && (r[p].Some? ==> r[p].value.(lightState := b[p].value.lightState) == b[p].value)
      && (r[p].Some? ==> (r[p].value.lightState != b[p].value.lightState <==>
                          InGrid(cfg.width, cfg.height, p) && ToggleReaches(cfg, c, p)))
  {
  }

  /** Toggling twice at the same position is the identity. */
  lemma ToggleTwice(cfg: Config, b: Board, c: Pos)
    ensures ToggleLights(cfg, ToggleLights(cfg, b, c), c) == b
  {
    var r := ToggleLights(cfg, ToggleLights(cfg, b, c), c);
    forall p | p in b
      ensures r[p] == b[p]
    {
    }
  }

  /** The actions on a board keep every element's ranges. */
  lemma ActionsKeepWellFormed(cfg: Config, b: Board, c: Pos, p1: Pos, p2: Pos, counterclockwise: bool)
    requires WellFormed(b)
    ensures WellFormed(ToggleLights(cfg, b, c))
    ensures p1 in b && p2 in b ==> WellFormed(SwapCells(b, p1, p2))
    ensures Present(b, p1) ==> WellFormed(RotateCell(b, p1, counterclockwise))
  {
    var t := ToggleLights(cfg, b, c);
    forall p | p in t && t[p].Some?
      ensures WellFormedElement(t[p].value)
    {
      ToggleLightsEffect(cfg, b, c, p);
    }
    if Present(b, p1) {
      RotateInRange(b[p1].value, counterclockwise);
    }
  }

  // ---------------------------------------------------------------------
  // Neighbours

  /** The k-th orthogonal neighbour in the order GetEmptyNeighbour scans: −x, +x, −y, +y. */
  function ScanNeighbour(p: Pos, k: int): Pos
  {
    if k == 0 then Pos(p.x - 1, p.y)
    else if k == 1 then Pos(p.x + 1, p.y)
    else if k == 2 then Pos(p.x, p.y - 1)
    else Pos(p.x, p.y + 1)
  }

  predicate Vacant(cfg: Config, b: Board, q: Pos)
    requires Shaped(cfg, b)
  {
    InGrid(cfg.width, cfg.height, q) && b[q].None?
  }

  predicate Adjacent(p: Pos, q: Pos)
  {
    Abs(p.x - q.x) + Abs(p.y - q.y) == 1
  }

  /**
   * GetEmptyNeighbour: the first in-grid orthogonal neighbour (in the order
   * −x, +x, −y, +y) whose slot is empty, if any.
   */
  function EmptyNeighbour(cfg: Config, b: Board, p: Pos): (r: Option<Pos>)
    requires Shaped(cfg, b) && InGrid(cfg.width, cfg.height, p)
    ensures r.Some? <==> exists k :: 0 <= k < 4 && Vacant(cfg, b, ScanNeighbour(p, k))
    ensures r.Some? ==> Vacant(cfg, b, r.value) && Adjacent(p, r.value)
    ensures r.Some? ==> exists k :: 0 <= k < 4 && r.value == ScanNeighbour(p, k) &&
                                   forall j :: 0 <= j < k ==> !Vacant(cfg, b, ScanNeighbour(p, j))
  {
    var w, h := cfg.width, cfg.height;
    if p.x > 0 && b[Pos(p.x - 1, p.y)].None? then
      assert Pos(p.x - 1, p.y) == ScanNeighbour(p, 0);
      Some(Pos(p.x - 1, p.y))
    else if p.x < w - 1 && b[Pos(p.x + 1, p.y)].None? then
      assert Pos(p.x + 1, p.y) == ScanNeighbour(p, 1);
      Some(Pos(p.x + 1, p.y))
    else if p.y > 0 && b[Pos(p.x, p.y - 1)].None? then
      assert Pos(p.x, p.y - 1) == ScanNeighbour(p, 2);
      Some(Pos(p.x, p.y - 1))
    else if p.y < h - 1 && b[Pos(p.x, p.y + 1)].None? then
      assert Pos(p.x, p.y + 1) == ScanNeighbour(p, 3);
      Some(Pos(p.x, p.y + 1))
    else
      assert forall k :: 0 <= k < 4 ==> !Vacant(cfg, b, ScanNeighbour(p, k));
      None
  }

  // ---------------------------------------------------------------------
  // Equality, cloning and the win test

  /** The per-slot comparison of IsSame, gated by the comparing state's modes. */
  predicate CellSame(cfg: Config, u: Option<Element>, v: Option<Element>)
  {
    && u.None? == v.None?
    && (u.Some? && v.Some? ==>
          && (Sliding in cfg.puzzleType && cfg.hasImage ==> u.value.originalPosition == v.value.originalPosition)
          && (LightsOut in cfg.puzzleType ==> u.value.lightState == v.value.lightState)
          && (Pipemania in cfg.puzzleType ==>
                && u.value.pipeType == v.value.pipeType
                && u.value.pipeRotation == v.value.pipeRotation
                && u.value.pieceRotation == v.value.pieceRotation))
  }

  /** IsSame: same flags, same size, and every slot compares equal under the active modes. */
  ghost predicate Same(cfg: Config, b: Board, other: Config, ob: Board)
  {
    && cfg.puzzleType == other.puzzleType
    && cfg.width == other.width && cfg.height == other.height
    && forall p :: InGrid(cfg.width, cfg.height, p) && p in b && p in ob ==> CellSame(cfg, b[p], ob[p])
  }

  lemma SameReflexive(cfg: Config, b: Board)
    requires Shaped(cfg, b)
    ensures Same(cfg, b, cfg, b)
  {
  }

  /** IsSame does not depend on which of two states of one configuration asks. */
  lemma SameSymmetric(cfg: Config, b: Board, ob: Board)
    requires Shaped(cfg, b) && Shaped(cfg, ob)
    ensures Same(cfg, b, cfg, ob) == Same(cfg, ob, cfg, b)
  {
  }

  /** Two boards that are Same agree on presence everywhere. */
  lemma SameKeepsPresence(cfg: Config, b: Board, ob: Board, p: Pos)
    requires Shaped(cfg, b) && Shaped(cfg, ob) && Same(cfg, b, cfg, ob) && p in b
    ensures b[p].Some? == ob[p].Some?
  {
  }

  /** PuzzleElement.Clone copies every field except `immoveable`, which it resets. */
  function CloneCell(c: Option<Element>): Option<Element>
  {
    match c
    case None => None
    case Some(e) => Some(e.(immoveable := false))
  }

  function CloneBoard(b: Board): (r: Board)
    ensures r.Keys == b.Keys
  {
    map p | p in b :: CloneCell(b[p])
  }

  /** A clone is the same as its original, both ways round, and keeps presence and well-formedness. */
  lemma CloneIsSame(cfg: Config, b: Board)
    requires Shaped(cfg, b)
    ensures Shaped(cfg, CloneBoard(b))
    ensures Same(cfg, CloneBoard(b), cfg, b) && Same(cfg, b, cfg, CloneBoard(b))
    ensures forall p :: p in b ==> CloneBoard(b)[p].Some? == b[p].Some?
    ensures WellFormed(b) ==> WellFormed(CloneBoard(b))
  {
  }

  /** Comparing with a clone is comparing with its original. */
  lemma SameAsClone(cfg: Config, b: Board, ob: Board)
    ensures Same(cfg, b, cfg, CloneBoard(ob)) == Same(cfg, b, cfg, ob)
  {
    assert forall p :: p in ob && p in b ==> (p in CloneBoard(ob) && CellSame(cfg, b[p], CloneBoard(ob)[p]) == CellSame(cfg, b[p], ob[p]));
  }

  /** The coordinate that must be empty in a solved sliding puzzle without an image. */
  function GapPos(cfg: Config): (p: Pos)
    ensures cfg.width >= 1 && cfg.height >= 1 ==> InGrid(cfg.width, cfg.height, p)
  {
    Pos(if cfg.width % 2 != 0 then cfg.width / 2 else 0,
        if cfg.height % 2 != 0 then cfg.height / 2 else cfg.height - 1)
  }

  /** Whether the win test can look at the gap slot without leaving the grid. */
  predicate GapReadable(cfg: Config)
  {
    Sliding in cfg.puzzleType && !cfg.hasImage ==> cfg.width >= 1 && cfg.height >= 1
  }

  ghost predicate SlidingSolved(cfg: Config, b: Board)
    requires Shaped(cfg, b) && (cfg.hasImage || (cfg.width >= 1 && cfg.height >= 1))
  {
    if cfg.hasImage then
      forall p :: InGrid(cfg.width, cfg.height, p) && b[p].Some? ==> b[p].value.originalPosition == p
    else
      b[GapPos(cfg)].None?
  }

  ghost predicate LightsSolved(cfg: Config, b: Board)
    requires Shaped(cfg, b)
  {
    forall p :: InGrid(cfg.width, cfg.height, p) && b[p].Some? ==> b[p].value.lightState
  }

  ghost predicate PipesSolved(cfg: Config, b: Board)
    requires Shaped(cfg, b)
  {
    forall p :: InGrid(cfg.width, cfg.height, p) && b[p].Some? && b[p].value.pipeType >= 0 ==>
      b[p].value.isFull && (cfg.hasImage ==> b[p].value.pieceRotation == 0)
  }

  /** CheckSolution: the AND of the solved predicates of the active modes. */
  ghost predicate Solved(cfg: Config, b: Board)
    requires Shaped(cfg, b) && GapReadable(cfg)
  {
    && (Sliding in cfg.puzzleType ==> SlidingSolved(cfg, b))
    && (LightsOut in cfg.puzzleType ==> LightsSolved(cfg, b))
    && (Pipemania in cfg.puzzleType ==> PipesSolved(cfg, b))
  }

  /** The identity layout is solved in every mode except a sliding puzzle without image, whose gap is not yet cleared. */
  lemma IdentitySolved(cfg: Config)
    requires GapReadable(cfg)
    ensures Shaped(cfg, IdentityBoard(cfg.width, cfg.height))
    ensures Solved(cfg, IdentityBoard(cfg.width, cfg.height)) <==> !(Sliding in cfg.puzzleType && !cfg.hasImage)
  {
    var b := IdentityBoard(cfg.width, cfg.height);
    if Sliding in cfg.puzzleType && !cfg.hasImage {
      IdentityCells(cfg.width, cfg.height, GapPos(cfg));
    }
  }

  /** Once the gap slot of the identity layout is cleared, every mode is solved. */
  lemma IdentityWithGapSolved(cfg: Config)
    requires cfg.width >= 1 && cfg.height >= 1
    ensures GapPos(cfg) in IdentityBoard(cfg.width, cfg.height)
    ensures var b := IdentityBoard(cfg.width, cfg.height)[GapPos(cfg) := None];
      Shaped(cfg, b) && Solved(cfg, b)
  {
  }

  /** Toggling a light reached by the toggle on a solved lights-out board leaves it unsolved. */
  lemma ToggleBreaksLights(cfg: Config, b: Board, c: Pos)
    requires Shaped(cfg, b) && LightsSolved(cfg, b)
    requires Present(b, c) && InGrid(cfg.width, cfg.height, c) && cfg.distance >= 0
    ensures Shaped(cfg, ToggleLights(cfg, b, c))
    ensures !LightsSolved(cfg, ToggleLights(cfg, b, c))
  {
    var r := ToggleLights(cfg, b, c);
    assert ToggleReaches(cfg, c, c);
    assert r[c].Some? && !r[c].value.lightState;
  }

  /** Two elements that agree on everything the win test and the player's moves look at apart from pipes. */
  predicate SamePiece(e: Element, e': Element)
  {
    && e.originalPosition == e'.originalPosition && e.lightState == e'.lightState
    && e.pieceRotation == e'.pieceRotation && e.isFull == e'.isFull
  }

  /**
   * b' comes from b by changing only immovable flags and pipes and by
   * emptying slots: the same slots, and every element of b' was at its slot
   * in b as the same piece.
   */
  ghost predicate KeepsPieces(b: Board, b': Board)
  {
    && (forall p :: p in b <==> p in b')
    && (forall p :: p in b' && b'[p].Some? ==> b[p].Some? && SamePiece(b[p].value, b'[p].value))
  }

  lemma KeepsPiecesTrans(b1: Board, b2: Board, b3: Board)
    requires KeepsPieces(b1, b2) && KeepsPieces(b2, b3)
    ensures KeepsPieces(b1, b3)
  {
  }

  /**
   * A layout made from the identity by changing flags and pipes and
   * emptying slots is solved when pipes play no part and, for a sliding
   * puzzle without image, the gap slot is empty.
   */
  lemma GeneratedSolved(cfg: Config, b: Board)
    requires cfg.width >= 1 && cfg.height >= 1 && Pipemania !in cfg.puzzleType
    requires KeepsPieces(IdentityBoard(cfg.width, cfg.height), b)
    requires Sliding in cfg.puzzleType && !cfg.hasImage ==> b[GapPos(cfg)].None?
    ensures Shaped(cfg, b) && Solved(cfg, b)
  {
    forall p | InGrid(cfg.width, cfg.height, p) && b[p].Some?
      ensures b[p].value.originalPosition == p && b[p].value.lightState
    {
      IdentityCells(cfg.width, cfg.height, p);
    }
  }

  /** Emptying a slot keeps the pieces that remain. */
  lemma ClearedKeepsPieces(b: Board, g: Pos)
    requires g in b
    ensures KeepsPieces(b, b[g := None])
  {
  }

  /** A slot holding a pipe piece (GetPipeType(x, y) >= 0). */
  predicate PipeAt(b: Board, p: Pos)
  {
    p in b && b[p].Some? && b[p].value.pipeType >= 0
  }

  /**
   * b' differs from b only in immovable flags that were set, never on an
   * empty slot and, when `pipes` holds, never on a piece carrying a pipe.
   */
  ghost predicate OnlyPinned(b: Board, b': Board, pipes: bool)
  {
    && (forall q :: q in b <==> q in b')
    && (forall q :: q in b ==> (b[q].Some? <==> b'[q].Some?))
    && (forall q :: q in b && b[q].Some? && b'[q].Some? ==>
          b'[q].value == b[q].value.(immoveable := b'[q].value.immoveable))
    && (forall q :: q in b && b[q].Some? && b'[q].Some? && b'[q].value.immoveable != b[q].value.immoveable ==>
          b'[q].value.immoveable && !(pipes && b[q].value.pipeType >= 0))
  }

  /** Pinning one more piece that carries no pipe keeps OnlyPinned. */
  lemma PinStep(b0: Board, b: Board, p: Pos, pipes: bool)
    requires OnlyPinned(b0, b, pipes) && p in b
    requires b[p].Some? ==> !(pipes && b[p].value.pipeType >= 0)
    ensures OnlyPinned(b0, if b[p].Some? then b[p := Some(b[p].value.(immoveable := true))] else b, pipes)
  {
  }

  lemma PinnedKeepsPieces(b: Board, b': Board, pipes: bool)
    requires OnlyPinned(b, b', pipes)
    ensures KeepsPieces(b, b')
  {
  }
}
