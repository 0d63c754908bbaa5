/**
 * The random number generator as an oracle.
 *
 * A seeded System.Random is modelled as an infinite stream of raw draws;
 * `Range(lo, hi)` consumes one draw and maps it into [lo, hi).  Any sequence
 * of in-range results can be produced by some stream, so every property
 * proved here holds whatever values the generator yields.
 */
module Rng {
  import opened Grid

  /** One draw of `Range(lo, hi)`: a value in [lo, hi), or lo when the range is empty. */
  function Pick(raw: int, lo: int, hi: int): (r: int)
    ensures lo < hi ==> lo <= r < hi
    ensures hi <= lo ==> r == lo
  {
    if hi <= lo then lo else lo + raw % (hi - lo)
  }

  /** Every value of a non-empty range is the result of some draw. */
  lemma PickCovers(v: int, lo: int, hi: int)
    requires lo <= v < hi
    ensures Pick(v - lo, lo, hi) == v
  {
  }

  class Random {
    /** The raw draws the generator produces, in order. */
    const draws: nat -> int
    /** How many draws have been consumed. */
    var cursor: nat

    constructor (draws: nat -> int)
      ensures this.draws == draws && cursor == 0
    {
      this.draws := draws;
      cursor := 0;
    }

    /** Range(lo, hi): the next draw, mapped into [lo, hi). */
    method Range(lo: int, hi: int) returns (r: int)
      modifies this
      ensures cursor == old(cursor) + 1
      ensures r == Pick(draws(old(cursor)), lo, hi)
    {
      r := Pick(draws(cursor), lo, hi);
      cursor := cursor + 1;
    }

    /** gridSize.RandomXY: an x draw in [0, w) followed by a y draw in [0, h). */
    method RandomXY(w: int, h: int) returns (p: Pos)
      modifies this
      ensures cursor == old(cursor) + 2
      ensures p == Pos(Pick(draws(old(cursor)), 0, w), Pick(draws(old(cursor) + 1), 0, h))
      ensures w >= 1 && h >= 1 ==> InGrid(w, h, p)
    {
      var x := Range(0, w);
      var y := Range(0, h);
      p := Pos(x, y);
    }
  }
}
