/**
 * Level configurations (LevelDef) and the level generator of the game
 * manager.  Levels below the number of authored levels are the authored
 * ones; later levels are generated from a generator seeded by the level
 * number.  The generator is an oracle: `seeded(s)` is the stream of raw
 * draws a generator created with seed s produces.
 */
module Levels {
  import opened Grid
  import opened Rng

  /** The fields of LevelDef; the music track and base image are indices into the asset lists. */
  datatype LevelDef = LevelDef(
    puzzleType: set<Mode>,
    gridWidth: int,
    gridHeight: int,
    shuffle: bool,
    shuffleAmmount: int,
    randomSeed: bool,
    seed: int,
    unmoveablePieceCount: int,
    neighborhoodType: NeighborhoodType,
    neighborhoodDistance: int,
    numberOfOuts: int,
    minPathLength: int,
    blockTiles: int,
    musicTrack: Option<nat>,
    bpm: int,
    undoLastOnBeatFail: bool,
    baseImage: Option<nat>)

  /** A freshly created LevelDef: every field at its declared initial value. */
  const DefaultLevel: LevelDef := LevelDef(
    {Sliding}, 2, 2, false, 3, false, 0, 0, VonNeumann, 1, 2, 7, 10, None, 120, false, None)

  /** Mathf.Clamp on integers. */
  function Clamp(v: int, lo: int, hi: int): (r: int)
    ensures lo <= hi ==> lo <= r <= hi
    ensures lo <= v <= hi ==> r == v
  {
    if v < lo then lo else if v > hi then hi else v
  }

  function Max(a: int, b: int): int { if a >= b then a else b }
  function Min(a: int, b: int): int { if a <= b then a else b }

  /** Two's-complement wrap of C#'s unchecked 32-bit int arithmetic. */
  function Int32(v: int): (r: int)
    ensures -0x8000_0000 <= r < 0x8000_0000
    ensures -0x8000_0000 <= v < 0x8000_0000 ==> r == v
  {
    (v + 0x8000_0000) % 0x1_0000_0000 - 0x8000_0000
  }

  /** The generator seed of a level: level*12345 + level*123 + level in 32-bit arithmetic. */
  function Seed(level: int): int
  {
    Int32(level * 12345 + level * 123 + level)
  }

  lemma SeedSmallLevels(level: int)
    requires 0 <= level <= 172225
    ensures Seed(level) == 12469 * level
  {
  }

  /** `1 << k` as a puzzle type, for a draw k in [0,3). */
  function ModeOf(k: int): Mode
  {
    if k == 0 then Sliding else if k == 1 then LightsOut else Pipemania
  }

  const BaseModes: set<Mode> := {Sliding, LightsOut, Pipemania}

  /** list.Random(generator): one draw picks an index; an empty list gives nothing. */
  function PickFrom(raw: int, count: nat): (r: Option<nat>)
    ensures r.Some? <==> count > 0
    ensures r.Some? ==> r.value < count
  {
    if count == 0 then None else Some(Pick(raw, 0, count))
  }

  /** The puzzle-type draws: a base flag, then up to two more, each gated on a draw below baseLevel. */
  function TypeDraws(d: nat -> int, baseLevel: int): (r: (set<Mode>, nat))
  {
    var base := {ModeOf(Pick(d(0), 0, 3))};
    if Pick(d(1), 0, 100) < baseLevel then
      var second := base + {ModeOf(Pick(d(2), 0, 3))};
      if Pick(d(3), 0, 100) < baseLevel then (second + {ModeOf(Pick(d(4), 0, 3))}, 5)
      else (second, 4)
    else (base, 2)
  }

  /**
   * The type gates of GetLevel: the first drawn mode is always there, a
   * second only when a draw in [0,100) falls below baseLevel, and a third
   * only when a further such draw falls below it too.
   */
  lemma TypeGates(d: nat -> int, baseLevel: int)
    ensures var types := TypeDraws(d, baseLevel).0;
      var m0, m2, m4 := ModeOf(Pick(d(0), 0, 3)), ModeOf(Pick(d(2), 0, 3)), ModeOf(Pick(d(4), 0, 3));
      && types <= BaseModes && Rhythm !in types
      && (Pick(d(1), 0, 100) >= baseLevel ==> types == {m0})
      && (Pick(d(1), 0, 100) < baseLevel && Pick(d(3), 0, 100) >= baseLevel ==> types == {m0, m2})
      && (Pick(d(1), 0, 100) < baseLevel && Pick(d(3), 0, 100) < baseLevel ==> types == {m0, m2, m4})
  {
  }

  /** The position in the stream of the draw that decides the rhythm flag. */
  function RhythmDraw(d: nat -> int, baseLevel: int): nat
  {
    var (types, c) := TypeDraws(d, baseLevel);
    c + 4 + (if Sliding in types then 2 else 0) + (if Pipemania in types then 1 else 0)
  }

  /**
   * A generated level, from the draws of its generator: the type flags, the
   * grid size, the shuffle count and the level's own seed, then the
   * sliding, pipe and rhythm fields when those modes are present, then the
   * base image.  Fractional factors are exact here: max*1.5 is
   * 3*max/2 rounded down, and gx*gy*0.2 rounded down is gx*gy/5.
   */
  function Generate(baseLevel: int, d: nat -> int, songCount: nat, imageCount: nat): (r: LevelDef)
    ensures 4 <= r.gridWidth <= 8 && 4 <= r.gridHeight <= 8
    ensures r.shuffle && !r.randomSeed
    ensures r.puzzleType - {Rhythm} == TypeDraws(d, baseLevel).0
    ensures r.shuffleAmmount == 3 * Max(r.gridWidth, r.gridHeight) / 2 + Pick(d(TypeDraws(d, baseLevel).1 + 2), 1, baseLevel / 4)
    ensures r.shuffleAmmount >= 3 * Max(r.gridWidth, r.gridHeight) / 2 + 1
    ensures Sliding !in r.puzzleType ==> r.unmoveablePieceCount == DefaultLevel.unmoveablePieceCount
    ensures Sliding in r.puzzleType ==> r.unmoveablePieceCount >= 0
    ensures Pipemania !in r.puzzleType ==>
      (r.numberOfOuts, r.minPathLength, r.blockTiles) == (DefaultLevel.numberOfOuts, DefaultLevel.minPathLength, DefaultLevel.blockTiles)
    ensures Pipemania in r.puzzleType ==>
      && 1 <= r.numberOfOuts <= Max(r.gridWidth, r.gridHeight) / 2
      && r.minPathLength == 3 * Max(r.gridWidth, r.gridHeight) / 2
      && r.blockTiles == r.gridWidth * r.gridHeight / 5
    ensures Rhythm in r.puzzleType <==> Pick(d(RhythmDraw(d, baseLevel)), 0, 200) < baseLevel
    ensures r.musicTrack.Some? ==> Rhythm in r.puzzleType
    ensures (r.baseImage.Some? <==> imageCount > 0) && (r.baseImage.Some? ==> r.baseImage.value < imageCount)
    ensures r.neighborhoodType == VonNeumann && r.neighborhoodDistance == 1 && r.bpm == 120 && !r.undoLastOnBeatFail
  {
    var (types, c) := TypeDraws(d, baseLevel);
    var gx := Clamp(Pick(d(c), 0, baseLevel / 8), 4, 8);
    var gy := Clamp(Pick(d(c + 1), 0, baseLevel / 8), 4, 8);
    var shuffleAmmount := 3 * Max(gx, gy) / 2 + Pick(d(c + 2), 1, baseLevel / 4);
    var seed := Pick(d(c + 3), 0, 0x7fff_ffff);
    var c := c + 4;
    var unmoveable := if Sliding in types then Pick(d(c), 0, Min(gx, gy) / 3) + Pick(d(c + 1), 0, baseLevel / 5)
                      else DefaultLevel.unmoveablePieceCount;
    var c := if Sliding in types then c + 2 else c;
    var outs := if Pipemania in types then Clamp(Pick(d(c), 0, baseLevel / 20) + 2, 1, Max(gx, gy) / 2)
                else DefaultLevel.numberOfOuts;
    var minPath := if Pipemania in types then 3 * Max(gx, gy) / 2 else DefaultLevel.minPathLength;
    var blocks := if Pipemania in types then gx * gy / 5 else DefaultLevel.blockTiles;
    var c := if Pipemania in types then c + 1 else c;
    assert c == RhythmDraw(d, baseLevel);
    var rhythm := Pick(d(c), 0, 200) < baseLevel;
    var music := if rhythm then PickFrom(d(c + 1), songCount) else DefaultLevel.musicTrack;
    var c := if rhythm then c + 2 else c + 1;
    var image := PickFrom(d(c), imageCount);
    DefaultLevel.(
      puzzleType := if rhythm then types + {Rhythm} else types,
      gridWidth := gx, gridHeight := gy,
      shuffle := true, shuffleAmmount := shuffleAmmount,
      randomSeed := false, seed := seed,
      unmoveablePieceCount := unmoveable,
      numberOfOuts := outs, minPathLength := minPath, blockTiles := blocks,
      musicTrack := music, baseImage := image)
  }

  /**
   * GetLevel: an authored level is returned unchanged; a later level is
   * generated with baseLevel = level − (number of authored levels) + 1,
   * from the generator seeded with Seed(level).
   */
  function GetLevel(level: nat, levels: seq<LevelDef>, seeded: int -> (nat -> int), songCount: nat, imageCount: nat): (r: LevelDef)
    ensures level < |levels| ==> r == levels[level]
    ensures level >= |levels| ==> r.shuffle && !r.randomSeed && 4 <= r.gridWidth <= 8 && 4 <= r.gridHeight <= 8
  {
    if level >= |levels| then
      var baseLevel := level - |levels| + 1;
      Generate(baseLevel, seeded(Seed(level)), songCount, imageCount)
    else levels[level]
  }

  /** Generated levels depend on the generator only through the stream of their own seed. */
  lemma GeneratedDeterministic(level: nat, levels: seq<LevelDef>, seeded: int -> (nat -> int), seeded': int -> (nat -> int),
                               songCount: nat, imageCount: nat)
    requires seeded(Seed(level)) == seeded'(Seed(level))
    ensures GetLevel(level, levels, seeded, songCount, imageCount) == GetLevel(level, levels, seeded', songCount, imageCount)
  {
  }
}
