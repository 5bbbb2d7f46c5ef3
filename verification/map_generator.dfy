/** The deterministic world generator (lib/game/map/generator.ts, lib/game/map/types.ts):
    a mulberry32 stream seeded with 123456789 picks one biome per cell of a
    100 x 100 grid, row by row. */
module MapGenerator {

  datatype Biome = Prairie | Foret | Desert | Savane | Jungle | Banquise | Montagne | Eau

  datatype Cell = Cell(x: int, y: int, biome: Biome)

  const WORLD_SEED: bv32 := 123456789
  const MAP_SIZE: nat := 100

  /** mulberry32 adds this constant to its state before every draw. */
  const INCREMENT: bv32 := 0x6D2B79F5

  /** The biomes in the order `selectBiomeWeighted` scans them, and their weights
      counted in half percent (50, 9, 9, 9, 9, 9, 2.5, 2.5 percent). */
  const BIOMES: seq<Biome> := [Prairie, Foret, Desert, Savane, Jungle, Banquise, Montagne, Eau]
  const HALF_WEIGHTS: seq<int> := [100, 18, 18, 18, 18, 18, 5, 5]

  /** mulberry32's output for an already incremented state: every operation of
      the source (`Math.imul`, `^`, `>>>`, `|`, `+ ... | 0`) is a 32-bit one. */
  /** `Math.imul(a, b)`: the low 32 bits of a * b, as the sum of a << i over the
      set bits i of b, from bit i on. */
  function MulFrom(a: bv32, b: bv32, i: nat): bv32
    requires i <= 32
    decreases 32 - i
  {
    if i == 32 then 0
    else (if b & (1 << i) == 0 then 0 else a << i) + MulFrom(a, b, i + 1)
  }

  function Imul(a: bv32, b: bv32): bv32
  {
    MulFrom(a, b, 0)
  }

  function Mix(s: bv32): bv32
  {
    var t := Imul(s ^ (s >> 15), 1 | s);
    var t2 := (t + Imul(t ^ (t >> 7), 61 | t)) ^ t;
    t2 ^ (t2 >> 14)
  }

  /** The generator state after n draws from `seed`. */
  function StateAfter(seed: bv32, n: nat): bv32
  {
    if n == 0 then seed else StateAfter(seed, n - 1) + INCREMENT
  }

  /** Twice the cumulative weight of the first i biomes. */
  function HalfCumulative(i: nat): int
    requires i <= 8
  {
    if i == 0 then 0 else HalfCumulative(i - 1) + HALF_WEIGHTS[i - 1]
  }

  /** `rand <= cumulative` for rand = u / 2^32 * 100 and cumulative = c2 / 2. Every
      cumulative weight is exact in a double, and u * 100 / 2^32 is never within
      rounding distance of one of them, so the exact comparison is the source's. */
  predicate Hits(u: bv32, i: nat)
    requires i < 8
  {
    (u as int) * 200 <= HalfCumulative(i + 1) * 0x1_0000_0000
  }

  /** The biome chosen by scanning from index i on; past the end, the fallback. */
  function SelectFrom(u: bv32, i: nat): Biome
    requires i <= 8
    decreases 8 - i
  {
    if i == 8 then Prairie
    else if Hits(u, i) then BIOMES[i]
    else SelectFrom(u, i + 1)
  }

  function SelectBiome(u: bv32): Biome
  {
    SelectFrom(u, 0)
  }

  /** The biome of draw number k (counted from 0) of the stream seeded with `seed`:
      draw 0 mixes the first incremented state, and draw k of `seed` is draw
      k - 1 of the stream one step further on. */
  function NthBiome(seed: bv32, k: nat): Biome
    decreases k
  {
    if k == 0 then SelectBiome(Mix(seed + INCREMENT)) else NthBiome(seed + INCREMENT, k - 1)
  }

  lemma {:induction false} StateAfterShift(seed: bv32, n: nat)
    ensures StateAfter(seed + INCREMENT, n) == StateAfter(seed, n + 1)
  {
    if n > 0 {
      StateAfterShift(seed, n - 1);
    }
  }

  lemma StateAfterOne(seed: bv32)
    ensures StateAfter(seed, 1) == seed + INCREMENT
  {
  }

  /** Draw k of the stream is the biome selected from the state reached after k + 1 steps. */
  lemma {:induction false} NthBiomeIsMixOfState(seed: bv32, k: nat)
    decreases k
    ensures NthBiome(seed, k) == SelectBiome(Mix(StateAfter(seed, k + 1)))
  {
    if k == 0 {
      StateAfterOne(seed);
    } else {
      NthBiomeIsMixOfState(seed + INCREMENT, k - 1);
      StateAfterShift(seed, k);
    }
  }

  /** The cell that draw number `start + 100 * y + x` of the stream gives. */
  function CellAt(seed: bv32, start: nat, x: nat, y: nat): Cell
  {
    Cell(x, y, NthBiome(seed, start + MAP_SIZE * y + x))
  }

  /** The world map every call of `generateWorldMap` returns. */
  function WorldMap(): (m: seq<seq<Cell>>)
    ensures |m| == MAP_SIZE
    ensures forall y :: 0 <= y < |m| ==> |m[y]| == MAP_SIZE
    ensures forall y, x :: 0 <= y < MAP_SIZE && 0 <= x < MAP_SIZE ==> m[y][x] == CellAt(WORLD_SEED, 0, x, y)
  {
    seq(MAP_SIZE, y requires 0 <= y => seq(MAP_SIZE, x requires 0 <= x => CellAt(WORLD_SEED, 0, x, y)))
  }

  lemma WeightsSumToHundred()
    ensures HalfCumulative(8) == 200
  {
  }

  lemma {:induction false} SelectFromIsFirstHit(u: bv32, i: nat)
    requires i < 8
    requires forall k :: 0 <= k < i ==> !Hits(u, k)
    decreases 8 - i
    ensures exists j :: i <= j < 8 && Hits(u, j) && SelectFrom(u, i) == BIOMES[j]
                        && forall k :: 0 <= k < j ==> !Hits(u, k)
  {
    if i == 7 {
      WeightsSumToHundred();
      assert Hits(u, 7);
    } else if Hits(u, i) {
      assert SelectFrom(u, i) == BIOMES[i];
    } else {
      SelectFromIsFirstHit(u, i + 1);
    }
  }

  /** The weights add up to 100, so the scan always stops at the first biome
      whose cumulative weight reaches the draw and the fallback is never taken. */
  lemma SelectBiomeIsFirstHit(u: bv32)
    ensures exists j :: 0 <= j < 8 && Hits(u, j) && SelectBiome(u) == BIOMES[j]
                        && forall k :: 0 <= k < j ==> !Hits(u, k)
  {
    SelectFromIsFirstHit(u, 0);
  }

  /** `initializeMap`: a 100 x 100 grid of prairie cells, row y holding cells x = 0..99. */
  method InitializeMap() returns (m: seq<seq<Cell>>)
    ensures |m| == MAP_SIZE
    ensures forall y :: 0 <= y < |m| ==> |m[y]| == MAP_SIZE
    ensures forall y, x :: 0 <= y < MAP_SIZE && 0 <= x < MAP_SIZE ==> m[y][x] == Cell(x, y, Prairie)
  {
    m := [];
    for y := 0 to MAP_SIZE
      invariant |m| == y
      invariant forall r :: 0 <= r < y ==> |m[r]| == MAP_SIZE
      invariant forall r, x :: 0 <= r < y && 0 <= x < MAP_SIZE ==> m[r][x] == Cell(x, r, Prairie)
    {
      var row := [];
      for x := 0 to MAP_SIZE
        invariant |row| == x
        invariant forall c :: 0 <= c < x ==> row[c] == Cell(c, y, Prairie)
      {
        row := row + [Cell(x, y, Prairie)];
      }
      m := m + [row];
    }
  }

  /** A grid of MAP_SIZE rows of MAP_SIZE cells. */
  ghost predicate FullGrid(m: seq<seq<Cell>>)
  {
    |m| == MAP_SIZE && forall y :: 0 <= y < |m| ==> |m[y]| == MAP_SIZE
  }

  /** The grid with the cell at column x of row y replaced. */
  function Put(m: seq<seq<Cell>>, x: nat, y: nat, c: Cell): (r: seq<seq<Cell>>)
    requires FullGrid(m) && x < MAP_SIZE && y < MAP_SIZE
    ensures FullGrid(r) && r[y][x] == c
    ensures forall b, a :: 0 <= b < MAP_SIZE && 0 <= a < MAP_SIZE && (b != y || a != x) ==> r[b][a] == m[b][a]
  {
    m[y := m[y][x := c]]
  }

  /** The scan of `selectBiomeWeighted` over the cumulative weights for the draw u / 2^32. */
  method ScanWeights(u: bv32) returns (b: Biome)
    ensures b == SelectBiome(u)
  {
    var cumulative := 0;
    var i := 0;
    while i < 8
      invariant 0 <= i <= 8
      invariant cumulative == HalfCumulative(i)
      invariant SelectFrom(u, i) == SelectBiome(u)
    {
      cumulative := cumulative + HALF_WEIGHTS[i];
      if (u as int) * 200 <= cumulative * 0x1_0000_0000 {
        return BIOMES[i];
      }
      i := i + 1;
    }
    return Prairie;
  }

  class MapGenerator {
    const seed: bv32
    var currentSeed: bv32
    var grid: seq<seq<Cell>>
    /** Number of draws taken from the stream so far. */
    ghost var draws: nat

    ghost predicate Valid()
      reads this
    {
      currentSeed == StateAfter(seed, draws) && FullGrid(grid)
    }

    constructor (seed: bv32)
      ensures Valid() && this.seed == seed && draws == 0
      ensures forall y, x :: 0 <= y < MAP_SIZE && 0 <= x < MAP_SIZE ==>grid[y][x] == Cell(x, y, Prairie)
    {
      this.seed := seed;
      currentSeed := seed;
      draws := 0;
      var m := InitializeMap();
      grid := m;
    }

    /** The state step of the closure built by `createSeededRandom`. */
    method Advance()
      requires Valid()
      modifies this
      ensures Valid() && draws == old(draws) + 1 && grid == old(grid)
    {
      currentSeed := currentSeed + INCREMENT;
      draws := draws + 1;
    }

    /** One call of the closure built by `createSeededRandom`: advances the state
        and returns the 32-bit numerator u of the draw u / 2^32. */
    method Random() returns (u: bv32)
      requires Valid()
      modifies this
      ensures Valid() && draws == old(draws) + 1 && grid == old(grid)
      ensures u == Mix(StateAfter(seed, draws))
    {
      Advance();
      u := Mix(currentSeed);
    }

    /** `selectBiomeWeighted`: one draw, then a scan of the cumulative weights. */
    method SelectBiomeWeighted() returns (b: Biome)
      requires Valid()
      modifies this
      ensures Valid() && draws == old(draws) + 1 && grid == old(grid)
      ensures b == NthBiome(seed, old(draws))
    {
      NthBiomeIsMixOfState(seed, draws);
      var u := Random();
      b := ScanWeights(u);
    }

    /** One pass of the inner loop of `generateRandomCells`: row y, left to right. */
    method GenerateRow(y: nat, ghost start: nat)
      requires Valid() && y < MAP_SIZE && draws == start + MAP_SIZE * y
      modifies this
      ensures Valid() && draws == start + MAP_SIZE * (y + 1)
      ensures forall r, c :: 0 <= r < MAP_SIZE && r != y && 0 <= c < MAP_SIZE ==> grid[r][c] == old(grid[r][c])
      ensures forall c :: 0 <= c < MAP_SIZE ==> grid[y][c] == CellAt(seed, start, c, y)
    {
      for x := 0 to MAP_SIZE
        invariant Valid() && draws == start + MAP_SIZE * y + x
        invariant forall r, c :: 0 <= r < MAP_SIZE && r != y && 0 <= c < MAP_SIZE ==> grid[r][c] == old(grid[r][c])
        invariant forall c :: 0 <= c < x ==> grid[y][c] == CellAt(seed, start, c, y)
      {
        var biome := SelectBiomeWeighted();
        grid := Put(grid, x, y, Cell(x, y, biome));
      }
    }

    /** `generateRandomCells`: overwrites every cell, taking one draw per cell in
        row-major order. */
    method GenerateRandomCells()
      requires Valid()
      modifies this
      ensures Valid() && draws == old(draws) + MAP_SIZE * MAP_SIZE
      ensures forall y, x :: 0 <= y < MAP_SIZE && 0 <= x < MAP_SIZE ==>
                grid[y][x] == CellAt(seed, old(draws), x, y)
    {
      ghost var start := draws;
      for y := 0 to MAP_SIZE
        invariant Valid() && draws == start + MAP_SIZE * y
        invariant forall r, c :: 0 <= r < y && 0 <= c < MAP_SIZE ==> grid[r][c] == CellAt(seed, start, c, r)
      {
        GenerateRow(y, start);
      }
    }

    /** `generate`: fills the grid and hands it out. */
    method Generate() returns (m: seq<seq<Cell>>)
      requires Valid()
      modifies this
      ensures Valid() && m == grid && FullGrid(m)
      ensures forall y, x :: 0 <= y < MAP_SIZE && 0 <= x < MAP_SIZE ==>
                m[y][x] == CellAt(seed, old(draws), x, y)
    {
      GenerateRandomCells();
      m := grid;
    }
  }

  /** `generateWorldMap`: a fresh generator on the fixed seed, generated once. */
  method GenerateWorldMap() returns (m: seq<seq<Cell>>)
    ensures m == WorldMap()
  {
    var g := new MapGenerator(WORLD_SEED);
    m := g.Generate();
    var w := WorldMap();
    assert forall y :: 0 <= y < MAP_SIZE ==> m[y] == w[y];
  }

  /** The determinism check of scripts/test-determinism.ts: three generated
      maps agree cell for cell. */
  method GenerateThrice() returns (map1: seq<seq<Cell>>, map2: seq<seq<Cell>>, map3: seq<seq<Cell>>)
    ensures map1 == map2 == map3
  {
    map1 := GenerateWorldMap();
    map2 := GenerateWorldMap();
    map3 := GenerateWorldMap();
  }
}
