/** Model of `Noise.GenerateNoiseMap`: a fractal height grid built from a
    coherent-noise primitive, then normalised between a tracked minimum and
    maximum.

    Floats are modelled by `real`. `Mathf.PerlinNoise` is the parameter
    `noise`, and the draws of the seeded `System.Random` are the parameter
    `draws`, consumed two per octave in order. */
module Noise {

  /** Unity's `Vector2`, over reals. */
  datatype Vec2 = Vec2(x: real, y: real)

  type PosReal = r: real | r > 0.0 witness 1.0

  /** `float.MaxValue` as an exact real; `float.MinValue` is its negation.
      They are the initial values of the running maximum and minimum. */
  const FloatMax: real := 340282346638528859811704183484516925440.0
  const FloatMin: real := -FloatMax

  /** The scale used in place of a non-positive one. */
  const MinScale: real := 0.0001

  /** Bounds of `prng.Next(DrawLow, DrawHigh)`: the lower is inclusive,
      the upper exclusive. */
  const DrawLow: int := -10000
  const DrawHigh: int := 10000

  predicate InFloatRange(v: real) {
    FloatMin < v < FloatMax
  }

  function Pow(b: real, n: nat): real {
    if n == 0 then 1.0 else Pow(b, n - 1) * b
  }

  function Clamp01(v: real): (r: real)
    ensures 0.0 <= r <= 1.0
    ensures 0.0 <= v <= 1.0 ==> r == v
  {
    if v < 0.0 then 0.0 else if v > 1.0 then 1.0 else v
  }

  /** `Mathf.InverseLerp(a, b, v)`: where `v` lies between `a` and `b`, as a
      fraction clamped to [0, 1]; 0 when the two bounds coincide. A value on
      `a`'s side of the range gives 0, a value past `b` gives 1. */
  function InverseLerp(a: real, b: real, v: real): (r: real)
    ensures 0.0 <= r <= 1.0
    ensures a == b ==> r == 0.0
    ensures a != b && v == a ==> r == 0.0
    ensures a != b && v == b ==> r == 1.0
    ensures a != b && (a <= v <= b || b <= v <= a) ==> r * (b - a) == v - a
    ensures (a < b && v <= a) || (b < a && a <= v) ==> r == 0.0
    ensures (a < b && b <= v) || (b < a && v <= b) ==> r == 1.0
  {
    if a == b then 0.0
    else
      QuotientBounds(v - a, b - a);
      Clamp01((v - a) / (b - a))
  }

  /** Where the quotient `n / d` lies, by the signs and sizes of `n` and `d`. */
  lemma QuotientBounds(n: real, d: real)
    requires d != 0.0
    ensures 0.0 <= n <= d || d <= n <= 0.0 ==> 0.0 <= n / d <= 1.0 && n / d * d == n
    ensures n == d ==> n / d == 1.0
    ensures n <= 0.0 < d || d < 0.0 <= n ==> n / d <= 0.0
    ensures 0.0 < d <= n || n <= d < 0.0 ==> n / d >= 1.0
  {
    if 0.0 < d <= n {
      assert n / d * d == n;
    } else if n <= d < 0.0 {
      assert n / d * d == n;
    }
  }

  // ---------------------------------------------------------------------
  // Octave offsets and the scale guard
  // ---------------------------------------------------------------------

  /** Every draw lies in the range `prng.Next(-10000, 10000)` returns. */
  predicate DrawsInRange(draws: seq<int>) {
    forall k :: 0 <= k < |draws| ==> DrawLow <= draws[k] < DrawHigh
  }

  /** The offset of octave `i`: the generator's draws `2i` and `2i + 1`,
      shifted by the caller's offset. */
  function OctaveOffset(draws: seq<int>, offset: Vec2, i: nat): Vec2
    requires 2 * i + 1 < |draws|
  {
    Vec2(draws[2 * i] as real + offset.x, draws[2 * i + 1] as real + offset.y)
  }

  function OffsetsFrom(draws: seq<int>, offset: Vec2, octaves: nat): seq<Vec2>
    requires 2 * octaves <= |draws|
  {
    seq(octaves, i requires 0 <= i < octaves => OctaveOffset(draws, offset, i))
  }

  /** Fills the octave-offset array, taking the generator's draws strictly in
      order: the x draw, then the y draw, of each octave in turn. */
  method OctaveOffsets(draws: seq<int>, octaves: nat, offset: Vec2) returns (octaveOffsets: array<Vec2>)
    requires 2 * octaves <= |draws|
    requires DrawsInRange(draws)
    ensures octaveOffsets.Length == octaves
    ensures forall i :: 0 <= i < octaves ==>
      octaveOffsets[i] == Vec2(draws[2 * i] as real + offset.x, draws[2 * i + 1] as real + offset.y)
    ensures forall i :: 0 <= i < octaves ==>
      DrawLow as real <= octaveOffsets[i].x - offset.x < DrawHigh as real &&
      DrawLow as real <= octaveOffsets[i].y - offset.y < DrawHigh as real
  {
    octaveOffsets := new Vec2[octaves](_ => Vec2(0.0, 0.0));
    var next := 0;  // how many draws the generator has handed out
    var i := 0;
    while i < octaves
      invariant 0 <= i <= octaves && next == 2 * i
      invariant forall j :: 0 <= j < i ==>
        octaveOffsets[j] == Vec2(draws[2 * j] as real + offset.x, draws[2 * j + 1] as real + offset.y)
    {
      var offsetX := draws[next] as real + offset.x;
      next := next + 1;
      var offsetY := draws[next] as real + offset.y;
      next := next + 1;
      octaveOffsets[i] := Vec2(offsetX, offsetY);
      i := i + 1;
    }
  }

  /** The scale actually used for sampling: a non-positive scale is replaced
      by `MinScale`, a positive one is kept. */
  function EffectiveScale(scale: real): (r: real)
    ensures r > 0.0
    ensures r == scale <==> scale > 0.0
    ensures scale <= 0.0 ==> r == MinScale
  {
    if scale <= 0.0 then MinScale else scale
  }

  // ---------------------------------------------------------------------
  // Octave accumulation
  // ---------------------------------------------------------------------

  /** What every cell's octave sum shares: the noise primitive, the centre of
      the grid, the guarded scale, and the per-octave amplitude and
      frequency factors. */
  datatype Sampling = Sampling(
    noise: (real, real) -> real,
    half: Vec2,
    scale: PosReal,
    persistance: real,
    lacunarity: real)

  function SamplingOf(mapWidth: int, mapHeight: int, scale: real, persistance: real,
                      lacunarity: real, noise: (real, real) -> real): Sampling
  {
    Sampling(noise, Vec2(mapWidth as real / 2.0, mapHeight as real / 2.0),
             EffectiveScale(scale), persistance, lacunarity)
  }

  /** One octave layer of cell `(x, y)`: the noise sampled at `frequency`
      around the octave's offset `o`, remapped to `2 * noise - 1`, and
      weighed by `amplitude`. */
  function Layer(s: Sampling, o: Vec2, x: int, y: int, frequency: real, amplitude: real): real {
    Signed(s, SampleCoord(x, s.half.x, s.scale, frequency, o.x),
              SampleCoord(y, s.half.y, s.scale, frequency, o.y)) * amplitude
  }

  /** A sample coordinate: the cell coordinate taken from the centre of the
      grid, divided by the scale, multiplied by the frequency, and shifted
      by the octave's offset. */
  function SampleCoord(c: int, half: real, scale: PosReal, frequency: real, offset: real): real {
    (c as real - half) / scale * frequency + offset
  }

  /** The noise value at a sample point, remapped by `* 2 - 1` so that it can
      be negative. */
  function Signed(s: Sampling, sampleX: real, sampleY: real): real {
    s.noise(sampleX, sampleY) * 2.0 - 1.0
  }

  /** The sum of the first `n` layers of cell `(x, y)`; layer `i` has
      frequency `lacunarity^i` and amplitude `persistance^i`. */
  function Layers(s: Sampling, offsets: seq<Vec2>, x: int, y: int, n: nat): real
    requires n <= |offsets|
  {
    if n == 0 then 0.0
    else Layers(s, offsets, x, y, n - 1) + Layer(s, offsets[n - 1], x, y, Pow(s.lacunarity, n - 1), Pow(s.persistance, n - 1))
  }

  /** The raw (pre-normalisation) height of cell `(x, y)`: all octaves. */
  function Height(s: Sampling, offsets: seq<Vec2>, x: int, y: int): real {
    Layers(s, offsets, x, y, |offsets|)
  }

  /** The octave loop of one cell: amplitude and frequency start at 1 and are
      multiplied by `persistance` and `lacunarity` after each layer. */
  method CellHeight(s: Sampling, octaveOffsets: array<Vec2>, x: int, y: int) returns (noiseHeight: real)
    ensures noiseHeight == Height(s, octaveOffsets[..], x, y)
  {
    var amplitude := 1.0;
    var frequency := 1.0;
    noiseHeight := 0.0;
    var i := 0;
    while i < octaveOffsets.Length
      invariant 0 <= i <= octaveOffsets.Length
      invariant amplitude == Pow(s.persistance, i) && frequency == Pow(s.lacunarity, i)
      invariant noiseHeight == Layers(s, octaveOffsets[..], x, y, i)
    {
      var sampleX := SampleCoord(x, s.half.x, s.scale, frequency, octaveOffsets[i].x);
      var sampleY := SampleCoord(y, s.half.y, s.scale, frequency, octaveOffsets[i].y);
      var perlinValue := Signed(s, sampleX, sampleY);
      assert octaveOffsets[..][i] == octaveOffsets[i];
      assert Layer(s, octaveOffsets[i], x, y, frequency, amplitude) == perlinValue * amplitude;
      LayersStep(s, octaveOffsets[..], x, y, i);
      noiseHeight := noiseHeight + perlinValue * amplitude;
      amplitude := amplitude * s.persistance;
      frequency := frequency * s.lacunarity;
      i := i + 1;
    }
  }

  /** One more layer: the next octave's layer at the next powers of
      `lacunarity` and `persistance`. */
  lemma LayersStep(s: Sampling, offsets: seq<Vec2>, x: int, y: int, i: nat)
    requires i < |offsets|
    ensures Layers(s, offsets, x, y, i + 1) ==
      Layers(s, offsets, x, y, i) + Layer(s, offsets[i], x, y, Pow(s.lacunarity, i), Pow(s.persistance, i))
    ensures Pow(s.persistance, i + 1) == Pow(s.persistance, i) * s.persistance
    ensures Pow(s.lacunarity, i + 1) == Pow(s.lacunarity, i) * s.lacunarity
  {
  }

  // ---------------------------------------------------------------------
  // Visit order and range tracking
  // ---------------------------------------------------------------------

  /** Raw heights of row `y`, in increasing `x`. */
  function Row(s: Sampling, offsets: seq<Vec2>, width: nat, y: int): seq<real> {
    seq(width, x => Height(s, offsets, x, y))
  }

  /** Raw heights of the first `rows` rows in visit order: `y` outer, `x`
      inner. */
  function Visited(s: Sampling, offsets: seq<Vec2>, width: nat, rows: nat): seq<real> {
    if rows == 0 then [] else Visited(s, offsets, width, rows - 1) + Row(s, offsets, width, rows - 1)
  }

  /** The running maximum and the running "minimum" of the first pass. */
  datatype Extent = Extent(max: real, min: real)

  /** One visit: a height above the running maximum replaces it; a height
      strictly below the running maximum replaces the minimum, whatever the
      minimum was; a height equal to the maximum changes nothing. */
  function Visit(e: Extent, h: real): Extent {
    if h > e.max then Extent(h, e.min)
    else if h < e.max then Extent(e.max, h)
    else e
  }

  /** The extent after visiting `hs` in order, from the sentinels. */
  function Track(hs: seq<real>): Extent {
    if |hs| == 0 then Extent(FloatMin, FloatMax)
    else Visit(Track(hs[..|hs| - 1]), hs[|hs| - 1])
  }

  lemma TrackAppend(hs: seq<real>, h: real)
    ensures Track(hs + [h]) == Visit(Track(hs), h)
  {
    assert (hs + [h])[..|hs|] == hs;
  }

  /** First pass: stores every raw height at `[x, y]` and tracks the extent,
      row by row. */
  method FillHeights(s: Sampling, octaveOffsets: array<Vec2>, noiseMap: array2<real>)
    returns (maxNoiseHeight: real, minNoiseHeight: real)
    modifies noiseMap
    ensures forall x, y :: 0 <= x < noiseMap.Length0 && 0 <= y < noiseMap.Length1 ==>
      noiseMap[x, y] == Height(s, octaveOffsets[..], x, y)
    ensures Extent(maxNoiseHeight, minNoiseHeight) ==
      Track(Visited(s, octaveOffsets[..], noiseMap.Length0, noiseMap.Length1))
  {
    ghost var offsets := octaveOffsets[..];
    maxNoiseHeight, minNoiseHeight := FloatMin, FloatMax;
    var y := 0;
    while y < noiseMap.Length1
      invariant 0 <= y <= noiseMap.Length1
      invariant forall i, j :: 0 <= i < noiseMap.Length0 && 0 <= j < y ==> noiseMap[i, j] == Height(s, offsets, i, j)
      invariant Extent(maxNoiseHeight, minNoiseHeight) == Track(Visited(s, offsets, noiseMap.Length0, y))
    {
      maxNoiseHeight, minNoiseHeight :=
        FillRow(s, octaveOffsets, noiseMap, y, Visited(s, offsets, noiseMap.Length0, y), maxNoiseHeight, minNoiseHeight);
      y := y + 1;
    }
  }

  /** The inner loop of the first pass: row `y` in increasing `x`, each raw
      height visited after the heights in `done`. */
  method FillRow(s: Sampling, octaveOffsets: array<Vec2>, noiseMap: array2<real>, y: int,
                 ghost done: seq<real>, maxIn: real, minIn: real)
    returns (maxNoiseHeight: real, minNoiseHeight: real)
    requires 0 <= y < noiseMap.Length1
    requires Extent(maxIn, minIn) == Track(done)
    modifies noiseMap
    ensures forall i, j :: 0 <= i < noiseMap.Length0 && 0 <= j < noiseMap.Length1 ==>
      noiseMap[i, j] == if j == y then Height(s, octaveOffsets[..], i, j) else old(noiseMap[i, j])
    ensures Extent(maxNoiseHeight, minNoiseHeight) ==
      Track(done + Row(s, octaveOffsets[..], noiseMap.Length0, y))
  {
    ghost var row := Row(s, octaveOffsets[..], noiseMap.Length0, y);
    assert noiseMap as object != octaveOffsets;
    maxNoiseHeight, minNoiseHeight := maxIn, minIn;
    assert done + row[..0] == done;
    var x := 0;
    while x < noiseMap.Length0
      invariant 0 <= x <= noiseMap.Length0
      invariant forall i, j :: 0 <= i < noiseMap.Length0 && 0 <= j < noiseMap.Length1 ==>
        noiseMap[i, j] == if j == y && i < x then Height(s, octaveOffsets[..], i, j) else old(noiseMap[i, j])
      invariant Extent(maxNoiseHeight, minNoiseHeight) == Track(done + row[..x])
    {
      var noiseHeight := CellHeight(s, octaveOffsets, x, y);
      assert done + row[..x + 1] == (done + row[..x]) + [noiseHeight];
      TrackAppend(done + row[..x], noiseHeight);
      if noiseHeight > maxNoiseHeight {
        maxNoiseHeight := noiseHeight;
      } else if noiseHeight < maxNoiseHeight {
        minNoiseHeight := noiseHeight;
      }
      noiseMap[x, y] := noiseHeight;
      x := x + 1;
    }
    assert row[..noiseMap.Length0] == row;
  }

  /** Second pass: every cell becomes `InverseLerp(min, max, cell)`. */
  method Normalize(noiseMap: array2<real>, minNoiseHeight: real, maxNoiseHeight: real)
    modifies noiseMap
    ensures forall x, y :: 0 <= x < noiseMap.Length0 && 0 <= y < noiseMap.Length1 ==>
      noiseMap[x, y] == InverseLerp(minNoiseHeight, maxNoiseHeight, old(noiseMap[x, y]))
  {
    var y := 0;
    while y < noiseMap.Length1
      invariant 0 <= y <= noiseMap.Length1
      invariant forall i, j :: 0 <= i < noiseMap.Length0 && 0 <= j < noiseMap.Length1 ==>
        noiseMap[i, j] == if j < y then InverseLerp(minNoiseHeight, maxNoiseHeight, old(noiseMap[i, j]))
                          else old(noiseMap[i, j])
    {
      var x := 0;
      while x < noiseMap.Length0
        invariant 0 <= x <= noiseMap.Length0
        invariant forall i, j :: 0 <= i < noiseMap.Length0 && 0 <= j < noiseMap.Length1 ==>
          noiseMap[i, j] == if j < y || (j == y && i < x) then InverseLerp(minNoiseHeight, maxNoiseHeight, old(noiseMap[i, j]))
                            else old(noiseMap[i, j])
      {
        noiseMap[x, y] := InverseLerp(minNoiseHeight, maxNoiseHeight, noiseMap[x, y]);
        x := x + 1;
      }
      y := y + 1;
    }
  }

  // ---------------------------------------------------------------------
  // The whole generator
  // ---------------------------------------------------------------------

  /** `Overflow` stands for the `OverflowException` C# raises when an array
      is allocated with a negative length. */
  datatype NoiseMapResult = Overflow | NoiseMap(heights: array2<real>)

  method GenerateNoiseMap(mapWidth: int, mapHeight: int, draws: seq<int>, scale: real, octaves: int,
                          persistance: real, lacunarity: real, offset: Vec2, noise: (real, real) -> real)
    returns (r: NoiseMapResult)
    requires 2 * octaves <= |draws|
    requires DrawsInRange(draws)
    ensures r.NoiseMap? <==> 0 <= octaves && 0 <= mapWidth && 0 <= mapHeight
    ensures r.NoiseMap? ==> r.heights.Length0 == mapWidth && r.heights.Length1 == mapHeight
    ensures r.NoiseMap? ==> fresh(r.heights)
    ensures r.NoiseMap? ==> forall x, y :: 0 <= x < mapWidth && 0 <= y < mapHeight ==>
      0.0 <= r.heights[x, y] <= 1.0
    ensures r.NoiseMap? ==>
      var s := SamplingOf(mapWidth, mapHeight, scale, persistance, lacunarity, noise);
      var offsets := OffsetsFrom(draws, offset, octaves);
      var e := Track(Visited(s, offsets, mapWidth, mapHeight));
      forall x, y :: 0 <= x < mapWidth && 0 <= y < mapHeight ==>
        r.heights[x, y] == InverseLerp(e.min, e.max, Height(s, offsets, x, y))
  {
    if octaves < 0 {
      return Overflow;
    }
    var octaveOffsets := OctaveOffsets(draws, octaves, offset);
    assert octaveOffsets[..] == OffsetsFrom(draws, offset, octaves);
    var sc := EffectiveScale(scale);
    var halfwidth := mapWidth as real / 2.0;
    var halfheight := mapHeight as real / 2.0;
    if mapWidth < 0 || mapHeight < 0 {
      return Overflow;
    }
    var noiseMap := new real[mapWidth, mapHeight];
    var s := Sampling(noise, Vec2(halfwidth, halfheight), sc, persistance, lacunarity);
    assert s == SamplingOf(mapWidth, mapHeight, scale, persistance, lacunarity, noise);
    ghost var offsets := octaveOffsets[..];
    ghost var e := Track(Visited(s, offsets, mapWidth, mapHeight));
    var maxNoiseHeight, minNoiseHeight := FillHeights(s, octaveOffsets, noiseMap);
    assert e == Extent(maxNoiseHeight, minNoiseHeight);
    Normalize(noiseMap, minNoiseHeight, maxNoiseHeight);
    assert forall x, y :: 0 <= x < mapWidth && 0 <= y < mapHeight ==>
      noiseMap[x, y] == InverseLerp(e.min, e.max, Height(s, offsets, x, y));
    r := NoiseMap(noiseMap);
  }

  // ---------------------------------------------------------------------
  // Properties of the range tracking
  // ---------------------------------------------------------------------

  /** The tracked maximum is the largest visited height, unless every height
      lies at or below the `float.MinValue` sentinel. */
  lemma {:induction false} TrackMaxIsMaximum(hs: seq<real>)
    ensures FloatMin <= Track(hs).max
    ensures forall k :: 0 <= k < |hs| ==> hs[k] <= Track(hs).max
    ensures Track(hs).max == FloatMin || exists k :: 0 <= k < |hs| && hs[k] == Track(hs).max
  {
    if |hs| > 0 {
      var p := hs[..|hs| - 1];
      TrackMaxIsMaximum(p);
      assert forall k :: 0 <= k < |p| ==> hs[k] == p[k];
      if Track(p).max != FloatMin && hs[|hs| - 1] <= Track(p).max {
        var k :| 0 <= k < |p| && p[k] == Track(p).max;
        assert hs[k] == Track(hs).max;
      }
    }
  }

  /** Index `j` is a dip when the height visited there is strictly below the
      running maximum of the heights visited before it. */
  predicate DipsAt(hs: seq<real>, j: int) {
    0 <= j < |hs| && hs[j] < Track(hs[..j]).max
  }

  /** Without a dip the tracked "minimum" keeps its `float.MaxValue`
      sentinel. */
  lemma {:induction false} TrackMinWithoutDip(hs: seq<real>)
    requires forall j :: 0 <= j < |hs| ==> !DipsAt(hs, j)
    ensures Track(hs).min == FloatMax
  {
    if |hs| > 0 {
      var p := hs[..|hs| - 1];
      forall j | 0 <= j < |p|
        ensures !DipsAt(p, j)
      {
        assert hs[..j] == p[..j];
        assert !DipsAt(hs, j);
      }
      TrackMinWithoutDip(p);
      assert !DipsAt(hs, |p|);
    }
  }

  /** The tracked "minimum" is the height at the last dip. It need not be the
      smallest height. */
  lemma {:induction false} TrackMinIsLastDip(hs: seq<real>, j: int)
    requires DipsAt(hs, j)
    requires forall k :: j < k < |hs| ==> !DipsAt(hs, k)
    ensures Track(hs).min == hs[j]
  {
    var n := |hs| - 1;
    var p := hs[..n];
    if j < n {
      assert DipsAt(p, j) by {
        assert hs[..j] == p[..j];
      }
      forall k | j < k < |p|
        ensures !DipsAt(p, k)
      {
        assert hs[..k] == p[..k];
        assert !DipsAt(hs, k);
      }
      TrackMinIsLastDip(p, j);
      assert !DipsAt(hs, n);
    }
  }

  /** The tracked minimum is either still the sentinel or strictly below the
      tracked maximum. */
  lemma {:induction false} TrackMinBelowMax(hs: seq<real>)
    ensures Track(hs).min == FloatMax || Track(hs).min < Track(hs).max
  {
    if |hs| > 0 {
      TrackMinBelowMax(hs[..|hs| - 1]);
    }
  }

  /** A largest height within float range normalises to exactly 1. */
  lemma MaxHeightNormalizesToOne(hs: seq<real>, k: int)
    requires 0 <= k < |hs|
    requires forall j :: 0 <= j < |hs| ==> hs[j] <= hs[k]
    requires InFloatRange(hs[k])
    ensures Track(hs).max == hs[k]
    ensures InverseLerp(Track(hs).min, Track(hs).max, hs[k]) == 1.0
  {
    TrackMaxIsMaximum(hs);
    TrackMinBelowMax(hs);
  }

  /** The tracked minimum is one of the visited heights, unless it is still
      the `float.MaxValue` sentinel. */
  lemma {:induction false} TrackMinIsAHeight(hs: seq<real>)
    ensures Track(hs).min == FloatMax || exists k :: 0 <= k < |hs| && hs[k] == Track(hs).min
  {
    if |hs| > 0 {
      var p := hs[..|hs| - 1];
      TrackMinIsAHeight(p);
      if Track(hs).min != FloatMax && Track(hs).min != hs[|hs| - 1] {
        var k :| 0 <= k < |p| && p[k] == Track(p).min;
        assert hs[k] == Track(hs).min;
      }
    }
  }

  /** Once some height has dipped (the minimum left its sentinel), a smallest
      height normalises to exactly 0: the tracked minimum is a height at or
      above it and below the maximum, and `InverseLerp` clamps. */
  lemma TrueMinNormalizesToZero(hs: seq<real>, k: int)
    requires 0 <= k < |hs|
    requires forall j :: 0 <= j < |hs| ==> hs[k] <= hs[j]
    requires Track(hs).min != FloatMax
    ensures hs[k] <= Track(hs).min < Track(hs).max
    ensures InverseLerp(Track(hs).min, Track(hs).max, hs[k]) == 0.0
  {
    TrackMinIsAHeight(hs);
    TrackMinBelowMax(hs);
  }

  /** When no height dipped, the minimum keeps its `float.MaxValue` sentinel
      and every height within float range normalises to exactly 1. */
  lemma NoDipNormalizesToOne(hs: seq<real>)
    requires Track(hs).min == FloatMax
    requires forall k :: 0 <= k < |hs| ==> InFloatRange(hs[k])
    ensures forall k :: 0 <= k < |hs| ==> InverseLerp(Track(hs).min, Track(hs).max, hs[k]) == 1.0
  {
    TrackMaxIsMaximum(hs);
    if |hs| > 0 {
      assert FloatMin < hs[0] <= Track(hs).max;
      var m :| 0 <= m < |hs| && hs[m] == Track(hs).max;
      assert Track(hs).max < FloatMax;
    }
  }

  /** Heights visited in strictly increasing order never dip, so the minimum
      keeps its `float.MaxValue` sentinel. */
  lemma {:induction false} RisingHeightsKeepMinSentinel(hs: seq<real>)
    requires forall i, j :: 0 <= i < j < |hs| ==> hs[i] < hs[j]
    requires forall k :: 0 <= k < |hs| ==> FloatMin < hs[k]
    ensures Track(hs).min == FloatMax
  {
    if |hs| > 0 {
      var p := hs[..|hs| - 1];
      RisingHeightsKeepMinSentinel(p);
      TrackMaxIsMaximum(p);
      if Track(p).max != FloatMin {
        var k :| 0 <= k < |p| && p[k] == Track(p).max;
        assert hs[k] < hs[|hs| - 1];
      }
    }
  }

  /** A visit order in which the tracked minimum is not the smallest height:
      0.0 is visited while the maximum is 1.0, then 0.5 dips later. */
  lemma TrackedMinIsNotTheMinimum()
    ensures Track([1.0, 0.0, 0.5]).min == 0.5
  {
    var hs := [1.0, 0.0, 0.5];
    assert hs[..2][..1] == [1.0];
    assert hs[..2] == [1.0, 0.0];
    assert Track([1.0]) == Extent(1.0, FloatMax);
  }

  // ---------------------------------------------------------------------
  // Properties of the grid
  // ---------------------------------------------------------------------

  /** Cell `(x, y)` is visited at position `y * width + x`. */
  lemma {:induction false} VisitedCell(s: Sampling, offsets: seq<Vec2>, width: nat, rows: nat, x: int, y: int)
    requires 0 <= x < width && 0 <= y < rows
    ensures |Visited(s, offsets, width, rows)| == width * rows
    ensures y * width + x < width * rows
    ensures Visited(s, offsets, width, rows)[y * width + x] == Height(s, offsets, x, y)
  {
    VisitedLength(s, offsets, width, rows);
    VisitedLength(s, offsets, width, rows - 1);
    CellIndexBound(width, rows, x, y);
    if y < rows - 1 {
      VisitedCell(s, offsets, width, rows - 1, x, y);
    } else {
      assert y * width == width * (rows - 1);
    }
  }

  lemma CellIndexBound(width: nat, rows: nat, x: int, y: int)
    requires 0 <= x < width && 0 <= y < rows
    ensures y * width + x < width * rows
  {
    var k := rows - 1 - y;
    assert rows == y + 1 + k;
    assert width * rows == width * y + width + width * k;
  }

  lemma {:induction false} VisitedLength(s: Sampling, offsets: seq<Vec2>, width: nat, rows: nat)
    ensures |Visited(s, offsets, width, rows)| == width * rows
  {
    if rows > 0 {
      VisitedLength(s, offsets, width, rows - 1);
      assert width * (rows - 1) + width == width * rows;
    }
  }

  /** Every visited height is the raw height of some cell of the grid. */
  lemma {:induction false} VisitedCovers(s: Sampling, offsets: seq<Vec2>, width: nat, rows: nat, k: int)
    requires 0 <= k < |Visited(s, offsets, width, rows)|
    ensures exists x, y ::
      0 <= x < width && 0 <= y < rows && Visited(s, offsets, width, rows)[k] == Height(s, offsets, x, y)
  {
    var p := Visited(s, offsets, width, rows - 1);
    if k < |p| {
      VisitedCovers(s, offsets, width, rows - 1, k);
    } else {
      assert Visited(s, offsets, width, rows)[k] == Height(s, offsets, k - |p|, rows - 1);
    }
  }

  /** A cell holding the largest raw height of the grid, within float range,
      normalises to exactly 1. */
  lemma GridMaxNormalizesToOne(s: Sampling, offsets: seq<Vec2>, width: nat, height: nat, x: int, y: int)
    requires 0 <= x < width && 0 <= y < height
    requires forall i, j :: 0 <= i < width && 0 <= j < height ==> Height(s, offsets, i, j) <= Height(s, offsets, x, y)
    requires InFloatRange(Height(s, offsets, x, y))
    ensures Track(Visited(s, offsets, width, height)).max == Height(s, offsets, x, y)
    ensures var e := Track(Visited(s, offsets, width, height));
      InverseLerp(e.min, e.max, Height(s, offsets, x, y)) == 1.0
  {
    var hs := Visited(s, offsets, width, height);
    VisitedCell(s, offsets, width, height, x, y);
    forall j | 0 <= j < |hs|
      ensures hs[j] <= hs[y * width + x]
    {
      VisitedCovers(s, offsets, width, height, j);
    }
    MaxHeightNormalizesToOne(hs, y * width + x);
  }

  /** A cell holding the smallest raw height of the grid normalises to
      exactly 0, unless no height ever dipped below the running maximum. */
  lemma GridMinNormalizesToZero(s: Sampling, offsets: seq<Vec2>, width: nat, height: nat, x: int, y: int)
    requires 0 <= x < width && 0 <= y < height
    requires forall i, j :: 0 <= i < width && 0 <= j < height ==> Height(s, offsets, x, y) <= Height(s, offsets, i, j)
    requires Track(Visited(s, offsets, width, height)).min != FloatMax
    ensures var e := Track(Visited(s, offsets, width, height));
      InverseLerp(e.min, e.max, Height(s, offsets, x, y)) == 0.0
  {
    var hs := Visited(s, offsets, width, height);
    VisitedCell(s, offsets, width, height, x, y);
    forall j | 0 <= j < |hs|
      ensures hs[y * width + x] <= hs[j]
    {
      VisitedCovers(s, offsets, width, height, j);
    }
    TrueMinNormalizesToZero(hs, y * width + x);
  }

  /** When no raw height ever dipped below the running maximum, every cell
      (within float range) normalises to exactly 1. */
  lemma GridWithoutDipNormalizesToOne(s: Sampling, offsets: seq<Vec2>, width: nat, height: nat, x: int, y: int)
    requires 0 <= x < width && 0 <= y < height
    requires forall i, j :: 0 <= i < width && 0 <= j < height ==> InFloatRange(Height(s, offsets, i, j))
    requires Track(Visited(s, offsets, width, height)).min == FloatMax
    ensures var e := Track(Visited(s, offsets, width, height));
      InverseLerp(e.min, e.max, Height(s, offsets, x, y)) == 1.0
  {
    var hs := Visited(s, offsets, width, height);
    VisitedCell(s, offsets, width, height, x, y);
    forall j | 0 <= j < |hs|
      ensures InFloatRange(hs[j])
    {
      VisitedCovers(s, offsets, width, height, j);
    }
    NoDipNormalizesToOne(hs);
  }

  /** Without octaves every visited height is 0. */
  lemma {:induction false} VisitedWithoutOctaves(s: Sampling, width: nat, rows: nat)
    ensures forall k :: 0 <= k < |Visited(s, [], width, rows)| ==> Visited(s, [], width, rows)[k] == 0.0
  {
    if rows > 0 {
      VisitedWithoutOctaves(s, width, rows - 1);
    }
  }

  lemma {:induction false} TrackOfZeros(hs: seq<real>)
    requires |hs| > 0
    requires forall k :: 0 <= k < |hs| ==> hs[k] == 0.0
    ensures Track(hs) == Extent(0.0, FloatMax)
  {
    if |hs| > 1 {
      TrackOfZeros(hs[..|hs| - 1]);
    }
  }

  /** With zero octaves every raw height is 0, the maximum becomes 0, the
      minimum keeps its `float.MaxValue` sentinel, and every cell normalises
      to exactly 1. */
  lemma ZeroOctavesNormalizeToOne(s: Sampling, width: nat, height: nat, x: int, y: int)
    requires 0 < width && 0 < height
    ensures Height(s, [], x, y) == 0.0
    ensures Track(Visited(s, [], width, height)) == Extent(0.0, FloatMax)
    ensures var e := Track(Visited(s, [], width, height));
      InverseLerp(e.min, e.max, Height(s, [], x, y)) == 1.0
  {
    VisitedLength(s, [], width, height);
    VisitedWithoutOctaves(s, width, height);
    TrackOfZeros(Visited(s, [], width, height));
  }
}
