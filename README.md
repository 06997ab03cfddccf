# LandGenerator terrain core in Dafny

This project models the part of the LandGenerator Unity project that computes:

- `Noise.GenerateNoiseMap` builds a `mapWidth` by `mapHeight` height map.
  - It draws one random offset pair per octave.
  - It sums `octaves` layers of Perlin noise per cell.
  - It tracks a running maximum and "minimum" in visit order.
  - It normalises every cell with `InverseLerp`.
- The classification loop of `MapGenerator.GenerateMap` colours each cell.
  - A cell takes the colour of the first terrain region whose height bound is at or above the cell's height.
  - The colour is written into a flat buffer at `y * mapHeight + x`.
- `MapGenerator.OnValidate` clamps the map settings.
- The `TerrainTypes` record.

Files:

- `noise.dfy` (module `Noise`) models the noise generator.
  - The array-filling loops are methods over `array`/`array2`.
  - Each method is proved against a specification function:
    - `Height` gives the octave sum of one cell.
    - `Visited` lists the heights in visit order (row by row).
    - `Track` is the running max/min fold.
  - Lemmas state what the fold actually computes.
- `map_generator.dfy` (module `MapGeneration`) models the rest.
  - `MapGenerator` is a class with the MonoBehaviour's settings fields.
  - `OnValidate` updates those fields in place.
  - `ColourMap` runs the classification loop over a fresh `array`.
  - `ColourMap` is specified by the fold `Paint` over the cells in visit order.
  - Lemmas say what `Paint` gives on square maps (every cell coloured at its own slot) and on tall maps (an out-of-range write).

Modelling choices:

- Single-precision floats are modelled as exact `real`s.
  - `float.MinValue` and `float.MaxValue` are the exact constants `FloatMin` and `FloatMax`.
- `Mathf.PerlinNoise` is the function parameter `noise`.
- The `System.Random` stream is the sequence `draws`, consumed two values per octave in order.
  - Each value lies in `[-10000, 10000)`, since `Next`'s upper bound is exclusive.
- C# raises an exception in two places, and both are modelled explicitly:
  - Allocating an array with a negative length gives the `Overflow` result of `GenerateNoiseMap`.
  - Writing outside the colour buffer makes `ColourMap` return `ok == false` and `Paint` return `None`.

Behaviour of the code that the model keeps, though a reader might expect otherwise:

- With `octaves == 0`, every height is 0 and the tracked extent is `(max 0, min float.MaxValue)`, so every cell normalises to exactly 1. It is not 0 or undefined (`ZeroOctavesNormalizeToOne`).
- Dimensions are not validated inside `GenerateNoiseMap`.
  - A zero dimension gives an empty map.
  - A negative one throws on allocation.
- The "minimum" is not the minimum.
  - `minNoiseHeight` is overwritten by every height below the current maximum.
  - The model keeps that: `TrackMinIsLastDip`, `TrackedMinIsNotTheMinimum`.
  - A smallest height still normalises to 0 once some height has dipped (`GridMinNormalizesToZero`). When none has, every cell normalises to 1 (`GridWithoutDipNormalizesToOne`).
- The random offsets lie in `[-10000, 10000)`, not in the closed range.

## Model

| member | source | states |
|---|---|---|
| Noise.InverseLerp | Assets/Scripts/Noise.cs:75 | Unity's `InverseLerp`. The result lies in [0, 1]. It is 0 for equal bounds, at `a` or on `a`'s side of the range, and 1 at `b` or past `b`. Between the bounds it is the exact fraction `(v - a) / (b - a)`. |
| Noise.OctaveOffsets | Assets/Scripts/Noise.cs:9-17 | One offset per octave. Octave `i` takes draws `2i` and `2i+1` plus the caller's offset. Each entry minus the offset lies in [-10000, 10000). |
| Noise.EffectiveScale | Assets/Scripts/Noise.cs:18-22 | The scale used is always positive. It equals the given scale exactly when that is positive; otherwise it is 0.0001. |
| Noise.CellHeight | Assets/Scripts/Noise.cs:39-55 | The octave loop returns `Height`. That is the sum over octaves of (Perlin × 2 − 1) × persistance^i, sampled at ((c − half) / scale × lacunarity^i + offset). |
| Noise.TrackAppend | Assets/Scripts/Noise.cs:58-65 | Tracking one more height applies exactly the source's if / else-if step to the extent so far. |
| Noise.FillRow | Assets/Scripts/Noise.cs:37-67 | Writes every cell of row `y` with its height and leaves other rows alone. The tracked extent becomes `Track` of the heights visited so far plus this row. |
| Noise.FillHeights | Assets/Scripts/Noise.cs:24-68 | Every cell holds its height. Starting from (float.MinValue, float.MaxValue), the returned pair is `Track` of all heights in visit order. |
| Noise.Normalize | Assets/Scripts/Noise.cs:70-77 | Every cell becomes `InverseLerp(min, max, old value)`. |
| Noise.GenerateNoiseMap | Assets/Scripts/Noise.cs:7-81 | A map exists exactly when octaves and both dimensions are non-negative; it is newly allocated and has `mapWidth` × `mapHeight` cells. Every cell lies in [0, 1] and equals `InverseLerp` of its octave-sum height between the tracked min and max. |
| Noise.TrackMaxIsMaximum | Assets/Scripts/Noise.cs:58-61 | The tracked max is at least every visited height. It is either the `float.MinValue` sentinel or one of the heights. |
| Noise.TrackMinIsLastDip | Assets/Scripts/Noise.cs:62-65 | The tracked min is the height at the last position that fell below the running max. |
| Noise.TrackMinWithoutDip | Assets/Scripts/Noise.cs:62-65 | When no height ever fell below the running max, the min stays `float.MaxValue`. |
| Noise.TrackMinIsAHeight | Assets/Scripts/Noise.cs:62-65 | The tracked min is either the `float.MaxValue` sentinel or one of the visited heights. |
| Noise.TrackMinBelowMax | Assets/Scripts/Noise.cs:58-65 | The tracked min is either still the sentinel or strictly below the tracked max. |
| Noise.RisingHeightsKeepMinSentinel | Assets/Scripts/Noise.cs:58-65 | When the heights strictly rise in visit order, the min is never assigned and stays `float.MaxValue`. |
| Noise.TrackedMinIsNotTheMinimum | Assets/Scripts/Noise.cs:58-65 | For heights 1, 0, 0.5 the tracked min is 0.5, not the true minimum 0. |
| Noise.TrueMinNormalizesToZero | Assets/Scripts/Noise.cs:62-65 | Once the min has left its sentinel, a smallest height lies at or below the tracked min, which lies below the max. That height normalises to 0 (line 75). |
| Noise.NoDipNormalizesToOne | Assets/Scripts/Noise.cs:58-65 | When the min is still the sentinel, every height within float range normalises to 1 (line 75). |
| Noise.MaxHeightNormalizesToOne | Assets/Scripts/Noise.cs:58-61 | A largest height (within float range) becomes the tracked max and normalises to 1 (line 75). |
| Noise.VisitedCell | Assets/Scripts/Noise.cs:35-37 | Cell `(x, y)` is visited at position `y * width + x` of the `width * rows` visits. |
| Noise.VisitedCovers | Assets/Scripts/Noise.cs:35-37 | Every visit position belongs to some cell of the map. |
| Noise.GridMaxNormalizesToOne | Assets/Scripts/Noise.cs:58-75 | A cell with the largest height of the map is the tracked max, and its normalised value is 1. |
| Noise.GridMinNormalizesToZero | Assets/Scripts/Noise.cs:58-75 | A cell with the smallest height of the map normalises to 0, unless no height ever fell below the running max. |
| Noise.GridWithoutDipNormalizesToOne | Assets/Scripts/Noise.cs:58-75 | When no height of the map ever fell below the running max, every cell within float range normalises to 1. |
| Noise.ZeroOctavesNormalizeToOne | Assets/Scripts/Noise.cs:41-43 | With no octaves, every height is 0. The extent is (max 0, min float.MaxValue), and every cell normalises to 1. |
| MapGeneration.FirstRegion | Assets/Scripts/MapGenerator.cs:106-113 | Finds the first region whose bound is at or above the height: every earlier bound lies below it. There is no match exactly when every bound lies below the height. |
| MapGeneration.FirstRegionIsFirstMatch | Assets/Scripts/MapGenerator.cs:106-113 | The index where the region loop breaks is the one `FirstRegion` gives. |
| MapGeneration.PaintRow | Assets/Scripts/MapGenerator.cs:103-114 | Painting the cells of a row keeps the buffer length. |
| MapGeneration.PaintRows | Assets/Scripts/MapGenerator.cs:101-115 | Painting the rows keeps the buffer length. |
| MapGeneration.PaintRowStep | Assets/Scripts/MapGenerator.cs:105-113 | One more cell of a row paints that cell onto the row so far. A cell with no matching region leaves the buffer unchanged. |
| MapGeneration.PaintCellInside | Assets/Scripts/MapGenerator.cs:108-111 | A matching cell whose slot is in range writes its region's colour at `y * mapHeight + x`. |
| MapGeneration.PaintCellOutside | Assets/Scripts/MapGenerator.cs:108-111 | A matching cell whose slot is out of range makes the whole classification fail. |
| MapGeneration.MapGenerator.ColourRow | Assets/Scripts/MapGenerator.cs:103-114 | The inner loops for one row either advance the buffer by exactly that row of `PaintRows`, or report a write that makes the whole classification fail. |
| MapGeneration.MapGenerator.ColourMap | Assets/Scripts/MapGenerator.cs:100-115 | The buffer is newly allocated and has `mapWidth * mapHeight` entries. `ok` holds exactly when `Paint` succeeds, and then the buffer equals `Paint`'s result. |
| MapGeneration.MapGenerator.OnValidate | Assets/Scripts/MapGenerator.cs:179-185 | Raises width and height to at least 1, lacunarity to at least 1 and octaves to at least 0. A setting already in range is left alone, so a second call changes nothing. |
| MapGeneration.MapGenerator.constructor | Assets/Scripts/MapGenerator.cs:34-44 | The field initialisers: a 100 by 100 map, every other setting at its default. |
| MapGeneration.PaintRowStaysFailed | Assets/Scripts/MapGenerator.cs:103-110 | Once a write in a row has failed, painting more cells of that row still fails. |
| MapGeneration.PaintRowsStaysFailed | Assets/Scripts/MapGenerator.cs:101-110 | Once a row has failed, painting more rows still fails. |
| MapGeneration.SquareSlotsInjective | Assets/Scripts/MapGenerator.cs:110 | On a square map, distinct cells write distinct slots inside the buffer. |
| MapGeneration.SquareSlotsSurjective | Assets/Scripts/MapGenerator.cs:110 | On a square map, every buffer slot is written by some cell. |
| MapGeneration.SquareRow | Assets/Scripts/MapGenerator.cs:103-114 | On a square map, painting row `y` succeeds. It gives each of that row's slots its cell's band colour and leaves every other slot unchanged. |
| MapGeneration.SquareRowsAt | Assets/Scripts/MapGenerator.cs:101-115 | On a square map, painting rows 0 to `rows - 1` succeeds, and the slot of each cell in those rows holds that cell's band colour. |
| MapGeneration.SquareRowsBeyond | Assets/Scripts/MapGenerator.cs:101-115 | On a square map, painting rows 0 to `rows - 1` succeeds and leaves every slot from `rows * mapHeight` on unchanged. |
| MapGeneration.SquareMapColoursEveryCell | Assets/Scripts/MapGenerator.cs:100-115 | On a square map, the classification succeeds. Slot `y * mapHeight + x` holds cell `(x, y)`'s first matching region colour, or the default colour when none matches. |
| MapGeneration.TallSlotOutside | Assets/Scripts/MapGenerator.cs:110 | When `mapWidth < mapHeight`, the last cell's slot is at or past `mapWidth * mapHeight`. |
| MapGeneration.TallMapFails | Assets/Scripts/MapGenerator.cs:100-115 | When `mapWidth < mapHeight` and the last cell matches a region, the loop writes past the buffer (C# throws). |
| MapGeneration.WideMapSlotsCollide | Assets/Scripts/MapGenerator.cs:110 | When `mapHeight < mapWidth`, cells `(mapHeight, 0)` and `(0, 1)` write the same slot, so one overwrites the other. |

## Left out

- Floating point.
  - Heights, the scale and the region bounds are exact reals.
  - Single-precision rounding is not modelled.
  - In floats, `InverseLerp(float.MaxValue, max, max)` and similar sums can round differently from the exact result.
- `Mathf.PerlinNoise` internals are not modelled. It is an arbitrary function parameter, so nothing is assumed about its range.
- The `System.Random` algorithm and the `seed` argument are not modelled. The draws are a parameter. The `seed` field is kept on the class but no generator consumes it.
- 32-bit integer overflow is not modelled: neither `mapWidth * mapHeight` nor the slot `y * mapHeight + x` wraps. Both are unbounded integers.
- `GenerateMap`'s own call to `GenerateNoiseMap` (line 98) is not modelled. `ColourMap` takes the noise map as a parameter.
- Rendering is not modelled: `MapDisplay`, `TextureGenerator` and the draw-mode branch (lines 117-125).
- The UI is not modelled: `Start`, the slider/input/toggle listeners and their `GenerateMap` triggers, `int.TryParse` and `Mathf.RoundToInt`. These are Unity UI plumbing.
- `TerrainTypes.name` is carried as a field but never read, as in the source.
- MapGeneration.PaintRow: in a non-square map, which colour wins a slot written twice is stated only through the fold itself. There is no per-slot lemma for that case.
- MapGeneration.PaintRows: in a non-square map, which colour wins a slot written twice is stated only through the fold itself. There is no per-slot lemma for that case.
- Unity's source for `Mathf.InverseLerp` is not part of this model. `InverseLerp` follows Unity's documented behaviour: a clamped fraction, and 0 when the bounds coincide.
