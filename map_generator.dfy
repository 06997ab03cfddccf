/** Model of the part of `MapGenerator` that computes: the terrain-band
    classification of a noise map into a flat colour buffer (inside
    `GenerateMap`) and the clamping of settings in `OnValidate`. Unity's
    `Color` is the type parameter `C`. */
module MapGeneration {
  import opened Noise

  datatype Option<T> = None | Some(value: T)

  /** `TerrainTypes`: a named band with an upper height bound and a colour. */
  datatype TerrainType<C> = TerrainType(name: string, height: real, colour: C)

  /** The index of the first region whose height bound is at or above `v`,
      or `None` when `v` lies above every bound. */
  function FirstRegion<C>(regions: seq<TerrainType<C>>, v: real): (r: Option<nat>)
    ensures r.Some? ==> r.value < |regions| && v <= regions[r.value].height
    ensures r.Some? ==> forall j :: 0 <= j < r.value ==> regions[j].height < v
    ensures r.None? <==> forall j :: 0 <= j < |regions| ==> regions[j].height < v
  {
    if |regions| == 0 then None
    else if v <= regions[0].height then Some(0)
    else match FirstRegion(regions[1..], v)
      case None => None
      case Some(i) => Some(i + 1)
  }

  /** The colour a cell of height `v` ends up with when nothing else writes
      its slot: its band's colour, or `otherwise` when no band matches. */
  function BandColour<C>(regions: seq<TerrainType<C>>, v: real, otherwise: C): C {
    match FirstRegion(regions, v)
    case Some(i) => regions[i].colour
    case None => otherwise
  }

  /** The buffer slot cell `(x, y)` writes: `y * mapHeight + x`. */
  function Slot(x: int, y: int, mapHeight: int): int {
    y * mapHeight + x
  }

  // ---------------------------------------------------------------------
  // The classification, as a fold over the cells in visit order
  // ---------------------------------------------------------------------

  /** One cell: the colour of its first matching region goes to `slot`; no
      match leaves the buffer alone; a write outside the buffer fails, as
      C# raises `IndexOutOfRangeException`. */
  function PaintCell<C>(buf: seq<C>, regions: seq<TerrainType<C>>, v: real, slot: int): Option<seq<C>> {
    match FirstRegion(regions, v)
    case None => Some(buf)
    case Some(i) => if 0 <= slot < |buf| then Some(buf[slot := regions[i].colour]) else None
  }

  /** Cells `(0, y)` to `(x - 1, y)` of the map, painted in order onto `buf`. */
  function PaintRow<C>(m: array2<real>, regions: seq<TerrainType<C>>, buf: seq<C>, y: int, x: nat): (r: Option<seq<C>>)
    requires 0 <= y < m.Length1 && x <= m.Length0
    reads m
    ensures r.Some? ==> |r.value| == |buf|
  {
    if x == 0 then Some(buf)
    else match PaintRow(m, regions, buf, y, x - 1)
      case None => None
      case Some(b) => PaintCell(b, regions, m[x - 1, y], Slot(x - 1, y, m.Length1))
  }

  /** Rows `0` to `rows - 1` of the map, painted in order onto `buf`. */
  function PaintRows<C>(m: array2<real>, regions: seq<TerrainType<C>>, buf: seq<C>, rows: nat): (r: Option<seq<C>>)
    requires rows <= m.Length1
    reads m
    ensures r.Some? ==> |r.value| == |buf|
  {
    if rows == 0 then Some(buf)
    else match PaintRows(m, regions, buf, rows - 1)
      case None => None
      case Some(b) => PaintRow(m, regions, b, rows - 1, m.Length0)
  }

  function Blank<C>(n: nat, blank: C): seq<C> {
    seq(n, _ => blank)
  }

  /** The whole classification: every cell painted onto a fresh buffer of
      `Length0 * Length1` default colours. */
  function Paint<C>(m: array2<real>, regions: seq<TerrainType<C>>, blank: C): Option<seq<C>>
    reads m
  {
    PaintRows(m, regions, Blank(m.Length0 * m.Length1, blank), m.Length1)
  }

  // ---------------------------------------------------------------------
  // The MonoBehaviour
  // ---------------------------------------------------------------------

  class MapGenerator<C> {
    var mapWidth: int
    var mapHeight: int
    var noiseScale: real
    var octaves: int
    var persistance: real
    var lacunarity: real
    var seed: int
    var offset: Vec2
    var autoUpdate: bool
    var regions: seq<TerrainType<C>>

    /** The field initialisers: a 100 by 100 map, every other setting at its
        default value, and the region table the inspector supplies. */
    constructor (regions: seq<TerrainType<C>>)
      ensures mapWidth == 100 && mapHeight == 100
      ensures noiseScale == 0.0 && octaves == 0 && persistance == 0.0 && lacunarity == 0.0
      ensures seed == 0 && offset == Vec2(0.0, 0.0) && !autoUpdate
      ensures this.regions == regions
    {
      mapWidth, mapHeight := 100, 100;
      noiseScale, octaves, persistance, lacunarity := 0.0, 0, 0.0, 0.0;
      seed, offset, autoUpdate := 0, Vec2(0.0, 0.0), false;
      this.regions := regions;
    }

    /** The ranges `OnValidate` enforces. */
    predicate Validated()
      reads this
    {
      1 <= mapWidth && 1 <= mapHeight && 1.0 <= lacunarity && 0 <= octaves
    }

    /** Raises each of the four settings to the bottom of its range; a setting
        already in range is left alone, so a second call changes nothing. */
    method OnValidate()
      modifies this`mapWidth, this`mapHeight, this`lacunarity, this`octaves
      ensures Validated()
      ensures mapWidth == if old(mapWidth) < 1 then 1 else old(mapWidth)
      ensures mapHeight == if old(mapHeight) < 1 then 1 else old(mapHeight)
      ensures lacunarity == if old(lacunarity) < 1.0 then 1.0 else old(lacunarity)
      ensures octaves == if old(octaves) < 0 then 0 else old(octaves)
      ensures old(Validated()) ==> unchanged(this)
    {
      if mapWidth < 1 { mapWidth := 1; }
      if mapHeight < 1 { mapHeight := 1; }
      if lacunarity < 1.0 { lacunarity := 1.0; }
      if octaves < 0 { octaves := 0; }
    }

    /** The classification loop of `GenerateMap`: for each cell, in visit
        order, the first region whose bound is at or above the cell's height
        gives the colour written at `y * mapHeight + x`. `ok` is false when a
        write falls outside the buffer, where C# raises
        `IndexOutOfRangeException`. */
    method ColourMap(noiseMap: array2<real>, blank: C) returns (ok: bool, colourMap: array<C>)
      requires noiseMap.Length0 == mapWidth && noiseMap.Length1 == mapHeight
      ensures fresh(colourMap)
      ensures colourMap.Length == mapWidth * mapHeight
      ensures ok <==> Paint(noiseMap, regions, blank).Some?
      ensures ok ==> colourMap[..] == Paint(noiseMap, regions, blank).value
    {
      colourMap := new C[mapWidth * mapHeight](_ => blank);
      ghost var init := colourMap[..];
      assert init == Blank(mapWidth * mapHeight, blank);
      var y := 0;
      while y < mapHeight
        invariant 0 <= y <= mapHeight
        invariant PaintRows(noiseMap, regions, init, y) == Some(colourMap[..])
      {
        ok := ColourRow(noiseMap, colourMap, y, init);
        if !ok {
          return false, colourMap;
        }
        y := y + 1;
      }
      ok := true;
    }

    /** The inner loops for row `y`: each cell of the row, in increasing `x`,
        takes its first matching region's colour. `ok` is false when a write
        falls outside the buffer, and then the whole classification fails. */
    method ColourRow(noiseMap: array2<real>, colourMap: array<C>, y: int, ghost init: seq<C>) returns (ok: bool)
      requires noiseMap.Length0 == mapWidth && noiseMap.Length1 == mapHeight
      requires 0 <= y < mapHeight
      requires PaintRows(noiseMap, regions, init, y) == Some(colourMap[..])
      modifies colourMap
      ensures ok ==> PaintRows(noiseMap, regions, init, y + 1) == Some(colourMap[..])
      ensures !ok ==> PaintRows(noiseMap, regions, init, mapHeight).None?
    {
      ghost var rowStart := colourMap[..];
      assert noiseMap as object != colourMap;
      var x := 0;
      while x < mapWidth
        invariant 0 <= x <= mapWidth
        invariant PaintRow(noiseMap, regions, rowStart, y, x) == Some(colourMap[..])
      {
        var currentHeight := noiseMap[x, y];
        ghost var before := colourMap[..];
        PaintRowStep(noiseMap, regions, rowStart, before, y, x);
        var i := 0;
        while i < |regions|
          invariant 0 <= i <= |regions|
          invariant forall j :: 0 <= j < i ==> regions[j].height < currentHeight
          invariant colourMap[..] == before
        {
          if currentHeight <= regions[i].height {
            if y * mapHeight + x >= colourMap.Length {
              PaintCellOutside(noiseMap, regions, init, rowStart, before, y, x, i);
              return false;
            }
            colourMap[y * mapHeight + x] := regions[i].colour;
            PaintCellInside(noiseMap, regions, rowStart, before, y, x, i);
            break;
          }
          i := i + 1;
        }
        x := x + 1;
      }
      ok := true;
    }
  }

  // ---------------------------------------------------------------------
  // Properties of the classification
  // ---------------------------------------------------------------------

  /** Painting one more cell of a row paints that cell onto the row so far. */
  lemma PaintRowStep<C>(m: array2<real>, regions: seq<TerrainType<C>>, rowStart: seq<C>, before: seq<C>, y: int, x: int)
    requires 0 <= y < m.Length1 && 0 <= x < m.Length0
    requires PaintRow(m, regions, rowStart, y, x) == Some(before)
    ensures PaintRow(m, regions, rowStart, y, x + 1) == PaintCell(before, regions, m[x, y], Slot(x, y, m.Length1))
    ensures FirstRegion(regions, m[x, y]).None? ==> PaintRow(m, regions, rowStart, y, x + 1) == Some(before)
  {
  }

  /** A matching cell whose slot lies inside the buffer: painting it writes
      that region's colour at the slot. */
  lemma PaintCellInside<C>(m: array2<real>, regions: seq<TerrainType<C>>, rowStart: seq<C>, before: seq<C>, y: int, x: int, i: nat)
    requires 0 <= y < m.Length1 && 0 <= x < m.Length0
    requires PaintRow(m, regions, rowStart, y, x) == Some(before)
    requires i < |regions| && m[x, y] <= regions[i].height
    requires forall j :: 0 <= j < i ==> regions[j].height < m[x, y]
    requires 0 <= Slot(x, y, m.Length1) < |before|
    ensures PaintRow(m, regions, rowStart, y, x + 1) == Some(before[Slot(x, y, m.Length1) := regions[i].colour])
  {
    FirstRegionIsFirstMatch(regions, m[x, y], i);
  }

  /** A matching cell whose slot lies past the buffer: the whole
      classification fails. */
  lemma PaintCellOutside<C>(m: array2<real>, regions: seq<TerrainType<C>>, init: seq<C>, rowStart: seq<C>, before: seq<C>, y: int, x: int, i: nat)
    requires 0 <= y < m.Length1 && 0 <= x < m.Length0
    requires PaintRows(m, regions, init, y) == Some(rowStart)
    requires PaintRow(m, regions, rowStart, y, x) == Some(before)
    requires i < |regions| && m[x, y] <= regions[i].height
    requires forall j :: 0 <= j < i ==> regions[j].height < m[x, y]
    requires Slot(x, y, m.Length1) >= |before|
    ensures PaintRows(m, regions, init, m.Length1).None?
  {
    FirstRegionIsFirstMatch(regions, m[x, y], i);
    assert PaintRow(m, regions, rowStart, y, x + 1) == None;
    PaintRowStaysFailed(m, regions, rowStart, y, x + 1, m.Length0);
    assert PaintRows(m, regions, init, y + 1) == None;
    PaintRowsStaysFailed(m, regions, init, y + 1, m.Length1);
  }

  /** `FirstRegion` finds exactly the first region whose bound is at or
      above `v`. */
  lemma FirstRegionIsFirstMatch<C>(regions: seq<TerrainType<C>>, v: real, i: nat)
    requires i < |regions| && v <= regions[i].height
    requires forall j :: 0 <= j < i ==> regions[j].height < v
    ensures FirstRegion(regions, v) == Some(i)
  {
  }

  lemma {:induction false} PaintRowStaysFailed<C>(m: array2<real>, regions: seq<TerrainType<C>>, buf: seq<C>, y: int, x: nat, x': nat)
    requires 0 <= y < m.Length1 && x <= x' <= m.Length0
    requires PaintRow(m, regions, buf, y, x).None?
    ensures PaintRow(m, regions, buf, y, x').None?
    decreases x' - x
  {
    if x < x' {
      PaintRowStaysFailed(m, regions, buf, y, x, x' - 1);
    }
  }

  lemma {:induction false} PaintRowsStaysFailed<C>(m: array2<real>, regions: seq<TerrainType<C>>, buf: seq<C>, rows: nat, rows': nat)
    requires rows <= rows' <= m.Length1
    requires PaintRows(m, regions, buf, rows).None?
    ensures PaintRows(m, regions, buf, rows').None?
    decreases rows' - rows
  {
    if rows < rows' {
      PaintRowsStaysFailed(m, regions, buf, rows, rows' - 1);
    }
  }

  /** On a square map the slots of distinct cells are distinct and inside
      the buffer. */
  lemma SquareSlotsInjective(n: nat, x: int, y: int, x': int, y': int)
    requires 0 <= x < n && 0 <= y < n && 0 <= x' < n && 0 <= y' < n
    ensures 0 <= Slot(x, y, n) < n * n
    ensures Slot(x, y, n) == Slot(x', y', n) ==> x == x' && y == y'
  {
    CellIndexBound(n, n, x, y);
    if y < y' {
      CellIndexBound(n, y', x, y);
    } else if y' < y {
      CellIndexBound(n, y, x', y');
    }
  }

  /** On a square map every slot of the buffer belongs to a cell. */
  lemma SquareSlotsSurjective(n: nat, k: int)
    requires 0 <= k < n * n
    ensures 0 <= k % n < n && 0 <= k / n < n
    ensures Slot(k % n, k / n, n) == k
  {
  }

  /** Painting row `y` of a square map writes exactly the slots of that row,
      each with its cell's band colour. */
  lemma {:induction false} SquareRow<C>(m: array2<real>, regions: seq<TerrainType<C>>, b: seq<C>, y: int, x: nat)
    requires m.Length0 == m.Length1 && |b| == m.Length0 * m.Length1
    requires 0 <= y < m.Length1 && x <= m.Length0
    ensures PaintRow(m, regions, b, y, x).Some?
    ensures forall k :: 0 <= k < |b| ==>
      PaintRow(m, regions, b, y, x).value[k] ==
        if y * m.Length1 <= k < y * m.Length1 + x then BandColour(regions, m[k - y * m.Length1, y], b[k]) else b[k]
  {
    if x > 0 {
      var n := m.Length1;
      SquareRow(m, regions, b, y, x - 1);
      SquareSlotsInjective(n, x - 1, y, x - 1, y);
      var prev := PaintRow(m, regions, b, y, x - 1).value;
      assert prev[Slot(x - 1, y, n)] == b[Slot(x - 1, y, n)];
    }
  }

  /** Painting the first `rows` rows of a square map leaves every later
      slot alone. */
  lemma {:induction false} SquareRowsBeyond<C>(m: array2<real>, regions: seq<TerrainType<C>>, b: seq<C>, rows: nat, k: int)
    requires m.Length0 == m.Length1 && |b| == m.Length0 * m.Length1 && rows <= m.Length1
    requires rows * m.Length1 <= k < |b|
    ensures PaintRows(m, regions, b, rows).Some?
    ensures PaintRows(m, regions, b, rows).value[k] == b[k]
  {
    if rows > 0 {
      var n := m.Length1;
      NextRowStart(n, rows - 1);
      SquareRowsBeyond(m, regions, b, rows - 1, k);
      SquareRow(m, regions, PaintRows(m, regions, b, rows - 1).value, rows - 1, n);
    }
  }

  /** Painting the first `rows` rows of a square map gives the slot of each
      cell in those rows the cell's band colour. */
  lemma {:induction false} SquareRowsAt<C>(m: array2<real>, regions: seq<TerrainType<C>>, b: seq<C>, rows: nat, x: int, y: int)
    requires m.Length0 == m.Length1 && |b| == m.Length0 * m.Length1 && rows <= m.Length1
    requires 0 <= x < m.Length0 && 0 <= y < rows
    ensures PaintRows(m, regions, b, rows).Some?
    ensures Slot(x, y, m.Length1) < |b|
    ensures PaintRows(m, regions, b, rows).value[Slot(x, y, m.Length1)] == BandColour(regions, m[x, y], b[Slot(x, y, m.Length1)])
  {
    var n, y0 := m.Length1, rows - 1;
    SquareSlotsInjective(n, x, y, x, y);
    if y == y0 {
      SquareRowsBeyond(m, regions, b, y, Slot(x, y, n));
    } else {
      SquareRowsAt(m, regions, b, y0, x, y);
      CellIndexBound(n, y0, x, y);
    }
    SquareRow(m, regions, PaintRows(m, regions, b, y0).value, y0, n);
  }

  lemma NextRowStart(n: int, y: int)
    ensures y * n + n == (y + 1) * n
  {
  }

  /** On a square map the classification never fails, and the slot of cell
      `(x, y)` holds the colour of the cell's first matching region, or the
      default colour when no region matches. */
  lemma SquareMapColoursEveryCell<C>(m: array2<real>, regions: seq<TerrainType<C>>, blank: C, x: int, y: int)
    requires m.Length0 == m.Length1
    requires 0 <= x < m.Length0 && 0 <= y < m.Length1
    ensures Paint(m, regions, blank).Some?
    ensures Paint(m, regions, blank).value[Slot(x, y, m.Length1)] == BandColour(regions, m[x, y], blank)
  {
    var b := Blank(m.Length0 * m.Length1, blank);
    SquareRowsAt(m, regions, b, m.Length1, x, y);
    var k := Slot(x, y, m.Length1);
    assert b[k] == blank;
    assert Paint(m, regions, blank) == PaintRows(m, regions, b, m.Length1);
  }

  /** On a map taller than it is wide, the last cell's slot lies past the end
      of the buffer, so the classification fails whenever that cell matches
      a region. */
  lemma TallMapFails<C>(m: array2<real>, regions: seq<TerrainType<C>>, blank: C)
    requires 1 <= m.Length0 < m.Length1
    requires FirstRegion(regions, m[m.Length0 - 1, m.Length1 - 1]).Some?
    ensures Paint(m, regions, blank).None?
  {
    var w, h := m.Length0, m.Length1;
    TallSlotOutside(w, h);
    var rows := PaintRows(m, regions, Blank(w * h, blank), h - 1);
    if rows.Some? {
      var cells := PaintRow(m, regions, rows.value, h - 1, w - 1);
      if cells.Some? {
        assert PaintRow(m, regions, rows.value, h - 1, w) == PaintCell(cells.value, regions, m[w - 1, h - 1], Slot(w - 1, h - 1, h));
      }
    }
  }

  /** The last cell of a tall map writes past the end of the buffer. */
  lemma TallSlotOutside(w: int, h: int)
    requires 1 <= w < h
    ensures Slot(w - 1, h - 1, h) >= w * h
  {
    assert Slot(w - 1, h - 1, h) - w * h == (h - 1) * (h - w) - 1;
    assert (h - 1) * (h - w) >= 1 by {
      assert h - 1 >= 1 && h - w >= 1;
    }
  }

  /** On a map wider than it is tall (and at least two rows high), cells
      `(mapHeight, 0)` and `(0, 1)` write the same slot. */
  lemma WideMapSlotsCollide(mapWidth: int, mapHeight: int)
    requires 2 <= mapHeight < mapWidth
    ensures Slot(mapHeight, 0, mapHeight) == Slot(0, 1, mapHeight)
  {
  }
}
