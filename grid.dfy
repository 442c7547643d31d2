/** Spatial partitioning of a bounding box into named sections:
    `divide_region_into_sections` (a rows x cols grid with the eastern-column
    translation) and `divide_gaza_into_sections` (a target section count).
    Coordinates are degrees as `real`; the arithmetic is exact. */
module Grid {
  import opened Common
  import opened Borders
  datatype Center = Center(lat: real, lon: real)
  datatype Section = Section(id: string, bounds: GeoBounds, center: Center)

  /** The exceptions the partitioners raise: a division by a zero grid
      dimension or span, and `math.sqrt` of a negative ratio. */
  datatype GridError = ZeroDivisionError | ValueError

  /** `f"section_{n}"`. */
  function SectionId(n: nat): string
  {
    "section_" + NatToString(n)
  }

  lemma {:induction false} SectionIdInjective(a: nat, b: nat)
    ensures SectionId(a) == SectionId(b) <==> a == b
  {
    if SectionId(a) == SectionId(b) {
      assert NatToString(a) == SectionId(a)[8..] == SectionId(b)[8..] == NatToString(b);
      NatToStringInjective(a, b);
    }
  }

  /** Multiplying by a positive number keeps a strict order at least one factor apart. */
  lemma MulMono(a: int, b: int, d: int)
    requires d > 0 && a < b
    ensures a * d + d <= b * d
  {
    assert (b - a) * d >= d by {
      var e := b - a;
      assert e * d == (e - 1) * d + d;
      assert (e - 1) * d >= 0;
    }
    assert b * d - a * d == (b - a) * d;
  }

  /** Quotient and remainder are unique. */
  lemma DivModUnique(k: int, d: int, q: int, r: int)
    requires d > 0 && 0 <= r < d && k == q * d + r
    ensures k / d == q && k % d == r
  {
    var q', r' := k / d, k % d;
    assert k == q' * d + r';
    if q' < q {
      MulMono(q', q, d);
    } else if q < q' {
      MulMono(q, q', d);
    }
  }

  /** Row-major index arithmetic: cell (i, j) of a grid with `cols` columns has
      index i * cols + j, and that index determines the cell. */
  lemma RowMajor(i: int, j: int, cols: int)
    requires cols > 0 && 0 <= i && 0 <= j < cols
    ensures 0 <= i * cols + j
    ensures (i * cols + j) / cols == i && (i * cols + j) % cols == j
  {
    assert i * cols >= 0;
    DivModUnique(i * cols + j, cols, i, j);
  }

  /** A row-major index splits into its row k / cols and column k % cols. */
  lemma SplitIndex(k: int, cols: int)
    requires cols > 0 && k >= 0
    ensures 0 <= k / cols && 0 <= k % cols < cols && (k / cols) * cols + k % cols == k
  {
  }

  /** Grid lines k and k + 1 of a regular grid are one step apart. */
  lemma StepDiff(k: int, step: real)
    ensures (k + 1) as real * step - k as real * step == step
  {
  }

  /** n steps of span / n cover the span. */
  lemma SpanSplit(n: int, span: real)
    requires n > 0
    ensures n as real * (span / n as real) == span
    ensures span >= 0.0 ==> span / n as real >= 0.0
  {
  }

  /** Grid line k of a regular grid from `lo` with spacing `step`: `lo + k * step`. */
  function Edge(lo: real, k: int, step: real): real
  {
    lo + k as real * step
  }

  /** The longitude multiplier `divide_region_into_sections` applies to cell
      (i, j): only column 1 is shifted, by 3.0 in row 1, 1.5 in row 0 and 1.0 in
      every other row. */
  function ShiftMultiplier(i: int, j: int): real
  {
    if j != 1 then 0.0 else if i == 1 then 3.0 else if i == 0 then 1.5 else 1.0
  }

  /** A section moved east by `d` degrees: both longitude bounds and the center. */
  function Translated(s: Section, d: real): Section
  {
    s.(bounds := s.bounds.(minLon := s.bounds.minLon + d, maxLon := s.bounds.maxLon + d),
       center := s.center.(lon := s.center.lon + d))
  }

  /** The box of cell (i, j) of `divide_region_into_sections`, as the loop
      body computes it: the row's latitude band and the column's longitude
      band, moved east by the row's share of `shift` in column 1. */
  function CellBounds(b: GeoBounds, rows: int, cols: int, shift: real, i: int, j: int): GeoBounds
    requires rows > 0 && cols > 0
  {
    var latStep := (b.maxLat - b.minLat) / rows as real;
    var lonStep := (b.maxLon - b.minLon) / cols as real;
    var minLat := Edge(b.minLat, i, latStep);
    var maxLat := Edge(b.minLat, i + 1, latStep);
    var (minLon, maxLon) :=
      if j == 1 then
        var current := if i == 1 && j == 1 then shift * 3.0 else if i == 0 && j == 1 then shift * 1.5 else shift;
        (Edge(b.minLon, j, lonStep) + current, Edge(b.minLon, j + 1, lonStep) + current)
      else
        (Edge(b.minLon, j, lonStep), Edge(b.minLon, j + 1, lonStep));
    GeoBounds(minLat, maxLat, minLon, maxLon)
  }

  /** The center a section records: the midpoint of its box. */
  function Midpoint(g: GeoBounds): Center
  {
    Center((g.minLat + g.maxLat) / 2.0, (g.minLon + g.maxLon) / 2.0)
  }

  /** Cell (i, j) of `divide_region_into_sections`: named after its row-major
      index, with its box and that box's midpoint. */
  function RegionCell(b: GeoBounds, rows: int, cols: int, shift: real, i: int, j: int): (s: Section)
    requires rows > 0 && cols > 0 && 0 <= i && 0 <= j < cols
  {
    RowMajor(i, j, cols);
    var bounds := CellBounds(b, rows, cols, shift, i, j);
    Section(SectionId(i * cols + j), bounds, Midpoint(bounds))
  }

  /** The whole grid in the order the loops emit it: index k is row k / cols,
      column k % cols. */
  function RegionGrid(b: GeoBounds, rows: int, cols: int, shift: real): (g: seq<Section>)
    requires rows > 0 && cols > 0
  {
    seq(rows * cols, k requires 0 <= k < rows * cols => RegionCell(b, rows, cols, shift, k / cols, k % cols))
  }

  /** The outcome of `divide_region_into_sections`: a zero dimension raises
      ZeroDivisionError when the step is computed, a negative one gives an
      empty `range`, and otherwise the grid is emitted in row-major order. */
  function RegionSections(b: GeoBounds, rows: int, cols: int, shift: real): (r: Result<seq<Section>, GridError>)
    ensures r.Err? <==> rows == 0 || cols == 0
    ensures r.Ok? && (rows < 0 || cols < 0) ==> r.value == []
  {
    if rows == 0 || cols == 0 then Err(ZeroDivisionError)
    else if rows < 0 || cols < 0 then Ok([])
    else Ok(RegionGrid(b, rows, cols, shift))
  }

  /** `divide_region_into_sections`, with the eastern shift passed in. */
  method DivideRegionIntoSections(b: GeoBounds, rows: int, cols: int, shift: real)
    returns (r: Result<seq<Section>, GridError>)
    ensures r == RegionSections(b, rows, cols, shift)
  {
    if rows == 0 || cols == 0 {
      return Err(ZeroDivisionError);
    }
    if rows < 0 || cols < 0 {
      return Ok([]);   // `range` of a negative count is empty
    }
    ghost var all := RegionGrid(b, rows, cols, shift);
    var sections: seq<Section> := [];
    var i := 0;
    while i < rows
      invariant 0 <= i <= rows
      invariant |sections| == i * cols <= rows * cols
      invariant sections == all[..i * cols]
    {
      sections := RegionRow(b, rows, cols, shift, i, sections);
      assert (i + 1) * cols == i * cols + cols;
      MulMono(i, rows, cols);
      i := i + 1;
    }
    assert sections == all;
    return Ok(sections);
  }

  /** One pass of the `for j in range(cols)` loop over row i: the row's cells,
      column 1 moved east by its share of `shift`. */
  method RegionRow(b: GeoBounds, rows: int, cols: int, shift: real, i: int, sections0: seq<Section>)
    returns (sections: seq<Section>)
    requires rows > 0 && cols > 0 && 0 <= i < rows
    requires |sections0| == i * cols && sections0 == RegionGrid(b, rows, cols, shift)[..i * cols]
    ensures |sections| == i * cols + cols <= rows * cols
    ensures sections == RegionGrid(b, rows, cols, shift)[..i * cols + cols]
  {
    MulMono(i, rows, cols);
    var latStep := (b.maxLat - b.minLat) / rows as real;
    var lonStep := (b.maxLon - b.minLon) / cols as real;
    sections := sections0;
    var index := i * cols;
    var j := 0;
    while j < cols
      invariant 0 <= j <= cols
      invariant index == |sections| == i * cols + j
      invariant sections == RegionGrid(b, rows, cols, shift)[..index]
    {
      var minLat := Edge(b.minLat, i, latStep);
      var maxLat := Edge(b.minLat, i + 1, latStep);
      var minLon, maxLon;
      if j == 1 {
        var current;
        if i == 1 && j == 1 {
          current := shift * 3.0;
        } else if i == 0 && j == 1 {
          current := shift * 1.5;
        } else {
          current := shift;
        }
        minLon := Edge(b.minLon, j, lonStep) + current;
        maxLon := Edge(b.minLon, j + 1, lonStep) + current;
      } else {
        minLon := Edge(b.minLon, j, lonStep);
        maxLon := Edge(b.minLon, j + 1, lonStep);
      }
      var centerLat := (minLat + maxLat) / 2.0;
      var centerLon := (minLon + maxLon) / 2.0;
      var section := Section(SectionId(index), GeoBounds(minLat, maxLat, minLon, maxLon), Center(centerLat, centerLon));
      assert section.bounds == CellBounds(b, rows, cols, shift, i, j);
      RegionEmitStep(b, rows, cols, shift, i, j);
      sections := sections + [section];
      index := index + 1;
      j := j + 1;
    }
  }

  /** Cell (i, j) is found at index i * cols + j and is named `section_{i*cols+j}`;
      distinct cells have distinct names. */
  lemma RegionGridOrder(b: GeoBounds, rows: int, cols: int, shift: real, i: int, j: int)
    requires rows > 0 && cols > 0 && 0 <= i < rows && 0 <= j < cols
    ensures 0 <= i * cols + j < |RegionGrid(b, rows, cols, shift)| == rows * cols
    ensures RegionGrid(b, rows, cols, shift)[i * cols + j] == RegionCell(b, rows, cols, shift, i, j)
    ensures RegionGrid(b, rows, cols, shift)[i * cols + j].id == SectionId(i * cols + j)
  {
    RowMajor(i, j, cols);
    MulMono(i, rows, cols);
  }

  /** Emitting cell (i, j) extends the emitted prefix by one section. */
  lemma RegionEmitStep(b: GeoBounds, rows: int, cols: int, shift: real, i: int, j: int)
    requires rows > 0 && cols > 0 && 0 <= i < rows && 0 <= j < cols
    ensures var k := i * cols + j;
      && 0 <= k < |RegionGrid(b, rows, cols, shift)|
      && RegionGrid(b, rows, cols, shift)[..k + 1]
         == RegionGrid(b, rows, cols, shift)[..k] + [RegionCell(b, rows, cols, shift, i, j)]
  {
    RegionGridOrder(b, rows, cols, shift, i, j);
    var g, k := RegionGrid(b, rows, cols, shift), i * cols + j;
    assert g[..k + 1] == g[..k] + [g[k]];
  }

  /** The k-th section is named `section_k`, so names are unique. */
  lemma RegionGridIds(b: GeoBounds, rows: int, cols: int, shift: real, k1: int, k2: int)
    requires rows > 0 && cols > 0
    requires 0 <= k1 < rows * cols && 0 <= k2 < rows * cols
    ensures RegionGrid(b, rows, cols, shift)[k1].id == SectionId(k1)
    ensures RegionGrid(b, rows, cols, shift)[k1].id == RegionGrid(b, rows, cols, shift)[k2].id <==> k1 == k2
  {
    var g := RegionGrid(b, rows, cols, shift);
    forall k | 0 <= k < rows * cols
      ensures g[k].id == SectionId(k)
    {
      RowMajor(k / cols, k % cols, cols);
      assert (k / cols) * cols + k % cols == k;
    }
    SectionIdInjective(k1, k2);
  }

  /** Rows follow each other without gap or overlap: row 0 starts at the
      southern bound, row i + 1 starts where row i ends, the last row ends at
      the northern bound. */
  lemma RegionRows(b: GeoBounds, rows: int, cols: int, shift: real, i: int, j: int, j': int)
    requires rows > 0 && cols > 0 && 0 <= i < rows
    ensures i == 0 ==> CellBounds(b, rows, cols, shift, i, j).minLat == b.minLat
    ensures i + 1 < rows ==>
      CellBounds(b, rows, cols, shift, i, j).maxLat == CellBounds(b, rows, cols, shift, i + 1, j').minLat
    ensures i == rows - 1 ==> CellBounds(b, rows, cols, shift, i, j).maxLat == b.maxLat
  {
    var latStep := (b.maxLat - b.minLat) / rows as real;
    assert CellBounds(b, rows, cols, shift, i, j).minLat == Edge(b.minLat, i, latStep);
    assert CellBounds(b, rows, cols, shift, i, j).maxLat == Edge(b.minLat, i + 1, latStep);
    assert CellBounds(b, rows, cols, shift, i + 1, j').minLat == Edge(b.minLat, i + 1, latStep);
    if i == rows - 1 {
      SpanSplit(rows, b.maxLat - b.minLat);
      assert (i + 1) as real == rows as real;
    }
  }

  /** Every cell, shifted or not, is one latitude step tall and one longitude
      step wide. */
  lemma RegionCellSize(b: GeoBounds, rows: int, cols: int, shift: real, i: int, j: int)
    requires rows > 0 && cols > 0
    ensures CellBounds(b, rows, cols, shift, i, j).maxLat - CellBounds(b, rows, cols, shift, i, j).minLat
      == (b.maxLat - b.minLat) / rows as real
    ensures CellBounds(b, rows, cols, shift, i, j).maxLon - CellBounds(b, rows, cols, shift, i, j).minLon
      == (b.maxLon - b.minLon) / cols as real
  {
    StepDiff(i, (b.maxLat - b.minLat) / rows as real);
    StepDiff(j, (b.maxLon - b.minLon) / cols as real);
  }

  /** The eastern shift is a pure translation: cell (i, j) is the unshifted cell
      moved east by ShiftMultiplier(i, j) * shift, so only column 1 moves. */
  lemma RegionShift(b: GeoBounds, rows: int, cols: int, shift: real, i: int, j: int)
    requires rows > 0 && cols > 0 && 0 <= i && 0 <= j < cols
    ensures RegionCell(b, rows, cols, shift, i, j)
      == Translated(RegionCell(b, rows, cols, 0.0, i, j), ShiftMultiplier(i, j) * shift)
    ensures j != 1 ==> RegionCell(b, rows, cols, shift, i, j) == RegionCell(b, rows, cols, 0.0, i, j)
  {
  }

  /** Without a shift the columns tile the box from west to east. */
  lemma RegionColumnsUnshifted(b: GeoBounds, rows: int, cols: int, i: int, j: int)
    requires rows > 0 && cols > 0 && 0 <= j < cols
    ensures j == 0 ==> CellBounds(b, rows, cols, 0.0, i, j).minLon == b.minLon
    ensures j + 1 < cols ==>
      CellBounds(b, rows, cols, 0.0, i, j).maxLon == CellBounds(b, rows, cols, 0.0, i, j + 1).minLon
    ensures j == cols - 1 ==> CellBounds(b, rows, cols, 0.0, i, j).maxLon == b.maxLon
  {
    var lonStep := (b.maxLon - b.minLon) / cols as real;
    assert CellBounds(b, rows, cols, 0.0, i, j).minLon == Edge(b.minLon, j, lonStep);
    assert CellBounds(b, rows, cols, 0.0, i, j).maxLon == Edge(b.minLon, j + 1, lonStep);
    assert CellBounds(b, rows, cols, 0.0, i, j + 1).minLon == Edge(b.minLon, j + 1, lonStep);
    if j == cols - 1 {
      SpanSplit(cols, b.maxLon - b.minLon);
      assert (j + 1) as real == cols as real;
    }
  }

  /** Each center is the midpoint of the cell's stored bounds, and so lies
      inside them when the box is well formed. */
  lemma RegionCenter(b: GeoBounds, rows: int, cols: int, shift: real, i: int, j: int)
    requires rows > 0 && cols > 0
    requires b.minLat <= b.maxLat && b.minLon <= b.maxLon
    ensures var g := CellBounds(b, rows, cols, shift, i, j);
      && g.minLat <= Midpoint(g).lat <= g.maxLat
      && g.minLon <= Midpoint(g).lon <= g.maxLon
  {
    RegionCellSize(b, rows, cols, shift, i, j);
    SpanSplit(rows, b.maxLat - b.minLat);
    SpanSplit(cols, b.maxLon - b.minLon);
  }

  // ---------------------------------------------------------------------------
  // divide_gaza_into_sections

  /** `ceil(n / d)` for a positive divisor. */
  function CeilDiv(n: nat, d: int): nat
    requires d > 0
  {
    (n + d - 1) / d
  }

  /** CeilDiv(n, d) is the least c with d * c >= n. */
  lemma CeilDivBounds(n: nat, d: int)
    requires d > 0
    ensures d * CeilDiv(n, d) >= n && d * (CeilDiv(n, d) - 1) < n
    ensures n / d <= CeilDiv(n, d)
    ensures n >= 1 ==> CeilDiv(n, d) >= 1
  {
    var c: int, r := CeilDiv(n, d), (n + d - 1) % d;
    assert n + d - 1 == d * c + r;
    assert d * (c - 1) == d * c - d;
    MulCancelLe(n / d, c, d);
  }

  /** A positive factor can be cancelled from a non-strict inequality. */
  lemma MulCancelLe(a: int, b: int, d: int)
    requires d > 0 && a * d <= b * d
    ensures a <= b
  {
    if b < a {
      MulMono(b, a, d);
    }
  }

  lemma CeilDivPositive(n: nat, d: int)
    requires d > 0 && n >= 1
    ensures CeilDiv(n, d) >= 1
  {
    CeilDivBounds(n, d);
  }

  /** The row count after the `if rows < 1` clamp. */
  function GazaRows(rowsEstimate: int): int
  {
    if rowsEstimate < 1 then 1 else rowsEstimate
  }

  /** While `rows * cols < n` the column count stays below the ceiling. */
  lemma ColsBelowCeiling(n: nat, rows: int, cols: int)
    requires rows >= 1 && rows * cols < n
    ensures cols < CeilDiv(n, rows)
  {
    var c := CeilDiv(n, rows);
    CeilDivBounds(n, rows);
    if c < cols {
      MulMono(c, cols, rows);
    }
  }

  /** The adjustment loop stops on the ceiling, except when no section is
      requested and the clamp already gave one column. */
  lemma ColsLoopExit(n: nat, rows: int, cols: int)
    requires rows >= 1 && cols >= 1 && rows * cols >= n
    requires n >= 1 ==> cols <= CeilDiv(n, rows)
    requires n == 0 ==> cols == 1
    ensures cols == CeilDiv(n, rows) || (n == 0 && cols == 1 && CeilDiv(n, rows) == 0)
  {
    var c := CeilDiv(n, rows);
    CeilDivBounds(n, rows);
    if n == 0 {
      DivModUnique(rows - 1, rows, 0, rows - 1);
    } else if cols < c {
      MulMono(cols, c, rows);
    }
  }

  /** The final trim removes exactly the columns beyond the ceiling. */
  lemma TrimToCeiling(n: nat, rows: int, cols: int)
    requires rows >= 1 && rows * cols > n
    requires cols == CeilDiv(n, rows) || (n == 0 && cols == 1)
    ensures var excess := rows * cols - n;
      var trimmed := cols - excess / rows - (if excess % rows > 0 then 1 else 0);
      (if rows * trimmed < n then trimmed + 1 else trimmed) == CeilDiv(n, rows)
  {
    var excess := rows * cols - n;
    CeilDivBounds(n, rows);
    if n == 0 {
      assert cols == 1 by {
        if cols != 1 {
          assert cols == CeilDiv(0, rows);
          DivModUnique(rows - 1, rows, 0, rows - 1);
        }
      }
      DivModUnique(excess, rows, 1, 0);
      DivModUnique(rows - 1, rows, 0, rows - 1);
    } else {
      assert rows * (cols - 1) == rows * cols - rows;
      DivModUnique(excess, rows, 0, excess);
    }
  }

  /** The grid shape of `divide_gaza_into_sections` from its initial row
      estimate `int(sqrt(n / aspect))`: the cols adjustment loop and the trim
      that follows end with the smallest column count covering n cells. */
  method GazaGridShape(n: nat, rowsEstimate: int) returns (rows: int, cols: int)
    ensures rows == GazaRows(rowsEstimate) && rows >= 1
    ensures cols == CeilDiv(n, rows)
    ensures rows * cols >= n && rows * (cols - 1) < n
  {
    rows := rowsEstimate;
    if rows < 1 {
      rows := 1;
    }
    CeilDivBounds(n, rows);
    cols := n / rows;    // `int(num_sections / rows)`: both operands are non-negative
    if cols < 1 {
      cols := 1;
    }
    while rows * cols < n
      invariant cols >= 1
      invariant n >= 1 ==> cols <= CeilDiv(n, rows)
      invariant n == 0 ==> cols == 1
      decreases n - rows * cols
    {
      ColsBelowCeiling(n, rows, cols);
      assert rows * (cols + 1) == rows * cols + rows;
      cols := cols + 1;
    }
    ColsLoopExit(n, rows, cols);
    if rows * cols > n {
      cols := TrimColumns(n, rows, cols);
    }
  }

  /** The "final adjustment" of `divide_gaza_into_sections`: drop the columns
      the excess cells fill, then add one back if too many were dropped. */
  method TrimColumns(n: nat, rows: int, cols: int) returns (trimmed: int)
    requires rows >= 1 && rows * cols > n
    requires cols == CeilDiv(n, rows) || (n == 0 && cols == 1)
    ensures trimmed == CeilDiv(n, rows)
  {
    TrimToCeiling(n, rows, cols);
    var excess := rows * cols - n;
    trimmed := cols - excess / rows - (if excess % rows > 0 then 1 else 0);
    if rows * trimmed < n {
      trimmed := trimmed + 1;
    }
  }

  /** The box of cell (i, j) of the target-count grid over `b` with `rows` x
      `cols` cells: between grid lines i and i + 1 of latitude and j and j + 1
      of longitude. */
  function GazaBox(b: GeoBounds, rows: int, cols: int, i: int, j: int): GeoBounds
    requires rows > 0 && cols > 0
  {
    var latSpan := b.maxLat - b.minLat;
    var lonSpan := b.maxLon - b.minLon;
    GeoBounds(FractionEdge(b.minLat, i, rows, latSpan), FractionEdge(b.minLat, i + 1, rows, latSpan),
              FractionEdge(b.minLon, j, cols, lonSpan), FractionEdge(b.minLon, j + 1, cols, lonSpan))
  }

  /** Cell (i, j) of the target-count grid: named after its row-major index,
      with its box and that box's midpoint. This is the evidently intended
      cell; the code as written differs in one field (see GazaCell). */
  function GazaCellIntended(b: GeoBounds, rows: int, cols: int, i: int, j: int): (s: Section)
    requires rows > 0 && cols > 0 && 0 <= i && 0 <= j < cols
  {
    RowMajor(i, j, cols);
    var box := GazaBox(b, rows, cols, i, j);
    Section(SectionId(i * cols + j), box, Midpoint(box))
  }

  /** Cell (i, j) of `divide_gaza_into_sections` AS WRITTEN: the stored
      `min_lon` is the cell's east edge, so the stored box has zero width,
      while the center still uses the real west edge. */
  function GazaCell(b: GeoBounds, rows: int, cols: int, i: int, j: int): (s: Section)
    requires rows > 0 && cols > 0 && 0 <= i && 0 <= j < cols
  {
    var s := GazaCellIntended(b, rows, cols, i, j);
    s.(bounds := s.bounds.(minLon := s.bounds.maxLon))
  }

  /** The first n cells, in row-major order, of the GazaGridShape grid, as
      `divide_gaza_into_sections` is evidently meant to build them. */
  function GazaSections(b: GeoBounds, n: nat, rowsEstimate: int): (g: seq<Section>)
  {
    var rows := GazaRows(rowsEstimate);
    var cols := CeilDiv(n, rows);
    if n == 0 then []
    else
      CeilDivPositive(n, rows);
      seq(n, k requires 0 <= k < n => GazaCellIntended(b, rows, cols, k / cols, k % cols))
  }

  /** The sections `divide_gaza_into_sections` builds as written: the first n
      cells in row-major order, each storing its east edge as `min_lon`. */
  function GazaSectionsWritten(b: GeoBounds, n: nat, rowsEstimate: int): (g: seq<Section>)
  {
    var rows := GazaRows(rowsEstimate);
    var cols := CeilDiv(n, rows);
    if n == 0 then []
    else
      CeilDivPositive(n, rows);
      seq(n, k requires 0 <= k < n => GazaCell(b, rows, cols, k / cols, k % cols))
  }

  function Min(a: int, b: int): int
  {
    if a <= b then a else b
  }

  /** Cell (i, j) of the target-count grid sits at index i * cols + j: as
      written it is GazaCell, as intended GazaCellIntended. */
  lemma GazaSectionsAt(b: GeoBounds, n: nat, rowsEstimate: int, i: int, j: int)
    requires 0 <= i && 0 <= j < CeilDiv(n, GazaRows(rowsEstimate))
    requires i * CeilDiv(n, GazaRows(rowsEstimate)) + j < n
    ensures var k := i * CeilDiv(n, GazaRows(rowsEstimate)) + j;
      && 0 <= k < |GazaSectionsWritten(b, n, rowsEstimate)| && k < |GazaSections(b, n, rowsEstimate)|
      && GazaSectionsWritten(b, n, rowsEstimate)[k]
         == GazaCell(b, GazaRows(rowsEstimate), CeilDiv(n, GazaRows(rowsEstimate)), i, j)
      && GazaSections(b, n, rowsEstimate)[k]
         == GazaCellIntended(b, GazaRows(rowsEstimate), CeilDiv(n, GazaRows(rowsEstimate)), i, j)
  {
    RowMajor(i, j, CeilDiv(n, GazaRows(rowsEstimate)));
  }

  /** The program's sections are the intended ones with one field changed:
      the same names, centers, latitudes and east edges, but `min_lon` set to
      the east edge. */
  lemma GazaWrittenVsIntended(b: GeoBounds, n: nat, rowsEstimate: int, k: int)
    requires 0 <= k < n
    ensures |GazaSectionsWritten(b, n, rowsEstimate)| == |GazaSections(b, n, rowsEstimate)| == n
    ensures var w, g := GazaSectionsWritten(b, n, rowsEstimate)[k], GazaSections(b, n, rowsEstimate)[k];
      w == g.(bounds := g.bounds.(minLon := g.bounds.maxLon))
  {
    var rows := GazaRows(rowsEstimate);
    CeilDivPositive(n, rows);
    var cols := CeilDiv(n, rows);
    SplitIndex(k, cols);
    assert GazaSectionsWritten(b, n, rowsEstimate)[k] == GazaCell(b, rows, cols, k / cols, k % cols);
    assert GazaSections(b, n, rowsEstimate)[k] == GazaCellIntended(b, rows, cols, k / cols, k % cols);
  }

  /** Emitting cell (i, j) as written extends the emitted prefix by one section. */
  lemma GazaEmitStep(b: GeoBounds, n: nat, rowsEstimate: int, i: int, j: int)
    requires 0 <= i && 0 <= j < CeilDiv(n, GazaRows(rowsEstimate))
    requires i * CeilDiv(n, GazaRows(rowsEstimate)) + j < n
    ensures var k := i * CeilDiv(n, GazaRows(rowsEstimate)) + j;
      && 0 <= k < |GazaSectionsWritten(b, n, rowsEstimate)|
      && GazaSectionsWritten(b, n, rowsEstimate)[..k + 1]
         == GazaSectionsWritten(b, n, rowsEstimate)[..k] + [GazaCell(b, GazaRows(rowsEstimate), CeilDiv(n, GazaRows(rowsEstimate)), i, j)]
  {
    var k := i * CeilDiv(n, GazaRows(rowsEstimate)) + j;
    GazaSectionsAt(b, n, rowsEstimate, i, j);
    var g := GazaSectionsWritten(b, n, rowsEstimate);
    assert g[..k + 1] == g[..k] + [g[k]];
  }

  /** The outcome of the target-count mode over the box `b`: the aspect ratio
      `lon_span / lat_span` raises ZeroDivisionError when either span is zero
      (a zero `lon_span` makes the ratio itself the divisor of `n / aspect`),
      and `sqrt` raises ValueError when `n / aspect` is negative. A negative
      count that gets past `sqrt` yields no section: the emit loop's first
      test `section_index >= num_sections` already holds. */
  function GazaPartition(b: GeoBounds, n: int, rowsEstimate: int): Result<seq<Section>, GridError>
  {
    var latSpan, lonSpan := b.maxLat - b.minLat, b.maxLon - b.minLon;
    if latSpan == 0.0 || lonSpan == 0.0 then Err(ZeroDivisionError)
    else if (n > 0 && lonSpan / latSpan < 0.0) || (n < 0 && lonSpan / latSpan > 0.0) then Err(ValueError)
    else if n < 0 then Ok([])
    else Ok(GazaSectionsWritten(b, n, rowsEstimate))
  }

  /** `divide_gaza_into_sections` with the loaded borders (see GetGazaBounds)
      and its initial row estimate `int(sqrt(n / aspect))` as inputs. */
  method DivideGazaIntoSections(loaded: Option<Borders>, n: int, rowsEstimate: int)
    returns (r: Result<seq<Section>, GridError>)
    ensures r == GazaPartition(GetGazaBounds(loaded), n, rowsEstimate)
  {
    var bounds := GetGazaBounds(loaded);
    r := PartitionBounds(bounds, n, rowsEstimate);
  }

  /** The body of `divide_gaza_into_sections` once the bounds are known. The emit
      loop breaks out of the inner loop once n sections exist; later rows then
      emit nothing. Each section stores its east edge as `min_lon`, as the
      code is written (see GazaCell and GazaWrittenVsIntended). For a negative
      count the grid shape is left out: whatever rows and columns it gives,
      no cell passes the first `section_index >= num_sections` test. */
  method PartitionBounds(b: GeoBounds, n: int, rowsEstimate: int)
    returns (r: Result<seq<Section>, GridError>)
    ensures r == GazaPartition(b, n, rowsEstimate)
  {
    var latSpan := b.maxLat - b.minLat;
    var lonSpan := b.maxLon - b.minLon;
    if latSpan == 0.0 || lonSpan == 0.0 {
      return Err(ZeroDivisionError);
    }
    var aspect := lonSpan / latSpan;
    if (n > 0 && aspect < 0.0) || (n < 0 && aspect > 0.0) {
      return Err(ValueError);
    }
    if n < 0 {
      return Ok([]);
    }
    var rows, cols := GazaGridShape(n, rowsEstimate);
    ghost var all := GazaSectionsWritten(b, n, rowsEstimate);
    var sections := [];
    var index := 0;
    var i := 0;
    while i < rows
      invariant 0 <= i <= rows
      invariant index == |sections| == Min(n, i * cols)
      invariant sections == all[..index]
    {
      sections, index := EmitRow(b, n, rowsEstimate, rows, cols, i, sections, index);
      assert (i + 1) * cols == i * cols + cols;
      i := i + 1;
    }
    assert index == n;
    assert |all| == n;
    assert sections == all;
    return Ok(sections);
  }

  /** One pass of the `for j in range(cols)` loop of `divide_gaza_into_sections`
      over row i: it appends the row's cells until n sections exist. */
  method EmitRow(b: GeoBounds, n: nat, rowsEstimate: int, rows: int, cols: int, i: int,
                 sections0: seq<Section>, index0: int)
    returns (sections: seq<Section>, index: int)
    requires rows == GazaRows(rowsEstimate) && cols == CeilDiv(n, rows) && 0 <= i
    requires index0 == |sections0| == Min(n, i * cols)
    requires sections0 == GazaSectionsWritten(b, n, rowsEstimate)[..index0]
    ensures index == |sections| == Min(n, i * cols + cols)
    ensures sections == GazaSectionsWritten(b, n, rowsEstimate)[..index]
  {
    var latSpan := b.maxLat - b.minLat;
    var lonSpan := b.maxLon - b.minLon;
    sections, index := sections0, index0;
    var j := 0;
    while j < cols
      invariant 0 <= j <= cols
      invariant index == |sections| == Min(n, i * cols + j)
      invariant sections == GazaSectionsWritten(b, n, rowsEstimate)[..index]
    {
      if index >= n {
        break;
      }
      var minLat := FractionEdge(b.minLat, i, rows, latSpan);
      var maxLat := FractionEdge(b.minLat, i + 1, rows, latSpan);
      var minLon := FractionEdge(b.minLon, j, cols, lonSpan);
      var maxLon := FractionEdge(b.minLon, j + 1, cols, lonSpan);
      var centerLat := (minLat + maxLat) / 2.0;
      var centerLon := (minLon + maxLon) / 2.0;
      // the stored `min_lon` is `max_lon`, as written
      var section := Section(SectionId(index), GeoBounds(minLat, maxLat, maxLon, maxLon), Center(centerLat, centerLon));
      assert index == i * cols + j;
      assert GeoBounds(minLat, maxLat, minLon, maxLon) == GazaBox(b, rows, cols, i, j);
      assert section == GazaCell(b, rows, cols, i, j);
      GazaEmitStep(b, n, rowsEstimate, i, j);
      sections := sections + [section];
      index := index + 1;
      if index >= n {
        break;
      }
      j := j + 1;
    }
  }


  /** The k-th section of the target-count mode is named `section_k`. */
  lemma GazaSectionId(b: GeoBounds, n: nat, rowsEstimate: int, k: int)
    requires 0 <= k < n
    ensures |GazaSectionsWritten(b, n, rowsEstimate)| == n
    ensures GazaSectionsWritten(b, n, rowsEstimate)[k].id == SectionId(k)
  {
    var rows := GazaRows(rowsEstimate);
    CeilDivPositive(n, rows);
    var cols := CeilDiv(n, rows);
    var i, j := k / cols, k % cols;
    SplitIndex(k, cols);
    var s := GazaSectionsWritten(b, n, rowsEstimate)[k];
    assert s == GazaCell(b, rows, cols, i, j);
    assert s.id == SectionId(i * cols + j);
  }

  /** The target-count mode yields exactly n sections named section_0 ..
      section_{n-1}, all distinct. */
  lemma GazaSectionsCount(b: GeoBounds, n: nat, rowsEstimate: int, k1: int, k2: int)
    requires 0 <= k1 < n && 0 <= k2 < n
    ensures |GazaSectionsWritten(b, n, rowsEstimate)| == n
    ensures GazaSectionsWritten(b, n, rowsEstimate)[k1].id == SectionId(k1)
    ensures GazaSectionsWritten(b, n, rowsEstimate)[k1].id == GazaSectionsWritten(b, n, rowsEstimate)[k2].id <==> k1 == k2
  {
    GazaSectionId(b, n, rowsEstimate, k1);
    GazaSectionId(b, n, rowsEstimate, k2);
    SectionIdInjective(k1, k2);
  }

  /** Whenever the target-count mode returns, a negative count gives no section
      and any other count n gives n sections, the k-th named `section_k`. */
  lemma GazaPartitionCount(b: GeoBounds, n: int, rowsEstimate: int)
    requires GazaPartition(b, n, rowsEstimate).Ok?
    ensures var g := GazaPartition(b, n, rowsEstimate).value;
      && |g| == (if n < 0 then 0 else n)
      && forall k :: 0 <= k < |g| ==> g[k].id == SectionId(k)
  {
    if n > 0 {
      forall k | 0 <= k < n
        ensures GazaSectionsWritten(b, n, rowsEstimate)[k].id == SectionId(k)
      {
        GazaSectionId(b, n, rowsEstimate, k);
      }
    }
  }

  /** As written, every stored box has `min_lon == max_lon`; when the region has
      positive width the stored center then lies west of its own box. */
  lemma GazaCellDegenerate(b: GeoBounds, rows: int, cols: int, i: int, j: int)
    requires rows > 0 && cols > 0 && 0 <= i && 0 <= j < cols
    ensures GazaCell(b, rows, cols, i, j).bounds.minLon == GazaCell(b, rows, cols, i, j).bounds.maxLon
    ensures b.minLon < b.maxLon ==> GazaCell(b, rows, cols, i, j).center.lon < GazaCell(b, rows, cols, i, j).bounds.minLon
  {
    FractionStep(b.minLon, j, cols, b.maxLon - b.minLon);
  }

  /** Corrected: the center lies inside the stored box. */
  lemma GazaCellIntendedCenter(b: GeoBounds, rows: int, cols: int, i: int, j: int)
    requires rows > 0 && cols > 0
    requires b.minLat <= b.maxLat && b.minLon <= b.maxLon
    ensures var g := GazaBox(b, rows, cols, i, j);
      && g.minLat <= Midpoint(g).lat <= g.maxLat
      && g.minLon <= Midpoint(g).lon <= g.maxLon
  {
    FractionStep(b.minLat, i, rows, b.maxLat - b.minLat);
    FractionStep(b.minLon, j, cols, b.maxLon - b.minLon);
  }

  /** Corrected cells tile the box: the first row and column start on its
      south and west edges, neighbouring cells share their common edge, and the
      last row and column end on its north and east edges. */
  lemma GazaCellIntendedTiling(b: GeoBounds, rows: int, cols: int, i: int, j: int, j': int)
    requires rows > 0 && cols > 0 && 0 <= i < rows && 0 <= j < cols
    ensures i == 0 ==> GazaBox(b, rows, cols, i, j).minLat == b.minLat
    ensures i + 1 < rows ==> GazaBox(b, rows, cols, i, j).maxLat == GazaBox(b, rows, cols, i + 1, j').minLat
    ensures i == rows - 1 ==> GazaBox(b, rows, cols, i, j).maxLat == b.maxLat
    ensures j == 0 ==> GazaBox(b, rows, cols, i, j).minLon == b.minLon
    ensures j + 1 < cols ==> GazaBox(b, rows, cols, i, j).maxLon == GazaBox(b, rows, cols, i, j + 1).minLon
    ensures j == cols - 1 ==> GazaBox(b, rows, cols, i, j).maxLon == b.maxLon
  {
    FractionEnds(b.minLat, rows, b.maxLat - b.minLat);
    FractionEnds(b.minLon, cols, b.maxLon - b.minLon);
  }

  /** The first grid line is `lo` and the last is `lo + span`. */
  lemma FractionEnds(lo: real, n: int, span: real)
    requires n > 0
    ensures FractionEdge(lo, 0, n, span) == lo
    ensures FractionEdge(lo, n, n, span) == lo + span
  {
    assert n as real / n as real == 1.0;
  }

  /** Grid line k of n across `span` from `lo`: `lo + (k / n) * span`. */
  function FractionEdge(lo: real, k: int, n: int, span: real): real
    requires n > 0
  {
    lo + (k as real / n as real) * span
  }

  /** Consecutive fraction grid lines are span / n apart. */
  lemma FractionStep(lo: real, k: int, n: int, span: real)
    requires n > 0
    ensures FractionEdge(lo, k + 1, n, span) - FractionEdge(lo, k, n, span) == span / n as real
    ensures span >= 0.0 ==> span / n as real >= 0.0
    ensures span > 0.0 ==> span / n as real > 0.0
  {
    assert (k + 1) as real / n as real == k as real / n as real + 1.0 / n as real;
  }
}
