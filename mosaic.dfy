/**
 * The mosaic layout of `tile` in examples/data/show_digits.py: N flattened square
 * images (optionally several planes per row) are laid out row-major in a grid of
 * cells separated by `spacing` background pixels on a canvas filled with 1.0.
 *
 * The pure part (`Plan`, `Pixel`) says what a call produces; the method `Tile`
 * builds the canvas in place as the source does and is proved against it.
 */
module Mosaic {
  import opened Results
  import opened Arith

  /** How a call of `tile` can fail. */
  datatype TileError =
    | ZeroChannelCount    // X.shape[1] / 0 raises ZeroDivisionError (line 20)
    | GridNotInferred     // `assert grid_shape is not None` (line 30)
    | BadGridShape        // `assert grid_shape.shape == (2,)` (line 38)
    | NegativeDimension   // np.ones refuses a negative canvas side (line 43)
    | RowIndexOutOfRange  // X[y*cols+x, :] past the last row (line 48)
    | ReshapeMismatch     // np.reshape of a row that is not tile_size*tile_size long (line 48)

  /** The `grid_shape` argument: omitted, a scalar, or a one-dimensional list of values. */
  datatype GridHint = Omitted | Scalar(side: int) | Listed(values: seq<int>)

  /**
   * The geometry of a successful call: the per-channel tile length, the tile side, the
   * spacing, the grid (negative grid values, which only survive when tile side and
   * spacing are both 0, are clamped to 0, leaving the same empty loops) and the canvas sides.
   */
  datatype Layout = Layout(tileLength: nat, tileSize: nat, spacing: nat,
                           rows: nat, cols: nat, height: nat, width: nat)
  {
    function Stride(): nat { tileSize + spacing }

    /** The canvas coordinate of offset `offset` inside grid cell `cell` along one axis. */
    function At(cell: nat, offset: nat): nat { cell * Stride() + offset }

    /** The canvas sides are (tile_size + spacing) * grid - spacing (line 40). */
    ghost predicate Shaped() {
      height == Stride() * rows - spacing && width == Stride() * cols - spacing
    }
  }

  /** int(np.sqrt(n)) on exact integers: the largest r with r*r <= n. */
  function FloorSqrt(n: nat): (r: nat)
    ensures r * r <= n < (r + 1) * (r + 1)
  {
    if n == 0 then 0
    else
      var r := FloorSqrt(n - 1);
      if (r + 1) * (r + 1) <= n then r + 1 else r
  }

  lemma SquareLeq(a: nat, b: nat)
    requires a <= b
    ensures a * a <= b * b
  {
    MulLeq(a, b, a);
    MulLeq(a, b, b);
  }

  /** The floor square root is the only k with k*k <= n < (k+1)*(k+1). */
  lemma FloorSqrtUnique(n: nat, k: nat)
    requires k * k <= n < (k + 1) * (k + 1)
    ensures FloorSqrt(n) == k
  {
    var r := FloorSqrt(n);
    if r < k {
      SquareLeq(r + 1, k);
    } else if r > k {
      SquareLeq(k + 1, r);
    }
  }

  /** Lines 25-38: infer, broadcast or check the grid shape. */
  function ResolveGrid(hint: GridHint, n: nat): (r: Result<(int, int), TileError>)
    ensures hint.Scalar? ==> r == Ok((hint.side, hint.side))
    ensures r.Ok? && hint.Omitted? ==> r.value.0 == r.value.1 && r.value.0 * r.value.0 == n && r.value.0 < 25
    ensures r.Err? ==>
      || (hint.Omitted? && r.error == GridNotInferred)
      || (hint.Listed? && |hint.values| != 1 && |hint.values| != 2 && r.error == BadGridShape)
  {
    match hint
    case Omitted =>
      var k := FloorSqrt(n);
      if k * k == n && k < 25 then Ok((k, k)) else Err(GridNotInferred)
    case Scalar(s) => Ok((s, s))
    case Listed(vs) =>
      if |vs| == 1 then Ok((vs[0], vs[0]))
      else if |vs| == 2 then Ok((vs[0], vs[1]))
      else Err(BadGridShape)
  }

  /**
   * With grid_shape omitted, the grid is (k, k) exactly when the batch holds k*k images
   * for some k < 25 (lines 25-28); this holds in both directions.
   */
  lemma GridInference(n: nat, k: nat)
    ensures ResolveGrid(Omitted, n) == Ok((k, k)) <==> (k < 25 && k * k == n)
  {
    if k * k == n {
      SquareLeq(k, k + 1);
      FloorSqrtUnique(n, k);
    }
  }

  /** With grid_shape omitted, every other batch size fails the assertion of line 30. */
  lemma GridInferenceFails(n: nat)
    requires ResolveGrid(Omitted, n).Err?
    ensures ResolveGrid(Omitted, n) == Err(GridNotInferred)
    ensures forall k: nat | k < 25 :: k * k != n
  {
    forall k: nat | k < 25
      ensures k * k != n
    {
      GridInference(n, k);
    }
  }

  /** 10 images are not a square number, 625 = 25*25 is past the limit of 25: both fail. */
  lemma GridNotInferredExamples()
    ensures ResolveGrid(Omitted, 10) == Err(GridNotInferred)
    ensures ResolveGrid(Omitted, 625) == Err(GridNotInferred)
    ensures ResolveGrid(Omitted, 576) == Ok((24, 24))
  {
    FloorSqrtUnique(10, 3);
    FloorSqrtUnique(625, 25);
    FloorSqrtUnique(576, 24);
  }

  /**
   * Lines 32-38: a scalar, or a one-element list, is broadcast to a square grid; a pair is
   * the grid; a list of any other length fails the shape assertion.
   */
  lemma GridHintForms(n: nat, s: int, vs: seq<int>)
    ensures ResolveGrid(Scalar(s), n) == Ok((s, s))
    ensures ResolveGrid(Listed([s]), n) == Ok((s, s))
    ensures |vs| == 2 ==> ResolveGrid(Listed(vs), n) == Ok((vs[0], vs[1]))
    ensures ResolveGrid(Listed(vs), n).Err? <==> |vs| != 1 && |vs| != 2
    ensures ResolveGrid(Listed(vs), n).Err? ==> ResolveGrid(Listed(vs), n) == Err(BadGridShape)
  {
  }

  function Clamp(g: int): nat { if g < 0 then 0 else g }

  /**
   * The error that the copy loop of lines 46-52 raises for a layout and a batch of n
   * rows, found at the first failing cell in row-major order; None when every cell copies.
   * All rows have the same length, so only cell 0 can fail to reshape.
   */
  function CopyFault(n: nat, lay: Layout): (f: Option<TileError>)
    ensures f.None? <==>
      lay.rows == 0 || lay.cols == 0 || (lay.tileSize * lay.tileSize == lay.tileLength && lay.rows * lay.cols <= n)
    ensures f.Some? ==> f.value == RowIndexOutOfRange || f.value == ReshapeMismatch
  {
    if lay.rows == 0 || lay.cols == 0 then None
    else
      MulLeq(1, lay.rows, lay.cols);
      if n == 0 then Some(RowIndexOutOfRange)
      else if lay.tileSize * lay.tileSize != lay.tileLength then Some(ReshapeMismatch)
      else if lay.rows * lay.cols > n then Some(RowIndexOutOfRange)
      else None
  }

  /** Lines 20-43: the checks and the geometry before any tile is copied. */
  function Prepare(n: nat, width: nat, hint: GridHint, spacing: nat, channels: nat): (r: Result<Layout, TileError>)
    ensures channels == 0 <==> r == Err(ZeroChannelCount)
    ensures channels > 0 && ResolveGrid(hint, n).Err? ==> r == Err(ResolveGrid(hint, n).error)
    ensures r.Ok? ==>
      && r.value.spacing == spacing && r.value.tileLength == width / channels
      && r.value.tileSize == FloorSqrt(width / channels)
  {
    if channels == 0 then Err(ZeroChannelCount)
    else
      var tileLength := width / channels;
      var tileSize := FloorSqrt(tileLength);
      match ResolveGrid(hint, n)
      case Err(e) => Err(e)
      case Ok((rows, cols)) =>
        var height := (tileSize + spacing) * rows - spacing;
        var wide := (tileSize + spacing) * cols - spacing;
        if height < 0 || wide < 0 then Err(NegativeDimension)
        else Ok(Layout(tileLength, tileSize, spacing, Clamp(rows), Clamp(cols), height, wide))
  }

  /** What `tile(X, grid_shape, spacing, channel_count)` yields for an n-by-width X. */
  function Plan(n: nat, width: nat, hint: GridHint, spacing: nat, channels: nat): (r: Result<Layout, TileError>)
    ensures r.Ok? <==>
      Prepare(n, width, hint, spacing, channels).Ok? && CopyFault(n, Prepare(n, width, hint, spacing, channels).value).None?
    ensures r.Ok? ==> r == Prepare(n, width, hint, spacing, channels)
  {
    match Prepare(n, width, hint, spacing, channels)
    case Err(e) => Err(e)
    case Ok(lay) => if CopyFault(n, lay).Some? then Err(CopyFault(n, lay).value) else Ok(lay)
  }

  /** A grid value g < 0 only gets past np.ones when tile side and spacing are both 0. */
  lemma NegativeGridCollapses(stride: nat, spacing: nat, g: int)
    requires spacing <= stride && g < 0 && stride * g - spacing >= 0
    ensures stride == 0 && stride * g - spacing == stride * Clamp(g) - spacing
  {
    MulNegative(stride, g);
  }

  /** A prepared layout has the canvas sides of line 40, and keeps the spacing asked for. */
  lemma PrepareShaped(n: nat, width: nat, hint: GridHint, spacing: nat, channels: nat)
    requires Prepare(n, width, hint, spacing, channels).Ok?
    ensures var lay := Prepare(n, width, hint, spacing, channels).value;
      && lay.Shaped() && lay.spacing == spacing && channels > 0
      && lay.tileLength == width / channels && lay.tileSize == FloorSqrt(width / channels)
  {
    var tileSize := FloorSqrt(width / channels);
    var (rows, cols) := ResolveGrid(hint, n).value;
    if rows < 0 { NegativeGridCollapses(tileSize + spacing, spacing, rows); }
    if cols < 0 { NegativeGridCollapses(tileSize + spacing, spacing, cols); }
  }

  /**
   * What a successful call guarantees about its layout: the canvas sides of line 40, and,
   * whenever the grid has a cell, square tiles of side floor(sqrt(tile_length)) and a grid
   * that indexes only existing rows of X.
   */
  lemma PlanLayout(n: nat, width: nat, hint: GridHint, spacing: nat, channels: nat)
    requires Plan(n, width, hint, spacing, channels).Ok?
    ensures var lay := Plan(n, width, hint, spacing, channels).value;
      && lay.Shaped() && lay.spacing == spacing && lay.tileLength == width / channels
      && (lay.rows > 0 && lay.cols > 0 ==>
            lay.tileSize * lay.tileSize == lay.tileLength && lay.rows * lay.cols <= n)
  {
    PrepareShaped(n, width, hint, spacing, channels);
  }

  /** A canvas with a pixel has a positive stride and a non-empty grid. */
  lemma PixelRoom(lay: Layout, i: nat, j: nat)
    requires lay.Shaped() && i < lay.height && j < lay.width
    ensures lay.Stride() > 0 && lay.rows > 0 && lay.cols > 0
    ensures i / lay.Stride() < lay.rows && j / lay.Stride() < lay.cols
  {
    DivBelow(i, lay.Stride(), lay.rows);
    DivBelow(j, lay.Stride(), lay.cols);
  }

  /**
   * The value of canvas pixel (i, j) of a single-channel mosaic of X: inside the tile part
   * of its cell it is the pixel of the row that row-major order assigns to the cell, in the
   * gaps it is the background 1.0. The guards on the stride, row index and pixel offset
   * always hold for a canvas pixel of a layout that `Plan` accepts (see `CellRoundTrip`).
   */
  function Pixel(X: seq<seq<real>>, lay: Layout, i: nat, j: nat): real {
    var s := lay.Stride();
    if s == 0 then 1.0
    else
      var r, c := i % s, j % s;
      var k := RowMajor(i / s, lay.cols, j / s);
      var offset := RowMajor(r, lay.tileSize, c);
      if r < lay.tileSize && c < lay.tileSize && k < |X| && offset < |X[k]|
      then X[k][offset]
      else 1.0
  }

  /** Within a stride s, index i lies in the tile part of cell y exactly when i / s == y and i % s < ts. */
  lemma InTilePart(i: nat, y: nat, s: nat, ts: nat)
    requires ts <= s && 0 < s
    ensures (y * s <= i < y * s + ts) <==> (i / s == y && i % s < ts)
    ensures y * s <= i < y * s + ts ==> i % s == i - y * s
  {
    if y * s <= i < y * s + ts {
      DivModOf(y, i - y * s, s);
    }
  }

  /**
   * The copy relation of lines 48-52 for one cell: when cell (y, x) has a row of the right
   * length, canvas pixel (y*(ts+sp)+r, x*(ts+sp)+c) is pixel r*ts+c of row y*cols+x.
   */
  lemma CellPixel(X: seq<seq<real>>, lay: Layout, y: nat, x: nat, r: nat, c: nat)
    requires lay.Shaped() && y < lay.rows && x < lay.cols
    requires r < lay.tileSize && c < lay.tileSize
    requires RowMajor(y, lay.cols, x) < |X|
    requires |X[RowMajor(y, lay.cols, x)]| == lay.tileSize * lay.tileSize
    ensures lay.At(y, r) < lay.height && lay.At(x, c) < lay.width
    ensures RowMajor(r, lay.tileSize, c) < lay.tileSize * lay.tileSize
    ensures Pixel(X, lay, lay.At(y, r), lay.At(x, c))
         == X[RowMajor(y, lay.cols, x)][RowMajor(r, lay.tileSize, c)]
  {
    var s := lay.Stride();
    var i, j := y * s + r, x * s + c;
    InsideCanvas(lay, y, lay.rows, lay.height);
    InsideCanvas(lay, x, lay.cols, lay.width);
    DivModOf(y, r, s);
    DivModOf(x, c, s);
    assert i / s == y && i % s == r && j / s == x && j % s == c;
    FlatIndexBound(r, c, lay.tileSize, lay.tileSize);
  }

  /** Along an axis of `count` cells and canvas side `side`, the tile part of a cell before `count` fits inside the canvas. */
  lemma InsideCanvas(lay: Layout, cell: nat, count: nat, side: nat)
    requires side == lay.Stride() * count - lay.spacing && cell < count
    ensures lay.At(cell, 0) + lay.tileSize <= side
  {
    var s := lay.Stride();
    MulLeq(cell + 1, count, s);
    assert (cell + 1) * s == cell * s + s;
  }

  /**
   * Round trip: for a layout that `Plan` accepts, slicing cell (y, x) back out of the
   * canvas gives row y*cols+x of X, pixel for pixel.
   */
  lemma CellRoundTrip(X: seq<seq<real>>, width: nat, hint: GridHint, spacing: nat, lay: Layout,
                      y: nat, x: nat, r: nat, c: nat)
    requires forall k | 0 <= k < |X| :: |X[k]| == width
    requires Plan(|X|, width, hint, spacing, 1) == Ok(lay)
    requires y < lay.rows && x < lay.cols && r < lay.tileSize && c < lay.tileSize
    ensures && lay.Shaped() && lay.At(y, r) < lay.height && lay.At(x, c) < lay.width
            && RowMajor(y, lay.cols, x) < |X| && RowMajor(r, lay.tileSize, c) < width
            && Pixel(X, lay, lay.At(y, r), lay.At(x, c))
               == X[RowMajor(y, lay.cols, x)][RowMajor(r, lay.tileSize, c)]
  {
    PlanLayout(|X|, width, hint, spacing, 1);
    assert lay.tileLength == width && lay.tileSize * lay.tileSize == width;
    assert lay.rows * lay.cols <= |X|;
    FlatIndexBound(y, x, lay.rows, lay.cols);
    CellPixel(X, lay, y, x, r, c);
  }

  /** A canvas row at offset tile_size + g (g < spacing) within its stride is background. */
  lemma GapRow(X: seq<seq<real>>, lay: Layout, y: nat, g: nat, j: nat)
    requires lay.Shaped() && g < lay.spacing
    requires lay.At(y, lay.tileSize + g) < lay.height && j < lay.width
    ensures Pixel(X, lay, lay.At(y, lay.tileSize + g), j) == 1.0
  {
    DivModOf(y, lay.tileSize + g, lay.Stride());
  }

  /** A canvas column at offset tile_size + g (g < spacing) within its stride is background. */
  lemma GapColumn(X: seq<seq<real>>, lay: Layout, i: nat, x: nat, g: nat)
    requires lay.Shaped() && g < lay.spacing
    requires i < lay.height && lay.At(x, lay.tileSize + g) < lay.width
    ensures Pixel(X, lay, i, lay.At(x, lay.tileSize + g)) == 1.0
  {
    DivModOf(x, lay.tileSize + g, lay.Stride());
  }

  /** Distinct cells, or distinct offsets in one cell, write distinct canvas pixels. */
  lemma CellsDisjoint(lay: Layout, y: nat, x: nat, r: nat, c: nat, y': nat, x': nat, r': nat, c': nat)
    requires r < lay.tileSize && c < lay.tileSize && r' < lay.tileSize && c' < lay.tileSize
    requires lay.At(y, r) == lay.At(y', r')
    requires lay.At(x, c) == lay.At(x', c')
    ensures y == y' && x == x' && r == r' && c == c'
  {
    var s := lay.Stride();
    DivModOf(y, r, s);
    DivModOf(y', r', s);
    DivModOf(x, c, s);
    DivModOf(x', c', s);
  }

  /** Rows of X at index rows*cols or beyond are never read: they do not affect any pixel. */
  lemma UnreadRows(X: seq<seq<real>>, X': seq<seq<real>>, lay: Layout, i: nat, j: nat)
    requires lay.Shaped() && i < lay.height && j < lay.width
    requires lay.rows * lay.cols <= |X| && lay.rows * lay.cols <= |X'|
    requires X[..lay.rows * lay.cols] == X'[..lay.rows * lay.cols]
    ensures Pixel(X, lay, i, j) == Pixel(X', lay, i, j)
  {
    PixelRoom(lay, i, j);
    var s := lay.Stride();
    var k := RowMajor(i / s, lay.cols, j / s);
    FlatIndexBound(i / s, j / s, lay.rows, lay.cols);
    assert X[k] == X[..lay.rows * lay.cols][k];
  }

  /** np.reshape(row, (ts, ts)) of line 48: row r of the tile is the r-th run of ts values. */
  function Reshape(row: seq<real>, ts: nat): (t: seq<seq<real>>)
    requires |row| == ts * ts
    ensures |t| == ts && forall r | 0 <= r < ts :: |t[r]| == ts
  {
    seq(ts, r requires 0 <= r < ts => Chunk(row, ts, ts, r))
  }

  /** Element (r, c) of the reshaped tile is element r*ts + c of the row. */
  lemma ReshapeAt(row: seq<real>, ts: nat, r: nat, c: nat)
    requires |row| == ts * ts && r < ts && c < ts
    ensures RowMajor(r, ts, c) < |row| && Reshape(row, ts)[r][c] == row[RowMajor(r, ts, c)]
  {
    ChunkAt(row, ts, ts, r, c);
  }

  /**
   * The slice assignment of lines 49-52: the square tile t goes to the block of the canvas
   * whose top-left corner is (top, left); every other pixel keeps its value.
   */
  method PasteTile(a: array2<real>, t: seq<seq<real>>, top: nat, left: nat)
    requires forall r | 0 <= r < |t| :: |t[r]| == |t|
    requires top + |t| <= a.Length0 && left + |t| <= a.Length1
    modifies a
    ensures forall i, j | 0 <= i < a.Length0 && 0 <= j < a.Length1 ::
      a[i, j] == if top <= i < top + |t| && left <= j < left + |t| then t[i - top][j - left] else old(a[i, j])
  {
    var r := 0;
    while r < |t|
      invariant 0 <= r <= |t|
      invariant forall i, j | 0 <= i < a.Length0 && 0 <= j < a.Length1 ::
        a[i, j] == if top <= i < top + r && left <= j < left + |t| then t[i - top][j - left] else old(a[i, j])
    {
      var c := 0;
      while c < |t|
        invariant 0 <= c <= |t|
        invariant forall i, j | 0 <= i < a.Length0 && 0 <= j < a.Length1 ::
          a[i, j] == if (top <= i < top + r && left <= j < left + |t|) || (i == top + r && left <= j < left + c)
                     then t[i - top][j - left] else old(a[i, j])
      {
        a[top + r, left + c] := t[r][c];
        c := c + 1;
      }
      r := r + 1;
    }
  }

  /** The cells before (y, x) in row-major order had rows that could be copied. */
  ghost predicate Visited(n: nat, lay: Layout, k: nat) {
    k == 0 || (k <= n && lay.tileSize * lay.tileSize == lay.tileLength)
  }

  /** Pixel (i, j) lies in the tile part of a cell that comes before cell (y, x) in row-major order. */
  ghost predicate Painted(lay: Layout, i: nat, j: nat, y: nat, x: nat) {
    var s := lay.Stride();
    && s > 0 && i % s < lay.tileSize && j % s < lay.tileSize
    && (i / s < y || (i / s == y && j / s < x))
  }

  /** Copying cell (y, x) paints exactly its block on top of what was painted before. */
  lemma PaintedStep(lay: Layout, i: nat, j: nat, y: nat, x: nat)
    requires lay.Stride() > 0
    ensures Painted(lay, i, j, y, x + 1) <==>
      (Painted(lay, i, j, y, x) ||
       (lay.At(y, 0) <= i < lay.At(y, 0) + lay.tileSize && lay.At(x, 0) <= j < lay.At(x, 0) + lay.tileSize))
    ensures lay.At(y, 0) <= i < lay.At(y, 0) + lay.tileSize ==> i / lay.Stride() == y && i - lay.At(y, 0) == i % lay.Stride()
    ensures lay.At(x, 0) <= j < lay.At(x, 0) + lay.tileSize ==> j / lay.Stride() == x && j - lay.At(x, 0) == j % lay.Stride()
  {
    InTilePart(i, y, lay.Stride(), lay.tileSize);
    InTilePart(j, x, lay.Stride(), lay.tileSize);
  }

  /**
   * The body of lines 48-52 for cell (y, x): raise if row y*cols+x is missing or cannot be
   * reshaped into a tile, otherwise paint the cell's block.
   */
  method CopyCell(X: seq<seq<real>>, lay: Layout, a: array2<real>, y: nat, x: nat) returns (fault: Option<TileError>)
    requires lay.Shaped() && y < lay.rows && x < lay.cols
    requires forall k | 0 <= k < |X| :: |X[k]| == lay.tileLength
    requires a.Length0 == lay.height && a.Length1 == lay.width
    requires Visited(|X|, lay, RowMajor(y, lay.cols, x))
    requires forall i, j | 0 <= i < lay.height && 0 <= j < lay.width ::
      a[i, j] == if Painted(lay, i, j, y, x) then Pixel(X, lay, i, j) else 1.0
    modifies a
    ensures fault.Some? ==> fault == CopyFault(|X|, lay)
    ensures fault.None? ==> Visited(|X|, lay, RowMajor(y, lay.cols, x) + 1)
    ensures fault.None? ==> forall i, j | 0 <= i < lay.height && 0 <= j < lay.width ::
      a[i, j] == if Painted(lay, i, j, y, x + 1) then Pixel(X, lay, i, j) else 1.0
  {
    var k := y * lay.cols + x;
    FlatIndexBound(y, x, lay.rows, lay.cols);
    if k >= |X| {
      return Some(RowIndexOutOfRange);
    }
    if |X[k]| != lay.tileSize * lay.tileSize {
      return Some(ReshapeMismatch);
    }
    var t := Reshape(X[k], lay.tileSize);
    InsideCanvas(lay, y, lay.rows, lay.height);
    InsideCanvas(lay, x, lay.cols, lay.width);
    PasteTile(a, t, lay.At(y, 0), lay.At(x, 0));
    forall i, j | 0 <= i < lay.height && 0 <= j < lay.width
      ensures a[i, j] == if Painted(lay, i, j, y, x + 1) then Pixel(X, lay, i, j) else 1.0
    {
      PaintedStep(lay, i, j, y, x);
      if lay.At(y, 0) <= i < lay.At(y, 0) + lay.tileSize && lay.At(x, 0) <= j < lay.At(x, 0) + lay.tileSize {
        var r, c := i - lay.At(y, 0), j - lay.At(x, 0);
        CellPixel(X, lay, y, x, r, c);
        ReshapeAt(X[k], lay.tileSize, r, c);
      }
    }
    return None;
  }

  /** Finishing grid row y paints what starting grid row y + 1 has painted. */
  lemma RowPainted(lay: Layout, y: nat)
    requires lay.Shaped()
    ensures forall i, j | 0 <= i < lay.height && 0 <= j < lay.width ::
      Painted(lay, i, j, y, lay.cols) == Painted(lay, i, j, y + 1, 0)
  {
    forall i, j | 0 <= i < lay.height && 0 <= j < lay.width
      ensures Painted(lay, i, j, y, lay.cols) == Painted(lay, i, j, y + 1, 0)
    {
      PixelRoom(lay, i, j);
    }
  }

  /** After the last grid row, every tile pixel of the canvas is painted. */
  lemma AllPainted(lay: Layout)
    requires lay.Shaped()
    ensures forall i, j | 0 <= i < lay.height && 0 <= j < lay.width ::
      Painted(lay, i, j, lay.rows, 0) == (i % lay.Stride() < lay.tileSize && j % lay.Stride() < lay.tileSize)
  {
    forall i, j | 0 <= i < lay.height && 0 <= j < lay.width
      ensures Painted(lay, i, j, lay.rows, 0) == (i % lay.Stride() < lay.tileSize && j % lay.Stride() < lay.tileSize)
    {
      PixelRoom(lay, i, j);
    }
  }

  /** Visiting every cell leaves no fault to raise. */
  lemma AllVisited(n: nat, lay: Layout)
    requires Visited(n, lay, RowMajor(lay.rows, lay.cols, 0))
    ensures CopyFault(n, lay) == None
  {
    if lay.rows > 0 && lay.cols > 0 {
      assert RowMajor(lay.rows, lay.cols, 0) > 0 by { MulLeq(1, lay.rows, lay.cols); }
    }
  }

  /**
   * Lines 46-52: for y in xrange(rows), for x in xrange(cols), reshape row y*cols+x and copy
   * it into cell (y, x) of the canvas. The first cell whose row is missing or of the wrong
   * length raises; otherwise every canvas pixel ends up as `Pixel` says.
   */
  method CopyTiles(X: seq<seq<real>>, lay: Layout, a: array2<real>) returns (fault: Option<TileError>)
    requires lay.Shaped()
    requires forall k | 0 <= k < |X| :: |X[k]| == lay.tileLength
    requires a.Length0 == lay.height && a.Length1 == lay.width
    requires forall i, j | 0 <= i < lay.height && 0 <= j < lay.width :: a[i, j] == 1.0
    modifies a
    ensures fault == CopyFault(|X|, lay)
    ensures fault.None? ==>
      forall i, j | 0 <= i < lay.height && 0 <= j < lay.width :: a[i, j] == Pixel(X, lay, i, j)
  {
    var y := 0;
    while y < lay.rows
      invariant 0 <= y <= lay.rows
      invariant Visited(|X|, lay, RowMajor(y, lay.cols, 0))
      invariant forall i, j | 0 <= i < lay.height && 0 <= j < lay.width ::
        a[i, j] == if Painted(lay, i, j, y, 0) then Pixel(X, lay, i, j) else 1.0
    {
      var x := 0;
      while x < lay.cols
        invariant 0 <= x <= lay.cols
        invariant Visited(|X|, lay, RowMajor(y, lay.cols, x))
        invariant forall i, j | 0 <= i < lay.height && 0 <= j < lay.width ::
          a[i, j] == if Painted(lay, i, j, y, x) then Pixel(X, lay, i, j) else 1.0
      {
        fault := CopyCell(X, lay, a, y, x);
        if fault.Some? {
          return;
        }
        x := x + 1;
      }
      assert RowMajor(y, lay.cols, lay.cols) == RowMajor(y + 1, lay.cols, 0);
      RowPainted(lay, y);
      y := y + 1;
    }
    AllPainted(lay);
    AllVisited(|X|, lay);
    return None;
  }

  /** The image a call returns: one plane, or a trailing channel axis. */
  datatype Image = Gray(plane: array2<real>) | Color(stack: array3<real>)

  lemma ChannelBound(width: nat, channels: nat, ch: nat)
    requires ch < channels
    ensures ch * (width / channels) + width / channels <= width
  {
    MulLeq(ch + 1, channels, width / channels);
    assert (ch + 1) * (width / channels) == ch * (width / channels) + width / channels;
  }

  /** X[:, ch*tile_length:(ch+1)*tile_length] of line 55: the columns of channel ch. */
  function ChannelSlice(X: seq<seq<real>>, width: nat, channels: nat, ch: nat): (sub: seq<seq<real>>)
    requires forall k | 0 <= k < |X| :: |X[k]| == width
    requires ch < channels
    ensures |sub| == |X| && forall k | 0 <= k < |sub| :: |sub[k]| == width / channels
  {
    var tileLength := width / channels;
    var start := ch * tileLength;
    ChannelBound(width, channels, ch);
    seq(|X|, k requires 0 <= k < |X| => X[k][start .. start + tileLength])
  }

  /** Line 55, `out_image[:,:,ch] = ...`: plane p becomes channel ch; other channels keep their values. */
  method PastePlane(a: array3<real>, p: array2<real>, ch: nat)
    requires a.Length0 == p.Length0 && a.Length1 == p.Length1 && ch < a.Length2
    modifies a
    ensures forall i, j, c | 0 <= i < a.Length0 && 0 <= j < a.Length1 && 0 <= c < a.Length2 ::
      a[i, j, c] == if c == ch then p[i, j] else old(a[i, j, c])
  {
    for i := 0 to a.Length0
      invariant forall i', j, c | 0 <= i' < a.Length0 && 0 <= j < a.Length1 && 0 <= c < a.Length2 ::
        a[i', j, c] == if c == ch && i' < i then p[i', j] else old(a[i', j, c])
    {
      for j := 0 to a.Length1
        invariant forall i', j', c | 0 <= i' < a.Length0 && 0 <= j' < a.Length1 && 0 <= c < a.Length2 ::
          a[i', j', c] == if c == ch && (i' < i || (i' == i && j' < j)) then p[i', j'] else old(a[i', j', c])
      {
        a[i, j, ch] := p[i, j];
      }
    }
  }

  /**
   * The per-channel call of line 55 passes the resolved grid on as a pair and the channel's
   * columns as X: its plan is the outer call's layout, and it fails exactly as the outer
   * call's copy step does.
   */
  lemma ChannelPlanAgrees(n: nat, width: nat, hint: GridHint, spacing: nat, channels: nat)
    requires channels > 1 && Prepare(n, width, hint, spacing, channels).Ok?
    ensures var lay := Prepare(n, width, hint, spacing, channels).value;
      var grid := ResolveGrid(hint, n).value;
      && Plan(n, width / channels, Listed([grid.0, grid.1]), spacing, 1)
         == Plan(n, width, hint, spacing, channels)
      && Prepare(n, width / channels, Listed([grid.0, grid.1]), spacing, 1) == Ok(lay)
  {
  }

  /** The canvas of a single-channel call: every pixel as `Pixel` says. */
  ghost predicate ShowsPlane(X: seq<seq<real>>, lay: Layout, a: array2<real>)
    reads a
  {
    && a.Length0 == lay.height && a.Length1 == lay.width
    && forall i, j | 0 <= i < lay.height && 0 <= j < lay.width :: a[i, j] == Pixel(X, lay, i, j)
  }

  /** The canvas of a multi-channel call: channel c is the mosaic of the columns of channel c. */
  ghost predicate ShowsStack(X: seq<seq<real>>, width: nat, channels: nat, lay: Layout, a: array3<real>)
    requires forall k | 0 <= k < |X| :: |X[k]| == width
    reads a
  {
    && a.Length0 == lay.height && a.Length1 == lay.width && a.Length2 == channels
    && forall i, j, c | 0 <= i < lay.height && 0 <= j < lay.width && 0 <= c < channels ::
         a[i, j, c] == Pixel(ChannelSlice(X, width, channels, c), lay, i, j)
  }

  /**
   * `tile(X, grid_shape, spacing, channel_count)` of lines 19-58 for an n-by-width X. It
   * fails exactly as `Plan` says; otherwise it returns a fresh canvas that is the mosaic of
   * X (one channel) or has, as channel c, the mosaic of the columns of channel c.
   */
  method Tile(X: seq<seq<real>>, width: nat, hint: GridHint, spacing: nat, channels: nat)
    returns (result: Result<Image, TileError>)
    requires forall k | 0 <= k < |X| :: |X[k]| == width
    ensures Plan(|X|, width, hint, spacing, channels).Err? ==>
      result == Err(Plan(|X|, width, hint, spacing, channels).error)
    ensures Plan(|X|, width, hint, spacing, channels).Ok? ==>
      var lay := Plan(|X|, width, hint, spacing, channels).value;
      && result.Ok?
      && (channels == 1 ==> result.value.Gray? && fresh(result.value.plane) && ShowsPlane(X, lay, result.value.plane))
      && (channels > 1 ==>
            result.value.Color? && fresh(result.value.stack)
            && ShowsStack(X, width, channels, lay, result.value.stack))
    decreases channels
  {
    if channels == 0 {
      return Err(ZeroChannelCount);
    }
    var tileLength := width / channels;
    var tileSize := FloorSqrt(tileLength);
    var grid := ResolveGrid(hint, |X|);
    if grid.Err? {
      return Err(grid.error);
    }
    var (rows, cols) := grid.value;
    var height := (tileSize + spacing) * rows - spacing;
    var wide := (tileSize + spacing) * cols - spacing;
    if height < 0 || wide < 0 {
      return Err(NegativeDimension);
    }
    var lay := Layout(tileLength, tileSize, spacing, Clamp(rows), Clamp(cols), height, wide);
    assert Prepare(|X|, width, hint, spacing, channels) == Ok(lay);
    PrepareShaped(|X|, width, hint, spacing, channels);
    if channels == 1 {
      var a := new real[height, wide]((i, j) => 1.0);
      var fault := CopyTiles(X, lay, a);
      if fault.Some? {
        return Err(fault.value);
      }
      return Ok(Gray(a));
    }
    var a := new real[height, wide, channels]((i, j, c) => 1.0);
    ChannelPlanAgrees(|X|, width, hint, spacing, channels);
    for ch := 0 to channels
      invariant ch > 0 ==> CopyFault(|X|, lay).None?
      invariant forall i, j, c | 0 <= i < height && 0 <= j < wide && 0 <= c < channels ::
        a[i, j, c] == if c < ch then Pixel(ChannelSlice(X, width, channels, c), lay, i, j) else 1.0
    {
      var sub := ChannelSlice(X, width, channels, ch);
      var plane := Tile(sub, tileLength, Listed([rows, cols]), spacing, 1);
      if plane.Err? {
        return Err(plane.error);
      }
      PastePlane(a, plane.value.plane, ch);
    }
    return Ok(Color(a));
  }

  /** Four 2x2 tiles in a (2, 2) grid with spacing 1 give a 5x5 canvas. */
  lemma FourTilesCanvas()
    ensures Plan(4, 4, Listed([2, 2]), 1, 1) == Ok(Layout(4, 2, 1, 2, 2, 5, 5))
    ensures Plan(4, 12, Listed([2, 2]), 1, 3) == Ok(Layout(4, 2, 1, 2, 2, 5, 5))
  {
    FloorSqrtUnique(4, 2);
  }

  /** In that 5x5 canvas, row 2 is background: the gap between the two rows of cells. */
  lemma FourTilesGapRow(X: seq<seq<real>>, j: nat)
    requires j < 5
    ensures Pixel(X, Layout(4, 2, 1, 2, 2, 5, 5), 2, j) == 1.0
  {
    GapRow(X, Layout(4, 2, 1, 2, 2, 5, 5), 0, 0, j);
  }

  /** In that 5x5 canvas, column 2 is background: the gap between the two columns of cells. */
  lemma FourTilesGapColumn(X: seq<seq<real>>, i: nat)
    requires i < 5
    ensures Pixel(X, Layout(4, 2, 1, 2, 2, 5, 5), i, 2) == 1.0
  {
    GapColumn(X, Layout(4, 2, 1, 2, 2, 5, 5), i, 0, 0);
  }

  /** One 4-pixel tile in a grid of 1 with spacing 1 gives a 2x2 canvas with no border... */
  lemma SingleTileCanvas()
    ensures Plan(1, 4, Scalar(1), 1, 1) == Ok(Layout(4, 2, 1, 1, 1, 2, 2))
  {
    FloorSqrtUnique(4, 2);
  }

  /** A 1x1 grid shows its one tile at the top-left corner of the canvas. */
  lemma SingleCell(X: seq<seq<real>>, lay: Layout, r: nat, c: nat)
    requires lay.Shaped() && lay.rows == 1 && lay.cols == 1
    requires r < lay.tileSize && c < lay.tileSize
    requires 0 < |X| && |X[0]| == lay.tileSize * lay.tileSize
    ensures RowMajor(r, lay.tileSize, c) < |X[0]|
    ensures Pixel(X, lay, r, c) == X[0][RowMajor(r, lay.tileSize, c)]
  {
    assert lay.At(0, r) == r && lay.At(0, c) == c;
    CellPixel(X, lay, 0, 0, r, c);
  }

  /** ...whose pixels are the tile's, reshaped. */
  lemma SingleTilePixels(X: seq<seq<real>>, r: nat, c: nat)
    requires |X| == 1 && |X[0]| == 4 && r < 2 && c < 2
    ensures Pixel(X, Layout(4, 2, 1, 1, 1, 2, 2), r, c) == X[0][2 * r + c]
  {
    SingleCell(X, Layout(4, 2, 1, 1, 1, 2, 2), r, c);
  }

  /**
   * A row whose channel length is not a square fails to reshape; a grid with more cells
   * than rows fails on the first missing row; an empty batch infers a 0x0 grid, whose
   * canvas side -spacing is refused by np.ones.
   */
  lemma FailureExamples()
    ensures Plan(4, 5, Listed([2, 2]), 1, 1) == Err(ReshapeMismatch)
    ensures Plan(3, 4, Listed([2, 2]), 1, 1) == Err(RowIndexOutOfRange)
    ensures Plan(4, 4, Listed([2, 2, 1]), 1, 1) == Err(BadGridShape)
    ensures Plan(0, 4, Omitted, 1, 1) == Err(NegativeDimension)
    ensures Plan(4, 4, Omitted, 1, 0) == Err(ZeroChannelCount)
  {
    FloorSqrtUnique(5, 2);
    FloorSqrtUnique(4, 2);
  }
}
