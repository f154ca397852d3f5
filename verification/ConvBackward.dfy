/**
 The gradients of the convolution: the naive loops and the chunked column form add up the same
 sums, and those are the transpose of the forward map in the input and in the weights.
 */
module ConvBackward {
  import opened Conv
  import opened Layout
  import opened Sums

  // ----- what the gradients are -----

  predicate Covers(from: int, size: nat, at: int) { from <= at < from + size }

  /** What output (o, y, xx) of image b adds to the gradient of pixel (c, h, w). */
  function Touch(s: Shape, weight: Grid, g: Grid, b: int, c: int, h: int, w: int): (int, int, int) -> real {
    (o, y, xx) =>
      if Covers(y * s.sh, s.kh, h) && Covers(xx * s.sw, s.kw, w)
      then Times(weight(o, c, h - y * s.sh, w - xx * s.sw), g(b, o, y, xx))
      else 0.0
  }

  /** What output (b, y, xx) of filter o adds to the gradient of weight (c, i, j). */
  function Meet(s: Shape, x: Grid, g: Grid, o: int, c: int, i: int, j: int): (int, int, int) -> real {
    (b, y, xx) => Times(x(b, c, y * s.sh + i, xx * s.sw + j), g(b, o, y, xx))
  }

  function GradX(s: Shape, weight: Grid, g: Grid, b: int, c: int, h: int, w: int): real {
    Sum3(s.filters, s.outH, s.outW, Touch(s, weight, g, b, c, h, w))
  }

  function GradW(s: Shape, x: Grid, g: Grid, o: int, c: int, i: int, j: int): real {
    Sum3(s.batch, s.outH, s.outW, Meet(s, x, g, o, c, i, j))
  }

  // ----- the naive loops -----

  function LoadTap(s: Shape, x: Grid, b: nat, y: nat, xx: nat, c: nat, i: nat, j: nat): real
    requires Conv.Valid(s) && IsOutput(s, b, 0, y, xx) && IsWeight(s, 0, c, i, j)
  {
    WindowInside(s, y, i);
    WindowInside(s, xx, j);
    Load(s, x, b, c, y * s.sh + i, xx * s.sw + j)
  }

  class Gradients {
    const s: Shape
    const x: Grid
    const weight: Grid
    const g: Grid
    const gx: array4<real>
    const gw: array4<real>

    ghost predicate Valid()
      reads this
    {
      && Conv.Valid(s) && gx != gw
      && Sized(gx, s.batch, s.channels, s.height, s.width)
      && Sized(gw, s.filters, s.channels, s.kh, s.kw)
    }

    constructor (s: Shape, x: Grid, weight: Grid, g: Grid)
      requires Conv.Valid(s)
      ensures Valid() && fresh(gx) && fresh(gw)
      ensures this.s == s && this.x == x && this.weight == weight && this.g == g
      ensures forall b, c, h, w | Inside(s, b, c, h, w) :: gx[b, c, h, w] == 0.0
      ensures forall o, c, i, j | IsWeight(s, o, c, i, j) :: gw[o, c, i, j] == 0.0
    {
      this.s, this.x, this.weight, this.g := s, x, weight, g;
      gx := new real[s.batch, s.channels, s.height, s.width]((_, _, _, _) => 0.0);
      gw := new real[s.filters, s.channels, s.kh, s.kw]((_, _, _, _) => 0.0);
    }

    /** The window of the input gradient that one output position touches. */
    method AddWindow(b: nat, o: nat, y: nat, xx: nat)
      requires Valid() && IsOutput(s, b, o, y, xx)
      modifies gx
      ensures forall a, c, h, w | Inside(s, a, c, h, w) ::
                gx[a, c, h, w] == old(gx[a, c, h, w]) + if a == b then Touch(s, weight, g, b, c, h, w)(o, y, xx) else 0.0
    {
      var top, left, upstream := y * s.sh, xx * s.sw, g(b, o, y, xx);
      WindowInside(s, y, s.kh - 1);
      WindowInside(s, xx, s.kw - 1);
      hide Times;
      forall c, h, w | 0 <= c < s.channels && top <= h < top + s.kh && left <= w < left + s.kw {
        gx[b, c, h, w] := gx[b, c, h, w] + Times(weight(o, c, h - top, w - left), upstream);
      }
    }

    /** The filter of the weight gradient that one output position touches. */
    method AddFilter(b: nat, o: nat, y: nat, xx: nat)
      requires Valid() && IsOutput(s, b, o, y, xx)
      modifies gw
      ensures forall p, c, i, j | IsWeight(s, p, c, i, j) ::
                gw[p, c, i, j] == old(gw[p, c, i, j]) + if p == o then Meet(s, x, g, o, c, i, j)(b, y, xx) else 0.0
    {
      hide Times;
      forall c, i, j | 0 <= c < s.channels && 0 <= i < s.kh && 0 <= j < s.kw {
        gw[o, c, i, j] := gw[o, c, i, j] + Times(LoadTap(s, x, b, y, xx, c, i, j), g(b, o, y, xx));
      }
    }

    method AddPosition(b: nat, o: nat, y: nat, xx: nat)
      requires Valid() && IsOutput(s, b, o, y, xx)
      modifies gx, gw
      ensures forall a, c, h, w | Inside(s, a, c, h, w) ::
                gx[a, c, h, w] == old(gx[a, c, h, w]) + if a == b then Touch(s, weight, g, b, c, h, w)(o, y, xx) else 0.0
      ensures forall p, c, i, j | IsWeight(s, p, c, i, j) ::
                gw[p, c, i, j] == old(gw[p, c, i, j]) + if p == o then Meet(s, x, g, o, c, i, j)(b, y, xx) else 0.0
    {
      hide Touch, Meet;
      AddWindow(b, o, y, xx);
      AddFilter(b, o, y, xx);
    }

    method AddRow(b: nat, o: nat, y: nat)
      requires Valid() && b < s.batch && o < s.filters && y < s.outH
      modifies gx, gw
      ensures forall a, c, h, w | Inside(s, a, c, h, w) ::
                gx[a, c, h, w] == old(gx[a, c, h, w])
                  + if a == b then Middle(Touch(s, weight, g, b, c, h, w), s.outW, o)(y) else 0.0
      ensures forall p, c, i, j | IsWeight(s, p, c, i, j) ::
                gw[p, c, i, j] == old(gw[p, c, i, j])
                  + if p == o then Middle(Meet(s, x, g, o, c, i, j), s.outW, b)(y) else 0.0
    {
      hide Touch, Meet;
      for xx := 0 to s.outW
        invariant forall a, c, h, w | Inside(s, a, c, h, w) ::
            gx[a, c, h, w] == old(gx[a, c, h, w])
              + if a == b then Sum(xx, Last(Touch(s, weight, g, b, c, h, w), o, y)) else 0.0
        invariant forall p, c, i, j | IsWeight(s, p, c, i, j) ::
            gw[p, c, i, j] == old(gw[p, c, i, j])
              + if p == o then Sum(xx, Last(Meet(s, x, g, o, c, i, j), b, y)) else 0.0
      {
        AddPosition(b, o, y, xx);
      }
    }

    method AddPlane(b: nat, o: nat)
      requires Valid() && b < s.batch && o < s.filters
      modifies gx, gw
      ensures forall a, c, h, w | Inside(s, a, c, h, w) ::
                gx[a, c, h, w] == old(gx[a, c, h, w])
                  + if a == b then First(Touch(s, weight, g, b, c, h, w), s.outH, s.outW)(o) else 0.0
      ensures forall p, c, i, j | IsWeight(s, p, c, i, j) ::
                gw[p, c, i, j] == old(gw[p, c, i, j])
                  + if p == o then First(Meet(s, x, g, o, c, i, j), s.outH, s.outW)(b) else 0.0
    {
      hide Touch, Meet, Middle;
      for y := 0 to s.outH
        invariant forall a, c, h, w | Inside(s, a, c, h, w) ::
            gx[a, c, h, w] == old(gx[a, c, h, w])
              + if a == b then Sum(y, Middle(Touch(s, weight, g, b, c, h, w), s.outW, o)) else 0.0
        invariant forall p, c, i, j | IsWeight(s, p, c, i, j) ::
            gw[p, c, i, j] == old(gw[p, c, i, j])
              + if p == o then Sum(y, Middle(Meet(s, x, g, o, c, i, j), s.outW, b)) else 0.0
      {
        AddRow(b, o, y);
      }
    }

    method AddImage(b: nat)
      requires Valid() && b < s.batch
      modifies gx, gw
      ensures forall a, c, h, w | Inside(s, a, c, h, w) ::
                gx[a, c, h, w] == old(gx[a, c, h, w])
                  + if a == b then Sum(s.filters, First(Touch(s, weight, g, b, c, h, w), s.outH, s.outW)) else 0.0
      ensures forall o, c, i, j | IsWeight(s, o, c, i, j) ::
                gw[o, c, i, j] == old(gw[o, c, i, j]) + First(Meet(s, x, g, o, c, i, j), s.outH, s.outW)(b)
    {
      hide Touch, Meet, First;
      for o := 0 to s.filters
        invariant forall a, c, h, w | Inside(s, a, c, h, w) ::
            gx[a, c, h, w] == old(gx[a, c, h, w])
              + if a == b then Sum(o, First(Touch(s, weight, g, b, c, h, w), s.outH, s.outW)) else 0.0
        invariant forall p, c, i, j | IsWeight(s, p, c, i, j) ::
            gw[p, c, i, j] == old(gw[p, c, i, j])
              + if p < o then First(Meet(s, x, g, p, c, i, j), s.outH, s.outW)(b) else 0.0
      {
        AddPlane(b, o);
      }
    }

    method BackwardNaive()
      requires Valid()
      requires forall b, c, h, w | Inside(s, b, c, h, w) :: gx[b, c, h, w] == 0.0
      requires forall o, c, i, j | IsWeight(s, o, c, i, j) :: gw[o, c, i, j] == 0.0
      modifies gx, gw
      ensures forall b, c, h, w | Inside(s, b, c, h, w) :: gx[b, c, h, w] == GradX(s, weight, g, b, c, h, w)
      ensures forall o, c, i, j | IsWeight(s, o, c, i, j) :: gw[o, c, i, j] == GradW(s, x, g, o, c, i, j)
    {
      for b := 0 to s.batch
        invariant forall a, c, h, w | Inside(s, a, c, h, w) ::
            gx[a, c, h, w]
              == if a < b then Sum(s.filters, First(Touch(s, weight, g, a, c, h, w), s.outH, s.outW)) else 0.0
        invariant forall o, c, i, j | IsWeight(s, o, c, i, j) ::
            gw[o, c, i, j] == Sum(b, First(Meet(s, x, g, o, c, i, j), s.outH, s.outW))
      {
        hide Touch, Meet, First;
        AddImage(b);
      }
      forall b, c, h, w | Inside(s, b, c, h, w) ensures gx[b, c, h, w] == GradX(s, weight, g, b, c, h, w) {
        FirstIsSum3(Touch(s, weight, g, b, c, h, w), s.filters, s.outH, s.outW);
      }
      forall o, c, i, j | IsWeight(s, o, c, i, j) ensures gw[o, c, i, j] == GradW(s, x, g, o, c, i, j) {
        FirstIsSum3(Meet(s, x, g, o, c, i, j), s.batch, s.outH, s.outW);
      }
    }
  }

  // ----- the column form -----

  /** out_grad with its axes moved, as rows. */
  function UpAt(s: Shape, g: Grid, r: nat, o: int): real
    requires s.outH > 0 && s.outW > 0
  {
    g(Hi(s.outH, s.outW, r), o, Mid(s.outH, s.outW, r), Lo(s.outH, s.outW, r))
  }

  function UpTerms(s: Shape, weight: Grid, g: Grid, r: nat, t: nat): int -> real
    requires Conv.Valid(s)
  {
    o => if o >= 0 then Times(UpAt(s, g, r, o), WeightAt(s, weight, o, t)) else 0.0
  }

  /** upstream @ weight_rows at row r and tap t. */
  function GradColumn(s: Shape, weight: Grid, g: Grid, r: nat, t: nat): real
    requires Conv.Valid(s)
  {
    Sum(s.filters, UpTerms(s, weight, g, r, t))
  }

  predicate HitsPixel(s: Shape, r: nat, t: nat, b: int, c: int, h: int, w: int)
    requires Conv.Valid(s)
  {
    && b == Hi(s.outH, s.outW, r) && c == Hi(s.kh, s.kw, t)
    && h == Mid(s.outH, s.outW, r) * s.sh + Mid(s.kh, s.kw, t)
    && w == Lo(s.outH, s.outW, r) * s.sw + Lo(s.kh, s.kw, t)
  }

  /** What row r scatters onto pixel (b, c, h, w), tap by tap. */
  function Scattered(s: Shape, weight: Grid, g: Grid, r: nat, b: int, c: int, h: int, w: int): int -> real
    requires Conv.Valid(s)
  {
    t => if t >= 0 && HitsPixel(s, r, t, b, c, h, w) then GradColumn(s, weight, g, r, t) else 0.0
  }

  function ScatteredRows(s: Shape, weight: Grid, g: Grid, b: int, c: int, h: int, w: int): int -> real
    requires Conv.Valid(s)
  {
    r => if r >= 0 then Sum(Taps(s), Scattered(s, weight, g, r, b, c, h, w)) else 0.0
  }

  /** What the rows add to weight (o, t): upstream.T @ columns, row by row. */
  function UpColumns(s: Shape, x: Grid, g: Grid, o: int, t: nat): int -> real
    requires Conv.Valid(s) && t < Taps(s)
  {
    r => if 0 <= r < Rows(s) then Times(Pixel(s, x, r, t), UpAt(s, g, r, o)) else 0.0
  }

  class ColumnGradients {
    const s: Shape
    const x: Grid
    const weight: Grid
    const g: Grid
    const gx: array4<real>
    const gwRows: array2<real>

    ghost predicate Valid()
      reads this
    {
      && Conv.Valid(s)
      && Sized(gx, s.batch, s.channels, s.height, s.width)
      && gwRows.Length0 == s.filters && gwRows.Length1 == Taps(s)
    }

    constructor (s: Shape, x: Grid, weight: Grid, g: Grid)
      requires Conv.Valid(s)
      ensures Valid() && fresh(gx) && fresh(gwRows)
      ensures this.s == s && this.x == x && this.weight == weight && this.g == g
      ensures forall b, c, h, w | Inside(s, b, c, h, w) :: gx[b, c, h, w] == 0.0
      ensures forall o, t | 0 <= o < s.filters && 0 <= t < Taps(s) :: gwRows[o, t] == 0.0
    {
      this.s, this.x, this.weight, this.g := s, x, weight, g;
      gx := new real[s.batch, s.channels, s.height, s.width]((_, _, _, _) => 0.0);
      gwRows := new real[s.filters, Taps(s)]((_, _) => 0.0);
    }

    /** One row of the scatter-add. */
    method ScatterRow(r: nat)
      requires Valid() && r < Rows(s)
      modifies gx
      ensures forall b, c, h, w | Inside(s, b, c, h, w) ::
                gx[b, c, h, w] == old(gx[b, c, h, w]) + ScatteredRows(s, weight, g, b, c, h, w)(r)
    {
      hide GradColumn;
      for t := 0 to Taps(s)
        invariant forall b, c, h, w | Inside(s, b, c, h, w) ::
            gx[b, c, h, w] == old(gx[b, c, h, w]) + Sum(t, Scattered(s, weight, g, r, b, c, h, w))
      {
        AddTap(r, t);
      }
    }

    method AddTap(r: nat, t: nat)
      requires Valid() && r < Rows(s) && t < Taps(s)
      modifies gx
      ensures forall b, c, h, w | Inside(s, b, c, h, w) ::
                gx[b, c, h, w] == old(gx[b, c, h, w]) + Scattered(s, weight, g, r, b, c, h, w)(t)
    {
      PixelInside(s, r, t);
      var b, c := Hi(s.outH, s.outW, r), Hi(s.kh, s.kw, t);
      var h, w := Mid(s.outH, s.outW, r) * s.sh + Mid(s.kh, s.kw, t), Lo(s.outH, s.outW, r) * s.sw + Lo(s.kh, s.kw, t);
      hide GradColumn, Hi, Mid, Lo;
      gx[b, c, h, w] := gx[b, c, h, w] + GradColumn(s, weight, g, r, t);
    }

    method ScatterChunk(start: nat, end: nat)
      requires Valid() && start <= end <= Rows(s)
      modifies gx
      ensures forall b, c, h, w | Inside(s, b, c, h, w) ::
                gx[b, c, h, w] == old(gx[b, c, h, w])
                  + Sum(end, ScatteredRows(s, weight, g, b, c, h, w)) - Sum(start, ScatteredRows(s, weight, g, b, c, h, w))
    {
      hide ScatteredRows;
      for r := start to end
        invariant forall b, c, h, w | Inside(s, b, c, h, w) ::
            gx[b, c, h, w] == old(gx[b, c, h, w])
              + Sum(r, ScatteredRows(s, weight, g, b, c, h, w)) - Sum(start, ScatteredRows(s, weight, g, b, c, h, w))
      {
        ScatterRow(r);
      }
    }

    method MultiplyChunk(start: nat, end: nat)
      requires Valid() && start <= end <= Rows(s)
      modifies gwRows
      ensures forall o, t | 0 <= o < s.filters && 0 <= t < Taps(s) ::
                gwRows[o, t] == old(gwRows[o, t]) + Sum(end, UpColumns(s, x, g, o, t)) - Sum(start, UpColumns(s, x, g, o, t))
    {
      forall o: nat, t: nat | o < s.filters && t < Taps(s)
        ensures ChunkDot(s, x, g, start, end, o, t)
                == Sum(end, UpColumns(s, x, g, o, t)) - Sum(start, UpColumns(s, x, g, o, t))
      {
        ChunkDotIs(s, x, g, start, end, o, t);
      }
      hide ChunkDot, UpColumns, Sum;
      forall o, t | 0 <= o < s.filters && 0 <= t < Taps(s) {
        gwRows[o, t] := gwRows[o, t] + ChunkDot(s, x, g, start, end, o, t);
      }
    }

    /** All chunks, whatever their size, add up all rows. */
    method SweepChunks(chunk: nat)
      requires Valid() && chunk > 0
      requires forall b, c, h, w | Inside(s, b, c, h, w) :: gx[b, c, h, w] == 0.0
      requires forall o, t | 0 <= o < s.filters && 0 <= t < Taps(s) :: gwRows[o, t] == 0.0
      modifies gx, gwRows
      ensures forall b, c, h, w | Inside(s, b, c, h, w) ::
                gx[b, c, h, w] == Sum(Rows(s), ScatteredRows(s, weight, g, b, c, h, w))
      ensures forall o, t | 0 <= o < s.filters && 0 <= t < Taps(s) ::
                gwRows[o, t] == Sum(Rows(s), UpColumns(s, x, g, o, t))
    {
      hide ScatteredRows, UpColumns, Rows, Taps;
      var total, start := Rows(s), 0;
      while start < total
        invariant start <= total
        invariant forall b, c, h, w | Inside(s, b, c, h, w) ::
            gx[b, c, h, w] == Sum(start, ScatteredRows(s, weight, g, b, c, h, w))
        invariant forall o, t | 0 <= o < s.filters && 0 <= t < Taps(s) ::
            gwRows[o, t] == Sum(start, UpColumns(s, x, g, o, t))
      {
        var end := if start + chunk < total then start + chunk else total;
        MultiplyChunk(start, end);
        ScatterChunk(start, end);
        start := end;
      }
    }

    method BackwardIm2col(itemSize: nat, limit: nat)
      requires Valid() && itemSize > 0
      requires forall b, c, h, w | Inside(s, b, c, h, w) :: gx[b, c, h, w] == 0.0
      requires forall o, t | 0 <= o < s.filters && 0 <= t < Taps(s) :: gwRows[o, t] == 0.0
      modifies gx, gwRows
      ensures forall b, c, h, w | Inside(s, b, c, h, w) :: gx[b, c, h, w] == GradX(s, weight, g, b, c, h, w)
      ensures forall o, c, i, j | IsWeight(s, o, c, i, j) ::
                Flat(s.kh, s.kw, c, i, j) < Taps(s)
                && gwRows[o, Flat(s.kh, s.kw, c, i, j)] == GradW(s, x, g, o, c, i, j)
    {
      ChunkFitsLimit(s, itemSize, limit);
      hide ScatteredRows, UpColumns, RowsPerChunk, Rows, Taps, GradX, GradW, Flat, Sum;
      SweepChunks(RowsPerChunk(s, itemSize, limit));
      forall b, c, h, w | Inside(s, b, c, h, w) ensures gx[b, c, h, w] == GradX(s, weight, g, b, c, h, w) {
        ScatterIsGradX(s, weight, g, b, c, h, w);
      }
      forall o, c, i, j | IsWeight(s, o, c, i, j)
        ensures Flat(s.kh, s.kw, c, i, j) < Taps(s)
        ensures gwRows[o, Flat(s.kh, s.kw, c, i, j)] == GradW(s, x, g, o, c, i, j)
      {
        UpColumnsIsGradW(s, x, g, o, c, i, j);
      }
    }
  }

  function ChunkTerms(s: Shape, x: Grid, g: Grid, start: nat, end: nat, o: nat, t: nat): int -> real
    requires Conv.Valid(s) && start <= end <= Rows(s) && t < Taps(s)
  {
    r => if 0 <= r < end - start then Times(Pixel(s, x, start + r, t), UpAt(s, g, start + r, o)) else 0.0
  }

  function ChunkDot(s: Shape, x: Grid, g: Grid, start: nat, end: nat, o: nat, t: nat): real
    requires Conv.Valid(s) && start <= end <= Rows(s) && t < Taps(s)
  {
    Sum(end - start, ChunkTerms(s, x, g, start, end, o, t))
  }

  lemma ChunkDotIs(s: Shape, x: Grid, g: Grid, start: nat, end: nat, o: nat, t: nat)
    requires Conv.Valid(s) && start <= end <= Rows(s) && t < Taps(s)
    ensures ChunkDot(s, x, g, start, end, o, t)
            == Sum(end, UpColumns(s, x, g, o, t)) - Sum(start, UpColumns(s, x, g, o, t))
  {
    hide Sum, Pixel, UpAt, Times;
    var tail := (r: int) => UpColumns(s, x, g, o, t)(start + r);
    SumSplit(start, end - start, UpColumns(s, x, g, o, t), tail);
    SumCongruence(end - start, ChunkTerms(s, x, g, start, end, o, t), tail);
  }

  // ----- both forms add up the same sums -----

  lemma UpColumnsIsGradW(s: Shape, x: Grid, g: Grid, o: int, c: int, i: int, j: int)
    requires Conv.Valid(s) && IsWeight(s, o, c, i, j)
    ensures Flat(s.kh, s.kw, c, i, j) < Taps(s)
    ensures Sum(Rows(s), UpColumns(s, x, g, o, Flat(s.kh, s.kw, c, i, j))) == GradW(s, x, g, o, c, i, j)
  {
    PartsOfFlat(s.channels, s.kh, s.kw, c, i, j);
    var t := Flat(s.kh, s.kw, c, i, j);
    hide Flat, Hi, Mid, Lo, Sum, Sum3, Times;
    SumOfFlat(s.batch, s.outH, s.outW, Meet(s, x, g, o, c, i, j), UpColumns(s, x, g, o, t));
  }

  function OverFilters(s: Shape, f: (int, int, int) -> real): (int, int) -> real {
    (y, xx) => Sum(s.filters, o => f(o, y, xx))
  }

  function OnImage(b: int, p: (int, int) -> real): (int, int, int) -> real {
    (a, y, xx) => if a == b then p(y, xx) else 0.0
  }

  lemma HitCovers(s: Shape, r: nat, t: nat, b: int, c: int, h: int, w: int)
    requires Conv.Valid(s) && r < Rows(s) && t < Taps(s) && HitsPixel(s, r, t, b, c, h, w)
    ensures var y, xx := Mid(s.outH, s.outW, r), Lo(s.outH, s.outW, r);
            && Covers(y * s.sh, s.kh, h) && Covers(xx * s.sw, s.kw, w)
            && 0 <= c && t == Flat(s.kh, s.kw, c, h - y * s.sh, w - xx * s.sw)
  {
    FlatOfParts(s.channels, s.kh, s.kw, t);
    hide Hi, Mid, Lo, Flat;
  }

  /** The one tap that hits a covered pixel. */
  lemma CoverHits(s: Shape, r: nat, b: int, c: int, h: int, w: int)
    requires Conv.Valid(s) && r < Rows(s) && Inside(s, b, c, h, w) && b == Hi(s.outH, s.outW, r)
    requires Covers(Mid(s.outH, s.outW, r) * s.sh, s.kh, h) && Covers(Lo(s.outH, s.outW, r) * s.sw, s.kw, w)
    ensures var i, j := h - Mid(s.outH, s.outW, r) * s.sh, w - Lo(s.outH, s.outW, r) * s.sw;
            var t := Flat(s.kh, s.kw, c, i, j);
            && t < Taps(s) && HitsPixel(s, r, t, b, c, h, w)
            && Hi(s.kh, s.kw, t) == c && Mid(s.kh, s.kw, t) == i && Lo(s.kh, s.kw, t) == j
  {
    var i, j := h - Mid(s.outH, s.outW, r) * s.sh, w - Lo(s.outH, s.outW, r) * s.sw;
    PartsOfFlat(s.channels, s.kh, s.kw, c, i, j);
    hide Hi, Mid, Lo, Flat;
  }

  lemma ColumnIsTouch(s: Shape, weight: Grid, g: Grid, r: nat, b: int, c: int, h: int, w: int)
    requires Conv.Valid(s) && r < Rows(s) && Inside(s, b, c, h, w) && b == Hi(s.outH, s.outW, r)
    requires Covers(Mid(s.outH, s.outW, r) * s.sh, s.kh, h) && Covers(Lo(s.outH, s.outW, r) * s.sw, s.kw, w)
    ensures var y, xx := Mid(s.outH, s.outW, r), Lo(s.outH, s.outW, r);
            var t := Flat(s.kh, s.kw, c, h - y * s.sh, w - xx * s.sw);
            GradColumn(s, weight, g, r, t) == OverFilters(s, Touch(s, weight, g, b, c, h, w))(y, xx)
  {
    CoverHits(s, r, b, c, h, w);
    var y, xx := Mid(s.outH, s.outW, r), Lo(s.outH, s.outW, r);
    var t := Flat(s.kh, s.kw, c, h - y * s.sh, w - xx * s.sw);
    var f := (o: int) => Touch(s, weight, g, b, c, h, w)(o, y, xx);
    forall o: int | 0 <= o < s.filters ensures UpTerms(s, weight, g, r, t)(o) == f(o) {
      UpTermIsTouch(s, weight, g, r, t, b, c, h, w, o);
    }
    hide Hi, Mid, Lo, Flat, Sum, Times, Touch, UpTerms;
    SumCongruence(s.filters, UpTerms(s, weight, g, r, t), f);
  }

  lemma UpTermIsTouch(s: Shape, weight: Grid, g: Grid, r: nat, t: nat, b: int, c: int, h: int, w: int, o: nat)
    requires Conv.Valid(s) && r < Rows(s) && b == Hi(s.outH, s.outW, r)
    requires Covers(Mid(s.outH, s.outW, r) * s.sh, s.kh, h) && Covers(Lo(s.outH, s.outW, r) * s.sw, s.kw, w)
    requires Hi(s.kh, s.kw, t) == c && Mid(s.kh, s.kw, t) == h - Mid(s.outH, s.outW, r) * s.sh
    requires Lo(s.kh, s.kw, t) == w - Lo(s.outH, s.outW, r) * s.sw
    ensures UpTerms(s, weight, g, r, t)(o)
            == Touch(s, weight, g, b, c, h, w)(o, Mid(s.outH, s.outW, r), Lo(s.outH, s.outW, r))
  {
    TimesLaws(UpAt(s, g, r, o), WeightAt(s, weight, o, t), 0.0);
    hide Hi, Mid, Lo, Times;
  }

  lemma RowHits(s: Shape, weight: Grid, g: Grid, r: nat, b: int, c: int, h: int, w: int)
    requires Conv.Valid(s) && r < Rows(s) && Inside(s, b, c, h, w) && b == Hi(s.outH, s.outW, r)
    requires Covers(Mid(s.outH, s.outW, r) * s.sh, s.kh, h) && Covers(Lo(s.outH, s.outW, r) * s.sw, s.kw, w)
    ensures Sum(Taps(s), Scattered(s, weight, g, r, b, c, h, w))
            == OverFilters(s, Touch(s, weight, g, b, c, h, w))(Mid(s.outH, s.outW, r), Lo(s.outH, s.outW, r))
  {
    var y, xx := Mid(s.outH, s.outW, r), Lo(s.outH, s.outW, r);
    var f := Scattered(s, weight, g, r, b, c, h, w);
    CoverHits(s, r, b, c, h, w);
    ColumnIsTouch(s, weight, g, r, b, c, h, w);
    hide Hi, Mid, Lo, Flat, Sum, GradColumn, Taps, Rows, HitsPixel, OverFilters, Touch;
    var at := Flat(s.kh, s.kw, c, h - y * s.sh, w - xx * s.sw);
    forall t: nat | t < Taps(s) && t != at ensures f(t) == 0.0 {
      if HitsPixel(s, r, t, b, c, h, w) {
        HitCovers(s, r, t, b, c, h, w);
      }
    }
    SumSingle(Taps(s), at, f);
  }

  lemma RowMisses(s: Shape, weight: Grid, g: Grid, r: nat, b: int, c: int, h: int, w: int)
    requires Conv.Valid(s) && r < Rows(s) && Inside(s, b, c, h, w)
    requires !(b == Hi(s.outH, s.outW, r)
               && Covers(Mid(s.outH, s.outW, r) * s.sh, s.kh, h) && Covers(Lo(s.outH, s.outW, r) * s.sw, s.kw, w))
    ensures Sum(Taps(s), Scattered(s, weight, g, r, b, c, h, w)) == 0.0
  {
    var f := Scattered(s, weight, g, r, b, c, h, w);
    hide Hi, Mid, Lo, Flat, Sum, GradColumn, Taps, Rows, HitsPixel;
    forall t: nat | t < Taps(s) ensures f(t) == 0.0 {
      if HitsPixel(s, r, t, b, c, h, w) {
        HitCovers(s, r, t, b, c, h, w);
        HitsItsImage(s, r, t, b, c, h, w);
      }
    }
    SumZero(Taps(s), f);
  }

  lemma NotTouched(s: Shape, weight: Grid, g: Grid, b: int, c: int, h: int, w: int, y: int, xx: int)
    requires !(Covers(y * s.sh, s.kh, h) && Covers(xx * s.sw, s.kw, w))
    ensures OverFilters(s, Touch(s, weight, g, b, c, h, w))(y, xx) == 0.0
  {
    hide Sum;
    var f := (o: int) => Touch(s, weight, g, b, c, h, w)(o, y, xx);
    forall o: int | 0 <= o < s.filters ensures f(o) == 0.0 {
      UntouchedBy(s, weight, g, b, c, h, w, o, y, xx);
    }
    SumZero(s.filters, f);
  }

  lemma UntouchedBy(s: Shape, weight: Grid, g: Grid, b: int, c: int, h: int, w: int, o: int, y: int, xx: int)
    requires !(Covers(y * s.sh, s.kh, h) && Covers(xx * s.sw, s.kw, w))
    ensures Touch(s, weight, g, b, c, h, w)(o, y, xx) == 0.0
  {
  }

  /** A row's scatter onto one pixel is what its output position adds to that pixel, over all filters. */
  lemma RowScatters(s: Shape, weight: Grid, g: Grid, r: nat, b: int, c: int, h: int, w: int)
    requires Conv.Valid(s) && r < Rows(s) && Inside(s, b, c, h, w)
    ensures ScatteredRows(s, weight, g, b, c, h, w)(r)
            == OnImage(b, OverFilters(s, Touch(s, weight, g, b, c, h, w)))(
                 Hi(s.outH, s.outW, r), Mid(s.outH, s.outW, r), Lo(s.outH, s.outW, r))
  {
    var y, xx := Mid(s.outH, s.outW, r), Lo(s.outH, s.outW, r);
    if Hi(s.outH, s.outW, r) == b && Covers(y * s.sh, s.kh, h) && Covers(xx * s.sw, s.kw, w) {
      RowHits(s, weight, g, r, b, c, h, w);
    } else {
      RowMisses(s, weight, g, r, b, c, h, w);
      if Hi(s.outH, s.outW, r) == b {
        NotTouched(s, weight, g, b, c, h, w, y, xx);
      }
    }
    hide Hi, Mid, Lo, Sum, Scattered, OverFilters, Touch, Rows, Taps;
  }

  lemma HitsItsImage(s: Shape, r: nat, t: nat, b: int, c: int, h: int, w: int)
    requires Conv.Valid(s) && HitsPixel(s, r, t, b, c, h, w)
    ensures b == Hi(s.outH, s.outW, r)
  {
  }

  lemma SwapInside(k: nat, m: nat, b: int, f: (int, int, int) -> real)
    ensures Sum(k, a => Sum(m, c => f(a, b, c))) == Sum(m, c => Sum(k, a => f(a, b, c)))
  {
    hide Sum;
    var p := (a: int, c: int) => f(a, b, c);
    SumSwap(k, m, p);
    var rows, rows2 := (a: int) => Sum(m, c => f(a, b, c)), (a: int) => Sum(m, c => p(a, c));
    forall a: int | 0 <= a < k ensures rows(a) == rows2(a) {
      SumCongruence(m, c => f(a, b, c), c => p(a, c));
    }
    SumCongruence(k, rows, rows2);
    var columns, columns2 := (c: int) => Sum(k, a => f(a, b, c)), (c: int) => Sum(k, a => p(a, c));
    forall c: int | 0 <= c < m ensures columns(c) == columns2(c) {
      SumCongruence(k, a => f(a, b, c), a => p(a, c));
    }
    SumCongruence(m, columns, columns2);
  }

  /** Summing the first axis last. */
  lemma Rotated(k: nat, n: nat, m: nat, f: (int, int, int) -> real)
    ensures Sum3(k, n, m, f) == Sum(n, b => Sum(m, c => Sum(k, a => f(a, b, c))))
  {
    hide Sum;
    var inner := (a: int, b: int) => Sum(m, c => f(a, b, c));
    SumSwap(k, n, inner);
    var left, right := (b: int) => Sum(k, a => inner(a, b)), (b: int) => Sum(m, c => Sum(k, a => f(a, b, c)));
    forall b: int | 0 <= b < n ensures left(b) == right(b) {
      SumCongruence(k, a => inner(a, b), a => Sum(m, c => f(a, b, c)));
      SwapInside(k, m, b, f);
    }
    SumCongruence(n, left, right);
    var outer, same := (a: int) => Sum(n, b => inner(a, b)), (a: int) => Sum(n, b => Sum(m, c => f(a, b, c)));
    forall a: int | 0 <= a < k ensures outer(a) == same(a) {
      SumCongruence(n, b => inner(a, b), b => Sum(m, c => f(a, b, c)));
    }
    SumCongruence(k, outer, same);
  }

  lemma OnImageIs(b: int, p: (int, int) -> real, a: int, y: int, x: int)
    ensures OnImage(b, p)(a, y, x) == if a == b then p(y, x) else 0.0
  {
  }

  lemma SumOnOneImage(n: nat, m: nat, b: int, p: (int, int) -> real, a: int)
    ensures Sum(n, y => Sum(m, x => OnImage(b, p)(a, y, x)))
            == if a == b then Sum(n, y => Sum(m, x => p(y, x))) else 0.0
  {
    hide Sum, OnImage;
    var rows, rows2 := (y: int) => Sum(m, x => OnImage(b, p)(a, y, x)), (y: int) => Sum(m, x => p(y, x));
    forall y: int | 0 <= y < n ensures rows(y) == if a == b then rows2(y) else 0.0 {
      var one, two := (x: int) => OnImage(b, p)(a, y, x), (x: int) => p(y, x);
      forall x: int | 0 <= x < m ensures one(x) == if a == b then two(x) else 0.0 {
        OnImageIs(b, p, a, y, x);
      }
      if a == b {
        SumCongruence(m, one, two);
      } else {
        SumZero(m, one);
      }
    }
    if a == b {
      SumCongruence(n, rows, rows2);
    } else {
      SumZero(n, rows);
    }
  }

  lemma SumOnImage(batch: nat, n: nat, m: nat, b: nat, p: (int, int) -> real)
    requires b < batch
    ensures Sum3(batch, n, m, OnImage(b, p)) == Sum(n, y => Sum(m, x => p(y, x)))
  {
    hide Sum, OnImage;
    var f := (a: int) => Sum(n, y => Sum(m, x => OnImage(b, p)(a, y, x)));
    forall a: int | 0 <= a < batch
      ensures f(a) == if a == b then Sum(n, y => Sum(m, x => p(y, x))) else 0.0
    {
      SumOnOneImage(n, m, b, p, a);
    }
    SumSingle(batch, b, f);
  }

  lemma ScatterIsGradX(s: Shape, weight: Grid, g: Grid, b: int, c: int, h: int, w: int)
    requires Conv.Valid(s) && Inside(s, b, c, h, w)
    ensures Sum(Rows(s), ScatteredRows(s, weight, g, b, c, h, w)) == GradX(s, weight, g, b, c, h, w)
  {
    var f := Touch(s, weight, g, b, c, h, w);
    var p := OverFilters(s, f);
    hide Hi, Mid, Lo, Sum, Sum3, Touch, ScatteredRows;
    forall r: nat | r < Rows(s)
      ensures ScatteredRows(s, weight, g, b, c, h, w)(r)
              == OnImage(b, p)(Hi(s.outH, s.outW, r), Mid(s.outH, s.outW, r), Lo(s.outH, s.outW, r))
    {
      RowScatters(s, weight, g, r, b, c, h, w);
    }
    SumOfFlat(s.batch, s.outH, s.outW, OnImage(b, p), ScatteredRows(s, weight, g, b, c, h, w));
    SumOnImage(s.batch, s.outH, s.outW, b, p);
    Rotated(s.filters, s.outH, s.outW, f);
    var left, right := (y: int) => Sum(s.outW, x => p(y, x)), (y: int) => Sum(s.outW, x => Sum(s.filters, o => f(o, y, x)));
    forall y: int | 0 <= y < s.outH ensures left(y) == right(y) {
      SumCongruence(s.outW, x => p(y, x), x => Sum(s.filters, o => f(o, y, x)));
    }
    SumCongruence(s.outH, left, right);
  }

  // ----- the transpose -----

  function Conv4(s: Shape, x: Grid, weight: Grid): Grid {
    (b, o, y, xx) => ConvAt(s, x, weight, b, o, y, xx)
  }

  function ImageTerms(b: int, u: Grid, v: Grid): (int, int, int) -> real {
    (o, y, xx) => Times(u(b, o, y, xx), v(b, o, y, xx))
  }

  function ImageProducts(n: nat, h: nat, w: nat, u: Grid, v: Grid): int -> real {
    b => Sum3(n, h, w, ImageTerms(b, u, v))
  }

  /** The inner product of two grids of the given size. */
  function Inner(batch: nat, n: nat, h: nat, w: nat, u: Grid, v: Grid): real {
    Sum(batch, ImageProducts(n, h, w, u, v))
  }

  function InputGradient(s: Shape, weight: Grid, g: Grid): Grid {
    (b, c, h, w) => GradX(s, weight, g, b, c, h, w)
  }

  function WeightGradient(s: Shape, x: Grid, g: Grid): Grid {
    (o, c, i, j) => GradW(s, x, g, o, c, i, j)
  }

  /** One output's share of the inner product, spread over the pixels it covers. */
  function Spread(s: Shape, x: Grid, weight: Grid, g: Grid, b: int): (int, int, int, int, int, int) -> real {
    (o, y, xx, c, h, w) => Times(x(b, c, h, w), Touch(s, weight, g, b, c, h, w)(o, y, xx))
  }

  lemma SpreadIs(s: Shape, x: Grid, weight: Grid, g: Grid, b: int, o: int, y: int, xx: int, c: int, h: int, w: int)
    ensures Spread(s, x, weight, g, b)(o, y, xx, c, h, w)
            == if Covers(y * s.sh, s.kh, h) && Covers(xx * s.sw, s.kw, w)
               then Times(x(b, c, h, w), Times(weight(o, c, h - y * s.sh, w - xx * s.sw), g(b, o, y, xx)))
               else 0.0
  {
    var t := Touch(s, weight, g, b, c, h, w)(o, y, xx);
    TouchIs(s, weight, g, b, c, h, w, o, y, xx);
    TimesLaws(x(b, c, h, w), 0.0, 0.0);
    hide Times, Touch;
    assert Spread(s, x, weight, g, b)(o, y, xx, c, h, w) == Times(x(b, c, h, w), t);
  }

  lemma SpreadTouches(s: Shape, x: Grid, weight: Grid, g: Grid, b: int, o: int, y: int, xx: int, c: int, h: int, w: int)
    ensures Spread(s, x, weight, g, b)(o, y, xx, c, h, w)
            == Times(x(b, c, h, w), Touch(s, weight, g, b, c, h, w)(o, y, xx))
  {
    hide Times, Touch;
  }

  lemma ImageTermIs(b: int, u: Grid, v: Grid, o: int, y: int, xx: int)
    ensures ImageTerms(b, u, v)(o, y, xx) == Times(u(b, o, y, xx), v(b, o, y, xx))
  {
  }

  lemma Conv4Is(s: Shape, x: Grid, weight: Grid, b: int, o: int, y: int, xx: int)
    ensures Conv4(s, x, weight)(b, o, y, xx) == ConvAt(s, x, weight, b, o, y, xx)
  {
    hide ConvAt;
  }

  lemma TouchIs(s: Shape, weight: Grid, g: Grid, b: int, c: int, h: int, w: int, o: int, y: int, xx: int)
    ensures Touch(s, weight, g, b, c, h, w)(o, y, xx)
            == if Covers(y * s.sh, s.kh, h) && Covers(xx * s.sw, s.kw, w)
               then Times(weight(o, c, h - y * s.sh, w - xx * s.sw), g(b, o, y, xx))
               else 0.0
  {
    hide Times;
  }

  function Weighed(x: Grid, weight: Grid, s: Shape, b: int, o: int, y: int, xx: int, up: real): (int, int, int) -> real {
    (c, i, j) => Times(x(b, c, y * s.sh + i, xx * s.sw + j), Times(weight(o, c, i, j), up))
  }

  lemma OutputSpreads(s: Shape, x: Grid, weight: Grid, g: Grid, b: nat, o: nat, y: nat, xx: nat)
    requires Conv.Valid(s) && IsOutput(s, b, o, y, xx)
    ensures ImageTerms(b, Conv4(s, x, weight), g)(o, y, xx)
            == Sum3(s.channels, s.height, s.width, (c, h, w) => Spread(s, x, weight, g, b)(o, y, xx, c, h, w))
  {
    var up, top, left := g(b, o, y, xx), y * s.sh, xx * s.sw;
    var f := Weighed(x, weight, s, b, o, y, xx, up);
    var padded := (c: int, h: int, w: int) => Spread(s, x, weight, g, b)(o, y, xx, c, h, w);
    WindowInside(s, y, s.kh - 1);
    WindowInside(s, xx, s.kw - 1);
    hide Sum3, Times, Spread, ConvAt, ImageTerms, Conv4;
    forall c: int, h: int, w: int | 0 <= c < s.channels && 0 <= h < s.height && 0 <= w < s.width
      ensures padded(c, h, w) == if top <= h < top + s.kh && left <= w < left + s.kw then f(c, h - top, w - left) else 0.0
    {
      SpreadIs(s, x, weight, g, b, o, y, xx, c, h, w);
    }
    Sum3Window(s.channels, s.height, s.width, top, left, s.kh, s.kw, f, padded);
    WeighedIsConv(s, x, weight, b, o, y, xx, up);
    TimesLaws(up, ConvAt(s, x, weight, b, o, y, xx), 0.0);
    ImageTermIs(b, Conv4(s, x, weight), g, o, y, xx);
    Conv4Is(s, x, weight, b, o, y, xx);
  }

  lemma WeighedIsConv(s: Shape, x: Grid, weight: Grid, b: nat, o: nat, y: nat, xx: nat, up: real)
    requires Conv.Valid(s)
    ensures Sum3(s.channels, s.kh, s.kw, Weighed(x, weight, s, b, o, y, xx, up))
            == Times(up, ConvAt(s, x, weight, b, o, y, xx))
  {
    var f := Weighed(x, weight, s, b, o, y, xx, up);
    var term := ConvTerm(s, x, weight, b, o, y, xx);
    hide Sum3, Times;
    forall c: int, i: int, j: int | 0 <= c < s.channels && 0 <= i < s.kh && 0 <= j < s.kw
      ensures f(c, i, j) == Times(up, term(c, i, j))
    {
      TimesTurn(x(b, c, y * s.sh + i, xx * s.sw + j), weight(o, c, i, j), up);
    }
    Sum3Times(s.channels, s.kh, s.kw, up, term, f);
  }

  lemma TimesTurn(a: real, b: real, c: real)
    ensures Times(a, Times(b, c)) == Times(c, Times(a, b))
  {
  }

  lemma ImageTransposes(s: Shape, x: Grid, weight: Grid, g: Grid, b: nat)
    requires Conv.Valid(s) && b < s.batch && s.height > 0 && s.width > 0
    ensures Sum3(s.filters, s.outH, s.outW, ImageTerms(b, Conv4(s, x, weight), g))
            == Sum3(s.channels, s.height, s.width, ImageTerms(b, x, InputGradient(s, weight, g)))
  {
    hide Sum3, Spread, ImageTerms;
    var spread := Spread(s, x, weight, g, b);
    var out := (o: int, y: int, xx: int) => Sum3(s.channels, s.height, s.width, (c, h, w) => spread(o, y, xx, c, h, w));
    var pixel := (c: int, h: int, w: int) => Sum3(s.filters, s.outH, s.outW, (o, y, xx) => spread(o, y, xx, c, h, w));
    forall o: int, y: int, xx: int | 0 <= o < s.filters && 0 <= y < s.outH && 0 <= xx < s.outW
      ensures ImageTerms(b, Conv4(s, x, weight), g)(o, y, xx) == out(o, y, xx)
    {
      OutputSpreads(s, x, weight, g, b, o, y, xx);
    }
    forall c: int, h: int, w: int | 0 <= c < s.channels && 0 <= h < s.height && 0 <= w < s.width
      ensures ImageTerms(b, x, InputGradient(s, weight, g))(c, h, w) == pixel(c, h, w)
    {
      PixelCollects(s, x, weight, g, b, c, h, w);
    }
    Sum3Congruence(s.filters, s.outH, s.outW, ImageTerms(b, Conv4(s, x, weight), g), out);
    Sum3Congruence(s.channels, s.height, s.width, ImageTerms(b, x, InputGradient(s, weight, g)), pixel);
    Sum3Swap(s.filters, s.outH, s.outW, s.channels, s.height, s.width, spread);
  }

  lemma PixelCollects(s: Shape, x: Grid, weight: Grid, g: Grid, b: nat, c: nat, h: nat, w: nat)
    requires Conv.Valid(s)
    ensures ImageTerms(b, x, InputGradient(s, weight, g))(c, h, w)
            == Sum3(s.filters, s.outH, s.outW, (o, y, xx) => Spread(s, x, weight, g, b)(o, y, xx, c, h, w))
  {
    hide Sum3, Times, Touch, Spread, ImageTerms;
    var touch := Touch(s, weight, g, b, c, h, w);
    var f := (o: int, y: int, xx: int) => Spread(s, x, weight, g, b)(o, y, xx, c, h, w);
    forall o: int, y: int, xx: int | 0 <= o < s.filters && 0 <= y < s.outH && 0 <= xx < s.outW
      ensures f(o, y, xx) == Times(x(b, c, h, w), touch(o, y, xx))
    {
      SpreadTouches(s, x, weight, g, b, o, y, xx, c, h, w);
    }
    ImageTermIs(b, x, InputGradient(s, weight, g), c, h, w);
    Sum3Times(s.filters, s.outH, s.outW, x(b, c, h, w), touch, f);
  }

  /** The input gradient is the transpose of the convolution in its input. */
  lemma InputGradientIsTranspose(s: Shape, x: Grid, weight: Grid, g: Grid)
    requires Conv.Valid(s)
    ensures Inner(s.batch, s.filters, s.outH, s.outW, Conv4(s, x, weight), g)
            == Inner(s.batch, s.channels, s.height, s.width, x, InputGradient(s, weight, g))
  {
    hide Sum, Sum3, ImageTerms;
    WindowInside(s, 0, 0);
    forall b: int | 0 <= b < s.batch
      ensures ImageProducts(s.filters, s.outH, s.outW, Conv4(s, x, weight), g)(b)
              == ImageProducts(s.channels, s.height, s.width, x, InputGradient(s, weight, g))(b)
    {
      ImageTransposes(s, x, weight, g, b);
    }
    SumCongruence(s.batch, ImageProducts(s.filters, s.outH, s.outW, Conv4(s, x, weight), g),
                  ImageProducts(s.channels, s.height, s.width, x, InputGradient(s, weight, g)));
  }

  /** One output's share of the inner product, spread over the weights it uses. */
  function Used(s: Shape, x: Grid, weight: Grid, g: Grid, o: int): (int, int, int, int, int, int) -> real {
    (b, y, xx, c, i, j) => Times(weight(o, c, i, j), Meet(s, x, g, o, c, i, j)(b, y, xx))
  }

  /** The share of filter o in the inner product of the outputs. */
  function FilterTerms(s: Shape, x: Grid, weight: Grid, g: Grid, o: int): (int, int, int) -> real {
    (b, y, xx) => Times(ConvAt(s, x, weight, b, o, y, xx), g(b, o, y, xx))
  }

  lemma FilterTransposes(s: Shape, x: Grid, weight: Grid, g: Grid, o: nat)
    requires Conv.Valid(s)
    ensures Sum3(s.batch, s.outH, s.outW, FilterTerms(s, x, weight, g, o))
            == Sum3(s.channels, s.kh, s.kw, ImageTerms(o, weight, WeightGradient(s, x, g)))
  {
    hide Sum3, Used, ImageTerms, FilterTerms;
    var used := Used(s, x, weight, g, o);
    var out := (b: int, y: int, xx: int) => Sum3(s.channels, s.kh, s.kw, (c, i, j) => used(b, y, xx, c, i, j));
    var tap := (c: int, i: int, j: int) => Sum3(s.batch, s.outH, s.outW, (b, y, xx) => used(b, y, xx, c, i, j));
    forall b: int, y: int, xx: int | 0 <= b < s.batch && 0 <= y < s.outH && 0 <= xx < s.outW
      ensures FilterTerms(s, x, weight, g, o)(b, y, xx) == out(b, y, xx)
    {
      OutputUses(s, x, weight, g, b, o, y, xx);
    }
    forall c: int, i: int, j: int | 0 <= c < s.channels && 0 <= i < s.kh && 0 <= j < s.kw
      ensures ImageTerms(o, weight, WeightGradient(s, x, g))(c, i, j) == tap(c, i, j)
    {
      TapCollects(s, x, weight, g, o, c, i, j);
    }
    Sum3Congruence(s.batch, s.outH, s.outW, FilterTerms(s, x, weight, g, o), out);
    Sum3Congruence(s.channels, s.kh, s.kw, ImageTerms(o, weight, WeightGradient(s, x, g)), tap);
    Sum3Swap(s.batch, s.outH, s.outW, s.channels, s.kh, s.kw, used);
  }

  lemma OutputUses(s: Shape, x: Grid, weight: Grid, g: Grid, b: nat, o: nat, y: nat, xx: nat)
    requires Conv.Valid(s)
    ensures FilterTerms(s, x, weight, g, o)(b, y, xx)
            == Sum3(s.channels, s.kh, s.kw, (c, i, j) => Used(s, x, weight, g, o)(b, y, xx, c, i, j))
  {
    var up := g(b, o, y, xx);
    var f := (c: int, i: int, j: int) => Used(s, x, weight, g, o)(b, y, xx, c, i, j);
    FilterTermIs(s, x, weight, g, o, b, y, xx);
    hide Sum3, Times, Used, FilterTerms;
    var term := ConvTerm(s, x, weight, b, o, y, xx);
    forall c: int, i: int, j: int | 0 <= c < s.channels && 0 <= i < s.kh && 0 <= j < s.kw
      ensures f(c, i, j) == Times(up, term(c, i, j))
    {
      UsedIs(s, x, weight, g, b, o, y, xx, c, i, j);
    }
    Sum3Times(s.channels, s.kh, s.kw, up, term, f);
    TimesLaws(up, ConvAt(s, x, weight, b, o, y, xx), 0.0);
  }

  lemma UsedIs(s: Shape, x: Grid, weight: Grid, g: Grid, b: int, o: int, y: int, xx: int, c: int, i: int, j: int)
    ensures Used(s, x, weight, g, o)(b, y, xx, c, i, j)
            == Times(g(b, o, y, xx), ConvTerm(s, x, weight, b, o, y, xx)(c, i, j))
  {
    UsedMeets(s, x, weight, g, o, b, y, xx, c, i, j);
    MeetIs(s, x, g, o, c, i, j, b, y, xx);
    TermIs(s, x, weight, b, o, y, xx, c, i, j);
    hide Times, Used, Meet, ConvTerm;
    TimesSpin(weight(o, c, i, j), x(b, c, y * s.sh + i, xx * s.sw + j), g(b, o, y, xx));
  }

  lemma UsedMeets(s: Shape, x: Grid, weight: Grid, g: Grid, o: int, b: int, y: int, xx: int, c: int, i: int, j: int)
    ensures Used(s, x, weight, g, o)(b, y, xx, c, i, j) == Times(weight(o, c, i, j), Meet(s, x, g, o, c, i, j)(b, y, xx))
  {
    hide Times, Meet;
  }

  lemma MeetIs(s: Shape, x: Grid, g: Grid, o: int, c: int, i: int, j: int, b: int, y: int, xx: int)
    ensures Meet(s, x, g, o, c, i, j)(b, y, xx) == Times(x(b, c, y * s.sh + i, xx * s.sw + j), g(b, o, y, xx))
  {
    hide Times;
  }

  lemma TermIs(s: Shape, x: Grid, weight: Grid, b: int, o: int, y: int, xx: int, c: int, i: int, j: int)
    ensures ConvTerm(s, x, weight, b, o, y, xx)(c, i, j)
            == Times(x(b, c, y * s.sh + i, xx * s.sw + j), weight(o, c, i, j))
  {
    hide Times;
  }

  lemma FilterTermIs(s: Shape, x: Grid, weight: Grid, g: Grid, o: int, b: int, y: int, xx: int)
    ensures FilterTerms(s, x, weight, g, o)(b, y, xx) == Times(ConvAt(s, x, weight, b, o, y, xx), g(b, o, y, xx))
  {
    hide Times, ConvAt;
  }

  lemma TimesSpin(w: real, x: real, g: real)
    ensures Times(w, Times(x, g)) == Times(g, Times(x, w))
  {
  }

  lemma TapCollects(s: Shape, x: Grid, weight: Grid, g: Grid, o: nat, c: nat, i: nat, j: nat)
    requires Conv.Valid(s)
    ensures ImageTerms(o, weight, WeightGradient(s, x, g))(c, i, j)
            == Sum3(s.batch, s.outH, s.outW, (b, y, xx) => Used(s, x, weight, g, o)(b, y, xx, c, i, j))
  {
    hide Sum3, Times, Meet, Used, ImageTerms;
    var meet := Meet(s, x, g, o, c, i, j);
    var f := (b: int, y: int, xx: int) => Used(s, x, weight, g, o)(b, y, xx, c, i, j);
    forall b: int, y: int, xx: int | 0 <= b < s.batch && 0 <= y < s.outH && 0 <= xx < s.outW
      ensures f(b, y, xx) == Times(weight(o, c, i, j), meet(b, y, xx))
    {
      UsedMeets(s, x, weight, g, o, b, y, xx, c, i, j);
    }
    ImageTermIs(o, weight, WeightGradient(s, x, g), c, i, j);
    Sum3Times(s.batch, s.outH, s.outW, weight(o, c, i, j), meet, f);
  }

  /** The inner product of the outputs, plane by plane. */
  function Plane(s: Shape, x: Grid, weight: Grid, g: Grid): (int, int) -> real {
    (b, o) => Sum(s.outH, y => Sum(s.outW, xx => Times(ConvAt(s, x, weight, b, o, y, xx), g(b, o, y, xx))))
  }

  lemma ByImage(s: Shape, x: Grid, weight: Grid, g: Grid, b: int)
    ensures Sum3(s.filters, s.outH, s.outW, ImageTerms(b, Conv4(s, x, weight), g))
            == Sum(s.filters, o => Plane(s, x, weight, g)(b, o))
  {
    hide Sum, Times, ConvAt, ImageTerms, Conv4, Plane;
    var u := ImageTerms(b, Conv4(s, x, weight), g);
    var left, right := (o: int) => Sum(s.outH, y => Sum(s.outW, xx => u(o, y, xx))), (o: int) => Plane(s, x, weight, g)(b, o);
    forall o: int | 0 <= o < s.filters ensures left(o) == right(o) {
      forall y: int, xx: int ensures u(o, y, xx) == Times(ConvAt(s, x, weight, b, o, y, xx), g(b, o, y, xx)) {
        ImageTermIs(b, Conv4(s, x, weight), g, o, y, xx);
        Conv4Is(s, x, weight, b, o, y, xx);
      }
      PlaneIs(s, x, weight, g, b, o, u, o);
    }
    SumCongruence(s.filters, left, right);
  }

  lemma ByFilter(s: Shape, x: Grid, weight: Grid, g: Grid, o: int)
    ensures Sum3(s.batch, s.outH, s.outW, FilterTerms(s, x, weight, g, o))
            == Sum(s.batch, b => Plane(s, x, weight, g)(b, o))
  {
    hide Sum, Times, ConvAt, FilterTerms, Plane;
    var u := FilterTerms(s, x, weight, g, o);
    var left, right := (b: int) => Sum(s.outH, y => Sum(s.outW, xx => u(b, y, xx))), (b: int) => Plane(s, x, weight, g)(b, o);
    forall b: int | 0 <= b < s.batch ensures left(b) == right(b) {
      forall y: int, xx: int ensures u(b, y, xx) == Times(ConvAt(s, x, weight, b, o, y, xx), g(b, o, y, xx)) {
        FilterTermIs(s, x, weight, g, o, b, y, xx);
      }
      PlaneIs(s, x, weight, g, b, o, u, b);
    }
    SumCongruence(s.batch, left, right);
  }

  lemma PlaneIs(s: Shape, x: Grid, weight: Grid, g: Grid, b: int, o: int, u: (int, int, int) -> real, a: int)
    requires forall y: int, xx: int :: u(a, y, xx) == Times(ConvAt(s, x, weight, b, o, y, xx), g(b, o, y, xx))
    ensures Plane(s, x, weight, g)(b, o) == Sum(s.outH, y => Sum(s.outW, xx => u(a, y, xx)))
  {
    hide Sum, Times, ConvAt;
    var left := (y: int) => Sum(s.outW, xx => Times(ConvAt(s, x, weight, b, o, y, xx), g(b, o, y, xx)));
    var right := (y: int) => Sum(s.outW, xx => u(a, y, xx));
    forall y: int | 0 <= y < s.outH ensures left(y) == right(y) {
      SumCongruence(s.outW, xx => Times(ConvAt(s, x, weight, b, o, y, xx), g(b, o, y, xx)), xx => u(a, y, xx));
    }
    SumCongruence(s.outH, left, right);
  }

  /** The weight gradient is the transpose of the convolution in its weights. */
  lemma WeightGradientIsTranspose(s: Shape, x: Grid, weight: Grid, g: Grid)
    requires Conv.Valid(s)
    ensures Inner(s.batch, s.filters, s.outH, s.outW, Conv4(s, x, weight), g)
            == Inner(s.filters, s.channels, s.kh, s.kw, weight, WeightGradient(s, x, g))
  {
    hide Sum, Sum3, ImageTerms, FilterTerms, Plane;
    var plane := Plane(s, x, weight, g);
    var images := ImageProducts(s.filters, s.outH, s.outW, Conv4(s, x, weight), g);
    var filters := ImageProducts(s.channels, s.kh, s.kw, weight, WeightGradient(s, x, g));
    var byImage, byFilter := (b: int) => Sum(s.filters, o => plane(b, o)), (o: int) => Sum(s.batch, b => plane(b, o));
    forall b: int | 0 <= b < s.batch ensures images(b) == byImage(b) {
      ByImage(s, x, weight, g, b);
    }
    forall o: int | 0 <= o < s.filters ensures filters(o) == byFilter(o) {
      ByFilter(s, x, weight, g, o);
      FilterTransposes(s, x, weight, g, o);
    }
    SumCongruence(s.batch, images, byImage);
    SumCongruence(s.filters, filters, byFilter);
    SumSwap(s.batch, s.filters, plane);
  }
}
