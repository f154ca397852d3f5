/**
 Two-dimensional convolution of NCHW inputs with OIHW weights: the naive loops and the chunked
 column form, forward, each proved to compute the same sums. Values are reals; inputs are
 functions of their four indices and are only read where the shape allows.
 */
module Conv {
  import opened Arithmetic
  import opened Layout
  import opened Sums

  type Grid = (int, int, int, int) -> real

  datatype Shape = Shape(
    batch: nat, channels: nat, height: nat, width: nat, filters: nat, kh: nat, kw: nat,
    outH: nat, outW: nat, sh: nat, sw: nat)

  datatype Problem = EmptyKernel | ChannelMismatch | BadStride | DoesNotFit

  datatype Planned = Planned(shape: Shape) | Refused(why: Problem)

  datatype Dims = Dims(n: nat, c: nat, h: nat, w: nat)

  /** The output extent; the quotient rounds down, so a kernel larger than the input gives at most 0. */
  function OutExtent(size: nat, kernel: nat, stride: nat): int
    requires stride > 0
  {
    (size - kernel) / stride + 1
  }

  function ConvShape(x: Dims, weight: Dims, sh: int, sw: int): Planned {
    if weight.h == 0 || weight.w == 0 then Refused(EmptyKernel)
    else if x.c != weight.c then Refused(ChannelMismatch)
    else if sh <= 0 || sw <= 0 then Refused(BadStride)
    else
      var outH, outW := OutExtent(x.h, weight.h, sh), OutExtent(x.w, weight.w, sw);
      if x.n == 0 || weight.n == 0 || outH <= 0 || outW <= 0 then Refused(DoesNotFit)
      else Planned(Shape(x.n, x.c, x.h, x.w, weight.n, weight.h, weight.w, outH, outW, sh, sw))
  }

  predicate Valid(s: Shape) {
    && s.batch > 0 && s.filters > 0 && s.kh > 0 && s.kw > 0 && s.sh > 0 && s.sw > 0
    && s.outH > 0 && s.outW > 0
    && (s.outH - 1) * s.sh + s.kh <= s.height && (s.outW - 1) * s.sw + s.kw <= s.width
  }

  lemma ExtentIsExact(size: nat, kernel: nat, stride: nat)
    requires stride > 0
    ensures var out := OutExtent(size, kernel, stride);
            && (out > 0 <==> kernel <= size)
            && (out > 0 ==> (out - 1) * stride + kernel <= size < out * stride + kernel)
  {
    var q, r := (size - kernel) / stride, (size - kernel) % stride;
    assert size - kernel == q * stride + r;
    if kernel <= size {
      assert q >= 0;
    } else {
      assert q < 0;
    }
    assert (q + 1) * stride == q * stride + stride;
  }

  /** A convolution is planned exactly when a kernel fits, and then the output holds every window that does. */
  lemma ConvShapeExact(x: Dims, weight: Dims, sh: int, sw: int)
    ensures ConvShape(x, weight, sh, sw).Planned? <==>
              && 0 < weight.h <= x.h && 0 < weight.w <= x.w && x.c == weight.c && sh > 0 && sw > 0
              && x.n > 0 && weight.n > 0
    ensures ConvShape(x, weight, sh, sw).Planned? ==>
              var s := ConvShape(x, weight, sh, sw).shape;
              Valid(s) && x.h < s.outH * sh + s.kh && x.w < s.outW * sw + s.kw
  {
    if sh > 0 && sw > 0 {
      ExtentIsExact(x.h, weight.h, sh);
      ExtentIsExact(x.w, weight.w, sw);
    }
    hide OutExtent;
  }

  // ----- the convolution -----

  predicate Inside(s: Shape, b: int, c: int, h: int, w: int) {
    0 <= b < s.batch && 0 <= c < s.channels && 0 <= h < s.height && 0 <= w < s.width
  }

  predicate IsOutput(s: Shape, b: int, o: int, y: int, x: int) {
    0 <= b < s.batch && 0 <= o < s.filters && 0 <= y < s.outH && 0 <= x < s.outW
  }

  predicate IsWeight(s: Shape, o: int, c: int, i: int, j: int) {
    0 <= o < s.filters && 0 <= c < s.channels && 0 <= i < s.kh && 0 <= j < s.kw
  }

  /** A read of the input, only where there is one. */
  function Load(s: Shape, x: Grid, b: int, c: int, h: int, w: int): real
    requires Inside(s, b, c, h, w)
  {
    x(b, c, h, w)
  }

  lemma WindowInside(s: Shape, y: int, i: int)
    requires Valid(s) && 0 <= i
    ensures 0 <= y < s.outH && i < s.kh ==> 0 <= y * s.sh + i < s.height
    ensures 0 <= y < s.outW && i < s.kw ==> 0 <= y * s.sw + i < s.width
  {
    if 0 <= y < s.outH {
      ProductGrows(0, y, s.sh);
      ProductGrows(y, s.outH - 1, s.sh);
    }
    if 0 <= y < s.outW {
      ProductGrows(0, y, s.sw);
      ProductGrows(y, s.outW - 1, s.sw);
    }
  }

  function ConvTerm(s: Shape, x: Grid, weight: Grid, b: int, o: int, y: int, xx: int): (int, int, int) -> real {
    (c, i, j) => Times(x(b, c, y * s.sh + i, xx * s.sw + j), weight(o, c, i, j))
  }

  /** One output: the window times the filter, summed over channels and kernel positions. */
  function ConvAt(s: Shape, x: Grid, weight: Grid, b: int, o: int, y: int, xx: int): real {
    Sum3(s.channels, s.kh, s.kw, ConvTerm(s, x, weight, b, o, y, xx))
  }

  predicate Sized(out: array4<real>, a: nat, b: nat, c: nat, d: nat) {
    out.Length0 == a && out.Length1 == b && out.Length2 == c && out.Length3 == d
  }

  /** One pixel of a window times its weight. */
  function Tap(s: Shape, x: Grid, weight: Grid, b: nat, o: nat, y: nat, xx: nat, c: nat, i: nat, j: nat): (r: real)
    requires Valid(s) && IsOutput(s, b, o, y, xx) && c < s.channels && i < s.kh && j < s.kw
    ensures r == ConvTerm(s, x, weight, b, o, y, xx)(c, i, j)
  {
    WindowInside(s, y, i);
    WindowInside(s, xx, j);
    Times(Load(s, x, b, c, y * s.sh + i, xx * s.sw + j), weight(o, c, i, j))
  }

  /** The sum of one window times one filter, tap by tap. */
  method WindowSum(s: Shape, x: Grid, weight: Grid, b: nat, o: nat, y: nat, xx: nat) returns (total: real)
    requires Valid(s) && IsOutput(s, b, o, y, xx)
    ensures total == ConvAt(s, x, weight, b, o, y, xx)
  {
    ghost var term := ConvTerm(s, x, weight, b, o, y, xx);
    total := 0.0;
    for c := 0 to s.channels
      invariant total == Sum(c, First(term, s.kh, s.kw))
    {
      total := AddChannel(s, x, weight, b, o, y, xx, c, total);
    }
    FirstIsSum3(term, s.channels, s.kh, s.kw);
  }

  method AddChannel(s: Shape, x: Grid, weight: Grid, b: nat, o: nat, y: nat, xx: nat, c: nat, before: real)
    returns (total: real)
    requires Valid(s) && IsOutput(s, b, o, y, xx) && c < s.channels
    ensures total == before + First(ConvTerm(s, x, weight, b, o, y, xx), s.kh, s.kw)(c)
  {
    ghost var term := ConvTerm(s, x, weight, b, o, y, xx);
    hide Tap, ConvTerm;
    total := before;
    for i := 0 to s.kh
      invariant total == before + Sum(i, Middle(term, s.kw, c))
    {
      ghost var row := total;
      for j := 0 to s.kw
        invariant total == row + Sum(j, Last(term, c, i))
      {
        total := total + Tap(s, x, weight, b, o, y, xx, c, i, j);
      }
    }
  }

  /** One channel and position of the output, for every image. */
  method FillPosition(s: Shape, x: Grid, weight: Grid, o: nat, y: nat, xx: nat, out: array4<real>)
    requires Valid(s) && Sized(out, s.batch, s.filters, s.outH, s.outW) && IsOutput(s, 0, o, y, xx)
    modifies out
    ensures forall b, p, v, u | IsOutput(s, b, p, v, u) ::
              out[b, p, v, u] ==
                if p == o && v == y && u == xx then ConvAt(s, x, weight, b, p, v, u) else old(out[b, p, v, u])
  {
    hide ConvAt;
    for b := 0 to s.batch
      invariant forall a, p, v, u | IsOutput(s, a, p, v, u) ::
          out[a, p, v, u] ==
            if a < b && p == o && v == y && u == xx then ConvAt(s, x, weight, a, p, v, u) else old(out[a, p, v, u])
    {
      var total := WindowSum(s, x, weight, b, o, y, xx);
      out[b, o, y, xx] := total;
    }
  }

  method ForwardNaive(s: Shape, x: Grid, weight: Grid) returns (out: array4<real>)
    requires Valid(s)
    ensures fresh(out) && Sized(out, s.batch, s.filters, s.outH, s.outW)
    ensures forall b, o, y, xx | IsOutput(s, b, o, y, xx) :: out[b, o, y, xx] == ConvAt(s, x, weight, b, o, y, xx)
  {
    hide ConvAt;
    out := new real[s.batch, s.filters, s.outH, s.outW]((_, _, _, _) => 0.0);
    for y := 0 to s.outH
      invariant forall b, o, v, u | IsOutput(s, b, o, v, u) && v < y :: out[b, o, v, u] == ConvAt(s, x, weight, b, o, v, u)
    {
      for xx := 0 to s.outW
        invariant forall b, o, v, u | IsOutput(s, b, o, v, u) && (v < y || (v == y && u < xx)) ::
            out[b, o, v, u] == ConvAt(s, x, weight, b, o, v, u)
      {
        for channel := 0 to s.filters
          invariant forall b, o, v, u |
              IsOutput(s, b, o, v, u) && (v < y || (v == y && (u < xx || (u == xx && o < channel)))) ::
              out[b, o, v, u] == ConvAt(s, x, weight, b, o, v, u)
        {
          FillPosition(s, x, weight, channel, y, xx, out);
        }
      }
    }
  }

  // ----- columns -----

  function Rows(s: Shape): nat { s.batch * s.outH * s.outW }

  function Taps(s: Shape): nat { s.channels * s.kh * s.kw }

  /** Row r of the columns is one output position, tap t one channel and kernel position. */
  function Pixel(s: Shape, x: Grid, r: nat, t: nat): real
    requires Valid(s) && r < Rows(s) && t < Taps(s)
  {
    PixelInside(s, r, t);
    Load(s, x, Hi(s.outH, s.outW, r), Hi(s.kh, s.kw, t),
         Mid(s.outH, s.outW, r) * s.sh + Mid(s.kh, s.kw, t), Lo(s.outH, s.outW, r) * s.sw + Lo(s.kh, s.kw, t))
  }

  /** Every gathered index lies in the input. */
  lemma PixelInside(s: Shape, r: nat, t: nat)
    requires Valid(s) && r < Rows(s) && t < Taps(s)
    ensures Inside(s, Hi(s.outH, s.outW, r), Hi(s.kh, s.kw, t),
                   Mid(s.outH, s.outW, r) * s.sh + Mid(s.kh, s.kw, t), Lo(s.outH, s.outW, r) * s.sw + Lo(s.kh, s.kw, t))
  {
    FlatOfParts(s.batch, s.outH, s.outW, r);
    FlatOfParts(s.channels, s.kh, s.kw, t);
    hide Hi, Mid, Lo;
    WindowInside(s, Mid(s.outH, s.outW, r), Mid(s.kh, s.kw, t));
    WindowInside(s, Lo(s.outH, s.outW, r), Lo(s.kh, s.kw, t));
  }

  function WeightAt(s: Shape, weight: Grid, o: nat, t: nat): real
    requires s.kh > 0 && s.kw > 0
  {
    weight(o, Hi(s.kh, s.kw, t), Mid(s.kh, s.kw, t), Lo(s.kh, s.kw, t))
  }

  function RowTerm(s: Shape, x: Grid, weight: Grid, r: nat, o: nat): int -> real
    requires Valid(s) && r < Rows(s)
  {
    t => if 0 <= t < Taps(s) then Times(Pixel(s, x, r, t), WeightAt(s, weight, o, t)) else 0.0
  }

  /** A column row times a weight row is the convolution at the row's position. */
  lemma RowIsConv(s: Shape, x: Grid, weight: Grid, r: nat, o: nat)
    requires Valid(s) && r < Rows(s)
    ensures Sum(Taps(s), RowTerm(s, x, weight, r, o))
            == ConvAt(s, x, weight, Hi(s.outH, s.outW, r), o, Mid(s.outH, s.outW, r), Lo(s.outH, s.outW, r))
  {
    var b, y, xx := Hi(s.outH, s.outW, r), Mid(s.outH, s.outW, r), Lo(s.outH, s.outW, r);
    hide Hi, Mid, Lo, Sum, Sum3, Times;
    SumOfFlat(s.channels, s.kh, s.kw, ConvTerm(s, x, weight, b, o, y, xx), RowTerm(s, x, weight, r, o));
  }

  /** The work memory one row takes: its indices and values, and its outputs. */
  function RowBytes(s: Shape, itemSize: nat): nat {
    itemSize * (2 * Taps(s) + s.filters)
  }

  function RowsPerChunk(s: Shape, itemSize: nat, limit: nat): (rows: nat)
    requires Valid(s) && itemSize > 0
  {
    RowBytesPositive(s, itemSize);
    var fits := limit / RowBytes(s, itemSize);
    var most := if Rows(s) < fits then Rows(s) else fits;
    if most < 1 then 1 else most
  }

  lemma RowBytesPositive(s: Shape, itemSize: nat)
    requires Valid(s) && itemSize > 0
    ensures RowBytes(s, itemSize) > 0 && Rows(s) > 0
  {
    PositiveProduct(itemSize, 2 * Taps(s) + s.filters);
    PositiveProduct(s.batch, s.outH);
    PositiveProduct(s.batch * s.outH, s.outW);
  }

  /** The bytes of some rows of two column matrices, one for values and one for gradients, and the output. */
  function WorkBytes(s: Shape, itemSize: nat, rows: nat): nat {
    rows * (itemSize * (s.channels * s.kh * s.kw + s.channels * s.kh * s.kw + s.filters))
  }

  /**
   A chunk holds as many rows as there are or as fit the limit; when not even one fits, a single row.
   */
  lemma ChunkFitsLimit(s: Shape, itemSize: nat, limit: nat)
    requires Valid(s) && itemSize > 0
    ensures var rows := RowsPerChunk(s, itemSize, limit);
            && 1 <= rows <= s.batch * s.outH * s.outW
            && (WorkBytes(s, itemSize, 1) <= limit ==> WorkBytes(s, itemSize, rows) <= limit)
            && (WorkBytes(s, itemSize, 1) > limit ==> rows == 1)
            && (rows == s.batch * s.outH * s.outW || WorkBytes(s, itemSize, rows + 1) > limit)
  {
    RowBytesPositive(s, itemSize);
    assert itemSize * (s.channels * s.kh * s.kw + s.channels * s.kh * s.kw + s.filters) == RowBytes(s, itemSize);
    ChunkOf(RowBytes(s, itemSize), Rows(s), limit);
    hide RowBytes;
  }

  lemma ChunkOf(bytes: nat, total: nat, limit: nat)
    requires bytes > 0 && total > 0
    ensures var fits := limit / bytes;
            var most := if total < fits then total else fits;
            var rows := if most < 1 then 1 else most;
            && 1 <= rows <= total && (bytes <= limit ==> rows * bytes <= limit) && (bytes > limit ==> rows == 1)
            && (rows == total || (rows + 1) * bytes > limit)
  {
    var fits := limit / bytes;
    assert fits * bytes <= limit < (fits + 1) * bytes;
    if bytes <= limit {
      assert fits >= 1;
      if total < fits {
        assert total * bytes <= fits * bytes;
      }
    } else {
      assert fits == 0;
      assert 2 * bytes > limit;
    }
  }

  type Matrix = seq<seq<real>>

  function ColumnRow(s: Shape, x: Grid, r: nat): (row: seq<real>)
    requires Valid(s) && r < Rows(s)
    ensures |row| == Taps(s) && forall t | 0 <= t < Taps(s) :: row[t] == Pixel(s, x, r, t)
  {
    seq(Taps(s), t requires 0 <= t < Taps(s) => Pixel(s, x, r, t))
  }

  function ColumnChunk(s: Shape, x: Grid, start: nat, end: nat): (columns: Matrix)
    requires Valid(s) && start <= end <= Rows(s)
    ensures |columns| == end - start
    ensures forall r: nat | r < end - start :: columns[r] == ColumnRow(s, x, start + r)
  {
    seq(end - start, r requires 0 <= r < end - start => ColumnRow(s, x, start + r))
  }

  function WeightRow(s: Shape, weight: Grid, o: nat): (row: seq<real>)
    requires s.kh > 0 && s.kw > 0
    ensures |row| == Taps(s) && forall t | 0 <= t < Taps(s) :: row[t] == WeightAt(s, weight, o, t)
  {
    seq(Taps(s), t requires 0 <= t < Taps(s) => WeightAt(s, weight, o, t))
  }

  function Products(u: seq<real>, v: seq<real>): int -> real {
    t => if 0 <= t < |u| && t < |v| then Times(u[t], v[t]) else 0.0
  }

  function Dot(u: seq<real>, v: seq<real>): real
    requires |u| == |v|
  {
    Sum(|u|, Products(u, v))
  }

  lemma DotIsConv(s: Shape, x: Grid, weight: Grid, r: nat, o: nat, column: seq<real>)
    requires Valid(s) && r < Rows(s) && column == ColumnRow(s, x, r)
    ensures Dot(column, WeightRow(s, weight, o))
            == ConvAt(s, x, weight, Hi(s.outH, s.outW, r), o, Mid(s.outH, s.outW, r), Lo(s.outH, s.outW, r))
  {
    RowIsConv(s, x, weight, r, o);
    hide Hi, Mid, Lo, Sum, Times, ConvAt, Pixel, WeightAt;
    SumCongruence(Taps(s), Products(column, WeightRow(s, weight, o)), RowTerm(s, x, weight, r, o));
  }

  /** The convolution at a row's position. */
  function ConvRow(s: Shape, x: Grid, weight: Grid, r: nat, o: nat): real
    requires Valid(s)
  {
    ConvAt(s, x, weight, Hi(s.outH, s.outW, r), o, Mid(s.outH, s.outW, r), Lo(s.outH, s.outW, r))
  }

  /** One chunk of output rows, and no other row. */
  method MultiplyChunk(s: Shape, x: Grid, weight: Grid, start: nat, end: nat, rows: array2<real>)
    requires Valid(s) && start <= end <= Rows(s) && rows.Length0 == Rows(s) && rows.Length1 == s.filters
    modifies rows
    ensures forall r, o | 0 <= r < Rows(s) && 0 <= o < s.filters ::
              rows[r, o] == if start <= r < end then ConvRow(s, x, weight, r, o) else old(rows[r, o])
  {
    var columns := ColumnChunk(s, x, start, end);
    forall r: nat, o: nat | start <= r < end && o < s.filters
      ensures Dot(columns[r - start], WeightRow(s, weight, o)) == ConvRow(s, x, weight, r, o)
    {
      DotIsConv(s, x, weight, r, o, columns[r - start]);
    }
    hide ConvRow;
    forall r, o | start <= r < end && 0 <= o < s.filters {
      rows[r, o] := Dot(columns[r - start], WeightRow(s, weight, o));
    }
  }

  method ForwardIm2col(s: Shape, x: Grid, weight: Grid, itemSize: nat, limit: nat) returns (out: array4<real>)
    requires Valid(s) && itemSize > 0
    ensures fresh(out) && Sized(out, s.batch, s.filters, s.outH, s.outW)
    ensures forall b, o, y, xx | IsOutput(s, b, o, y, xx) :: out[b, o, y, xx] == ConvAt(s, x, weight, b, o, y, xx)
  {
    var total := Rows(s);
    var chunk := RowsPerChunk(s, itemSize, limit);
    var rows := new real[total, s.filters];
    var start := 0;
    while start < total
      invariant start <= total
      invariant forall r, o | 0 <= r < start && 0 <= o < s.filters :: rows[r, o] == ConvRow(s, x, weight, r, o)
    {
      hide ConvRow, RowsPerChunk;
      var end := if start + chunk < total then start + chunk else total;
      MultiplyChunk(s, x, weight, start, end, rows);
      ChunkFitsLimit(s, itemSize, limit);
      start := end;
    }
    out := Reshaped(s, rows, (r: nat, o: nat) => ConvRow(s, x, weight, r, o));
    forall b: nat, o: nat, y: nat, xx: nat | IsOutput(s, b, o, y, xx)
      ensures out[b, o, y, xx] == ConvAt(s, x, weight, b, o, y, xx)
    {
      PartsOfFlat(s.batch, s.outH, s.outW, b, y, xx);
      hide ConvAt, Hi, Mid, Lo;
    }
  }

  /** Rows to NHWC, axes to NCHW. */
  method Reshaped(s: Shape, rows: array2<real>, ghost f: (nat, nat) -> real) returns (out: array4<real>)
    requires Valid(s) && rows.Length0 == Rows(s) && rows.Length1 == s.filters
    requires forall r: nat, o: nat | r < Rows(s) && o < s.filters :: rows[r, o] == f(r, o)
    ensures fresh(out) && Sized(out, s.batch, s.filters, s.outH, s.outW)
    ensures forall b: nat, o: nat, y: nat, xx: nat | IsOutput(s, b, o, y, xx) ::
              out[b, o, y, xx] == f(Flat(s.outH, s.outW, b, y, xx), o)
  {
    forall b: nat, y: nat, xx: nat | b < s.batch && y < s.outH && xx < s.outW
      ensures Flat(s.outH, s.outW, b, y, xx) < Rows(s)
    {
      PartsOfFlat(s.batch, s.outH, s.outW, b, y, xx);
    }
    hide Flat, Rows;
    out := new real[s.batch, s.filters, s.outH, s.outW];
    forall b, o, y, xx | 0 <= b < s.batch && 0 <= o < s.filters && 0 <= y < s.outH && 0 <= xx < s.outW {
      out[b, o, y, xx] := rows[Flat(s.outH, s.outW, b, y, xx), o];
    }
  }
}
