/**
 Max pooling: each output takes the first maximum of its window, and its gradient goes back to
 that pixel. The direct reconstruction for windows that tile the input is the general scatter.
 */
module Pool {
  import opened Arithmetic
  import opened Conv
  import opened Layout
  import opened Sums

  datatype PoolShape = PoolShape(
    batch: nat, channels: nat, height: nat, width: nat, kernel: nat, stride: nat, outH: nat, outW: nat)

  predicate Fits(s: PoolShape) {
    && s.kernel > 0 && s.stride > 0 && s.outH > 0 && s.outW > 0
    && (s.outH - 1) * s.stride + s.kernel <= s.height && (s.outW - 1) * s.stride + s.kernel <= s.width
  }

  datatype Windows = Pooled(shape: PoolShape) | NoWindows

  function PoolShapeOf(x: Dims, kernel: int, stride: int): Windows {
    if kernel <= 0 || stride <= 0 then NoWindows
    else
      var outH, outW := OutExtent(x.h, kernel, stride), OutExtent(x.w, kernel, stride);
      if outH <= 0 || outW <= 0 then NoWindows
      else Pooled(PoolShape(x.n, x.c, x.h, x.w, kernel, stride, outH, outW))
  }

  /** Pooling is possible exactly when a window fits; the output holds every window that does. */
  lemma PoolShapeExact(x: Dims, kernel: int, stride: int)
    ensures PoolShapeOf(x, kernel, stride).Pooled? <==> kernel > 0 && stride > 0 && kernel <= x.h && kernel <= x.w
    ensures PoolShapeOf(x, kernel, stride).Pooled? ==>
              var s := PoolShapeOf(x, kernel, stride).shape;
              Fits(s) && x.h < s.outH * stride + kernel && x.w < s.outW * stride + kernel
  {
    if kernel > 0 && stride > 0 {
      ExtentIsExact(x.h, kernel, stride);
      ExtentIsExact(x.w, kernel, stride);
    }
    hide OutExtent;
  }

  predicate IsPixel(s: PoolShape, b: int, c: int, h: int, w: int) {
    0 <= b < s.batch && 0 <= c < s.channels && 0 <= h < s.height && 0 <= w < s.width
  }

  predicate IsPooled(s: PoolShape, b: int, c: int, y: int, xx: int) {
    0 <= b < s.batch && 0 <= c < s.channels && 0 <= y < s.outH && 0 <= xx < s.outW
  }

  lemma TapInside(out: nat, stride: nat, kernel: nat, size: nat, y: nat, i: nat)
    requires y < out && i < kernel && (out - 1) * stride + kernel <= size
    ensures y * stride + i < size
  {
    assert y * stride <= (out - 1) * stride;
  }

  function Area(s: PoolShape): nat { s.kernel * s.kernel }

  lemma TapParts(kernel: nat, k: nat)
    requires kernel > 0 && k < kernel * kernel
    ensures k / kernel < kernel && k % kernel < kernel
  {
    DivBelow(k, kernel, kernel);
  }

  /** The row of entry k within a window, and its column likewise. */
  function TapRow(kernel: nat, k: nat): (i: nat)
    requires kernel > 0 && k < kernel * kernel
    ensures i < kernel
  {
    TapParts(kernel, k);
    k / kernel
  }

  function TapColumn(kernel: nat, k: nat): (j: nat)
    requires kernel > 0 && k < kernel * kernel
    ensures j < kernel
  {
    k % kernel
  }

  /** Place i of window y along an axis of the given size. */
  function PlaceAt(out: nat, stride: nat, kernel: nat, size: nat, y: nat, i: nat): (h: nat)
    requires y < out && i < kernel && (out - 1) * stride + kernel <= size
    ensures h < size
  {
    TapInside(out, stride, kernel, size, y, i);
    y * stride + i
  }

  /** The input row of entry k of the windows in output row y, and the input column likewise. */
  function RowAt(s: PoolShape, y: nat, k: nat): (h: nat)
    requires Fits(s) && y < s.outH && k < Area(s)
    ensures h < s.height
  {
    hide TapRow, PlaceAt;
    PlaceAt(s.outH, s.stride, s.kernel, s.height, y, TapRow(s.kernel, k))
  }

  function ColumnAt(s: PoolShape, xx: nat, k: nat): (w: nat)
    requires Fits(s) && xx < s.outW && k < Area(s)
    ensures w < s.width
  {
    hide TapColumn, PlaceAt;
    PlaceAt(s.outW, s.stride, s.kernel, s.width, xx, TapColumn(s.kernel, k))
  }

  /** Entry k of the window of output (y, xx), read where the input has it. */
  function Window(s: PoolShape, x: Grid, b: nat, c: nat, y: nat, xx: nat, k: nat): real
    requires Fits(s) && IsPooled(s, b, c, y, xx) && k < Area(s)
  {
    ReadPixel(s, x, b, c, RowAt(s, y, k), ColumnAt(s, xx, k))
  }

  function ReadPixel(s: PoolShape, x: Grid, b: nat, c: nat, h: nat, w: nat): real
    requires IsPixel(s, b, c, h, w)
  {
    x(b, c, h, w)
  }

  /** The first position of the maximum among the first n entries of a window. */
  function ArgMaxUpTo(s: PoolShape, x: Grid, b: nat, c: nat, y: nat, xx: nat, n: nat): (at: nat)
    requires Fits(s) && IsPooled(s, b, c, y, xx) && 0 < n <= Area(s)
    ensures at < n
    ensures forall k: nat | k < n :: Window(s, x, b, c, y, xx, k) <= Window(s, x, b, c, y, xx, at)
    ensures forall k: nat | k < at :: Window(s, x, b, c, y, xx, k) < Window(s, x, b, c, y, xx, at)
    decreases n
  {
    if n == 1 then 0
    else
      var before := ArgMaxUpTo(s, x, b, c, y, xx, n - 1);
      if Window(s, x, b, c, y, xx, n - 1) > Window(s, x, b, c, y, xx, before) then n - 1 else before
  }

  function ArgMax(s: PoolShape, x: Grid, b: nat, c: nat, y: nat, xx: nat): (at: nat)
    requires Fits(s) && IsPooled(s, b, c, y, xx)
    ensures at < Area(s)
    ensures forall k: nat | k < Area(s) :: Window(s, x, b, c, y, xx, k) <= Window(s, x, b, c, y, xx, at)
    ensures forall k: nat | k < at :: Window(s, x, b, c, y, xx, k) < Window(s, x, b, c, y, xx, at)
  {
    PositiveProduct(s.kernel, s.kernel);
    ArgMaxUpTo(s, x, b, c, y, xx, Area(s))
  }

  /** The pixel an output's gradient goes to. */
  function Target(s: PoolShape, x: Grid, b: nat, c: nat, y: nat, xx: nat): (p: (nat, nat))
    requires Fits(s) && IsPooled(s, b, c, y, xx)
    ensures p.0 < s.height && p.1 < s.width
  {
    var k := ArgMax(s, x, b, c, y, xx);
    (RowAt(s, y, k), ColumnAt(s, xx, k))
  }

  /** What the outputs add to pixel (h, w) of image b and channel c. */
  function Routed(s: PoolShape, x: Grid, g: Grid, b: nat, c: nat, h: nat, w: nat): (int, int, int) -> real
    requires Fits(s) && IsPixel(s, b, c, h, w)
  {
    (_, y, xx) =>
      if 0 <= y < s.outH && 0 <= xx < s.outW && Target(s, x, b, c, y, xx) == (h, w) then g(b, c, y, xx) else 0.0
  }

  /** The input gradient: every output's gradient, at the pixel it was taken from. */
  function PoolGradient(s: PoolShape, x: Grid, g: Grid, b: nat, c: nat, h: nat, w: nat): real
    requires Fits(s) && IsPixel(s, b, c, h, w)
  {
    Sum(s.outH, Middle(Routed(s, x, g, b, c, h, w), s.outW, 0))
  }

  // ----- the general scatter -----

  method ScatterAt(s: PoolShape, x: Grid, g: Grid, gx: array4<real>, y: nat, xx: nat)
    requires Fits(s) && Sized(gx, s.batch, s.channels, s.height, s.width) && y < s.outH && xx < s.outW
    modifies gx
    ensures forall b, c, h, w | IsPixel(s, b, c, h, w) ::
              gx[b, c, h, w] == old(gx[b, c, h, w]) + Routed(s, x, g, b, c, h, w)(0, y, xx)
  {
    hide ArgMax, Fits, Window;
    forall b, c | 0 <= b < s.batch && 0 <= c < s.channels {
      gx[b, c, Target(s, x, b, c, y, xx).0, Target(s, x, b, c, y, xx).1] :=
        gx[b, c, Target(s, x, b, c, y, xx).0, Target(s, x, b, c, y, xx).1] + g(b, c, y, xx);
    }
  }

  method ScatterRow(s: PoolShape, x: Grid, g: Grid, gx: array4<real>, y: nat)
    requires Fits(s) && Sized(gx, s.batch, s.channels, s.height, s.width) && y < s.outH
    modifies gx
    ensures forall b, c, h, w | IsPixel(s, b, c, h, w) ::
              gx[b, c, h, w] == old(gx[b, c, h, w]) + Middle(Routed(s, x, g, b, c, h, w), s.outW, 0)(y)
  {
    hide Routed, Fits;
    for xx := 0 to s.outW
      invariant forall b, c, h, w | IsPixel(s, b, c, h, w) ::
          gx[b, c, h, w] == old(gx[b, c, h, w]) + Sum(xx, Last(Routed(s, x, g, b, c, h, w), 0, y))
    {
      ScatterAt(s, x, g, gx, y, xx);
    }
  }

  method GradientByScatter(s: PoolShape, x: Grid, g: Grid) returns (gx: array4<real>)
    requires Fits(s)
    ensures fresh(gx) && Sized(gx, s.batch, s.channels, s.height, s.width)
    ensures forall b, c, h, w | IsPixel(s, b, c, h, w) :: gx[b, c, h, w] == PoolGradient(s, x, g, b, c, h, w)
  {
    gx := new real[s.batch, s.channels, s.height, s.width]((_, _, _, _) => 0.0);
    for y := 0 to s.outH
      invariant forall b, c, h, w | IsPixel(s, b, c, h, w) ::
          gx[b, c, h, w] == Sum(y, Middle(Routed(s, x, g, b, c, h, w), s.outW, 0))
    {
      hide Routed, Middle, Fits;
      ScatterRow(s, x, g, gx, y);
    }
  }

  // ----- the direct reconstruction -----

  predicate Tiles(s: PoolShape) {
    s.stride == s.kernel && s.height == s.outH * s.kernel && s.width == s.outW * s.kernel
  }

  /** One-hot windows: entry k of a window's gradient. */
  function OneHot(s: PoolShape, x: Grid, g: Grid, b: nat, c: nat, y: nat, xx: nat, k: nat): real
    requires Fits(s) && IsPooled(s, b, c, y, xx)
  {
    Times(if k == ArgMax(s, x, b, c, y, xx) then 1.0 else 0.0, g(b, c, y, xx))
  }

  /** Position p of a plane, read in the axis order (row tile, row, column tile, column). */
  lemma PlaneParts(s: PoolShape, h: nat, w: nat)
    requires Fits(s) && Tiles(s) && h < s.height && w < s.width
    ensures var p, rowTile := h * s.width + w, s.outW * s.kernel;
            && rowTile == s.width && p % s.kernel == w % s.kernel && (p / s.kernel) % s.outW == w / s.kernel
            && (p / rowTile) % s.kernel == h % s.kernel && (p / rowTile) / s.kernel == h / s.kernel
            && h / s.kernel < s.outH && w / s.kernel < s.outW
  {
    DivBelow(h, s.outH, s.kernel);
    DivBelow(w, s.outW, s.kernel);
    PlaneIs(s.outW, s.kernel, s.width, h, w);
  }

  lemma PlaneIs(tiles: nat, kernel: nat, width: nat, h: nat, w: nat)
    requires tiles > 0 && kernel > 0 && width == tiles * kernel && w < width
    ensures var p := h * width + w;
            p / width == h && p % kernel == w % kernel && (p / kernel) % tiles == w / kernel
  {
    var p, j, xx := h * width + w, w % kernel, w / kernel;
    DivMod(w, kernel);
    DivBelow(w, tiles, kernel);
    DivModUnique(p, width, h, w);
    Associate(h, tiles, kernel);
    Distribute(h * tiles, xx, kernel);
    DivModUnique(p, kernel, h * tiles + xx, j);
    DivModUnique(h * tiles + xx, tiles, h, xx);
  }

  /** One-hot, axes swapped, reshaped to the input: element (h, w) by its position in the plane. */
  function Reconstructed(s: PoolShape, x: Grid, g: Grid, b: nat, c: nat, h: nat, w: nat): real
    requires Fits(s) && Tiles(s) && IsPixel(s, b, c, h, w)
  {
    PlaneParts(s, h, w);
    AtPosition(s, x, g, b, c, h * s.width + w)
  }

  function AtPosition(s: PoolShape, x: Grid, g: Grid, b: nat, c: nat, p: nat): real
    requires Fits(s) && s.outW * s.kernel > 0 && IsPooled(s, b, c, (p / (s.outW * s.kernel)) / s.kernel, (p / s.kernel) % s.outW)
  {
    var y, i := (p / (s.outW * s.kernel)) / s.kernel, (p / (s.outW * s.kernel)) % s.kernel;
    var xx, j := (p / s.kernel) % s.outW, p % s.kernel;
    OneHot(s, x, g, b, c, y, xx, i * s.kernel + j)
  }

  method GradientByReconstruction(s: PoolShape, x: Grid, g: Grid) returns (gx: array4<real>)
    requires Fits(s) && Tiles(s)
    ensures fresh(gx) && Sized(gx, s.batch, s.channels, s.height, s.width)
    ensures forall b, c, h, w | IsPixel(s, b, c, h, w) :: gx[b, c, h, w] == PoolGradient(s, x, g, b, c, h, w)
  {
    hide OneHot, Reconstructed, PoolGradient;
    gx := new real[s.batch, s.channels, s.height, s.width];
    forall b, c, h, w | 0 <= b < s.batch && 0 <= c < s.channels && 0 <= h < s.height && 0 <= w < s.width {
      gx[b, c, h, w] := Reconstructed(s, x, g, b, c, h, w);
    }
    forall b, c, h, w | IsPixel(s, b, c, h, w)
      ensures Reconstructed(s, x, g, b, c, h, w) == PoolGradient(s, x, g, b, c, h, w)
    {
      ReconstructionIsScatter(s, x, g, b, c, h, w);
    }
  }

  /** With windows side by side, a coordinate determines the window and the place in it. */
  lemma OwnTile(kernel: nat, y: nat, i: nat, h: nat)
    requires i < kernel
    ensures y * kernel + i == h <==> y == h / kernel && i == h % kernel
  {
    if y * kernel + i == h {
      DivModUnique(h, kernel, y, i);
    }
    assert h == (h / kernel) * kernel + h % kernel;
  }

  lemma PairIs(kernel: nat, k: nat, i: nat, j: nat)
    requires j < kernel
    ensures k / kernel == i && k % kernel == j <==> k == i * kernel + j
  {
    DivModOfPair(i, j, kernel);
    assert k == (k / kernel) * kernel + k % kernel;
  }

  /** In a tiling only the pixel's own window can route to it, and does so exactly at the pixel's offset. */
  lemma RoutesToOwnTile(s: PoolShape, x: Grid, b: nat, c: nat, h: nat, w: nat, y: nat, xx: nat)
    requires Fits(s) && Tiles(s) && IsPixel(s, b, c, h, w) && IsPooled(s, b, c, y, xx)
    ensures Target(s, x, b, c, y, xx) == (h, w) <==>
              && y == h / s.kernel && xx == w / s.kernel
              && ArgMax(s, x, b, c, y, xx) == (h % s.kernel) * s.kernel + w % s.kernel
  {
    var k := ArgMax(s, x, b, c, y, xx);
    TapParts(s.kernel, k);
    assert RowAt(s, y, k) == y * s.kernel + k / s.kernel && ColumnAt(s, xx, k) == xx * s.kernel + k % s.kernel;
    hide ArgMax, RowAt, ColumnAt, Area;
    OwnTile(s.kernel, y, k / s.kernel, h);
    OwnTile(s.kernel, xx, k % s.kernel, w);
    PairIs(s.kernel, k, h % s.kernel, w % s.kernel);
  }

  /** (y, xx, k) is the window and the place in it that pixel (h, w) has in a tiling. */
  predicate Owns(s: PoolShape, h: nat, w: nat, y: nat, xx: nat, k: nat)
    requires s.kernel > 0
  {
    && y == h / s.kernel < s.outH && xx == w / s.kernel < s.outW
    && k == (h % s.kernel) * s.kernel + w % s.kernel
  }

  lemma OneRouted(
    s: PoolShape, x: Grid, g: Grid, b: nat, c: nat, h: nat, w: nat, y: nat, xx: nat, k: nat, v: nat, u: nat)
    requires Fits(s) && Tiles(s) && IsPixel(s, b, c, h, w) && v < s.outH && u < s.outW && Owns(s, h, w, y, xx, k)
    ensures Routed(s, x, g, b, c, h, w)(0, v, u) == if v == y && u == xx then OneHot(s, x, g, b, c, y, xx, k) else 0.0
  {
    RoutesToOwnTile(s, x, b, c, h, w, v, u);
    var up := g(b, c, v, u);
    TimesLaws(up, 0.0, 0.0);
    hide Target, ArgMax, Times, Fits;
  }

  lemma ReconstructedIs(s: PoolShape, x: Grid, g: Grid, b: nat, c: nat, h: nat, w: nat)
    returns (y: nat, xx: nat, k: nat)
    requires Fits(s) && Tiles(s) && IsPixel(s, b, c, h, w)
    ensures Owns(s, h, w, y, xx, k) && y < s.outH && xx < s.outW
    ensures Reconstructed(s, x, g, b, c, h, w) == OneHot(s, x, g, b, c, y, xx, k)
  {
    PlaneParts(s, h, w);
    y, xx, k := h / s.kernel, w / s.kernel, (h % s.kernel) * s.kernel + w % s.kernel;
    assert Reconstructed(s, x, g, b, c, h, w) == AtPosition(s, x, g, b, c, h * s.width + w);
    hide OneHot, Reconstructed;
    PositionIs(s, x, g, b, c, h * s.width + w, y, h % s.kernel, xx, w % s.kernel);
  }

  lemma PositionIs(s: PoolShape, x: Grid, g: Grid, b: nat, c: nat, p: nat, y: nat, i: nat, xx: nat, j: nat)
    requires Fits(s) && s.outW * s.kernel > 0 && IsPooled(s, b, c, y, xx)
    requires y == (p / (s.outW * s.kernel)) / s.kernel && i == (p / (s.outW * s.kernel)) % s.kernel
    requires xx == (p / s.kernel) % s.outW && j == p % s.kernel
    ensures AtPosition(s, x, g, b, c, p) == OneHot(s, x, g, b, c, y, xx, i * s.kernel + j)
  {
    hide OneHot;
  }

  lemma ReconstructionIsScatter(s: PoolShape, x: Grid, g: Grid, b: nat, c: nat, h: nat, w: nat)
    requires Fits(s) && Tiles(s) && IsPixel(s, b, c, h, w)
    ensures Reconstructed(s, x, g, b, c, h, w) == PoolGradient(s, x, g, b, c, h, w)
  {
    var y, xx, k := ReconstructedIs(s, x, g, b, c, h, w);
    assert PoolGradient(s, x, g, b, c, h, w) == Sum(s.outH, Middle(Routed(s, x, g, b, c, h, w), s.outW, 0));
    assert IsPooled(s, b, c, y, xx);
    hide *;
    forall v: nat, u: nat | v < s.outH && u < s.outW
      ensures Routed(s, x, g, b, c, h, w)(0, v, u) == if v == y && u == xx then OneHot(s, x, g, b, c, y, xx, k) else 0.0
    {
      OneRouted(s, x, g, b, c, h, w, y, xx, k, v, u);
    }
    OnlyOne(s.outH, s.outW, y, xx, Routed(s, x, g, b, c, h, w));
  }

  lemma OnlyOne(n: nat, m: nat, y: nat, xx: nat, f: (int, int, int) -> real)
    requires y < n && xx < m
    requires forall v: nat, u: nat | v < n && u < m && (v != y || u != xx) :: f(0, v, u) == 0.0
    ensures Sum(n, Middle(f, m, 0)) == f(0, y, xx)
  {
    hide Sum;
    forall v: int | 0 <= v < n && v != y ensures Middle(f, m, 0)(v) == 0.0 {
      SumZero(m, Last(f, 0, v));
    }
    SumSingle(n, y, Middle(f, m, 0));
    SumSingle(m, xx, Last(f, 0, y));
  }

  /** The gradient of a max pool: directly when stride equals kernel and the windows tile the input, else scattered. */
  method Gradient(s: PoolShape, x: Grid, g: Grid) returns (gx: array4<real>)
    requires Fits(s)
    ensures fresh(gx) && Sized(gx, s.batch, s.channels, s.height, s.width)
    ensures forall b, c, h, w | IsPixel(s, b, c, h, w) :: gx[b, c, h, w] == PoolGradient(s, x, g, b, c, h, w)
  {
    if s.stride == s.kernel && s.height == s.outH * s.kernel && s.width == s.outW * s.kernel {
      gx := GradientByReconstruction(s, x, g);
    } else {
      gx := GradientByScatter(s, x, g);
    }
  }
}
