/**
 The launch grid of the tiled convolution kernel: program numbers are grouped for locality, the
 last group may be short, and still every output element belongs to exactly one program. Loads and
 stores go by flat offsets; each lands on the element it is meant for.
 */
module ConvTiles {
  import opened Arithmetic
  import opened Conv
  import opened Layout
  import opened Sums

  /** Row tiles, channel tiles and row tiles per group of a launch. */
  datatype Tiling = Tiling(m: nat, n: nat, group: nat)

  datatype Tile = Tile(m: nat, n: nat)

  predicate Launch(l: Tiling) { l.m > 0 && l.n > 0 && l.group > 0 }

  function Programs(l: Tiling): nat { l.m * l.n }

  function PerGroup(l: Tiling): nat { l.group * l.n }

  /** The first row tile of a group. */
  function FirstTile(l: Tiling, group: nat): nat { group * l.group }

  function GroupSize(l: Tiling, group: nat): int {
    Min(l.m - FirstTile(l, group), l.group)
  }

  function GroupOf(l: Tiling, program: nat): nat
    requires Launch(l)
  {
    PositiveProduct(l.group, l.n);
    program / PerGroup(l)
  }

  function RestOf(l: Tiling, program: nat): nat
    requires Launch(l)
  {
    PositiveProduct(l.group, l.n);
    program % PerGroup(l)
  }

  /** Which tile a program computes. */
  function TileOf(l: Tiling, program: nat): Tile
    requires Launch(l) && program < Programs(l)
  {
    hide GroupOf, RestOf, FirstTile, GroupSize, Programs;
    ProgramInGroup(l, program);
    Placed(FirstTile(l, GroupOf(l, program)), RestOf(l, program), GroupSize(l, GroupOf(l, program)))
  }

  function Placed(first: nat, rest: nat, size: nat): Tile
    requires size > 0
  {
    Tile(first + rest % size, rest / size)
  }

  /** The program that computes a tile. */
  function ProgramOf(l: Tiling, t: Tile): nat
    requires Launch(l) && t.m < l.m && t.n < l.n
  {
    hide GroupSize;
    SizeIsPositive(l, t.m);
    Numbered(t.m / l.group, PerGroup(l), t.n, GroupSize(l, t.m / l.group), t.m % l.group)
  }

  function Numbered(group: nat, per: nat, n: nat, size: nat, within: nat): nat {
    group * per + n * size + within
  }

  lemma SizeIsPositive(l: Tiling, m: nat)
    requires Launch(l) && m < l.m
    ensures 0 <= m % l.group < GroupSize(l, m / l.group) <= l.group
  {
    DivMod(m, l.group);
  }

  lemma GroupAndRest(l: Tiling, program: nat)
    requires Launch(l)
    ensures GroupOf(l, program) * PerGroup(l) + RestOf(l, program) == program && RestOf(l, program) < PerGroup(l)
  {
    PositiveProduct(l.group, l.n);
    DivMod(program, PerGroup(l));
  }

  lemma GroupOfNumber(l: Tiling, group: nat, rest: nat)
    requires Launch(l) && rest < PerGroup(l)
    ensures GroupOf(l, group * PerGroup(l) + rest) == group && RestOf(l, group * PerGroup(l) + rest) == rest
  {
    DivModUnique(group * PerGroup(l) + rest, PerGroup(l), group, rest);
  }

  /** A number below m * n, split by groups of g rows of n, falls into a row that exists. */
  lemma InGroup(m: nat, n: nat, g: nat, group: nat, rest: nat)
    requires n > 0 && g > 0 && group * (g * n) + rest < m * n && rest < g * n
    ensures 0 < Min(m - group * g, g) && rest < Min(m - group * g, g) * n
  {
    Associate(group, g, n);
    QuotientBelow(group * g, m, n, rest);
    Distribute(m, group * g, n);
  }

  /** A program's place within its group fits the group's tiles, also in a short last group. */
  lemma ProgramInGroup(l: Tiling, program: nat)
    requires Launch(l) && program < Programs(l)
    ensures var group := GroupOf(l, program);
            && 0 < GroupSize(l, group) <= l.group && RestOf(l, program) < GroupSize(l, group) * l.n
            && FirstTile(l, group) + GroupSize(l, group) <= l.m
  {
    GroupAndRest(l, program);
    hide GroupOf, RestOf;
    InGroup(l.m, l.n, l.group, GroupOf(l, program), RestOf(l, program));
  }

  lemma PlacedInGrid(first: nat, rest: nat, size: nat, n: nat)
    requires size > 0 && rest < size * n
    ensures first <= Placed(first, rest, size).m < first + size && Placed(first, rest, size).n < n
  {
    DivBelow(rest, n, size);
  }

  lemma TileIsInGrid(l: Tiling, program: nat)
    requires Launch(l) && program < Programs(l)
    ensures TileOf(l, program).m < l.m && TileOf(l, program).n < l.n
    ensures TileOf(l, program).m / l.group == GroupOf(l, program)
    ensures TileOf(l, program).m % l.group == RestOf(l, program) % GroupSize(l, GroupOf(l, program))
  {
    hide Programs, GroupOf, RestOf, GroupSize;
    ProgramInGroup(l, program);
    var group, rest := GroupOf(l, program), RestOf(l, program);
    var size := GroupSize(l, group);
    PlacedInGrid(FirstTile(l, group), rest, size, l.n);
    DivModOfPair(group, rest % size, l.group);
  }

  /** Every program has a tile of its own ... */
  lemma ProgramOfTile(l: Tiling, program: nat)
    requires Launch(l) && program < Programs(l)
    ensures TileOf(l, program).m < l.m && TileOf(l, program).n < l.n
    ensures ProgramOf(l, TileOf(l, program)) == program
  {
    ProgramInGroup(l, program);
    TileIsInGrid(l, program);
    GroupAndRest(l, program);
    var group, rest := GroupOf(l, program), RestOf(l, program);
    var size, per, t := GroupSize(l, group), PerGroup(l), TileOf(l, program);
    assert t.n == rest / size;
    assert ProgramOf(l, t) == Numbered(t.m / l.group, per, t.n, GroupSize(l, t.m / l.group), t.m % l.group);
    hide *;
    NumberedAgain(group, per, rest, size);
  }

  /** The programs of a group take its row tiles one after the other, then the next channel tile. */
  lemma NextProgram(l: Tiling, program: nat)
    requires Launch(l) && program + 1 < Programs(l)
    ensures var t, next := TileOf(l, program), TileOf(l, program + 1);
      && t.m / l.group == program / (l.group * l.n)
      && ((program + 1) / (l.group * l.n) == program / (l.group * l.n) ==>
            next == if t.m + 1 < Min(l.m, (t.m / l.group + 1) * l.group) then Tile(t.m + 1, t.n)
                    else Tile((t.m / l.group) * l.group, t.n + 1))
  {
    TileIsInGrid(l, program);
    TileIsInGrid(l, program + 1);
    GroupAndRest(l, program);
    GroupAndRest(l, program + 1);
    ProgramInGroup(l, program);
    var group, rest := GroupOf(l, program), RestOf(l, program);
    assert group == program / (l.group * l.n);
    if (program + 1) / (l.group * l.n) == group {
      assert RestOf(l, program + 1) == rest + 1;
      var size, first := GroupSize(l, group), FirstTile(l, group);
      NextPlaced(first, rest, size);
      Distribute(group, 1, l.group);
      hide Programs, GroupOf, RestOf, Placed;
      assert first + size == Min(l.m, (group + 1) * l.group);
    }
  }

  lemma NextPlaced(first: nat, rest: nat, size: nat)
    requires size > 0
    ensures Placed(first, rest + 1, size) ==
      if Placed(first, rest, size).m + 1 < first + size
      then Tile(Placed(first, rest, size).m + 1, Placed(first, rest, size).n)
      else Tile(first, Placed(first, rest, size).n + 1)
  {
    var q, r := rest / size, rest % size;
    DivMod(rest, size);
    if r + 1 < size {
      DivModUnique(rest + 1, size, q, r + 1);
    } else {
      Distribute(q, 1, size);
      DivModUnique(rest + 1, size, q + 1, 0);
    }
  }

  lemma NumberedAgain(group: nat, per: nat, rest: nat, size: nat)
    requires size > 0
    ensures Numbered(group, per, rest / size, size, rest % size) == group * per + rest
  {
    DivMod(rest, size);
  }

  /** ... and every tile has a program: the mapping is a bijection onto the grid of tiles. */
  lemma TileOfProgram(l: Tiling, t: Tile)
    requires Launch(l) && t.m < l.m && t.n < l.n
    ensures ProgramOf(l, t) < Programs(l) && TileOf(l, ProgramOf(l, t)) == t
  {
    SizeIsPositive(l, t.m);
    var group, within := t.m / l.group, t.m % l.group;
    var size := GroupSize(l, group);
    var rest := RestInGroup(l, t.n, size, within);
    PlaceInGroup(l, t.m, rest);
    GroupOfNumber(l, group, rest);
    DivMod(t.m, l.group);
    PlacedAgain(FirstTile(l, group), t.n, size, within);
    hide PerGroup, GroupSize, Programs, GroupOf, RestOf, Placed;
    assert ProgramOf(l, t) == group * PerGroup(l) + rest;
  }

  lemma RestInGroup(l: Tiling, n: nat, size: nat, within: nat) returns (rest: nat)
    requires n < l.n && within < size
    ensures rest == n * size + within && rest < l.n * size
  {
    rest := n * size + within;
    Below(n, within, l.n, size);
  }

  lemma PlacedAgain(first: nat, n: nat, size: nat, within: nat)
    requires within < size
    ensures Placed(first, n * size + within, size) == Tile(first + within, n)
  {
    DivModOfPair(n, within, size);
  }

  lemma PlaceInGroup(l: Tiling, m: nat, rest: nat)
    requires Launch(l) && m < l.m && GroupSize(l, m / l.group) >= 0 && rest < l.n * GroupSize(l, m / l.group)
    ensures rest < PerGroup(l) && (m / l.group) * PerGroup(l) + rest < Programs(l)
  {
    SizeIsPositive(l, m);
    InLaunch(l.m, l.n, l.group, m / l.group, GroupSize(l, m / l.group), rest);
  }

  lemma InLaunch(m: nat, n: nat, g: nat, group: nat, size: nat, rest: nat)
    requires size <= g && group * g + size <= m && rest < n * size
    ensures rest < g * n && group * (g * n) + rest < m * n
  {
    ProductGrows(size, g, n);
    Associate(group, g, n);
    ProductGrows(group * g + size, m, n);
    Distribute(group * g, size, n);
  }

  // ----- elements -----

  /** The launch for a convolution: tiles of blockM output rows by blockN channels. */
  function LaunchOf(s: Shape, blockM: nat, blockN: nat, group: nat): Tiling
    requires blockM > 0 && blockN > 0
  {
    Tiling(CeilDiv(Rows(s), blockM), CeilDiv(s.filters, blockN), group)
  }

  predicate Stores(l: Tiling, s: Shape, blockM: nat, blockN: nat, program: nat, r: nat, o: nat)
    requires Launch(l) && program < Programs(l)
  {
    var t := TileOf(l, program);
    && r < Rows(s) && o < s.filters
    && t.m * blockM <= r < t.m * blockM + blockM && t.n * blockN <= o < t.n * blockN + blockN
  }

  lemma LaunchIsValid(s: Shape, blockM: nat, blockN: nat, group: nat)
    requires Valid(s) && blockM > 0 && blockN > 0 && group > 0
    ensures Launch(LaunchOf(s, blockM, blockN, group))
  {
    RowBytesPositive(s, 1);
    CeilDivCovers(Rows(s), blockM, 0);
    CeilDivCovers(s.filters, blockN, 0);
    hide CeilDiv, Rows;
  }

  /** Exactly one program stores the output of row r and channel o. */
  lemma StoredOnce(s: Shape, blockM: nat, blockN: nat, group: nat, r: nat, o: nat) returns (program: nat)
    requires Valid(s) && blockM > 0 && blockN > 0 && group > 0 && r < Rows(s) && o < s.filters
    ensures var l := LaunchOf(s, blockM, blockN, group);
            && Launch(l) && program < Programs(l) && Stores(l, s, blockM, blockN, program, r, o)
            && forall p: nat | p < Programs(l) && Stores(l, s, blockM, blockN, p, r, o) :: p == program
  {
    var l := LaunchOf(s, blockM, blockN, group);
    LaunchIsValid(s, blockM, blockN, group);
    CeilDivCovers(Rows(s), blockM, r);
    CeilDivCovers(s.filters, blockN, o);
    var t := Tile(r / blockM, o / blockN);
    TileOfProgram(l, t);
    program := ProgramOf(l, t);
    hide TileOf, ProgramOf, Programs, CeilDiv, Rows;
    forall p: nat | p < Programs(l) && Stores(l, s, blockM, blockN, p, r, o) ensures p == program {
      var u := TileOf(l, p);
      DivModUnique(r, blockM, u.m, r - u.m * blockM);
      DivModUnique(o, blockN, u.n, o - u.n * blockN);
      ProgramOfTile(l, p);
    }
  }

  /** Where the output of row r and channel o is stored. */
  function Offset(s: Shape, r: nat, o: nat): nat
    requires Valid(s)
  {
    ((Hi(s.outH, s.outW, r) * s.filters + o) * s.outH + Mid(s.outH, s.outW, r)) * s.outW + Lo(s.outH, s.outW, r)
  }

  /** An offset, read as image, channel, row and column again. */
  lemma OffsetParts(s: Shape, r: nat, o: nat)
    requires Valid(s) && r < Rows(s) && o < s.filters
    ensures Offset(s, r, o) < s.batch * s.filters * s.outH * s.outW
    ensures var plane := Hi(s.outH, s.outW, Offset(s, r, o));
            && plane / s.filters == Hi(s.outH, s.outW, r) && plane % s.filters == o
            && Mid(s.outH, s.outW, Offset(s, r, o)) == Mid(s.outH, s.outW, r)
            && Lo(s.outH, s.outW, Offset(s, r, o)) == Lo(s.outH, s.outW, r)
  {
    FlatOfParts(s.batch, s.outH, s.outW, r);
    var b, y, x := Hi(s.outH, s.outW, r), Mid(s.outH, s.outW, r), Lo(s.outH, s.outW, r);
    assert Offset(s, r, o) == Flat(s.outH, s.outW, b * s.filters + o, y, x);
    hide Hi, Mid, Lo, Flat, Rows;
    Below(b, o, s.batch, s.filters);
    PartsOfFlat(s.batch * s.filters, s.outH, s.outW, b * s.filters + o, y, x);
    DivModOfPair(b, o, s.filters);
  }

  /** Offsets stay inside the output, and two different outputs never share one. */
  lemma OffsetsAreDistinct(s: Shape, r: nat, o: nat, q: nat, p: nat)
    requires Valid(s) && r < Rows(s) && o < s.filters && q < Rows(s) && p < s.filters
    ensures Offset(s, r, o) < s.batch * s.filters * s.outH * s.outW
    ensures Offset(s, r, o) == Offset(s, q, p) ==> r == q && o == p
  {
    FlatOfParts(s.batch, s.outH, s.outW, r);
    FlatOfParts(s.batch, s.outH, s.outW, q);
    hide Hi, Mid, Lo, Flat, Rows, Offset;
    OffsetParts(s, r, o);
    OffsetParts(s, q, p);
  }

  // ----- loads -----

  /** Where the kernel finds the input of output row r at tap t, and the weight of channel o there. */
  function InputOffset(s: Shape, r: nat, t: nat): int
    requires Valid(s)
  {
    ((Hi(s.outH, s.outW, r) * s.channels + Hi(s.kh, s.kw, t)) * s.height
      + (Mid(s.outH, s.outW, r) * s.sh + Mid(s.kh, s.kw, t))) * s.width
      + (Lo(s.outH, s.outW, r) * s.sw + Lo(s.kh, s.kw, t))
  }

  function WeightOffset(s: Shape, o: nat, t: nat): int
    requires Valid(s)
  {
    ((o * s.channels + Hi(s.kh, s.kw, t)) * s.kh + Mid(s.kh, s.kw, t)) * s.kw + Lo(s.kh, s.kw, t)
  }

  function Volume(a: nat, b: nat, c: nat, d: nat): nat { a * b * c * d }

  /** The four-index view of a contiguous array; only its elements are read. */
  function View(data: seq<real>, a: nat, b: nat, c: nat, d: nat): Grid
    requires |data| == Volume(a, b, c, d)
  {
    (i, j, y, x) =>
      if 0 <= i < a && 0 <= j < b && 0 <= y < c && 0 <= x < d then Element(data, a, b, c, d, i, j, y, x) else 0.0
  }

  function Element(data: seq<real>, a: nat, b: nat, c: nat, d: nat, i: nat, j: nat, y: nat, x: nat): real
    requires |data| == Volume(a, b, c, d) && i < a && j < b && y < c && x < d
  {
    InVolume(a, b, c, d, i, j, y, x);
    data[Flat(c, d, i * b + j, y, x)]
  }

  lemma InVolume(a: nat, b: nat, c: nat, d: nat, i: nat, j: nat, y: nat, x: nat)
    requires i < a && j < b && y < c && x < d
    ensures Flat(c, d, i * b + j, y, x) < Volume(a, b, c, d)
  {
    Below(i, j, a, b);
    PartsOfFlat(a * b, c, d, i * b + j, y, x);
  }

  /** Every load the masks let through is inside its array and is the pixel or weight of its tap. */
  lemma LoadsAreInside(s: Shape, data: seq<real>, weights: seq<real>, r: nat, o: nat, t: nat)
    requires Valid(s) && r < Rows(s) && o < s.filters && t < Taps(s)
    requires |data| == Volume(s.batch, s.channels, s.height, s.width)
    requires |weights| == Volume(s.filters, s.channels, s.kh, s.kw)
    ensures 0 <= InputOffset(s, r, t) < |data| && 0 <= WeightOffset(s, o, t) < |weights|
    ensures data[InputOffset(s, r, t)]
            == Pixel(s, View(data, s.batch, s.channels, s.height, s.width), r, t)
    ensures weights[WeightOffset(s, o, t)]
            == WeightAt(s, View(weights, s.filters, s.channels, s.kh, s.kw), o, t)
  {
    PixelInside(s, r, t);
    FlatOfParts(s.channels, s.kh, s.kw, t);
    var b, c, i, j := Hi(s.outH, s.outW, r), Hi(s.kh, s.kw, t), Mid(s.kh, s.kw, t), Lo(s.kh, s.kw, t);
    var y, x := Mid(s.outH, s.outW, r) * s.sh + i, Lo(s.outH, s.outW, r) * s.sw + j;
    assert InputOffset(s, r, t) == Flat(s.height, s.width, b * s.channels + c, y, x);
    assert WeightOffset(s, o, t) == Flat(s.kh, s.kw, o * s.channels + c, i, j);
    hide Hi, Mid, Lo, Flat, Rows, Taps, Volume, InputOffset, WeightOffset;
    InVolume(s.batch, s.channels, s.height, s.width, b, c, y, x);
    InVolume(s.filters, s.channels, s.kh, s.kw, o, c, i, j);
  }

  /** One product of the reduction, as loaded. */
  function LoadedTerm(s: Shape, data: seq<real>, weights: seq<real>, r: nat, o: nat): int -> real
    requires Valid(s) && r < Rows(s) && o < s.filters
    requires |data| == Volume(s.batch, s.channels, s.height, s.width)
    requires |weights| == Volume(s.filters, s.channels, s.kh, s.kw)
  {
    t => if 0 <= t < Taps(s) then LoadedProduct(s, data, weights, r, o, t) else 0.0
  }

  function LoadedProduct(s: Shape, data: seq<real>, weights: seq<real>, r: nat, o: nat, t: nat): real
    requires Valid(s) && r < Rows(s) && o < s.filters && t < Taps(s)
    requires |data| == Volume(s.batch, s.channels, s.height, s.width)
    requires |weights| == Volume(s.filters, s.channels, s.kh, s.kw)
  {
    LoadsAreInside(s, data, weights, r, o, t);
    Times(data[InputOffset(s, r, t)], weights[WeightOffset(s, o, t)])
  }

  // ----- the blocked reduction -----

  /** One block of the reduction; taps past the end are masked to zero. */
  function MaskedBlock(taps: nat, size: nat, f: int -> real): (int, int) -> real {
    (block, k) => Padded(taps, f)(block * size + k)
  }

  function Padded(taps: nat, f: int -> real): int -> real {
    t => if t < taps then f(t) else 0.0
  }

  /** Reducing block by block with a mask is the sum over all taps. */
  lemma BlockedReduction(taps: nat, size: nat, f: int -> real)
    requires size > 0
    ensures Sum(CeilDiv(taps, size), block => Sum(size, k => MaskedBlock(taps, size, f)(block, k))) == Sum(taps, f)
  {
    var blocks := CeilDiv(taps, size);
    CeilDivEnough(taps, size);
    hide Sum, CeilDiv;
    SumFlatten(blocks, size, MaskedBlock(taps, size, f), Padded(taps, f));
    PaddedSum(taps, blocks * size, f);
  }

  lemma PaddedSum(taps: nat, total: nat, f: int -> real)
    requires taps <= total
    ensures Sum(total, Padded(taps, f)) == Sum(taps, f)
  {
    var tail := (t: int) => Padded(taps, f)(taps + t);
    hide Sum;
    SumSplit(taps, total - taps, Padded(taps, f), tail);
    SumZero(total - taps, tail);
    SumCongruence(taps, Padded(taps, f), f);
  }

  /** What one program accumulates from its loads, for an output it stores, is the convolution there. */
  lemma ProgramComputesConv(s: Shape, data: seq<real>, weights: seq<real>, size: nat, r: nat, o: nat)
    requires Valid(s) && size > 0 && r < Rows(s) && o < s.filters
    requires |data| == Volume(s.batch, s.channels, s.height, s.width)
    requires |weights| == Volume(s.filters, s.channels, s.kh, s.kw)
    ensures Sum(CeilDiv(Taps(s), size),
                block => Sum(size, k => MaskedBlock(Taps(s), size, LoadedTerm(s, data, weights, r, o))(block, k)))
            == ConvRow(s, View(data, s.batch, s.channels, s.height, s.width),
                       View(weights, s.filters, s.channels, s.kh, s.kw), r, o)
  {
    var x := View(data, s.batch, s.channels, s.height, s.width);
    var weight := View(weights, s.filters, s.channels, s.kh, s.kw);
    hide Sum, View, Volume, Pixel, WeightAt, InputOffset, WeightOffset, Times, Taps, Rows, ConvAt, MaskedBlock;
    BlockedReduction(Taps(s), size, LoadedTerm(s, data, weights, r, o));
    forall t | 0 <= t < Taps(s)
      ensures LoadedTerm(s, data, weights, r, o)(t) == RowTerm(s, x, weight, r, o)(t)
    {
      LoadsAreInside(s, data, weights, r, o, t);
    }
    SumCongruence(Taps(s), LoadedTerm(s, data, weights, r, o), RowTerm(s, x, weight, r, o));
    RowIsConv(s, x, weight, r, o);
  }
}
