// The layer kernels over byte memory: macsOnRange, one kernel row with its
// fast path, the weighted sum of one output, and the layers themselves, whose
// output may share its array with the input.

module Conv {
  import opened ConvSpec
  import Arith

  lemma ProductBound(v: byte, w: weight)
    ensures -32640 <= v * w <= 32640
  {
    Arith.MulMono(v, 255, 128);
    if w >= 0 {
      Arith.MulMono(v, 255, w);
    } else {
      var u: int := 0 - w;
      Arith.MulMono(v, 255, u);
    }
  }

  method MacsOnRange(inputs: array<byte>, from: int, weights: seq<weight>, wFrom: int, weightedSum: int,
                     iterations: nat, ghost rest: nat)
    returns (sum: int)
    requires 0 <= from && from + iterations <= inputs.Length
    requires 0 <= wFrom && wFrom + iterations <= |weights|
    requires Fits(weightedSum, iterations + rest)
    ensures sum == weightedSum + Flat(inputs[..], from, weights, wFrom, iterations)
    ensures Fits(sum, rest)
  {
    sum := weightedSum;
    for iter := 0 to iterations
      invariant sum == weightedSum + Flat(inputs[..], from, weights, wFrom, iter)
      invariant Fits(sum, iterations - iter + rest)
    {
      ProductBound(inputs[from + iter], weights[wFrom + iter]);
      assert inputs[..][from + iter] == inputs[from + iter];
      sum := sum + inputs[from + iter] * weights[wFrom + iter];
    }
  }

  // A kernel row as the code finds it: the layout, the pixel the row starts at,
  // and the sizes the wrap test looks at.
  datatype Place = Place(base: int, lay: Layout, channels: nat, height: nat, kerW: nat, p: int) {
    function Address(j: nat): int {
      base + lay.CodePixel(channels, height, kerW, p, j)
    }
  }

  // Pixel x + j of row y of F lies where the code looks for it.
  ghost predicate Found(m: seq<int>, at: Place, F: FMap, y: int, x: int, j: nat) {
    PixelAt(m, at.Address(j), F, y, x + j, at.channels)
  }

  ghost predicate RowFound(m: seq<int>, at: Place, F: FMap, y: int, x: int, n: nat) {
    forall j: nat :: j < n ==> Found(m, at, F, y, x, j)
  }

  lemma Packed(m: seq<int>, at: Place, F: FMap, y: int, x: int, n: nat)
    requires RowFound(m, at, F, y, x, n) && n > 0
    requires !at.lay.WrapInRange(at.channels, at.height, at.kerW, at.p) && at.channels == at.lay.stride
    ensures forall j :: 0 <= j < n ==> PixelAt(m, at.Address(0) + j * at.channels, F, y, x + j, at.channels)
    ensures 0 <= at.Address(0) && at.Address(0) + n * at.channels <= |m|
  {
    forall j: nat | j < n
      ensures PixelAt(m, at.Address(0) + j * at.channels, F, y, x + j, at.channels)
    {
      assert Found(m, at, F, y, x, j);
    }
    assert PixelAt(m, at.Address(0) + 0 * at.channels, F, y, x + 0, at.channels);
    assert PixelAt(m, at.Address(0) + (n - 1) * at.channels, F, y, x + (n - 1), at.channels);
    assert (n - 1) * at.channels + at.channels == n * at.channels;
  }

  predicate InTable(wOffset: int, n: nat, channels: nat, table: nat) {
    0 <= wOffset && wOffset + n * channels <= table
  }

  method FastRow(inputs: array<byte>, at: Place, weights: seq<weight>, wOffset: int, weightedSum: int,
                 ghost F: FMap, ghost y: int, ghost x: int, ghost rest: nat)
    returns (sum: int)
    requires at.kerW > 0 && RowFound(inputs[..], at, F, y, x, at.kerW)
    requires !at.lay.WrapInRange(at.channels, at.height, at.kerW, at.p) && at.channels == at.lay.stride
    requires 0 <= wOffset && wOffset + at.kerW * at.channels <= |weights|
    requires Fits(weightedSum, at.kerW * at.channels + rest)
    ensures sum == weightedSum + Taps(F, y, x, weights, wOffset, at.channels, at.kerW)
    ensures Fits(sum, rest)
  {
    Packed(inputs[..], at, F, y, x, at.kerW);
    SweepIsTaps(inputs[..], at.Address(0), F, y, x, weights, wOffset, at.channels, at.kerW);
    var iOffset := at.lay.Off(at.lay.stride * at.p);
    sum := MacsOnRange(inputs, at.base + iOffset, weights, wOffset, weightedSum, at.kerW * at.channels, rest);
  }

  method SlowRow(inputs: array<byte>, at: Place, weights: seq<weight>, wOffset: int, whole: bool, count: int,
                 weightedSum: int, ghost F: FMap, ghost y: int, ghost x: int, ghost n: nat, ghost rest: nat)
    returns (sum: int)
    requires count <= at.kerW && (whole ==> count == at.kerW) && n == if count > 0 then count else 0
    requires RowFound(inputs[..], at, F, y, x, n)
    requires n > 0 ==> InTable(wOffset, n, at.channels, |weights|)
    requires Fits(weightedSum, at.kerW * at.channels + rest)
    ensures sum == weightedSum + Taps(F, y, x, weights, wOffset, at.channels, n)
    ensures Fits(sum, rest)
  {
    hide Fits, PixelAt, Layout.CodePixel, Layout.Off, Layout.WrapInRange, Place.Address, RowFound, Flat, Dot, Taps;
    hide InTable, TapOffset, OffsetInRange, ProductsLeft;
    var wrapInRange := at.lay.WrapInRange(at.channels, at.height, at.kerW, at.p);
    sum := weightedSum;
    NoTapsYet(at, F, y, x, weights, wOffset);
    var sx: nat := 0;
    while sx < at.kerW && (whole || sx < count)
      invariant sx <= n
      invariant sum == weightedSum + Taps(F, y, x, weights, wOffset, at.channels, sx)
      invariant Fits(sum, ProductsLeft(at, sx) + rest)
      decreases at.kerW - sx
    {
      var iOffsetInRange := OffsetInRange(at, sx);
      if wrapInRange && iOffsetInRange >= at.lay.contSize {
        iOffsetInRange := iOffsetInRange + at.lay.Shift();
      }
      InRange(at, sx);
      FoundAt(inputs[..], at, F, y, x, n, sx);
      PixelBounds(inputs[..], at.Address(sx), F, y, x + sx, at.channels);
      WeightRoom(at, sx, n, wOffset, |weights|);
      NextTap(at, F, y, x, weights, wOffset, sx);
      var wOffsetInRange := TapOffset(wOffset, sx, at.channels);
      FlatIsDot(inputs[..], at.Address(sx), F, y, x + sx, weights, wOffsetInRange, at.channels, at.channels);
      sum := MacsOnRange(inputs, at.base + iOffsetInRange, weights, wOffsetInRange, sum, at.channels,
                         ProductsLeft(at, sx + 1) + rest);
      sx := sx + 1;
    }
    FitsLess(sum, rest, ProductsLeft(at, sx) + rest);
  }

  function TapOffset(wOffset: int, sx: nat, channels: nat): int { wOffset + sx * channels }

  function OffsetInRange(at: Place, sx: nat): int {
    at.lay.Off(at.lay.stride * at.p) + sx * at.lay.stride
  }

  function ProductsLeft(at: Place, sx: nat): nat {
    if sx <= at.kerW then (at.kerW - sx) * at.channels else 0
  }

  lemma NoTapsYet(at: Place, F: FMap, y: int, x: int, w: seq<int>, wOffset: int)
    ensures Taps(F, y, x, w, wOffset, at.channels, 0) == 0
    ensures ProductsLeft(at, 0) == at.kerW * at.channels
  {
  }

  lemma NextTap(at: Place, F: FMap, y: int, x: int, w: seq<int>, wOffset: int, sx: nat)
    requires sx < at.kerW
    ensures Taps(F, y, x, w, wOffset, at.channels, sx + 1) ==
            Taps(F, y, x, w, wOffset, at.channels, sx) +
            Dot(F, y, x + sx, w, TapOffset(wOffset, sx, at.channels), at.channels)
    ensures ProductsLeft(at, sx) == at.channels + ProductsLeft(at, sx + 1)
  {
    assert (at.kerW - sx) * at.channels == at.channels + (at.kerW - sx - 1) * at.channels;
  }

  lemma InRange(at: Place, sx: nat)
    ensures var off := OffsetInRange(at, sx);
            var wraps := at.lay.WrapInRange(at.channels, at.height, at.kerW, at.p) && off >= at.lay.contSize;
            at.Address(sx) == at.base + if wraps then off + at.lay.Shift() else off
  {
  }

  lemma FoundAt(m: seq<int>, at: Place, F: FMap, y: int, x: int, n: nat, j: nat)
    requires RowFound(m, at, F, y, x, n) && j < n
    ensures PixelAt(m, at.Address(j), F, y, x + j, at.channels)
  {
    assert Found(m, at, F, y, x, j);
  }

  lemma PixelBounds(m: seq<int>, a: int, F: FMap, y: int, x: int, channels: nat)
    requires PixelAt(m, a, F, y, x, channels)
    ensures 0 <= a && a + channels <= |m|
  {
  }

  // One kernel row: `count` of the kerW positions lie inside the input; `whole`
  // says that no row is ever cut. The two paths add up the same.
  method MacRow(inputs: array<byte>, at: Place, weights: seq<weight>, wOffset: int, whole: bool, count: int,
                weightedSum: int, ghost F: FMap, ghost y: int, ghost x: int, ghost n: nat, ghost rest: nat)
    returns (sum: int)
    requires count <= at.kerW && (whole ==> count == at.kerW) && n == if count > 0 then count else 0
    requires RowFound(inputs[..], at, F, y, x, n)
    requires n > 0 ==> InTable(wOffset, n, at.channels, |weights|)
    requires Fits(weightedSum, at.kerW * at.channels + rest)
    ensures sum == weightedSum + Taps(F, y, x, weights, wOffset, at.channels, n)
    ensures Fits(sum, rest)
  {
    var wrapInRange := at.lay.WrapInRange(at.channels, at.height, at.kerW, at.p);
    if !wrapInRange && at.channels == at.lay.stride && (whole || count == at.kerW) {
      if at.kerW == 0 {
        sum := weightedSum;
      } else {
        sum := FastRow(inputs, at, weights, wOffset, weightedSum, F, y, x, rest);
      }
    } else {
      sum := SlowRow(inputs, at, weights, wOffset, whole, count, weightedSum, F, y, x, n, rest);
    }
  }

  lemma WeightRoom(at: Place, sx: nat, n: nat, wOffset: int, table: nat)
    requires sx < n
    requires InTable(wOffset, n, at.channels, table)
    ensures 0 <= TapOffset(wOffset, sx, at.channels) && TapOffset(wOffset, sx, at.channels) + at.channels <= table
  {
    Arith.MulMono(sx + 1, n, at.channels);
    assert (sx + 1) * at.channels == sx * at.channels + at.channels;
    assert sx * at.channels >= 0;
  }

  // ---- The kernel window ----

  // Integer division of C truncates.
  function CDiv(a: int, b: int): int
    requires b > 0
  {
    if a >= 0 then a / b else -((-a) / b)
  }

  function NoPad(size: nat, ker: nat, stride: nat): int
    requires stride > 0
  {
    CDiv(size - ker + stride, stride)
  }

  function Max(a: int, b: int): int { if a >= b then a else b }

  // First kernel row (or column) to visit for output row (or column) o.
  function Lo(pad: nat, stride: nat, o: nat): int {
    if pad == 0 then 0 else Max(pad - o * stride, 0)
  }

  // One past the last one.
  function Hi(size: nat, pad: nat, stride: nat, ker: nat, out: nat, o: nat): int
    requires stride > 0
  {
    if pad == 0 && out == NoPad(size, ker, stride) then ker else Clamp(size + pad - o * stride, 0, ker)
  }

  lemma CDivBelow(a: int, b: int)
    requires b > 0
    ensures CDiv(a, b) > 0 ==> CDiv(a, b) * b <= a
  {
    if a >= 0 {
      assert a == a / b * b + a % b;
    } else {
      assert (-a) / b >= 0;
    }
  }

  lemma NoPadFits(size: nat, ker: nat, stride: nat, out: nat, o: nat)
    requires stride > 0 && o < out && out == NoPad(size, ker, stride)
    ensures o * stride + ker <= size
  {
    CDivBelow(size - ker + stride, stride);
    Arith.MulMono(o + 1, out, stride);
    assert (o + 1) * stride == o * stride + stride;
  }

  predicate InSpan(size: nat, pad: nat, stride: nat, ker: nat, out: nat, o: nat, k: int)
    requires stride > 0
  {
    Lo(pad, stride, o) <= k < Hi(size, pad, stride, ker, out, o)
  }

  // Exactly the kernel positions Lo..Hi lie inside the input.
  lemma Span(size: nat, pad: nat, stride: nat, ker: nat, out: nat, o: nat)
    requires stride > 0 && o < out
    ensures 0 <= Lo(pad, stride, o) && Hi(size, pad, stride, ker, out, o) <= ker
    ensures forall k :: 0 <= k < ker ==>
              (0 <= Start(pad, stride, o) + k < size <==> InSpan(size, pad, stride, ker, out, o, k))
    ensures pad == 0 && out == NoPad(size, ker, stride) ==>
              Lo(pad, stride, o) == 0 && Hi(size, pad, stride, ker, out, o) == ker
  {
    assert o * stride >= 0;
    if pad == 0 && out == NoPad(size, ker, stride) {
      NoPadFits(size, ker, stride, out, o);
    }
  }

  function XLo(s: Shape, ox: nat): int { Lo(s.padX, s.strideX, ox) }

  function XHi(s: Shape, ox: nat): int
    requires s.strideX > 0
  {
    Hi(s.inW, s.padX, s.strideX, s.kerW, s.outW, ox)
  }

  function YLo(s: Shape, oy: nat): int { Lo(s.padY, s.strideY, oy) }

  function YHi(s: Shape, oy: nat): int
    requires s.strideY > 0
  {
    Hi(s.inH, s.padY, s.strideY, s.kerH, s.outH, oy)
  }

  lemma XSpan(s: Shape, ox: nat)
    requires s.strideX > 0 && ox < s.outW
    ensures 0 <= XLo(s, ox) && XHi(s, ox) <= s.kerW
    ensures forall kx :: 0 <= kx < s.kerW ==> (0 <= s.X(ox, kx) < s.inW <==> XLo(s, ox) <= kx < XHi(s, ox))
    ensures s.padX == 0 && s.outW == NoPad(s.inW, s.kerW, s.strideX) ==> XLo(s, ox) == 0 && XHi(s, ox) == s.kerW
  {
    Span(s.inW, s.padX, s.strideX, s.kerW, s.outW, ox);
    hide Lo, Hi, NoPad, Start;
    forall kx | 0 <= kx < s.kerW
      ensures 0 <= s.X(ox, kx) < s.inW <==> XLo(s, ox) <= kx < XHi(s, ox)
    {
      assert InSpan(s.inW, s.padX, s.strideX, s.kerW, s.outW, ox, kx) <==> XLo(s, ox) <= kx < XHi(s, ox);
    }
  }

  lemma YSpan(s: Shape, oy: nat)
    requires s.strideY > 0 && oy < s.outH
    ensures 0 <= YLo(s, oy) && YHi(s, oy) <= s.kerH
    ensures forall ky :: 0 <= ky < s.kerH ==> (0 <= s.Y(oy, ky) < s.inH <==> YLo(s, oy) <= ky < YHi(s, oy))
    ensures s.padY == 0 && s.outH == NoPad(s.inH, s.kerH, s.strideY) ==> YLo(s, oy) == 0 && YHi(s, oy) == s.kerH
  {
    Span(s.inH, s.padY, s.strideY, s.kerH, s.outH, oy);
    hide Lo, Hi, NoPad, Start;
    forall ky | 0 <= ky < s.kerH
      ensures 0 <= s.Y(oy, ky) < s.inH <==> YLo(s, oy) <= ky < YHi(s, oy)
    {
      assert InSpan(s.inH, s.padY, s.strideY, s.kerH, s.outH, oy, ky) <==> YLo(s, oy) <= ky < YHi(s, oy);
    }
  }

  lemma RowTaps(F: FMap, s: Shape, w: seq<int>, o: int, oy: nat, ox: nat, ky: int, n: nat)
    requires s.strideX > 0 && ox < s.outW && 0 <= s.Y(oy, ky) < s.inH
    requires n == Max(XHi(s, ox) - XLo(s, ox), 0)
    ensures Taps(F, s.Y(oy, ky), s.X(ox, XLo(s, ox)), w, s.W(o, ky, XLo(s, ox)), s.channels, n)
         == Row(F, s, w, o, oy, ox, ky, s.kerW)
  {
    XSpan(s, ox);
    var lo, hi := XLo(s, ox), XHi(s, ox);
    NoTaps(F, s, w, o, oy, ox, ky, lo);
    hide XLo, XHi, Taps, Row, Tap, Shape.W, Shape.X, Shape.Y;
    if n == 0 {
      EmptyTaps(F, s, w, o, oy, ox, ky, 0, s.kerW);
    } else {
      TapsAreRow(F, s, w, o, oy, ox, ky, lo, n);
      EmptyTaps(F, s, w, o, oy, ox, ky, hi, s.kerW);
    }
  }

  lemma NoTaps(F: FMap, s: Shape, w: seq<int>, o: int, oy: nat, ox: nat, ky: int, lo: int)
    ensures Taps(F, s.Y(oy, ky), s.X(ox, lo), w, s.W(o, ky, lo), s.channels, 0) == 0 == Row(F, s, w, o, oy, ox, ky, 0)
  {
  }

  // Pixel (y, x) of the input lies at its place.
  ghost predicate Held(m: seq<int>, base: int, lay: Layout, s: Shape, F: FMap, y: int, x: int) {
    PixelAt(m, base + lay.Pixel(x + s.inW * y), F, y, x, s.channels)
  }

  // Output (oy, ox) looks at pixel (y, x).
  ghost predicate Looks(s: Shape, oy: int, ox: int, y: int, x: int) {
    && s.Inside(y, x)
    && 0 <= y - s.Y(oy, 0) < s.kerH
    && 0 <= x - s.X(ox, 0) < s.kerW
  }

  ghost predicate WindowHeld(m: seq<int>, base: int, lay: Layout, s: Shape, F: FMap, oy: int, ox: int) {
    forall y, x :: Looks(s, oy, ox, y, x) ==> Held(m, base, lay, s, F, y, x)
  }

  // The place the code computes for kernel row ky.
  function RowPlace(base: int, lay: Layout, s: Shape, oy: nat, ox: nat, ky: int): Place {
    Place(base, lay, s.channels, s.inH, s.kerW, s.X(ox, XLo(s, ox)) + s.inW * s.Y(oy, ky))
  }

  lemma RowInWindow(m: seq<int>, base: int, lay: Layout, s: Shape, F: FMap, oy: nat, ox: nat, ky: int, n: nat)
    requires WindowHeld(m, base, lay, s, F, oy, ox) && WrapsAtLineEnds(lay, s)
    requires s.strideX > 0 && ox < s.outW && 0 <= ky < s.kerH && 0 <= s.Y(oy, ky) < s.inH
    requires n == Max(XHi(s, ox) - XLo(s, ox), 0)
    ensures RowFound(m, RowPlace(base, lay, s, oy, ox, ky), F, s.Y(oy, ky), s.X(ox, XLo(s, ox)), n)
    ensures n > 0 ==> XLo(s, ox) + n <= s.kerW
  {
    XSpan(s, ox);
    var lo := XLo(s, ox);
    hide XLo, XHi, Start, WrapsAtLineEnds, Layout.CodePixel, Layout.Pixel, PixelAt;
    var y, x := s.Y(oy, ky), s.X(ox, lo);
    forall j: nat | j < n
      ensures Found(m, RowPlace(base, lay, s, oy, ox, ky), F, y, x, j)
    {
      assert 0 <= s.X(ox, lo + j) < s.inW && 0 <= s.X(ox, lo) < s.inW && s.X(ox, lo + (n - 1)) < s.inW;
      assert Looks(s, oy, ox, y, x + j);
      RowAddresses(lay, s, y, x, n, j);
      SamePixel(m, base, lay, s, F, y, x, j);
    }
  }

  lemma SamePixel(m: seq<int>, base: int, lay: Layout, s: Shape, F: FMap, y: int, x: int, j: nat)
    requires Held(m, base, lay, s, F, y, x + j)
    ensures PixelAt(m, base + lay.Pixel(x + s.inW * y + j), F, y, x + j, s.channels)
  {
    assert x + j + s.inW * y == x + s.inW * y + j;
  }

  function Products(s: Shape, rows: nat): (n: nat)
  {
    assert rows * (s.kerW * s.channels) >= 0;
    rows * (s.kerW * s.channels)
  }

  lemma OneRowLess(s: Shape, rows: nat)
    requires rows > 0
    ensures Products(s, rows) == s.kerW * s.channels + Products(s, rows - 1)
  {
  }

  lemma RowInTable(s: Shape, o: nat, ky: nat, kx: nat, n: nat)
    requires o < s.outputs && ky < s.kerH && kx + n <= s.kerW
    ensures InTable(s.W(o, ky, kx), n, s.channels, s.outputs * s.kerH * s.kerW * s.channels)
  {
    WeightBounds(s, o, ky, kx, n);
  }

  // The sum for one output value: the loop over kernel rows.
  method Weigh(inputs: array<byte>, base: int, lay: Layout, s: Shape, weights: seq<weight>, bias: int,
               output: nat, oy: nat, ox: nat, ghost F: FMap)
    returns (weightedSum: int)
    requires s.strideY > 0 && s.strideX > 0
    requires oy < s.outH && ox < s.outW && output < s.outputs
    requires |weights| == s.outputs * s.kerH * s.kerW * s.channels
    requires WrapsAtLineEnds(lay, s)
    requires WindowHeld(inputs[..], base, lay, s, F, oy, ox)
    requires Fits(bias, Products(s, s.kerH))
    ensures weightedSum == bias + Kernel(F, s, weights, output, oy, ox, s.kerH)
    ensures Fits(weightedSum, 0)
  {
    YSpan(s, oy);
    XSpan(s, ox);
    var syMin, syMax := YLo(s, oy), YHi(s, oy);
    var sxMin, sxMax := XLo(s, ox), XHi(s, ox);
    var wholeY := s.padY == 0 && s.outH == NoPad(s.inH, s.kerH, s.strideY);
    var wholeX := s.padX == 0 && s.outW == NoPad(s.inW, s.kerW, s.strideX);
    ghost var rows: nat := Max(syMax - syMin, 0);
    ghost var n: nat := Max(sxMax - sxMin, 0);
    hide Fits, Products, XLo, XHi, YLo, YHi, NoPad, WrapsAtLineEnds, WindowHeld, RowFound, Row, Taps, Shape.W;
    hide Shape.X, Shape.Y, Kernel, Start, InTable;
    weightedSum := bias;
    EmptyRows(F, s, weights, output, oy, ox, 0, if syMin <= s.kerH then syMin else s.kerH);
    var sy: nat := 0;
    while sy < s.kerH && (wholeY || sy < syMax - syMin)
      invariant sy <= rows
      invariant rows > 0 ==> weightedSum == bias + Kernel(F, s, weights, output, oy, ox, syMin + sy)
      invariant rows == 0 ==> weightedSum == bias
      invariant Fits(weightedSum, Products(s, s.kerH - sy))
      decreases s.kerH - sy
    {
      var ky := syMin + sy;
      RowInWindow(inputs[..], base, lay, s, F, oy, ox, ky, n);
      if n > 0 {
        RowInTable(s, output, ky, sxMin, n);
      }
      OneRowLess(s, s.kerH - sy);
      RowTaps(F, s, weights, output, oy, ox, ky, n);
      weightedSum := MacRow(inputs, RowPlace(base, lay, s, oy, ox, ky), weights, s.W(output, ky, sxMin), wholeX,
                            sxMax - sxMin, weightedSum,
                            F, s.Y(oy, ky), s.X(ox, sxMin), n, Products(s, s.kerH - sy - 1));
      sy := sy + 1;
    }
    FitsLess(weightedSum, 0, Products(s, s.kerH - sy));
    if rows == 0 {
      EmptyRows(F, s, weights, output, oy, ox, 0, s.kerH);
    } else {
      EmptyRows(F, s, weights, output, oy, ox, syMax, s.kerH);
    }
  }
}
