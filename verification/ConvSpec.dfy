// What the quantised layers compute: the direct convolution of a feature map,
// and how feature maps lie in memory.

module ConvSpec {
  import Arith

  type byte = x: int | 0 <= x < 256
  type weight = x: int | -128 <= x < 128

  // (row, column, channel)
  type FMap = (int, int, int) -> byte

  // ---- The layer ----

  datatype Shape = Shape(
    channels: nat, inH: nat, inW: nat,
    outputs: nat, outH: nat, outW: nat,
    padY: nat, padX: nat, strideY: nat, strideX: nat,
    kerH: nat, kerW: nat)
  {
    // The input row under kernel row ky, and the column under kernel column kx.
    function Y(oy: int, ky: int): int { Start(padY, strideY, oy) + ky }

    function X(ox: int, kx: int): int { Start(padX, strideX, ox) + kx }

    predicate Inside(y: int, x: int) {
      0 <= y < inH && 0 <= x < inW
    }

    // Weights lie in the order output, kernel row, kernel column, channel.
    function W(o: int, ky: int, kx: int): int {
      channels * (kx + kerW * (ky + kerH * o))
    }
  }

  // Where the window of output row (or column) o begins.
  function Start(pad: nat, stride: nat, o: int): int { o * stride - pad }

  function At(w: seq<int>, i: int): int {
    if 0 <= i < |w| then w[i] else 0
  }

  // The products of one pixel's first n channels.
  function Dot(F: FMap, y: int, x: int, w: seq<int>, b: int, n: nat): int {
    if n == 0 then 0 else Dot(F, y, x, w, b, n - 1) + F(y, x, n - 1) * At(w, b + n - 1)
  }

  // One kernel position; padding contributes nothing.
  function Tap(F: FMap, s: Shape, w: seq<int>, o: int, oy: int, ox: int, ky: int, kx: int): int {
    if s.Inside(s.Y(oy, ky), s.X(ox, kx)) then
      Dot(F, s.Y(oy, ky), s.X(ox, kx), w, s.W(o, ky, kx), s.channels)
    else 0
  }

  function Row(F: FMap, s: Shape, w: seq<int>, o: int, oy: int, ox: int, ky: int, n: nat): int {
    if n == 0 then 0 else Row(F, s, w, o, oy, ox, ky, n - 1) + Tap(F, s, w, o, oy, ox, ky, n - 1)
  }

  function Kernel(F: FMap, s: Shape, w: seq<int>, o: int, oy: int, ox: int, n: nat): int {
    if n == 0 then 0 else Kernel(F, s, w, o, oy, ox, n - 1) + Row(F, s, w, o, oy, ox, n - 1, s.kerW)
  }

  datatype Activation = Linear | Saturation | Rectifier

  function Clamp(v: int, lo: int, hi: int): int {
    if v < lo then lo else if v > hi then hi else v
  }

  // NB_BITS is 8; >> on a negative sum is an arithmetic shift, which floors.
  function Sat(sum: int, act: Activation, shift: nat): byte {
    var rectified := if act.Rectifier? && sum <= 0 then 0 else sum;
    Clamp(rectified / Arith.Pow2(shift), 0, 255)
  }

  // The clamp already rectifies: the activation makes no difference.
  lemma RectifierIsRedundant(sum: int, act: Activation, shift: nat)
    ensures Sat(sum, act, shift) == Clamp(sum / Arith.Pow2(shift), 0, 255)
  {
    if act.Rectifier? && sum <= 0 {
      NonPositiveQuotient(sum, Arith.Pow2(shift));
    }
  }

  lemma NonPositiveQuotient(a: int, p: nat)
    requires a <= 0 && p > 0
    ensures a / p <= 0 && 0 / p == 0
  {
    var q, r := a / p, a % p;
    assert a == q * p + r;
    if q >= 1 {
      Arith.MulAtLeast(q, p);
    }
  }

  function Layer(F: FMap, s: Shape, bias: seq<int>, w: seq<int>, act: Activation, shift: nat): FMap {
    (oy, ox, o) => Sat(At(bias, o) + Kernel(F, s, w, o, oy, ox, s.kerH), act, shift)
  }

  // ---- What the sum is ----

  // A map that is v in one place and 0 elsewhere.
  function Impulse(y: int, x: int, c: int, v: byte): FMap {
    (y1, x1, c1) => if y1 == y && x1 == x && c1 == c then v else 0
  }

  // Where the kernel of output (oy, ox) meets row y and column x.
  function KernelRow(s: Shape, oy: int, y: int): int { y - (oy * s.strideY - s.padY) }

  function KernelColumn(s: Shape, ox: int, x: int): int { x - (ox * s.strideX - s.padX) }

  // The product that value v at (y, x, c) adds to output (oy, ox, o), if the
  // first `rows` kernel rows meet it.
  function Share(s: Shape, w: seq<int>, o: int, oy: int, ox: int, y: int, x: int, c: int, v: byte, rows: nat): int {
    var ky, kx := KernelRow(s, oy, y), KernelColumn(s, ox, x);
    if 0 <= y < s.inH && 0 <= x < s.inW && 0 <= c < s.channels && 0 <= ky < rows && 0 <= kx < s.kerW then
      v * At(w, s.channels * (kx + s.kerW * (ky + s.kerH * o)) + c)
    else 0
  }

  lemma {:induction false} DotOfImpulse(y: int, x: int, c: int, v: byte, y1: int, x1: int, w: seq<int>, b: int, n: nat)
    ensures Dot(Impulse(y, x, c, v), y1, x1, w, b, n) ==
            if y1 == y && x1 == x && 0 <= c < n then v * At(w, b + c) else 0
    decreases n
  {
    if n > 0 {
      DotOfImpulse(y, x, c, v, y1, x1, w, b, n - 1);
    }
  }

  lemma {:induction false} RowOfImpulse(s: Shape, w: seq<int>, o: int, oy: int, ox: int, ky: int, y: int, x: int,
                                        c: int, v: byte, n: nat)
    ensures var kx := KernelColumn(s, ox, x);
            Row(Impulse(y, x, c, v), s, w, o, oy, ox, ky, n) ==
            if s.Y(oy, ky) == y && s.Inside(y, x) && 0 <= c < s.channels && 0 <= kx < n then
              v * At(w, s.W(o, ky, kx) + c)
            else 0
    decreases n
  {
    hide Shape.W, Dot;
    if n > 0 {
      RowOfImpulse(s, w, o, oy, ox, ky, y, x, c, v, n - 1);
      DotOfImpulse(y, x, c, v, s.Y(oy, ky), s.X(ox, n - 1), w, s.W(o, ky, n - 1), s.channels);
    }
  }

  lemma {:induction false} RowsOfImpulse(s: Shape, w: seq<int>, o: int, oy: int, ox: int, y: int, x: int, c: int,
                                         v: byte, n: nat)
    ensures Kernel(Impulse(y, x, c, v), s, w, o, oy, ox, n) == Share(s, w, o, oy, ox, y, x, c, v, n)
    decreases n
  {
    hide Row, Shape.X;
    if n > 0 {
      RowsOfImpulse(s, w, o, oy, ox, y, x, c, v, n - 1);
      RowOfImpulse(s, w, o, oy, ox, n - 1, y, x, c, v, s.kerW);
    }
  }

  // The sum over an impulse is its one product.
  lemma KernelOfImpulse(s: Shape, w: seq<int>, o: int, oy: int, ox: int, y: int, x: int, c: int, v: byte)
    ensures var ky, kx := y - (oy * s.strideY - s.padY), x - (ox * s.strideX - s.padX);
            Kernel(Impulse(y, x, c, v), s, w, o, oy, ox, s.kerH) ==
            if 0 <= y < s.inH && 0 <= x < s.inW && 0 <= c < s.channels && 0 <= ky < s.kerH && 0 <= kx < s.kerW then
              v * At(w, s.channels * (kx + s.kerW * (ky + s.kerH * o)) + c)
            else 0
  {
    hide Kernel;
    RowsOfImpulse(s, w, o, oy, ox, y, x, c, v, s.kerH);
  }

  // H is the sum of F and G.
  ghost predicate Adds(F: FMap, G: FMap, H: FMap) {
    forall y, x, c :: H(y, x, c) == F(y, x, c) + G(y, x, c)
  }

  lemma Distribute(f: int, g: int, u: int)
    ensures (f + g) * u == f * u + g * u
  {
  }

  lemma {:induction false} DotAdds(F: FMap, G: FMap, H: FMap, y: int, x: int, w: seq<int>, b: int, n: nat)
    requires Adds(F, G, H)
    ensures Dot(H, y, x, w, b, n) == Dot(F, y, x, w, b, n) + Dot(G, y, x, w, b, n)
    decreases n
  {
    if n > 0 {
      DotAdds(F, G, H, y, x, w, b, n - 1);
      Distribute(F(y, x, n - 1), G(y, x, n - 1), At(w, b + n - 1));
    }
  }

  lemma {:induction false} RowAdds(F: FMap, G: FMap, H: FMap, s: Shape, w: seq<int>, o: int, oy: int, ox: int, ky: int,
                                   n: nat)
    requires Adds(F, G, H)
    ensures Row(H, s, w, o, oy, ox, ky, n) == Row(F, s, w, o, oy, ox, ky, n) + Row(G, s, w, o, oy, ox, ky, n)
    decreases n
  {
    hide Adds, Dot, Shape.W, Shape.Inside;
    if n > 0 {
      RowAdds(F, G, H, s, w, o, oy, ox, ky, n - 1);
      DotAdds(F, G, H, s.Y(oy, ky), s.X(ox, n - 1), w, s.W(o, ky, n - 1), s.channels);
    }
  }

  // The sum is additive in the map; with KernelOfImpulse that says what it is
  // for every map, since a map is the sum of its impulses.
  lemma {:induction false} KernelAdds(F: FMap, G: FMap, H: FMap, s: Shape, w: seq<int>, o: int, oy: int, ox: int,
                                      n: nat)
    requires Adds(F, G, H)
    ensures Kernel(H, s, w, o, oy, ox, n) == Kernel(F, s, w, o, oy, ox, n) + Kernel(G, s, w, o, oy, ox, n)
    decreases n
  {
    hide Adds, Row;
    if n > 0 {
      KernelAdds(F, G, H, s, w, o, oy, ox, n - 1);
      RowAdds(F, G, H, s, w, o, oy, ox, n - 1, s.kerW);
    }
  }

  // The stored byte r: r steps of 2^shift fit into the sum and r + 1 do not,
  // except that sums below zero give 0 and large ones 255.
  lemma SatMeans(sum: int, act: Activation, shift: nat)
    ensures var r, p := Sat(sum, act, shift), Arith.Pow2(shift);
            && (r > 0 ==> r * p <= sum)
            && (r < 255 ==> sum < (r + 1) * p)
  {
    hide Arith.Pow2, Sat;
    RectifierIsRedundant(sum, act, shift);
    var r, p, q := Sat(sum, act, shift), Arith.Pow2(shift), sum / Arith.Pow2(shift);
    assert sum == q * p + sum % p;
    assert (q + 1) * p == q * p + p;
    if r > 0 {
      Arith.MulMono(r, q, p);
    }
    if r < 255 {
      Arith.MulMono(q + 1, r + 1, p);
    }
  }

  // The layer on an impulse: each output byte is the bias of its channel plus
  // at most one product, shifted down.
  lemma LayerOfImpulse(s: Shape, bias: seq<int>, w: seq<int>, act: Activation, shift: nat,
                       o: int, oy: int, ox: int, y: int, x: int, c: int, v: byte)
    requires 0 <= o < |bias|
    ensures var r, p := Layer(Impulse(y, x, c, v), s, bias, w, act, shift)(oy, ox, o), Arith.Pow2(shift);
            var ky, kx := y - (oy * s.strideY - s.padY), x - (ox * s.strideX - s.padX);
            var met := 0 <= y < s.inH && 0 <= x < s.inW && 0 <= c < s.channels && 0 <= ky < s.kerH && 0 <= kx < s.kerW;
            var sum := bias[o] + if met then v * At(w, s.channels * (kx + s.kerW * (ky + s.kerH * o)) + c) else 0;
            (r > 0 ==> r * p <= sum) && (r < 255 ==> sum < (r + 1) * p)
  {
    hide Kernel, Impulse, Sat, Arith.Pow2;
    KernelOfImpulse(s, w, o, oy, ox, y, x, c, v);
    SatMeans(bias[o] + Kernel(Impulse(y, x, c, v), s, w, o, oy, ox, s.kerH), act, shift);
  }

  // ---- Sums and bounds ----

  // |sum| stays below 2^31 after `left` more products of a byte and a weight.
  predicate Fits(sum: int, left: nat) {
    -0x8000_0000 < sum - left * 32640 && sum + left * 32640 < 0x8000_0000
  }

  lemma FitsLess(sum: int, left: nat, more: nat)
    requires Fits(sum, more) && left <= more
    ensures Fits(sum, left)
  {
  }

  // Taps outside the input add nothing.
  lemma {:induction false} EmptyTaps(F: FMap, s: Shape, w: seq<int>, o: int, oy: int, ox: int, ky: int, lo: nat,
                                     hi: nat)
    requires lo <= hi
    requires forall kx :: lo <= kx < hi ==> !s.Inside(s.Y(oy, ky), s.X(ox, kx))
    ensures Row(F, s, w, o, oy, ox, ky, hi) == Row(F, s, w, o, oy, ox, ky, lo)
    decreases hi
  {
    if lo < hi {
      EmptyTaps(F, s, w, o, oy, ox, ky, lo, hi - 1);
      assert !s.Inside(s.Y(oy, ky), s.X(ox, hi - 1));
    }
  }

  lemma {:induction false} EmptyRows(F: FMap, s: Shape, w: seq<int>, o: int, oy: int, ox: int, lo: nat, hi: nat)
    requires lo <= hi
    requires forall ky :: lo <= ky < hi ==> !(0 <= s.Y(oy, ky) < s.inH)
    ensures Kernel(F, s, w, o, oy, ox, hi) == Kernel(F, s, w, o, oy, ox, lo)
    decreases hi
  {
    if lo < hi {
      EmptyRows(F, s, w, o, oy, ox, lo, hi - 1);
      assert !(0 <= s.Y(oy, hi - 1) < s.inH);
      EmptyTaps(F, s, w, o, oy, ox, hi - 1, 0, s.kerW);
    }
  }

  // ---- Multiply-accumulate over flat memory ----

  function Flat(m: seq<int>, a: int, w: seq<int>, b: int, n: nat): int {
    if n == 0 then 0 else Flat(m, a, w, b, n - 1) + At(m, a + n - 1) * At(w, b + n - 1)
  }

  lemma {:induction false} FlatSplit(m: seq<int>, a: int, w: seq<int>, b: int, n: nat, k: nat)
    ensures Flat(m, a, w, b, n + k) == Flat(m, a, w, b, n) + Flat(m, a + n, w, b + n, k)
    decreases k
  {
    if k > 0 {
      FlatSplit(m, a, w, b, n, k - 1);
    }
  }

  // Any one product can be taken out of the sum.
  lemma FlatTakesOut(m: seq<int>, a: int, w: seq<int>, b: int, n: nat, k: nat)
    requires k < n
    ensures Flat(m, a, w, b, 0) == 0
    ensures Flat(m, a, w, b, n) ==
            Flat(m, a, w, b, k) + At(m, a + k) * At(w, b + k) + Flat(m, a + k + 1, w, b + k + 1, n - k - 1)
  {
    FlatSplit(m, a, w, b, k + 1, n - k - 1);
  }

  // The pixel (y, x) of F lies at address a.
  ghost predicate PixelAt(m: seq<int>, a: int, F: FMap, y: int, x: int, channels: nat) {
    && 0 <= a && a + channels <= |m|
    && forall c :: 0 <= c < channels ==> m[a + c] == F(y, x, c)
  }

  lemma {:induction false} FlatIsDot(m: seq<int>, a: int, F: FMap, y: int, x: int, w: seq<int>, b: int, channels: nat,
                                     n: nat)
    requires PixelAt(m, a, F, y, x, channels) && n <= channels
    ensures Flat(m, a, w, b, n) == Dot(F, y, x, w, b, n)
    decreases n
  {
    if n > 0 {
      FlatIsDot(m, a, F, y, x, w, b, channels, n - 1);
      assert m[a + (n - 1)] == F(y, x, n - 1);
    }
  }

  // n pixels of row y, from column x on, against consecutive weights.
  function Taps(F: FMap, y: int, x: int, w: seq<int>, b: int, channels: nat, n: nat): int {
    if n == 0 then 0
    else Taps(F, y, x, w, b, channels, n - 1) + Dot(F, y, x + n - 1, w, b + (n - 1) * channels, channels)
  }

  // The row-wide fast path: pixels that lie next to each other can be
  // accumulated in one sweep.
  lemma {:induction false} SweepIsTaps(m: seq<int>, a: int, F: FMap, y: int, x: int, w: seq<int>, b: int,
                                       channels: nat, n: nat)
    requires forall j :: 0 <= j < n ==> PixelAt(m, a + j * channels, F, y, x + j, channels)
    ensures Flat(m, a, w, b, n * channels) == Taps(F, y, x, w, b, channels, n)
    decreases n
  {
    if n > 0 {
      SweepIsTaps(m, a, F, y, x, w, b, channels, n - 1);
      assert n * channels == (n - 1) * channels + channels;
      FlatSplit(m, a, w, b, (n - 1) * channels, channels);
      assert PixelAt(m, a + (n - 1) * channels, F, y, x + (n - 1), channels);
      FlatIsDot(m, a + (n - 1) * channels, F, y, x + n - 1, w, b + (n - 1) * channels, channels, channels);
    }
  }

  // The taps of one kernel row that lie inside are the taps lo..lo + n.
  lemma {:induction false} TapsAreRow(F: FMap, s: Shape, w: seq<int>, o: int, oy: int, ox: int, ky: int, lo: nat,
                                      n: nat)
    requires forall kx :: lo <= kx < lo + n ==> s.Inside(s.Y(oy, ky), s.X(ox, kx))
    requires forall kx :: 0 <= kx < lo ==> !s.Inside(s.Y(oy, ky), s.X(ox, kx))
    ensures Taps(F, s.Y(oy, ky), s.X(ox, lo), w, s.W(o, ky, lo), s.channels, n) == Row(F, s, w, o, oy, ox, ky, lo + n)
    decreases n
  {
    if n == 0 {
      EmptyTaps(F, s, w, o, oy, ox, ky, 0, lo);
    } else {
      TapsAreRow(F, s, w, o, oy, ox, ky, lo, n - 1);
      assert s.Inside(s.Y(oy, ky), s.X(ox, lo + n - 1));
      NextWeight(s, o, ky, lo, n - 1);
    }
  }

  lemma NextWeight(s: Shape, o: int, ky: int, lo: int, n: int)
    ensures s.W(o, ky, lo) + n * s.channels == s.W(o, ky, lo + n)
  {
    var r := s.kerW * (ky + s.kerH * o);
    assert s.channels * (lo + n + r) == s.channels * (lo + r) + n * s.channels;
  }

  // Weight offsets stay inside the table.
  lemma WeightBounds(s: Shape, o: nat, ky: nat, kx: nat, n: nat)
    requires o < s.outputs && ky < s.kerH && kx + n <= s.kerW
    ensures 0 <= s.W(o, ky, kx)
    ensures s.W(o, ky, kx) + n * s.channels <= s.outputs * s.kerH * s.kerW * s.channels
  {
    Nested(o, s.outputs, ky, s.kerH, 1);
    var row := ky + s.kerH * o;
    Nested(row, s.outputs * s.kerH, kx, s.kerW, n);
    var tap := kx + s.kerW * row;
    Scaled(tap, n, s.outputs * s.kerH * s.kerW, s.channels);
  }

  // k places from `low` in the i-th of n groups of w stay inside the groups.
  lemma Nested(i: nat, n: nat, low: nat, w: nat, k: nat)
    requires i < n && low + k <= w
    ensures 0 <= low + w * i && low + w * i + k <= n * w
  {
    Arith.MulMono(0, i, w);
    Arith.MulMono(i + 1, n, w);
    assert (i + 1) * w == w * i + w;
  }

  lemma Scaled(x: nat, n: nat, all: nat, w: nat)
    requires x + n <= all
    ensures 0 <= w * x && w * x + n * w <= all * w
  {
    Arith.MulMono(0, x, w);
    Arith.MulMono(x + n, all, w);
    assert (x + n) * w == w * x + n * w;
  }

  // ---- Memory layout ----

  datatype Layout = Layout(contOffset: int, contSize: int, wrapOffset: int, wrapSize: int, stride: nat) {
    function Shift(): int { wrapOffset - contOffset - contSize }

    // Where a buffer offset lies, relative to the buffer's pointer.
    function Off(off: int): int {
      if wrapSize > 0 && off >= contSize then off + Shift() else off
    }

    function Pixel(p: int): int { Off(stride * p) }

    // The wrap test in front of a kernel row that starts at pixel p.
    predicate WrapInRange(channels: nat, height: nat, kerW: nat, p: int) {
      && wrapSize > 0
      && stride * p < contSize
      && kerW > 1
      && height == 1
      && stride * p + kerW * channels > contSize
    }

    // What the code adds up for pixel p + j of a row that starts at pixel p.
    function CodePixel(channels: nat, height: nat, kerW: nat, p: int, j: nat): int {
      var inRange := Off(stride * p) + j * stride;
      if WrapInRange(channels, height, kerW, p) && inRange >= contSize then inRange + Shift() else inRange
    }
  }

  // The buffer pointer is at contOffset: the first contSize bytes of a wrapping
  // buffer follow it, and the others lie from wrapOffset on.
  lemma TwoPieces(lay: Layout, off: int)
    ensures lay.wrapSize <= 0 || off < lay.contSize ==> lay.contOffset + lay.Off(off) == lay.contOffset + off
    ensures lay.wrapSize > 0 && off >= lay.contSize ==>
            lay.contOffset + lay.Off(off) == lay.wrapOffset + (off - lay.contSize)
  {
  }

  // The code's address arithmetic is right for the n pixels from p on exactly
  // when the row does not cross the end of the continuous part unnoticed.
  lemma RowAddressesExactly(lay: Layout, channels: nat, height: nat, kerW: nat, p: int, n: nat)
    requires n > 0 && lay.Shift() != 0
    ensures (forall j :: 0 <= j < n ==> lay.CodePixel(channels, height, kerW, p, j) == lay.Pixel(p + j))
       <==> (|| lay.wrapSize <= 0
             || lay.stride * p >= lay.contSize
             || lay.WrapInRange(channels, height, kerW, p)
             || lay.stride * (p + (n - 1)) < lay.contSize)
  {
    forall j: nat | j < n
      ensures lay.stride * (p + j) == lay.stride * p + j * lay.stride
      ensures lay.stride * p <= lay.stride * (p + j) <= lay.stride * (p + (n - 1))
    {
      Spread(lay.stride, p, j);
      Spread(lay.stride, p + j, n - 1 - j);
    }
    if lay.wrapSize > 0 && lay.stride * p < lay.contSize && lay.stride * (p + (n - 1)) >= lay.contSize
       && !lay.WrapInRange(channels, height, kerW, p)
    {
      assert lay.CodePixel(channels, height, kerW, p, n - 1) != lay.Pixel(p + (n - 1));
    }
  }

  lemma Spread(stride: nat, p: int, j: nat)
    ensures stride * (p + j) == stride * p + j * stride
    ensures stride * (p + j) >= stride * p
  {
    assert j * stride >= 0;
  }

  // Lines end where the continuous part ends, or there is only one line and
  // its pixels are packed.
  ghost predicate WrapsAtLineEnds(lay: Layout, s: Shape) {
    || lay.wrapSize <= 0
    || (s.inW > 0 && exists lines: int :: lay.contSize == LineEnd(lay, s, lines))
    || (s.inH == 1 && lay.stride == s.channels)
  }

  function LineEnd(lay: Layout, s: Shape, lines: int): int { lay.stride * (s.inW * lines) }

  // Such layouts never make the address arithmetic go wrong.
  lemma RowAddresses(lay: Layout, s: Shape, y: int, x: int, n: nat, j: nat)
    requires WrapsAtLineEnds(lay, s)
    requires 0 <= y < s.inH && 0 <= x && x + n <= s.inW && n <= s.kerW && j < n
    ensures lay.CodePixel(s.channels, s.inH, s.kerW, x + s.inW * y, j) == lay.Pixel(x + s.inW * y + j)
  {
    var p := x + s.inW * y;
    Spread(lay.stride, p, j);
    Spread(lay.stride, p + j, n - 1 - j);
    if lay.wrapSize > 0 && lay.stride * p < lay.contSize && !lay.WrapInRange(s.channels, s.inH, s.kerW, p) {
      if s.inH == 1 && lay.stride == s.channels {
        OneLine(lay, s, p, n);
      } else {
        var lines: int :| lay.contSize == LineEnd(lay, s, lines);
        SameLine(lay.stride, s.inW, lines, y, x, n);
      }
      assert lay.stride * (p + (n - 1)) < lay.contSize;
    }
  }

  lemma OneLine(lay: Layout, s: Shape, p: int, n: nat)
    requires 0 < n <= s.kerW && lay.stride == s.channels
    requires lay.stride * p < lay.contSize
    requires s.kerW > 1 ==> lay.stride * p + s.kerW * s.channels <= lay.contSize
    ensures lay.stride * (p + (n - 1)) < lay.contSize
  {
    Spread(lay.stride, p, n - 1);
    if lay.stride == 0 {
      assert lay.stride * (p + (n - 1)) == 0 && lay.stride * p == 0;
    } else if s.kerW > 1 {
      assert n * lay.stride == (n - 1) * lay.stride + lay.stride;
      Arith.MulMono(n, s.kerW, lay.stride);
    } else {
      assert n == 1;
    }
  }

  lemma SameLine(stride: nat, width: nat, lines: int, y: int, x: int, n: nat)
    requires 0 <= x && 0 < n && x + n <= width
    requires stride * (x + width * y) < stride * (width * lines)
    ensures stride * (x + width * y + (n - 1)) < stride * (width * lines)
  {
    assert stride > 0;
    assert x + width * y < width * lines by {
      if x + width * y >= width * lines {
        Arith.MulMono(width * lines, x + width * y, stride);
      }
    }
    assert y < lines by {
      if y >= lines {
        Arith.MulMono(lines, y, width);
      }
    }
    Arith.MulMono(y + 1, lines, width);
    assert (y + 1) * width == width * y + width;
    var last, end := x + width * y + (n - 1), width * lines;
    assert last + 1 <= end;
    Arith.MulMono(last + 1, end, stride);
    assert (last + 1) * stride == stride * last + stride;
  }

  // A single line whose pixels are not packed can cross the end unnoticed:
  // two pixels of one channel each, four apart, with room for one.
  lemma UnpackedLineMissesWrap()
    ensures var lay := Layout(0, 4, 100, 4, 4);
            && !lay.WrapInRange(1, 1, 2, 0)
            && lay.CodePixel(1, 1, 2, 0, 1) != lay.Pixel(1)
  {
  }
}
