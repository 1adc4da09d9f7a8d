// The convolution and fully connected layers as loops over their output
// buffer, which may lie in the same array as the input, and the network that
// runs four of them in one arena.

module ConvLayers {
  import opened ConvSpec
  import opened Conv
  import Arith

  // ---- Input and output in memory ----

  predicate IsOut(s: Shape, oy: int, ox: int) {
    0 <= oy < s.outH && 0 <= ox < s.outW
  }

  // The cell of output position (oy, ox): s.outputs bytes from here on.
  function OutAddr(base: int, lay: Layout, s: Shape, oy: int, ox: int): int {
    base + lay.Pixel(ox + s.outW * oy)
  }

  function InAddr(base: int, lay: Layout, s: Shape, y: int, x: int): int {
    base + lay.Pixel(x + s.inW * y)
  }

  predicate Disjoint(a: int, n: nat, b: int, k: nat) {
    a + n <= b || b + k <= a
  }

  predicate CellFits(size: nat, base: int, lay: Layout, s: Shape, oy: int, ox: int) {
    0 <= OutAddr(base, lay, s, oy, ox) && OutAddr(base, lay, s, oy, ox) + s.outputs <= size
  }

  predicate CellsApart(base: int, lay: Layout, s: Shape, oy: int, ox: int, oy1: int, ox1: int) {
    (oy == oy1 && ox == ox1) ||
    Disjoint(OutAddr(base, lay, s, oy, ox), s.outputs, OutAddr(base, lay, s, oy1, ox1), s.outputs)
  }

  // The output layout gives every position its own bytes of the array.
  ghost predicate GoodOutput(size: nat, base: int, lay: Layout, s: Shape) {
    && (forall oy, ox :: IsOut(s, oy, ox) ==> CellFits(size, base, lay, s, oy, ox))
    && (forall oy, ox, oy1, ox1 :: IsOut(s, oy, ox) && IsOut(s, oy1, ox1) ==>
        CellsApart(base, lay, s, oy, ox, oy1, ox1))
  }

  predicate NotAfter(oy: int, ox: int, oy1: int, ox1: int) {
    oy < oy1 || (oy == oy1 && ox <= ox1)
  }

  // Writing cell (oy, ox) leaves pixel (y, x) alone.
  predicate Spares(from: int, inLay: Layout, to: int, outLay: Layout, s: Shape, oy: int, ox: int, y: int, x: int) {
    Disjoint(OutAddr(to, outLay, s, oy, ox), s.outputs, InAddr(from, inLay, s, y, x), s.channels)
  }

  // No cell is written over a pixel that is still to be looked at.
  ghost predicate NoHazard(from: int, inLay: Layout, to: int, outLay: Layout, s: Shape) {
    forall oy, ox, oy1, ox1, y, x ::
      IsOut(s, oy, ox) && IsOut(s, oy1, ox1) && NotAfter(oy, ox, oy1, ox1) && Looks(s, oy1, ox1, y, x) ==>
        Spares(from, inLay, to, outLay, s, oy, ox, y, x)
  }

  ghost predicate InputHeld(m: seq<int>, base: int, lay: Layout, s: Shape, F: FMap) {
    forall y, x :: s.Inside(y, x) ==> Held(m, base, lay, s, F, y, x)
  }

  // What the outputs from (oy, ox) on will look at is still there.
  ghost predicate Ready(m: seq<int>, base: int, lay: Layout, s: Shape, F: FMap, oy: int, ox: int) {
    forall oy1, ox1 :: IsOut(s, oy1, ox1) && NotAfter(oy, ox, oy1, ox1) ==> WindowHeld(m, base, lay, s, F, oy1, ox1)
  }

  predicate Earlier(oy1: int, ox1: int, o1: int, oy: int, ox: int, o: int) {
    oy1 < oy || (oy1 == oy && (ox1 < ox || (ox1 == ox && o1 < o)))
  }

  ghost predicate CellHolds(m: seq<int>, base: int, lay: Layout, s: Shape, G: FMap, oy: int, ox: int, o: int) {
    && 0 <= OutAddr(base, lay, s, oy, ox) + o < |m|
    && m[OutAddr(base, lay, s, oy, ox) + o] == G(oy, ox, o)
  }

  // All outputs before (oy, ox, o) are stored.
  ghost predicate StoredTo(m: seq<int>, base: int, lay: Layout, s: Shape, G: FMap, oy: int, ox: int, o: int) {
    forall oy1, ox1, o1 :: IsOut(s, oy1, ox1) && 0 <= o1 < s.outputs && Earlier(oy1, ox1, o1, oy, ox, o) ==>
      CellHolds(m, base, lay, s, G, oy1, ox1, o1)
  }

  ghost predicate Stored(m: seq<int>, base: int, lay: Layout, s: Shape, G: FMap) {
    forall oy, ox, o :: IsOut(s, oy, ox) && 0 <= o < s.outputs ==> CellHolds(m, base, lay, s, G, oy, ox, o)
  }

  predicate InCell(base: int, lay: Layout, s: Shape, oy: int, ox: int, a: int) {
    OutAddr(base, lay, s, oy, ox) <= a < OutAddr(base, lay, s, oy, ox) + s.outputs
  }

  predicate Outside(base: int, lay: Layout, s: Shape, a: int) {
    forall oy, ox :: 0 <= oy < s.outH && 0 <= ox < s.outW ==> !InCell(base, lay, s, oy, ox, a)
  }

  // Nothing but the output cells has changed.
  ghost predicate OthersKept(m: seq<int>, was: seq<int>, base: int, lay: Layout, s: Shape) {
    && |m| == |was|
    && forall a :: 0 <= a < |m| && Outside(base, lay, s, a) ==> m[a] == was[a]
  }

  // ---- One store ----

  lemma StoreOutput(m: seq<int>, base: int, lay: Layout, s: Shape, G: FMap, oy: int, ox: int, o: int)
    requires GoodOutput(|m|, base, lay, s)
    requires IsOut(s, oy, ox) && 0 <= o < s.outputs
    requires StoredTo(m, base, lay, s, G, oy, ox, o)
    ensures 0 <= OutAddr(base, lay, s, oy, ox) + o < |m|
    ensures StoredTo(m[OutAddr(base, lay, s, oy, ox) + o := G(oy, ox, o)], base, lay, s, G, oy, ox, o + 1)
  {
    assert CellFits(|m|, base, lay, s, oy, ox);
    hide OutAddr;
    var a := OutAddr(base, lay, s, oy, ox) + o;
    var m1 := m[a := G(oy, ox, o)];
    forall oy1, ox1, o1 | IsOut(s, oy1, ox1) && 0 <= o1 < s.outputs && Earlier(oy1, ox1, o1, oy, ox, o + 1)
      ensures CellHolds(m1, base, lay, s, G, oy1, ox1, o1)
    {
      assert CellFits(|m|, base, lay, s, oy1, ox1);
      assert CellsApart(base, lay, s, oy, ox, oy1, ox1);
      if oy1 != oy || ox1 != ox || o1 != o {
        assert CellHolds(m, base, lay, s, G, oy1, ox1, o1);
      }
    }
  }

  lemma StoreSpares(m: seq<int>, from: int, inLay: Layout, to: int, outLay: Layout, s: Shape, F: FMap,
                    oy: int, ox: int, o: int, v: int)
    requires NoHazard(from, inLay, to, outLay, s)
    requires IsOut(s, oy, ox) && 0 <= o < s.outputs && 0 <= OutAddr(to, outLay, s, oy, ox) + o < |m|
    requires Ready(m, from, inLay, s, F, oy, ox)
    ensures Ready(m[OutAddr(to, outLay, s, oy, ox) + o := v], from, inLay, s, F, oy, ox)
  {
    hide Layout.Pixel;
    var m1 := m[OutAddr(to, outLay, s, oy, ox) + o := v];
    forall oy1, ox1, y, x | IsOut(s, oy1, ox1) && NotAfter(oy, ox, oy1, ox1) && Looks(s, oy1, ox1, y, x)
      ensures Held(m1, from, inLay, s, F, y, x)
    {
      assert WindowHeld(m, from, inLay, s, F, oy1, ox1);
      assert Held(m, from, inLay, s, F, y, x);
      assert Spares(from, inLay, to, outLay, s, oy, ox, y, x);
      SparedPixel(m, OutAddr(to, outLay, s, oy, ox) + o, v, InAddr(from, inLay, s, y, x), F, y, x, s.channels);
    }
  }

  lemma SparedPixel(m: seq<int>, a: int, v: int, b: int, F: FMap, y: int, x: int, channels: nat)
    requires 0 <= a < |m| && PixelAt(m, b, F, y, x, channels)
    requires !(b <= a < b + channels)
    ensures PixelAt(m[a := v], b, F, y, x, channels)
  {
  }

  lemma StoreKeepsOthers(m: seq<int>, was: seq<int>, base: int, lay: Layout, s: Shape, oy: int, ox: int, o: int, v: int)
    requires OthersKept(m, was, base, lay, s)
    requires IsOut(s, oy, ox) && 0 <= o < s.outputs && 0 <= OutAddr(base, lay, s, oy, ox) + o < |m|
    ensures OthersKept(m[OutAddr(base, lay, s, oy, ox) + o := v], was, base, lay, s)
  {
    hide OutAddr;
    assert InCell(base, lay, s, oy, ox, OutAddr(base, lay, s, oy, ox) + o);
  }

  lemma FirstReady(m: seq<int>, base: int, lay: Layout, s: Shape, F: FMap)
    requires InputHeld(m, base, lay, s, F)
    ensures Ready(m, base, lay, s, F, 0, 0)
  {
    hide Held;
  }

  // The row-wise layer: `inputs` and `outputs` may be the same array.
  method ConvcellPropagate(
    inputs: array<byte>, from: int, inLay: Layout,
    outputs: array<byte>, to: int, outLay: Layout,
    s: Shape, biasses: seq<int>, weights: seq<weight>, activation: Activation, rescaling: nat,
    ghost F: FMap)
    requires s.strideY > 0 && s.strideX > 0
    requires |biasses| == s.outputs && |weights| == s.outputs * s.kerH * s.kerW * s.channels
    requires forall o :: 0 <= o < s.outputs ==> Fits(biasses[o], Products(s, s.kerH))
    requires WrapsAtLineEnds(inLay, s)
    requires InputHeld(inputs[..], from, inLay, s, F)
    requires GoodOutput(outputs.Length, to, outLay, s)
    requires inputs == outputs ==> NoHazard(from, inLay, to, outLay, s)
    modifies outputs
    ensures Stored(outputs[..], to, outLay, s, Layer(F, s, biasses, weights, activation, rescaling))
    ensures OthersKept(outputs[..], old(outputs[..]), to, outLay, s)
  {
    ghost var G := Layer(F, s, biasses, weights, activation, rescaling);
    FirstReady(inputs[..], from, inLay, s, F);
    hide Fits, WrapsAtLineEnds, InputHeld, GoodOutput, NoHazard, Ready, StoredTo, Stored, OthersKept, Layout.Pixel;
    hide Kernel;
    hide Products, WindowHeld, OutAddr, Sat, Layer;
    assert StoredTo(outputs[..], to, outLay, s, G, 0, 0, 0) by {
      NothingStored(outputs[..], to, outLay, s, G);
    }
    assert OthersKept(outputs[..], old(outputs[..]), to, outLay, s) by {
      NothingChanged(outputs[..], to, outLay, s);
    }
    for oy := 0 to s.outH
      invariant Ready(inputs[..], from, inLay, s, F, oy, 0)
      invariant StoredTo(outputs[..], to, outLay, s, G, oy, 0, 0)
      invariant OthersKept(outputs[..], old(outputs[..]), to, outLay, s)
    {
      for ox := 0 to s.outW
        invariant Ready(inputs[..], from, inLay, s, F, oy, ox)
        invariant StoredTo(outputs[..], to, outLay, s, G, oy, ox, 0)
        invariant OthersKept(outputs[..], old(outputs[..]), to, outLay, s)
      {
        for output := 0 to s.outputs
          invariant Ready(inputs[..], from, inLay, s, F, oy, ox)
          invariant StoredTo(outputs[..], to, outLay, s, G, oy, ox, output)
          invariant OthersKept(outputs[..], old(outputs[..]), to, outLay, s)
        {
          ReadyHere(inputs[..], from, inLay, s, F, oy, ox);
          var weightedSum := Weigh(inputs, from, inLay, s, weights, biasses[output], output, oy, ox, F);
          var at := OutAddr(to, outLay, s, oy, ox) + output;
          ghost var was := outputs[..];
          StoreOutput(was, to, outLay, s, G, oy, ox, output);
          LayerIs(F, s, biasses, weights, activation, rescaling, oy, ox, output);
          outputs[at] := Sat(weightedSum, activation, rescaling);
          assert outputs[..] == was[at := G(oy, ox, output)];
          StoreKeepsOthers(was, old(outputs[..]), to, outLay, s, oy, ox, output, G(oy, ox, output));
          if inputs == outputs {
            StoreSpares(was, from, inLay, to, outLay, s, F, oy, ox, output, G(oy, ox, output));
          }
        }
        NextColumn(inputs[..], outputs[..], from, inLay, to, outLay, s, F, G, oy, ox);
      }
      NextRow(inputs[..], outputs[..], from, inLay, to, outLay, s, F, G, oy);
    }
    AllStored(outputs[..], to, outLay, s, G);
  }

  lemma NothingStored(m: seq<int>, base: int, lay: Layout, s: Shape, G: FMap)
    ensures StoredTo(m, base, lay, s, G, 0, 0, 0)
  {
    hide CellHolds;
  }

  lemma NothingChanged(m: seq<int>, base: int, lay: Layout, s: Shape)
    ensures OthersKept(m, m, base, lay, s)
  {
  }

  lemma ReadyHere(m: seq<int>, base: int, lay: Layout, s: Shape, F: FMap, oy: int, ox: int)
    requires Ready(m, base, lay, s, F, oy, ox) && IsOut(s, oy, ox)
    ensures WindowHeld(m, base, lay, s, F, oy, ox)
  {
    hide WindowHeld;
  }

  lemma LayerIs(F: FMap, s: Shape, bias: seq<int>, w: seq<int>, act: Activation, shift: nat, oy: int, ox: int, o: int)
    requires 0 <= o < |bias|
    ensures Layer(F, s, bias, w, act, shift)(oy, ox, o) == Sat(bias[o] + Kernel(F, s, w, o, oy, ox, s.kerH), act, shift)
  {
  }

  lemma NextColumn(mi: seq<int>, mo: seq<int>, from: int, inLay: Layout, to: int, outLay: Layout, s: Shape,
                   F: FMap, G: FMap, oy: int, ox: int)
    requires Ready(mi, from, inLay, s, F, oy, ox) && StoredTo(mo, to, outLay, s, G, oy, ox, s.outputs)
    ensures Ready(mi, from, inLay, s, F, oy, ox + 1) && StoredTo(mo, to, outLay, s, G, oy, ox + 1, 0)
  {
    hide WindowHeld, CellHolds;
  }

  lemma NextRow(mi: seq<int>, mo: seq<int>, from: int, inLay: Layout, to: int, outLay: Layout, s: Shape,
                F: FMap, G: FMap, oy: int)
    requires Ready(mi, from, inLay, s, F, oy, s.outW) && StoredTo(mo, to, outLay, s, G, oy, s.outW, 0)
    ensures Ready(mi, from, inLay, s, F, oy + 1, 0) && StoredTo(mo, to, outLay, s, G, oy + 1, 0, 0)
  {
    hide WindowHeld, CellHolds;
  }

  lemma AllStored(m: seq<int>, base: int, lay: Layout, s: Shape, G: FMap)
    requires StoredTo(m, base, lay, s, G, s.outH, 0, 0)
    ensures Stored(m, base, lay, s, G)
  {
    hide CellHolds;
  }

  // ---- Fully connected layers ----

  // A fully connected layer is the convolution whose kernel is the whole input.
  function FcShape(channels: nat, height: nat, width: nat, outputs: nat): Shape {
    Shape(channels, height, width, outputs, 1, 1, 0, 0, 1, 1, height, width)
  }

  lemma FcSpan(channels: nat, height: nat, width: nat, outputs: nat)
    ensures var s := FcShape(channels, height, width, outputs);
            && XLo(s, 0) == 0 && XHi(s, 0) == width
            && s.X(0, 0) == 0 && forall iy :: s.Y(0, iy) == iy
  {
    assert NoPad(width, width, 1) == 1;
  }

  // The code multiplies the weight offset in another order.
  lemma FcWeight(s: Shape, o: nat, iy: nat)
    ensures s.channels * s.kerW * (iy + s.kerH * o) == s.W(o, iy, 0)
  {
    assert s.channels * s.kerW * (iy + s.kerH * o) == s.channels * (s.kerW * (iy + s.kerH * o));
  }

  method FcWeigh(inputs: array<byte>, base: int, lay: Layout, channels: nat, height: nat, width: nat,
                 ghost outputs: nat, weights: seq<weight>, bias: int, och: nat, ghost F: FMap)
    returns (weightedSum: int)
    requires och < outputs && |weights| == outputs * height * width * channels
    requires WrapsAtLineEnds(lay, FcShape(channels, height, width, outputs))
    requires WindowHeld(inputs[..], base, lay, FcShape(channels, height, width, outputs), F, 0, 0)
    requires Fits(bias, Products(FcShape(channels, height, width, outputs), height))
    ensures weightedSum == bias + Kernel(F, FcShape(channels, height, width, outputs), weights, och, 0, 0, height)
    ensures Fits(weightedSum, 0)
  {
    ghost var s := FcShape(channels, height, width, outputs);
    FcSpan(channels, height, width, outputs);
    hide Fits, Products, XLo, XHi, NoPad, WrapsAtLineEnds, WindowHeld, RowFound, Row, Taps, Shape.W, Shape.X, Shape.Y;
    weightedSum := bias;
    for iy := 0 to height
      invariant weightedSum == bias + Kernel(F, s, weights, och, 0, 0, iy)
      invariant Fits(weightedSum, Products(s, height - iy))
    {
      var at := Place(base, lay, channels, height, width, width * iy);
      assert at == RowPlace(base, lay, s, 0, 0, iy);
      RowInWindow(inputs[..], base, lay, s, F, 0, 0, iy, width);
      var wOffset := channels * width * (iy + height * och);
      FcWeight(s, och, iy);
      WeightBounds(s, och, iy, 0, width);
      OneRowLess(s, height - iy);
      RowTaps(F, s, weights, och, 0, 0, iy, width);
      weightedSum := MacRow(inputs, at, weights, wOffset, true, width, weightedSum,
                            F, s.Y(0, iy), s.X(0, 0), width, Products(s, height - iy - 1));
    }
    FitsLess(weightedSum, 0, Products(s, 0));
  }

  // The outputs lie one after the other at the output pointer.
  const FC_OUT := Layout(0, 0, 0, 0, 0)

  // fccellPropagateUDATA_T, and fccellPropagateDATA_T, which stores the same
  // byte into a signed cell.
  method FccellPropagate(
    inputs: array<byte>, from: int, inLay: Layout,
    outputs: array<byte>, to: int,
    channels: nat, height: nat, width: nat, count: nat,
    biasses: seq<int>, weights: seq<weight>, activation: Activation, rescaling: nat,
    ghost F: FMap)
    requires |biasses| == count && |weights| == count * height * width * channels
    requires var s := FcShape(channels, height, width, count);
             && (forall o :: 0 <= o < count ==> Fits(biasses[o], Products(s, height)))
             && WrapsAtLineEnds(inLay, s)
             && InputHeld(inputs[..], from, inLay, s, F)
             && GoodOutput(outputs.Length, to, FC_OUT, s)
             && (inputs == outputs ==> NoHazard(from, inLay, to, FC_OUT, s))
    modifies outputs
    ensures var s := FcShape(channels, height, width, count);
            && Stored(outputs[..], to, FC_OUT, s, Layer(F, s, biasses, weights, activation, rescaling))
            && OthersKept(outputs[..], old(outputs[..]), to, FC_OUT, s)
  {
    ghost var s := FcShape(channels, height, width, count);
    ghost var G := Layer(F, s, biasses, weights, activation, rescaling);
    FirstReady(inputs[..], from, inLay, s, F);
    FcOut(to, s);
    hide Fits, WrapsAtLineEnds, InputHeld, GoodOutput, NoHazard, Ready, StoredTo, Stored, OthersKept, Layout.Pixel;
    hide Kernel;
    hide Products, WindowHeld, OutAddr, Sat, Layer;
    NothingStored(outputs[..], to, FC_OUT, s, G);
    NothingChanged(outputs[..], to, FC_OUT, s);
    for och := 0 to count
      invariant Ready(inputs[..], from, inLay, s, F, 0, 0)
      invariant StoredTo(outputs[..], to, FC_OUT, s, G, 0, 0, och)
      invariant OthersKept(outputs[..], old(outputs[..]), to, FC_OUT, s)
    {
      ReadyHere(inputs[..], from, inLay, s, F, 0, 0);
      var weightedSum := FcWeigh(inputs, from, inLay, channels, height, width, count, weights, biasses[och], och, F);
      ghost var was := outputs[..];
      StoreOutput(was, to, FC_OUT, s, G, 0, 0, och);
      LayerIs(F, s, biasses, weights, activation, rescaling, 0, 0, och);
      outputs[to + och] := Sat(weightedSum, activation, rescaling);
      assert outputs[..] == was[to + och := G(0, 0, och)];
      StoreKeepsOthers(was, old(outputs[..]), to, FC_OUT, s, 0, 0, och, G(0, 0, och));
      if inputs == outputs {
        StoreSpares(was, from, inLay, to, FC_OUT, s, F, 0, 0, och, G(0, 0, och));
      }
    }
    NextColumn(inputs[..], outputs[..], from, inLay, to, FC_OUT, s, F, G, 0, 0);
    NextRow(inputs[..], outputs[..], from, inLay, to, FC_OUT, s, F, G, 0);
    AllStored(outputs[..], to, FC_OUT, s, G);
  }

  lemma FcOut(to: int, s: Shape)
    ensures OutAddr(to, FC_OUT, s, 0, 0) == to
  {
  }
}
