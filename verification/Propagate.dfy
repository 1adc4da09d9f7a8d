// The MNIST network: four layers whose buffers overlap in one arena of 2160
// bytes.

module Propagate {
  import opened ConvSpec
  import opened Conv
  import opened ConvLayers

  const MEMORY_SIZE := 2160

  // mem_info.h
  const ENV_MEM := Layout(0, 576, 0, 0, 1)
  const CONV1_MEM := Layout(576, 1584, 0, 352, 16)
  const CONV2_MEM := Layout(352, 384, 0, 0, 24)
  const FC1_MEM := Layout(736, 150, 0, 0, 150)
  const FC2_OFFSET := 886

  // conv1.h, conv2.h, fc1.h, fc2.h
  const CONV1 := Shape(1, 24, 24, 16, 11, 11, 0, 0, 2, 2, 4, 4)
  const CONV2 := Shape(16, 11, 11, 24, 4, 4, 0, 0, 2, 2, 5, 5)
  const FC1 := FcShape(24, 4, 4, 150)
  const FC2 := FcShape(150, 1, 1, 10)

  // Trained parameters: any tables of these sizes, with biases small enough
  // for 32-bit sums.
  datatype Params = Params(
    bias1: seq<int>, weights1: seq<weight>,
    bias2: seq<int>, weights2: seq<weight>,
    bias3: seq<int>, weights3: seq<weight>,
    bias4: seq<int>, weights4: seq<weight>)
  {
    predicate Sized() {
      && |bias1| == 16 && |weights1| == 256
      && |bias2| == 24 && |weights2| == 9600
      && |bias3| == 150 && |weights3| == 57600
      && |bias4| == 10 && |weights4| == 1500
    }

    predicate Small() {
      && (forall b <- bias1 :: Fits(b, 16))
      && (forall b <- bias2 :: Fits(b, 400))
      && (forall b <- bias3 :: Fits(b, 384))
      && (forall b <- bias4 :: Fits(b, 150))
    }

    // The four layers as functions of their inputs alone.
    function Layer1(F: FMap): FMap { Layer(F, CONV1, bias1, weights1, Rectifier, 8) }

    function Layer2(F: FMap): FMap { Layer(Layer1(F), CONV2, bias2, weights2, Rectifier, 8) }

    function Layer3(F: FMap): FMap { Layer(Layer2(F), FC1, bias3, weights3, Rectifier, 8) }

    function Layer4(F: FMap): FMap { Layer(Layer3(F), FC2, bias4, weights4, Linear, 11) }
  }

  // ---- The layouts ----

  lemma Conv1Output()
    ensures GoodOutput(MEMORY_SIZE, 576, CONV1_MEM, CONV1)
  {
  }

  lemma Conv1Wraps()
    ensures WrapsAtLineEnds(CONV1_MEM, CONV2)
  {
    assert CONV1_MEM.contSize == LineEnd(CONV1_MEM, CONV2, 9);
  }

  lemma Conv2Output()
    ensures GoodOutput(MEMORY_SIZE, 352, CONV2_MEM, CONV2)
  {
  }

  // Where the two buffers meet: a conv2 cell can only lie on row 0 of the conv1
  // output, and only from output row 2 on, where row 0 is no longer looked at.
  lemma Overlap(oy: int, ox: int, y: int, x: int)
    requires IsOut(CONV2, oy, ox) && CONV2.Inside(y, x)
    ensures !Spares(576, CONV1_MEM, 352, CONV2_MEM, CONV2, oy, ox, y, x) ==> y == 0 && oy >= 2
  {
  }

  lemma Row0IsReadFirst(oy: int, ox: int, x: int)
    ensures IsOut(CONV2, oy, ox) && Looks(CONV2, oy, ox, 0, x) ==> oy == 0
  {
  }

  lemma BuffersDoOverlap()
    ensures IsOut(CONV2, 2, 1) && CONV2.Inside(0, 0)
    ensures !Spares(576, CONV1_MEM, 352, CONV2_MEM, CONV2, 2, 1, 0, 0)
  {
  }

  lemma Conv2NoHazard()
    ensures NoHazard(576, CONV1_MEM, 352, CONV2_MEM, CONV2)
  {
    forall oy, ox, oy1, ox1, y, x | IsOut(CONV2, oy, ox) && IsOut(CONV2, oy1, ox1) && NotAfter(oy, ox, oy1, ox1) &&
                                    Looks(CONV2, oy1, ox1, y, x)
      ensures Spares(576, CONV1_MEM, 352, CONV2_MEM, CONV2, oy, ox, y, x)
    {
      Overlap(oy, ox, y, x);
      if y == 0 {
        Row0IsReadFirst(oy1, ox1, x);
      }
    }
  }

  lemma Fc1Layout()
    ensures GoodOutput(MEMORY_SIZE, 736, FC_OUT, FC1)
    ensures NoHazard(352, CONV2_MEM, 736, FC_OUT, FC1)
  {
  }

  lemma Fc2Layout()
    ensures GoodOutput(MEMORY_SIZE, FC2_OFFSET, FC_OUT, FC2)
    ensures NoHazard(736, FC1_MEM, FC2_OFFSET, FC_OUT, FC2)
  {
  }

  // ---- From layer to layer ----

  // What one layer stored is what the next one finds.
  lemma Handover(m: seq<int>, base: int, outLay: Layout, s: Shape, inLay: Layout, t: Shape, G: FMap)
    requires Stored(m, base, outLay, s, G)
    requires s.outH == t.inH && s.outW == t.inW && s.outputs == t.channels
    requires GoodOutput(|m|, base, outLay, s)
    requires forall y, x :: t.Inside(y, x) ==> InAddr(base, inLay, t, y, x) == OutAddr(base, outLay, s, y, x)
    ensures InputHeld(m, base, inLay, t, G)
  {
    hide Layout.Pixel;
    forall y, x | t.Inside(y, x)
      ensures Held(m, base, inLay, t, G, y, x)
    {
      assert IsOut(s, y, x);
      assert CellFits(|m|, base, outLay, s, y, x);
      var a := InAddr(base, inLay, t, y, x);
      forall c | 0 <= c < t.channels
        ensures m[a + c] == G(y, x, c)
      {
        assert CellHolds(m, base, outLay, s, G, y, x, c);
      }
    }
  }

  // Output byte (oy, ox, o) of layer s is no output byte of layer t.
  predicate Clear(base: int, lay: Layout, s: Shape, oy: int, ox: int, o: int, to: int, outLay: Layout, t: Shape) {
    Outside(to, outLay, t, OutAddr(base, lay, s, oy, ox) + o)
  }

  // A later layer leaves an earlier one's output alone.
  lemma Survives(m: seq<int>, was: seq<int>, base: int, lay: Layout, s: Shape, G: FMap, to: int, outLay: Layout,
                 t: Shape)
    requires Stored(was, base, lay, s, G) && OthersKept(m, was, to, outLay, t)
    requires forall oy, ox, o :: IsOut(s, oy, ox) && 0 <= o < s.outputs ==>
        Clear(base, lay, s, oy, ox, o, to, outLay, t)
    ensures Stored(m, base, lay, s, G)
  {
    hide Layout.Pixel, Outside;
    forall oy, ox, o | IsOut(s, oy, ox) && 0 <= o < s.outputs
      ensures CellHolds(m, base, lay, s, G, oy, ox, o)
    {
      assert CellHolds(was, base, lay, s, G, oy, ox, o);
      assert Clear(base, lay, s, oy, ox, o, to, outLay, t);
    }
  }

  lemma LaterBuffersClear()
    ensures forall oy, ox, o :: IsOut(CONV2, oy, ox) && 0 <= o < CONV2.outputs ==>
              Clear(352, CONV2_MEM, CONV2, oy, ox, o, 736, FC_OUT, FC1) &&
              Clear(352, CONV2_MEM, CONV2, oy, ox, o, FC2_OFFSET, FC_OUT, FC2)
    ensures forall oy, ox, o :: IsOut(FC1, oy, ox) && 0 <= o < FC1.outputs ==>
              Clear(736, FC_OUT, FC1, oy, ox, o, FC2_OFFSET, FC_OUT, FC2)
  {
  }

  lemma ProductCounts()
    ensures Products(CONV1, 4) == 16
    ensures Products(CONV2, 5) == 400
    ensures Products(FC1, 4) == 384
    ensures Products(FC2, 1) == 150
  {
  }

  method RunConv1(image: array<byte>, mem: array<byte>, params: Params, ghost F: FMap)
    requires image.Length == 576 && mem.Length == MEMORY_SIZE && image != mem
    requires params.Sized() && params.Small()
    requires InputHeld(image[..], 0, ENV_MEM, CONV1, F)
    modifies mem
    ensures InputHeld(mem[..], 576, CONV1_MEM, CONV2, params.Layer1(F))
  {
    hide InputHeld, GoodOutput, NoHazard, Stored, OthersKept, Fits, Products, Layer, Layout.Pixel;
    ProductCounts();
    Conv1Output();
    ConvcellPropagate(image, 0, ENV_MEM, mem, 576, CONV1_MEM, CONV1, params.bias1, params.weights1, Rectifier, 8, F);
    Handover(mem[..], 576, CONV1_MEM, CONV1, CONV1_MEM, CONV2, params.Layer1(F));
  }

  method RunConv2(mem: array<byte>, params: Params, ghost F: FMap)
    requires mem.Length == MEMORY_SIZE && params.Sized() && params.Small()
    requires InputHeld(mem[..], 576, CONV1_MEM, CONV2, params.Layer1(F))
    modifies mem
    ensures Stored(mem[..], 352, CONV2_MEM, CONV2, params.Layer2(F))
    ensures InputHeld(mem[..], 352, CONV2_MEM, FC1, params.Layer2(F))
  {
    hide InputHeld, GoodOutput, NoHazard, Stored, OthersKept, Fits, Products, Layer, Layout.Pixel, WrapsAtLineEnds;
    hide Params.Layer1;
    ProductCounts();
    Conv1Wraps();
    Conv2Output();
    Conv2NoHazard();
    ConvcellPropagate(mem, 576, CONV1_MEM, mem, 352, CONV2_MEM, CONV2, params.bias2, params.weights2, Rectifier, 8,
                      params.Layer1(F));
    Handover(mem[..], 352, CONV2_MEM, CONV2, CONV2_MEM, FC1, params.Layer2(F));
  }

  method RunFc1(mem: array<byte>, params: Params, ghost F: FMap)
    requires mem.Length == MEMORY_SIZE && params.Sized() && params.Small()
    requires InputHeld(mem[..], 352, CONV2_MEM, FC1, params.Layer2(F))
    modifies mem
    ensures Stored(mem[..], 736, FC_OUT, FC1, params.Layer3(F))
    ensures InputHeld(mem[..], 736, FC1_MEM, FC2, params.Layer3(F))
    ensures OthersKept(mem[..], old(mem[..]), 736, FC_OUT, FC1)
  {
    ProductCounts();
    Fc1Layout();
    FcPixels();
    hide InputHeld, GoodOutput, NoHazard, Stored, OthersKept, Fits, Products, Layer, Layout.Pixel, Params.Layer2;
    FccellPropagate(mem, 352, CONV2_MEM, mem, 736, 24, 4, 4, 150, params.bias3, params.weights3, Rectifier, 8,
                    params.Layer2(F));
    Handover(mem[..], 736, FC_OUT, FC1, FC1_MEM, FC2, params.Layer3(F));
  }

  lemma FcPixels()
    ensures forall y, x :: FC2.Inside(y, x) ==> InAddr(736, FC1_MEM, FC2, y, x) == OutAddr(736, FC_OUT, FC1, y, x)
  {
  }

  method RunFc2(mem: array<byte>, params: Params, ghost F: FMap)
    requires mem.Length == MEMORY_SIZE && params.Sized() && params.Small()
    requires InputHeld(mem[..], 736, FC1_MEM, FC2, params.Layer3(F))
    modifies mem
    ensures Stored(mem[..], FC2_OFFSET, FC_OUT, FC2, params.Layer4(F))
    ensures OthersKept(mem[..], old(mem[..]), FC2_OFFSET, FC_OUT, FC2)
  {
    ProductCounts();
    Fc2Layout();
    hide InputHeld, GoodOutput, NoHazard, Stored, OthersKept, Fits, Products, Layer, Layout.Pixel, Params.Layer3;
    FccellPropagate(mem, 736, FC1_MEM, mem, FC2_OFFSET, 150, 1, 1, 10, params.bias4, params.weights4, Linear, 11,
                    params.Layer3(F));
  }

  // The arena computes what four separate buffers would: the final bytes are
  // the composition of the four layer functions, and the outputs of conv2 and
  // fc1 are still in place at the end.
  method Propagate(image: array<byte>, mem: array<byte>, params: Params, ghost F: FMap)
    requires image.Length == 576 && mem.Length == MEMORY_SIZE && image != mem
    requires params.Sized() && params.Small()
    requires InputHeld(image[..], 0, ENV_MEM, CONV1, F)
    modifies mem
    ensures Stored(mem[..], 352, CONV2_MEM, CONV2, params.Layer2(F))
    ensures Stored(mem[..], 736, FC_OUT, FC1, params.Layer3(F))
    ensures Stored(mem[..], FC2_OFFSET, FC_OUT, FC2, params.Layer4(F))
  {
    LaterBuffersClear();
    hide InputHeld, Stored, OthersKept, Clear, Params.Layer1, Params.Layer2, Params.Layer3, Params.Layer4;
    hide Params.Small, Params.Sized;
    RunConv1(image, mem, params, F);
    RunConv2(mem, params, F);
    ghost var after2 := mem[..];
    RunFc1(mem, params, F);
    ghost var after3 := mem[..];
    Survives(after3, after2, 352, CONV2_MEM, CONV2, params.Layer2(F), 736, FC_OUT, FC1);
    RunFc2(mem, params, F);
    Survives(mem[..], after3, 352, CONV2_MEM, CONV2, params.Layer2(F), FC2_OFFSET, FC_OUT, FC2);
    Survives(mem[..], after3, 736, FC_OUT, FC1, params.Layer3(F), FC2_OFFSET, FC_OUT, FC2);
  }
}
