// The CRC-16 service functions of `sw/app/coremark/core_util.c`: the bit loop of `crcu8` and the
// byte folds `crcu16`, `crcu32` and `crc16`, proved against the CRC of a string of bits.

module Crc {
  import Arith
  import Words

  // ---- Specification: the reflected CRC with polynomial x^16 + x^15 + x^2 + 1 ----

  // One bit of message enters the register; 0xA001 is the polynomial, least significant bit first.
  function StepBit(crc: bv16, bit: bool): bv16 {
    if (crc & 1 == 1) != bit then (crc >> 1) ^ 0xA001 else crc >> 1
  }

  function CrcBits(bits: seq<bool>, crc: bv16): bv16 {
    if bits == [] then crc else CrcBits(bits[1..], StepBit(crc, bits[0]))
  }

  // The low `k` bits of a byte, least significant first.
  function Bits(b: bv8, k: nat): (bits: seq<bool>)
    ensures |bits| == k
  {
    if k == 0 then [] else [b & 1 == 1] + Bits(b >> 1, k - 1)
  }

  function MessageBits(bytes: seq<bv8>): (bits: seq<bool>)
    ensures |bits| == 8 * |bytes|
  {
    if bytes == [] then [] else Bits(bytes[0], 8) + MessageBits(bytes[1..])
  }

  function CrcBytes(bytes: seq<bv8>, crc: bv16): bv16 {
    CrcBits(MessageBits(bytes), crc)
  }

  function Bytes16(v: bv16): seq<bv8> {
    [(v & 0xff) as bv8, (v >> 8) as bv8]
  }

  function Bytes32(v: bv32): seq<bv8> {
    Bytes16((v & 0xffff) as bv16) + Bytes16((v >> 16) as bv16)
  }

  // The register after the two bytes of `v`, low byte first.
  function Crc16Of(v: bv16, crc: bv16): bv16 {
    CrcBytes(Bytes16(v), crc)
  }

  lemma {:induction false} CrcBitsConcat(p: seq<bool>, q: seq<bool>, crc: bv16)
    ensures CrcBits(p + q, crc) == CrcBits(q, CrcBits(p, crc))
  {
    if p == [] {
      assert p + q == q;
    } else {
      assert (p + q)[1..] == p[1..] + q;
      CrcBitsConcat(p[1..], q, StepBit(crc, p[0]));
    }
  }

  lemma {:induction false} MessageBitsConcat(p: seq<bv8>, q: seq<bv8>)
    ensures MessageBits(p + q) == MessageBits(p) + MessageBits(q)
  {
    if p == [] {
      assert p + q == q;
    } else {
      assert (p + q)[1..] == p[1..] + q;
      MessageBitsConcat(p[1..], q);
    }
  }

  // ---- The order of the message bits ----

  lemma Halves(b: bv8)
    ensures (b >> 1) as nat == b as nat / 2
    ensures b & 1 == 1 <==> b as nat % 2 == 1
  {
  }

  lemma LowestBit(b: bv8)
    ensures b & 1 == 1 <==> Arith.BitOf(b as nat, 0)
  {
    hide Arith.BitOf;
    Halves(b);
    Arith.LowestBit(b as nat);
  }

  lemma HigherBit(b: bv8, i: nat)
    requires i > 0
    ensures Arith.BitOf(b as nat, i) <==> Arith.BitOf((b >> 1) as nat, i - 1)
  {
    hide Arith.BitOf;
    Halves(b);
    Arith.NextBit(b as nat, i);
  }

  // The bits are those of the number, the lowest first.
  predicate Spells(bits: seq<bool>, n: nat) {
    forall i :: 0 <= i < |bits| ==> (bits[i] <==> Arith.BitOf(n, i))
  }

  lemma {:induction false} BitsMean(b: bv8, k: nat, i: nat)
    requires i < k
    ensures Bits(b, k)[i] <==> Arith.BitOf(b as nat, i)
    decreases k
  {
    hide Arith.BitOf, Arith.Pow2;
    LowestBit(b);
    if i > 0 {
      HigherBit(b, i);
      BitsMean(b >> 1, k - 1, i - 1);
    }
  }

  lemma BitsSpell(b: bv8, k: nat)
    ensures Spells(Bits(b, k), Words.NumberOfByte(b))
  {
    hide Bits, Arith.BitOf;
    forall i | 0 <= i < k ensures Bits(b, k)[i] <==> Arith.BitOf(b as nat, i) {
      BitsMean(b, k, i);
    }
  }

  lemma SpellJoin(p: seq<bool>, q: seq<bool>, low: nat, high: nat)
    requires Spells(p, low) && Spells(q, high) && low < Arith.Pow2(|p|)
    ensures Spells(p + q, low + Arith.Pow2(|p|) * high)
  {
    hide Arith.BitOf, Arith.Pow2;
    forall i | 0 <= i < |p + q| ensures (p + q)[i] <==> Arith.BitOf(low + Arith.Pow2(|p|) * high, i) {
      Arith.BitsJoin(low, high, |p|, i);
    }
  }

  lemma TwoBytes(a: bv8, b: bv8)
    ensures MessageBits([a, b]) == Bits(a, 8) + Bits(b, 8)
  {
    hide Bits;
    assert [a, b][1..] == [b] && [b][1..] == [];
    assert MessageBits([b]) == Bits(b, 8);
  }

  lemma PlaceValues()
    ensures Arith.Pow2(8) == 0x100 && Arith.Pow2(16) == 0x1_0000
  {
    assert Arith.Pow2(4) == 0x10;
    assert Arith.Pow2(12) == 0x1000;
  }

  lemma BytesApart(v: bv16)
    ensures v == ((((v >> 8) as bv8) as bv16) << 8) | (((v & 0xff) as bv8) as bv16)
  {
  }

  lemma Spells16(v: bv16)
    ensures |MessageBits(Bytes16(v))| == 16 && Spells(MessageBits(Bytes16(v)), Words.NumberOf(v))
  {
    hide MessageBits, Bits, Spells, Arith.Pow2, Words.NumberOf, Words.NumberOfByte;
    var low, high := (v & 0xff) as bv8, (v >> 8) as bv8;
    TwoBytes(low, high);
    BitsSpell(low, 8);
    BitsSpell(high, 8);
    PlaceValues();
    SpellJoin(Bits(low, 8), Bits(high, 8), Words.NumberOfByte(low), Words.NumberOfByte(high));
    BytesApart(v);
    Words.JoinBytes(low, high);
  }

  // The message bits of a word are its bits, the lowest first.
  lemma Bytes16Mean(v: bv16, i: nat)
    requires i < 16
    ensures |MessageBits(Bytes16(v))| == 16
    ensures MessageBits(Bytes16(v))[i] <==> v as nat / Arith.Pow2(i) % 2 == 1
  {
    hide MessageBits, Bytes16, Arith.Pow2;
    Spells16(v);
  }

  lemma WordsApart(v: bv32)
    ensures v == ((((v >> 16) as bv16) as bv32) << 16) | (((v & 0xffff) as bv16) as bv32)
  {
  }

  lemma SpellsWords(low: bv16, high: bv16)
    ensures var bits := MessageBits(Bytes16(low) + Bytes16(high));
            |bits| == 32 && Spells(bits, Words.NumberOfLong(((high as bv32) << 16) | low as bv32))
  {
    hide *;
    Spells16(low);
    Spells16(high);
    PlaceValues();
    MessageBitsConcat(Bytes16(low), Bytes16(high));
    SpellJoin(MessageBits(Bytes16(low)), MessageBits(Bytes16(high)), Words.NumberOf(low), Words.NumberOf(high));
    Words.JoinWords(low, high);
  }

  lemma Bytes32Mean(v: bv32, i: nat)
    requires i < 32
    ensures |MessageBits(Bytes32(v))| == 32
    ensures MessageBits(Bytes32(v))[i] <==> v as nat / Arith.Pow2(i) % 2 == 1
  {
    hide MessageBits, Bytes16, Arith.Pow2;
    WordsApart(v);
    SpellsWords((v & 0xffff) as bv16, (v >> 16) as bv16);
  }

  // The CRC of a long message is the byte-by-byte fold that the callers perform.
  lemma CrcBytesConcat(p: seq<bv8>, q: seq<bv8>, crc: bv16)
    ensures CrcBytes(p + q, crc) == CrcBytes(q, CrcBytes(p, crc))
  {
    MessageBitsConcat(p, q);
    CrcBitsConcat(MessageBits(p), MessageBits(q), crc);
  }

  // ---- The functions of the source ----

  lemma BitsStep(data: bv8, crc: bv16, k: nat)
    requires k > 0
    ensures CrcBits(Bits(data, k), crc) == CrcBits(Bits(data >> 1, k - 1), StepBit(crc, data & 1 == 1))
  {
    assert Bits(data, k)[1..] == Bits(data >> 1, k - 1);
  }

  // The first line of the loop body of `crcu8`: do the next message bit and the register disagree?
  method Differ(data: bv8, crc: bv16) returns (x16: bv8)
    ensures x16 == 1 <==> (crc & 1 == 1) != (data & 1 == 1)
  {
    x16 := (data & 1) ^ ((crc & 0xff) as bv8 & 1);
  }

  // The rest of the loop body: the mask and carry juggling is a shift and, maybe, the polynomial.
  method Shift(crc0: bv16, x16: bv8) returns (crc: bv16)
    ensures crc == if x16 == 1 then (crc0 >> 1) ^ 0xA001 else crc0 >> 1
  {
    crc := crc0;
    var carry: bool;
    if x16 == 1 {
      crc := crc ^ 0x4002;
      carry := true;
    } else {
      carry := false;
    }
    crc := crc >> 1;
    if carry {
      crc := crc | 0x8000;
    } else {
      crc := crc & 0x7fff;
    }
  }

  method Crcu8(data0: bv8, crc0: bv16) returns (crc: bv16)
    ensures crc == CrcBytes([data0], crc0)
  {
    var data := data0;
    crc := crc0;
    assert MessageBits([data0]) == Bits(data0, 8);
    for i := 0 to 8
      invariant CrcBits(Bits(data, 8 - i), crc) == CrcBytes([data0], crc0)
    {
      BitsStep(data, crc, 8 - i);
      var x16 := Differ(data, crc);
      data := data >> 1;
      crc := Shift(crc, x16);
    }
  }

  method Crcu16(newval: bv16, crc0: bv16) returns (crc: bv16)
    ensures crc == Crc16Of(newval, crc0)
  {
    crc := Crcu8((newval & 0xff) as bv8, crc0);
    crc := Crcu8((newval >> 8) as bv8, crc);
    CrcBytesConcat([(newval & 0xff) as bv8], [(newval >> 8) as bv8], crc0);
  }

  method Crcu32(newval: bv32, crc0: bv16) returns (crc: bv16)
    ensures crc == CrcBytes(Bytes32(newval), crc0)
  {
    crc := Crcu16((newval & 0xffff) as bv16, crc0);
    crc := Crcu16((newval >> 16) as bv16, crc);
    CrcBytesConcat(Bytes16((newval & 0xffff) as bv16), Bytes16((newval >> 16) as bv16), crc0);
  }

  // ---- The register as 16 separate bits ----

  type Reg = r: seq<bool> | |r| == 16 witness seq(16, _ => false)

  const ZERO: Reg := seq(16, _ => false)

  function Bit(c: bv16, i: nat): bool {
    if i == 0 then c & 0x1 != 0
    else if i == 1 then c & 0x2 != 0
    else if i == 2 then c & 0x4 != 0
    else if i == 3 then c & 0x8 != 0
    else if i == 4 then c & 0x10 != 0
    else if i == 5 then c & 0x20 != 0
    else if i == 6 then c & 0x40 != 0
    else if i == 7 then c & 0x80 != 0
    else if i == 8 then c & 0x100 != 0
    else if i == 9 then c & 0x200 != 0
    else if i == 10 then c & 0x400 != 0
    else if i == 11 then c & 0x800 != 0
    else if i == 12 then c & 0x1000 != 0
    else if i == 13 then c & 0x2000 != 0
    else if i == 14 then c & 0x4000 != 0
    else c & 0x8000 != 0
  }

  function RegOf(c: bv16): (r: Reg)
    ensures forall i :: 0 <= i < 16 ==> r[i] == Bit(c, i)
  {
    seq(16, i requires 0 <= i < 16 => Bit(c, i))
  }

  function ByteBit(b: bv8, i: nat): bool {
    if i == 0 then b & 0x1 != 0
    else if i == 1 then b & 0x2 != 0
    else if i == 2 then b & 0x4 != 0
    else if i == 3 then b & 0x8 != 0
    else if i == 4 then b & 0x10 != 0
    else if i == 5 then b & 0x20 != 0
    else if i == 6 then b & 0x40 != 0
    else b & 0x80 != 0
  }

  lemma ShiftedByte(b: bv8, i: nat)
    requires 0 < i < 8
    ensures ByteBit(b, i) == ByteBit(b >> 1, i - 1)
  {
  }

  lemma {:induction false} BitsAt(b: bv8, k: nat, i: nat)
    requires i < k <= 8
    ensures Bits(b, k)[i] == ByteBit(b, i)
    decreases k
  {
    if i > 0 {
      ShiftedByte(b, i);
      BitsAt(b >> 1, k - 1, i - 1);
      hide ByteBit;
    }
  }

  lemma LowMasks(c: bv16)
    ensures (((c & 0xff) as bv8) & 0x1 != 0) == (c & 0x1 != 0)
    ensures (((c & 0xff) as bv8) & 0x2 != 0) == (c & 0x2 != 0)
    ensures (((c & 0xff) as bv8) & 0x4 != 0) == (c & 0x4 != 0)
    ensures (((c & 0xff) as bv8) & 0x8 != 0) == (c & 0x8 != 0)
    ensures (((c & 0xff) as bv8) & 0x10 != 0) == (c & 0x10 != 0)
    ensures (((c & 0xff) as bv8) & 0x20 != 0) == (c & 0x20 != 0)
    ensures (((c & 0xff) as bv8) & 0x40 != 0) == (c & 0x40 != 0)
    ensures (((c & 0xff) as bv8) & 0x80 != 0) == (c & 0x80 != 0)
  {
  }

  lemma HighMasks(c: bv16)
    ensures (((c >> 8) as bv8) & 0x1 != 0) == (c & 0x100 != 0)
    ensures (((c >> 8) as bv8) & 0x2 != 0) == (c & 0x200 != 0)
    ensures (((c >> 8) as bv8) & 0x4 != 0) == (c & 0x400 != 0)
    ensures (((c >> 8) as bv8) & 0x8 != 0) == (c & 0x800 != 0)
    ensures (((c >> 8) as bv8) & 0x10 != 0) == (c & 0x1000 != 0)
    ensures (((c >> 8) as bv8) & 0x20 != 0) == (c & 0x2000 != 0)
    ensures (((c >> 8) as bv8) & 0x40 != 0) == (c & 0x4000 != 0)
    ensures (((c >> 8) as bv8) & 0x80 != 0) == (c & 0x8000 != 0)
  {
  }

  lemma LowByteBit(c: bv16, i: nat)
    requires i < 8
    ensures Bit(c, i) == ByteBit((c & 0xff) as bv8, i)
  {
    LowMasks(c);
  }

  lemma HighByteBitA(c: bv16, i: nat)
    requires 8 <= i < 12
    ensures Bit(c, i) == ByteBit((c >> 8) as bv8, i - 8)
  {
    HighMasks(c);
  }

  lemma HighByteBitB(c: bv16, i: nat)
    requires 12 <= i < 16
    ensures Bit(c, i) == ByteBit((c >> 8) as bv8, i - 8)
  {
    HighMasks(c);
  }

  lemma HighByteBit(c: bv16, i: nat)
    requires 8 <= i < 16
    ensures Bit(c, i) == ByteBit((c >> 8) as bv8, i - 8)
  {
    hide Bit, ByteBit;
    if i < 12 {
      HighByteBitA(c, i);
    } else {
      HighByteBitB(c, i);
    }
  }

  // Bit i of the register is bit i of the number it holds.
  lemma BitMeans(c: bv16, i: nat)
    requires i < 16
    ensures Bit(c, i) <==> c as nat / Arith.Pow2(i) % 2 == 1
  {
    hide Bit, ByteBit, Bits, MessageBits, Arith.Pow2;
    var low, high := (c & 0xff) as bv8, (c >> 8) as bv8;
    Bytes16Mean(c, i);
    TwoBytes(low, high);
    if i < 8 {
      LowByteBit(c, i);
      BitsAt(low, 8, i);
    } else {
      HighByteBit(c, i);
      BitsAt(high, 8, i - 8);
    }
  }

  predicate Poly(i: nat) { i == 0 || i == 13 || i == 15 }

  function StepReg(r: Reg, bit: bool): Reg {
    seq(16, i requires 0 <= i < 16 => (i < 15 && r[i + 1]) != (r[0] != bit && Poly(i)))
  }

  function FeedReg(bits: seq<bool>, r: Reg): Reg {
    if bits == [] then r else FeedReg(bits[1..], StepReg(r, bits[0]))
  }

  lemma PolyMasksA(h: bv16)
    ensures ((h ^ 0xA001) & 0x1 != 0) == !(h & 0x1 != 0)
    ensures ((h ^ 0xA001) & 0x2 != 0) == (h & 0x2 != 0)
    ensures ((h ^ 0xA001) & 0x4 != 0) == (h & 0x4 != 0)
    ensures ((h ^ 0xA001) & 0x8 != 0) == (h & 0x8 != 0)
    ensures ((h ^ 0xA001) & 0x10 != 0) == (h & 0x10 != 0)
    ensures ((h ^ 0xA001) & 0x20 != 0) == (h & 0x20 != 0)
  {
  }

  lemma PolyBitsA(h: bv16, i: nat)
    requires 0 <= i < 6
    ensures Bit(h ^ 0xA001, i) == (Bit(h, i) != Poly(i))
  {
    PolyMasksA(h);
  }

  lemma PolyMasksB(h: bv16)
    ensures ((h ^ 0xA001) & 0x40 != 0) == (h & 0x40 != 0)
    ensures ((h ^ 0xA001) & 0x80 != 0) == (h & 0x80 != 0)
    ensures ((h ^ 0xA001) & 0x100 != 0) == (h & 0x100 != 0)
    ensures ((h ^ 0xA001) & 0x200 != 0) == (h & 0x200 != 0)
    ensures ((h ^ 0xA001) & 0x400 != 0) == (h & 0x400 != 0)
  {
  }

  lemma PolyBitsB(h: bv16, i: nat)
    requires 6 <= i < 11
    ensures Bit(h ^ 0xA001, i) == (Bit(h, i) != Poly(i))
  {
    PolyMasksB(h);
  }

  lemma PolyMasksC(h: bv16)
    ensures ((h ^ 0xA001) & 0x800 != 0) == (h & 0x800 != 0)
    ensures ((h ^ 0xA001) & 0x1000 != 0) == (h & 0x1000 != 0)
    ensures ((h ^ 0xA001) & 0x2000 != 0) == !(h & 0x2000 != 0)
    ensures ((h ^ 0xA001) & 0x4000 != 0) == (h & 0x4000 != 0)
    ensures ((h ^ 0xA001) & 0x8000 != 0) == !(h & 0x8000 != 0)
  {
  }

  lemma PolyBitsC(h: bv16, i: nat)
    requires 11 <= i < 16
    ensures Bit(h ^ 0xA001, i) == (Bit(h, i) != Poly(i))
  {
    PolyMasksC(h);
  }

  lemma PolyReg(h: bv16)
    ensures forall i :: 0 <= i < 16 ==> RegOf(h ^ 0xA001)[i] == (RegOf(h)[i] != Poly(i))
  {
    forall i: nat | i < 16 ensures Bit(h ^ 0xA001, i) == (Bit(h, i) != Poly(i)) {
      if i < 6 {
        PolyBitsA(h, i);
      } else if i < 11 {
        PolyBitsB(h, i);
      } else {
        PolyBitsC(h, i);
      }
    }
  }

  lemma ShiftMasksA(c: bv16)
    ensures ((c >> 1) & 0x1 != 0) == (c & 0x2 != 0)
    ensures ((c >> 1) & 0x2 != 0) == (c & 0x4 != 0)
    ensures ((c >> 1) & 0x4 != 0) == (c & 0x8 != 0)
    ensures ((c >> 1) & 0x8 != 0) == (c & 0x10 != 0)
    ensures ((c >> 1) & 0x10 != 0) == (c & 0x20 != 0)
    ensures ((c >> 1) & 0x20 != 0) == (c & 0x40 != 0)
    ensures ((c >> 1) & 0x40 != 0) == (c & 0x80 != 0)
    ensures ((c >> 1) & 0x80 != 0) == (c & 0x100 != 0)
  {
  }

  lemma ShiftedBitA(c: bv16, i: nat)
    requires 0 <= i < 8
    ensures Bit(c >> 1, i) == (i < 15 && Bit(c, i + 1))
  {
    ShiftMasksA(c);
  }

  lemma ShiftMasksB(c: bv16)
    ensures ((c >> 1) & 0x100 != 0) == (c & 0x200 != 0)
    ensures ((c >> 1) & 0x200 != 0) == (c & 0x400 != 0)
    ensures ((c >> 1) & 0x400 != 0) == (c & 0x800 != 0)
    ensures ((c >> 1) & 0x800 != 0) == (c & 0x1000 != 0)
    ensures ((c >> 1) & 0x1000 != 0) == (c & 0x2000 != 0)
    ensures ((c >> 1) & 0x2000 != 0) == (c & 0x4000 != 0)
    ensures ((c >> 1) & 0x4000 != 0) == (c & 0x8000 != 0)
    ensures ((c >> 1) & 0x8000 != 0) == false
  {
  }

  lemma ShiftedBitB(c: bv16, i: nat)
    requires 8 <= i < 16
    ensures Bit(c >> 1, i) == (i < 15 && Bit(c, i + 1))
  {
    ShiftMasksB(c);
  }

  lemma ShiftedReg(c: bv16)
    ensures RegOf(c >> 1) == RegOf(c)[1..] + [false]
    ensures c & 1 == 1 <==> RegOf(c)[0]
  {
    LowBit(c);
    forall i: nat | i < 16 ensures RegOf(c >> 1)[i] == (RegOf(c)[1..] + [false])[i] {
      if i < 8 {
        ShiftedBitA(c, i);
      } else {
        ShiftedBitB(c, i);
      }
    }
  }

  lemma LowBit(c: bv16)
    ensures c & 1 == 1 <==> Bit(c, 0)
  {
  }

  lemma StepParts(r: Reg, half: Reg, mixed: Reg, bit: bool)
    requires half == r[1..] + [false]
    requires forall i :: 0 <= i < 16 ==> mixed[i] == (half[i] != Poly(i))
    ensures StepReg(r, bit) == if r[0] != bit then mixed else half
  {
  }

  lemma StepRegOf(c: bv16, bit: bool)
    ensures RegOf(StepBit(c, bit)) == StepReg(RegOf(c), bit)
  {
    ShiftedReg(c);
    PolyReg(c >> 1);
    StepParts(RegOf(c), RegOf(c >> 1), RegOf((c >> 1) ^ 0xA001), bit);
  }

  lemma {:induction false} FeedRegOf(bits: seq<bool>, c: bv16)
    ensures RegOf(CrcBits(bits, c)) == FeedReg(bits, RegOf(c))
  {
    if bits != [] {
      StepRegOf(c, bits[0]);
      FeedRegOf(bits[1..], StepBit(c, bits[0]));
    }
  }

  // ---- The register is the remainder of a division ----

  // Bit strings as polynomials over GF(2): the first bit belongs to the highest power, and the
  // lowest bit of the register to x^15.
  predicate Coef(bits: seq<bool>, j: int) {
    0 <= j < |bits| && bits[|bits| - 1 - j]
  }

  // Coefficient j of q times x^16 + x^15 + x^2 + 1.
  predicate TimesPoly(q: seq<bool>, j: int) {
    ((Coef(q, j - 16) != Coef(q, j - 15)) != Coef(q, j - 2)) != Coef(q, j)
  }

  // Coefficient j of message * x^16 + start * x^|message|, which is what a CRC divides.
  predicate Dividend(bits: seq<bool>, start: Reg, j: int) {
    Coef(bits, j - 16) != Coef(start, j - |bits|)
  }

  ghost predicate Divides(bits: seq<bool>, start: Reg, q: seq<bool>, r: Reg) {
    forall j :: Dividend(bits, start, j) == (TimesPoly(q, j) != Coef(r, j))
  }

  function Quotient(bits: seq<bool>, r: Reg): (q: seq<bool>)
    ensures |q| == |bits|
  {
    if bits == [] then [] else [r[0] != bits[0]] + Quotient(bits[1..], StepReg(r, bits[0]))
  }

  lemma CoefCons(b: bool, t: seq<bool>, j: int)
    ensures Coef([b] + t, j) == (Coef([b], j - |t|) != Coef(t, j))
    ensures Coef([b], j - |t|) == (j == |t| && b)
  {
  }

  // One step multiplies by x, takes in the next bit and reduces.
  lemma StepReduces(r: Reg, bit: bool, j: int)
    ensures var q := r[0] != bit;
            ((j == 16 && bit) != Coef(r, j - 1)) == (TimesPoly([q], j) != Coef(StepReg(r, bit), j))
  {
    assert Coef(StepReg(r, bit), j) <==> 0 <= j < 16 && StepReg(r, bit)[15 - j];
  }

  lemma {:induction false} FeedDivides(bits: seq<bool>, start: Reg)
    ensures Divides(bits, start, Quotient(bits, start), FeedReg(bits, start))
  {
    hide StepReg;
    if bits != [] {
      var b, t, n := bits[0], bits[1..], |bits| - 1;
      var q, r := Quotient(t, StepReg(start, b)), FeedReg(bits, start);
      FeedDivides(t, StepReg(start, b));
      assert bits == [b] + t;
      forall j ensures Dividend(bits, start, j) == (TimesPoly(Quotient(bits, start), j) != Coef(r, j)) {
        FeedStep(b, t, start, q, r, j);
      }
    }
  }

  lemma FeedStep(b: bool, t: seq<bool>, start: Reg, q: seq<bool>, r: Reg, j: int)
    requires |q| == |t|
    requires Dividend(t, StepReg(start, b), j) == (TimesPoly(q, j) != Coef(r, j))
    ensures Dividend([b] + t, start, j) == (TimesPoly([start[0] != b] + q, j) != Coef(r, j))
  {
    hide StepReg, Coef;
    var n, c := |t|, start[0] != b;
    StepReduces(start, b, j - n);
    CoefCons(b, t, j - 16);
    CoefCons(c, q, j);
    CoefCons(c, q, j - 2);
    CoefCons(c, q, j - 15);
    CoefCons(c, q, j - 16);
  }

  // ---- Linearity over GF(2) ----

  function XorBits(p: seq<bool>, q: seq<bool>): (r: seq<bool>)
    requires |p| == |q|
    ensures |r| == |p|
  {
    seq(|p|, k requires 0 <= k < |p| => p[k] != q[k])
  }

  lemma StepRegLinear(a: Reg, b: Reg, x: bool, y: bool)
    ensures StepReg(XorBits(a, b), x != y) == XorBits(StepReg(a, x), StepReg(b, y))
  {
  }

  // The CRC of the difference of two messages is the difference of their CRCs.
  lemma {:induction false} CrcLinear(p: seq<bool>, q: seq<bool>, a: Reg, b: Reg)
    requires |p| == |q|
    ensures FeedReg(XorBits(p, q), XorBits(a, b)) == XorBits(FeedReg(p, a), FeedReg(q, b))
  {
    if p != [] {
      StepRegLinear(a, b, p[0], q[0]);
      CrcLinear(p[1..], q[1..], StepReg(a, p[0]), StepReg(b, q[0]));
      assert XorBits(p, q)[1..] == XorBits(p[1..], q[1..]);
    }
  }

  // ---- There is only one remainder ----

  lemma {:induction false} NothingDivides(q: seq<bool>, r: Reg)
    requires forall j :: TimesPoly(q, j) == Coef(r, j)
    ensures r == ZERO
  {
    if q == [] {
      forall i | 0 <= i < 16 ensures !r[i] {
        assert TimesPoly(q, 15 - i) == Coef(r, 15 - i);
      }
    } else {
      assert TimesPoly(q, |q| + 15) == Coef(r, |q| + 15);
      assert !q[0] && q == [false] + q[1..];
      forall j ensures TimesPoly(q[1..], j) == Coef(r, j) {
        LeadingZero(q[1..], j);
        assert TimesPoly(q, j) == Coef(r, j);
      }
      NothingDivides(q[1..], r);
    }
  }

  lemma LeadingZero(q: seq<bool>, j: int)
    ensures TimesPoly([false] + q, j) == TimesPoly(q, j)
  {
    hide Coef;
    CoefCons(false, q, j);
    CoefCons(false, q, j - 2);
    CoefCons(false, q, j - 15);
    CoefCons(false, q, j - 16);
  }

  lemma DifferenceDivides(q1: seq<bool>, q2: seq<bool>, r1: Reg, r2: Reg, j: int)
    requires |q1| == |q2|
    ensures TimesPoly(XorBits(q1, q2), j) == (TimesPoly(q1, j) != TimesPoly(q2, j))
    ensures Coef(XorBits(r1, r2), j) == (Coef(r1, j) != Coef(r2, j))
  {
  }

  // The CRC of a message is the remainder of its bits, shifted up by 16 places, on division by
  // x^16 + x^15 + x^2 + 1: there is a quotient for it, and for no other register.
  lemma CrcIsRemainder(bytes: seq<bv8>, crc: bv16, r: Reg)
    ensures (exists q :: |q| == 8 * |bytes| && Divides(MessageBits(bytes), RegOf(crc), q, r)) <==>
            r == RegOf(CrcBytes(bytes, crc))
  {
    hide MessageBits, RegOf, TimesPoly, Coef, Dividend;
    var bits, start := MessageBits(bytes), RegOf(crc);
    var q, s := Quotient(bits, start), RegOf(CrcBytes(bytes, crc));
    FeedDivides(bits, start);
    FeedRegOf(bits, crc);
    forall p | |p| == |bits| && Divides(bits, start, p, r) ensures r == s {
      forall j ensures TimesPoly(XorBits(p, q), j) == Coef(XorBits(r, s), j) {
        DifferenceDivides(p, q, r, s, j);
        assert Dividend(bits, start, j) == (TimesPoly(p, j) != Coef(r, j));
      }
      NothingDivides(XorBits(p, q), XorBits(r, s));
      SameRegs(r, s);
    }
  }

  lemma SameRegs(r: Reg, s: Reg)
    requires XorBits(r, s) == ZERO
    ensures r == s
  {
    forall i | 0 <= i < 16 ensures r[i] == s[i] {
      assert !XorBits(r, s)[i];
    }
  }

  // ---- Bursts of up to 16 bits are always detected ----

  lemma {:induction false} FeedConcat(p: seq<bool>, q: seq<bool>, r: Reg)
    ensures FeedReg(p + q, r) == FeedReg(q, FeedReg(p, r))
  {
    if p == [] {
      assert p + q == q;
    } else {
      assert (p + q)[1..] == p[1..] + q;
      FeedConcat(p[1..], q, StepReg(r, p[0]));
    }
  }

  // Zero bits leave a non-zero register non-zero and the zero register zero.
  lemma {:induction false} ZerosKeep(zeros: seq<bool>, r: Reg)
    requires forall k :: 0 <= k < |zeros| ==> !zeros[k]
    ensures FeedReg(zeros, r) == ZERO <==> r == ZERO
  {
    if zeros != [] {
      ZeroStepKeeps(r);
      ZerosKeep(zeros[1..], StepReg(r, false));
    }
  }

  lemma ZeroStepKeeps(r: Reg)
    ensures StepReg(r, false) == ZERO <==> r == ZERO
  {
    var s := StepReg(r, false);
    if s == ZERO {
      assert !s[15];
      assert forall i :: 0 <= i < 15 ==> !s[i];
      assert forall i :: 1 <= i < 16 ==> r[i] == s[i - 1];
      assert r == ZERO;
    }
  }

  // `w` laid into the low end of an otherwise zero register.
  function Load(w: seq<bool>): Reg
    requires |w| <= 16
  {
    w + seq(16 - |w|, _ => false)
  }

  // Feeding up to 16 bits equals xoring them into the register first and then feeding zeros.
  lemma {:induction false} LoadFirst(w: seq<bool>, r: Reg)
    requires |w| <= 16
    ensures FeedReg(w, r) == FeedReg(Arith.Repeat(false, |w|), XorBits(r, Load(w)))
  {
    if w == [] {
      assert XorBits(r, Load(w)) == r;
    } else {
      var r1 := XorBits(StepReg(r, w[0]), Load(w[1..]));
      assert StepReg(XorBits(r, Load(w)), false) == r1;
      LoadFirst(w[1..], StepReg(r, w[0]));
      assert Arith.Repeat(false, |w|)[1..] == Arith.Repeat(false, |w| - 1);
    }
  }

  // The two bit strings differ somewhere, and only inside a window of 16 bits starting at `i`.
  ghost predicate BurstAt(p: seq<bool>, q: seq<bool>, i: nat) {
    && |p| == |q| && p != q
    && forall k :: 0 <= k < |p| && (k < i || i + 16 <= k) ==> p[k] == q[k]
  }

  lemma WindowLeavesTrace(w: seq<bool>, d: nat)
    requires d < |w| <= 16 && w[d]
    ensures FeedReg(w, ZERO) != ZERO
  {
    LoadFirst(w, ZERO);
    assert XorBits(ZERO, Load(w))[d];
    ZerosKeep(Arith.Repeat(false, |w|), XorBits(ZERO, Load(w)));
  }

  // A difference pattern confined to 16 consecutive bits leaves a trace in the register.
  lemma BurstLeavesTrace(e: seq<bool>, i: nat, d: nat)
    requires d < |e| && e[d]
    requires forall k :: 0 <= k < |e| && (k < i || i + 16 <= k) ==> !e[k]
    ensures FeedReg(e, ZERO) != ZERO
  {
    hide FeedReg;
    var j := if i + 16 <= |e| then i + 16 else |e|;
    var head, w, tail := e[..i], e[i..j], e[j..];
    assert FeedReg(head, ZERO) == ZERO by {
      ZerosKeep(head, ZERO);
    }
    assert FeedReg(w, ZERO) != ZERO by {
      WindowLeavesTrace(w, d - i);
    }
    assert FeedReg(tail, FeedReg(w, ZERO)) != ZERO by {
      ZerosKeep(tail, FeedReg(w, ZERO));
    }
    assert FeedReg(e, ZERO) == FeedReg(tail, FeedReg(w, FeedReg(head, ZERO))) by {
      ThreeParts(e, i, j);
      FeedConcat(head, w + tail, ZERO);
      FeedConcat(w, tail, FeedReg(head, ZERO));
    }
  }

  lemma ThreeParts(e: seq<bool>, i: nat, j: nat)
    requires i <= j <= |e|
    ensures e == e[..i] + (e[i..j] + e[j..])
  {
  }

  lemma BurstDetectedBits(p: seq<bool>, q: seq<bool>, i: nat, r: Reg)
    requires BurstAt(p, q, i)
    ensures FeedReg(p, r) != FeedReg(q, r)
  {
    var d :| 0 <= d < |p| && p[d] != q[d];
    assert XorBits(p, q)[d];
    BurstLeavesTrace(XorBits(p, q), i, d);
    assert XorBits(r, r) == ZERO;
    CrcLinear(p, q, r, r);
  }

  function Limit8(k: nat): bv8 {
    if k == 0 then 0 else if k == 1 then 0x1 else if k == 2 then 0x3 else if k == 3 then 0x7
    else if k == 4 then 0xf else if k == 5 then 0x1f else if k == 6 then 0x3f else if k == 7 then 0x7f
    else 0xff
  }

  lemma {:induction false} BitsInjective(a: bv8, b: bv8, k: nat)
    requires k <= 8 && a <= Limit8(k) && b <= Limit8(k)
    requires Bits(a, k) == Bits(b, k)
    ensures a == b
  {
    if k > 0 {
      SameBits(a, b, k);
      HalfBound(a, k);
      HalfBound(b, k);
      BitsInjective(a >> 1, b >> 1, k - 1);
      SameHalves(a, b);
    }
  }

  lemma SameBits(a: bv8, b: bv8, k: nat)
    requires k > 0 && Bits(a, k) == Bits(b, k)
    ensures (a & 1 == 1) == (b & 1 == 1) && Bits(a >> 1, k - 1) == Bits(b >> 1, k - 1)
  {
    assert Bits(a, k)[0] == Bits(b, k)[0];
    assert Bits(a, k)[1..] == Bits(a >> 1, k - 1) && Bits(b, k)[1..] == Bits(b >> 1, k - 1);
  }

  lemma HalfBound(a: bv8, k: nat)
    requires 1 <= k <= 8 && a <= Limit8(k)
    ensures a >> 1 <= Limit8(k - 1)
  {
  }

  lemma SameHalves(a: bv8, b: bv8)
    requires (a & 1 == 1) == (b & 1 == 1) && a >> 1 == b >> 1
    ensures a == b
  {
  }

  lemma {:induction false} MessageBitsInjective(p: seq<bv8>, q: seq<bv8>)
    requires |p| == |q| && MessageBits(p) == MessageBits(q)
    ensures p == q
  {
    if p != [] {
      assert MessageBits(p)[..8] == Bits(p[0], 8) && MessageBits(q)[..8] == Bits(q[0], 8);
      assert MessageBits(p)[8..] == MessageBits(p[1..]) && MessageBits(q)[8..] == MessageBits(q[1..]);
      BitsInjective(p[0], q[0], 8);
      MessageBitsInjective(p[1..], q[1..]);
    }
  }

  // Error detection: two different messages of the same length whose bits (least significant bit of
  // each byte first) differ only within 16 consecutive positions never have the same CRC.
  lemma BurstDetected(p: seq<bv8>, q: seq<bv8>, i: nat, crc: bv16)
    requires |p| == |q| && p != q
    requires forall k :: 0 <= k < 8 * |p| && (k < i || i + 16 <= k) ==> MessageBits(p)[k] == MessageBits(q)[k]
    ensures CrcBytes(p, crc) != CrcBytes(q, crc)
  {
    if MessageBits(p) == MessageBits(q) {
      MessageBitsInjective(p, q);
    }
    BurstDetectedBits(MessageBits(p), MessageBits(q), i, RegOf(crc));
    FeedRegOf(MessageBits(p), crc);
    FeedRegOf(MessageBits(q), crc);
  }
}
