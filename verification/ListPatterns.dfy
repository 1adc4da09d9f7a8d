// The numbers that `core_list_init` of `sw/app/coremark/core_list_join.c` gives to the items of a
// list, and the data it fills them with, bit by bit.

module ListPatterns {
  import Arith
  import Crc
  import opened Words
  import opened ListNodes

  // ---- Definitions ----

  // `((seed ^ i) & 0xf) << 3 | (i & 0x7)`, the byte that is stored twice.
  function Pattern(seed: s16, i: nat): (d: nat)
    ensures d < 0x80
  {
    8 * Low4(seed % M16, i % M16) + i % 8
  }

  function LowWord(a: bv16, b: bv16): (r: bv16)
    ensures r < 0x10
  {
    (a ^ b) & 0xf
  }

  function Low4(a: u16, b: u16): (r: nat)
    ensures r < 0x10
  {
    SmallNumber(LowWord(Word(a), Word(b)));
    NumberOf(LowWord(Word(a), Word(b)))
  }

  function MixedWord(i: bv16, j: bv16, seed: bv16): bv16 {
    0x3fff & (((i & 0x07) << 8) | (j ^ seed))
  }

  // `0x3fff & (((i & 0x07) << 8) | (j ^ seed))`, where `i` is already one more than `j`.
  function MixedIdx(i: u16, j: u16, seed: u16): (r: nat)
    ensures r < 0x4000
  {
    NumberOf(MixedWord(Word(i), Word(j), Word(seed)))
  }

  // The data of the i-th inserted item: its pattern, twice.
  function DataFor(seed: s16, i: nat): (d: u16)
    ensures Intact(d)
  {
    Pattern(seed, i) * 0x100 + Pattern(seed, i)
  }

  // The number of the i-th node: its own place in the first fifth, a mixed one after that.
  function NumberFor(i: nat, size: nat, seed: s16): (r: s16)
    requires size / 5 <= 0x7fff
    ensures 0 <= r < 0x7fff
    ensures i < size / 5 ==> r == i
  {
    if i < size / 5 then i else MixedIdx((i + 1) % M16, i % M16, seed % M16)
  }

  lemma SmallNumber(w: bv16)
    requires w < 0x10
    ensures NumberOf(w) < 0x10
  {
  }

  // ---- Numbers and their bits ----

  lemma NumberBit(n: nat, b: nat)
    requires n < M16 && b < 16
    ensures Crc.Bit(Word(n), b) <==> Arith.BitOf(n, b)
  {
    hide Crc.Bit, Arith.Pow2, Word;
    WordOfNumber(n);
    Crc.BitMeans(Word(n), b);
  }

  lemma WordBit(w: bv16, b: nat)
    requires b < 16
    ensures Crc.Bit(w, b) <==> Arith.BitOf(NumberOf(w), b)
  {
    hide Crc.Bit, Arith.Pow2;
    Crc.BitMeans(w, b);
  }

  // ---- The mixed numbers ----

  predicate MixedBit(i: bv16, j: bv16, seed: bv16, b: nat) {
    || (8 <= b < 11 && Crc.Bit(i, b - 8))
    || (b < 14 && Crc.Bit(j, b) != Crc.Bit(seed, b))
  }

  lemma MixedMasksA(i: bv16, j: bv16, seed: bv16)
    ensures (MixedWord(i, j, seed) & 0x1 != 0) == ((j & 0x1 != 0) != (seed & 0x1 != 0))
    ensures (MixedWord(i, j, seed) & 0x2 != 0) == ((j & 0x2 != 0) != (seed & 0x2 != 0))
    ensures (MixedWord(i, j, seed) & 0x4 != 0) == ((j & 0x4 != 0) != (seed & 0x4 != 0))
    ensures (MixedWord(i, j, seed) & 0x8 != 0) == ((j & 0x8 != 0) != (seed & 0x8 != 0))
  {
  }

  lemma MixedBitsA(i: bv16, j: bv16, seed: bv16, b: nat)
    requires 0 <= b < 4
    ensures Crc.Bit(MixedWord(i, j, seed), b) == MixedBit(i, j, seed, b)
  {
    MixedMasksA(i, j, seed);
    hide MixedWord;
  }

  lemma MixedMasksB(i: bv16, j: bv16, seed: bv16)
    ensures (MixedWord(i, j, seed) & 0x10 != 0) == ((j & 0x10 != 0) != (seed & 0x10 != 0))
    ensures (MixedWord(i, j, seed) & 0x20 != 0) == ((j & 0x20 != 0) != (seed & 0x20 != 0))
    ensures (MixedWord(i, j, seed) & 0x40 != 0) == ((j & 0x40 != 0) != (seed & 0x40 != 0))
    ensures (MixedWord(i, j, seed) & 0x80 != 0) == ((j & 0x80 != 0) != (seed & 0x80 != 0))
  {
  }

  lemma MixedBitsB(i: bv16, j: bv16, seed: bv16, b: nat)
    requires 4 <= b < 8
    ensures Crc.Bit(MixedWord(i, j, seed), b) == MixedBit(i, j, seed, b)
  {
    MixedMasksB(i, j, seed);
    hide MixedWord;
  }

  lemma MixedMasksC(i: bv16, j: bv16, seed: bv16)
    ensures (MixedWord(i, j, seed) & 0x100 != 0) == ((i & 0x1 != 0) || ((j & 0x100 != 0) != (seed & 0x100 != 0)))
    ensures (MixedWord(i, j, seed) & 0x200 != 0) == ((i & 0x2 != 0) || ((j & 0x200 != 0) != (seed & 0x200 != 0)))
    ensures (MixedWord(i, j, seed) & 0x400 != 0) == ((i & 0x4 != 0) || ((j & 0x400 != 0) != (seed & 0x400 != 0)))
  {
  }

  lemma MixedBitsC(i: bv16, j: bv16, seed: bv16, b: nat)
    requires 8 <= b < 11
    ensures Crc.Bit(MixedWord(i, j, seed), b) == MixedBit(i, j, seed, b)
  {
    MixedMasksC(i, j, seed);
    hide MixedWord;
  }

  lemma MixedMasksD(i: bv16, j: bv16, seed: bv16)
    ensures (MixedWord(i, j, seed) & 0x800 != 0) == ((j & 0x800 != 0) != (seed & 0x800 != 0))
    ensures (MixedWord(i, j, seed) & 0x1000 != 0) == ((j & 0x1000 != 0) != (seed & 0x1000 != 0))
    ensures (MixedWord(i, j, seed) & 0x2000 != 0) == ((j & 0x2000 != 0) != (seed & 0x2000 != 0))
    ensures (MixedWord(i, j, seed) & 0x4000 != 0) == false
    ensures (MixedWord(i, j, seed) & 0x8000 != 0) == false
  {
  }

  lemma MixedBitsD(i: bv16, j: bv16, seed: bv16, b: nat)
    requires 11 <= b < 16
    ensures Crc.Bit(MixedWord(i, j, seed), b) == MixedBit(i, j, seed, b)
  {
    MixedMasksD(i, j, seed);
    hide MixedWord;
  }

  lemma MixedBits(i: bv16, j: bv16, seed: bv16, b: nat)
    requires b < 16
    ensures Crc.Bit(MixedWord(i, j, seed), b) == MixedBit(i, j, seed, b)
  {
    hide MixedWord, MixedBit, Crc.Bit;
    if b < 4 {
      MixedBitsA(i, j, seed, b);
    } else if b < 8 {
      MixedBitsB(i, j, seed, b);
    } else if b < 11 {
      MixedBitsC(i, j, seed, b);
    } else {
      MixedBitsD(i, j, seed, b);
    }
  }

  // The number of a node behind the first fifth: its place exclusive-or the seed, with the low
  // three bits of the next place put on bits 8 to 10, and without the two highest bits.
  lemma NumberMeans(i: nat, size: nat, seed: s16, b: nat)
    requires size / 5 <= 0x7fff && size / 5 <= i && i + 1 < M16 && b < 16
    ensures Arith.BitOf(NumberFor(i, size, seed), b) <==>
            || (8 <= b < 11 && Arith.BitOf(i + 1, b - 8))
            || (b < 14 && Arith.BitOf(i, b) != Arith.BitOf(seed % M16, b))
  {
    hide Crc.Bit, Arith.BitOf, MixedWord, Word, NumberOf;
    var x, y, z := Word(i + 1), Word(i), Word(seed % M16);
    WordBit(MixedWord(x, y, z), b);
    MixedBits(x, y, z, b);
    NumberBit(i, b);
    NumberBit(seed % M16, b);
    if 8 <= b < 11 {
      NumberBit(i + 1, b - 8);
    }
  }

  // ---- The data ----

  lemma LowMasks(x: bv16, y: bv16)
    ensures (LowWord(x, y) & 0x1 != 0) == ((x & 0x1 != 0) != (y & 0x1 != 0))
    ensures (LowWord(x, y) & 0x2 != 0) == ((x & 0x2 != 0) != (y & 0x2 != 0))
    ensures (LowWord(x, y) & 0x4 != 0) == ((x & 0x4 != 0) != (y & 0x4 != 0))
    ensures (LowWord(x, y) & 0x8 != 0) == ((x & 0x8 != 0) != (y & 0x8 != 0))
  {
  }

  lemma LowBit(x: bv16, y: bv16, b: nat)
    requires b < 4
    ensures Crc.Bit(LowWord(x, y), b) == (Crc.Bit(x, b) != Crc.Bit(y, b))
  {
    LowMasks(x, y);
    hide LowWord;
  }

  lemma Low4Means(a: u16, c: u16, b: nat)
    requires b < 4
    ensures Arith.BitOf(Low4(a, c), b) <==> Arith.BitOf(a, b) != Arith.BitOf(c, b)
  {
    hide Crc.Bit, Arith.BitOf, LowWord, Word, NumberOf;
    WordBit(LowWord(Word(a), Word(c)), b);
    LowBit(Word(a), Word(c), b);
    NumberBit(a, b);
    NumberBit(c, b);
  }

  lemma LowPart(n: nat, m: nat, b: nat)
    requires b < m
    ensures Arith.BitOf(n % Arith.Pow2(m), b) <==> Arith.BitOf(n, b)
  {
    hide Arith.BitOf, Arith.Pow2;
    Arith.BitsJoin(n % Arith.Pow2(m), n / Arith.Pow2(m), m, b);
  }

  lemma PatternMeans(seed: s16, i: nat, b: nat)
    requires b < 8
    ensures Arith.BitOf(Pattern(seed, i), b) <==>
            if b < 3 then Arith.BitOf(i, b)
            else b < 7 && Arith.BitOf(seed % M16, b - 3) != Arith.BitOf(i, b - 3)
  {
    hide Arith.BitOf, Arith.Pow2, Low4;
    Crc.PlaceValues();
    EightIs();
    Arith.BitsJoin(i % 8, Low4(seed % M16, i % M16), 3, b);
    if b < 3 {
      LowPart(i, 3, b);
    } else if b < 7 {
      Low4Means(seed % M16, i % M16, b - 3);
      LowPart(i, 16, b - 3);
    } else {
      NoFifthBit(Low4(seed % M16, i % M16));
    }
  }

  lemma EightIs()
    ensures Arith.Pow2(3) == 8 && Arith.Pow2(4) == 16
  {
  }

  lemma NoFifthBit(n: nat)
    requires n < 0x10
    ensures !Arith.BitOf(n, 4)
  {
    hide Arith.Pow2;
    EightIs();
  }

  // The data of item i: in both bytes the low three bits of i, then four bits in which i and the
  // seed differ, and a zero.
  lemma DataMeans(seed: s16, i: nat, b: nat)
    requires b < 16
    ensures Arith.BitOf(DataFor(seed, i), b) <==>
            if b >= 8 then Arith.BitOf(DataFor(seed, i), b - 8)
            else if b < 3 then Arith.BitOf(i, b)
            else b < 7 && Arith.BitOf(seed % M16, b - 3) != Arith.BitOf(i, b - 3)
  {
    hide Arith.BitOf, Arith.Pow2, Pattern;
    Crc.PlaceValues();
    var p := Pattern(seed, i);
    Arith.BitsJoin(p, p, 8, b);
    if b >= 8 {
      Arith.BitsJoin(p, p, 8, b - 8);
    } else {
      PatternMeans(seed, i, b);
    }
  }
}
