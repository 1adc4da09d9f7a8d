// The bits of small words and the numbers they stand for, by counting up from zero.

module Words {

  function Byte(n: nat): bv8
    requires n < 0x100
  {
    if n == 0 then 0 else Byte(n - 1) + 1
  }

  lemma Inc(w: bv8)
    requires w < 0xff
    ensures (w + 1) as nat == w as nat + 1
  {
  }

  lemma {:induction false} ByteCounts(n: nat)
    requires n < 0x100
    ensures Byte(n) as nat == n
  {
    if n > 0 {
      ByteCounts(n - 1);
      NotLast(Byte(n - 1));
      Inc(Byte(n - 1));
    }
  }

  lemma NotLast(w: bv8)
    requires w as nat < 0xff
    ensures w < 0xff
  {
  }

  function Word(n: nat): bv16
    requires n < 0x1_0000
  {
    n as bv16
  }

  function NumberOf(w: bv16): (n: nat)
    ensures n < 0x1_0000
  {
    w as nat
  }

  lemma Widen(b: bv8)
    ensures NumberOf(b as bv16) == b as nat
    ensures b as bv16 & 0x07 == (b & 0x07) as bv16
  {
  }

  lemma BackAndForth(w: bv16)
    ensures Word(NumberOf(w)) == w
  {
  }

  // A small number is its own word.
  lemma WordIs(n: nat)
    requires n < 0x100
    ensures Word(n) == Byte(n) as bv16 && NumberOf(Word(n)) == n
  {
    hide Word, NumberOf;
    ByteCounts(n);
    Widen(Byte(n));
    BackAndForth(Byte(n) as bv16);
  }

  lemma LowInc(w: bv8)
    ensures (w + 1) & 0x07 == if w & 0x07 == 0x07 then 0 else (w & 0x07) + 1
  {
  }

  // The low three bits are the remainder modulo eight.
  lemma {:induction false} LowBits(n: nat)
    requires n < 0x100
    ensures Byte(n) & 0x07 == Byte(n % 8)
  {
    if n >= 8 {
      LowBits(n - 1);
      LowInc(Byte(n - 1));
      Eight();
      assert n % 8 == if (n - 1) % 8 == 7 then 0 else (n - 1) % 8 + 1;
      LowDigit((n - 1) % 8);
    } else {
      LowDigit(n);
    }
  }

  lemma Eight()
    ensures Byte(1) == 1 && Byte(2) == 2 && Byte(3) == 3 && Byte(4) == 4
    ensures Byte(5) == 5 && Byte(6) == 6 && Byte(7) == 7
  {
    assert Byte(1) == 1;
    assert Byte(3) == 3;
    assert Byte(5) == 5;
  }

  lemma LowDigit(n: nat)
    requires n < 8
    ensures Byte(n) & 0x07 == Byte(n) && (Byte(n) == 0 <==> n == 0) && (Byte(n) == 0x07 <==> n == 7)
  {
    Eight();
  }

  lemma WordSize(w: bv16)
    ensures NumberOf(w) < 0x100 <==> w < 0x100
    ensures NumberOf(w) < 19 <==> w < 19
    ensures NumberOf(w) < 6 <==> w < 6
  {
  }

  lemma SameWord(v: bv16, w: bv16)
    requires NumberOf(v) == NumberOf(w)
    ensures v == w
  {
    BackAndForth(v);
    BackAndForth(w);
  }

  // ---- Every number has its word ----

  function NumberOfByte(b: bv8): (n: nat)
    ensures n < 0x100
  {
    b as nat
  }

  lemma ByteOfNumber(n: nat)
    requires n < 0x100
    ensures NumberOfByte(Byte(n)) == n
  {
    ByteCounts(n);
  }

  lemma JoinBytes(low: bv8, high: bv8)
    ensures NumberOf(((high as bv16) << 8) | low as bv16) == NumberOfByte(low) + 0x100 * NumberOfByte(high)
  {
  }

  lemma WordOfNumber(n: nat)
    requires n < 0x1_0000
    ensures NumberOf(Word(n)) == n
  {
    hide Word, NumberOf, NumberOfByte, Byte;
    ByteOfNumber(n % 0x100);
    ByteOfNumber(n / 0x100);
    JoinBytes(Byte(n % 0x100), Byte(n / 0x100));
    BackAndForth(((Byte(n / 0x100) as bv16) << 8) | Byte(n % 0x100) as bv16);
  }

  function Long(n: nat): bv32
    requires n < 0x1_0000_0000
  {
    n as bv32
  }

  function NumberOfLong(w: bv32): (n: nat)
    ensures n < 0x1_0000_0000
  {
    w as nat
  }

  lemma JoinWords(low: bv16, high: bv16)
    ensures NumberOfLong(((high as bv32) << 16) | low as bv32) == NumberOf(low) + 0x1_0000 * NumberOf(high)
  {
  }

  lemma LongBackAndForth(w: bv32)
    ensures Long(NumberOfLong(w)) == w
  {
  }

  lemma LongOfNumber(n: nat)
    requires n < 0x1_0000_0000
    ensures NumberOfLong(Long(n)) == n
  {
    hide Word, NumberOf, Long, NumberOfLong;
    var low, high := n % 0x1_0000, n / 0x1_0000;
    WordOfNumber(low);
    WordOfNumber(high);
    JoinWords(Word(low), Word(high));
    LongBackAndForth(((Word(high) as bv32) << 16) | Word(low) as bv32);
  }
}
