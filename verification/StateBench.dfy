// The CoreMark state-machine benchmark: building the text, scanning it,
// corrupting every step-th byte, scanning again and undoing the corruption.

module StateBench {
  import opened StateGrammar
  import opened StateScan
  import Crc
  import ListNodes
  import Arith
  import Words

  // ---- Corruption ----

  function Flip(b: bv8, seed: bv8): bv8 {
    if b != COMMA then b ^ seed else b
  }

  function Flipped(text: seq<bv8>, seed: bv8, step: nat): (r: seq<bv8>)
    requires step > 0
    ensures |r| == |text|
  {
    seq(|text|, i requires 0 <= i < |text| => if i % step == 0 then Flip(text[i], seed) else text[i])
  }

  lemma NotVisited(p: nat, step: nat, i: nat)
    requires step > 0 && p % step == 0 && p < i < p + step
    ensures i % step != 0 && (p + step) % step == 0
  {
    assert p == p / step * step + p % step;
    assert i == p / step * step + (i - p);
    Arith.DivIs(i, step, p / step, i - p);
    assert p + step == (p / step + 1) * step + 0;
    Arith.DivIs(p + step, step, p / step + 1, 0);
  }

  method Corrupt(memblock: array<bv8>, blksize: nat, seed: bv8, step: nat)
    requires blksize == memblock.Length && step > 0
    modifies memblock
    ensures memblock[..] == Flipped(old(memblock[..]), seed, step)
  {
    hide Flip;
    ghost var text := memblock[..];
    var p := 0;
    while p < blksize
      invariant p % step == 0
      invariant forall i :: 0 <= i < blksize && i < p ==> memblock[i] == Flipped(text, seed, step)[i]
      invariant forall i :: 0 <= i < blksize && i >= p ==> memblock[i] == text[i]
    {
      FlipIs(memblock[p], seed);
      if memblock[p] != COMMA {
        memblock[p] := memblock[p] ^ seed;
      }
      NextVisit(p, step);
      p := p + step;
    }
  }

  lemma FlipIs(b: bv8, seed: bv8)
    ensures Flip(b, seed) == if b != COMMA then b ^ seed else b
  {
  }

  lemma NextVisit(p: nat, step: nat)
    requires step > 0 && p % step == 0
    ensures (p + step) % step == 0
    ensures forall i :: p < i < p + step ==> i % step != 0
  {
    forall i | p < i < p + step
      ensures i % step != 0
    {
      NotVisited(p, step, i);
    }
    assert p == p / step * step + p % step;
    assert p + step == (p / step + 1) * step + 0;
    Arith.DivIs(p + step, step, p / step + 1, 0);
  }

  lemma XorTwice(b: bv8, seed1: bv8, seed2: bv8)
    ensures (b ^ seed1) ^ seed2 == b <==> seed1 == seed2
  {
  }

  lemma FlipTwice(b: bv8, seed1: bv8, seed2: bv8)
    ensures Flip(Flip(b, seed1), seed2) == b <==> b == COMMA || (seed1 == seed2 && b ^ seed1 != COMMA)
  {
    XorTwice(b, seed1, seed2);
    var once := b ^ seed1;
    if b != COMMA {
      assert Flip(b, seed1) == once;
      if once != COMMA {
        assert Flip(once, seed2) == once ^ seed2;
      }
    }
  }

  // Byte i survives corrupting and undoing.
  predicate Survives(text: seq<bv8>, seed1: bv8, seed2: bv8, i: nat)
    requires i < |text|
  {
    text[i] == COMMA || (seed1 == seed2 && text[i] ^ seed1 != COMMA)
  }

  // The second pass restores the text exactly when every visited byte survives:
  // equal seed bytes are needed, and no visited byte may turn into a comma.
  lemma RestoredExactly(text: seq<bv8>, seed1: bv8, seed2: bv8, step: nat)
    requires step > 0
    ensures Flipped(Flipped(text, seed1, step), seed2, step) == text
       <==> forall i: nat :: i < |text| && i % step == 0 ==> Survives(text, seed1, seed2, i)
  {
    hide Flip;
    var twice := Flipped(Flipped(text, seed1, step), seed2, step);
    forall i: nat | i < |text|
      ensures twice[i] == text[i] <==> (i % step == 0 ==> Survives(text, seed1, seed2, i))
    {
      FlipTwice(text[i], seed1, seed2);
    }
  }

  ghost predicate EndsInTwoNuls(text: seq<bv8>) {
    |text| >= 2 && text[|text| - 1] == 0 && text[|text| - 2] == 0
  }

  // With a step of two or more, one of two neighbouring NULs is not visited,
  // so neither pass can remove the end of the text.
  lemma EndSurvives(text: seq<bv8>, seed1: bv8, seed2: bv8, step: nat)
    requires EndsInTwoNuls(text) && step >= 2
    ensures NulAhead(text, 0) && NulAhead(Flipped(text, seed1, step), 0)
    ensures NulAhead(Flipped(Flipped(text, seed1, step), seed2, step), 0)
  {
    hide Flip;
    var n := |text| - 2;
    assert text[n] == 0;
    var j := if n % step == 0 then n + 1 else n;
    if n % step == 0 {
      NotVisited(n, step, n + 1);
    }
    assert Flipped(text, seed1, step)[j] == 0;
    assert Flipped(Flipped(text, seed1, step), seed2, step)[j] == 0;
  }

  // ---- The benchmark ----

  function Wrap32(n: nat): bv32 { Words.Long(n % 0x1_0000_0000) }

  // What the CRC of the counters is taken of.
  function CountsMessage(finals: seq<nat>, tracks: seq<nat>, n: nat): (message: seq<bv8>)
    requires n <= |finals| && n <= |tracks|
    ensures |message| == 8 * n
  {
    if n == 0 then []
    else
      CountsMessage(finals, tracks, n - 1) + (Crc.Bytes32(Wrap32(finals[n - 1])) + Crc.Bytes32(Wrap32(tracks[n - 1])))
  }

  lemma WrapIs(n: nat)
    ensures Wrap32(n) as nat == n % 0x1_0000_0000
  {
    hide Words.Long;
    Words.LongOfNumber(n % 0x1_0000_0000);
  }

  lemma WrapKeepsBits(n: nat, b: nat)
    requires b < 32
    ensures Wrap32(n) as nat / Arith.Pow2(b) % 2 == n / Arith.Pow2(b) % 2
  {
    hide Arith.Pow2, Wrap32;
    Pow32();
    WrapIs(n);
    Arith.BitsJoin(n % 0x1_0000_0000, n / 0x1_0000_0000, 32, b);
  }

  lemma Pow32()
    ensures Arith.Pow2(32) == 0x1_0000_0000
  {
    Crc.PlaceValues();
    assert Arith.Pow2(20) == 0x10_0000;
    assert Arith.Pow2(24) == 0x100_0000;
    assert Arith.Pow2(28) == 0x1000_0000;
  }

  // Bit b of each counter, the final counts before the transitions, in the
  // order of the states: 64 bits for each state.
  lemma {:induction false} CountsMessageMeans(finals: seq<nat>, tracks: seq<nat>, n: nat, i: nat, b: nat)
    requires i < n <= |finals| && n <= |tracks| && b < 32
    ensures Crc.MessageBits(CountsMessage(finals, tracks, n))[64 * i + b] <==> finals[i] / Arith.Pow2(b) % 2 == 1
    ensures Crc.MessageBits(CountsMessage(finals, tracks, n))[64 * i + 32 + b] <==> tracks[i] / Arith.Pow2(b) % 2 == 1
    decreases n
  {
    hide Crc.MessageBits, Crc.Bytes32, Wrap32, Arith.Pow2;
    var front, last := CountsMessage(finals, tracks, n - 1), Crc.Bytes32(Wrap32(finals[n - 1]));
    var track := Crc.Bytes32(Wrap32(tracks[n - 1]));
    Crc.MessageBitsConcat(front, last + track);
    Crc.MessageBitsConcat(last, track);
    Crc.Bytes32Mean(Wrap32(finals[n - 1]), b);
    Crc.Bytes32Mean(Wrap32(tracks[n - 1]), b);
    WrapKeepsBits(finals[n - 1], b);
    WrapKeepsBits(tracks[n - 1], b);
    if i < n - 1 {
      CountsMessageMeans(finals, tracks, n - 1, i, b);
    }
  }

  // The next two counters extend the message.
  lemma CountsCrcStep(finals: seq<nat>, tracks: seq<nat>, i: nat, crc: bv16)
    requires i < |finals| && i < |tracks|
    ensures Crc.CrcBytes(CountsMessage(finals, tracks, i + 1), crc) ==
            Crc.CrcBytes(Crc.Bytes32(Wrap32(tracks[i])),
                         Crc.CrcBytes(Crc.Bytes32(Wrap32(finals[i])),
                                      Crc.CrcBytes(CountsMessage(finals, tracks, i), crc)))
  {
    hide Crc.CrcBytes, Crc.Bytes32, Wrap32;
    var front := CountsMessage(finals, tracks, i);
    Crc.CrcBytesConcat(front, Crc.Bytes32(Wrap32(finals[i])) + Crc.Bytes32(Wrap32(tracks[i])), crc);
    Crc.CrcBytesConcat(Crc.Bytes32(Wrap32(finals[i])), Crc.Bytes32(Wrap32(tracks[i])), Crc.CrcBytes(front, crc));
  }

  lemma NoCounts(finals: seq<nat>, tracks: seq<nat>, crc: bv16)
    ensures Crc.CrcBytes(CountsMessage(finals, tracks, 0), crc) == crc
  {
  }

  // What the counters hold after both scans.
  ghost predicate CountersOf(finals: seq<nat>, tracks: seq<nat>, text: seq<bv8>, corrupted: seq<bv8>)
    requires NulAhead(text, 0) && NulAhead(corrupted, 0)
  {
    && |finals| == NUM_CORE_STATES && |tracks| == NUM_CORE_STATES
    && forall k :: finals[Index(k)] == Finals(Tokens(text, 0), k) + Finals(Tokens(corrupted, 0), k)
                && tracks[Index(k)] ==
                     ChargeSum(text, Tokens(text, 0), k) + ChargeSum(corrupted, Tokens(corrupted, 0), k)
  }

  // The seeds are the low bytes of the 16-bit seeds; both scans must find a
  // NUL inside the block.
  method CoreBenchState(blksize: nat, memblock: array<bv8>, seed1: bv8, seed2: bv8, step: nat, crc0: bv16)
    returns (crc: bv16, finals: array<nat>, tracks: array<nat>)
    requires blksize == memblock.Length && step > 0
    requires NulAhead(memblock[..], 0) && NulAhead(Flipped(memblock[..], seed1, step), 0)
    modifies memblock
    ensures memblock[..] == Flipped(Flipped(old(memblock[..]), seed1, step), seed2, step)
    ensures fresh(finals) && fresh(tracks)
    ensures CountersOf(finals[..], tracks[..], old(memblock[..]), Flipped(old(memblock[..]), seed1, step))
    ensures crc == Crc.CrcBytes(CountsMessage(finals[..], tracks[..], NUM_CORE_STATES), crc0)
  {
    hide Flipped, Tokens, Finals, ChargeSum, NulAhead, Crc.CrcBytes, Crc.Bytes32, Wrap32, CountsMessage;
    finals := new nat[NUM_CORE_STATES](_ => 0);
    tracks := new nat[NUM_CORE_STATES](_ => 0);
    ScanAll(memblock, finals, tracks);
    Corrupt(memblock, blksize, seed1, step);
    ScanAll(memblock, finals, tracks);
    Corrupt(memblock, blksize, seed2, step);
    ghost var restored := memblock[..];
    ghost var ends, all := finals[..], tracks[..];
    crc := crc0;
    NoCounts(ends, all, crc0);
    for i := 0 to NUM_CORE_STATES
      invariant memblock[..] == restored && finals[..] == ends && tracks[..] == all
      invariant crc == Crc.CrcBytes(CountsMessage(finals[..], tracks[..], i), crc0)
    {
      CountsCrcStep(ends, all, i, crc0);
      crc := Crc.Crcu32(Wrap32(finals[i]), crc);
      crc := Crc.Crcu32(Wrap32(tracks[i]), crc);
    }
  }

  // ---- Building the text ----

  const INT_PATTERNS: seq<seq<bv8>> := [
    [53, 48, 49, 50],
    [49, 50, 51, 52],
    [45, 56, 55, 52],
    [43, 49, 50, 50]
  ] // "5012"  "1234"  "-874"  "+122"

  const FLOAT_PATTERNS: seq<seq<bv8>> := [
    [51, 53, 46, 53, 52, 52, 48, 48],
    [46, 49, 50, 51, 52, 53, 48, 48],
    [45, 49, 49, 48, 46, 55, 48, 48],
    [43, 48, 46, 54, 52, 52, 48, 48]
  ] // "35.54400"  ".1234500"  "-110.700"  "+0.64400"

  const SCI_PATTERNS: seq<seq<bv8>> := [
    [53, 46, 53, 48, 48, 101, 43, 51],
    [45, 46, 49, 50, 51, 101, 45, 50],
    [45, 56, 55, 101, 43, 56, 51, 50],
    [43, 48, 46, 54, 101, 45, 49, 50]
  ] // "5.500e+3"  "-.123e-2"  "-87e+832"  "+0.6e-12"

  const ERR_PATTERNS: seq<seq<bv8>> := [
    [84, 48, 46, 51, 101, 45, 49, 70],
    [45, 84, 46, 84, 43, 43, 84, 113],
    [49, 84, 51, 46, 52, 101, 52, 122],
    [51, 52, 46, 48, 101, 45, 84, 94]
  ] // "T0.3e-1F"  "-T.T++Tq"  "1T3.4e4z"  "34.0e-T^"

  // (seed & 7) selects the kind, (seed >> 3) & 3 the pattern. The 16-bit seed
  // wraps at a multiple of 32, so an unbounded seed selects the same patterns.
  function Pattern(seed: int): (p: seq<bv8>)
    ensures |p| == 4 || |p| == 8
    ensures forall i :: 0 <= i < |p| ==> p[i] > 1 && p[i] != COMMA && p[i] != 57 && p[i] != 36
  {
    var kind, which := seed % 8, (seed / 8) % 4;
    if kind <= 2 then INT_PATTERNS[which]
    else if kind <= 4 then FLOAT_PATTERNS[which]
    else if kind <= 6 then SCI_PATTERNS[which]
    else ERR_PATTERNS[which]
  }

  // ---- The patterns are what they are meant to be ----

  lemma HalfWord(w: seq<bv8>, i: nat)
    requires i + 4 <= |w|
    ensures Word(w[0..i + 4]) == Next(Next(Next(Next(Word(w[0..i]), w[i]), w[i + 1]), w[i + 2]), w[i + 3])
  {
    hide Next, Word;
    WordMore(w, 0, i);
    WordMore(w, 0, i + 1);
    WordMore(w, 0, i + 2);
    WordMore(w, 0, i + 3);
  }

  lemma WordOfFour(w: seq<bv8>)
    requires |w| == 4
    ensures Word(w) == Next(Next(Next(Next(Start, w[0]), w[1]), w[2]), w[3])
  {
    hide Next;
    HalfWord(w, 0);
    assert w[0..4] == w && w[0..0] == [];
  }

  lemma WordOfEight(w: seq<bv8>)
    requires |w| == 8
    ensures var four := Next(Next(Next(Next(Start, w[0]), w[1]), w[2]), w[3]);
            Word(w) == Next(Next(Next(Next(four, w[4]), w[5]), w[6]), w[7])
  {
    hide Next;
    HalfWord(w, 0);
    HalfWord(w, 4);
    assert w[0..8] == w && w[0..0] == [];
  }

  lemma IntPattern(i: nat)
    requires i < 4
    ensures Word(INT_PATTERNS[i]) == Int
  {
    WordOfFour(INT_PATTERNS[i]);
  }

  lemma FloatPattern(i: nat)
    requires i < 4
    ensures Word(FLOAT_PATTERNS[i]) == Float
  {
    WordOfEight(FLOAT_PATTERNS[i]);
    hide Word;
  }

  lemma SciPattern(i: nat)
    requires i < 4
    ensures Word(SCI_PATTERNS[i]) == if i == 2 then Invalid else Scientific
  {
    WordOfEight(SCI_PATTERNS[i]);
    hide Word;
  }

  lemma ErrPattern(i: nat)
    requires i < 4
    ensures Word(ERR_PATTERNS[i]) == Invalid
  {
    WordOfEight(ERR_PATTERNS[i]);
    hide Word;
  }

  // Of eight seeds in a row three give integers, two floats, two scientific
  // numbers and one no number, except that "-87e+832" has no dot and is no
  // number for the scanner.
  lemma PatternMeans(seed: int)
    ensures seed % 8 <= 2 ==> IsInteger(Pattern(seed))
    ensures 3 <= seed % 8 <= 4 ==> IsFloat(Pattern(seed))
    ensures 5 <= seed % 8 <= 6 ==> (IsScientific(Pattern(seed)) <==> (seed / 8) % 4 != 2)
    ensures Means(Invalid, Pattern(seed)) <==> seed % 8 == 7 || (5 <= seed % 8 <= 6 && (seed / 8) % 4 == 2)
  {
    hide Word, IsInteger, IsFloat, IsScientific;
    var which := (seed / 8) % 4;
    IntPattern(which);
    FloatPattern(which);
    SciPattern(which);
    ErrPattern(which);
    MachineIsGrammar(Pattern(seed), Int);
    MachineIsGrammar(Pattern(seed), Float);
    MachineIsGrammar(Pattern(seed), Scientific);
    MachineIsGrammar(Pattern(seed), Invalid);
  }

  // Patterns for seed + 1, seed + 2, ..., each followed by a comma, as long as
  // they end before limit - 1.
  function Fill(limit: nat, total: nat, seed: int): (text: seq<bv8>)
    ensures text == [] || total + |text| < limit
    ensures forall i :: 0 <= i < |text| ==> text[i] > 1 && text[i] != 57 && text[i] != 36
    decreases limit - total
  {
    var p := Pattern(seed + 1);
    if total + |p| + 1 < limit then p + [COMMA] + Fill(limit, total + |p| + 1, seed + 1) else []
  }

  function InitText(size: nat, seed: int): (text: seq<bv8>)
    requires size > 0
    ensures |text| == size
    ensures forall i :: 0 <= i < size ==> text[i] != 1 && text[i] != 57 && text[i] != 36
  {
    Fill(size - 1, 0, seed) + Arith.Repeat(0, size - |Fill(size - 1, 0, seed)|)
  }

  // One pattern and its comma.
  method Append(p: array<bv8>, total: nat, buf: seq<bv8>)
    requires total + |buf| + 1 <= p.Length
    modifies p
    ensures p[..total + |buf| + 1] == old(p[..total]) + (buf + [COMMA])
  {
    ghost var before := p[..total];
    for i := 0 to |buf|
      invariant p[..total] == before
      invariant forall j :: 0 <= j < i ==> p[total + j] == buf[j]
    {
      p[total + i] := buf[i];
    }
    p[total + |buf|] := COMMA;
  }

  method ZeroFrom(p: array<bv8>, from: nat)
    requires from <= p.Length
    modifies p
    ensures p[..] == old(p[..from]) + Arith.Repeat(0, p.Length - from)
  {
    ghost var text := p[..from];
    var total := from;
    while total < p.Length
      invariant from <= total <= p.Length
      invariant p[..from] == text
      invariant forall j :: from <= j < total ==> p[j] == 0
    {
      p[total] := 0;
      total := total + 1;
    }
  }

  // The chosen pattern is written when it fits.
  method WritePattern(p: array<bv8>, limit: nat, total: nat, buf: seq<bv8>, seed: int,
                      ghost text: seq<bv8>, ghost goal: seq<bv8>)
    returns (ghost more: seq<bv8>)
    requires total + |buf| + 1 < limit < p.Length && buf == Pattern(seed) && p[..total] == text
    requires Filling(text, limit, total, |buf|, seed, goal)
    modifies p
    ensures p[..total + |buf| + 1] == more && Filling(more, limit, total + |buf| + 1, 0, seed, goal)
  {
    hide Pattern, Filling;
    Append(p, total, buf);
    FillWrites(text, limit, total, |buf|, seed, goal);
    more := text + (buf + [COMMA]);
  }

  // core_init_state: patterns as long as they fit, then NULs.
  method CoreInitState(size: nat, seed0: int, p: array<bv8>)
    requires size == p.Length && size > 0
    modifies p
    ensures p[..] == InitText(size, seed0)
  {
    hide Pattern, Fill, Filling, InitText;
    var limit := size - 1;
    var total: nat, next: nat, seed := 0, 0, seed0;
    var buf: seq<bv8> := [];
    ghost var goal := Fill(limit, 0, seed0);
    ghost var text: seq<bv8> := [];
    FillStarts(limit, seed0);
    while total + next + 1 < limit
      invariant total <= size && |buf| == next && p[..total] == text
      invariant if next == 0 then total == 0 else buf == Pattern(seed)
      invariant Filling(text, limit, total, next, seed, goal)
      decreases limit - total, if next == 0 then 1 else 0
    {
      if next > 0 {
        text := WritePattern(p, limit, total, buf, seed, text, goal);
        total := total + next + 1;
      }
      FillChooses(text, limit, total, seed, goal);
      seed := seed + 1;
      buf := Pattern(seed);
      next := |buf|;
    }
    FillEnds(text, limit, total, next, seed, goal);
    Finish(p, total, seed0);
  }

  // The rest of the block becomes NULs.
  method Finish(p: array<bv8>, total: nat, ghost seed0: int)
    requires total <= p.Length && p.Length > 0 && p[..total] == Fill(p.Length - 1, 0, seed0)
    modifies p
    ensures p[..] == InitText(p.Length, seed0)
  {
    hide Fill, InitText, Arith.Repeat;
    ZeroFrom(p, total);
    InitTextIs(p.Length, seed0);
  }

  lemma InitTextIs(size: nat, seed: int)
    requires size > 0
    ensures var text := Fill(size - 1, 0, seed);
            |text| <= size && InitText(size, seed) == text + Arith.Repeat(0, size - |text|)
  {
    hide Fill, Arith.Repeat;
  }

  // The text written so far and what is still to be written make up the goal.
  ghost predicate Filling(text: seq<bv8>, limit: nat, total: nat, next: nat, seed: int, goal: seq<bv8>) {
    text + (if next == 0 then Fill(limit, total, seed) else Fill(limit, total, seed - 1)) == goal
  }

  lemma FillStarts(limit: nat, seed: int)
    ensures Filling([], limit, 0, 0, seed, Fill(limit, 0, seed))
  {
  }

  lemma FillWrites(text: seq<bv8>, limit: nat, total: nat, next: nat, seed: int, goal: seq<bv8>)
    requires total + next + 1 < limit && next == |Pattern(seed)|
    requires Filling(text, limit, total, next, seed, goal)
    ensures Filling(text + (Pattern(seed) + [COMMA]), limit, total + next + 1, 0, seed, goal)
  {
    hide Pattern, Fill;
    FillStep(limit, total, seed - 1);
    Regroup(text, Pattern(seed) + [COMMA], Fill(limit, total + next + 1, seed));
  }

  lemma FillChooses(text: seq<bv8>, limit: nat, total: nat, seed: int, goal: seq<bv8>)
    requires Filling(text, limit, total, 0, seed, goal)
    ensures Filling(text, limit, total, |Pattern(seed + 1)|, seed + 1, goal)
  {
    hide Pattern, Fill;
  }

  lemma FillEnds(text: seq<bv8>, limit: nat, total: nat, next: nat, seed: int, goal: seq<bv8>)
    requires Filling(text, limit, total, next, seed, goal)
    requires total + next + 1 >= limit && (if next == 0 then total == 0 else next == |Pattern(seed)|)
    ensures text == goal
  {
    hide Pattern, Fill;
    FillStep(limit, total, seed - 1);
    NoRoom(limit, seed);
  }

  lemma Regroup(a: seq<bv8>, b: seq<bv8>, c: seq<bv8>)
    ensures a + (b + c) == (a + b) + c
  {
  }

  // A block of two bytes or less has room for no pattern.
  lemma NoRoom(limit: nat, seed: int)
    ensures limit <= 1 ==> Fill(limit, 0, seed) == []
  {
  }

  lemma FillStep(limit: nat, total: nat, seed: int)
    ensures var p := Pattern(seed + 1);
            Fill(limit, total, seed) ==
            if total + |p| + 1 < limit then p + [COMMA] + Fill(limit, total + |p| + 1, seed + 1) else []
  {
  }

  // The patterns of the n seeds after this one, each with its comma.
  function Patterns(seed: int, n: nat): seq<bv8> {
    if n == 0 then [] else Patterns(seed, n - 1) + (Pattern(seed + n) + [COMMA])
  }

  lemma {:induction false} FillGoesOn(limit: nat, seed: int, k: nat) returns (n: nat)
    ensures n >= k && Patterns(seed, k) + Fill(limit, |Patterns(seed, k)|, seed + k) == Patterns(seed, n)
    ensures n > k ==> |Patterns(seed, n)| < limit
    ensures |Patterns(seed, n + 1)| >= limit
    decreases limit - |Patterns(seed, k)|
  {
    hide Pattern, Fill;
    var written, p := Patterns(seed, k), Pattern(seed + (k + 1));
    FillStep(limit, |written|, seed + k);
    if |written| + |p| + 1 < limit {
      n := FillGoesOn(limit, seed, k + 1);
      Regroup(written, p + [COMMA], Fill(limit, |written| + |p| + 1, seed + (k + 1)));
    } else {
      n := k;
      assert written + [] == written;
    }
  }

  // The text is made of as many patterns as end before the last byte but one,
  // and NULs.
  lemma TextMeans(size: nat, seed: int) returns (n: nat)
    requires size > 0
    ensures var text := Patterns(seed, n);
            && |text| <= size && InitText(size, seed) == text + Arith.Repeat(0, size - |text|)
            && (n > 0 ==> |text| < size - 1)
            && |Patterns(seed, n + 1)| >= size - 1
  {
    hide *;
    n := FillGoesOn(size - 1, seed, 0);
    InitTextIs(size, seed);
    NoPatterns(size - 1, seed);
  }

  lemma NoPatterns(limit: nat, seed: int)
    ensures Patterns(seed, 0) == []
    ensures Patterns(seed, 0) + Fill(limit, 0, seed) == Fill(limit, 0, seed)
  {
    hide Pattern, Fill;
  }

  // The text built for any block of two bytes or more ends in two NULs.
  lemma InitEndsInTwoNuls(size: nat, seed: int)
    requires size >= 2
    ensures EndsInTwoNuls(InitText(size, seed))
  {
    hide Pattern;
    var t := Fill(size - 1, 0, seed);
    var z := Arith.Repeat(0, size - |t|);
    assert |t| <= size - 2;
    assert (t + z)[size - 1] == z[size - 1 - |t|] && (t + z)[size - 2] == z[size - 2 - |t|];
  }

  // For a built text the corrupted scan ends inside the block, whatever the
  // seed, exactly when the step is at least two: with a step of one, seed byte
  // 1 leaves no NUL.
  lemma StepTwoExactly(size: nat, textSeed: int, step: nat)
    requires size >= 2 && step > 0
    ensures (forall seed :: NulAhead(Flipped(InitText(size, textSeed), seed, step), 0)) <==> step >= 2
  {
    var text := InitText(size, textSeed);
    InitEndsInTwoNuls(size, textSeed);
    hide InitText, Flip;
    if step >= 2 {
      forall seed
        ensures NulAhead(Flipped(text, seed, step), 0)
      {
        EndSurvives(text, seed, seed, step);
      }
    } else {
      forall i | 0 <= i < |text|
        ensures Flipped(text, 1, step)[i] != 0
      {
        FlipByOne(text[i]);
      }
      assert !NulAhead(Flipped(text, 1, step), 0);
    }
  }

  lemma FlipByOne(b: bv8)
    ensures Flip(b, 1) == 0 <==> b == 1
  {
  }

  // ---- Any number of calls ----

  type step = n: nat | n > 0 witness 1

  // One call after the other, each with its own step: calc_func takes the step
  // from the item it computes.
  function AfterCalls(text: seq<bv8>, seed1: bv8, seed2: bv8, steps: seq<step>): (r: seq<bv8>)
    ensures |r| == |text|
  {
    if steps == [] then text
    else
      var n := |steps| - 1;
      Flipped(Flipped(AfterCalls(text, seed1, seed2, steps[..n]), seed1, steps[n]), seed2, steps[n])
  }

  // Both scans of call k end inside the block.
  ghost predicate ScansEnd(text: seq<bv8>, seed1: bv8, seed2: bv8, steps: seq<step>, k: nat)
    requires k < |steps|
  {
    && NulAhead(AfterCalls(text, seed1, seed2, steps[..k]), 0)
    && NulAhead(Flipped(AfterCalls(text, seed1, seed2, steps[..k]), seed1, steps[k]), 0)
  }

  ghost predicate AllScansEnd(text: seq<bv8>, seed1: bv8, seed2: bv8, steps: seq<step>) {
    forall k: nat :: k < |steps| ==> ScansEnd(text, seed1, seed2, steps, k)
  }

  predicate Visits(steps: seq<step>, i: nat) {
    exists k :: 0 <= k < |steps| && i % steps[k] == 0
  }

  lemma {:induction false} UnvisitedStays(text: seq<bv8>, seed1: bv8, seed2: bv8, steps: seq<step>, j: nat)
    requires j < |text| && !Visits(steps, j)
    ensures AfterCalls(text, seed1, seed2, steps)[j] == text[j]
    decreases |steps|
  {
    hide Flip;
    if steps != [] {
      var n := |steps| - 1;
      PrefixVisits(steps, n, j);
      UnvisitedStays(text, seed1, seed2, steps[..n], j);
    }
  }

  lemma PrefixVisits(steps: seq<step>, n: nat, i: nat)
    requires n <= |steps|
    ensures Visits(steps[..n], i) ==> Visits(steps, i)
    ensures n + 1 == |steps| ==> (Visits(steps, i) <==> Visits(steps[..n], i) || i % steps[n] == 0)
  {
    forall k | 0 <= k < n
      ensures steps[..n][k] == steps[k]
    {
    }
    if n + 1 == |steps| && Visits(steps, i) {
      var k :| 0 <= k < |steps| && i % steps[k] == 0;
      assert k == n || i % steps[..n][k] == 0;
    }
  }

  // A NUL that no call visits ends every scan.
  lemma UnvisitedNulEndsScans(text: seq<bv8>, seed1: bv8, seed2: bv8, steps: seq<step>, j: nat)
    requires j < |text| && text[j] == 0 && !Visits(steps, j)
    ensures AllScansEnd(text, seed1, seed2, steps)
    ensures NulAhead(AfterCalls(text, seed1, seed2, steps), 0)
  {
    hide Flip;
    forall k: nat | k < |steps|
      ensures ScansEnd(text, seed1, seed2, steps, k)
    {
      PrefixVisits(steps, k, j);
      UnvisitedStays(text, seed1, seed2, steps[..k], j);
      var now := AfterCalls(text, seed1, seed2, steps[..k]);
      assert now[j] == 0 && Flipped(now, seed1, steps[k])[j] == 0;
    }
    UnvisitedStays(text, seed1, seed2, steps, j);
  }

  // A text of n commas and two NULs under seed byte ',': what a call visits
  // turns into a comma for good.
  function CommaText(n: nat): (text: seq<bv8>)
    ensures |text| == n + 2
  {
    Arith.Repeat(COMMA, n) + [0, 0]
  }

  lemma {:induction false} VisitedTurnsComma(n: nat, seed2: bv8, steps: seq<step>, i: nat)
    requires i < n + 2
    ensures AfterCalls(CommaText(n), COMMA, seed2, steps)[i] == if i < n || Visits(steps, i) then COMMA else 0
    decreases |steps|
  {
    if steps != [] {
      var m := |steps| - 1;
      PrefixVisits(steps, m, i);
      VisitedTurnsComma(n, seed2, steps[..m], i);
    }
  }

  ghost predicate EndsForAll(n: nat, steps: seq<step>) {
    forall text: seq<bv8>, seed1, seed2 :: |text| == n + 2 && EndsInTwoNuls(text) ==>
        AllScansEnd(text, seed1, seed2, steps)
  }

  // The calls' steps are safe for every text of n + 2 bytes that ends in two
  // NULs, and for all seeds, exactly when they do not visit both NULs.
  lemma SafeStepsExactly(n: nat, steps: seq<step>)
    ensures EndsForAll(n, steps) <==> !(Visits(steps, n) && Visits(steps, n + 1))
  {
    hide Visits, ScansEnd, AllScansEnd;
    if Visits(steps, n) && Visits(steps, n + 1) {
      VisitedBoth(n, steps);
      assert EndsInTwoNuls(CommaText(n));
    } else {
      var j := if Visits(steps, n) then n + 1 else n;
      forall text: seq<bv8>, seed1, seed2 | |text| == n + 2 && EndsInTwoNuls(text)
        ensures AllScansEnd(text, seed1, seed2, steps)
      {
        UnvisitedNulEndsScans(text, seed1, seed2, steps, j);
      }
    }
  }

  lemma VisitedBoth(n: nat, steps: seq<step>)
    requires Visits(steps, n) && Visits(steps, n + 1)
    ensures !AllScansEnd(CommaText(n), COMMA, COMMA, steps)
  {
    var m := |steps| - 1;
    var now := AfterCalls(CommaText(n), COMMA, COMMA, steps[..m]);
    forall i: nat | i < n + 2
      ensures Flipped(now, COMMA, steps[m])[i] == COMMA
    {
      PrefixVisits(steps, m, i);
      VisitedTurnsComma(n, COMMA, steps[..m], i);
    }
    assert !ScansEnd(CommaText(n), COMMA, COMMA, steps, m);
  }

  // Steps with a common divisor of at least two are safe for every length.
  lemma EveryCallEnds(text: seq<bv8>, seed1: bv8, seed2: bv8, steps: seq<step>, z: nat)
    requires EndsInTwoNuls(text) && z >= 2 && forall a <- steps :: a % z == 0
    ensures AllScansEnd(text, seed1, seed2, steps)
  {
    hide ScansEnd, AllScansEnd;
    var n: nat := |text| - 2;
    SafeStepsExactly(n, steps);
    forall i: nat | Visits(steps, i)
      ensures i % z == 0
    {
      var k :| 0 <= k < |steps| && i % steps[k] == 0;
      assert steps[k] in steps;
      Multiple(i, steps[k], z);
    }
    if n % z == 0 {
      NotVisited(n, z, n + 1);
    }
  }

  lemma Multiple(i: nat, a: nat, z: nat)
    requires a > 0 && z > 0 && i % a == 0 && a % z == 0
    ensures i % z == 0
  {
    assert i == i / a * a && a == a / z * z;
    assert i == i / a * (a / z) * z;
    Arith.DivMul(i / a * (a / z), z);
  }

  // The calls of calc_func: every scan of every call ends inside the block,
  // whatever items are computed and whatever the seeds are.
  lemma CalcFuncCallsEnd(text: seq<bv8>, seed1: bv8, seed2: bv8, items: seq<ListNodes.u16>)
    requires EndsInTwoNuls(text)
    ensures AllScansEnd(text, seed1, seed2, StepsOf(items))
  {
    EveryCallEnds(text, seed1, seed2, StepsOf(items), 17);
  }

  function StepsOf(items: seq<ListNodes.u16>): (steps: seq<step>)
    ensures |steps| == |items| && forall k :: 0 <= k < |items| ==> steps[k] == ListNodes.StateStep(items[k])
  {
    seq(|items|, k requires 0 <= k < |items| => ListNodes.StateStep(items[k]))
  }

  // ---- Any steps from two on ----

  ghost predicate EndsForAnySteps(seed1: bv8, seed2: bv8) {
    forall text: seq<bv8>, steps: seq<step> :: EndsInTwoNuls(text) && (forall a <- steps :: a >= 2) ==>
      AllScansEnd(text, seed1, seed2, steps)
  }

  lemma {:induction false} EndRestored(text: seq<bv8>, seed: bv8, steps: seq<step>)
    requires EndsInTwoNuls(text) && seed != COMMA
    ensures EndsInTwoNuls(AfterCalls(text, seed, seed, steps))
    decreases |steps|
  {
    hide Flip;
    if steps != [] {
      EndRestored(text, seed, steps[..|steps| - 1]);
      FlipTwice(0, seed, seed);
      assert 0 ^ seed == seed;
    }
  }

  ghost predicate EndsForBuiltTexts(seed1: bv8, seed2: bv8) {
    forall size: nat, textSeed: int, steps: seq<step> :: size >= 2 && (forall a <- steps :: a >= 2) ==>
      AllScansEnd(InitText(size, textSeed), seed1, seed2, steps)
  }

  // With steps that differ from call to call, all scans of all texts end inside
  // the block exactly when the two seed bytes agree and are not a comma. Asking
  // it of the built texts only changes nothing.
  lemma AnyStepsExactly(seed1: bv8, seed2: bv8)
    ensures EndsForAnySteps(seed1, seed2) <==> seed1 == seed2 && seed1 != COMMA
    ensures EndsForBuiltTexts(seed1, seed2) <==> seed1 == seed2 && seed1 != COMMA
  {
    hide AllScansEnd, InitText, EndsInTwoNuls;
    if seed1 == seed2 && seed1 != COMMA {
      forall text: seq<bv8>, steps: seq<step> | EndsInTwoNuls(text) && (forall a <- steps :: a >= 2)
        ensures AllScansEnd(text, seed1, seed2, steps)
      {
        EqualSeedsEnd(text, seed1, steps);
      }
      forall size: nat, textSeed: int, steps: seq<step> | size >= 2 && (forall a <- steps :: a >= 2)
        ensures AllScansEnd(InitText(size, textSeed), seed1, seed2, steps)
      {
        InitEndsInTwoNuls(size, textSeed);
      }
    } else {
      UnequalSeedsFail(seed1, seed2);
      InitEndsInTwoNuls(7, 31);
      assert forall a <- [5, 6, 7] :: a >= 2;
    }
  }

  lemma EqualSeedsEnd(text: seq<bv8>, seed: bv8, steps: seq<step>)
    requires EndsInTwoNuls(text) && seed != COMMA && forall a <- steps :: a >= 2
    ensures AllScansEnd(text, seed, seed, steps)
  {
    hide AfterCalls, EndsInTwoNuls, NulAhead, Flipped;
    forall k: nat | k < |steps|
      ensures ScansEnd(text, seed, seed, steps, k)
    {
      EndRestored(text, seed, steps[..k]);
      assert steps[k] in steps;
      EndSurvives(AfterCalls(text, seed, seed, steps[..k]), seed, seed, steps[k]);
    }
  }

  // The built text "5012," with its two NULs, and steps 5, 6 and 7: the first call
  // spoils one NUL, the second call the other, and neither leaves a NUL in front.
  lemma UnequalSeedsFail(seed1: bv8, seed2: bv8)
    requires seed1 != seed2 || seed1 == COMMA
    ensures !AllScansEnd(InitText(7, 31), seed1, seed2, [5, 6, 7])
  {
    var steps: seq<step> := [5, 6, 7];
    var text := InitText(7, 31);
    var once, twice := AfterCalls(text, seed1, seed2, [5]), AfterCalls(text, seed1, seed2, [5, 6]);
    var v, front := FlipBoth(0, seed1, seed2), FlipBoth(53, seed1, seed2);
    hide Flipped, FlipBoth, Flip, InitText, Shaped;
    BuiltText();
    assert AfterCalls(text, seed1, seed2, []) == text;
    assert [5][..0] == [] && [5, 6][..1] == [5] && steps[..2] == [5, 6];
    CallFlips(text, 53, 0, 0, seed1, seed2);
    CallFlips(once, front, v, 0, seed1, seed2);
    NoNulLeft(twice, seed1, seed2);
    hide AfterCalls;
    assert !ScansEnd(text, seed1, seed2, steps, 2);
  }

  function FlipBoth(b: bv8, seed1: bv8, seed2: bv8): bv8 {
    Flip(Flip(b, seed1), seed2)
  }

  // "5012," with other bytes in the places that steps 5 and 6 visit.
  predicate Shaped(text: seq<bv8>, front: bv8, x: bv8, y: bv8) {
    text == [front, 48, 49, 50, COMMA, x, y]
  }

  lemma BuiltText()
    ensures Shaped(InitText(7, 31), 53, 0, 0)
  {
    assert Pattern(32) == [53, 48, 49, 50];
    FillStep(6, 0, 31);
    FillStep(6, 5, 32);
    hide Fill, Pattern;
    assert Fill(6, 0, 31) == [53, 48, 49, 50] + [COMMA] + Fill(6, 5, 32);
    assert Fill(6, 5, 32) == [];
  }

  // A pass with step 5 flips the bytes 0 and 5, one with step 6 the bytes 0 and 6.
  lemma PassFlips(text: seq<bv8>, front: bv8, x: bv8, y: bv8, seed: bv8)
    requires Shaped(text, front, x, y)
    ensures Shaped(Flipped(text, seed, 5), Flip(front, seed), Flip(x, seed), y)
    ensures Shaped(Flipped(text, seed, 6), Flip(front, seed), x, Flip(y, seed))
  {
    hide Flip;
  }

  lemma CallFlips(text: seq<bv8>, front: bv8, x: bv8, y: bv8, seed1: bv8, seed2: bv8)
    requires Shaped(text, front, x, y)
    ensures Shaped(Flipped(Flipped(text, seed1, 5), seed2, 5), FlipBoth(front, seed1, seed2),
                   FlipBoth(x, seed1, seed2), y)
    ensures Shaped(Flipped(Flipped(text, seed1, 6), seed2, 6), FlipBoth(front, seed1, seed2),
                   x, FlipBoth(y, seed1, seed2))
  {
    hide Flip, Flipped, Shaped;
    PassFlips(text, front, x, y, seed1);
    PassFlips(Flipped(text, seed1, 5), Flip(front, seed1), Flip(x, seed1), y, seed2);
    PassFlips(Flipped(text, seed1, 6), Flip(front, seed1), x, Flip(y, seed1), seed2);
  }

  lemma NoNulLeft(text: seq<bv8>, seed1: bv8, seed2: bv8)
    requires seed1 != seed2 || seed1 == COMMA
    requires var v := FlipBoth(0, seed1, seed2);
             Shaped(text, FlipBoth(FlipBoth(53, seed1, seed2), seed1, seed2), v, v)
    ensures !NulAhead(text, 0)
  {
    FlipsKeepFront(seed1, seed2);
    hide FlipBoth;
  }

  lemma FlipsKeepFront(seed1: bv8, seed2: bv8)
    ensures FlipBoth(FlipBoth(53, seed1, seed2), seed1, seed2) != 0
    ensures seed1 != seed2 || seed1 == COMMA ==> FlipBoth(0, seed1, seed2) != 0
  {
  }

  // ---- Restored by every call ----

  predicate AllSurvive(text: seq<bv8>, seed1: bv8, seed2: bv8, step: step) {
    forall i: nat :: i < |text| && i % step == 0 ==> Survives(text, seed1, seed2, i)
  }

  // Every call leaves the text as it was exactly when every byte that any call
  // visits survives.
  lemma RestoredForever(text: seq<bv8>, seed1: bv8, seed2: bv8, steps: seq<step>)
    ensures (forall k :: 0 <= k <= |steps| ==> AfterCalls(text, seed1, seed2, steps[..k]) == text)
       <==> forall k :: 0 <= k < |steps| ==> AllSurvive(text, seed1, seed2, steps[k])
  {
    hide AllSurvive, AfterCalls, Flipped;
    if forall k :: 0 <= k < |steps| ==> AllSurvive(text, seed1, seed2, steps[k]) {
      forall k | 0 <= k <= |steps|
        ensures AfterCalls(text, seed1, seed2, steps[..k]) == text
      {
        RestoredUpTo(text, seed1, seed2, steps, k);
      }
    }
    if forall k :: 0 <= k <= |steps| ==> AfterCalls(text, seed1, seed2, steps[..k]) == text {
      forall k | 0 <= k < |steps|
        ensures AllSurvive(text, seed1, seed2, steps[k])
      {
        OneMoreCall(text, seed1, seed2, steps, k);
        OneCallRestores(text, seed1, seed2, steps[k]);
        assert AfterCalls(text, seed1, seed2, steps[..k + 1]) == text;
      }
    }
  }

  lemma OneMoreCall(text: seq<bv8>, seed1: bv8, seed2: bv8, steps: seq<step>, k: nat)
    requires k < |steps|
    ensures AfterCalls(text, seed1, seed2, steps[..k + 1]) ==
            Flipped(Flipped(AfterCalls(text, seed1, seed2, steps[..k]), seed1, steps[k]), seed2, steps[k])
  {
    hide Flipped;
    assert steps[..k + 1][..k] == steps[..k];
  }

  lemma OneCallRestores(text: seq<bv8>, seed1: bv8, seed2: bv8, step: step)
    ensures Flipped(Flipped(text, seed1, step), seed2, step) == text <==> AllSurvive(text, seed1, seed2, step)
  {
    RestoredExactly(text, seed1, seed2, step);
  }

  lemma {:induction false} RestoredUpTo(text: seq<bv8>, seed1: bv8, seed2: bv8, steps: seq<step>, k: nat)
    requires k <= |steps| && forall j :: 0 <= j < |steps| ==> AllSurvive(text, seed1, seed2, steps[j])
    ensures AfterCalls(text, seed1, seed2, steps[..k]) == text
  {
    hide AllSurvive, Flipped;
    if k > 0 {
      RestoredUpTo(text, seed1, seed2, steps, k - 1);
      OneMoreCall(text, seed1, seed2, steps, k - 1);
      OneCallRestores(text, seed1, seed2, steps[k - 1]);
    }
  }

  // The seed bytes of the performance, validation and profiling runs (0, 0x15
  // and 0x08) never turn a byte of the built text into a comma: every call,
  // whatever its step, leaves the text as it was built.
  lemma {:induction false} SuiteSeedsRestore(size: nat, textSeed: int, seed: bv8, steps: seq<step>, k: nat)
    requires size > 0 && k <= |steps|
    requires seed == 0 || seed == 0x15 || seed == 0x08
    ensures AfterCalls(InitText(size, textSeed), seed, seed, steps[..k]) == InitText(size, textSeed)
  {
    var text := InitText(size, textSeed);
    hide InitText;
    forall i: nat | i < |text|
      ensures Survives(text, seed, seed, i)
    {
      OnlyFrom(text[i], seed);
    }
    assert forall j :: 0 <= j < |steps| ==> AllSurvive(text, seed, seed, steps[j]);
    RestoredForever(text, seed, seed, steps);
  }

  // The one byte each of these seeds turns into a comma.
  lemma OnlyFrom(b: bv8, seed: bv8)
    ensures b ^ seed == COMMA <==> b == COMMA ^ seed
    ensures COMMA ^ 0 == COMMA && COMMA ^ 0x15 == 57 && COMMA ^ 0x08 == 36
  {
  }
}
