// Which line a cache replaces: the linear feedback shift register, and the slot
// or the rank it selects.

module CacheVictims {
  import Arith
  import opened CacheChain
  import opened CacheTags

  // ---- The linear feedback shift register ----

  function NextReg(reg: bv32): bv32 {
    (reg >> 1) ^ (if reg & 1 == 1 then 0xd0000001 else 0)
  }

  // One draw shifts down by one bit; the bit that falls out flips bits 31, 30,
  // 28 and 0.
  lemma DrawMeans(reg: bv32)
    ensures var one: bv32 := 1;
            NextReg(reg) ^ (reg >> 1) ==
            if reg & 1 == 0 then 0 else (one << 31) | (one << 30) | (one << 28) | one
  {
  }

  // The register never sticks at zero, and no state has two predecessors.
  lemma NeverZero(reg: bv32)
    requires reg != 0
    ensures NextReg(reg) != 0
  {
  }

  lemma NextRegInjective(a: bv32, b: bv32)
    requires NextReg(a) == NextReg(b)
    ensures a == b
  {
  }

  function Draws(reg: bv32, n: nat): bv32 {
    if n == 0 then reg else NextReg(Draws(reg, n - 1))
  }

  lemma {:induction false} Cancel(reg: bv32, i: nat, n: nat)
    requires Draws(reg, i) == Draws(reg, i + n)
    ensures Draws(reg, n) == reg
    decreases i
  {
    hide NextReg;
    if i > 0 {
      NextRegInjective(Draws(reg, i - 1), Draws(reg, i + n - 1));
      Cancel(reg, i - 1, n);
    }
  }

  const STATES := 0x1_0000_0000

  function Number(reg: bv32): (n: nat)
    ensures n < STATES
  {
    reg as nat
  }

  lemma SameNumber(a: bv32, b: bv32)
    requires Number(a) == Number(b)
    ensures a == b
  {
    assert (a as nat) as bv32 == a && (b as nat) as bv32 == b;
  }

  lemma {:induction false} CountBelow(s: set<nat>, n: nat)
    requires forall x <- s :: x < n
    ensures |s| <= n
  {
    if n == 0 {
      assert s == {};
    } else {
      CountBelow(s - {n - 1}, n - 1);
    }
  }

  function Seen(reg: bv32, n: nat): (s: set<nat>)
    ensures forall x <- s :: x < STATES
  {
    set i | 0 <= i < n :: Number(Draws(reg, i))
  }

  lemma SeenGrows(reg: bv32, n: nat)
    ensures Seen(reg, n + 1) == Seen(reg, n) + {Number(Draws(reg, n))}
  {
    hide Number, Draws;
  }

  // Up to the first return every draw is new.
  lemma {:induction false} AllNew(reg: bv32, n: nat)
    requires forall k: nat :: 0 < k < n ==> Draws(reg, k) != reg
    ensures |Seen(reg, n)| == n
  {
    hide Number, Draws;
    if n == 0 {
      assert Seen(reg, 0) == {};
    } else {
      AllNew(reg, n - 1);
      SeenGrows(reg, n - 1);
      forall i: nat | i < n - 1
        ensures Number(Draws(reg, i)) != Number(Draws(reg, n - 1))
      {
        DrawsDiffer(reg, i, n - 1 - i);
        assert i + (n - 1 - i) == n - 1;
      }
      assert Number(Draws(reg, n - 1)) !in Seen(reg, n - 1);
    }
  }

  lemma DrawsDiffer(reg: bv32, i: nat, n: nat)
    requires Draws(reg, n) != reg
    ensures Number(Draws(reg, i)) != Number(Draws(reg, i + n))
  {
    hide Number, Draws;
    if Number(Draws(reg, i)) == Number(Draws(reg, i + n)) {
      SameNumber(Draws(reg, i), Draws(reg, i + n));
      Cancel(reg, i, n);
    }
  }

  // Every state of the register comes back.
  lemma EveryStateReturns(reg: bv32)
    ensures exists n: nat :: n > 0 && Draws(reg, n) == reg
  {
    hide Draws;
    if forall n: nat :: n > 0 ==> Draws(reg, n) != reg {
      AllNew(reg, STATES + 1);
      CountBelow(Seen(reg, STATES + 1), STATES);
    }
  }

  // ---- Where the lines sit ----

  // The line in each slot of a tag array; -1 for a word that is not valid.
  function Places(T: seq<nat>): (p: seq<int>)
    ensures |p| == |T|
  {
    seq(|T|, i requires 0 <= i < |T| => if IsValid(T[i]) then LineIn(T[i]) else -1)
  }

  lemma InPlaces(T: seq<nat>, l: nat)
    ensures l in Places(T) <==> l in LinesOf(T)
  {
    hide IsValid, LineIn, IsDirty;
    if l in LinesOf(T) {
      var i :| 0 <= i < |T| && IsValid(T[i]) && LineIn(T[i]) == l;
      assert Places(T)[i] == l;
    }
  }

  lemma InstallPlaces(T: seq<nat>, i: nat, l: nat)
    requires i < |T| && l < DIRTY
    ensures Places(T[i := TagOf(l)]) == Places(T)[i := l]
  {
    WordOfLine(l);
    hide IsValid, LineIn, IsDirty, TagOf;
  }

  lemma MarkPlaces(T: seq<nat>, i: nat)
    requires i < |T| && T[i] < WORD
    ensures Places(T[i := SetBit(T[i], DIRTY)]) == Places(T)
  {
    DirtyWord(T[i]);
    hide IsValid, LineIn, IsDirty, SetBit;
  }

  // The lines of a cache with what decides the next victim: their slots, or
  // their order.
  datatype Placement = Ways(places: seq<int>, reg: bv32) | Table(keys: set<nat>, reg: bv32) {
    predicate Has(l: nat) {
      if Ways? then l in places else l in keys
    }
  }

  function Smaller(keys: set<nat>, k: nat): set<nat> {
    set j | j in keys && j < k
  }

  // What a constructor leaves.
  function NoSeats(g: Geometry, fully: bool): Placement {
    if fully then Table({}, 1) else Ways(Arith.Repeat(-1, g.sets * g.ways), 1)
  }

  // A request for line l: nothing moves on a hit; on a miss the array draws a
  // slot of the line's set, and the full map draws a rank.
  ghost predicate Moves(before: Placement, g: Geometry, l: nat, after: Placement)
    requires g.Good()
  {
    if before.Has(l) then after == before
    else
      match before
      case Ways(places, reg) =>
        && |places| == g.sets * g.ways
        && after == Ways(places[SlotOf(g, l, Number(NextReg(reg))) := l], NextReg(reg))
      case Table(keys, reg) =>
        if |keys| == g.ways then
          exists k <- keys ::
            && |Smaller(keys, k)| == Number(NextReg(reg)) % g.ways
            && after == Table(keys - {k} + {l}, NextReg(reg))
        else
          after == Table(keys + {l}, reg)
  }

  lemma TableDraws(g: Geometry, keys: set<nat>, reg: bv32, l: nat, k: nat)
    requires g.Good() && l !in keys && |keys| == g.ways && k in keys
    requires |Smaller(keys, k)| == Number(NextReg(reg)) % g.ways
    ensures Moves(Table(keys, reg), g, l, Table(keys - {k} + {l}, NextReg(reg)))
  {
    hide Smaller, Number, NextReg;
  }

  lemma TableGrows(g: Geometry, keys: set<nat>, reg: bv32, l: nat)
    requires g.Good() && l !in keys && |keys| != g.ways
    ensures Moves(Table(keys, reg), g, l, Table(keys + {l}, reg))
  {
    hide Smaller, Number, NextReg;
  }

  lemma StayPut(seats: Placement, g: Geometry, l: nat)
    requires g.Good() && seats.Has(l)
    ensures Moves(seats, g, l, seats)
  {
  }
}
