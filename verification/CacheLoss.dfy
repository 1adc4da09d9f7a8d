// What cannot be kept is lost by the caches themselves: two objects, 64-bit
// addresses, and the victims that the shift register draws.

module CacheLoss {
  import Arith
  import opened CacheChain
  import opened CacheTags
  import opened CacheVictims
  import opened CacheWidths
  import opened CacheSim

  // construct() for both levels, then set_miss_handler().
  method Pair(upper: Geometry, lower: Geometry) returns (cache: Cache)
    requires Accepted(upper) && Accepted(lower) && upper.ways > 0 && lower.ways > 0
    ensures fresh(cache.Repr) && cache.Valid() && cache.g == upper
    ensures cache.fully == (upper.ways > 4 && upper.sets == 1)
    ensures cache.Chain() == TwoLevels(upper, lower) && cache.Seats() == NoSeats(upper, cache.fully)
  {
    hide Cache.Own, Cache.Seats, LinesIn, LinesOf;
    cache := Cache.Construct(upper.sets, upper.ways, upper.linesz);
    var handler := Cache.Construct(lower.sets, lower.ways, lower.linesz);
    cache.SetMissHandler(handler);
  }

  // The objects have taken `run` from fresh, with one store, at position p.
  ghost predicate Taken(cache: Cache, c: Chain, run: seq<Trace>, p: nat)
    reads cache, cache.Repr
    ensures Taken(cache, c, run, p) ==> cache.g.Good() && p < |RunLog(run)|
  {
    && cache.Valid() && FreshChain(c) && c.Cached? && c.level.geometry == cache.g
    && CanRun(c, run) && cache.Chain() == After(c, run)
    && Allowed(run, AlignedAccesses()) && OnlyStore(RunLog(run), p)
  }

  method FirstAccess(cache: Cache, r: Request, ghost c: Chain) returns (ghost run: seq<Trace>, ghost p: nat)
    requires cache.Valid() && cache.Chain() == c && FreshChain(c) && c.Cached?
    requires r.store && r.addr < WORD
    modifies cache.Repr
    ensures cache.Valid() && cache.Repr == old(cache.Repr)
    ensures |run| == 1 && run[0].req == r && CanRun(c, run) && cache.Chain() == After(c, run)
    ensures OnlyStore(RunLog(run), p) && RunLog(run)[p].req == r && p == |RunLog(run)| - 1
    ensures Moves(old(cache.Seats()), cache.g, cache.g.LineOf(r.addr), cache.Seats())
  {
    hide Cache.Own, Cache.Seats, Cache.Level, Moves, Can, Apply, CanRun, After, RunLog, Log, OnlyStore, FreshChain;
    ghost var t := cache.Access(r.addr, r.bytes, r.store);
    NoAccess(c);
    OneMoreAccess(c, [], t);
    run := [] + [t];
    p := LastIsOnlyStore(t);
    assert RunLog(run) == Log(t, 0);
  }

  // One load of line m, which is not the line stored to.
  method Load(cache: Cache, m: nat, ghost c: Chain, ghost run: seq<Trace>, ghost p: nat)
    returns (ghost more: seq<Trace>)
    requires Taken(cache, c, run, p) && LoadOf(cache.g, m) in AlignedAccesses()
    modifies cache.Repr
    ensures Taken(cache, c, more, p) && cache.Repr == old(cache.Repr)
    ensures RunLog(more)[p] == RunLog(run)[p]
    ensures Moves(old(cache.Seats()), cache.g, m, cache.Seats())
  {
    hide Cache.Own, Cache.Seats, Cache.Level, Moves, Can, Apply, CanRun, After, RunLog, Log, OnlyStore, FreshChain;
    hide Allowed;
    assert m * cache.g.linesz < WORD;
    ghost var t := cache.Access(m * cache.g.linesz, 1, false);
    Arith.DivMul(m, cache.g.linesz);
    assert t.req == LoadOf(cache.g, m);
    OneMoreLoad(c, AlignedAccesses(), run, t, p);
    more := run + [t];
  }

  // A line of the set that is not resident.
  method FindAbsent(cache: Cache, idx: nat) returns (m: nat)
    requires cache.Own() && idx < cache.g.sets
    requires |cache.Level().InSet(idx)| <= cache.g.ways
    requires cache.g.sets * (cache.g.ways + 1) * cache.g.linesz <= WORD
    ensures m !in cache.Level().lines && m % cache.g.sets == idx && LoadOf(cache.g, m) in AlignedAccesses()
  {
    hide Cache.Own, LinesIn, LinesOf, Level.InSet, Cache.Points, AlignedAccesses, Geometry.LineOf, LoadOf;
    SomeAbsent(cache.Level(), idx);
    for k := 0 to cache.g.ways + 1
      invariant forall j: nat :: j < k ==> idx + j * cache.g.sets in cache.Level().lines
    {
      m := idx + k * cache.g.sets;
      EarlyLoad(cache.g, idx, k);
      var slot := cache.CheckTag(m * cache.g.linesz);
      if slot.Nowhere? {
        return;
      }
    }
    assert false;
  }

  lemma EarlyLoad(g: Geometry, idx: nat, k: nat)
    requires g.Good() && idx < g.sets && k <= g.ways
    requires g.sets * (g.ways + 1) * g.linesz <= WORD
    ensures var m := idx + k * g.sets;
            && m % g.sets == idx && m * g.linesz < WORD && g.LineOf(m * g.linesz) == m
            && LoadOf(g, m) in AlignedAccesses()
  {
    hide AlignedAccesses;
    EarlyLine(g, idx, k);
    AlignedLoads(g);
    assert LoadOf(g, idx + k * g.sets) in AlignedAccesses();
    AlignedFits(LoadOf(g, idx + k * g.sets));
    Arith.DivMul(idx + k * g.sets, g.linesz);
  }

  lemma AlignedFits(r: Request)
    requires r in AlignedAccesses()
    ensures r.addr < WORD
  {
  }

  lemma EarlyLine(g: Geometry, idx: nat, k: nat)
    requires g.Good() && idx < g.sets && k <= g.ways
    ensures idx + k * g.sets < g.sets * (g.ways + 1) && (idx + k * g.sets) % g.sets == idx
  {
    LineInSet(g, idx, k);
    Arith.MulMono(k + 1, g.ways + 1, g.sets);
    assert (k + 1) * g.sets == k * g.sets + g.sets;
  }

  // ---- The tag array ----

  // Line l sits in slot i only.
  predicate SitsAt(places: seq<int>, l: nat, i: nat) {
    i < |places| && forall j :: 0 <= j < |places| ==> (places[j] == l <==> j == i)
  }

  lemma FirstSeat(g: Geometry, l: nat, seats: Placement)
    requires g.Good() && Moves(NoSeats(g, false), g, l, seats)
    ensures seats.Ways? && seats.reg == NextReg(1) && SitsAt(seats.places, l, SlotOf(g, l, Number(seats.reg)))
  {
    hide NextReg, Number;
  }

  // A miss in the same set moves l only by taking its slot, which it does when
  // the register is what it was when l was placed.
  lemma OneDraw(g: Geometry, seats: Placement, l: nat, i: nat, m: nat, after: Placement)
    requires g.Good() && seats.Ways? && SitsAt(seats.places, l, i) && !seats.Has(m) && m % g.sets == l % g.sets
    requires Moves(seats, g, m, after)
    ensures after.Ways? && after.reg == NextReg(seats.reg)
    ensures after.Has(l) <==> SitsAt(after.places, l, i)
    ensures i == SlotOf(g, l, Number(after.reg)) ==> !after.Has(l)
  {
    hide NextReg, Number;
    var drawn := Number(NextReg(seats.reg));
    var j := SlotOf(g, m, drawn);
    SameSlot(g, l, m, drawn);
    assert after == Ways(seats.places[j := m], NextReg(seats.reg));
    assert m != l by { assert seats.places[i] == l; }
    hide Moves, SlotOf;
    SeatTaken(seats.places, l, i, m, j);
  }

  lemma SameSlot(g: Geometry, l: nat, m: nat, drawn: nat)
    requires g.Good() && m % g.sets == l % g.sets
    ensures SlotOf(g, m, drawn) == SlotOf(g, l, drawn)
  {
  }

  lemma SeatTaken(places: seq<int>, l: nat, i: nat, m: nat, j: nat)
    requires SitsAt(places, l, i) && m != l && j < |places|
    ensures l in places[j := m] <==> i != j
    ensures SitsAt(places[j := m], l, i) <==> i != j
  {
    var after := places[j := m];
    if i != j {
      assert after[i] == l;
    } else {
      assert after[i] == m;
    }
  }

  method LoadAnother(cache: Cache, l: nat, ghost i: nat, ghost c: Chain, ghost run: seq<Trace>, ghost p: nat)
    returns (ghost more: seq<Trace>)
    requires Taken(cache, c, run, p) && cache.Seats().Ways? && SitsAt(cache.Seats().places, l, i)
    requires cache.g.sets * (cache.g.ways + 1) * cache.g.linesz <= WORD
    modifies cache.Repr
    ensures Taken(cache, c, more, p) && cache.Repr == old(cache.Repr)
    ensures RunLog(more)[p] == RunLog(run)[p]
    ensures cache.Seats().Ways? && cache.Seats().reg == NextReg(old(cache.Seats().reg))
    ensures l in cache.Level().lines <==> SitsAt(cache.Seats().places, l, i)
    ensures i == SlotOf(cache.g, l, Number(cache.Seats().reg)) ==> l !in cache.Level().lines
  {
    hide Cache.Own, Cache.Seats, Cache.Level, Moves, RunLog, AlignedAccesses, Level.InSet, SitsAt;
    hide Placement.Has, NextReg, Number, SlotOf;
    ghost var seats := cache.Seats();
    RoomLeft(cache, c, run, p, l % cache.g.sets);
    var m := FindAbsent(cache, l % cache.g.sets);
    cache.SeatsAreLines(m);
    more := Load(cache, m, c, run, p);
    OneDraw(cache.g, seats, l, i, m, cache.Seats());
    cache.SeatsAreLines(l);
  }

  // Loads of other lines of its set drive l out at the latest when the register
  // has come back to the state that placed l.
  method DriveOut(cache: Cache, l: nat, ghost c: Chain, ghost run: seq<Trace>, ghost p: nat)
    returns (ghost more: seq<Trace>)
    requires Taken(cache, c, run, p) && !cache.fully && l * cache.g.linesz < WORD
    requires cache.Seats().Ways?
    requires SitsAt(cache.Seats().places, l, SlotOf(cache.g, l, Number(cache.Seats().reg)))
    requires cache.g.sets * (cache.g.ways + 1) * cache.g.linesz <= WORD
    modifies cache.Repr
    ensures Taken(cache, c, more, p) && cache.Repr == old(cache.Repr)
    ensures RunLog(more)[p] == RunLog(run)[p]
    ensures l !in cache.Level().lines
  {
    hide Taken, Cache.Seats, Cache.Level, RunLog, SitsAt, NextReg, Number, SlotOf;
    ghost var start := cache.Seats().reg;
    ghost var i := SlotOf(cache.g, l, Number(start));
    EveryStateReturns(start);
    ghost var n: nat :| n > 0 && Draws(start, n) == start;
    ghost var k := 0;
    more := run;
    SeatOf(cache, c, run, p, l, i);
    var resident := Resident(cache, l, c, more, p);
    while resident
      invariant Taken(cache, c, more, p) && cache.Repr == old(cache.Repr)
      invariant RunLog(more)[p] == RunLog(run)[p]
      invariant resident <==> l in cache.Level().lines
      invariant cache.Seats().Ways? && cache.Seats().reg == Draws(start, k)
      invariant resident ==> k < n && SitsAt(cache.Seats().places, l, i)
      decreases n - k
    {
      more := LoadAnother(cache, l, i, c, more, p);
      k := k + 1;
      resident := Resident(cache, l, c, more, p);
    }
  }

  method Resident(cache: Cache, l: nat, ghost c: Chain, ghost run: seq<Trace>, ghost p: nat) returns (resident: bool)
    requires Taken(cache, c, run, p) && l * cache.g.linesz < WORD
    ensures resident <==> l in cache.Level().lines
  {
    hide Cache.Own, Cache.Level, Cache.Points;
    Arith.DivMul(l, cache.g.linesz);
    var slot := cache.CheckTag(l * cache.g.linesz);
    resident := !slot.Nowhere?;
  }

  lemma SeatOf(cache: Cache, c: Chain, run: seq<Trace>, p: nat, l: nat, i: nat)
    requires Taken(cache, c, run, p) && cache.Seats().Ways? && SitsAt(cache.Seats().places, l, i)
    ensures l in cache.Level().lines
  {
    hide Cache.Own, Cache.Seats, Cache.Level;
    assert cache.Seats().places[i] == l;
    cache.SeatsAreLines(l);
  }

  lemma RoomLeft(cache: Cache, c: Chain, run: seq<Trace>, p: nat, idx: nat)
    requires Taken(cache, c, run, p)
    ensures cache.g.Good() && |cache.Level().InSet(idx)| <= cache.g.ways
  {
    hide Cache.Own, Cache.Level, CanRun, After, RunLog, FreshChain, Level.InSet;
    TopAfter(c, run);
    assert cache.Level() == After(c, run).level;
    RoomInSet(cache.Level(), idx);
  }

  // ---- The tag map ----

  function FirstLines(n: nat): (s: set<nat>)
    ensures forall k: nat :: k in s <==> k < n
  {
    if n == 0 then {} else FirstLines(n - 1) + {n - 1}
  }

  lemma {:induction false} CountFirst(n: nat)
    ensures |FirstLines(n)| == n
  {
    if n == 0 {
      assert FirstLines(0) == {};
    } else {
      CountFirst(n - 1);
      assert FirstLines(n) == FirstLines(n - 1) + {n - 1};
    }
  }

  lemma FirstEntry(g: Geometry, l: nat, seats: Placement)
    requires g.Good() && Moves(NoSeats(g, true), g, l, seats)
    ensures seats == Table({l}, 1)
  {
    assert {} + {l} == {l};
  }

  // Below capacity a new line is added.
  lemma OneMore(g: Geometry, l: nat, k: nat, reg: bv32, after: Placement)
    requires g.Good() && l < g.ways && k < g.ways && k != l
    requires Moves(Table(FirstLines(k) + {l}, reg), g, k, after)
    ensures after == Table(FirstLines(k + 1) + {l}, reg)
  {
    hide NextReg, Number, FirstLines, Smaller;
    RoomAround(l, k, g.ways);
    OneMoreLine(l, k);
  }

  lemma RoomAround(l: nat, k: nat, ways: nat)
    requires l < ways && k < ways && k != l
    ensures |FirstLines(k) + {l}| < ways && k !in FirstLines(k) + {l}
  {
    hide FirstLines;
    CountFirst(k);
    if l < k {
      assert FirstLines(k) + {l} == FirstLines(k);
    }
  }

  lemma OneMoreLine(l: nat, k: nat)
    ensures FirstLines(k) + {l} + {k} == FirstLines(k + 1) + {l}
  {
    hide FirstLines;
  }

  // At capacity the line whose rank is drawn goes.
  lemma RankGoes(g: Geometry, l: nat, reg: bv32, after: Placement)
    requires g.Good() && l == Number(NextReg(reg)) % g.ways
    requires Moves(Table(FirstLines(g.ways), reg), g, g.ways, after)
    ensures !after.Has(l)
  {
    hide NextReg, Number;
    CountFirst(g.ways);
    forall k | k in FirstLines(g.ways)
      ensures |Smaller(FirstLines(g.ways), k)| == k
    {
      assert Smaller(FirstLines(g.ways), k) == FirstLines(k);
      CountFirst(k);
    }
  }

  // The map is filled with lines on both sides of l, so that l has the rank
  // that the first draw selects.
  method FillAround(cache: Cache, l: nat, ghost c: Chain, ghost run: seq<Trace>, ghost p: nat)
    returns (ghost more: seq<Trace>)
    requires Taken(cache, c, run, p) && cache.fully && cache.Seats() == Table({l}, 1)
    requires l == Number(NextReg(1)) % cache.g.ways
    requires cache.g.sets == 1 && (cache.g.ways + 1) * cache.g.linesz <= WORD
    modifies cache.Repr
    ensures Taken(cache, c, more, p) && cache.Repr == old(cache.Repr)
    ensures RunLog(more)[p] == RunLog(run)[p]
    ensures l !in cache.Level().lines
  {
    hide Cache.Own, Cache.Seats, Cache.Level, Moves, RunLog, AlignedAccesses, NextReg, Number, Placement.Has;
    AlignedLoads(cache.g);
    more := run;
    assert FirstLines(0) + {l} == {l};
    for k := 0 to cache.g.ways
      invariant Taken(cache, c, more, p) && cache.Repr == old(cache.Repr)
      invariant RunLog(more)[p] == RunLog(run)[p]
      invariant cache.Seats() == Table(FirstLines(k) + {l}, 1)
    {
      if k != l {
        more := Load(cache, k, c, more, p);
        OneMore(cache.g, l, k, 1, cache.Seats());
      } else {
        assert FirstLines(k) + {l} == FirstLines(k + 1) + {l};
      }
    }
    assert FirstLines(cache.g.ways) + {l} == FirstLines(cache.g.ways);
    more := Load(cache, cache.g.ways, c, more, p);
    RankGoes(cache.g, l, 1, cache.Seats());
    cache.SeatsAreLines(l);
  }

  // ---- The losses ----

  // Accepted line sizes that shrink: whatever the class of the first cache, a
  // program of aligned accesses loses a byte it has stored. The cache has to be
  // smaller than the address space.
  method LoseAByte(upper: Geometry, lower: Geometry)
    returns (cache: Cache, ghost run: seq<Trace>, ghost p: nat, lost: nat)
    requires Accepted(upper) && Accepted(lower) && upper.ways > 0 && lower.ways > 0
    requires upper.linesz > lower.linesz
    requires upper.sets * (upper.ways + 1) * upper.linesz <= WORD
    ensures cache.Valid() && fresh(cache.Repr)
    ensures CanRun(TwoLevels(upper, lower), run) && cache.Chain() == After(TwoLevels(upper, lower), run)
    ensures Allowed(run, AlignedAccesses())
    ensures StoreAt(run, p) && RunLog(run)[p].req == Request(lost, 1, true)
    ensures !Kept(cache.Chain(), 0, RunLog(run), p, lost)
  {
    hide Cache.Own, Cache.Seats, Cache.Level, CanRun, After, RunLog, OnlyStore, Kept, Moves, SitsAt, NextReg, Number;
    hide Allowed, AlignedAccesses;
    ghost var c := TwoLevels(upper, lower);
    cache := Pair(upper, lower);
    var l := if cache.fully then Number(NextReg(1)) % upper.ways else 0;
    lost := l * upper.linesz + lower.linesz;
    InsideLine(upper, lower, l);
    TwoLevelsShape(upper, lower);
    run, p := FirstAccess(cache, Request(lost, 1, true), c);
    assert run == [run[0]];
    OneAllowed(run[0], AlignedAccesses());
    assert Taken(cache, c, run, p);
    if cache.fully {
      FirstEntry(upper, l, cache.Seats());
      run := FillAround(cache, l, c, run, p);
    } else {
      FirstSeat(upper, l, cache.Seats());
      run := DriveOut(cache, l, c, run, p);
    }
    WrittenBackWithout(cache, upper, lower, run, p, lost);
  }

  // The line is gone, and the byte was not in what was written back.
  lemma WrittenBackWithout(cache: Cache, upper: Geometry, lower: Geometry, run: seq<Trace>, p: nat, a: nat)
    requires upper.Good() && lower.Good() && Taken(cache, TwoLevels(upper, lower), run, p)
    requires upper.LineOf(a) !in cache.Level().lines && upper.LineOf(RunLog(run)[p].req.addr) == upper.LineOf(a)
    requires lower.LineOf(upper.LineOf(a) * upper.linesz) != lower.LineOf(a)
    ensures StoreAt(run, p) && !Kept(cache.Chain(), 0, RunLog(run), p, a)
  {
    hide Cache.Own, Cache.Level, CanRun, After, RunLog, OnlyStore, Kept, Allowed, FreshChain;
    LevelsAfter(upper, lower, run);
    NotKept(cache.Chain(), upper, lower, RunLog(run), p, a);
    OnlyStoreIsStore(run, p);
  }

  lemma InsideLine(upper: Geometry, lower: Geometry, l: nat)
    requires upper.Good() && lower.Good() && upper.linesz > lower.linesz && l < upper.ways
    requires upper.sets * (upper.ways + 1) * upper.linesz <= WORD
    ensures var a := l * upper.linesz + lower.linesz;
            && l * upper.linesz < a < WORD && Request(a, 1, true) in AlignedAccesses()
            && upper.LineOf(a) == l && lower.LineOf(l * upper.linesz) != lower.LineOf(a)
  {
    var z, b := lower.linesz, l * upper.linesz;
    EarlyLine(upper, 0, l);
    Arith.MulMono(1, upper.sets, upper.ways + 1);
    Arith.MulMono(l + 1, upper.sets * (upper.ways + 1), upper.linesz);
    assert (l + 1) * upper.linesz == b + upper.linesz;
    Arith.DivIs(b + z, upper.linesz, l, z);
    assert b == b / z * z + b % z;
    Arith.DivIs(b + z, z, b / z + 1, b % z);
  }

  // A store past a line end, by a program of any kind: the bytes behind the line
  // end are lost at once.
  method LoseAcross(upper: Geometry, lower: Geometry, r: Request)
    returns (cache: Cache, ghost run: seq<Trace>, ghost p: nat)
    requires Accepted(upper) && Accepted(lower) && upper.ways > 0 && lower.ways > 0
    requires r.store && r.addr < WORD
    ensures cache.Valid() && fresh(cache.Repr)
    ensures CanRun(TwoLevels(upper, lower), run) && cache.Chain() == After(TwoLevels(upper, lower), run)
    ensures |run| == 1 && run[0].req == r && StoreAt(run, p) && RunLog(run)[p].req == r
    ensures forall a: nat :: upper.LineOf(a) != upper.LineOf(r.addr) ==> !Kept(cache.Chain(), 0, RunLog(run), p, a)
  {
    hide Cache.Own, Cache.Seats, Cache.Level, CanRun, After, RunLog, OnlyStore, Kept, Moves;
    TwoLevelsShape(upper, lower);
    cache := Pair(upper, lower);
    run, p := FirstAccess(cache, r, TwoLevels(upper, lower));
    OnlyStoreIsStore(run, p);
    forall a: nat | upper.LineOf(a) != upper.LineOf(r.addr)
      ensures !Kept(cache.Chain(), 0, RunLog(run), p, a)
    {
      PastLineEndLost(upper, lower, run, p, a);
    }
  }
}
