// The cache simulator's objects. One class stands for cache_sim_t and its
// subclass fa_cache_sim_t: `fully` selects which check_tag and victimize run,
// and with it which tag store is used.

module CacheSim {
  import Arith
  import opened CacheChain
  import opened CacheMisses
  import opened CacheTags
  import opened CacheVictims

  class Lfsr {
    var reg: bv32

    constructor ()
      ensures reg == 1
    {
      reg := 1;
    }

    method Next() returns (r: nat)
      modifies this
      ensures reg == NextReg(old(reg)) && r == Number(reg)
    {
      reg := NextReg(reg);
      r := Number(reg);
    }
  }

  // ---- Geometry ----

  function ShiftRight(x: nat, k: nat): nat {
    if k == 0 then x else ShiftRight(x / 2, k - 1)
  }

  lemma {:induction false} ShiftIsDivision(x: nat, k: nat)
    ensures ShiftRight(x, k) == x / Arith.Pow2(k)
    decreases k
  {
    if k > 0 {
      ShiftIsDivision(x / 2, k - 1);
      Arith.HalvesDivide(x, Arith.Pow2(k - 1));
    }
  }

  // What init() accepts; it does not look at the ways.
  predicate Accepted(g: Geometry) {
    Arith.IsPow2(g.sets) && Arith.IsPow2(g.linesz) && g.linesz >= 8
  }

  // The loop of init(): the shift that divides by the line size.
  method IdxShift(linesz: nat) returns (shift: nat)
    requires linesz > 0 && Arith.IsPow2(linesz)
    ensures Arith.Pow2(shift) == linesz
  {
    shift := 0;
    var x := linesz;
    while x > 1
      invariant x > 0 && Arith.IsPow2(x) && x * Arith.Pow2(shift) == linesz
    {
      assert x == 2 * (x / 2);
      assert x / 2 * (2 * Arith.Pow2(shift)) == x * Arith.Pow2(shift);
      x := x / 2;
      shift := shift + 1;
    }
  }

  // ---- std::map as far as it is used ----

  method Least(keys: set<nat>) returns (k: nat)
    requires keys != {}
    ensures k in keys && forall j <- keys :: k <= j
  {
    k :| k in keys;
    var rest := keys - {k};
    while rest != {}
      invariant rest <= keys && k in keys
      invariant forall j <- keys :: j in rest || k <= j
      decreases rest
    {
      var j :| j in rest;
      if j < k { k := j; }
      rest := rest - {j};
    }
  }

  // The key n steps after the first one.
  method Advance(keys: set<nat>, n: nat) returns (k: nat)
    requires n < |keys|
    ensures k in keys && |Smaller(keys, k)| == n
  {
    var rest, passed := keys, {};
    for i := 0 to n
      invariant passed !! rest && passed + rest == keys && |passed| == i
      invariant |rest| == |keys| - i
      invariant forall j, m :: j in passed && m in rest ==> j < m
    {
      var j := Least(rest);
      passed, rest := passed + {j}, rest - {j};
    }
    assert rest != {} by { assert |rest| > 0; }
    k := Least(rest);
    assert Smaller(keys, k) == passed;
  }

  // ---- The caches ----

  // What check_tag returns: nothing, an element of the array, or a map entry.
  datatype Slot = Nowhere | Way(i: nat) | Entry(key: nat)

  class Cache {
    const fully: bool
    const g: Geometry
    const idxShift: nat
    const lfsr: Lfsr
    const tags: array<nat>
    var table: map<nat, nat>
    var missHandler: Cache?
    var stats: Stats
    ghost var Repr: set<object>

    ghost predicate Own()
      reads this`table, tags
      ensures Own() ==> g.Good() && g.linesz >= 8 && Arith.Pow2(idxShift) == g.linesz
    {
      && g.Good()
      && g.linesz >= 8
      && Arith.Pow2(idxShift) == g.linesz
      && (if fully then g.sets == 1 && WellTagged(table, g) else Placed(tags[..], g) && Unique(tags[..]))
    }

    ghost predicate Valid()
      reads this, Repr
      decreases Repr
    {
      && {this, tags, lfsr} <= Repr
      && Own()
      && (missHandler != null ==>
            && missHandler in Repr
            && missHandler.Repr <= Repr - {this, tags, lfsr}
            && missHandler.Valid())
    }

    ghost function Level(): Level
      reads this`table, this`stats, tags
    {
      CacheChain.Level(g, if fully then LinesIn(table) else LinesOf(tags[..]), stats)
    }

    // The lines with what decides the next victim.
    ghost function Seats(): Placement
      reads this`table, tags, lfsr
    {
      if fully then Table(table.Keys, lfsr.reg) else Ways(Places(tags[..]), lfsr.reg)
    }

    lemma SeatsAreLines(l: nat)
      requires Own()
      ensures Seats().Has(l) <==> l in Level().lines
    {
      InPlaces(tags[..], l);
      hide LinesOf, Places;
    }

    ghost function HandlerRepr(): set<object>
      reads this, missHandler
    {
      if missHandler == null then {} else missHandler.Repr
    }

    ghost function Below(): Chain
      requires Valid()
      reads this, Repr
      decreases Repr, 0
    {
      if missHandler == null then Memory else missHandler.Chain()
    }

    ghost function Chain(): Chain
      requires Valid()
      reads this, Repr
      decreases Repr, 1
    {
      Cached(Level(), Below())
    }

    // Line sizes are powers of two, so not shrinking downwards is enough.
    lemma Grows()
      requires Valid() && NotShrinking(Chain().Shape())
      ensures Growing(Chain().Shape())
      decreases Repr
    {
      hide Placed, Unique, WellTagged, LinesOf, LinesIn, Arith.Pow2, Arith.IsPow2;
      assert Chain() == Cached(Level(), Below());
      if missHandler != null {
        assert Below() == Cached(missHandler.Level(), missHandler.Below());
        ShapeTop(Chain());
        missHandler.Grows();
        Arith.Pow2IsPow2(idxShift);
        Arith.Pow2IsPow2(missHandler.idxShift);
        Arith.PowersDivide(g.linesz, missHandler.g.linesz);
      }
    }

    // construct() and init(): null stands for the exit taken by help(). Zero
    // ways are let through, but such an object is not usable: its first miss
    // takes a remainder by zero.
    static method Construct(sets: nat, ways: nat, linesz: nat) returns (c: Cache?)
      ensures c != null <==> Accepted(Geometry(sets, ways, linesz))
      ensures c != null ==> fresh(c) && fresh(c.Repr)
      ensures c != null ==> c.g == Geometry(sets, ways, linesz) && c.fully == (ways > 4 && sets == 1)
      ensures c != null ==> (c.Valid() <==> ways > 0)
      ensures c != null && ways > 0 ==> FreshChain(c.Chain()) && c.Chain().below == Memory
      ensures c != null ==> c.Seats() == NoSeats(c.g, c.fully)
    {
      if !Accepted(Geometry(sets, ways, linesz)) {
        return null;
      }
      c := new Cache(Geometry(sets, ways, linesz), ways > 4 && sets == 1);
    }

    constructor (geometry: Geometry, fullyAssociative: bool)
      requires Accepted(geometry)
      requires fullyAssociative ==> geometry.sets == 1
      ensures fresh(Repr) && g == geometry && fully == fullyAssociative
      ensures Valid() <==> geometry.ways > 0
      ensures geometry.ways > 0 ==> FreshChain(Chain()) && Chain().below == Memory
      ensures Seats() == NoSeats(geometry, fullyAssociative)
    {
      g := geometry;
      fully := fullyAssociative;
      var shift := IdxShift(geometry.linesz);
      idxShift := shift;
      var words := new nat[geometry.sets * geometry.ways](_ => 0);
      tags := words;
      var register := new Lfsr();
      lfsr := register;
      table := map[];
      missHandler := null;
      stats := NO_STATS;
      Repr := {this, words, register};
      new;
      assert forall i :: 0 <= i < tags.Length ==> tags[..][i] == 0;
      assert Resident(tags[..]) == {};
      assert !IsValid(0);
      assert !fully ==> Places(tags[..]) == Arith.Repeat(-1, g.sets * g.ways);
    }

    // A handler that was there before is replaced.
    method SetMissHandler(mh: Cache)
      requires Valid() && mh.Valid() && mh.Repr !! {this, tags, lfsr}
      modifies this`missHandler, this`Repr
      ensures Valid() && Repr == {this, tags, lfsr} + mh.Repr && missHandler == mh
      ensures Level() == old(Level()) && Seats() == old(Seats())
      ensures Chain() == Cached(old(Level()), old(mh.Chain()))
    {
      hide Placed, Unique, WellTagged, LinesOf, LinesIn, Arith.Pow2;
      missHandler := mh;
      Repr := {this, tags, lfsr} + mh.Repr;
    }

    // The slot holds line l.
    ghost predicate Points(slot: Slot, l: nat)
      reads this`table, tags
    {
      match slot
      case Nowhere => false
      case Way(i) => !fully && Holds(tags[..], l, i)
      case Entry(key) => fully && key == l && key in table
    }

    function Line(addr: nat): (l: nat)
      requires g.Good() && Arith.Pow2(idxShift) == g.linesz
      ensures l == g.LineOf(addr)
    {
      ShiftIsDivision(addr, idxShift);
      ShiftRight(addr, idxShift)
    }

    method CheckTag(addr: nat) returns (slot: Slot)
      requires Own() && addr < WORD
      ensures slot.Nowhere? <==> g.LineOf(addr) !in Level().lines
      ensures !slot.Nowhere? ==> Points(slot, g.LineOf(addr))
    {
      LineNumbersFit(addr, g.linesz);
      hide IsValid, LineIn, IsDirty, Matches, LinesOf, Reachable, Unique, Placed, Arith.Pow2, InWay;
      hide Geometry.LineOf;
      var line := Line(addr);
      if fully {
        return if line in table then Entry(line) else Nowhere;
      }
      for way := 0 to g.ways
        invariant forall w: nat :: w < way ==> !InWay(tags[..], line, g, w)
      {
        MatchIsHit(tags[..], g, line, way);
        if Matches(tags[line % g.sets * g.ways + way], line) {
          slot := Way(line % g.sets * g.ways + way);
          assert InWay(tags[..], line, g, way);
          WayHolds(tags[..], line, g, way);
          return;
        }
      }
      HitIsInWay(tags[..], g, line);
      return Nowhere;
    }

    method Victimize(addr: nat) returns (victim: nat)
      requires Own() && addr < WORD && g.LineOf(addr) !in Level().lines
      modifies this`table, tags, lfsr
      ensures Own()
      ensures Evicts(old(Level()), Level(), addr, victim)
      ensures SoundVictim(victim, g.linesz)
      ensures Moves(old(Seats()), g, g.LineOf(addr), Seats())
      ensures !fully || |old(table)| == g.ways ==> lfsr.reg == NextReg(old(lfsr.reg))
      ensures !fully ==> victim == old(tags[..])[SlotOf(g, g.LineOf(addr), Number(lfsr.reg))]
      ensures fully && |old(table)| == g.ways ==>
        exists k <- old(table) ::
          victim == old(table)[k] && |Smaller(old(table).Keys, k)| == Number(lfsr.reg) % g.ways
    {
      LineNumbersFit(addr, g.linesz);
      hide SlotOf, SoundVictim, Evicts, Unique, WellTagged, LinesOf, LinesIn, Reachable, Arith.Pow2, Geometry.LineOf;
      hide Moves, Places, Seats, Placement.Has, Own;
      if fully {
        victim := VictimizeTable(addr);
      } else {
        victim := VictimizeTags(addr);
      }
    }

    method VictimizeTags(addr: nat) returns (victim: nat)
      requires Own() && !fully && addr < WORD && Reachable(g.LineOf(addr), g.linesz) && g.LineOf(addr) < DIRTY
      requires g.LineOf(addr) !in Level().lines
      modifies tags, lfsr
      ensures Own()
      ensures Evicts(old(Level()), Level(), addr, victim)
      ensures SoundVictim(victim, g.linesz)
      ensures Moves(old(Seats()), g, g.LineOf(addr), Seats())
      ensures lfsr.reg == NextReg(old(lfsr.reg))
      ensures victim == old(tags[..])[SlotOf(g, g.LineOf(addr), Number(lfsr.reg))]
    {
      hide SlotOf, SoundVictim, Evicts, Unique, LinesOf, WellPlaced, TagOf, Reachable, Arith.Pow2, NextReg;
      hide Geometry.LineOf, Places;
      ghost var was := tags[..];
      ghost var v := Level();
      var line := Line(addr);
      SeatsAreLines(line);
      var random := lfsr.Next();
      var i := SlotOf(g, line, random);
      victim := tags[i];
      tags[i] := TagOf(line);
      assert tags[..] == was[i := TagOf(line)];
      ArrayEvicts(was, v, addr, i);
      InstallPlaces(was, i, line);
    }

    method VictimizeTable(addr: nat) returns (victim: nat)
      requires Own() && fully && addr < WORD && Reachable(g.LineOf(addr), g.linesz)
      requires g.LineOf(addr) !in Level().lines
      modifies this`table, lfsr
      ensures Own()
      ensures Evicts(old(Level()), Level(), addr, victim)
      ensures SoundVictim(victim, g.linesz)
      ensures Moves(old(Seats()), g, g.LineOf(addr), Seats())
      ensures |old(table)| == g.ways ==> lfsr.reg == NextReg(old(lfsr.reg))
      ensures |old(table)| == g.ways ==>
        exists k <- old(table) ::
          victim == old(table)[k] && |Smaller(old(table).Keys, k)| == Number(lfsr.reg) % g.ways
    {
      hide SoundVictim, Evicts, WellTagged, LinesIn, TagOf, Reachable, Arith.Pow2, NextReg, Number, Geometry.LineOf;
      hide Moves, Smaller;
      ghost var was := table;
      var line := Line(addr);
      assert line !in was by { SeatsAreLines(line); }
      victim := 0;
      ghost var removed, reg := 0, lfsr.reg;
      if |table| == g.ways {
        var random := lfsr.Next();
        var key := Advance(table.Keys, random % g.ways);
        removed := key;
        victim := table[key];
        table := table - {key};
        MapEvicts(was, old(Level()), addr, key);
        TableDraws(g, was.Keys, reg, line, key);
      } else {
        MapFills(was, old(Level()), addr);
        TableGrows(g, was.Keys, reg, line);
      }
      table := table[line := TagOf(line)];
      assert table.Keys == (if |was| == g.ways then was.Keys - {removed} else was.Keys) + {line};
    }

    // *slot |= DIRTY
    method SetDirty(slot: Slot, ghost l: nat)
      requires Own() && Points(slot, l)
      modifies this`table, tags
      ensures Own()
      ensures Level() == old(Level()).(lines := old(Level()).lines[l := true])
      ensures Seats() == old(Seats())
    {
      hide IsValid, IsDirty, LineIn, Reachable, LinesOf, Unique, SetBit, Places;
      if slot.Way? {
        assert WellPlaced(tags[slot.i], slot.i, g);
        MarkPlaces(tags[..], slot.i);
        ghost var was := tags[..];
        tags[slot.i] := SetBit(tags[slot.i], DIRTY);
        assert tags[..] == was[slot.i := SetBit(was[slot.i], DIRTY)];
        Mark(was, g, slot.i);
      } else {
        DirtyWord(table[slot.key]);
        table := table[slot.key := SetBit(table[slot.key], DIRTY)];
      }
    }

    // if (miss_handler) miss_handler->access(addr, linesz, store)
    method Send(addr: nat, store: bool) returns (ghost t: Trace)
      requires Valid() && addr < WORD
      modifies HandlerRepr()
      ensures Valid() && Repr == old(Repr) && Level() == old(Level()) && HandlerRepr() == old(HandlerRepr())
      ensures t.req == Request(addr, g.linesz, store)
      ensures Can(old(Below()), t) && Below() == Apply(old(Below()), t)
      decreases Repr, 0
    {
      hide Placed, Unique, WellTagged, LinesOf, LinesIn, Arith.Pow2;
      if missHandler != null {
        t := missHandler.Access(addr, g.linesz, store);
      } else {
        t := Reached(Request(addr, g.linesz, store));
      }
    }

    method Access(addr: nat, bytes: nat, store: bool) returns (ghost t: Trace)
      requires Valid() && addr < WORD
      modifies Repr
      ensures Valid() && Repr == old(Repr)
      ensures t.req == Request(addr, bytes, store)
      ensures Can(old(Chain()), t) && Chain() == Apply(old(Chain()), t)
      ensures missHandler == old(missHandler) && HandlerRepr() == old(HandlerRepr())
      ensures Moves(old(Seats()), g, g.LineOf(addr), Seats())
      decreases Repr, 3
    {
      hide Moves, Places, Seats, Placement.Has, Own;
      hide Placed, Unique, WellTagged, LinesOf, LinesIn, Arith.Pow2, IsValid, IsDirty, LineIn, Reachable, Evicts;
      hide SlotOf;
      hide Points, Can, Apply;
      ghost var r := Request(addr, bytes, store);
      ghost var v, below := Level(), Below();
      if store {
        stats := stats.(writeAccesses := stats.writeAccesses + 1, bytesWritten := stats.bytesWritten + bytes);
      } else {
        stats := stats.(readAccesses := stats.readAccesses + 1, bytesRead := stats.bytesRead + bytes);
      }

      SeatsAreLines(g.LineOf(addr));
      var hitWay := CheckTag(addr);
      if !hitWay.Nowhere? {
        if store {
          SetDirty(hitWay, g.LineOf(addr));
        }
        t := Hit(r);
        HitSteps(v, below, Level(), r);
        StayPut(old(Seats()), g, g.LineOf(addr));
        return;
      }

      if store {
        stats := stats.(writeMisses := stats.writeMisses + 1);
      } else {
        stats := stats.(readMisses := stats.readMisses + 1);
      }
      t := Miss(v, addr, bytes, store);
    }

    // *check_tag(addr) |= DIRTY
    method MarkStored(addr: nat)
      requires Own() && addr < WORD && g.LineOf(addr) in Level().lines
      modifies this`table, tags
      ensures Own()
      ensures Level() == old(Level()).(lines := old(Level()).lines[g.LineOf(addr) := true])
      ensures Seats() == old(Seats())
    {
      hide Places;
      hide Placed, Unique, WellTagged, LinesOf, LinesIn, Arith.Pow2, IsValid, IsDirty, LineIn, Reachable, Points;
      var way := CheckTag(addr);
      SetDirty(way, g.LineOf(addr));
    }

    // A dirty victim goes down before the fill.
    method WriteVictim(victim: nat) returns (ghost t: Trace)
      requires Valid() && SoundVictim(victim, g.linesz)
      modifies this`stats, HandlerRepr()
      ensures Valid() && Repr == old(Repr) && HandlerRepr() == old(HandlerRepr())
      ensures if IsDirty(victim) then
          && t.req == g.WriteOf(LineIn(victim)) && Can(old(Below()), t) && Below() == Apply(old(Below()), t)
          && Level() == old(Level()).(stats := old(stats).(writebacks := old(stats).writebacks + 1))
        else
          Below() == old(Below()) && Level() == old(Level())
      decreases Repr, 1
    {
      hide Placed, Unique, WellTagged, LinesOf, LinesIn, Arith.Pow2, IsValid, IsDirty, LineIn, Reachable;
      t := Reached(Request(0, 0, true));
      if IsValid(victim) && IsDirty(victim) {
        DirtyBaseFits(victim, g.linesz);
        t := Send(LineIn(victim) * g.linesz, true);
        stats := stats.(writebacks := stats.writebacks + 1);
      }
    }

    // The rest of access(), from victimize on.
    method Miss(ghost v: Level, addr: nat, bytes: nat, store: bool) returns (ghost t: Trace)
      requires Valid() && addr < WORD
      requires v.geometry == g && g.LineOf(addr) !in v.lines
      requires var r := Request(addr, bytes, store);
               Level() == v.(stats := Missed(Accessed(v.stats, r), r))
      modifies Repr
      ensures Valid() && Repr == old(Repr)
      ensures t.req == Request(addr, bytes, store)
      ensures Can(Cached(v, old(Below())), t) && Chain() == Apply(Cached(v, old(Below())), t)
      ensures missHandler == old(missHandler) && HandlerRepr() == old(HandlerRepr())
      ensures Moves(old(Seats()), g, g.LineOf(addr), Seats())
      decreases Repr, 2
    {
      hide Moves, Places, Seats, Placement.Has, Own;
      hide Placed, Unique, WellTagged, LinesOf, LinesIn, Arith.Pow2, IsValid, IsDirty, LineIn, Reachable, Evicts;
      hide SlotOf;
      hide SoundVictim, NextReg, Can, Apply, MissTrace, Accessed, Missed;
      ghost var r := Request(addr, bytes, store);
      ghost var below := Below();
      var victim := Victimize(addr);
      ghost var mid, seats := Level(), Seats();
      EvictsInstalls(old(Level()), mid, addr, victim);
      assert Valid() && Below() == below;
      ghost var write := WriteVictim(victim);
      ghost var between := Below();
      BaseOfLine(addr, g.linesz);
      ghost var fill := Send(addr - addr % g.linesz, false);
      ghost var end := Below();
      if store {
        MarkStored(addr);
        assert Valid() && Below() == end;
      }
      assert Seats() == seats;
      VictimIsSound(victim, g.linesz);
      t := MissTrace(r, victim, write, fill);
      MissSteps(v, below, mid, Level(), r, victim, write, between, fill);
    }
  }

  lemma RunGrows(c: Chain, run: seq<Trace>, t: Trace)
    requires CanRun(c, run) && Can(After(c, run), t)
    ensures CanRun(c, run + [t]) && After(c, run + [t]) == Apply(After(c, run), t)
  {
    hide Can, Apply;
    var more := run + [t];
    assert more[..|more| - 1] == run && more[|more| - 1] == t;
  }

  // dcache_sim_t::trace for one access after the other: the objects take a run
  // of the chain model, so everything proved about runs holds of them. For
  // example, a hierarchy that was fresh and whose lines do not shrink loses no
  // store that stays within a line.
  method TraceAll(cache: Cache, accesses: seq<Request>) returns (ghost run: seq<Trace>)
    requires cache.Valid() && forall r <- accesses :: r.addr < WORD
    modifies cache.Repr
    ensures cache.Valid() && |run| == |accesses| && forall i :: 0 <= i < |run| ==> run[i].req == accesses[i]
    ensures CanRun(old(cache.Chain()), run) && cache.Chain() == After(old(cache.Chain()), run)
    ensures CountedBelow(old(cache.Chain()), cache.Chain(), run)
    ensures FreshChain(old(cache.Chain())) && NotShrinking(old(cache.Chain()).Shape()) ==>
      forall p: nat :: StoreAt(run, p) ==> StoreKept(cache.Chain(), cache.g, run, p)
  {
    hide Can, Apply, FreshChain, Growing, NotShrinking, StoreKept, RunLog, CanRun, After, Moves, StoreAt;
    hide CountedBelow;
    if NotShrinking(cache.Chain().Shape()) {
      cache.Grows();
    }
    ghost var c := cache.Chain();
    run := [];
    EmptyRun(c);
    for i := 0 to |accesses|
      invariant cache.Valid() && cache.Repr == old(cache.Repr)
      invariant |run| == i && forall j :: 0 <= j < i ==> run[j].req == accesses[j]
      invariant CanRun(c, run) && cache.Chain() == After(c, run)
    {
      var r := accesses[i];
      ghost var t := cache.Access(r.addr, r.bytes, r.store);
      RunGrows(c, run, t);
      run := run + [t];
    }
    AllCounted(c, run);
    if FreshChain(c) && NotShrinking(c.Shape()) {
      NoStoreLost(c, run);
    }
  }

  lemma EmptyRun(c: Chain)
    ensures CanRun(c, []) && After(c, []) == c
  {
  }
}
