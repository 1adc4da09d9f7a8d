// The two tag stores of the cache simulator: 64-bit tag words in an array of
// sets times ways, and in a map from line numbers. A tag word is the line
// number with VALID in bit 63 and DIRTY in bit 62; bits are handled by
// arithmetic on naturals below 2^64.

module CacheTags {
  import Arith
  import opened CacheChain

  const WORD := 0x1_0000_0000_0000_0000
  const VALID := 0x8000_0000_0000_0000
  const DIRTY := 0x4000_0000_0000_0000

  predicate HasBit(w: nat, b: nat)
    requires b > 0
  {
    (w / b) % 2 == 1
  }

  function SetBit(w: nat, b: nat): nat
    requires b > 0
  {
    if HasBit(w, b) then w else w + b
  }

  function ClearBit(w: nat, b: nat): nat
    requires b > 0
  {
    if HasBit(w, b) && w >= b then w - b else w
  }

  predicate IsValid(w: nat) { HasBit(w, VALID) }

  predicate IsDirty(w: nat) { HasBit(w, DIRTY) }

  function TagOf(line: nat): nat { SetBit(line, VALID) }

  function LineIn(w: nat): nat { ClearBit(ClearBit(w, VALID), DIRTY) }

  // The comparison in check_tag.
  predicate Matches(w: nat, line: nat) {
    TagOf(line) == ClearBit(w, DIRTY)
  }

  // ---- The encoding ----

  lemma WordOfLine(line: nat)
    requires line < DIRTY
    ensures TagOf(line) < WORD
    ensures IsValid(TagOf(line)) && !IsDirty(TagOf(line)) && LineIn(TagOf(line)) == line
  {
  }

  lemma MatchesMeans(w: nat, line: nat)
    requires w < WORD && line < DIRTY
    ensures Matches(w, line) <==> IsValid(w) && LineIn(w) == line
  {
  }

  lemma DirtyWord(w: nat)
    requires w < WORD
    ensures SetBit(w, DIRTY) < WORD
    ensures IsDirty(SetBit(w, DIRTY))
    ensures IsValid(SetBit(w, DIRTY)) == IsValid(w)
    ensures LineIn(SetBit(w, DIRTY)) == LineIn(w)
  {
  }

  // A line just installed is found again exactly when bit 62 of its number is
  // clear.
  lemma FoundAgainExactly(line: nat)
    requires line < WORD
    ensures Matches(TagOf(line), line) <==> !HasBit(line, DIRTY)
  {
  }

  // The line-size check of init() is what keeps line numbers that small.
  lemma LineNumbersFit(addr: nat, linesz: nat)
    requires addr < WORD && linesz >= 8
    ensures addr / linesz < DIRTY && addr / linesz * linesz < WORD
  {
    assert addr == addr / linesz * linesz + addr % linesz;
    Arith.MulMono(8, linesz, addr / linesz);
  }

  // ---- The tag array ----

  predicate Holds(T: seq<nat>, l: nat, i: nat) {
    i < |T| && IsValid(T[i]) && LineIn(T[i]) == l
  }

  function Resident(T: seq<nat>): set<nat> {
    set i | 0 <= i < |T| && IsValid(T[i]) :: LineIn(T[i])
  }

  predicate DirtyIn(T: seq<nat>, l: nat) {
    exists i :: 0 <= i < |T| && Holds(T, l, i) && IsDirty(T[i])
  }

  function LinesOf(T: seq<nat>): map<nat, bool> {
    map l | l in Resident(T) :: DirtyIn(T, l)
  }

  // Line numbers of 64-bit addresses.
  predicate Reachable(l: nat, linesz: nat) {
    l < DIRTY && l * linesz < WORD
  }

  ghost predicate Placed(T: seq<nat>, g: Geometry)
    requires g.Good()
  {
    && |T| == g.sets * g.ways
    && forall i :: 0 <= i < |T| ==> WellPlaced(T[i], i, g)
  }

  predicate WellPlaced(w: nat, i: nat, g: Geometry)
    requires g.Good()
  {
    && w < WORD
    && (IsValid(w) ==> i / g.ways == LineIn(w) % g.sets && Reachable(LineIn(w), g.linesz))
    && (IsDirty(w) ==> IsValid(w))
  }

  ghost predicate Unique(T: seq<nat>) {
    forall i: nat, j: nat :: i < |T| && j < |T| && i != j && IsValid(T[i]) && IsValid(T[j]) ==>
        LineIn(T[i]) != LineIn(T[j])
  }

  lemma LinesAt(T: seq<nat>, i: nat)
    requires Unique(T) && i < |T| && IsValid(T[i])
    ensures LineIn(T[i]) in LinesOf(T)
    ensures LinesOf(T)[LineIn(T[i])] == IsDirty(T[i])
  {
    hide IsValid, LineIn, IsDirty;
    assert Holds(T, LineIn(T[i]), i);
  }

  lemma LinesFrom(T: seq<nat>, l: nat) returns (i: nat)
    requires Unique(T) && l in LinesOf(T)
    ensures Holds(T, l, i) && LinesOf(T)[l] == IsDirty(T[i])
  {
    hide IsValid, LineIn, IsDirty;
    i :| 0 <= i < |T| && IsValid(T[i]) && LineIn(T[i]) == l;
    LinesAt(T, i);
  }

  // A store whose contents are known slot by slot.
  lemma SameLines(T: seq<nat>, lines: map<nat, bool>)
    requires Unique(T)
    requires forall l <- lines :: exists i: nat :: Holds(T, l, i)
    requires forall i: nat :: i < |T| && IsValid(T[i]) ==> LineIn(T[i]) in lines && lines[LineIn(T[i])] == IsDirty(T[i])
    ensures LinesOf(T) == lines
  {
    hide IsValid, LineIn, IsDirty;
    forall l | l in lines
      ensures l in LinesOf(T) && LinesOf(T)[l] == lines[l]
    {
      var i: nat :| Holds(T, l, i);
      LinesAt(T, i);
    }
    forall l | l in LinesOf(T)
      ensures l in lines
    {
      var i := LinesFrom(T, l);
    }
  }

  // Writing word w, of line l, into slot i.
  lemma PlaceWord(T: seq<nat>, g: Geometry, i: nat, w: nat)
    requires g.Good() && Placed(T, g) && i < |T|
    requires WellPlaced(w, i, g)
    ensures Placed(T[i := w], g)
  {
    hide WellPlaced;
  }

  lemma StayUnique(T: seq<nat>, i: nat, w: nat)
    requires Unique(T) && i < |T|
    requires forall j: nat :: j < |T| && j != i && IsValid(T[j]) ==> LineIn(T[j]) != LineIn(w)
    ensures Unique(T[i := w])
  {
    hide IsValid, LineIn;
  }

  lemma OtherSlots(T: seq<nat>, i: nat, w: nat, lines: map<nat, bool>)
    requires Unique(T) && i < |T| && IsValid(w)
    requires Unique(T[i := w])
    requires lines == (if IsValid(T[i]) then LinesOf(T) - {LineIn(T[i])} else LinesOf(T))[LineIn(w) := IsDirty(w)]
    ensures LinesOf(T[i := w]) == lines
  {
    hide IsValid, LineIn, IsDirty, LinesOf;
    var U := T[i := w];
    assert Holds(U, LineIn(w), i);
    forall m | m in lines
      ensures exists j: nat :: Holds(U, m, j)
    {
      if m != LineIn(w) {
        var j := LinesFrom(T, m);
        assert Holds(U, m, j);
      }
    }
    forall j: nat | j < |U| && IsValid(U[j])
      ensures LineIn(U[j]) in lines && lines[LineIn(U[j])] == IsDirty(U[j])
    {
      if j != i {
        assert U[j] == T[j] && LineIn(U[j]) != LineIn(U[i]);
        LinesAt(T, j);
        assert IsValid(T[i]) ==> LineIn(T[j]) != LineIn(T[i]);
      }
    }
    SameLines(U, lines);
  }

  // Putting line l, not resident, into slot i.
  lemma Install(T: seq<nat>, g: Geometry, i: nat, l: nat)
    requires g.Good() && Placed(T, g) && Unique(T)
    requires l !in LinesOf(T) && Reachable(l, g.linesz)
    requires i < |T| && i / g.ways == l % g.sets
    ensures Placed(T[i := TagOf(l)], g) && Unique(T[i := TagOf(l)])
    ensures LinesOf(T[i := TagOf(l)]) == (if IsValid(T[i]) then LinesOf(T) - {LineIn(T[i])} else LinesOf(T))[l := false]
  {
    WordOfLine(l);
    hide IsValid, LineIn, IsDirty, TagOf, LinesOf;
    forall j: nat | j < |T| && IsValid(T[j])
      ensures LineIn(T[j]) != l
    {
      LinesAt(T, j);
    }
    PlaceWord(T, g, i, TagOf(l));
    StayUnique(T, i, TagOf(l));
    OtherSlots(T, i, TagOf(l), (if IsValid(T[i]) then LinesOf(T) - {LineIn(T[i])} else LinesOf(T))[l := false]);
  }

  // Marking slot i dirty.
  lemma Mark(T: seq<nat>, g: Geometry, i: nat)
    requires g.Good() && Placed(T, g) && Unique(T)
    requires i < |T| && IsValid(T[i])
    ensures Placed(T[i := SetBit(T[i], DIRTY)], g) && Unique(T[i := SetBit(T[i], DIRTY)])
    ensures LinesOf(T[i := SetBit(T[i], DIRTY)]) == LinesOf(T)[LineIn(T[i]) := true]
  {
    assert WellPlaced(T[i], i, g);
    DirtyWord(T[i]);
    hide IsValid, LineIn, IsDirty, LinesOf, SetBit;
    var w := SetBit(T[i], DIRTY);
    PlaceWord(T, g, i, w);
    StayUnique(T, i, w);
    LinesAt(T, i);
    OtherSlots(T, i, w, LinesOf(T)[LineIn(T[i]) := true]);
  }

  // The lines held by the slots from..upto.
  function HeldBetween(T: seq<nat>, from: nat, upto: nat): set<nat> {
    set i | from <= i < upto && i < |T| && IsValid(T[i]) :: LineIn(T[i])
  }

  lemma {:induction false} FewHeld(T: seq<nat>, from: nat, upto: nat, free: nat)
    requires from <= upto <= |T|
    ensures |HeldBetween(T, from, upto)| <= upto - from
    ensures from <= free < upto && !IsValid(T[free]) ==> |HeldBetween(T, from, upto)| < upto - from
    decreases upto
  {
    hide IsValid, LineIn;
    if from == upto {
      assert HeldBetween(T, from, upto) == {};
    } else {
      FewHeld(T, from, upto - 1, free);
      if IsValid(T[upto - 1]) {
        assert HeldBetween(T, from, upto) == HeldBetween(T, from, upto - 1) + {LineIn(T[upto - 1])};
      } else {
        assert HeldBetween(T, from, upto) == HeldBetween(T, from, upto - 1);
      }
    }
  }

  lemma SlotRange(idx: nat, way: nat, sets: nat, ways: nat)
    requires idx < sets && way < ways
    ensures 0 <= idx * ways + way < sets * ways
    ensures (idx * ways + way) / ways == idx
  {
    Arith.DivIs(idx * ways + way, ways, idx, way);
    Arith.MulMono(idx + 1, sets, ways);
    assert (idx + 1) * ways == idx * ways + ways;
  }

  lemma SlotParts(i: nat, sets: nat, ways: nat)
    requires ways > 0 && i < sets * ways
    ensures i / ways < sets && i == i / ways * ways + i % ways
  {
    if i / ways >= sets {
      Arith.MulMono(sets, i / ways, ways);
    }
  }

  // A free way leaves room in its set.
  lemma FreeWayMeansRoom(T: seq<nat>, g: Geometry, v: Level, i: nat)
    requires g.Good() && Placed(T, g) && Unique(T)
    requires v.geometry == g && v.lines == LinesOf(T)
    requires i < |T| && !IsValid(T[i])
    ensures |v.InSet(i / g.ways)| < g.ways
  {
    hide IsValid, LineIn, IsDirty, Reachable;
    var idx := i / g.ways;
    SlotParts(i, g.sets, g.ways);
    Arith.MulMono(idx + 1, g.sets, g.ways);
    assert (idx + 1) * g.ways == idx * g.ways + g.ways;
    FewHeld(T, idx * g.ways, idx * g.ways + g.ways, i);
    forall l | l in v.InSet(idx)
      ensures l in HeldBetween(T, idx * g.ways, idx * g.ways + g.ways)
    {
      var j := LinesFrom(T, l);
      assert WellPlaced(T[j], j, g);
      SlotParts(j, g.sets, g.ways);
    }
    Arith.SubsetSize(v.InSet(idx), HeldBetween(T, idx * g.ways, idx * g.ways + g.ways));
  }

  // check_tag looks at way `way` of set `idx`.
  predicate InWay(T: seq<nat>, l: nat, g: Geometry, way: nat)
    requires g.Good()
  {
    Holds(T, l, l % g.sets * g.ways + way)
  }

  lemma WayHolds(T: seq<nat>, l: nat, g: Geometry, way: nat)
    requires g.Good() && InWay(T, l, g, way)
    ensures Holds(T, l, l % g.sets * g.ways + way)
  {
  }

  lemma MatchIsHit(T: seq<nat>, g: Geometry, l: nat, way: nat)
    requires g.Good() && Placed(T, g) && Unique(T)
    requires Reachable(l, g.linesz) && way < g.ways
    ensures l % g.sets * g.ways + way < |T|
    ensures Matches(T[l % g.sets * g.ways + way], l) <==> InWay(T, l, g, way)
    ensures InWay(T, l, g, way) ==> l in LinesOf(T)
  {
    hide IsValid, LineIn, IsDirty, Matches, LinesOf;
    var i := l % g.sets * g.ways + way;
    SlotRange(l % g.sets, way, g.sets, g.ways);
    assert WellPlaced(T[i], i, g);
    MatchesMeans(T[i], l);
    if IsValid(T[i]) {
      LinesAt(T, i);
    }
  }

  lemma HitIsInWay(T: seq<nat>, g: Geometry, l: nat)
    requires g.Good() && Placed(T, g) && Unique(T)
    ensures l in LinesOf(T) ==> exists way: nat :: way < g.ways && InWay(T, l, g, way)
  {
    hide IsValid, LineIn, IsDirty, LinesOf, Reachable;
    if l in LinesOf(T) {
      var i := LinesFrom(T, l);
      assert WellPlaced(T[i], i, g);
      SlotParts(i, g.sets, g.ways);
      assert InWay(T, l, g, i % g.ways);
    }
  }

  // The array element victimize picks for line l and a random number.
  function SlotOf(g: Geometry, l: nat, random: nat): (i: nat)
    requires g.Good()
    ensures i < g.sets * g.ways && i / g.ways == l % g.sets
  {
    SlotRange(l % g.sets, random % g.ways, g.sets, g.ways);
    l % g.sets * g.ways + random % g.ways
  }

  // The set is that of the line, and the random number chooses the way.
  lemma SlotMeans(g: Geometry, l: nat, random: nat)
    requires g.Good()
    ensures SlotOf(g, l, random) / g.ways == l % g.sets
    ensures SlotOf(g, l, random) % g.ways == random % g.ways
  {
    Arith.DivIs(SlotOf(g, l, random), g.ways, l % g.sets, random % g.ways);
  }

  // How a victim word changes the resident lines.
  ghost predicate Evicts(before: Level, after: Level, addr: nat, victim: nat)
    requires before.geometry.Good()
  {
    var l := before.geometry.LineOf(addr);
    if IsValid(victim) then
      && LineIn(victim) in before.lines
      && LineIn(victim) % before.geometry.sets == l % before.geometry.sets
      && before.lines[LineIn(victim)] == IsDirty(victim)
      && after == before.(lines := (before.lines - {LineIn(victim)})[l := false])
    else
      && !IsDirty(victim)
      && |before.InSet(l % before.geometry.sets)| < before.geometry.ways
      && after == before.(lines := before.lines[l := false])
  }

  predicate SoundVictim(victim: nat, linesz: nat) {
    && (IsValid(victim) ==> Reachable(LineIn(victim), linesz))
    && (IsDirty(victim) ==> IsValid(victim))
  }

  lemma EvictsInstalls(before: Level, after: Level, addr: nat, victim: nat)
    requires before.geometry.Good() && Evicts(before, after, addr, victim)
    ensures after.geometry == before.geometry && after.stats == before.stats
    ensures before.geometry.LineOf(addr) in after.lines
  {
  }

  lemma ArrayEvicts(T: seq<nat>, v: Level, addr: nat, i: nat)
    requires v.geometry.Good() && Placed(T, v.geometry) && Unique(T) && v.lines == LinesOf(T)
    requires v.geometry.LineOf(addr) !in v.lines && Reachable(v.geometry.LineOf(addr), v.geometry.linesz)
    requires i < |T| && i / v.geometry.ways == v.geometry.LineOf(addr) % v.geometry.sets
    ensures Placed(T[i := TagOf(v.geometry.LineOf(addr))], v.geometry)
    ensures Unique(T[i := TagOf(v.geometry.LineOf(addr))])
    ensures Evicts(v, v.(lines := LinesOf(T[i := TagOf(v.geometry.LineOf(addr))])), addr, T[i])
    ensures SoundVictim(T[i], v.geometry.linesz)
  {
    hide IsValid, LineIn, IsDirty, TagOf, LinesOf, Reachable;
    var l := v.geometry.LineOf(addr);
    Install(T, v.geometry, i, l);
    assert WellPlaced(T[i], i, v.geometry);
    if IsValid(T[i]) {
      LinesAt(T, i);
    } else {
      FreeWayMeansRoom(T, v.geometry, v, i);
    }
  }

  // ---- The tag map ----

  ghost predicate WellTagged(M: map<nat, nat>, g: Geometry) {
    && |M| <= g.ways
    && forall l <- M :: M[l] < WORD && IsValid(M[l]) && LineIn(M[l]) == l && Reachable(l, g.linesz)
  }

  function LinesIn(M: map<nat, nat>): map<nat, bool> {
    map l | l in M :: IsDirty(M[l])
  }

  lemma MapInstall(M: map<nat, nat>, g: Geometry, l: nat)
    requires WellTagged(M, g) && |M| < g.ways && l !in M && Reachable(l, g.linesz)
    ensures WellTagged(M[l := TagOf(l)], g)
    ensures LinesIn(M[l := TagOf(l)]) == LinesIn(M)[l := false]
  {
    WordOfLine(l);
    hide IsValid, LineIn, IsDirty, TagOf, Reachable;
    assert M[l := TagOf(l)].Keys == M.Keys + {l};
  }

  lemma MapRemove(M: map<nat, nat>, g: Geometry, key: nat)
    requires WellTagged(M, g) && key in M
    ensures WellTagged(M - {key}, g) && |M - {key}| == |M| - 1
    ensures LinesIn(M - {key}) == LinesIn(M) - {key}
  {
    hide IsValid, LineIn, IsDirty, Reachable;
    assert (M - {key}).Keys == M.Keys - {key};
  }

  lemma MapEvicts(M: map<nat, nat>, v: Level, addr: nat, key: nat)
    requires v.geometry.Good() && v.geometry.sets == 1 && WellTagged(M, v.geometry) && v.lines == LinesIn(M)
    requires v.geometry.LineOf(addr) !in v.lines && Reachable(v.geometry.LineOf(addr), v.geometry.linesz)
    requires key in M
    ensures var l := v.geometry.LineOf(addr);
            var after := (M - {key})[l := TagOf(l)];
            WellTagged(after, v.geometry) && Evicts(v, v.(lines := LinesIn(after)), addr, M[key])
    ensures SoundVictim(M[key], v.geometry.linesz)
  {
    hide IsValid, LineIn, IsDirty, TagOf, Reachable;
    MapRemove(M, v.geometry, key);
    MapInstall(M - {key}, v.geometry, v.geometry.LineOf(addr));
  }

  lemma MapFills(M: map<nat, nat>, v: Level, addr: nat)
    requires v.geometry.Good() && v.geometry.sets == 1 && WellTagged(M, v.geometry) && v.lines == LinesIn(M)
    requires v.geometry.LineOf(addr) !in v.lines && Reachable(v.geometry.LineOf(addr), v.geometry.linesz)
    requires |M| != v.geometry.ways
    ensures WellTagged(M[v.geometry.LineOf(addr) := TagOf(v.geometry.LineOf(addr))], v.geometry)
    ensures Evicts(v, v.(lines := LinesIn(M[v.geometry.LineOf(addr) := TagOf(v.geometry.LineOf(addr))])), addr, 0)
    ensures SoundVictim(0, v.geometry.linesz)
  {
    var l := v.geometry.LineOf(addr);
    MapInstall(M, v.geometry, l);
    assert v.InSet(l % v.geometry.sets) == M.Keys;
    assert !IsValid(0) && !IsDirty(0);
  }

  // ---- One access, seen from the level that serves it ----

  function Accessed(s: Stats, r: Request): Stats {
    if r.store then s.(writeAccesses := s.writeAccesses + 1, bytesWritten := s.bytesWritten + r.bytes)
    else s.(readAccesses := s.readAccesses + 1, bytesRead := s.bytesRead + r.bytes)
  }

  function Missed(s: Stats, r: Request): Stats {
    if r.store then s.(writeMisses := s.writeMisses + 1) else s.(readMisses := s.readMisses + 1)
  }

  lemma HitServes(v: Level, after: Level, r: Request)
    requires v.geometry.Good() && v.geometry.LineOf(r.addr) in v.lines
    requires after.geometry == v.geometry && after.stats == Accessed(v.stats, r)
    requires after.lines == if r.store then v.lines[v.geometry.LineOf(r.addr) := true] else v.lines
    ensures after == v.Served(r)
  {
  }

  lemma HitSteps(v: Level, below: Chain, after: Level, r: Request)
    requires v.geometry.Good() && v.geometry.LineOf(r.addr) in v.lines
    requires after.geometry == v.geometry && after.stats == Accessed(v.stats, r)
    requires after.lines == if r.store then v.lines[v.geometry.LineOf(r.addr) := true] else v.lines
    ensures Can(Cached(v, below), Hit(r)) && Apply(Cached(v, below), Hit(r)) == Cached(after, below)
  {
    HitServes(v, after, r);
  }

  // `mid` is the level right after victimize, `after` the level at the end.
  lemma MissServes(v: Level, mid: Level, after: Level, r: Request, victim: nat)
    requires v.geometry.Good()
    requires Evicts(v.(stats := Missed(Accessed(v.stats, r), r)), mid, r.addr, victim)
    requires after.geometry == v.geometry
    requires after.stats == if IsDirty(victim) then mid.stats.(writebacks := mid.stats.writebacks + 1) else mid.stats
    requires v.geometry.LineOf(r.addr) in mid.lines
    requires after.lines == if r.store then mid.lines[v.geometry.LineOf(r.addr) := true] else mid.lines
    requires IsDirty(victim) ==> IsValid(victim)
    ensures !IsValid(victim) ==> after == v.Filled(r).Served(r)
    ensures IsValid(victim) && !IsDirty(victim) ==> after == v.Dropped(LineIn(victim)).Filled(r).Served(r)
    ensures IsDirty(victim) ==> after == v.Written(LineIn(victim)).Filled(r).Served(r)
  {
    hide IsValid, IsDirty, LineIn;
  }

  // What a miss did, from the victim word and the two requests sent down.
  function MissTrace(r: Request, victim: nat, write: Trace, fill: Trace): Trace {
    if IsDirty(victim) then WriteBack(r, LineIn(victim), write, fill)
    else if IsValid(victim) then Replace(r, LineIn(victim), fill)
    else Refill(r, fill)
  }

  lemma MissSteps(v: Level, below: Chain, mid: Level, after: Level, r: Request, victim: nat,
                  write: Trace, between: Chain, fill: Trace)
    requires v.geometry.Good() && v.geometry.LineOf(r.addr) !in v.lines
    requires Evicts(v.(stats := Missed(Accessed(v.stats, r), r)), mid, r.addr, victim)
    requires after.geometry == v.geometry
    requires after.stats == if IsDirty(victim) then mid.stats.(writebacks := mid.stats.writebacks + 1) else mid.stats
    requires v.geometry.LineOf(r.addr) in mid.lines
    requires after.lines == if r.store then mid.lines[v.geometry.LineOf(r.addr) := true] else mid.lines
    requires IsDirty(victim) ==> IsValid(victim)
    requires if IsDirty(victim) then
               write.req == v.geometry.WriteOf(LineIn(victim)) && Can(below, write) && between == Apply(below, write)
             else between == below
    requires fill.req == v.geometry.FillOf(r) && Can(between, fill)
    ensures MissTrace(r, victim, write, fill).req == r
    ensures Can(Cached(v, below), MissTrace(r, victim, write, fill))
    ensures Apply(Cached(v, below), MissTrace(r, victim, write, fill)) == Cached(after, Apply(between, fill))
  {
    MissServes(v, mid, after, r, victim);
    VictimOf(v, mid, r, victim);
    hide IsValid, IsDirty, LineIn, Evicts, Level.Served, Level.Filled, Level.Written, Level.Dropped;
  }

  lemma VictimOf(v: Level, mid: Level, r: Request, victim: nat)
    requires v.geometry.Good()
    requires Evicts(v.(stats := Missed(Accessed(v.stats, r), r)), mid, r.addr, victim)
    ensures IsValid(victim) ==> Victim(v, r, LineIn(victim)) && v.Dirty(LineIn(victim)) == IsDirty(victim)
    ensures !IsValid(victim) ==>
      |v.InSet(v.geometry.LineOf(r.addr) % v.geometry.sets)| < v.geometry.ways
  {
    hide IsValid, IsDirty, LineIn;
    var w := v.(stats := Missed(Accessed(v.stats, r), r));
    var idx := v.geometry.LineOf(r.addr) % v.geometry.sets;
    assert w.InSet(idx) == v.InSet(idx);
  }

  lemma VictimIsSound(victim: nat, linesz: nat)
    requires SoundVictim(victim, linesz)
    ensures IsDirty(victim) ==> IsValid(victim)
  {
  }

  lemma DirtyBaseFits(victim: nat, linesz: nat)
    requires SoundVictim(victim, linesz) && IsValid(victim)
    ensures LineIn(victim) * linesz < WORD
  {
  }

  lemma BaseOfLine(addr: nat, linesz: nat)
    requires linesz > 0
    ensures addr % linesz <= addr
    ensures addr - addr % linesz == addr / linesz * linesz
  {
  }
}
