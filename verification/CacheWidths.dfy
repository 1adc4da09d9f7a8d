// What a two-level hierarchy keeps of a store: exactly the bytes that lie in the
// line the store starts in, and whose lower line also holds the base of that line.

module CacheWidths {
  import Arith
  import opened CacheChain
  import CacheTags

  // ---- Every chain can answer every request ----

  predicate AllGood(gs: seq<Geometry>) {
    forall g <- gs :: g.Good()
  }

  lemma GoodChain(c: Chain)
    requires AllGood(c.Shape()) && c.Cached?
    ensures c.level.geometry.Good() && AllGood(c.below.Shape())
  {
    ShapeTop(c);
  }

  lemma {:induction false} Answer(c: Chain, r: Request) returns (t: Trace)
    requires AllGood(c.Shape())
    ensures t.req == r && Can(c, t)
    decreases c.Depth(), 1
  {
    if c.Memory? {
      t := Reached(r);
    } else {
      GoodChain(c);
      var inSet := c.level.InSet(c.level.geometry.LineOf(r.addr) % c.level.geometry.sets);
      if c.level.geometry.LineOf(r.addr) in c.level.lines {
        t := Hit(r);
      } else if |inSet| < c.level.geometry.ways {
        t := AnswerFilling(c, r);
      } else {
        var victim :| victim in inSet;
        t := AnswerEvicting(c, r, victim);
      }
    }
  }

  lemma {:induction false} AnswerFilling(c: Chain, r: Request) returns (t: Trace)
    requires AllGood(c.Shape()) && c.Cached? && c.level.geometry.Good()
    requires c.level.geometry.LineOf(r.addr) !in c.level.lines
    requires |c.level.InSet(c.level.geometry.LineOf(r.addr) % c.level.geometry.sets)| < c.level.geometry.ways
    ensures t.req == r && Can(c, t) && Apply(c, t).level == c.level.Filled(r).Served(r)
    decreases c.Depth(), 0
  {
    GoodChain(c);
    var fill := Answer(c.below, c.level.geometry.FillOf(r));
    t := Refill(r, fill);
  }

  lemma {:induction false} AnswerEvicting(c: Chain, r: Request, victim: nat) returns (t: Trace)
    requires AllGood(c.Shape()) && c.Cached? && c.level.geometry.Good()
    requires c.level.geometry.LineOf(r.addr) !in c.level.lines && Victim(c.level, r, victim)
    ensures t.req == r && Can(c, t) && victim !in Apply(c, t).level.lines
    decreases c.Depth(), 0
  {
    GoodChain(c);
    if c.level.Dirty(victim) {
      var write := Answer(c.below, c.level.geometry.WriteOf(victim));
      AccessKeepsShape(c.below, write);
      var fill := Answer(Apply(c.below, write), c.level.geometry.FillOf(r));
      t := WriteBack(r, victim, write, fill);
    } else {
      var fill := Answer(c.below, c.level.geometry.FillOf(r));
      t := Replace(r, victim, fill);
    }
  }

  // ---- A run of one store, then loads until its line is gone ----

  // The first n lines of a set.
  function LinesOfSet(g: Geometry, idx: nat, n: nat): (s: set<nat>)
    requires g.Good()
  {
    set k | 0 <= k < n :: LineAt(g, idx, k)
  }

  function LineAt(g: Geometry, idx: nat, k: nat): nat {
    idx + k * g.sets
  }

  lemma LinesApart(g: Geometry, idx: nat, k: nat, m: nat)
    requires g.Good() && k < m
    ensures LineAt(g, idx, k) < LineAt(g, idx, m)
  {
    Arith.MulMono(k + 1, m, g.sets);
    assert (k + 1) * g.sets == k * g.sets + g.sets;
  }

  lemma {:induction false} CountLines(g: Geometry, idx: nat, n: nat)
    requires g.Good()
    ensures |LinesOfSet(g, idx, n)| == n
  {
    hide LineAt;
    if n == 0 {
      assert LinesOfSet(g, idx, n) == {};
    } else {
      CountLines(g, idx, n - 1);
      assert LinesOfSet(g, idx, n) == LinesOfSet(g, idx, n - 1) + {LineAt(g, idx, n - 1)};
      forall k | 0 <= k < n - 1
        ensures LineAt(g, idx, k) < LineAt(g, idx, n - 1)
      {
        LinesApart(g, idx, k, n - 1);
      }
    }
  }

  lemma LineInSet(g: Geometry, idx: nat, k: nat)
    requires g.Good() && idx < g.sets
    ensures (idx + k * g.sets) % g.sets == idx
  {
    Arith.DivIs(idx + k * g.sets, g.sets, k, idx);
  }

  // One of the first ways + 1 lines of a set is not resident.
  lemma SomeAbsent(v: Level, idx: nat)
    requires v.geometry.Good() && idx < v.geometry.sets && |v.InSet(idx)| <= v.geometry.ways
    ensures exists k: nat :: k <= v.geometry.ways && idx + k * v.geometry.sets !in v.lines
  {
    var g := v.geometry;
    if forall k: nat :: k <= g.ways ==> idx + k * g.sets in v.lines {
      forall k: nat | k < g.ways + 1
        ensures LineAt(g, idx, k) in v.InSet(idx)
      {
        LineInSet(g, idx, k);
        assert LineAt(g, idx, k) in v.lines;
      }
      CountLines(g, idx, g.ways + 1);
      Arith.SubsetSize(LinesOfSet(g, idx, g.ways + 1), v.InSet(idx));
    }
  }

  // A load of the first byte of a line that is not resident, with an address
  // below sets * (ways + 1) * linesz.
  lemma AbsentLoad(v: Level, idx: nat) returns (m: nat)
    requires v.geometry.Good() && idx < v.geometry.sets && |v.InSet(idx)| <= v.geometry.ways
    ensures m !in v.lines && m % v.geometry.sets == idx && m < v.geometry.sets * (v.geometry.ways + 1)
  {
    hide Level.InSet;
    var g := v.geometry;
    SomeAbsent(v, idx);
    var k: nat :| k <= g.ways && idx + k * g.sets !in v.lines;
    m := idx + k * g.sets;
    LineInSet(g, idx, k);
    Arith.MulMono(k + 1, g.ways + 1, g.sets);
    assert (k + 1) * g.sets == k * g.sets + g.sets;
  }

  function LoadOf(g: Geometry, m: nat): Request {
    Request(m * g.linesz, 1, false)
  }

  // Position p holds the only store at depth 0.
  ghost predicate OnlyStore(log: seq<Event>, p: nat) {
    && p < |log| && log[p].depth == 0 && log[p].req.store
    && forall q :: 0 <= q < |log| && log[q].depth == 0 && log[q].req.store ==> q == p
  }

  lemma LoadKeepsOnly(log: seq<Event>, p: nat, t: Trace)
    requires OnlyStore(log, p) && !t.req.store
    ensures OnlyStore(log + Log(t, 0), p)
    ensures (log + Log(t, 0))[p] == log[p]
  {
    LogEnds(t, 0);
    var more := Log(t, 0);
    forall q | |log| <= q < |log + more| - 1
      ensures (log + more)[q].depth > 0
    {
      assert more[q - |log|] in more[..|more| - 1];
    }
    assert !(log + more)[|log + more| - 1].req.store;
  }

  lemma OneMoreAccess(c: Chain, run: seq<Trace>, t: Trace)
    requires CanRun(c, run) && Can(After(c, run), t)
    ensures CanRun(c, run + [t]) && After(c, run + [t]) == Apply(After(c, run), t)
    ensures RunLog(run + [t]) == RunLog(run) + Log(t, 0)
  {
    hide Can, Apply, Log;
    var more := run + [t];
    assert more[..|more| - 1] == run && more[|more| - 1] == t;
  }

  // A program that may use the accesses in `ok` only.
  ghost predicate Allowed(run: seq<Trace>, ok: iset<Request>) {
    forall i :: 0 <= i < |run| ==> run[i].req in ok
  }

  // It may read a byte of each of the first ways + 1 lines of every set.
  ghost predicate MayLoad(g: Geometry, ok: iset<Request>) {
    forall m: nat :: m < g.sets * (g.ways + 1) ==> LoadOf(g, m) in ok
  }

  // What the first level looks like after a run.
  lemma TopAfter(c: Chain, run: seq<Trace>)
    requires FreshChain(c) && c.Cached? && CanRun(c, run)
    ensures After(c, run).Cached? && After(c, run).level.geometry == c.level.geometry && c.level.geometry.Good()
    ensures AllGood(After(c, run).Shape()) && Roomy(After(c, run).level)
  {
    hide FreshChain, CanRun, After;
    FreshIsGood(c);
    RunKeepsShape(c, run);
    SameTop(c, After(c, run));
    RunInv(c, run);
    assert LevelInv(After(c, run).level, 0, RunLog(run));
  }

  // Loads of other lines of the set, until line l has been the victim.
  lemma {:induction false} LoadUntilGone(c: Chain, ok: iset<Request>, run: seq<Trace>, l: nat, p: nat)
    returns (more: seq<Trace>)
    requires FreshChain(c) && c.Cached? && MayLoad(c.level.geometry, ok)
    requires CanRun(c, run) && Allowed(run, ok) && OnlyStore(RunLog(run), p)
    requires After(c, run).Cached? && l in After(c, run).level.lines
    ensures CanRun(c, more) && Allowed(more, ok) && OnlyStore(RunLog(more), p)
    ensures RunLog(more)[p] == RunLog(run)[p]
    ensures After(c, more).Cached? && l !in After(c, more).level.lines
    decreases var g := c.level.geometry;
              if g.sets == 0 then 0 else g.ways - |SetAfter(c, run, l)|
  {
    hide CanRun, After, RunLog, Can, OnlyStore, FreshChain, Roomy, Level.Filled, Level.Served;
    TopAfter(c, run);
    var now, g := After(c, run), c.level.geometry;
    assert |now.level.InSet(l % g.sets)| <= g.ways by { RoomInSet(now.level, l % g.sets); }
    var m := AbsentLoad(now.level, l % g.sets);
    var r := LoadOf(g, m);
    Arith.DivMul(m, g.linesz);
    var t;
    if |now.level.InSet(l % g.sets)| < g.ways {
      t := AnswerFilling(now, r);
      OneMoreLoad(c, ok, run, t, p);
      FilledSet(now.level, r, l);
      more := LoadUntilGone(c, ok, run + [t], l, p);
    } else {
      t := AnswerEvicting(now, r, l);
      OneMoreLoad(c, ok, run, t, p);
      more := run + [t];
    }
  }

  // The resident lines of the set of l; nothing without a first level.
  ghost function SetAfter(c: Chain, run: seq<Trace>, l: nat): set<nat>
    requires CanRun(c, run)
  {
    var d := After(c, run);
    if d.Cached? && d.level.geometry.Good() then d.level.InSet(l % d.level.geometry.sets) else {}
  }

  lemma RoomInSet(v: Level, idx: nat)
    requires v.geometry.Good() && Roomy(v)
    ensures |v.InSet(idx)| <= v.geometry.ways
  {
  }

  lemma OneMoreLoad(c: Chain, ok: iset<Request>, run: seq<Trace>, t: Trace, p: nat)
    requires CanRun(c, run) && Allowed(run, ok) && OnlyStore(RunLog(run), p)
    requires Can(After(c, run), t) && !t.req.store && t.req in ok
    ensures CanRun(c, run + [t]) && After(c, run + [t]) == Apply(After(c, run), t)
    ensures Allowed(run + [t], ok) && OnlyStore(RunLog(run + [t]), p)
    ensures RunLog(run + [t])[p] == RunLog(run)[p]
  {
    hide CanRun, After, RunLog, Can, Apply, OnlyStore;
    OneMoreAccess(c, run, t);
    LoadKeepsOnly(RunLog(run), p, t);
  }

  lemma FilledSet(v: Level, r: Request, l: nat)
    requires v.geometry.Good() && v.geometry.LineOf(r.addr) !in v.lines && l in v.lines
    requires v.geometry.LineOf(r.addr) % v.geometry.sets == l % v.geometry.sets
    ensures var w := v.Filled(r).Served(r);
            && w.geometry == v.geometry && l in w.lines
            && |w.InSet(l % v.geometry.sets)| == |v.InSet(l % v.geometry.sets)| + 1
  {
    var idx, m := l % v.geometry.sets, v.geometry.LineOf(r.addr);
    assert v.Filled(r).Served(r).InSet(idx) == v.InSet(idx) + {m};
    assert m !in v.InSet(idx);
  }

  // ---- Two levels ----

  function TwoLevels(upper: Geometry, lower: Geometry): Chain {
    Cached(Level(upper, map[], NO_STATS), Cached(Level(lower, map[], NO_STATS), Memory))
  }

  lemma TwoLevelsShape(upper: Geometry, lower: Geometry)
    requires upper.Good() && lower.Good()
    ensures TwoLevels(upper, lower).Shape() == [upper, lower] && FreshChain(TwoLevels(upper, lower))
  {
    assert TwoLevels(upper, lower).below.Shape() == [lower];
  }

  // Nothing in the way between the program and memory loses byte a of r.
  predicate SafeByte(upper: Geometry, lower: Geometry, r: Request, a: nat)
    requires upper.Good() && lower.Good()
  {
    && upper.LineOf(a) == upper.LineOf(r.addr)
    && lower.LineOf(upper.LineOf(a) * upper.linesz) == lower.LineOf(a)
  }

  // Programs that use the accesses in `ok` never lose a byte, whatever the
  // victims.
  ghost predicate KeepsBytes(upper: Geometry, lower: Geometry, ok: iset<Request>) {
    forall run: seq<Trace>, p: nat ::
      CanRun(TwoLevels(upper, lower), run) && Allowed(run, ok) && StoreAt(run, p) ==>
        AllKept(After(TwoLevels(upper, lower), run), 0, RunLog(run), p)
  }

  // Level 1 is only ever asked to store the base of the one line stored to.
  lemma OneLineSent(log: seq<Event>, z: nat, p: nat, q: nat)
    requires z > 0 && SendsWhatItShould(log, 0, z) && OnlyStore(log, p)
    requires q < |log| && log[q].depth == 1 && log[q].req.store
    ensures log[q].req.addr == log[p].req.addr / z * z && p < q
  {
    assert Justified(log[..q], 0, z, log[q].req);
    var line := log[q].req.addr / z;
    StoredSinceMeans(log[..q], 0, z, line);
    hide StoredSince;
    var p0: nat :| UnsavedFrom(log[..q], 0, z, line, p0);
    assert IsStoreTo(log[p0], 0, z, line);
    assert p0 == p;
  }

  // Depth k is only asked for stores to address `base`.
  ghost predicate StoresOnly(log: seq<Event>, k: nat, base: nat) {
    forall q: nat :: q < |log| && log[q].depth == k && log[q].req.store ==> log[q].req.addr == base
  }

  lemma NoStoreToOther(log: seq<Event>, z: nat, base: nat, l: nat)
    requires z > 0 && base / z != l && StoresOnly(log, 1, base)
    ensures !StoredSince(log, 1, z, l)
  {
    forall p: nat | p < |log| && log[p].depth == 1 && log[p].req.store
      ensures log[p].req.addr / z != l
    {
    }
    StoredSinceMeans(log, 1, z, l);
    hide StoredSince;
  }

  // So memory is only sent the lower line that holds the base.
  lemma BaseLineSent(log: seq<Event>, z: nat, base: nat, q: nat)
    requires z > 0 && StoresOnly(log, 1, base) && SendsWhatItShould(log, 1, z)
    requires q < |log| && log[q].depth == 2 && log[q].req.store
    ensures log[q].req.addr == base / z * z && log[q].req.bytes == z
  {
    assert Justified(log[..q], 1, z, log[q].req);
    var line := log[q].req.addr / z;
    StoredSinceMeans(log[..q], 1, z, line);
    hide StoredSince;
    var p1: nat :| UnsavedFrom(log[..q], 1, z, line, p1);
    assert IsStoreTo(log[p1], 1, z, line);
    assert log[q].req.addr == line * z;
  }

  lemma TwoLevelsAt(c: Chain, upper: Geometry, lower: Geometry)
    requires c.Shape() == [upper, lower]
    ensures c.Depth() == 2 && c.Cached? && c.below.Cached? && c.below.below.Memory?
    ensures c.level.geometry == upper && c.below.level.geometry == lower
    ensures c.At(0) == c.level && c.At(1) == c.below.level
  {
    ShapeTop(c);
    ShapeTop(c.below);
    assert c.below.Depth() == 1 && c.below.At(0) == c.below.level;
  }

  // What a run leaves at both levels.
  lemma LevelsAfter(upper: Geometry, lower: Geometry, run: seq<Trace>)
    requires upper.Good() && lower.Good() && CanRun(TwoLevels(upper, lower), run)
    ensures var now := After(TwoLevels(upper, lower), run);
            && now.Shape() == [upper, lower] && now.Cached? && now.below.Cached?
            && (forall l: nat :: now.level.Dirty(l) <==> StoredSince(RunLog(run), 0, upper.linesz, l))
            && (forall l: nat :: now.below.level.Dirty(l) <==> StoredSince(RunLog(run), 1, lower.linesz, l))
    ensures SendsWhatItShould(RunLog(run), 0, upper.linesz) && SendsWhatItShould(RunLog(run), 1, lower.linesz)
  {
    var c := TwoLevels(upper, lower);
    TwoLevelsShape(upper, lower);
    RunKeepsShape(c, run);
    TwoLevelsAt(After(c, run), upper, lower);
    LevelAfter(c, run, 0);
    LevelAfter(c, run, 1);
    hide CanRun, After, RunLog, SendsWhatItShould, StoredSince, FreshChain, Level.Dirty;
  }

  // A byte whose line has been written back without it is not kept.
  lemma NotKept(now: Chain, upper: Geometry, lower: Geometry, log: seq<Event>, p: nat, a: nat)
    requires upper.Good() && lower.Good() && now.Shape() == [upper, lower]
    requires now.Cached? && now.below.Cached? && upper.LineOf(a) !in now.level.lines
    requires OnlyStore(log, p) && upper.LineOf(log[p].req.addr) == upper.LineOf(a)
    requires lower.LineOf(upper.LineOf(a) * upper.linesz) != lower.LineOf(a)
    requires SendsWhatItShould(log, 0, upper.linesz) && SendsWhatItShould(log, 1, lower.linesz)
    requires forall l: nat :: now.below.level.Dirty(l) <==> StoredSince(log, 1, lower.linesz, l)
    ensures !Kept(now, 0, log, p, a)
  {
    hide SendsWhatItShould, StoredSince;
    var z := lower.linesz;
    var base := upper.LineOf(a) * upper.linesz;
    TwoLevelsAt(now, upper, lower);
    forall q: nat | q < |log| && log[q].depth == 1 && log[q].req.store
      ensures log[q].req.addr == base
    {
      OneLineSent(log, upper.linesz, p, q);
    }
    NoStoreToOther(log, z, base, a / z);
    forall q | p < q < |log| && log[q].depth == 2
      ensures !Covers(log[q].req, a)
    {
      if log[q].req.store {
        BaseLineSent(log, z, base, q);
        if base / z * z <= a < base / z * z + z {
          Arith.DivIs(a, z, base / z, a - base / z * z);
        }
      }
    }
  }

  // One store into fresh caches.
  lemma FirstStore(upper: Geometry, lower: Geometry, store: Request) returns (t: Trace, p: nat)
    requires upper.Good() && lower.Good() && store.store
    ensures t.req == store && CanRun(TwoLevels(upper, lower), [t])
    ensures OnlyStore(RunLog([t]), p) && RunLog([t])[p].req == store && p == |RunLog([t])| - 1
    ensures After(TwoLevels(upper, lower), [t]).Cached?
    ensures upper.LineOf(store.addr) in After(TwoLevels(upper, lower), [t]).level.lines
  {
    var c := TwoLevels(upper, lower);
    TwoLevelsShape(upper, lower);
    NothingIn(c.level, upper.LineOf(store.addr) % upper.sets);
    hide TwoLevels, FreshChain, Log, Can, CanRun, RunLog, After, OnlyStore, Level.InSet, AllGood;
    assert AllGood(c.Shape());
    t := AnswerFilling(c, store);
    NoAccess(c);
    OneMoreAccess(c, [], t);
    assert [] + [t] == [t];
    p := LastIsOnlyStore(t);
    assert RunLog([t]) == Log(t, 0);
  }

  lemma NothingIn(v: Level, idx: nat)
    requires v.geometry.Good() && v.lines == map[]
    ensures |v.InSet(idx)| == 0
  {
    assert v.InSet(idx) == {};
  }

  lemma NoAccess(c: Chain)
    ensures CanRun(c, []) && After(c, []) == c && RunLog([]) == []
  {
  }

  lemma LastIsOnlyStore(t: Trace) returns (p: nat)
    requires t.req.store
    ensures OnlyStore(Log(t, 0), p) && Log(t, 0)[p].req == t.req && p == |Log(t, 0)| - 1
  {
    LogEnds(t, 0);
    hide Log;
    p := |Log(t, 0)| - 1;
    forall q | 0 <= q < p
      ensures Log(t, 0)[q].depth > 0
    {
      assert Log(t, 0)[q] in Log(t, 0)[..p];
    }
  }

  // The bytes past the line end are lost at once: whatever answers the store
  // marks one line.
  lemma PastLineEndLost(upper: Geometry, lower: Geometry, run: seq<Trace>, p: nat, a: nat)
    requires upper.Good() && lower.Good() && CanRun(TwoLevels(upper, lower), run)
    requires OnlyStore(RunLog(run), p) && p == |RunLog(run)| - 1
    requires upper.LineOf(a) != upper.LineOf(RunLog(run)[p].req.addr)
    ensures !Kept(After(TwoLevels(upper, lower), run), 0, RunLog(run), p, a)
  {
    LevelsAfter(upper, lower, run);
    var now, log := After(TwoLevels(upper, lower), run), RunLog(run);
    hide CanRun, After, RunLog, SendsWhatItShould, StoredSince;
    TwoLevelsAt(now, upper, lower);
    if StoredSince(log, 0, upper.linesz, upper.LineOf(a)) {
      StoredByProgram(log, upper.linesz, upper.LineOf(a), p);
    }
    if StoredSince(log, 1, lower.linesz, lower.LineOf(a)) {
      StoredBelow(log, upper.linesz, lower.linesz, lower.LineOf(a), p);
    }
  }

  lemma StoredByProgram(log: seq<Event>, z: nat, l: nat, p: nat)
    requires z > 0 && OnlyStore(log, p) && StoredSince(log, 0, z, l)
    ensures log[p].req.addr / z == l
  {
    StoredSinceMeans(log, 0, z, l);
    hide StoredSince;
    var p0: nat :| UnsavedFrom(log, 0, z, l, p0);
    assert IsStoreTo(log[p0], 0, z, l);
  }

  lemma StoredBelow(log: seq<Event>, z: nat, z1: nat, l: nat, p: nat)
    requires z > 0 && z1 > 0 && OnlyStore(log, p) && SendsWhatItShould(log, 0, z) && StoredSince(log, 1, z1, l)
    ensures p < |log| - 1
  {
    StoredSinceMeans(log, 1, z1, l);
    hide StoredSince, SendsWhatItShould;
    var q: nat :| UnsavedFrom(log, 1, z1, l, q);
    assert IsStoreTo(log[q], 1, z1, l);
    OneLineSent(log, z, p, q);
  }

  // The run that loses an unsafe byte: the store, and for a byte in the line
  // the store starts in, loads until that line is gone.
  lemma LosesAByte(upper: Geometry, lower: Geometry, ok: iset<Request>, r: Request, a: nat)
    requires upper.Good() && lower.Good() && MayLoad(upper, ok)
    requires r in ok && Covers(r, a) && !SafeByte(upper, lower, r, a)
    ensures !KeepsBytes(upper, lower, ok)
  {
    hide CanRun, After, RunLog, Kept, OnlyStore, MayLoad, Allowed, FreshChain;
    var c := TwoLevels(upper, lower);
    TwoLevelsShape(upper, lower);
    var t, p := FirstStore(upper, lower, r);
    OneAllowed(t, ok);
    var run := [t];
    if upper.LineOf(a) == upper.LineOf(r.addr) {
      run := LoadUntilGone(c, ok, [t], upper.LineOf(a), p);
      LevelsAfter(upper, lower, run);
      NotKept(After(c, run), upper, lower, RunLog(run), p, a);
    } else {
      PastLineEndLost(upper, lower, run, p, a);
    }
    OnlyStoreIsStore(run, p);
    assert !AllKept(After(c, run), 0, RunLog(run), p);
  }

  lemma OneAllowed(t: Trace, ok: iset<Request>)
    requires t.req in ok
    ensures Allowed([t], ok)
  {
  }

  lemma OnlyStoreIsStore(run: seq<Trace>, p: nat)
    requires OnlyStore(RunLog(run), p)
    ensures StoreAt(run, p)
  {
  }

  // The log of a run holds the accesses of the run.
  lemma {:induction false} StoreIsAccess(run: seq<Trace>, p: nat)
    requires StoreAt(run, p)
    ensures exists i :: 0 <= i < |run| && run[i].req == RunLog(run)[p].req
    decreases |run|
  {
    var n := |run| - 1;
    var most, last := RunLog(run[..n]), Log(run[n], 0);
    assert RunLog(run) == most + last;
    if p < |most| {
      StoreIsAccess(run[..n], p);
      var i :| 0 <= i < n && run[..n][i].req == most[p].req;
      assert run[i] == run[..n][i];
    } else {
      LogEnds(run[n], 0);
      hide Log;
      forall q | 0 <= q < |last| - 1
        ensures last[q].depth > 0
      {
        assert last[q] in last[..|last| - 1];
      }
    }
  }

  // Exactly: programs with certain accesses never lose a byte if and only if
  // every byte of every store among these accesses is safe.
  lemma BytesKeptExactly(upper: Geometry, lower: Geometry, ok: iset<Request>)
    requires upper.Good() && lower.Good() && MayLoad(upper, ok)
    ensures KeepsBytes(upper, lower, ok) <==>
            forall r: Request, a: nat :: r in ok && Covers(r, a) ==> SafeByte(upper, lower, r, a)
  {
    hide CanRun, After, RunLog, Kept, MayLoad, SafeByte;
    if r: Request, a: nat :| r in ok && Covers(r, a) && !SafeByte(upper, lower, r, a) {
      LosesAByte(upper, lower, ok, r, a);
    } else {
      forall run: seq<Trace>, p: nat, a: nat | CanRun(TwoLevels(upper, lower), run) && Allowed(run, ok)
          && StoreAt(run, p) && Covers(RunLog(run)[p].req, a)
        ensures Kept(After(TwoLevels(upper, lower), run), 0, RunLog(run), p, a)
      {
        StoreIsAccess(run, p);
        SafeByteKept(upper, lower, run, p, a);
      }
    }
  }

  lemma SafeByteKept(upper: Geometry, lower: Geometry, run: seq<Trace>, p: nat, a: nat)
    requires upper.Good() && lower.Good() && CanRun(TwoLevels(upper, lower), run) && StoreAt(run, p)
    requires SafeByte(upper, lower, RunLog(run)[p].req, a)
    ensures Kept(After(TwoLevels(upper, lower), run), 0, RunLog(run), p, a)
  {
    hide CanRun, After, RunLog, Kept;
    TwoLevelsShape(upper, lower);
    assert [upper, lower][1..] == [lower];
    ByteNeverLost(TwoLevels(upper, lower), run, p, a);
  }

  // With single-byte stores among the accesses: if and only if the lower line
  // size is a multiple of the upper one and no store crosses an upper line end.
  lemma LineSizesExactly(upper: Geometry, lower: Geometry, ok: iset<Request>)
    requires upper.Good() && lower.Good() && MayLoad(upper, ok) && Request(lower.linesz, 1, true) in ok
    ensures KeepsBytes(upper, lower, ok) <==>
            lower.linesz % upper.linesz == 0 && forall r: Request :: r in ok && r.store ==> !Crosses(upper, r)
  {
    BytesKeptExactly(upper, lower, ok);
    var z := lower.linesz;
    hide KeepsBytes, MayLoad;
    if lower.linesz % upper.linesz != 0 {
      SecondLineUnsafe(upper, lower);
      assert Covers(Request(z, 1, true), z);
    } else if r: Request :| r in ok && r.store && Crosses(upper, r) {
      assert Covers(r, r.addr + r.bytes - 1);
      assert !SafeByte(upper, lower, r, r.addr + r.bytes - 1);
    } else {
      forall r: Request, a: nat | r in ok && Covers(r, a)
        ensures SafeByte(upper, lower, r, a)
      {
        InOneLine(upper, r, a);
        BaseInSameLine(a, upper.linesz, lower.linesz);
      }
    }
  }

  // The first address of the lower level's second line lies inside an upper
  // line that starts in the first.
  lemma SecondLineUnsafe(upper: Geometry, lower: Geometry)
    requires upper.Good() && lower.Good() && lower.linesz % upper.linesz != 0
    ensures !SafeByte(upper, lower, Request(lower.linesz, 1, true), lower.linesz)
  {
    var z := lower.linesz;
    var base := z / upper.linesz * upper.linesz;
    assert base == z - z % upper.linesz;
    Arith.DivIs(base, z, 0, base);
    Arith.DivIs(z, z, 1, 0);
  }

  // Loads and stores of 1, 2, 4 or 8 bytes at multiples of their size.
  ghost function AlignedAccesses(): iset<Request> {
    iset r: Request | r.addr < CacheTags.WORD && r.bytes in {1, 2, 4, 8} && r.addr % r.bytes == 0
  }

  // For the geometries that init() accepts and programs with aligned accesses
  // to 64-bit addresses: if and only if lines do not shrink downwards. The first
  // cache has to be smaller than the address space.
  lemma AcceptedSizesExactly(upper: Geometry, lower: Geometry)
    requires upper.Good() && lower.Good() && upper.linesz >= 8 && lower.linesz >= 8
    requires Arith.IsPow2(upper.linesz) && Arith.IsPow2(lower.linesz)
    requires upper.sets * (upper.ways + 1) * upper.linesz <= CacheTags.WORD && lower.linesz < CacheTags.WORD
    ensures KeepsBytes(upper, lower, AlignedAccesses()) <==> upper.linesz <= lower.linesz
  {
    AlignedLoads(upper);
    forall r: Request | r in AlignedAccesses() && r.store
      ensures !Crosses(upper, r)
    {
      EightDivides(upper.linesz, r.bytes);
      AlignedStays(upper, r);
    }
    hide KeepsBytes, MayLoad, Crosses;
    LineSizesExactly(upper, lower, AlignedAccesses());
    if upper.linesz <= lower.linesz {
      Arith.PowersDivide(upper.linesz, lower.linesz);
    } else {
      Arith.DivIs(lower.linesz, upper.linesz, 0, lower.linesz);
    }
  }

  lemma AlignedLoads(g: Geometry)
    requires g.Good() && g.sets * (g.ways + 1) * g.linesz <= CacheTags.WORD
    ensures MayLoad(g, AlignedAccesses())
  {
    forall m: nat | m < g.sets * (g.ways + 1)
      ensures LoadOf(g, m) in AlignedAccesses()
    {
      Arith.MulMono(m + 1, g.sets * (g.ways + 1), g.linesz);
      assert (m + 1) * g.linesz == m * g.linesz + g.linesz;
    }
  }

  lemma EightDivides(z: nat, bytes: nat)
    requires Arith.IsPow2(z) && z >= 8 && bytes in {1, 2, 4, 8}
    ensures z % bytes == 0
  {
    assert Arith.IsPow2(bytes);
    Arith.PowersDivide(bytes, z);
  }
}
