// A chain of caches, seen without its replacement policy: which lines each
// level holds, which of them are dirty, what each level counts, and which
// requests each level sends to the next. Every cache class of the simulator is
// proved to take steps of this model (see CacheSim.dfy); here the steps are
// followed over whole runs.

module CacheChain {
  import Arith

  // One call of access().
  datatype Request = Request(addr: nat, bytes: nat, store: bool)

  datatype Geometry = Geometry(sets: nat, ways: nat, linesz: nat) {
    predicate Good() {
      sets > 0 && ways > 0 && linesz > 0
    }

    function LineOf(addr: nat): nat
      requires Good()
    {
      addr / linesz
    }

    function FillOf(r: Request): Request
      requires Good()
    {
      Request(LineOf(r.addr) * linesz, linesz, false)
    }

    function WriteOf(victim: nat): Request {
      Request(victim * linesz, linesz, true)
    }
  }

  datatype Stats = Stats(
    readAccesses: nat, readMisses: nat, bytesRead: nat,
    writeAccesses: nat, writeMisses: nat, bytesWritten: nat,
    writebacks: nat)

  const NO_STATS := Stats(0, 0, 0, 0, 0, 0, 0)

  // `lines` maps each resident line number to its dirty flag.
  datatype Level = Level(geometry: Geometry, lines: map<nat, bool>, stats: Stats) {
    predicate Dirty(l: nat) {
      l in lines && lines[l]
    }

    function InSet(idx: nat): set<nat>
      requires geometry.Good()
    {
      set l | l in lines && l % geometry.sets == idx
    }

    // The four things an access does to a level, in the order it does them.

    function Dropped(victim: nat): Level {
      this.(lines := lines - {victim})
    }

    function Written(victim: nat): Level {
      Dropped(victim).(stats := stats.(writebacks := stats.writebacks + 1))
    }

    function Filled(r: Request): Level
      requires geometry.Good()
    {
      var counted := if r.store then stats.(writeMisses := stats.writeMisses + 1)
                     else stats.(readMisses := stats.readMisses + 1);
      this.(lines := lines[geometry.LineOf(r.addr) := false], stats := counted)
    }

    function Served(r: Request): Level
      requires geometry.Good() && geometry.LineOf(r.addr) in lines
    {
      var l := geometry.LineOf(r.addr);
      var counted := if r.store then
                       stats.(writeAccesses := stats.writeAccesses + 1,
                       bytesWritten := stats.bytesWritten + r.bytes)
                     else
                       stats.(readAccesses := stats.readAccesses + 1,
                       bytesRead := stats.bytesRead + r.bytes);
      this.(lines := lines[l := lines[l] || r.store], stats := counted)
    }
  }

  // A level and its miss handler; `Memory` is the missing handler of the last
  // level.
  datatype Chain = Memory | Cached(level: Level, below: Chain) {
    function Depth(): nat {
      if Memory? then 0 else 1 + below.Depth()
    }

    function At(k: nat): Level
      requires k < Depth()
    {
      if k == 0 then level else below.At(k - 1)
    }

    // The geometries from the first level down.
    function Shape(): (gs: seq<Geometry>)
      ensures |gs| == Depth()
    {
      if Memory? then [] else [level.geometry] + below.Shape()
    }
  }

  // What one access did: it reached memory, it hit, it filled a free way, it
  // replaced a clean line, or it wrote a dirty line back before the fill.
  datatype Trace =
    | Reached(req: Request)
    | Hit(req: Request)
    | Refill(req: Request, fill: Trace)
    | Replace(req: Request, victim: nat, fill: Trace)
    | WriteBack(req: Request, victim: nat, write: Trace, fill: Trace)

  // The victim may be any resident line of the set the request selects.
  predicate Victim(v: Level, r: Request, victim: nat)
    requires v.geometry.Good()
  {
    && victim in v.lines
    && victim % v.geometry.sets == v.geometry.LineOf(r.addr) % v.geometry.sets
  }

  predicate Misses(c: Chain, r: Request, fill: Trace) {
    && c.Cached?
    && c.level.geometry.Good()
    && c.level.geometry.LineOf(r.addr) !in c.level.lines
    && fill.req == c.level.geometry.FillOf(r)
  }

  // c can answer t.req as t says.
  predicate Can(c: Chain, t: Trace)
    decreases t, 0
  {
    match t
    case Reached(r) => c.Memory?
    case Hit(r) =>
      && c.Cached?
      && c.level.geometry.Good()
      && c.level.geometry.LineOf(r.addr) in c.level.lines
    case Refill(r, fill) =>
      && Misses(c, r, fill)
      && |c.level.InSet(c.level.geometry.LineOf(r.addr) % c.level.geometry.sets)| < c.level.geometry.ways
      && Can(c.below, fill)
    case Replace(r, victim, fill) =>
      && Misses(c, r, fill)
      && Victim(c.level, r, victim)
      && !c.level.Dirty(victim)
      && Can(c.below, fill)
    case WriteBack(r, victim, write, fill) =>
      && Misses(c, r, fill)
      && Victim(c.level, r, victim)
      && c.level.Dirty(victim)
      && write.req == c.level.geometry.WriteOf(victim)
      && Can(c.below, write)
      && Can(Apply(c.below, write), fill)
  }

  function Apply(c: Chain, t: Trace): (d: Chain)
    requires Can(c, t)
    ensures d.Depth() == c.Depth()
    decreases t, 1
  {
    match t
    case Reached(r) => c
    case Hit(r) => Cached(c.level.Served(r), c.below)
    case Refill(r, fill) => Cached(c.level.Filled(r).Served(r), Apply(c.below, fill))
    case Replace(r, victim, fill) => Cached(c.level.Dropped(victim).Filled(r).Served(r), Apply(c.below, fill))
    case WriteBack(r, victim, write, fill) =>
      Cached(c.level.Written(victim).Filled(r).Served(r), Apply(Apply(c.below, write), fill))
  }

  // A run is a list of accesses to the first level.
  predicate CanRun(c: Chain, run: seq<Trace>)
    decreases |run|, 0
  {
    run == [] || (CanRun(c, run[..|run| - 1]) && Can(After(c, run[..|run| - 1]), run[|run| - 1]))
  }

  function After(c: Chain, run: seq<Trace>): (d: Chain)
    requires CanRun(c, run)
    ensures d.Depth() == c.Depth()
    decreases |run|, 1
  {
    if run == [] then c else Apply(After(c, run[..|run| - 1]), run[|run| - 1])
  }

  // ---- The event log ----

  // Depth k receives req; the requests that level k sends arrive at depth
  // k + 1, and memory sits at depth c.Depth().
  datatype Event = Event(depth: nat, req: Request)

  // Requests in the order they are completed.
  function Log(t: Trace, k: nat): seq<Event> {
    match t
    case Reached(r) => [Event(k, r)]
    case Hit(r) => [Event(k, r)]
    case Refill(r, fill) => Log(fill, k + 1) + [Event(k, r)]
    case Replace(r, victim, fill) => Log(fill, k + 1) + [Event(k, r)]
    case WriteBack(r, victim, write, fill) => Log(write, k + 1) + Log(fill, k + 1) + [Event(k, r)]
  }

  function RunLog(run: seq<Trace>): seq<Event> {
    if run == [] then [] else RunLog(run[..|run| - 1]) + Log(run[|run| - 1], 0)
  }

  // Line l has been stored to at depth k since depth k last sent any request
  // (a fill or a write-back) for it.
  predicate StoredSince(log: seq<Event>, k: nat, z: nat, l: nat)
    requires z > 0
  {
    if log == [] then false
    else
      var e := log[|log| - 1];
      if e.depth == k && e.req.store && e.req.addr / z == l then true
      else if e.depth == k + 1 && e.req.addr / z == l then false
      else StoredSince(log[..|log| - 1], k, z, l)
  }

  function Count(log: seq<Event>, k: nat, store: bool): nat {
    if log == [] then 0
    else
      var e := log[|log| - 1];
      Count(log[..|log| - 1], k, store) + (if e.depth == k && e.req.store == store then 1 else 0)
  }

  function Bytes(log: seq<Event>, k: nat, store: bool): nat {
    if log == [] then 0
    else
      var e := log[|log| - 1];
      Bytes(log[..|log| - 1], k, store) + (if e.depth == k && e.req.store == store then e.req.bytes else 0)
  }

  // How often a store at depth k turned a clean line dirty.
  function Turns(log: seq<Event>, k: nat, z: nat): nat
    requires z > 0
  {
    if log == [] then 0
    else
      var before := log[..|log| - 1];
      var e := log[|log| - 1];
      var turn := e.depth == k && e.req.store && !StoredSince(before, k, z, e.req.addr / z);
      Turns(before, k, z) + (if turn then 1 else 0)
  }

  // Every request depth k sends is for a whole line, and it is a store exactly
  // when the line has been stored to since the last request for it.
  predicate SendsWhatItShould(log: seq<Event>, k: nat, z: nat)
    requires z > 0
  {
    forall q :: 0 <= q < |log| && log[q].depth == k + 1 ==> Justified(log[..q], k, z, log[q].req)
  }

  predicate Justified(before: seq<Event>, k: nat, z: nat, r: Request)
    requires z > 0
  {
    && r.addr % z == 0
    && r.bytes == z
    && (r.store <==> StoredSince(before, k, z, r.addr / z))
  }

  // ---- What holds of a level after any run ----

  function DirtySet(v: Level): set<nat> {
    set l | l in v.lines && v.lines[l]
  }

  ghost predicate DirtyIsStored(v: Level, k: nat, log: seq<Event>)
    requires v.geometry.Good()
  {
    forall l: nat :: v.Dirty(l) <==> StoredSince(log, k, v.geometry.linesz, l)
  }

  predicate Counted(v: Level, k: nat, log: seq<Event>)
    requires v.geometry.Good()
  {
    && v.stats.readAccesses == Count(log, k, false)
    && v.stats.writeAccesses == Count(log, k, true)
    && v.stats.bytesRead == Bytes(log, k, false)
    && v.stats.bytesWritten == Bytes(log, k, true)
    && v.stats.readMisses + v.stats.writeMisses == Count(log, k + 1, false)
    && v.stats.writebacks == Count(log, k + 1, true)
    && Turns(log, k, v.geometry.linesz) == v.stats.writebacks + |DirtySet(v)|
  }

  ghost predicate Roomy(v: Level)
    requires v.geometry.Good()
  {
    forall idx: nat :: |v.InSet(idx)| <= v.geometry.ways
  }

  ghost predicate LevelInv(v: Level, k: nat, log: seq<Event>) {
    && v.geometry.Good()
    && DirtyIsStored(v, k, log)
    && SendsWhatItShould(log, k, v.geometry.linesz)
    && Counted(v, k, log)
    && Roomy(v)
  }

  ghost predicate ChainInv(c: Chain, k: nat, log: seq<Event>) {
    c.Cached? ==> LevelInv(c.level, k, log) && ChainInv(c.below, k + 1, log)
  }

  // ---- One event at a time ----

  lemma Appended(log: seq<Event>, e: Event)
    ensures (log + [e])[..|log|] == log && (log + [e])[|log|] == e
  {
  }

  lemma AppendedStored(log: seq<Event>, e: Event, k: nat, z: nat, l: nat)
    requires z > 0
    ensures StoredSince(log + [e], k, z, l) ==
            if e.depth == k && e.req.store && e.req.addr / z == l then true
            else if e.depth == k + 1 && e.req.addr / z == l then false
            else StoredSince(log, k, z, l)
  {
    Appended(log, e);
  }

  lemma AppendedSends(log: seq<Event>, e: Event, k: nat, z: nat)
    requires z > 0 && SendsWhatItShould(log, k, z)
    requires e.depth == k + 1 ==> Justified(log, k, z, e.req)
    ensures SendsWhatItShould(log + [e], k, z)
  {
    hide Justified;
    Appended(log, e);
    forall q | 0 <= q < |log + [e]| && (log + [e])[q].depth == k + 1
      ensures Justified((log + [e])[..q], k, z, (log + [e])[q].req)
    {
      if q < |log| {
        assert (log + [e])[..q] == log[..q];
      }
    }
  }

  // Events elsewhere in the chain do not concern a level.
  lemma Elsewhere(v: Level, k: nat, log: seq<Event>, e: Event)
    requires LevelInv(v, k, log)
    requires e.depth != k && e.depth != k + 1
    ensures LevelInv(v, k, log + [e])
  {
    Appended(log, e);
    AppendedSends(log, e, k, v.geometry.linesz);
  }

  lemma {:induction false} AllElsewhere(v: Level, k: nat, log: seq<Event>, more: seq<Event>)
    requires LevelInv(v, k, log)
    requires forall e <- more :: e.depth > k + 1
    ensures LevelInv(v, k, log + more)
    decreases |more|
  {
    if more == [] {
      assert log + more == log;
    } else {
      var n := |more| - 1;
      AllElsewhere(v, k, log, more[..n]);
      Elsewhere(v, k, log + more[..n], more[n]);
      assert log + more == log + more[..n] + [more[n]];
    }
  }

  lemma {:induction false} ChainElsewhere(c: Chain, k: nat, log: seq<Event>, e: Event)
    requires ChainInv(c, k, log)
    requires e.depth < k
    ensures ChainInv(c, k, log + [e])
    decreases c
  {
    hide LevelInv;
    if c.Cached? {
      Elsewhere(c.level, k, log, e);
      ChainElsewhere(c.below, k + 1, log, e);
    }
  }

  lemma DropKeepsRoom(v: Level, victim: nat)
    requires v.geometry.Good() && Roomy(v)
    ensures Roomy(v.Dropped(victim))
  {
    forall idx: nat
      ensures |v.Dropped(victim).InSet(idx)| <= v.geometry.ways
    {
      assert |v.InSet(idx)| <= v.geometry.ways;
      Arith.SubsetSize(v.Dropped(victim).InSet(idx), v.InSet(idx));
    }
  }

  lemma DropMakesRoom(v: Level, victim: nat)
    requires v.geometry.Good() && Roomy(v) && victim in v.lines
    ensures |v.Dropped(victim).InSet(victim % v.geometry.sets)| < v.geometry.ways
  {
    var idx := victim % v.geometry.sets;
    assert |v.InSet(idx)| <= v.geometry.ways;
    assert v.Dropped(victim).InSet(idx) == v.InSet(idx) - {victim};
    assert victim in v.InSet(idx);
  }

  lemma FillInSet(v: Level, r: Request, idx: nat)
    requires v.geometry.Good()
    ensures var l := v.geometry.LineOf(r.addr);
            v.Filled(r).InSet(idx) == v.InSet(idx) + if idx == l % v.geometry.sets then {l} else {}
  {
  }

  lemma FillKeepsRoom(v: Level, r: Request)
    requires v.geometry.Good() && Roomy(v)
    requires |v.InSet(v.geometry.LineOf(r.addr) % v.geometry.sets)| < v.geometry.ways
    ensures Roomy(v.Filled(r))
  {
    hide Level.InSet;
    forall idx: nat
      ensures |v.Filled(r).InSet(idx)| <= v.geometry.ways
    {
      assert |v.InSet(idx)| <= v.geometry.ways;
      FillInSet(v, r, idx);
    }
  }

  lemma ServeKeepsRoom(v: Level, r: Request)
    requires v.geometry.Good() && Roomy(v) && v.geometry.LineOf(r.addr) in v.lines
    ensures Roomy(v.Served(r))
  {
    forall idx: nat
      ensures |v.Served(r).InSet(idx)| <= v.geometry.ways
    {
      assert |v.InSet(idx)| <= v.geometry.ways;
      assert v.Served(r).InSet(idx) == v.InSet(idx);
    }
  }

  // Sending a dirty line down.
  lemma WriteStep(v: Level, k: nat, log: seq<Event>, victim: nat)
    requires LevelInv(v, k, log) && v.Dirty(victim)
    ensures LevelInv(v.Written(victim), k, log + [Event(k + 1, v.geometry.WriteOf(victim))])
  {
    var z := v.geometry.linesz;
    var e := Event(k + 1, v.geometry.WriteOf(victim));
    Appended(log, e);
    Arith.DivMul(victim, z);
    assert e.req.addr / z == victim;
    AppendedSends(log, e, k, z);
    DropKeepsRoom(v, victim);
    assert Roomy(v.Written(victim)) by {
      assert forall idx: nat :: v.Written(victim).InSet(idx) == v.Dropped(victim).InSet(idx);
    }
    forall l: nat
      ensures v.Written(victim).Dirty(l) <==> StoredSince(log + [e], k, z, l)
    {
      AppendedStored(log, e, k, z, l);
    }
    assert DirtySet(v.Written(victim)) == DirtySet(v) - {victim};
    assert victim in DirtySet(v);
  }

  lemma DropStep(v: Level, k: nat, log: seq<Event>, victim: nat)
    requires LevelInv(v, k, log) && !v.Dirty(victim)
    ensures LevelInv(v.Dropped(victim), k, log)
  {
    DropKeepsRoom(v, victim);
    assert DirtySet(v.Dropped(victim)) == DirtySet(v);
  }

  lemma FillStep(v: Level, k: nat, log: seq<Event>, r: Request)
    requires LevelInv(v, k, log)
    requires v.geometry.LineOf(r.addr) !in v.lines
    requires |v.InSet(v.geometry.LineOf(r.addr) % v.geometry.sets)| < v.geometry.ways
    ensures LevelInv(v.Filled(r), k, log + [Event(k + 1, v.geometry.FillOf(r))])
  {
    var z := v.geometry.linesz;
    var e := Event(k + 1, v.geometry.FillOf(r));
    var l := v.geometry.LineOf(r.addr);
    Appended(log, e);
    Arith.DivMul(l, z);
    assert e.req.addr / z == l;
    AppendedSends(log, e, k, z);
    FillKeepsRoom(v, r);
    forall m: nat
      ensures v.Filled(r).Dirty(m) <==> StoredSince(log + [e], k, z, m)
    {
      AppendedStored(log, e, k, z, m);
    }
    assert DirtySet(v.Filled(r)) == DirtySet(v);
  }

  lemma ServeStep(v: Level, k: nat, log: seq<Event>, r: Request)
    requires LevelInv(v, k, log) && v.geometry.LineOf(r.addr) in v.lines
    ensures LevelInv(v.Served(r), k, log + [Event(k, r)])
  {
    var e := Event(k, r);
    var l := v.geometry.LineOf(r.addr);
    Appended(log, e);
    AppendedSends(log, e, k, v.geometry.linesz);
    ServeKeepsRoom(v, r);
    assert v.Dirty(l) <==> StoredSince(log, k, v.geometry.linesz, l);
    if r.store {
      assert l in DirtySet(v) <==> v.Dirty(l);
      assert DirtySet(v.Served(r)) == DirtySet(v) + {l};
      assert |DirtySet(v) + {l}| == |DirtySet(v)| + if v.Dirty(l) then 0 else 1 by {
        if v.Dirty(l) {
          assert DirtySet(v) + {l} == DirtySet(v);
        }
      }
      assert Turns(log + [e], k, v.geometry.linesz) == Turns(log, k, v.geometry.linesz) + if v.Dirty(l) then 0 else 1;
    } else {
      assert DirtySet(v.Served(r)) == DirtySet(v);
    }
  }

  // ---- One access ----

  // The log of an access ends with the access; what comes before it happened
  // further down.
  lemma {:induction false} LogEnds(t: Trace, k: nat)
    ensures |Log(t, k)| > 0
    ensures Log(t, k)[|Log(t, k)| - 1] == Event(k, t.req)
    ensures forall e <- Log(t, k)[..|Log(t, k)| - 1] :: e.depth > k
  {
    match t
    case Reached(r) =>
    case Hit(r) =>
    case Refill(r, fill) =>
      LogEnds(fill, k + 1);
    case Replace(r, victim, fill) =>
      LogEnds(fill, k + 1);
    case WriteBack(r, victim, write, fill) =>
      LogEnds(write, k + 1);
      LogEnds(fill, k + 1);
  }

  // A level sees a request it sends as one event, at its end.
  lemma SentAsOne(v: Level, k: nat, log: seq<Event>, t: Trace)
    requires LevelInv(v, k, log)
    ensures |Log(t, k + 1)| > 0
    ensures LevelInv(v, k, log + Log(t, k + 1)[..|Log(t, k + 1)| - 1])
    ensures log + Log(t, k + 1) == log + Log(t, k + 1)[..|Log(t, k + 1)| - 1] + [Event(k + 1, t.req)]
  {
    hide LevelInv;
    LogEnds(t, k + 1);
    AllElsewhere(v, k, log, Log(t, k + 1)[..|Log(t, k + 1)| - 1]);
  }

  lemma FilledThenServed(v: Level, k: nat, log: seq<Event>, r: Request, fill: Trace)
    requires LevelInv(v, k, log)
    requires v.geometry.LineOf(r.addr) !in v.lines
    requires |v.InSet(v.geometry.LineOf(r.addr) % v.geometry.sets)| < v.geometry.ways
    requires fill.req == v.geometry.FillOf(r)
    ensures LevelInv(v.Filled(r).Served(r), k, log + Log(fill, k + 1) + [Event(k, r)])
  {
    SentAsOne(v, k, log, fill);
    var most := log + Log(fill, k + 1)[..|Log(fill, k + 1)| - 1];
    FillStep(v, k, most, r);
    ServeStep(v.Filled(r), k, most + [Event(k + 1, fill.req)], r);
  }

  lemma DroppedThenServed(v: Level, k: nat, log: seq<Event>, r: Request, victim: nat, fill: Trace)
    requires LevelInv(v, k, log)
    requires v.geometry.LineOf(r.addr) !in v.lines
    requires Victim(v, r, victim) && !v.Dirty(victim)
    requires fill.req == v.geometry.FillOf(r)
    ensures LevelInv(v.Dropped(victim).Filled(r).Served(r), k, log + Log(fill, k + 1) + [Event(k, r)])
  {
    DropStep(v, k, log, victim);
    DropMakesRoom(v, victim);
    FilledThenServed(v.Dropped(victim), k, log, r, fill);
  }

  lemma WrittenThenServed(v: Level, k: nat, log: seq<Event>, r: Request, victim: nat, write: Trace, fill: Trace)
    requires LevelInv(v, k, log)
    requires v.geometry.LineOf(r.addr) !in v.lines
    requires Victim(v, r, victim) && v.Dirty(victim)
    requires write.req == v.geometry.WriteOf(victim) && fill.req == v.geometry.FillOf(r)
    ensures LevelInv(v.Written(victim).Filled(r).Served(r), k,
                     log + Log(write, k + 1) + Log(fill, k + 1) + [Event(k, r)])
  {
    SentAsOne(v, k, log, write);
    var most := log + Log(write, k + 1)[..|Log(write, k + 1)| - 1];
    WriteStep(v, k, most, victim);
    DropMakesRoom(v, victim);
    var idx := victim % v.geometry.sets;
    assert v.Written(victim).InSet(idx) == v.Dropped(victim).InSet(idx);
    FilledThenServed(v.Written(victim), k, log + Log(write, k + 1), r, fill);
  }

  lemma {:induction false} AccessKeeps(c: Chain, k: nat, log: seq<Event>, t: Trace)
    requires ChainInv(c, k, log) && Can(c, t)
    ensures ChainInv(Apply(c, t), k, log + Log(t, k))
    decreases t, 0
  {
    hide LevelInv, Victim, Level.InSet, Level.Dirty;
    hide Level.Dropped, Level.Written, Level.Filled, Level.Served;
    hide Geometry.FillOf, Geometry.WriteOf, Geometry.LineOf;
    match t
    case Reached(r) =>
    case Hit(r) =>
      ServeStep(c.level, k, log, r);
      ChainElsewhere(c.below, k + 1, log, Event(k, r));
    case Refill(r, fill) =>
      FilledThenServed(c.level, k, log, r, fill);
      BelowKeeps(c.below, k, log, r, fill);
    case Replace(r, victim, fill) =>
      DroppedThenServed(c.level, k, log, r, victim, fill);
      BelowKeeps(c.below, k, log, r, fill);
    case WriteBack(r, victim, write, fill) =>
      WrittenThenServed(c.level, k, log, r, victim, write, fill);
      AccessKeeps(c.below, k + 1, log, write);
      BelowKeeps(Apply(c.below, write), k, log + Log(write, k + 1), r, fill);
      assert log + Log(t, k) == log + Log(write, k + 1) + Log(fill, k + 1) + [Event(k, r)];
  }

  lemma {:induction false} BelowKeeps(below: Chain, k: nat, log: seq<Event>, r: Request, fill: Trace)
    requires ChainInv(below, k + 1, log) && Can(below, fill)
    ensures ChainInv(Apply(below, fill), k + 1, log + Log(fill, k + 1) + [Event(k, r)])
    ensures log + Log(fill, k + 1) + [Event(k, r)] == log + (Log(fill, k + 1) + [Event(k, r)])
    decreases fill, 1
  {
    hide LevelInv;
    AccessKeeps(below, k + 1, log, fill);
    ChainElsewhere(Apply(below, fill), k + 1, log + Log(fill, k + 1), Event(k, r));
  }

  // ---- Whole runs ----

  // What init() leaves: empty caches, all counters at zero.
  predicate FreshChain(c: Chain) {
    c.Cached? ==>
      && c.level.geometry.Good()
      && c.level.lines == map[]
      && c.level.stats == NO_STATS
      && FreshChain(c.below)
  }

  lemma {:induction false} FreshInv(c: Chain, k: nat)
    requires FreshChain(c)
    ensures ChainInv(c, k, [])
    decreases c
  {
    if c.Cached? {
      assert DirtySet(c.level) == {};
      assert forall idx: nat :: c.level.InSet(idx) == {};
      FreshInv(c.below, k + 1);
    }
  }

  lemma {:induction false} RunInv(c: Chain, run: seq<Trace>)
    requires FreshChain(c) && CanRun(c, run)
    ensures ChainInv(After(c, run), 0, RunLog(run))
    decreases |run|
  {
    hide LevelInv;
    if run == [] {
      FreshInv(c, 0);
    } else {
      var most := run[..|run| - 1];
      RunInv(c, most);
      AccessKeeps(After(c, most), 0, RunLog(most), run[|run| - 1]);
    }
  }

  lemma {:induction false} LevelOfChain(c: Chain, k: nat, log: seq<Event>, j: nat)
    requires ChainInv(c, k, log) && j < c.Depth()
    ensures LevelInv(c.At(j), k + j, log)
    decreases c
  {
    hide LevelInv;
    if j > 0 {
      LevelOfChain(c.below, k + 1, log, j - 1);
    }
  }

  // Level k of the chain after a run from fresh caches.
  lemma LevelAfter(c: Chain, run: seq<Trace>, k: nat)
    requires FreshChain(c) && CanRun(c, run) && k < c.Depth()
    ensures LevelInv(After(c, run).At(k), k, RunLog(run))
  {
    hide LevelInv;
    RunInv(c, run);
    LevelOfChain(After(c, run), 0, RunLog(run), k);
  }

  predicate IsStoreTo(e: Event, k: nat, z: nat, l: nat)
    requires z > 0
  {
    e.depth == k && e.req.store && e.req.addr / z == l
  }

  predicate IsSentFor(e: Event, k: nat, z: nat, l: nat)
    requires z > 0
  {
    e.depth == k + 1 && e.req.addr / z == l
  }

  // Position p stores to line l, and no request for l is sent after that.
  predicate UnsavedFrom(log: seq<Event>, k: nat, z: nat, l: nat, p: nat)
    requires z > 0
  {
    && p < |log|
    && IsStoreTo(log[p], k, z, l)
    && forall q :: p < q < |log| ==> !IsSentFor(log[q], k, z, l)
  }

  lemma UnsavedAppended(log: seq<Event>, e: Event, k: nat, z: nat, l: nat, p: nat)
    requires z > 0
    ensures UnsavedFrom(log + [e], k, z, l, p) <==>
            if p == |log| then IsStoreTo(e, k, z, l)
            else UnsavedFrom(log, k, z, l, p) && !IsSentFor(e, k, z, l)
  {
    var more := log + [e];
    if p < |log| {
      assert more[p] == log[p] && more[|log|] == e;
      assert forall q :: p < q < |log| ==> more[q] == log[q];
    }
  }

  // Reading StoredSince: some store to the line came after every request sent
  // for it.
  lemma {:induction false} StoredSinceMeans(log: seq<Event>, k: nat, z: nat, l: nat)
    requires z > 0
    ensures StoredSince(log, k, z, l) <==> exists p: nat :: UnsavedFrom(log, k, z, l, p)
    decreases |log|
  {
    if log != [] {
      var front, e := log[..|log| - 1], log[|log| - 1];
      assert log == front + [e];
      StoredSinceMeans(front, k, z, l);
      AppendedStored(front, e, k, z, l);
      forall p: nat
        ensures UnsavedFrom(log, k, z, l, p) <==>
                if p == |front| then IsStoreTo(e, k, z, l)
                else UnsavedFrom(front, k, z, l, p) && !IsSentFor(e, k, z, l)
      {
        UnsavedAppended(front, e, k, z, l, p);
      }
      assert UnsavedFrom(log, k, z, l, |front|) <==> IsStoreTo(e, k, z, l);
    }
  }

  // A line is resident and dirty exactly when some store to it was followed by
  // no request for it.
  lemma DirtyExactly(c: Chain, run: seq<Trace>, k: nat, l: nat)
    requires FreshChain(c) && CanRun(c, run) && k < c.Depth()
    ensures After(c, run).At(k).geometry.Good()
    ensures After(c, run).At(k).Dirty(l) <==>
            exists p: nat :: UnsavedFrom(RunLog(run), k, After(c, run).At(k).geometry.linesz, l, p)
  {
    LevelAfter(c, run, k);
    StoredSinceMeans(RunLog(run), k, After(c, run).At(k).geometry.linesz, l);
  }

  // What a level sends is whole lines; a sent store is the base of a line
  // stored to since the last request for that line, a sent read is a fill of a
  // line that has nothing unsaved.
  lemma SentIsJustified(c: Chain, run: seq<Trace>, k: nat, q: nat)
    requires FreshChain(c) && CanRun(c, run) && k < c.Depth()
    requires q < |RunLog(run)| && RunLog(run)[q].depth == k + 1
    ensures After(c, run).At(k).geometry.Good()
    ensures var z := After(c, run).At(k).geometry.linesz;
            var r := RunLog(run)[q].req;
            && r.addr % z == 0
            && r.bytes == z
            && (r.store <==>
                exists p: nat :: UnsavedFrom(RunLog(run)[..q], k, z, r.addr / z, p))
  {
    LevelAfter(c, run, k);
    var log := RunLog(run);
    var z := After(c, run).At(k).geometry.linesz;
    assert Justified(log[..q], k, z, log[q].req);
    StoredSinceMeans(log[..q], k, z, log[q].req.addr / z);
  }

  lemma PrefixSends(log: seq<Event>, k: nat, z: nat, n: nat)
    requires z > 0 && SendsWhatItShould(log, k, z) && n <= |log|
    ensures SendsWhatItShould(log[..n], k, z)
  {
    forall q | 0 <= q < n && log[..n][q].depth == k + 1
      ensures Justified(log[..n][..q], k, z, log[..n][q].req)
    {
      assert log[..n][..q] == log[..q];
    }
  }

  // A store at depth k is still marked dirty there, or has been sent on.
  lemma {:induction false} StoredOrSent(log: seq<Event>, k: nat, z: nat, l: nat, p: nat)
    requires z > 0 && SendsWhatItShould(log, k, z)
    requires p < |log| && IsStoreTo(log[p], k, z, l)
    ensures StoredSince(log, k, z, l) ||
            exists q :: p < q < |log| && log[q] == Event(k + 1, Request(l * z, z, true))
    decreases |log|
  {
    var n := |log| - 1;
    if p < n {
      PrefixSends(log, k, z, n);
      StoredOrSent(log[..n], k, z, l, p);
      if StoredSince(log[..n], k, z, l) {
        if IsSentFor(log[n], k, z, l) {
          assert Justified(log[..n], k, z, log[n].req);
          assert log[n].req.addr == l * z;
          assert log[n] == Event(k + 1, Request(l * z, z, true));
        }
      } else {
        var q :| p < q < n && log[..n][q] == Event(k + 1, Request(l * z, z, true));
        assert log[q] == log[..n][q];
      }
    }
  }

  lemma DirtyOrWrittenBack(c: Chain, run: seq<Trace>, k: nat, p: nat)
    requires FreshChain(c) && CanRun(c, run) && k < c.Depth()
    requires p < |RunLog(run)| && RunLog(run)[p].depth == k && RunLog(run)[p].req.store
    ensures After(c, run).At(k).geometry.Good()
    ensures var v := After(c, run).At(k);
            var l := v.geometry.LineOf(RunLog(run)[p].req.addr);
            || v.Dirty(l)
            || exists q :: p < q < |RunLog(run)| && RunLog(run)[q] == Event(k + 1, v.geometry.WriteOf(l))
  {
    LevelAfter(c, run, k);
    var v := After(c, run).At(k);
    StoredOrSent(RunLog(run), k, v.geometry.linesz, v.geometry.LineOf(RunLog(run)[p].req.addr), p);
  }

  // ---- Down the whole chain ----

  lemma ShapeTop(c: Chain)
    requires c.Cached?
    ensures c.Shape()[0] == c.level.geometry && c.Shape()[1..] == c.below.Shape()
    ensures c.below.Cached? ==> c.Shape()[1] == c.below.level.geometry
  {
    assert c.below.Cached? ==> c.below.Shape()[0] == c.below.level.geometry;
  }

  lemma {:induction false} AccessKeepsShape(c: Chain, t: Trace)
    requires Can(c, t)
    ensures Apply(c, t).Shape() == c.Shape()
    decreases t
  {
    match t
    case Reached(r) =>
    case Hit(r) =>
    case Refill(r, fill) =>
      AccessKeepsShape(c.below, fill);
    case Replace(r, victim, fill) =>
      AccessKeepsShape(c.below, fill);
    case WriteBack(r, victim, write, fill) =>
      AccessKeepsShape(c.below, write);
      AccessKeepsShape(Apply(c.below, write), fill);
  }

  lemma {:induction false} RunKeepsShape(c: Chain, run: seq<Trace>)
    requires CanRun(c, run)
    ensures After(c, run).Shape() == c.Shape()
    decreases |run|
  {
    hide Can, Apply, Chain.Shape;
    if run != [] {
      RunKeepsShape(c, run[..|run| - 1]);
      AccessKeepsShape(After(c, run[..|run| - 1]), run[|run| - 1]);
    }
  }

  // Each line size is a multiple of the one above; equal sizes are the usual case.
  predicate Growing(gs: seq<Geometry>) {
    |gs| >= 2 ==> gs[0].Good() && gs[1].linesz % gs[0].linesz == 0 && Growing(gs[1..])
  }

  // No level has smaller lines than the one above it.
  predicate NotShrinking(gs: seq<Geometry>) {
    |gs| >= 2 ==> gs[0].linesz <= gs[1].linesz && NotShrinking(gs[1..])
  }

  // Wherever a line that holds address a is written back, the next level's line
  // at its base holds a too.
  predicate Carries(gs: seq<Geometry>, a: nat) {
    |gs| >= 2 ==>
      && gs[0].Good() && gs[1].Good()
      && gs[1].LineOf(gs[0].LineOf(a) * gs[0].linesz) == gs[1].LineOf(a)
      && Carries(gs[1..], a)
  }

  // The base of a small line lies in the same large line as the address.
  lemma BaseInSameLine(a: nat, small: nat, large: nat)
    requires small > 0 && large > 0 && large % small == 0
    ensures (a / small * small) / large == a / large
  {
    var m := large / small;
    var q := a / large;
    var r := a % large;
    assert large == m * small;
    assert a == q * large + r;
    assert r == (a / small - q * m) * small + a % small by {
      assert a == a / small * small + a % small;
      assert q * large == q * m * small;
    }
    assert a % small <= r by {
      if a / small - q * m < 0 {
        Arith.MulAtLeast(q * m - a / small, small);
      } else {
        assert (a / small - q * m) * small >= 0;
      }
    }
    Arith.DivIs(a / small * small, large, q, r - a % small);
  }

  lemma {:induction false} GrowingCarries(gs: seq<Geometry>, a: nat)
    requires Growing(gs) && forall g <- gs :: g.Good()
    ensures Carries(gs, a)
  {
    if |gs| >= 2 {
      assert gs[0].Good() && gs[1].Good();
      GrowingCarries(gs[1..], a);
      BaseInSameLine(a, gs[0].linesz, gs[1].linesz);
    }
  }

  predicate Covers(r: Request, a: nat) {
    r.store && r.addr <= a < r.addr + r.bytes
  }

  // Of a chain whose first level is at depth `base`: a is held dirty at some
  // level, or memory was sent a store over it after position p.
  predicate Kept(c: Chain, base: nat, log: seq<Event>, p: nat, a: nat) {
    || (exists j :: 0 <= j < c.Depth() && c.At(j).geometry.Good() && c.At(j).Dirty(c.At(j).geometry.LineOf(a)))
    || (exists q :: p < q < |log| && log[q].depth == base + c.Depth() && Covers(log[q].req, a))
  }

  lemma KeptBelow(c: Chain, base: nat, log: seq<Event>, p: nat, q: nat, a: nat)
    requires c.Cached? && p < q && Kept(c.below, base + 1, log, q, a)
    ensures Kept(c, base, log, p, a)
  {
    if j :| 0 <= j < c.below.Depth() && c.below.At(j).geometry.Good() &&
            c.below.At(j).Dirty(c.below.At(j).geometry.LineOf(a))
    {
      assert c.At(j + 1) == c.below.At(j);
    }
  }

  // A store that reaches depth `base` is kept by the chain from there on.
  lemma {:induction false} StoreTravels(c: Chain, base: nat, log: seq<Event>, p: nat, a: nat)
    requires ChainInv(c, base, log) && Carries(c.Shape(), a) && c.Cached? && c.level.geometry.Good()
    requires p < |log| && log[p].depth == base && log[p].req.store
    requires c.level.geometry.LineOf(log[p].req.addr) == c.level.geometry.LineOf(a)
    ensures Kept(c, base, log, p, a)
    decreases c, 1
  {
    hide Kept, Carries;
    var g := c.level.geometry;
    StoredOrSent(log, base, g.linesz, g.LineOf(a), p);
    if StoredSince(log, base, g.linesz, g.LineOf(a)) {
      assert c.level.Dirty(g.LineOf(a));
      KeptHere(c, base, log, p, a);
    } else {
      var q: nat :| p < q < |log| && log[q] == Event(base + 1, g.WriteOf(g.LineOf(a)));
      SentIsKept(c, base, log, p, q, a);
    }
  }

  lemma KeptHere(c: Chain, base: nat, log: seq<Event>, p: nat, a: nat)
    requires c.Cached? && c.level.geometry.Good() && c.level.Dirty(c.level.geometry.LineOf(a))
    ensures Kept(c, base, log, p, a)
  {
    assert c.At(0) == c.level;
  }

  // A line sent down is kept further down.
  lemma {:induction false} SentIsKept(c: Chain, base: nat, log: seq<Event>, p: nat, q: nat, a: nat)
    requires ChainInv(c, base, log) && Carries(c.Shape(), a) && c.Cached? && c.level.geometry.Good()
    requires p < q < |log| && log[q] == Event(base + 1, c.level.geometry.WriteOf(c.level.geometry.LineOf(a)))
    ensures Kept(c, base, log, p, a)
    decreases c, 0
  {
    hide Kept, LevelInv;
    if c.below.Cached? {
      CarriesBelow(c, a);
      assert c.below.level.geometry.Good() by { LevelIsGood(c.below.level, base + 1, log); }
      StoreTravels(c.below, base + 1, log, q, a);
      KeptBelow(c, base, log, p, q, a);
    } else {
      KeptInMemory(c, base, log, p, q, a);
    }
  }

  lemma LevelIsGood(v: Level, k: nat, log: seq<Event>)
    requires LevelInv(v, k, log)
    ensures v.geometry.Good()
  {
  }

  lemma CarriesBelow(c: Chain, a: nat)
    requires c.Cached? && c.below.Cached? && Carries(c.Shape(), a)
    ensures c.level.geometry.Good() && c.below.level.geometry.Good() && Carries(c.below.Shape(), a)
    ensures var upper, lower := c.level.geometry, c.below.level.geometry;
            lower.LineOf(upper.WriteOf(upper.LineOf(a)).addr) == lower.LineOf(a)
  {
    ShapeTop(c);
  }

  lemma KeptInMemory(c: Chain, base: nat, log: seq<Event>, p: nat, q: nat, a: nat)
    requires c.Cached? && c.below.Memory? && c.level.geometry.Good()
    requires p < q < |log| && log[q] == Event(base + 1, c.level.geometry.WriteOf(c.level.geometry.LineOf(a)))
    ensures Kept(c, base, log, p, a)
  {
    assert c.Depth() == 1;
    assert Covers(log[q].req, a);
  }

  // Position p of the log is a store by the program.
  predicate StoreAt(run: seq<Trace>, p: nat) {
    p < |RunLog(run)| && RunLog(run)[p].depth == 0 && RunLog(run)[p].req.store
  }

  // No byte is ever lost that lies in the line of its store's first byte and is
  // carried down: after any run it is dirty at some level, or memory has been
  // written over it after the store.
  lemma ByteNeverLost(c: Chain, run: seq<Trace>, p: nat, a: nat)
    requires FreshChain(c) && CanRun(c, run) && c.Cached? && Carries(c.Shape(), a) && StoreAt(run, p)
    requires c.level.geometry.LineOf(RunLog(run)[p].req.addr) == c.level.geometry.LineOf(a)
    ensures Kept(After(c, run), 0, RunLog(run), p, a)
  {
    hide Kept, Carries;
    RunInv(c, run);
    RunKeepsShape(c, run);
    SameTop(c, After(c, run));
    StoreTravels(After(c, run), 0, RunLog(run), p, a);
  }

  lemma SameTop(c: Chain, d: Chain)
    requires c.Cached? && d.Shape() == c.Shape()
    ensures d.Cached? && d.level.geometry == c.level.geometry && d.below.Shape() == c.below.Shape()
  {
    assert d.Depth() > 0;
    ShapeTop(c);
    ShapeTop(d);
  }

  // The access does not end in the line it starts in; access() never splits it.
  predicate Crosses(g: Geometry, r: Request)
    requires g.Good()
  {
    r.bytes > 0 && g.LineOf(r.addr + r.bytes - 1) != g.LineOf(r.addr)
  }

  lemma InOneLine(g: Geometry, r: Request, a: nat)
    requires g.Good() && !Crosses(g, r) && r.addr <= a < r.addr + r.bytes
    ensures g.LineOf(a) == g.LineOf(r.addr)
  {
    Arith.DivMono(r.addr, a, g.linesz);
    Arith.DivMono(a, r.addr + r.bytes - 1, g.linesz);
  }

  // Stores whose size divides the line size never cross when they are aligned,
  // as the stores of 1, 2, 4 and 8 bytes are for every line size of init().
  lemma AlignedStays(g: Geometry, r: Request)
    requires g.Good() && r.bytes > 0 && g.linesz % r.bytes == 0 && r.addr % r.bytes == 0
    ensures !Crosses(g, r)
  {
    BaseInSameLine(r.addr + r.bytes - 1, r.bytes, g.linesz);
    Arith.DivIs(r.addr + r.bytes - 1, r.bytes, r.addr / r.bytes, r.bytes - 1);
  }

  // Every byte the store at position p writes is still there.
  ghost predicate AllKept(c: Chain, base: nat, log: seq<Event>, p: nat)
    requires p < |log|
  {
    forall a: nat :: Covers(log[p].req, a) ==> Kept(c, base, log, p, a)
  }

  // Of the bytes the store at position p writes, those in the line it starts in
  // are still there; these are all its bytes unless it crosses the line end.
  ghost predicate StoreKept(c: Chain, g: Geometry, run: seq<Trace>, p: nat)
    requires p < |RunLog(run)| && g.Good()
  {
    var r := RunLog(run)[p].req;
    && (forall a: nat :: Covers(r, a) && g.LineOf(a) == g.LineOf(r.addr) ==> Kept(c, 0, RunLog(run), p, a))
    && (!Crosses(g, r) ==> AllKept(c, 0, RunLog(run), p))
  }

  // When line sizes divide each other no store loses a byte of the line it
  // starts in, so a store that does not cross a line end loses none.
  lemma StoreNeverLost(c: Chain, run: seq<Trace>, p: nat)
    requires FreshChain(c) && CanRun(c, run) && Growing(c.Shape()) && c.Cached? && StoreAt(run, p)
    ensures StoreKept(After(c, run), c.level.geometry, run, p)
  {
    hide Kept, Carries, CanRun, After, RunLog, FreshChain, Growing, Crosses, Geometry.LineOf;
    FreshIsGood(c);
    var r, g := RunLog(run)[p].req, c.level.geometry;
    forall a: nat | Covers(r, a) && g.LineOf(a) == g.LineOf(r.addr)
      ensures Kept(After(c, run), 0, RunLog(run), p, a)
    {
      GrowingCarries(c.Shape(), a);
      ByteNeverLost(c, run, p, a);
    }
    if !Crosses(g, r) {
      forall a: nat | Covers(r, a)
        ensures g.LineOf(a) == g.LineOf(r.addr)
      {
        InOneLine(g, r, a);
      }
    }
  }

  lemma NoStoreLost(c: Chain, run: seq<Trace>)
    requires FreshChain(c) && CanRun(c, run) && Growing(c.Shape()) && c.Cached? && c.level.geometry.Good()
    ensures forall p: nat :: StoreAt(run, p) ==> StoreKept(After(c, run), c.level.geometry, run, p)
  {
    hide FreshChain, CanRun, Growing, StoreKept, RunLog;
    forall p: nat | StoreAt(run, p)
      ensures StoreKept(After(c, run), c.level.geometry, run, p)
    {
      StoreNeverLost(c, run, p);
    }
  }

  lemma {:induction false} FreshIsGood(c: Chain)
    requires FreshChain(c)
    ensures forall g <- c.Shape() :: g.Good()
    ensures c.Cached? ==> c.level.geometry.Good()
    decreases c
  {
    if c.Cached? {
      FreshIsGood(c.below);
    }
  }

  // ---- Counters ----

  lemma {:induction false} BytesAreLines(log: seq<Event>, k: nat, z: nat, store: bool)
    requires z > 0 && SendsWhatItShould(log, k, z)
    ensures Bytes(log, k + 1, store) == z * Count(log, k + 1, store)
    decreases |log|
  {
    hide StoredSince;
    if log != [] {
      var n := |log| - 1;
      PrefixSends(log, k, z, n);
      BytesAreLines(log[..n], k, z, store);
      OneMore(z, Count(log[..n], k + 1, store));
      if log[n].depth == k + 1 {
        assert Justified(log[..n], k, z, log[n].req);
      }
    }
  }

  lemma OneMore(z: nat, n: nat)
    ensures z * (n + 1) == z * n + z
  {
  }

  // Conservation between neighbours: what one level misses, the next one reads;
  // what one level writes back, the next one is asked to store.
  lemma Conservation(c: Chain, run: seq<Trace>, k: nat)
    requires FreshChain(c) && CanRun(c, run) && k + 1 < c.Depth()
    ensures var upper := After(c, run).At(k);
            var lower := After(c, run).At(k + 1);
            && upper.stats.readMisses + upper.stats.writeMisses == lower.stats.readAccesses
            && upper.stats.writebacks == lower.stats.writeAccesses
            && lower.stats.bytesRead == upper.geometry.linesz * lower.stats.readAccesses
            && lower.stats.bytesWritten == upper.geometry.linesz * lower.stats.writeAccesses
  {
    LevelAfter(c, run, k);
    LevelAfter(c, run, k + 1);
    var z := After(c, run).At(k).geometry.linesz;
    BytesAreLines(RunLog(run), k, z, false);
    BytesAreLines(RunLog(run), k, z, true);
  }

  lemma DirtyBookkeeping(c: Chain, run: seq<Trace>, k: nat)
    requires FreshChain(c) && CanRun(c, run) && k < c.Depth()
    ensures var v := After(c, run).At(k);
            && v.geometry.Good()
            && v.stats.readMisses + v.stats.writeMisses == Count(RunLog(run), k + 1, false)
            && v.stats.writebacks == Count(RunLog(run), k + 1, true)
            && Turns(RunLog(run), k, v.geometry.linesz) == v.stats.writebacks + |DirtySet(v)|
  {
    LevelAfter(c, run, k);
  }

  // ---- Capacity ----

  lemma {:induction false} SetsAddUp(v: Level, n: nat)
    requires v.geometry.Good() && Roomy(v)
    ensures |set l | l in v.lines && l % v.geometry.sets < n| <= n * v.geometry.ways
  {
    if n == 0 {
      assert (set l | l in v.lines && l % v.geometry.sets < n) == {};
    } else {
      SetsAddUp(v, n - 1);
      assert |v.InSet(n - 1)| <= v.geometry.ways;
      var before := set l | l in v.lines && l % v.geometry.sets < n - 1;
      assert (set l | l in v.lines && l % v.geometry.sets < n) == before + v.InSet(n - 1);
      assert n * v.geometry.ways == (n - 1) * v.geometry.ways + v.geometry.ways;
    }
  }

  // Never more lines in a set than ways, nor in a cache than sets times ways.
  lemma NeverTooMany(c: Chain, run: seq<Trace>, k: nat, idx: nat)
    requires FreshChain(c) && CanRun(c, run) && k < c.Depth()
    ensures var v := After(c, run).At(k);
            && v.geometry.Good()
            && |v.InSet(idx)| <= v.geometry.ways
            && |v.lines| <= v.geometry.sets * v.geometry.ways
  {
    LevelAfter(c, run, k);
    var v := After(c, run).At(k);
    SetsAddUp(v, v.geometry.sets);
    assert (set l | l in v.lines && l % v.geometry.sets < v.geometry.sets) == v.lines.Keys;
  }
}
