// Several caches over one miss handler, as when the instruction and the data
// cache sit on one second level: set_miss_handler lets any number of caches
// share a handler.

module CacheShared {
  import Arith
  import opened CacheChain
  import opened CacheMisses
  import opened CacheTags
  import opened CacheSim
  import opened CacheVictims

  // ---- The model ----

  datatype Hub = Hub(fronts: seq<Level>, below: Chain) {
    function Client(i: nat): Chain
      requires i < |fronts|
    {
      Cached(fronts[i], below)
    }
  }

  datatype Turn = Turn(client: nat, trace: Trace)

  predicate CanTurn(h: Hub, t: Turn) {
    t.client < |h.fronts| && Can(h.Client(t.client), t.trace)
  }

  function Take(h: Hub, t: Turn): (d: Hub)
    requires CanTurn(h, t)
    ensures |d.fronts| == |h.fronts|
  {
    var c := Apply(h.Client(t.client), t.trace);
    assert c.Depth() > 0;
    Hub(h.fronts[t.client := c.level], c.below)
  }

  predicate CanTurns(h: Hub, run: seq<Turn>)
    decreases |run|, 0
  {
    run == [] || (CanTurns(h, run[..|run| - 1]) && CanTurn(AfterTurns(h, run[..|run| - 1]), run[|run| - 1]))
  }

  function AfterTurns(h: Hub, run: seq<Turn>): (d: Hub)
    requires CanTurns(h, run)
    ensures |d.fronts| == |h.fronts|
    decreases |run|, 1
  {
    if run == [] then h else Take(AfterTurns(h, run[..|run| - 1]), run[|run| - 1])
  }

  // ---- The log, with the client each event belongs to ----

  datatype Tagged = Tagged(client: nat, event: Event)

  function Tag(i: nat, log: seq<Event>): (g: seq<Tagged>)
    ensures |g| == |log| && forall q :: 0 <= q < |log| ==> g[q] == Tagged(i, log[q])
  {
    seq(|log|, q requires 0 <= q < |log| => Tagged(i, log[q]))
  }

  function HubLog(run: seq<Turn>): seq<Tagged> {
    if run == [] then []
    else HubLog(run[..|run| - 1]) + Tag(run[|run| - 1].client, Log(run[|run| - 1].trace, 0))
  }

  function All(g: seq<Tagged>): (log: seq<Event>)
    ensures |log| == |g| && forall q :: 0 <= q < |g| ==> log[q] == g[q].event
  {
    seq(|g|, q requires 0 <= q < |g| => g[q].event)
  }

  function Of(g: seq<Tagged>, i: nat): seq<Event> {
    if g == [] then []
    else
      var x := g[|g| - 1];
      Of(g[..|g| - 1], i) + (if x.client == i then [x.event] else [])
  }

  lemma {:induction false} OfConcat(g: seq<Tagged>, i: nat, log: seq<Event>, j: nat)
    ensures Of(g + Tag(i, log), j) == if i == j then Of(g, j) + log else Of(g, j)
    decreases |log|
  {
    var more := g + Tag(i, log);
    if log == [] {
      assert more == g;
    } else {
      var n := |log| - 1;
      OfConcat(g, i, log[..n], j);
      assert more[..|more| - 1] == g + Tag(i, log[..n]);
      assert more[|more| - 1] == Tagged(i, log[n]);
      assert log == log[..n] + [log[n]];
    }
  }

  lemma AllConcat(g: seq<Tagged>, i: nat, log: seq<Event>)
    ensures All(g + Tag(i, log)) == All(g) + log
  {
  }

  // An event keeps its place among its client's events.
  lemma {:induction false} Place(g: seq<Tagged>, i: nat, p: nat)
    requires p < |g| && g[p].client == i
    ensures |Of(g[..p], i)| < |Of(g, i)| && Of(g, i)[|Of(g[..p], i)|] == g[p].event
    decreases |g|
  {
    var n := |g| - 1;
    if p < n {
      Place(g[..n], i, p);
      assert g[..n][..p] == g[..p];
    }
  }

  // What comes after it among its client's events came after it.
  lemma {:induction false} Later(g: seq<Tagged>, i: nat, p: nat, k: nat) returns (q: nat)
    requires p < |g| && g[p].client == i && |Of(g[..p], i)| < k < |Of(g, i)|
    ensures p < q < |g| && g[q] == Tagged(i, Of(g, i)[k])
    decreases |g|
  {
    var n := |g| - 1;
    assert p < n;
    if g[n].client == i && k == |Of(g, i)| - 1 {
      q := n;
    } else {
      assert g[..n][..p] == g[..p];
      q := Later(g[..n], i, p, k);
    }
  }

  // ---- The invariant ----

  // A level on its own, whatever its handler has been asked by others.
  lemma LevelAccess(v: Level, below: Chain, k: nat, log: seq<Event>, t: Trace)
    requires LevelInv(v, k, log) && Can(Cached(v, below), t)
    ensures Apply(Cached(v, below), t).Cached?
    ensures LevelInv(Apply(Cached(v, below), t).level, k, log + Log(t, k))
  {
    hide LevelInv, Victim, Level.InSet, Level.Dirty;
    hide Level.Dropped, Level.Written, Level.Filled, Level.Served;
    hide Geometry.FillOf, Geometry.WriteOf, Geometry.LineOf;
    match t
    case Hit(r) =>
      ServeStep(v, k, log, r);
    case Refill(r, fill) =>
      FilledThenServed(v, k, log, r, fill);
      assert log + Log(t, k) == log + Log(fill, k + 1) + [Event(k, r)];
    case Replace(r, victim, fill) =>
      DroppedThenServed(v, k, log, r, victim, fill);
      assert log + Log(t, k) == log + Log(fill, k + 1) + [Event(k, r)];
    case WriteBack(r, victim, write, fill) =>
      WrittenThenServed(v, k, log, r, victim, write, fill);
      assert log + Log(t, k) == log + Log(write, k + 1) + Log(fill, k + 1) + [Event(k, r)];
  }

  lemma BelowAccess(v: Level, below: Chain, k: nat, log: seq<Event>, t: Trace)
    requires ChainInv(below, k + 1, log) && Can(Cached(v, below), t)
    ensures Apply(Cached(v, below), t).Cached?
    ensures ChainInv(Apply(Cached(v, below), t).below, k + 1, log + Log(t, k))
  {
    hide LevelInv, ChainInv, Victim, Level.InSet, Level.Dirty;
    hide Level.Dropped, Level.Written, Level.Filled, Level.Served;
    hide Geometry.FillOf, Geometry.WriteOf, Geometry.LineOf;
    match t
    case Hit(r) =>
      ChainElsewhere(below, k + 1, log, Event(k, r));
    case Refill(r, fill) =>
      BelowKeeps(below, k, log, r, fill);
    case Replace(r, victim, fill) =>
      BelowKeeps(below, k, log, r, fill);
    case WriteBack(r, victim, write, fill) =>
      WriteBackBelow(below, k, log, r, write, fill);
  }

  lemma WriteBackBelow(below: Chain, k: nat, log: seq<Event>, r: Request, write: Trace, fill: Trace)
    requires ChainInv(below, k + 1, log) && Can(below, write) && Can(Apply(below, write), fill)
    ensures var more := Log(write, k + 1) + Log(fill, k + 1) + [Event(k, r)];
            ChainInv(Apply(Apply(below, write), fill), k + 1, log + more)
  {
    hide ChainInv, Can, Apply, Log;
    AccessKeeps(below, k + 1, log, write);
    BelowKeeps(Apply(below, write), k, log + Log(write, k + 1), r, fill);
    assert log + (Log(write, k + 1) + Log(fill, k + 1) + [Event(k, r)]) ==
           log + Log(write, k + 1) + Log(fill, k + 1) + [Event(k, r)];
  }

  ghost predicate HubInv(h: Hub, g: seq<Tagged>) {
    && (forall i: nat :: i < |h.fronts| ==> LevelInv(h.fronts[i], 0, Of(g, i)))
    && ChainInv(h.below, 1, All(g))
    && (forall q :: 0 <= q < |g| ==> g[q].client < |h.fronts|)
  }

  lemma TurnKeeps(h: Hub, g: seq<Tagged>, t: Turn)
    requires HubInv(h, g) && CanTurn(h, t)
    ensures HubInv(Take(h, t), g + Tag(t.client, Log(t.trace, 0)))
  {
    hide LevelInv, ChainInv, Of, Log, Can, Apply, Tag;
    var log := Log(t.trace, 0);
    var more := g + Tag(t.client, log);
    LevelAccess(h.fronts[t.client], h.below, 0, Of(g, t.client), t.trace);
    BelowAccess(h.fronts[t.client], h.below, 0, All(g), t.trace);
    AllConcat(g, t.client, log);
    forall i: nat | i < |h.fronts|
      ensures LevelInv(Take(h, t).fronts[i], 0, Of(more, i))
    {
      OfConcat(g, t.client, log, i);
    }
  }

  predicate FreshHub(h: Hub) {
    && (forall i :: 0 <= i < |h.fronts| ==> FreshLevel(h.fronts[i]))
    && FreshChain(h.below)
  }

  predicate FreshLevel(v: Level) {
    v.geometry.Good() && v.lines == map[] && v.stats == NO_STATS
  }

  lemma {:induction false} HubRunInv(h: Hub, run: seq<Turn>)
    requires FreshHub(h) && CanTurns(h, run)
    ensures HubInv(AfterTurns(h, run), HubLog(run))
    decreases |run|
  {
    if run == [] {
      FreshInv(h.below, 1);
      assert All([]) == [];
      forall i: nat | i < |h.fronts|
        ensures LevelInv(h.fronts[i], 0, Of([], i))
      {
        FreshInv(Cached(h.fronts[i], Memory), 0);
      }
    } else {
      hide FreshHub, HubInv, CanTurn, Take, Tag, Log;
      HubRunInv(h, run[..|run| - 1]);
      TurnKeeps(AfterTurns(h, run[..|run| - 1]), HubLog(run[..|run| - 1]), run[|run| - 1]);
    }
  }

  // ---- Conservation ----

  function SumCount(g: seq<Tagged>, n: nat, store: bool): nat {
    if n == 0 then 0 else SumCount(g, n - 1, store) + Count(Of(g, n - 1), 1, store)
  }

  lemma CountStep(g: seq<Tagged>, x: Tagged, i: nat, store: bool)
    ensures Count(Of(g + [x], i), 1, store) ==
            Count(Of(g, i), 1, store) +
            if x.client == i && x.event.depth == 1 && x.event.req.store == store then 1 else 0
  {
    assert (g + [x])[..|g|] == g;
    if x.client == i {
      assert Of(g + [x], i) == Of(g, i) + [x.event];
      Appended(Of(g, i), x.event);
    } else {
      assert Of(g + [x], i) == Of(g, i) + [] == Of(g, i);
    }
  }

  lemma {:induction false} SumCountStep(g: seq<Tagged>, x: Tagged, n: nat, store: bool)
    ensures SumCount(g + [x], n, store) ==
            SumCount(g, n, store) +
            if x.client < n && x.event.depth == 1 && x.event.req.store == store then 1 else 0
  {
    hide Of, Count;
    if n > 0 {
      SumCountStep(g, x, n - 1, store);
      CountStep(g, x, n - 1, store);
    }
  }

  // The requests at the shared level are those of all clients together.
  lemma {:induction false} CountsAddUp(g: seq<Tagged>, n: nat, store: bool)
    requires forall q :: 0 <= q < |g| ==> g[q].client < n
    ensures Count(All(g), 1, store) == SumCount(g, n, store)
    decreases |g|
  {
    if g == [] {
      NothingCounted(n, store);
    } else {
      var front, x := g[..|g| - 1], g[|g| - 1];
      assert g == front + [x];
      CountsAddUp(front, n, store);
      SumCountStep(front, x, n, store);
      assert All(g) == All(front) + [x.event];
      Appended(All(front), x.event);
    }
  }

  lemma {:induction false} NothingCounted(n: nat, store: bool)
    ensures SumCount([], n, store) == 0
  {
    if n > 0 {
      NothingCounted(n - 1, store);
    }
  }

  function MissSum(fronts: seq<Level>, n: nat): nat
    requires n <= |fronts|
  {
    if n == 0 then 0 else MissSum(fronts, n - 1) + fronts[n - 1].stats.readMisses + fronts[n - 1].stats.writeMisses
  }

  function WriteSum(fronts: seq<Level>, n: nat): nat
    requires n <= |fronts|
  {
    if n == 0 then 0 else WriteSum(fronts, n - 1) + fronts[n - 1].stats.writebacks
  }

  lemma {:induction false} SumsAreCounts(h: Hub, g: seq<Tagged>, n: nat)
    requires HubInv(h, g) && n <= |h.fronts|
    ensures MissSum(h.fronts, n) == SumCount(g, n, false) && WriteSum(h.fronts, n) == SumCount(g, n, true)
  {
    hide LevelInv, ChainInv, Of, Count;
    if n > 0 {
      SumsAreCounts(h, g, n - 1);
      CountsOf(h.fronts[n - 1], 0, Of(g, n - 1));
    }
  }

  lemma CountsOf(v: Level, k: nat, log: seq<Event>)
    requires LevelInv(v, k, log)
    ensures v.stats.readMisses + v.stats.writeMisses == Count(log, k + 1, false)
    ensures v.stats.writebacks == Count(log, k + 1, true)
    ensures v.stats.readAccesses == Count(log, k, false) && v.stats.writeAccesses == Count(log, k, true)
  {
  }

  predicate Conserved(h: Hub)
    requires h.below.Cached?
  {
    && h.below.level.stats.readAccesses == MissSum(h.fronts, |h.fronts|)
    && h.below.level.stats.writeAccesses == WriteSum(h.fronts, |h.fronts|)
  }

  // The shared level is read exactly as often as its clients miss, and asked to
  // store exactly as often as they write back.
  lemma SharedConservation(h: Hub, run: seq<Turn>)
    requires FreshHub(h) && CanTurns(h, run) && AfterTurns(h, run).below.Cached?
    ensures Conserved(AfterTurns(h, run))
  {
    HubRunInv(h, run);
    var now, g := AfterTurns(h, run), HubLog(run);
    SumsAreCounts(now, g, |now.fronts|);
    CountsAddUp(g, |now.fronts|, false);
    CountsAddUp(g, |now.fronts|, true);
    hide AfterTurns, HubLog, CanTurns, FreshHub, LevelInv;
    CountsOf(now.below.level, 1, All(g));
  }

  // ---- Hits and misses ----

  // What a level under client i receives: the first one only its own accesses,
  // the shared ones whatever any client sends.
  function HubReceived(run: seq<Turn>, i: nat, k: nat): seq<Trace> {
    if run == [] then []
    else
      var t := run[|run| - 1];
      HubReceived(run[..|run| - 1], i, k) + if k > 0 || t.client == i then ReceivedIn(t.trace, k) else []
  }

  ghost predicate HubCounted(h: Hub, d: Hub, run: seq<Turn>) {
    && |d.fronts| == |h.fronts| && d.below.Depth() == h.below.Depth()
    && forall i: nat, k: nat :: i < |h.fronts| && k <= h.below.Depth() ==>
         CountedIn(h.Client(i).At(k).stats, d.Client(i).At(k).stats, HubReceived(run, i, k))
  }

  lemma TurnCounted(h: Hub, t: Turn, i: nat, k: nat)
    requires CanTurn(h, t) && i < |h.fronts| && k <= h.below.Depth()
    ensures Take(h, t).below.Depth() == h.below.Depth()
    ensures CountedIn(h.Client(i).At(k).stats, Take(h, t).Client(i).At(k).stats,
                      if k > 0 || t.client == i then ReceivedIn(t.trace, k) else [])
  {
    hide Can, Apply, CountedIn;
    AccessCounted(h.Client(t.client), t.trace, k);
    NoneCounted(h.Client(i).At(k).stats);
  }

  lemma {:induction false} TurnsCounted(h: Hub, run: seq<Turn>, i: nat, k: nat)
    requires CanTurns(h, run) && i < |h.fronts| && k <= h.below.Depth()
    ensures AfterTurns(h, run).below.Depth() == h.below.Depth()
    ensures CountedIn(h.Client(i).At(k).stats, AfterTurns(h, run).Client(i).At(k).stats, HubReceived(run, i, k))
    decreases |run|
  {
    hide CanTurn, Take, CountedIn, Chain.At;
    if run == [] {
      NoneCounted(h.Client(i).At(k).stats);
    } else {
      var front, t := run[..|run| - 1], run[|run| - 1];
      var mid := AfterTurns(h, front);
      TurnsCounted(h, front, i, k);
      TurnCounted(mid, t, i, k);
      CountedTwice(h.Client(i).At(k).stats, mid.Client(i).At(k).stats, AfterTurns(h, run).Client(i).At(k).stats,
                   HubReceived(front, i, k), if k > 0 || t.client == i then ReceivedIn(t.trace, k) else []);
    }
  }

  lemma HubAllCounted(h: Hub, run: seq<Turn>)
    requires CanTurns(h, run) && |h.fronts| > 0
    ensures HubCounted(h, AfterTurns(h, run), run)
  {
    hide CanTurns, AfterTurns, CountedIn, HubReceived, Chain.At;
    forall i: nat, k: nat | i < |h.fronts| && k <= h.below.Depth()
      ensures AfterTurns(h, run).below.Depth() == h.below.Depth()
      ensures CountedIn(h.Client(i).At(k).stats, AfterTurns(h, run).Client(i).At(k).stats, HubReceived(run, i, k))
    {
      TurnsCounted(h, run, i, k);
    }
    TurnsCounted(h, run, 0, 0);
  }

  // The split of the misses, for the cache of every client and for every
  // level they share.
  lemma SharedMissSplit(h: Hub, run: seq<Turn>, i: nat, k: nat)
    requires FreshHub(h) && CanTurns(h, run) && i < |h.fronts| && k <= h.below.Depth()
    ensures AfterTurns(h, run).below.Depth() == h.below.Depth()
    ensures var s, answers := AfterTurns(h, run).Client(i).At(k).stats, HubReceived(run, i, k);
            && s.readAccesses == |Asked(answers, false)| && s.writeAccesses == |Asked(answers, true)|
            && s.readMisses == |MissedOf(answers, false)| && s.writeMisses == |MissedOf(answers, true)|
            && s.readMisses <= s.readAccesses && s.writeMisses <= s.writeAccesses
  {
    assert FreshLevel(h.fronts[i]) && FreshChain(h.Client(i));
    hide CanTurns, AfterTurns, Asked, MissedOf, HubReceived, FreshChain, Chain.At;
    FreshStats(h.Client(i), k);
    TurnsCounted(h, run, i, k);
    FewerMisses(HubReceived(run, i, k), false);
    FewerMisses(HubReceived(run, i, k), true);
  }

  // ---- No store is lost ----

  // The chain under each client stays the shape it was.
  lemma TurnKeepsShape(h: Hub, t: Turn, i: nat)
    requires CanTurn(h, t) && i < |h.fronts|
    ensures Take(h, t).Client(i).Shape() == h.Client(i).Shape()
  {
    hide Can, Apply;
    AccessKeepsShape(h.Client(t.client), t.trace);
    var d := Apply(h.Client(t.client), t.trace);
    SameTop(h.Client(t.client), d);
  }

  lemma {:induction false} TurnsKeepShape(h: Hub, run: seq<Turn>, i: nat)
    requires CanTurns(h, run) && i < |h.fronts|
    ensures AfterTurns(h, run).Client(i).Shape() == h.Client(i).Shape()
    decreases |run|
  {
    hide CanTurn, Take, Hub.Client, Chain.Shape;
    if run != [] {
      TurnsKeepShape(h, run[..|run| - 1], i);
      TurnKeepsShape(AfterTurns(h, run[..|run| - 1]), run[|run| - 1], i);
    }
  }

  // Byte a of the store at position p is dirty in its client's cache, or kept
  // from the shared level on.
  ghost predicate KeptInHub(h: Hub, g: seq<Tagged>, p: nat, a: nat)
    requires p < |g| && g[p].client < |h.fronts|
  {
    var v := h.fronts[g[p].client];
    v.geometry.Good() && (v.Dirty(v.geometry.LineOf(a)) || Kept(h.below, 1, All(g), p, a))
  }

  // So are all bytes of that store that lie in the line it starts in, which are
  // all its bytes unless it crosses a line end.
  ghost predicate StoreKeptInHub(h: Hub, g: seq<Tagged>, p: nat)
    requires p < |g| && g[p].client < |h.fronts| && h.fronts[g[p].client].geometry.Good()
  {
    var geometry, r := h.fronts[g[p].client].geometry, g[p].event.req;
    && (forall a: nat :: Covers(r, a) && geometry.LineOf(a) == geometry.LineOf(r.addr) ==> KeptInHub(h, g, p, a))
    && (!Crosses(geometry, r) ==> forall a: nat :: Covers(r, a) ==> KeptInHub(h, g, p, a))
  }

  predicate HubStoreAt(run: seq<Turn>, p: nat) {
    p < |HubLog(run)| && HubLog(run)[p].event.depth == 0 && HubLog(run)[p].event.req.store
  }

  // A store by any client is kept.
  lemma SharedStoreNeverLost(h: Hub, run: seq<Turn>, p: nat)
    requires FreshHub(h) && CanTurns(h, run) && HubStoreAt(run, p)
    requires forall i: nat :: i < |h.fronts| ==> Growing(h.Client(i).Shape())
    ensures HubLog(run)[p].client < |AfterTurns(h, run).fronts|
    ensures AfterTurns(h, run).fronts[HubLog(run)[p].client].geometry.Good()
    ensures StoreKeptInHub(AfterTurns(h, run), HubLog(run), p)
  {
    HubRunInv(h, run);
    var now, g := AfterTurns(h, run), HubLog(run);
    var i := g[p].client;
    TurnsKeepShape(h, run, i);
    assert FreshLevel(h.fronts[i]) && FreshChain(h.Client(i)) && Growing(h.Client(i).Shape());
    FreshIsGood(h.Client(i));
    hide AfterTurns, HubLog, CanTurns, FreshHub, FreshChain, Growing, Kept, Crosses, Geometry.LineOf, KeptInHub;
    LevelIsGood(now.fronts[i], 0, Of(g, i));
    hide HubInv;
    var geometry, r := now.fronts[i].geometry, g[p].event.req;
    forall a: nat | Covers(r, a) && geometry.LineOf(a) == geometry.LineOf(r.addr)
      ensures KeptInHub(now, g, p, a)
    {
      GrowingCarries(h.Client(i).Shape(), a);
      ByteKeptInHub(now, g, p, a);
    }
    if !Crosses(geometry, r) {
      forall a: nat | Covers(r, a)
        ensures geometry.LineOf(a) == geometry.LineOf(r.addr)
      {
        InOneLine(geometry, r, a);
      }
    }
  }

  ghost predicate AllStoresKept(h: Hub, run: seq<Turn>) {
    forall p: nat :: HubStoreAt(run, p) ==>
      && HubLog(run)[p].client < |h.fronts|
      && h.fronts[HubLog(run)[p].client].geometry.Good()
      && StoreKeptInHub(h, HubLog(run), p)
  }

  lemma NoSharedStoreLost(h: Hub, run: seq<Turn>)
    requires FreshHub(h) && CanTurns(h, run)
    requires forall i: nat :: i < |h.fronts| ==> Growing(h.Client(i).Shape())
    ensures AllStoresKept(AfterTurns(h, run), run)
  {
    hide FreshHub, CanTurns, StoreKeptInHub, Growing;
    forall p: nat | HubStoreAt(run, p)
      ensures HubLog(run)[p].client < |AfterTurns(h, run).fronts|
      ensures AfterTurns(h, run).fronts[HubLog(run)[p].client].geometry.Good()
      ensures StoreKeptInHub(AfterTurns(h, run), HubLog(run), p)
    {
      SharedStoreNeverLost(h, run, p);
    }
  }

  lemma ByteKeptInHub(h: Hub, g: seq<Tagged>, p: nat, a: nat)
    requires HubInv(h, g) && p < |g| && g[p].event.depth == 0 && g[p].event.req.store
    requires g[p].client < |h.fronts| && Carries(h.Client(g[p].client).Shape(), a)
    requires h.fronts[g[p].client].geometry.Good()
    requires var geometry := h.fronts[g[p].client].geometry;
             geometry.LineOf(a) == geometry.LineOf(g[p].event.req.addr)
    ensures KeptInHub(h, g, p, a)
  {
    hide Kept, Of, Carries;
    var i := g[p].client;
    var v := h.fronts[i];
    assert LevelInv(v, 0, Of(g, i));
    var geometry, l := v.geometry, v.geometry.LineOf(a);
    Place(g, i, p);
    var at := |Of(g[..p], i)|;
    StoredOrSent(Of(g, i), 0, geometry.linesz, l, at);
    if !StoredSince(Of(g, i), 0, geometry.linesz, l) {
      var k: nat :| at < k < |Of(g, i)| && Of(g, i)[k] == Event(1, geometry.WriteOf(l));
      var q := Later(g, i, p, k);
      SentByClient(h.Client(i), All(g), p, q, a);
    }
  }

  lemma SentByClient(c: Chain, log: seq<Event>, p: nat, q: nat, a: nat)
    requires c.Cached? && ChainInv(c.below, 1, log) && Carries(c.Shape(), a) && c.level.geometry.Good()
    requires p < q < |log| && log[q] == Event(1, c.level.geometry.WriteOf(c.level.geometry.LineOf(a)))
    ensures Kept(c.below, 1, log, p, a)
  {
    hide LevelInv, Carries;
    if c.below.Cached? {
      CarriesBelow(c, a);
      LevelIsGood(c.below.level, 1, log);
      StoreTravels(c.below, 1, log, q, a);
    } else {
      assert c.below.Depth() == 0 && Covers(log[q].req, a);
    }
  }

  // ---- The objects ----

  // Two caches with their own tags and registers over one handler.
  ghost predicate Sharing(a: Cache, b: Cache)
    reads a, a.Repr, b, b.Repr
  {
    && a.Valid() && b.Valid()
    && a.missHandler != null && a.missHandler == b.missHandler
    && {b, b.tags, b.lfsr} !! a.Repr && {a, a.tags, a.lfsr} !! b.Repr
  }

  ghost function HubOf(a: Cache, b: Cache): Hub
    requires Sharing(a, b)
    reads a, a.Repr, b, b.Repr
  {
    Hub([a.Level(), b.Level()], a.Below())
  }

  // Both caches get the same handler, instead of those they may have had.
  method Share(a: Cache, b: Cache, handler: Cache)
    requires a.Valid() && b.Valid() && handler.Valid()
    requires {b, b.tags, b.lfsr} !! a.Repr && {a, a.tags, a.lfsr} !! b.Repr
    requires handler.Repr !! {a, a.tags, a.lfsr} && handler.Repr !! {b, b.tags, b.lfsr}
    modifies a, b
    ensures Sharing(a, b) && a.missHandler == handler
    ensures HubOf(a, b) == Hub([old(a.Level()), old(b.Level())], old(handler.Chain()))
  {
    hide Placed, Unique, WellTagged, LinesOf, LinesIn, Arith.Pow2, Places, Cache.Own, Cache.Level, Cache.Seats;
    a.SetMissHandler(handler);
    b.SetMissHandler(handler);
  }

  // One access by the first cache; the second one only sees the handler change.
  method AccessFirst(a: Cache, b: Cache, r: Request) returns (ghost t: Trace)
    requires Sharing(a, b) && r.addr < WORD
    modifies a.Repr
    ensures Sharing(a, b) && a.Repr == old(a.Repr) && b.Repr == old(b.Repr)
    ensures t.req == r && Can(Cached(old(a.Level()), old(a.Below())), t)
    ensures Cached(a.Level(), a.Below()) == Apply(Cached(old(a.Level()), old(a.Below())), t)
    ensures b.Level() == old(b.Level())
  {
    hide Placed, Unique, WellTagged, LinesOf, LinesIn, Arith.Pow2, Can, Apply;
    t := a.Access(r.addr, r.bytes, r.store);
  }

  // Any interleaving of accesses through both caches is a run of the model, so
  // a fresh hierarchy conserves the requests of both, and keeps every store of
  // both when its line sizes do not shrink.
  method TraceShared(a: Cache, b: Cache, accesses: seq<(bool, Request)>) returns (ghost run: seq<Turn>)
    requires Sharing(a, b) && forall x <- accesses :: x.1.addr < WORD
    modifies a.Repr, b.Repr
    ensures Sharing(a, b) && |run| == |accesses|
    ensures forall k :: 0 <= k < |run| ==>
      run[k].trace.req == accesses[k].1 && run[k].client == if accesses[k].0 then 1 else 0
    ensures CanTurns(old(HubOf(a, b)), run) && HubOf(a, b) == AfterTurns(old(HubOf(a, b)), run)
    ensures HubCounted(old(HubOf(a, b)), HubOf(a, b), run)
    ensures old(FreshHub(HubOf(a, b))) ==> HubOf(a, b).below.Cached? && Conserved(HubOf(a, b))
    ensures old(FreshHub(HubOf(a, b)) && NeitherShrinks(a, b)) ==> AllStoresKept(HubOf(a, b), run)
  {
    hide Sharing, HubOf, NeitherShrinks, CanTurns, AfterTurns, Can, Apply, FreshHub, Conserved, AllStoresKept, Moves;
    hide HubCounted;
    HubGrows(a, b);
    ghost var h, fits := HubOf(a, b), NeitherShrinks(a, b);
    run := [];
    NoTurns(h);
    for k := 0 to |accesses|
      invariant Sharing(a, b) && a.Repr == old(a.Repr) && b.Repr == old(b.Repr)
      invariant |run| == k
      invariant forall j :: 0 <= j < k ==>
        run[j].trace.req == accesses[j].1 && run[j].client == if accesses[j].0 then 1 else 0
      invariant CanTurns(h, run) && HubOf(a, b) == AfterTurns(h, run)
    {
      ghost var t := AccessEither(a, b, accesses[k].0, accesses[k].1);
      OneMoreTurn(h, run, t);
      run := run + [t];
    }
    HubResults(h, run, fits);
    HubAllCounted(h, run);
  }

  predicate BothGrow(h: Hub) {
    forall i: nat :: i < |h.fronts| ==> Growing(h.Client(i).Shape())
  }

  ghost predicate NeitherShrinks(a: Cache, b: Cache)
    requires Sharing(a, b)
    reads a, a.Repr, b, b.Repr
  {
    NotShrinking(a.Chain().Shape()) && NotShrinking(b.Chain().Shape())
  }

  lemma HubGrows(a: Cache, b: Cache)
    requires Sharing(a, b)
    ensures HubOf(a, b).below.Cached? && |HubOf(a, b).fronts| == 2
    ensures NeitherShrinks(a, b) ==> BothGrow(HubOf(a, b))
  {
    hide Placed, Unique, WellTagged, LinesOf, LinesIn, Arith.Pow2, Cache.Own, Growing, NotShrinking;
    assert a.Below() == a.missHandler.Chain() == b.Below();
    if NeitherShrinks(a, b) {
      a.Grows();
      b.Grows();
      forall i: nat | i < |HubOf(a, b).fronts|
        ensures Growing(HubOf(a, b).Client(i).Shape())
      {
        assert HubOf(a, b).Client(i) == if i == 0 then a.Chain() else b.Chain();
      }
    }
  }

  lemma HubResults(h: Hub, run: seq<Turn>, fits: bool)
    requires CanTurns(h, run) && h.below.Cached? && |h.fronts| > 0
    requires fits ==> BothGrow(h)
    ensures FreshHub(h) ==> AfterTurns(h, run).below.Cached? && Conserved(AfterTurns(h, run))
    ensures FreshHub(h) && fits ==> AllStoresKept(AfterTurns(h, run), run)
  {
    hide FreshHub, CanTurns, Conserved, AllStoresKept, Growing;
    if FreshHub(h) {
      TurnsKeepShape(h, run, 0);
      assert h.Client(0).Depth() > 1;
      assert AfterTurns(h, run).Client(0).Depth() > 1;
      SharedConservation(h, run);
      if fits {
        NoSharedStoreLost(h, run);
      }
    }
  }

  method AccessEither(a: Cache, b: Cache, second: bool, r: Request) returns (ghost t: Turn)
    requires Sharing(a, b) && r.addr < WORD
    modifies a.Repr, b.Repr
    ensures Sharing(a, b) && a.Repr == old(a.Repr) && b.Repr == old(b.Repr)
    ensures t.trace.req == r && t.client == if second then 1 else 0
    ensures CanTurn(old(HubOf(a, b)), t) && HubOf(a, b) == Take(old(HubOf(a, b)), t)
  {
    hide Can, Apply;
    ghost var h := HubOf(a, b);
    assert a.Below() == b.Below();
    ghost var trace;
    if second {
      trace := AccessFirst(b, a, r);
      t := Turn(1, trace);
    } else {
      trace := AccessFirst(a, b, r);
      t := Turn(0, trace);
    }
  }

  lemma NoTurns(h: Hub)
    ensures CanTurns(h, []) && AfterTurns(h, []) == h
  {
  }

  lemma OneMoreTurn(h: Hub, run: seq<Turn>, t: Turn)
    requires CanTurns(h, run) && CanTurn(AfterTurns(h, run), t)
    ensures CanTurns(h, run + [t]) && AfterTurns(h, run + [t]) == Take(AfterTurns(h, run), t)
  {
    hide CanTurn, Take;
    var more := run + [t];
    assert more[..|more| - 1] == run && more[|more| - 1] == t;
  }
}
