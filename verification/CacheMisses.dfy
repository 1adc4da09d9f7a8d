// What the counters of a level stand for, read off the traces of a run: which
// requests reach the level, and which of them it misses.

module CacheMisses {
  import Arith
  import opened CacheChain

  // ---- The requests of a run, level by level ----

  // The requests that the first level sends while it answers t, in order.
  function SentBy(t: Trace): seq<Trace> {
    match t
    case Reached(r) => []
    case Hit(r) => []
    case Refill(r, fill) => [fill]
    case Replace(r, victim, fill) => [fill]
    case WriteBack(r, victim, write, fill) => [write, fill]
  }

  // The requests received k levels below the one that answers t.
  function ReceivedIn(t: Trace, k: nat): seq<Trace>
    decreases k, 0
  {
    if k == 0 then [t] else Received(SentBy(t), k - 1)
  }

  function Received(run: seq<Trace>, k: nat): seq<Trace>
    decreases k, |run|
  {
    if run == [] then [] else Received(run[..|run| - 1], k) + ReceivedIn(run[|run| - 1], k)
  }

  // Where the loads or the stores stand among some requests, and those of them
  // that were not answered by a hit.
  function Asked(answers: seq<Trace>, store: bool): set<nat> {
    set i | 0 <= i < |answers| && answers[i].req.store == store
  }

  function MissedOf(answers: seq<Trace>, store: bool): set<nat> {
    set i | 0 <= i < |answers| && answers[i].req.store == store && !answers[i].Hit?
  }

  // The counters have moved by the numbers of these requests.
  predicate CountedIn(before: Stats, after: Stats, answers: seq<Trace>) {
    && after.readAccesses == before.readAccesses + |Asked(answers, false)|
    && after.writeAccesses == before.writeAccesses + |Asked(answers, true)|
    && after.readMisses == before.readMisses + |MissedOf(answers, false)|
    && after.writeMisses == before.writeMisses + |MissedOf(answers, true)|
  }

  ghost predicate CountedBelow(c: Chain, d: Chain, run: seq<Trace>) {
    && d.Depth() == c.Depth()
    && forall k: nat :: k < c.Depth() ==> CountedIn(c.At(k).stats, d.At(k).stats, Received(run, k))
  }

  // ---- Counting ----

  lemma OneMoreAnswer(answers: seq<Trace>, t: Trace, store: bool)
    ensures |Asked(answers + [t], store)| == |Asked(answers, store)| + if t.req.store == store then 1 else 0
    ensures |MissedOf(answers + [t], store)| ==
            |MissedOf(answers, store)| + if t.req.store == store && !t.Hit? then 1 else 0
  {
    var more := answers + [t];
    var n := |answers|;
    assert more[n] == t && forall i :: 0 <= i < n ==> more[i] == answers[i];
    Arith.OneMoreIn(Asked(answers, store), Asked(more, store), n, t.req.store == store);
    Arith.OneMoreIn(MissedOf(answers, store), MissedOf(more, store), n, t.req.store == store && !t.Hit?);
  }

  lemma {:induction false} CountsJoin(p: seq<Trace>, q: seq<Trace>, store: bool)
    ensures |Asked(p + q, store)| == |Asked(p, store)| + |Asked(q, store)|
    ensures |MissedOf(p + q, store)| == |MissedOf(p, store)| + |MissedOf(q, store)|
    decreases |q|
  {
    hide Asked, MissedOf;
    if q == [] {
      assert p + q == p;
      Nothing(store);
    } else {
      var n := |q| - 1;
      CountsJoin(p, q[..n], store);
      OneMoreAnswer(p + q[..n], q[n], store);
      OneMoreAnswer(q[..n], q[n], store);
      assert p + q == p + q[..n] + [q[n]] && q == q[..n] + [q[n]];
    }
  }

  lemma Nothing(store: bool)
    ensures Asked([], store) == {} && MissedOf([], store) == {}
  {
  }

  lemma CountedTwice(s0: Stats, s1: Stats, s2: Stats, p: seq<Trace>, q: seq<Trace>)
    requires CountedIn(s0, s1, p) && CountedIn(s1, s2, q)
    ensures CountedIn(s0, s2, p + q)
  {
    hide Asked, MissedOf;
    CountsJoin(p, q, false);
    CountsJoin(p, q, true);
  }

  // ---- One access ----

  // The levels below take the requests sent to them as a run of their own.
  lemma SentIsRun(c: Chain, t: Trace)
    requires Can(c, t) && c.Cached?
    ensures CanRun(c.below, SentBy(t)) && After(c.below, SentBy(t)) == Apply(c, t).below
  {
    match t
    case Hit(r) =>
    case Refill(r, fill) =>
      OneRun(c.below, fill);
    case Replace(r, victim, fill) =>
      OneRun(c.below, fill);
    case WriteBack(r, victim, write, fill) =>
      OneRun(c.below, write);
      assert [write, fill][..1] == [write];
  }

  lemma OneRun(c: Chain, t: Trace)
    requires Can(c, t)
    ensures CanRun(c, [t]) && After(c, [t]) == Apply(c, t)
  {
    assert [t][..0] == [];
  }

  lemma TopCounted(c: Chain, t: Trace)
    requires Can(c, t) && c.Cached?
    ensures Apply(c, t).Cached? && CountedIn(c.level.stats, Apply(c, t).level.stats, [t])
  {
    OneMoreAnswer([], t, false);
    OneMoreAnswer([], t, true);
    Nothing(false);
    Nothing(true);
    assert [] + [t] == [t];
    hide Asked, MissedOf;
  }

  lemma {:induction false} AccessCounted(c: Chain, t: Trace, k: nat)
    requires Can(c, t) && k < c.Depth()
    ensures CountedIn(c.At(k).stats, Apply(c, t).At(k).stats, ReceivedIn(t, k))
    decreases k, 0
  {
    hide Can, Apply, CountedIn;
    if k == 0 {
      TopCounted(c, t);
    } else {
      SentIsRun(c, t);
      RunCounted(c.below, SentBy(t), k - 1);
    }
  }

  // Each access counter of level k grows by the loads or stores the level
  // receives in the run, and each miss counter by those it does not hit.
  lemma {:induction false} RunCounted(c: Chain, run: seq<Trace>, k: nat)
    requires CanRun(c, run) && k < c.Depth()
    ensures CountedIn(c.At(k).stats, After(c, run).At(k).stats, Received(run, k))
    decreases k, |run|
  {
    hide Can, Apply, CountedIn;
    if run == [] {
      NoneCounted(c.At(k).stats);
    } else {
      var front, t := run[..|run| - 1], run[|run| - 1];
      RunCounted(c, front, k);
      AccessCounted(After(c, front), t, k);
      CountedTwice(c.At(k).stats, After(c, front).At(k).stats, After(c, run).At(k).stats,
                   Received(front, k), ReceivedIn(t, k));
    }
  }

  lemma NoneCounted(s: Stats)
    ensures CountedIn(s, s, [])
  {
    Nothing(false);
    Nothing(true);
  }

  lemma AllCounted(c: Chain, run: seq<Trace>)
    requires CanRun(c, run)
    ensures CountedBelow(c, After(c, run), run)
  {
    hide CanRun, After, CountedIn;
    forall k: nat | k < c.Depth()
      ensures CountedIn(c.At(k).stats, After(c, run).At(k).stats, Received(run, k))
    {
      RunCounted(c, run, k);
    }
  }

  // ---- From fresh caches ----

  lemma {:induction false} FreshStats(c: Chain, k: nat)
    requires FreshChain(c) && k < c.Depth()
    ensures c.At(k).stats == NO_STATS
  {
    if k > 0 {
      FreshStats(c.below, k - 1);
    }
  }

  lemma FewerMisses(answers: seq<Trace>, store: bool)
    ensures |MissedOf(answers, store)| <= |Asked(answers, store)|
  {
    Arith.SubsetSize(MissedOf(answers, store), Asked(answers, store));
  }

  // The split of the misses: writeMisses is the number of stores the level
  // received and did not hit, readMisses that of such loads.
  lemma MissSplit(c: Chain, run: seq<Trace>, k: nat)
    requires FreshChain(c) && CanRun(c, run) && k < c.Depth()
    ensures var s, answers := After(c, run).At(k).stats, Received(run, k);
            && s.readAccesses == |Asked(answers, false)| && s.writeAccesses == |Asked(answers, true)|
            && s.readMisses == |MissedOf(answers, false)| && s.writeMisses == |MissedOf(answers, true)|
            && s.readMisses <= s.readAccesses && s.writeMisses <= s.writeAccesses
  {
    hide CanRun, After, Asked, MissedOf, Received, FreshChain;
    FreshStats(c, k);
    RunCounted(c, run, k);
    FewerMisses(Received(run, k), false);
    FewerMisses(Received(run, k), true);
  }

  // ---- The counts of the log ----

  predicate IsEvent(e: Event, k: nat, store: bool) {
    e.depth == k && e.req.store == store
  }

  // Position p of the log stores to a line that nothing unsaved was in.
  ghost predicate IsTurn(log: seq<Event>, k: nat, z: nat, p: nat)
    requires z > 0 && p < |log|
  {
    && IsEvent(log[p], k, true)
    && !exists q: nat :: UnsavedFrom(log[..p], k, z, log[p].req.addr / z, q)
  }

  function EventsAt(log: seq<Event>, n: nat, k: nat, store: bool): set<nat>
    requires n <= |log|
  {
    set p: nat | p < n && IsEvent(log[p], k, store)
  }

  ghost function TurnsAt(log: seq<Event>, n: nat, k: nat, z: nat): set<nat>
    requires n <= |log| && z > 0
  {
    set p: nat | p < n && IsTurn(log, k, z, p)
  }

  lemma {:induction false} CountMeans(log: seq<Event>, n: nat, k: nat, store: bool)
    requires n <= |log|
    ensures Count(log[..n], k, store) == |EventsAt(log, n, k, store)|
    decreases n
  {
    if n == 0 {
      assert EventsAt(log, 0, k, store) == {};
    } else {
      CountMeans(log, n - 1, k, store);
      assert log[..n][..n - 1] == log[..n - 1];
      Arith.OneMoreIn(EventsAt(log, n - 1, k, store), EventsAt(log, n, k, store), n - 1,
                      IsEvent(log[n - 1], k, store));
    }
  }

  lemma {:induction false} TurnsMean(log: seq<Event>, n: nat, k: nat, z: nat)
    requires n <= |log| && z > 0
    ensures Turns(log[..n], k, z) == |TurnsAt(log, n, k, z)|
    decreases n
  {
    hide IsTurn;
    if n == 0 {
      assert TurnsAt(log, 0, k, z) == {};
    } else {
      TurnsMean(log, n - 1, k, z);
      LastTurn(log, n - 1, k, z);
      Arith.OneMoreIn(TurnsAt(log, n - 1, k, z), TurnsAt(log, n, k, z), n - 1, IsTurn(log, k, z, n - 1));
    }
  }

  lemma LastTurn(log: seq<Event>, p: nat, k: nat, z: nat)
    requires p < |log| && z > 0
    ensures Turns(log[..p + 1], k, z) == Turns(log[..p], k, z) + if IsTurn(log, k, z, p) then 1 else 0
  {
    hide UnsavedFrom, StoredSince;
    assert log[..p + 1][..p] == log[..p];
    StoredSinceMeans(log[..p], k, z, log[p].req.addr / z);
  }
}
