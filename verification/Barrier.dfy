// The sense-reversing barrier of `sw/app/common/util.h` as a transition system.
//
// The two `static volatile` variables `sense` and `count` are shared by all threads; `threadsense`
// belongs to one thread. Each memory access of the C code that another thread can observe is one
// step: the fetch-and-add, the store to `count`, the store to `sense` and every read of `sense` in
// the spin loop. Steps of different threads interleave arbitrarily; which thread moves next is the
// only nondeterminism, so a run is a sequence of thread numbers.

module Barrier {
  import Arith

  // Where a thread stands inside (or outside) its current call of `barrier`.
  datatype Pc =
    | Outside    // not in a call
    | Flipped    // threadsense has been inverted, the fetch-and-add comes next
    | Clearing   // saw the count ncores-1, `count = 0` comes next
    | Publishing // `count` is zero again, `sense = threadsense` comes next
    | Spinning   // in the while loop

  // `calls` and `exits` are history: how many calls the thread has started and finished.
  datatype Thread = Thread(pc: Pc, threadsense: bool, calls: nat, exits: nat)

  // `rounds` is history: how often `sense` has been published.
  datatype State = State(sense: bool, count: int, threads: seq<Thread>, rounds: nat)

  function Init(n: nat): State {
    State(false, 0, seq(n, _ => Thread(Outside, false, 0, 0)), 0)
  }

  // One step of thread `t`. A thread outside the barrier starts its next call.
  function Step(s: State, t: nat): State
    requires t < |s.threads|
  {
    var me := s.threads[t];
    match me.pc
    case Outside =>
      s.(threads := s.threads[t := Thread(Flipped, !me.threadsense, me.calls + 1, me.exits)])
    case Flipped =>
      s.(count := s.count + 1,
         threads := s.threads[t := me.(pc := if s.count == |s.threads| - 1 then Clearing else Spinning)])
    case Clearing =>
      s.(count := 0, threads := s.threads[t := me.(pc := Publishing)])
    case Publishing =>
      s.(sense := me.threadsense, rounds := s.rounds + 1,
         threads := s.threads[t := me.(pc := Outside, exits := me.exits + 1)])
    case Spinning =>
      if s.sense != me.threadsense then s
      else s.(threads := s.threads[t := me.(pc := Outside, exits := me.exits + 1)])
  }

  ghost predicate IsSchedule(n: nat, schedule: seq<nat>) {
    forall i :: 0 <= i < |schedule| ==> schedule[i] < n
  }

  // The state after the threads in `schedule` have moved, one step each, in that order.
  function Run(n: nat, schedule: seq<nat>): (s: State)
    requires IsSchedule(n, schedule)
    ensures |s.threads| == n
  {
    if schedule == [] then Init(n)
    else Step(Run(n, schedule[..|schedule| - 1]), schedule[|schedule| - 1])
  }

  // ---- The inductive invariant ----

  // Thread `th` has done its fetch-and-add for the round after `rounds`.
  predicate Arrived(th: Thread, rounds: nat) {
    th.calls == rounds + 1 && th.pc in {Clearing, Publishing, Spinning}
  }

  function Arrivals(s: State): set<nat> {
    set t: nat | t < |s.threads| && Arrived(s.threads[t], s.rounds)
  }

  // Thread `t` saw `ncores-1` and has not yet published the new sense.
  predicate IsLast(s: State, t: nat) {
    t < |s.threads| && s.threads[t].pc in {Clearing, Publishing}
  }

  predicate IsPublishing(s: State, t: nat) {
    t < |s.threads| && s.threads[t].pc == Publishing
  }

  // Every thread has arrived in the open round.
  predicate Full(s: State) {
    forall u: nat :: u < |s.threads| ==> Arrived(s.threads[u], s.rounds)
  }

  function Odd(k: nat): bool { k % 2 == 1 }

  ghost predicate ThreadOk(th: Thread, rounds: nat) {
    && th.threadsense == Odd(th.calls)
    && th.calls == th.exits + (if th.pc == Outside then 0 else 1)
    && match th.pc
       case Outside => th.calls == rounds
       case Spinning => th.calls == rounds || th.calls == rounds + 1
       case _ => th.calls == rounds + 1
  }

  ghost predicate Inv(s: State) {
    && s.sense == Odd(s.rounds)
    && (forall t: nat :: t < |s.threads| ==> ThreadOk(s.threads[t], s.rounds))
    && (forall t: nat, u: nat :: IsLast(s, t) && IsLast(s, u) ==> t == u)
    && (forall t: nat :: IsLast(s, t) ==> Full(s))
    && (Full(s) && |s.threads| > 0 ==> exists t: nat :: IsLast(s, t))
    && s.count == (if exists t: nat :: IsPublishing(s, t) then 0 else |Arrivals(s)|)
  }

  function Threads(n: nat): (r: set<nat>)
    ensures forall t: nat :: t in r <==> t < n
    ensures |r| == n
  {
    if n == 0 then {} else Threads(n - 1) + {n - 1}
  }

  // There are at most n arrivals, and n of them only when everybody is there.
  lemma AllArrived(s: State)
    ensures |Arrivals(s)| <= |s.threads|
    ensures |Arrivals(s)| == |s.threads| <==> Full(s)
  {
    var all := Threads(|s.threads|);
    assert Arrivals(s) <= all;
    Arith.SubsetSize(Arrivals(s), all);
    if Full(s) {
      assert Arrivals(s) == all;
    }
    if Arrivals(s) == all {
      forall u: nat | u < |s.threads| ensures Arrived(s.threads[u], s.rounds) {
        assert u in all;
      }
    }
  }

  lemma InitInv(n: nat)
    ensures Inv(Init(n))
  {
    assert Arrivals(Init(n)) == {};
    if n > 0 {
      assert !Arrived(Init(n).threads[0], 0);
    }
  }

  // While somebody is missing, the round has no last arriver and the count is exact.
  lemma NobodyLast(s: State, missing: nat)
    requires Inv(s) && missing < |s.threads| && !Arrived(s.threads[missing], s.rounds)
    ensures !Full(s) && forall u: nat :: !IsLast(s, u)
    ensures s.count == |Arrivals(s)|
  {
    assert !Full(s);
    assert forall u: nat :: IsPublishing(s, u) ==> IsLast(s, u);
  }

  lemma OutsideInv(s: State, t: nat)
    requires Inv(s) && t < |s.threads| && s.threads[t].pc == Outside
    ensures Inv(Step(s, t))
  {
    var s' := Step(s, t);
    assert ThreadOk(s.threads[t], s.rounds);
    assert !Arrived(s.threads[t], s.rounds) && !Arrived(s'.threads[t], s'.rounds);
    NobodyLast(s, t);
    assert forall u: nat :: IsLast(s', u) ==> IsLast(s, u);
    assert forall u: nat :: IsPublishing(s', u) ==> IsLast(s', u);
    assert Arrivals(s') == Arrivals(s);
  }

  lemma OneArrives(s: State, t: nat)
    requires Inv(s) && t < |s.threads| && s.threads[t].pc == Flipped
    ensures |Arrivals(Step(s, t))| == |Arrivals(s)| + 1
  {
    assert ThreadOk(s.threads[t], s.rounds);
    hide Inv;
    assert t !in Arrivals(s) && Arrivals(Step(s, t)) == Arrivals(s) + {t};
  }

  lemma FlippedInv(s: State, t: nat)
    requires Inv(s) && t < |s.threads| && s.threads[t].pc == Flipped
    ensures Inv(Step(s, t))
  {
    var s' := Step(s, t);
    assert ThreadOk(s.threads[t], s.rounds);
    assert !Arrived(s.threads[t], s.rounds);
    NobodyLast(s, t);
    OneArrives(s, t);
    AllArrived(s');
    hide Arrivals, Odd;
    assert forall u: nat :: IsLast(s', u) ==> u == t || IsLast(s, u);
    assert forall u: nat :: IsPublishing(s', u) ==> u != t && IsLast(s', u);
    if Full(s') {
      assert IsLast(s', t);
    }
  }

  lemma ClearingInv(s: State, t: nat)
    requires Inv(s) && t < |s.threads| && s.threads[t].pc == Clearing
    ensures Inv(Step(s, t))
  {
    var s' := Step(s, t);
    assert ThreadOk(s.threads[t], s.rounds);
    assert IsLast(s, t);
    assert IsPublishing(s', t) && IsLast(s', t);
    assert forall u: nat :: IsLast(s', u) ==> IsLast(s, u);
  }

  lemma PublishingInv(s: State, t: nat)
    requires Inv(s) && t < |s.threads| && s.threads[t].pc == Publishing
    ensures Inv(Step(s, t))
  {
    var s' := Step(s, t);
    assert ThreadOk(s.threads[t], s.rounds);
    assert IsLast(s, t) && IsPublishing(s, t);
    assert forall u: nat :: IsLast(s', u) ==> u != t && IsLast(s, u);
    assert forall u: nat :: IsPublishing(s', u) ==> IsLast(s', u);
    forall u: nat | u < |s.threads|
      ensures ThreadOk(s'.threads[u], s'.rounds) && !Arrived(s'.threads[u], s'.rounds)
    {
      assert ThreadOk(s.threads[u], s.rounds) && Arrived(s.threads[u], s.rounds);
      assert u != t ==> !IsLast(s, u);
    }
    assert Arrivals(s') == {};
    assert !Arrived(s'.threads[t], s'.rounds);
  }

  lemma LeavingInv(s: State, t: nat)
    requires Inv(s) && t < |s.threads| && s.threads[t].pc == Spinning && s.sense == s.threads[t].threadsense
    ensures Inv(Step(s, t))
  {
    var s' := Step(s, t);
    assert ThreadOk(s.threads[t], s.rounds);
    assert !Arrived(s.threads[t], s.rounds) && !Arrived(s'.threads[t], s'.rounds);
    NobodyLast(s, t);
    assert forall u: nat :: IsLast(s', u) ==> IsLast(s, u);
    assert forall u: nat :: IsPublishing(s', u) ==> IsLast(s', u);
    assert Arrivals(s') == Arrivals(s);
  }

  // Every step of every thread keeps the invariant.
  lemma StepInv(s: State, t: nat)
    requires Inv(s) && t < |s.threads|
    ensures Inv(Step(s, t))
  {
    match s.threads[t].pc
    case Outside => OutsideInv(s, t);
    case Flipped => FlippedInv(s, t);
    case Clearing => ClearingInv(s, t);
    case Publishing => PublishingInv(s, t);
    case Spinning =>
      if s.sense == s.threads[t].threadsense {
        LeavingInv(s, t);
      }
  }

  lemma {:induction false} RunInv(n: nat, schedule: seq<nat>)
    requires IsSchedule(n, schedule)
    ensures Inv(Run(n, schedule))
  {
    if schedule == [] {
      InitInv(n);
    } else {
      RunInv(n, schedule[..|schedule| - 1]);
      StepInv(Run(n, schedule[..|schedule| - 1]), schedule[|schedule| - 1]);
    }
  }

  // ---- Safety over every run ----

  // The barrier property: whenever thread `t` has finished its k-th call, every thread has started
  // its k-th call. Calls never run ahead of one another by more than one.
  lemma NobodyLeavesEarly(n: nat, schedule: seq<nat>, k: nat, t: nat, u: nat)
    requires IsSchedule(n, schedule) && t < n && u < n
    ensures var s := Run(n, schedule);
      && (s.threads[t].exits >= k ==> s.threads[u].calls >= k)
      && s.threads[t].calls <= s.threads[u].calls + 1
  {
    RunInv(n, schedule);
    var s := Run(n, schedule);
    assert ThreadOk(s.threads[t], s.rounds) && ThreadOk(s.threads[u], s.rounds);
  }

  // `count` is the number of arrivals in the open round, until the last arriver has zeroed it.
  lemma CountIsArrivals(n: nat, schedule: seq<nat>)
    requires IsSchedule(n, schedule)
    ensures var s := Run(n, schedule);
      && 0 <= s.count <= n
      && (s.count == |Arrivals(s)| || (s.count == 0 && exists t: nat :: IsPublishing(s, t)))
      && (forall t: nat :: IsLast(s, t) && !IsPublishing(s, t) ==> s.count == n)
  {
    RunInv(n, schedule);
    var s := Run(n, schedule);
    AllArrived(s);
    forall t: nat | IsLast(s, t) && !IsPublishing(s, t) ensures s.count == n {
      assert forall u: nat :: IsPublishing(s, u) ==> IsLast(s, u);
    }
  }

  // From the moment one thread reads `ncores-1` until it publishes the new sense, it is the only one
  // that can change anything: every other thread spins on the old sense, none is before its
  // fetch-and-add.
  lemma ResetIsUndisturbed(n: nat, schedule: seq<nat>, last: nat, u: nat)
    requires IsSchedule(n, schedule) && last < n && u < n && u != last
    requires IsLast(Run(n, schedule), last)
    ensures var s := Run(n, schedule); s.threads[u].pc == Spinning && Step(s, u) == s
  {
    RunInv(n, schedule);
    var s := Run(n, schedule);
    assert ThreadOk(s.threads[u], s.rounds) && Arrived(s.threads[u], s.rounds);
    assert !IsLast(s, u);
  }

  // ---- Progress ----

  // Thread `t` is not waiting on a stale sense: its next step changes the state.
  predicate Enabled(s: State, t: nat) {
    t < |s.threads| && (s.threads[t].pc == Spinning ==> s.threads[t].calls == s.rounds)
  }

  // No deadlock: with at least one thread, somebody can always make a step that matters.
  lemma SomebodyEnabled(s: State) returns (t: nat)
    requires Inv(s) && |s.threads| > 0
    ensures Enabled(s, t) && Step(s, t) != s
  {
    if Full(s) {
      t :| IsLast(s, t);
    } else {
      t :| t < |s.threads| && !Arrived(s.threads[t], s.rounds);
    }
    assert ThreadOk(s.threads[t], s.rounds);
  }

  lemma NeverDeadlocked(n: nat, schedule: seq<nat>)
    requires IsSchedule(n, schedule) && n > 0
    ensures exists t: nat :: t < n && Step(Run(n, schedule), t) != Run(n, schedule)
  {
    RunInv(n, schedule);
    var t := SomebodyEnabled(Run(n, schedule));
  }

  // Steps thread `th` still has to make before the open round can complete.
  function Weight(th: Thread, rounds: nat): nat {
    match th.pc
    case Outside => 4
    case Flipped => 3
    case Clearing => 2
    case Publishing => 1
    case Spinning => if th.calls == rounds then 5 else 0
  }

  function Work(threads: seq<Thread>, rounds: nat): nat {
    if threads == [] then 0 else Weight(threads[0], rounds) + Work(threads[1..], rounds)
  }

  lemma {:induction false} WorkUpdate(threads: seq<Thread>, rounds: nat, t: nat, th: Thread)
    requires t < |threads|
    ensures Work(threads[t := th], rounds)
         == Work(threads, rounds) - Weight(threads[t], rounds) + Weight(th, rounds)
  {
    if t == 0 {
      assert threads[t := th][1..] == threads[1..];
    } else {
      assert threads[t := th][1..] == threads[1..][t - 1 := th];
      WorkUpdate(threads[1..], rounds, t - 1, th);
    }
  }

  lemma ThreadIsOk(s: State, t: nat)
    requires Inv(s) && t < |s.threads|
    ensures s.sense == Odd(s.rounds) && ThreadOk(s.threads[t], s.rounds)
  {
  }

  // A step completes the round, or brings it closer, or is an idle spin that changes nothing.
  lemma StepProgress(s: State, t: nat)
    requires Inv(s) && t < |s.threads|
    ensures var s' := Step(s, t);
      || s'.rounds == s.rounds + 1
      || (s'.rounds == s.rounds && Work(s'.threads, s.rounds) < Work(s.threads, s.rounds))
      || (s' == s && !Enabled(s, t))
  {
    ThreadIsOk(s, t);
    hide Inv, Work, Full, Arrivals, IsLast;
    if s.threads[t].pc != Publishing {
      WorkUpdate(s.threads, s.rounds, t, Step(s, t).threads[t]);
    }
  }

  // An infinite run that gives every thread infinitely many turns.
  ghost predicate Fair(n: nat, turn: nat -> nat) {
    && (forall i: nat :: turn(i) < n)
    && (forall t: nat, i: nat :: t < n ==> HasTurnFrom(turn, t, i))
  }

  ghost predicate HasTurnFrom(turn: nat -> nat, t: nat, i: nat) {
    exists j: nat :: i <= j && turn(j) == t
  }

  // The state after the first `i` steps of the infinite run.
  ghost function At(n: nat, turn: nat -> nat, i: nat): (s: State)
    requires Fair(n, turn)
    ensures |s.threads| == n
  {
    Run(n, seq(i, (j: nat) => turn(j)))
  }

  lemma AtStep(n: nat, turn: nat -> nat, i: nat)
    requires Fair(n, turn)
    ensures At(n, turn, i + 1) == Step(At(n, turn, i), turn(i))
    ensures Inv(At(n, turn, i))
  {
    var longer := seq(i + 1, (j: nat) => turn(j));
    assert longer[..i] == seq(i, (j: nat) => turn(j));
    RunInv(n, longer[..i]);
  }

  // By the time an enabled thread has had its turn, the round is complete or closer to it.
  lemma {:induction false} TurnProgress(n: nat, turn: nat -> nat, i: nat, j: nat) returns (k: nat)
    requires Fair(n, turn) && i <= j && Enabled(At(n, turn, i), turn(j))
    ensures i < k
    ensures var s, s' := At(n, turn, i), At(n, turn, k);
      || s'.rounds == s.rounds + 1
      || (s'.rounds == s.rounds && Work(s'.threads, s'.rounds) < Work(s.threads, s.rounds))
    decreases j - i
  {
    AtStep(n, turn, i);
    StepProgress(At(n, turn, i), turn(i));
    if At(n, turn, i + 1) == At(n, turn, i) {
      k := TurnProgress(n, turn, i + 1, j);
    } else {
      k := i + 1;
    }
  }

  // From any point of a fair run, the open round completes.
  lemma {:induction false} RoundCompletes(n: nat, turn: nat -> nat, i: nat) returns (k: nat)
    requires Fair(n, turn) && n > 0
    ensures i < k && At(n, turn, k).rounds == At(n, turn, i).rounds + 1
    decreases Work(At(n, turn, i).threads, At(n, turn, i).rounds)
  {
    AtStep(n, turn, i);
    var t := SomebodyEnabled(At(n, turn, i));
    assert HasTurnFrom(turn, t, i);
    var j: nat :| i <= j && turn(j) == t;
    k := TurnProgress(n, turn, i, j);
    if At(n, turn, k).rounds == At(n, turn, i).rounds {
      k := RoundCompletes(n, turn, k);
    }
  }

  lemma {:induction false} ManyRounds(n: nat, turn: nat -> nat, r: nat) returns (i: nat)
    requires Fair(n, turn) && n > 0
    ensures At(n, turn, i).rounds >= r
  {
    if r == 0 {
      i := 0;
    } else {
      i := ManyRounds(n, turn, r - 1);
      i := RoundCompletes(n, turn, i);
    }
  }

  // Liveness: in every fair run of n >= 1 threads that keep calling the barrier, every thread
  // finishes its k-th call, for every k.
  lemma EveryCallReturns(n: nat, turn: nat -> nat, k: nat) returns (i: nat)
    requires Fair(n, turn) && n > 0
    ensures forall t: nat :: t < n ==> At(n, turn, i).threads[t].exits >= k
  {
    i := ManyRounds(n, turn, k + 1);
    AtStep(n, turn, i);
    var s := At(n, turn, i);
    forall t: nat | t < n ensures s.threads[t].exits >= k {
      assert ThreadOk(s.threads[t], s.rounds);
    }
  }
}
