// The search loop of `core_bench_list` in `sw/app/coremark/core_list_join.c`, and what it is worth:
// how its counters add up to the value that the checksums start from.

module BenchSearch {
  import Arith
  import opened ListNodes
  import opened ListOrder
  import opened MergeSort
  import opened ListOps

  // ---- The search loop, on values ----

  // The variables of the search loop: the list, the item searched for, and the three counters.
  datatype Search = Search(s: seq<ListHead>, idx: s16, data16: u16, found: u16, missed: u16, retval: u16)

  // `info.idx++` on a 16-bit value, unless it is negative.
  function NextIdx(idx: s16): s16 {
    if idx < 0 then idx else if idx == 0x7fff then -0x8000 else idx + 1
  }

  // One search: the list is reversed, and the successor of a node that was found moves to the second place.
  ghost function SearchStep(c: Contents, f: Search, i: nat): (g: Search)
    requires NoDup(f.s) && Elems(f.s) <= c.Keys && |f.s| >= 2
    ensures NoDup(g.s) && Elems(g.s) == Elems(f.s) && |g.s| == |f.s|
  {
    var data16, t := i % 0x100, Reversed(f.s);
    var k := FirstMatch(c, f.s, f.idx, data16);
    ReversedPerm(f.s);
    assert forall x :: x in t ==> x in Elems(t);
    if k == |f.s| then
      Search(t, NextIdx(f.idx), data16, f.found, (f.missed + 1) % M16, (f.retval + c[t[1]].data / 0x100 % 2) % M16)
    else
      var x, at := c[f.s[k]], |f.s| - 1 - k;
      var retval := if x.data % 2 == 1 then (f.retval + x.data / 0x200 % 2) % M16 else f.retval;
      var u := if at + 1 < |t| then (SplicedPerm(t, at); Spliced(t, at)) else t;
      Search(u, NextIdx(f.idx), data16, (f.found + 1) % M16, f.missed, retval)
  }

  // `n` searches.
  ghost function SearchRun(c: Contents, f: Search, n: nat): (g: Search)
    requires NoDup(f.s) && Elems(f.s) <= c.Keys && |f.s| >= 2
    ensures NoDup(g.s) && Elems(g.s) == Elems(f.s) && |g.s| == |f.s|
  {
    if n == 0 then f else SearchStep(c, SearchRun(c, f, n - 1), n - 1)
  }

  lemma ContentAt(nodes: set<ListHead>, n: ListHead)
    requires n in nodes
    ensures ContentsOf(nodes)[n] == Item(n.info, n.info.data16, n.info.idx)
  {
  }

  lemma SecondNode(nodes: set<ListHead>, list: ListHead, t: seq<ListHead>)
    requires |t| >= 2 && IsList(nodes, LinksOf(nodes), list, t)
    ensures list == t[0] && list.next == t[1] && list in nodes && t[1] in nodes
    ensures ContentsOf(nodes)[t[1]] == Item(t[1].info, t[1].info.data16, t[1].info.idx)
  {
    ListAt(nodes, LinksOf(nodes), list, t);
    assert LinkedAt(LinksOf(nodes), t, 0) && LinkedAt(LinksOf(nodes), t, 1);
  }

  lemma ListFacts(nodes: set<ListHead>, nx: Links, p: ListHead?, s: seq<ListHead>)
    requires IsList(nodes, nx, p, s)
    ensures NoDup(s) && Elems(s) <= nodes && (if s == [] then p == null else p == s[0])
    ensures forall i :: 0 <= i < |s| ==> s[i] in nodes
  {
    assert forall i :: 0 <= i < |s| ==> s[i] in Elems(s);
  }

  // The body of the search loop.
  method SearchTurn(list0: ListHead, idx: s16, i: nat, found0: u16, missed0: u16, retval0: u16,
                    ghost nodes: set<ListHead>, ghost f: Search)
    returns (list: ListHead, data16: u16, found: u16, missed: u16, retval: u16, ghost g: Search)
    requires |f.s| >= 2 && IsList(nodes, LinksOf(nodes), list0, f.s)
    requires f.idx == idx && f.found == found0 && f.missed == missed0 && f.retval == retval0
    modifies nodes`next
    ensures ContentsOf(nodes) == old(ContentsOf(nodes)) && Separate(nodes) == old(Separate(nodes))
    ensures NoDup(f.s) && Elems(f.s) <= nodes && g == SearchStep(ContentsOf(nodes), f, i)
    ensures IsList(nodes, LinksOf(nodes), list, g.s)
    ensures g == Search(g.s, NextIdx(idx), data16, found, missed, retval)
  {
    hide IsList, ContentsOf, LinksOf, Separate, Spliced, Reversed, FirstMatch, NoDup, Elems, LinkedAt;
    ghost var c := ContentsOf(nodes);
    ListFacts(nodes, LinksOf(nodes), list0, f.s);
    g := SearchStep(c, f, i);
    data16, found, missed, retval := i % 0x100, found0, missed0, retval0;
    var thisFind := Find(list0, idx, data16, nodes, f.s);
    ghost var k := FirstMatch(c, f.s, idx, data16);
    if thisFind != null {
      ContentAt(nodes, f.s[k]);
    }
    ghost var t := Reversed(f.s);
    var reversed := Reverse(list0, nodes, f.s);
    ListFacts(nodes, LinksOf(nodes), reversed, t);
    list := reversed;
    if thisFind == null {
      SecondNode(nodes, list, t);
      missed := (missed + 1) % M16;
      retval := (retval + list.next.info.data16 / 0x100 % 2) % M16;
    } else {
      found := (found + 1) % M16;
      if thisFind.info.data16 % 2 == 1 {
        retval := (retval + thisFind.info.data16 / 0x200 % 2) % M16;
      }
      Splice(list, thisFind, nodes, t, |f.s| - 1 - k);
    }
  }

  // ---- What the searches are worth ----

  // The first node that matches stands at place k.
  ghost predicate FirstAt(c: Contents, s: seq<ListHead>, idx: s16, data16: u16, k: nat)
    requires Elems(s) <= c.Keys
  {
    && k < |s| && InContents(c, s) && Matches(c[s[k]], idx, data16)
    && forall j :: 0 <= j < k ==> !Matches(c[s[j]], idx, data16)
  }

  ghost predicate InContents(c: Contents, s: seq<ListHead>) {
    forall x :: x in s ==> x in c
  }

  ghost predicate IsHit(c: Contents, s: seq<ListHead>, idx: s16, data16: u16) {
    exists x :: x in s && x in c && Matches(c[x], idx, data16)
  }

  // Bit b of an item.
  predicate DataBit(d: u16, b: nat) {
    d / Arith.Pow2(b) % 2 == 1
  }

  // A search that hits an odd item adds its bit 9; one that misses adds bit 8 of the node that is second in the
  // reversed list, the last but one of the list searched.
  ghost predicate IsBonus(c: Contents, s: seq<ListHead>, idx: s16, data16: u16) {
    && Elems(s) <= c.Keys && |s| >= 2
    && if IsHit(c, s, idx, data16) then
         exists k: nat :: FirstAt(c, s, idx, data16, k) && DataBit(c[s[k]].data, 0) && DataBit(c[s[k]].data, 9)
       else
         s[|s| - 2] in c && DataBit(c[s[|s| - 2]].data, 8)
  }

  // The index searched for in turn i: one more each time, until it is negative.
  function IdxAt(finderIdx: s16, i: nat): s16 {
    if finderIdx < 0 then finderIdx else if finderIdx + i <= 0x7fff then finderIdx + i else -0x8000
  }

  // A search reverses the list; the node behind the one found, if there is one, then becomes the second.
  ghost predicate NextOrder(c: Contents, s: seq<ListHead>, idx: s16, data16: u16, t: seq<ListHead>) {
    && Elems(s) <= c.Keys && |s| >= 2
    && if IsHit(c, s, idx, data16) then
         exists k: nat :: FirstAt(c, s, idx, data16, k) &&
                          t == if k == 0 then Reversed(s) else Spliced(Reversed(s), |s| - 1 - k)
       else
         t == Reversed(s)
  }

  // The sequence of nodes before each turn, and after the last one.
  ghost predicate Orders(c: Contents, s: seq<ListHead>, finderIdx: s16, n: nat, orders: seq<seq<ListHead>>) {
    && |orders| == n + 1 && orders[0] == s
    && forall i: nat :: i < n ==> NextOrder(c, orders[i], IdxAt(finderIdx, i), i % 0x100, orders[i + 1])
  }

  // How many of the first n turns hit, and how many add a bit.
  ghost function Hits(c: Contents, orders: seq<seq<ListHead>>, finderIdx: s16, n: nat): (h: nat)
    requires n <= |orders|
    ensures h <= n
  {
    if n == 0 then 0
    else Hits(c, orders, finderIdx, n - 1) +
         if IsHit(c, orders[n - 1], IdxAt(finderIdx, n - 1), (n - 1) % 0x100) then 1 else 0
  }

  ghost function Bonuses(c: Contents, orders: seq<seq<ListHead>>, finderIdx: s16, n: nat): nat
    requires n <= |orders|
  {
    if n == 0 then 0
    else Bonuses(c, orders, finderIdx, n - 1) +
         if IsBonus(c, orders[n - 1], IdxAt(finderIdx, n - 1), (n - 1) % 0x100) then 1 else 0
  }

  ghost function HitTurns(c: Contents, orders: seq<seq<ListHead>>, finderIdx: s16, n: nat): set<nat>
    requires n <= |orders|
  {
    set i: nat | i < n && IsHit(c, orders[i], IdxAt(finderIdx, i), i % 0x100)
  }

  ghost function BonusTurns(c: Contents, orders: seq<seq<ListHead>>, finderIdx: s16, n: nat): set<nat>
    requires n <= |orders|
  {
    set i: nat | i < n && IsBonus(c, orders[i], IdxAt(finderIdx, i), i % 0x100)
  }

  lemma {:induction false} HitsMean(c: Contents, orders: seq<seq<ListHead>>, finderIdx: s16, n: nat)
    requires n <= |orders|
    ensures Hits(c, orders, finderIdx, n) == |HitTurns(c, orders, finderIdx, n)|
    ensures Bonuses(c, orders, finderIdx, n) == |BonusTurns(c, orders, finderIdx, n)|
  {
    hide IsHit, IsBonus, IdxAt;
    if n == 0 {
      assert HitTurns(c, orders, finderIdx, n) == {} && BonusTurns(c, orders, finderIdx, n) == {};
    } else {
      HitsMean(c, orders, finderIdx, n - 1);
      var idx := IdxAt(finderIdx, n - 1);
      Arith.OneMoreIn(HitTurns(c, orders, finderIdx, n - 1), HitTurns(c, orders, finderIdx, n), n - 1,
                      IsHit(c, orders[n - 1], idx, (n - 1) % 0x100));
      Arith.OneMoreIn(BonusTurns(c, orders, finderIdx, n - 1), BonusTurns(c, orders, finderIdx, n), n - 1,
                      IsBonus(c, orders[n - 1], idx, (n - 1) % 0x100));
    }
  }

  // Every search costs one, every hit brings five back, every bonus one.
  ghost predicate Score(c: Contents, orders: seq<seq<ListHead>>, finderIdx: s16, n: nat, retval: u16)
    requires n <= |orders|
  {
    (retval + n) % M16 == (Bonuses(c, orders, finderIdx, n) + 5 * Hits(c, orders, finderIdx, n)) % M16
  }

  lemma {:induction false} OrdersPerm(c: Contents, s: seq<ListHead>, finderIdx: s16, n: nat,
                                      orders: seq<seq<ListHead>>, i: nat)
    requires NoDup(s) && Orders(c, s, finderIdx, n, orders) && i <= n
    ensures NoDup(orders[i]) && Elems(orders[i]) == Elems(s) && |orders[i]| == |s|
  {
    hide NextOrder, NoDup, Elems;
    if i > 0 {
      OrdersPerm(c, s, finderIdx, n, orders, i - 1);
      assert NextOrder(c, orders[i - 1], IdxAt(finderIdx, i - 1), (i - 1) % 0x100, orders[i]);
      NextPerm(c, orders[i - 1], IdxAt(finderIdx, i - 1), (i - 1) % 0x100, orders[i]);
    }
  }

  lemma NextPerm(c: Contents, s: seq<ListHead>, idx: s16, data16: u16, t: seq<ListHead>)
    requires NoDup(s) && NextOrder(c, s, idx, data16, t)
    ensures NoDup(t) && Elems(t) == Elems(s) && |t| == |s|
  {
    hide NoDup, Elems, Spliced, Matches, IsHit;
    ReversedPerm(s);
    if IsHit(c, s, idx, data16) {
      var k: nat :| FirstAt(c, s, idx, data16, k) &&
                    t == if k == 0 then Reversed(s) else Spliced(Reversed(s), |s| - 1 - k);
      if k > 0 {
        SplicedPerm(Reversed(s), |s| - 1 - k);
      }
    }
  }

  lemma MatchMeans(c: Contents, s: seq<ListHead>, idx: s16, data16: u16)
    requires Elems(s) <= c.Keys
    ensures InContents(c, s)
    ensures var k := FirstMatch(c, s, idx, data16);
            if k < |s| then IsHit(c, s, idx, data16) && FirstAt(c, s, idx, data16, k) else !IsHit(c, s, idx, data16)
    ensures forall k: nat :: FirstAt(c, s, idx, data16, k) ==> k == FirstMatch(c, s, idx, data16)
  {
    hide Matches;
    forall x | x in s
      ensures x in c
    {
      assert x in Elems(s);
    }
    var k := FirstMatch(c, s, idx, data16);
    if k < |s| {
      assert s[k] in s;
    }
  }

  lemma DataBits(d: u16)
    ensures DataBit(d, 0) <==> d % 2 == 1
    ensures DataBit(d, 8) <==> d / 0x100 % 2 == 1
    ensures DataBit(d, 9) <==> d / 0x200 % 2 == 1
  {
    assert Arith.Pow2(3) == 8 && Arith.Pow2(6) == 64;
    assert Arith.Pow2(9) == 0x200 && Arith.Pow2(8) == 0x100;
  }

  // One turn of the specification, in these terms.
  ghost predicate StepIs(c: Contents, f: Search, i: nat, g: Search) {
    var hit, bonus := IsHit(c, f.s, f.idx, i % 0x100), IsBonus(c, f.s, f.idx, i % 0x100);
    && NextOrder(c, f.s, f.idx, i % 0x100, g.s) && g.idx == NextIdx(f.idx) && g.data16 == i % 0x100
    && g.found == Plus(f.found, if hit then 1 else 0)
    && g.missed == Plus(f.missed, if hit then 0 else 1)
    && g.retval == Plus(f.retval, if bonus then 1 else 0)
  }

  // Addition of 16-bit numbers, and a 16-bit count.
  function Plus(y: u16, d: nat): u16 {
    (y + d) % M16
  }

  predicate Counts(y: u16, x: nat) {
    y == x % M16
  }

  lemma MissMeans(c: Contents, f: Search, i: nat)
    requires NoDup(f.s) && Elems(f.s) <= c.Keys && |f.s| >= 2
    requires FirstMatch(c, f.s, f.idx, i % 0x100) == |f.s|
    ensures StepIs(c, f, i, SearchStep(c, f, i))
  {
    var s := f.s;
    MatchMeans(c, s, f.idx, i % 0x100);
    assert Reversed(s)[1] == s[|s| - 2] && s[|s| - 2] in s;
    DataBits(c[s[|s| - 2]].data);
    hide NoDup, Elems, Reversed, Spliced, FirstMatch, IsHit, DataBit, FirstAt, NextIdx, InContents;
  }

  lemma HitMeans(c: Contents, f: Search, i: nat)
    requires NoDup(f.s) && Elems(f.s) <= c.Keys && |f.s| >= 2
    requires FirstMatch(c, f.s, f.idx, i % 0x100) < |f.s|
    ensures StepIs(c, f, i, SearchStep(c, f, i))
  {
    hide NoDup, Elems, Reversed, Spliced, FirstMatch, IsHit, DataBit, FirstAt, NextIdx, InContents;
    var s, idx, data16 := f.s, f.idx, i % 0x100;
    var k, g := FirstMatch(c, s, idx, data16), SearchStep(c, f, i);
    MatchMeans(c, s, idx, data16);
    var d := c[s[k]].data;
    DataBits(d);
    assert NextOrder(c, s, idx, data16, g.s) by {
      assert g.s == if k == 0 then Reversed(s) else Spliced(Reversed(s), |s| - 1 - k);
    }
    assert IsBonus(c, s, idx, data16) <==> DataBit(d, 0) && DataBit(d, 9);
    hide NextOrder, IsBonus;
    assert g.retval == (f.retval + if DataBit(d, 0) && DataBit(d, 9) then 1 else 0) % M16;
  }

  lemma StepMeans(c: Contents, f: Search, i: nat)
    requires NoDup(f.s) && Elems(f.s) <= c.Keys && |f.s| >= 2
    ensures StepIs(c, f, i, SearchStep(c, f, i))
  {
    hide StepIs, SearchStep, FirstMatch, NoDup, Elems;
    if FirstMatch(c, f.s, f.idx, i % 0x100) < |f.s| {
      HitMeans(c, f, i);
    } else {
      MissMeans(c, f, i);
    }
  }

  // The data searched for last; before the first turn whatever the variable holds.
  function DataAt(junk: u16, n: nat): u16 {
    if n == 0 then junk else (n - 1) % 0x100
  }

  // The specification after n turns, in these terms.
  ghost predicate RunIs(c: Contents, f0: Search, n: nat, orders: seq<seq<ListHead>>, g: Search) {
    var finderIdx := f0.idx;
    && Orders(c, f0.s, finderIdx, n, orders) && orders[n] == g.s
    && g.idx == IdxAt(finderIdx, n) && g.data16 == DataAt(f0.data16, n)
    && Counts(g.found, Hits(c, orders, finderIdx, n))
    && Counts(g.missed, n - Hits(c, orders, finderIdx, n))
    && Counts(g.retval, Bonuses(c, orders, finderIdx, n))
  }

  lemma {:induction false} RunMeans(c: Contents, f0: Search, n: nat) returns (orders: seq<seq<ListHead>>)
    requires NoDup(f0.s) && Elems(f0.s) <= c.Keys && |f0.s| >= 2
    requires f0.found == f0.missed == f0.retval == 0
    ensures RunIs(c, f0, n, orders, SearchRun(c, f0, n))
  {
    hide NoDup, Elems, SearchStep, NextOrder, IsHit, IsBonus;
    if n == 0 {
      orders := [f0.s];
    } else {
      hide StepIs, RunIs;
      var most := RunMeans(c, f0, n - 1);
      var f := SearchRun(c, f0, n - 1);
      StepMeans(c, f, n - 1);
      orders := most + [SearchStep(c, f, n - 1).s];
      OneMoreTurn(c, f0, n - 1, most, f, SearchStep(c, f, n - 1));
    }
  }

  lemma OneMoreTurn(c: Contents, f0: Search, n: nat, most: seq<seq<ListHead>>, f: Search, g: Search)
    requires RunIs(c, f0, n, most, f) && StepIs(c, f, n, g)
    ensures RunIs(c, f0, n + 1, most + [g.s], g)
  {
    hide NextOrder, IsHit, IsBonus, IdxAt, NextIdx, Hits, Bonuses, Plus, Counts;
    var finderIdx := f0.idx;
    IdxMore(finderIdx, n);
    OneMoreOrder(c, f0.s, finderIdx, n, most, g.s);
    CountsMore(c, finderIdx, n, most, g.s);
    CountMore(Hits(c, most, finderIdx, n), if IsHit(c, f.s, f.idx, n % 0x100) then 1 else 0, f.found);
    CountMore(n - Hits(c, most, finderIdx, n), if IsHit(c, f.s, f.idx, n % 0x100) then 0 else 1, f.missed);
    CountMore(Bonuses(c, most, finderIdx, n), if IsBonus(c, f.s, f.idx, n % 0x100) then 1 else 0, f.retval);
  }

  lemma IdxMore(finderIdx: s16, n: nat)
    ensures IdxAt(finderIdx, n + 1) == NextIdx(IdxAt(finderIdx, n))
  {
  }

  lemma CountsMore(c: Contents, finderIdx: s16, n: nat, most: seq<seq<ListHead>>, t: seq<ListHead>)
    requires |most| == n + 1
    ensures var idx, data16, orders := IdxAt(finderIdx, n), n % 0x100, most + [t];
            && Hits(c, orders, finderIdx, n + 1) ==
               Hits(c, most, finderIdx, n) + (if IsHit(c, most[n], idx, data16) then 1 else 0)
            && Bonuses(c, orders, finderIdx, n + 1) ==
               Bonuses(c, most, finderIdx, n) + (if IsBonus(c, most[n], idx, data16) then 1 else 0)
  {
    hide IsHit, IsBonus, IdxAt;
    SamePrefix(c, most, most + [t], finderIdx, n);
  }

  lemma CountMore(x: nat, d: nat, y: u16)
    requires Counts(y, x)
    ensures Counts(Plus(y, d), x + d)
  {
    Arith.ModPlus(y + d, x / M16, M16);
  }

  lemma OneMoreOrder(c: Contents, s: seq<ListHead>, finderIdx: s16, n: nat, most: seq<seq<ListHead>>,
                     t: seq<ListHead>)
    requires Orders(c, s, finderIdx, n, most) && NextOrder(c, most[n], IdxAt(finderIdx, n), n % 0x100, t)
    ensures Orders(c, s, finderIdx, n + 1, most + [t])
  {
    hide NextOrder, IdxAt;
    var orders := most + [t];
    forall i: nat | i < n + 1
      ensures NextOrder(c, orders[i], IdxAt(finderIdx, i), i % 0x100, orders[i + 1])
    {
      assert orders[i] == most[i];
      if i < n {
        assert orders[i + 1] == most[i + 1];
      }
    }
  }

  lemma {:induction false} SamePrefix(c: Contents, most: seq<seq<ListHead>>, orders: seq<seq<ListHead>>,
                                      finderIdx: s16, n: nat)
    requires n <= |most| <= |orders| && forall i :: 0 <= i < |most| ==> orders[i] == most[i]
    ensures Hits(c, orders, finderIdx, n) == Hits(c, most, finderIdx, n)
    ensures Bonuses(c, orders, finderIdx, n) == Bonuses(c, most, finderIdx, n)
  {
    hide IsHit, IsBonus;
    if n > 0 {
      SamePrefix(c, most, orders, finderIdx, n - 1);
    }
  }

  lemma ScoreOf(c: Contents, orders: seq<seq<ListHead>>, finderIdx: s16, n: nat, found: u16, missed: u16, bits: u16,
                retval: u16)
    requires n <= |orders| && Counts(found, Hits(c, orders, finderIdx, n))
    requires Counts(missed, n - Hits(c, orders, finderIdx, n)) && Counts(bits, Bonuses(c, orders, finderIdx, n))
    requires retval == (bits + found * 4 - missed) % M16
    ensures Score(c, orders, finderIdx, n, retval)
  {
    hide Hits, Bonuses;
    var h, b := Hits(c, orders, finderIdx, n), Bonuses(c, orders, finderIdx, n);
    var m, sum := n - h, bits + found * 4 - missed;
    assert h == h / M16 * M16 + found && m == m / M16 * M16 + missed && b == b / M16 * M16 + bits;
    assert sum == sum / M16 * M16 + retval;
    var q := m / M16 - 4 * (h / M16) - b / M16 - sum / M16;
    assert retval + n == b + 5 * h + q * M16;
    Arith.ModPlus(b + 5 * h, q, M16);
  }

  // Searches happen only for a positive number.
  function Turns(findNum: s16): nat {
    if findNum < 0 then 0 else findNum
  }

  // The search loop.
  method SearchLoop(list0: ListHead, finderIdx: s16, findNum: s16, ghost nodes: set<ListHead>, ghost s: seq<ListHead>)
    returns (list: ListHead, idx: s16, data16: u16, retval: u16, ghost junk: u16, ghost orders: seq<seq<ListHead>>)
    requires |s| >= 2 && IsList(nodes, LinksOf(nodes), list0, s)
    modifies nodes`next
    ensures ContentsOf(nodes) == old(ContentsOf(nodes)) && Separate(nodes) == old(Separate(nodes))
    ensures NoDup(s) && Elems(s) <= nodes
    ensures var n := Turns(findNum);
            && Orders(ContentsOf(nodes), s, finderIdx, n, orders)
            && Score(ContentsOf(nodes), orders, finderIdx, n, retval)
            && IsList(nodes, LinksOf(nodes), list, orders[n])
            && idx == IdxAt(finderIdx, n) && data16 == DataAt(junk, n)
  {
    hide IsList, ContentsOf, LinksOf, Separate, NoDup, Elems, SearchStep, NextOrder, Score, Hits, Bonuses, IdxAt;
    list, idx, retval := list0, finderIdx, 0;
    data16 := *;
    junk := data16;
    var found, missed := 0, 0;
    ghost var c, f0 := ContentsOf(nodes), Search(s, finderIdx, junk, 0, 0, 0);
    ghost var f := f0;
    ListFacts(nodes, LinksOf(nodes), list, s);
    var i := 0;
    while i < findNum
      invariant 0 <= i <= Turns(findNum)
      invariant ContentsOf(nodes) == c && Separate(nodes) == old(Separate(nodes))
      invariant f == SearchRun(c, f0, i) && f == Search(f.s, idx, data16, found, missed, retval)
      invariant IsList(nodes, LinksOf(nodes), list, f.s)
    {
      list, data16, found, missed, retval, f := SearchTurn(list, idx, i, found, missed, retval, nodes, f);
      if idx >= 0 {
        idx := if idx == 0x7fff then -0x8000 else idx + 1;
      }
      i := i + 1;
    }
    ghost var bits := retval;
    var sum: int := retval as int + found as int * 4 - missed as int;
    retval := sum % M16;
    orders := RunMeans(c, f0, i);
    ScoreOf(c, orders, finderIdx, i, found, missed, bits, retval);
  }
}
