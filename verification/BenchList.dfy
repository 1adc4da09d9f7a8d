// `core_bench_list` of `sw/app/coremark/core_list_join.c`: search and rearrange, sort by value,
// remove and reinsert, sort by index. Its comment promises that the list is back to its original
// state at the end.

module BenchList {
  import Arith
  import Crc
  import Words
  import opened BenchSearch
  import opened ListNodes
  import opened ListOrder
  import opened MergeSort
  import opened ListOps

  // ---- The CRC loops ----

  function CrcOf(data: u16, crc: u16): u16 {
    CrcFold(data, crc as bv16) as u16
  }

  // The CRC after `n` times the same 16-bit value.
  function CrcTimes(data: u16, n: nat, crc: u16): u16 {
    if n == 0 then crc else CrcTimes(data, n - 1, CrcOf(data, crc))
  }

  // The bytes of n copies of one item, low byte first.
  function Copies(data: u16, n: nat): seq<bv8> {
    if n == 0 then [] else Crc.Bytes16(Words.Word(data)) + Copies(data, n - 1)
  }

  // Such a CRC is that of the message of the copies.
  lemma {:induction false} CrcTimesMeans(data: u16, n: nat, crc: u16)
    ensures Words.Word(CrcTimes(data, n, crc)) == Crc.CrcBytes(Copies(data, n), Words.Word(crc))
    decreases n
  {
    hide Crc.Bytes16, Crc.MessageBits, Crc.CrcBits, Words.Word, CrcOf;
    if n == 0 {
      NoBytes(Words.Word(crc));
    } else {
      CrcTimesMeans(data, n - 1, CrcOf(data, crc));
      CrcOfMeans(data, crc);
      Crc.CrcBytesConcat(Crc.Bytes16(Words.Word(data)), Copies(data, n - 1), Words.Word(crc));
    }
  }

  // Bit b of each of the copies is bit b of the item.
  lemma {:induction false} CopiesMean(data: u16, n: nat, i: nat, b: nat)
    requires i < n && b < 16
    ensures |Crc.MessageBits(Copies(data, n))| == 16 * n
    ensures Crc.MessageBits(Copies(data, n))[16 * i + b] <==> data / Arith.Pow2(b) % 2 == 1
    decreases n
  {
    hide Crc.Bytes16, Crc.MessageBits, Words.Word, Arith.Pow2;
    var first, rest := Crc.Bytes16(Words.Word(data)), Copies(data, n - 1);
    Crc.MessageBitsConcat(first, rest);
    Words.WordOfNumber(data);
    Crc.Bytes16Mean(Words.Word(data), b);
    CopiesLength(data, n - 1);
    if i > 0 {
      CopiesMean(data, n - 1, i - 1, b);
    }
  }

  lemma {:induction false} CopiesLength(data: u16, n: nat)
    ensures |Crc.MessageBits(Copies(data, n))| == 16 * n
  {
    if n > 0 {
      CopiesLength(data, n - 1);
    }
  }

  lemma NoBytes(crc: bv16)
    ensures Crc.CrcBytes([], crc) == crc
  {
  }

  lemma CrcOfMeans(data: u16, crc: u16)
    ensures Words.Word(CrcOf(data, crc)) == Crc.CrcBytes(Crc.Bytes16(Words.Word(data)), Words.Word(crc))
  {
    hide Crc.CrcBytes, Crc.Bytes16;
    Words.BackAndForth(CrcFold(data, crc as bv16));
  }

  method Crc16(data: u16, crc0: u16) returns (crc: u16)
    ensures crc == CrcOf(data, crc0)
  {
    var r := Crcu16(data, crc0 as bv16);
    crc := r as u16;
  }

  // Walks along the rest of the list, but feeds the data of the list head, as the source does.
  method CrcLoop(list: ListHead, finder0: ListHead?, retval0: u16,
                 ghost head: ListHead?, ghost nodes: set<ListHead>, ghost s: seq<ListHead>, ghost k: nat)
    returns (retval: u16)
    requires IsList(nodes, LinksOf(nodes), head, s) && k <= |s|
    requires finder0 == if k == |s| then null else s[k]
    ensures retval == CrcTimes(list.info.data16, |s| - k, retval0)
  {
    hide IsList, CrcOf;
    retval := retval0;
    var finder := finder0;
    ghost var i := k;
    ListAt(nodes, LinksOf(nodes), head, s);
    while finder != null
      invariant k <= i <= |s| && finder == if i == |s| then null else s[i]
      invariant CrcTimes(list.info.data16, |s| - i, retval) == CrcTimes(list.info.data16, |s| - k, retval0)
      decreases |s| - i
    {
      assert LinkedAt(LinksOf(nodes), s, i);
      retval := Crc16(list.info.data16, retval);
      finder := finder.next;
      i := i + 1;
    }
  }

  // How many nodes the first CRC loop visits: from the node searched for, or from the second node.
  ghost function TailLength(c: Contents, t: seq<ListHead>, idx: s16, data16: u16): nat
    requires |t| >= 3 && Elems(t) <= c.Keys
  {
    assert forall x :: x in Without(t, 2) ==> x in Elems(t);
    var k := FirstMatch(Swapped(c, t[1], t[2]), Without(t, 2), idx, data16);
    if k == |t| - 1 then |t| - 2 else |t| - 1 - k
  }

  lemma TailMeans(c: Contents, t: seq<ListHead>, idx: s16, data16: u16)
    requires |t| >= 3 && NoDup(t) && Elems(t) <= c.Keys
    ensures var d, u := Swapped(c, t[1], t[2]), Without(t, 2);
      if IsHit(d, u, idx, data16) then
        exists k: nat :: Elems(u) <= d.Keys && FirstAt(d, u, idx, data16, k) && TailLength(c, t, idx, data16) == |u| - k
      else
        TailLength(c, t, idx, data16) == |u| - 1
  {
    assert forall x :: x in Without(t, 2) ==> x in Elems(t);
    MatchMeans(Swapped(c, t[1], t[2]), Without(t, 2), idx, data16);
    hide FirstMatch, IsHit, FirstAt;
  }

  // Remove one item, CRC the rest, and put the item back: the list and its contents are unchanged.
  method RemoveCrcUndo(list: ListHead, idx: s16, data16: u16, retval0: u16, ghost nodes: set<ListHead>,
                       ghost t: seq<ListHead>)
    returns (retval: u16)
    requires |t| >= 3 && IsList(nodes, LinksOf(nodes), list, t) && Separate(nodes)
    modifies nodes
    ensures IsList(nodes, LinksOf(nodes), list, t) && Separate(nodes)
    ensures ContentsOf(nodes) == old(ContentsOf(nodes)) && Infos(nodes) == old(Infos(nodes))
    ensures Elems(t) <= nodes && t[0] in nodes
    ensures var c := ContentsOf(nodes); retval == CrcTimes(c[t[0]].data, TailLength(c, t, idx, data16), retval0)
  {
    hide IsList, ContentsOf, LinksOf, Separate, NoDup, Elems, CrcTimes, Infos, FirstMatch, LinkedAt;
    ghost var c := ContentsOf(nodes);
    ListFacts(nodes, LinksOf(nodes), list, t);
    SecondNode(nodes, list, t);
    ghost var u := Without(t, 2);
    WithoutPerm(t, 2);
    var remover := Remove(list.next, list, nodes, t, 1);
    ghost var d := ContentsOf(nodes);
    ListFacts(nodes, LinksOf(nodes), list, u);
    var finder := Find(list, idx, data16, nodes, u);
    ghost var k := FirstMatch(d, u, idx, data16);
    SecondNode(nodes, list, u);
    if finder == null {
      finder := list.next;
      k := 1;
    }
    ContentAt(nodes, list);
    retval := CrcLoop(list, finder, retval0, list, nodes, u, k);
    InsertedWithout(t, 1);
    SwappedTwice(c, t[1], t[2]);
    remover := UndoRemove(remover, list.next, list, nodes, u, 1);
  }

  // ---- Back to the original state ----

  // Every item rebuilt from its backup byte.
  ghost function RebuiltAll(c: Contents): Contents {
    map x | x in c :: Item(c[x].info, Regenerated(c[x].data), c[x].idx)
  }

  ghost predicate AllIntact(c: Contents) {
    forall x :: x in c ==> Intact(c[x].data)
  }

  // Contents whose low bytes equal their backups are their own rebuilt form, and rebuilt contents are such.
  lemma RebuiltIntact(c: Contents)
    ensures AllIntact(c) <==> RebuiltAll(c) == c
    ensures AllIntact(RebuiltAll(c))
  {
    if RebuiltAll(c) == c {
      forall x | x in c ensures Intact(c[x].data) {
        assert RebuiltAll(c)[x] == c[x];
      }
    }
    forall x | x in c ensures Intact(RebuiltAll(c)[x].data) {
      TwiceRebuilt(c[x].data);
    }
  }

  lemma TwiceRebuilt(d: u16)
    ensures Regenerated(Regenerated(d)) == Regenerated(d)
  {
  }

  ghost predicate ByIdx(c: Contents, s: seq<ListHead>) {
    && (forall x :: x in s ==> x in c)
    && forall i, j :: 0 <= i < j < |s| ==> c[s[i]].idx <= c[s[j]].idx
  }

  ghost predicate StrictlyByIdx(c: Contents, s: seq<ListHead>) {
    && (forall x :: x in s ==> x in c)
    && forall i, j :: 0 <= i < j < |s| ==> c[s[i]].idx < c[s[j]].idx
  }

  // Sorting by value may cache values, sorting by index rebuilds every item: only the backup bytes matter.
  lemma ContentsRestored(c0: Contents, c1: Contents, c2: Contents, log0: seq<ListData>, log1: seq<ListData>,
                         t: seq<ListHead>, out: seq<ListHead>)
    requires Evolves(ByValue, c0, c1, log0, log1) && Evolves(ByIndex(true), c1, c2, [], [])
    requires SortedFrom(ByIndex(true), c2, t, out) && |t| >= 2 && Elems(t) == c0.Keys
    ensures c2 == RebuiltAll(c0)
  {
    hide ItemEvolves, Settled;
    forall x | x in c0 ensures c2[x] == RebuiltAll(c0)[x] {
      assert x in Elems(out);
      assert ItemEvolves(ByValue, c0[x], c1[x]) && ItemEvolves(ByIndex(true), c1[x], c2[x]);
      assert Settled(ByIndex(true), c2[x]);
      ItemRestored(c0[x], c1[x], c2[x]);
    }
  }

  lemma ItemRestored(a: Item, b: Item, d: Item)
    requires ItemEvolves(ByValue, a, b) && ItemEvolves(ByIndex(true), b, d) && Settled(ByIndex(true), d)
    ensures d == Item(a.info, Regenerated(a.data), a.idx)
  {
  }

  // With distinct indices, the sort by index can only deliver the original sequence.
  lemma OrderRestored(c: Contents, s: seq<ListHead>, t: seq<ListHead>, out: seq<ListHead>)
    requires SortedFrom(ByIndex(true), c, t, out) && StrictlyByIdx(c, s) && NoDup(s) && Elems(s) == Elems(t)
    ensures out == s
  {
    var o, pos := ByIndex(true), PlacesIn(t);
    forall i, j | 0 <= i < j < |s| ensures Before(o, c, pos, s[i], s[j]) {
      assert s[i] in Elems(t) && s[j] in Elems(t);
    }
    SortedUnique(o, c, pos, out, s);
  }

  // Two orderings of the same nodes by index show the same indices in the same places, even when indices tie.
  lemma IndicesRestored(c: Contents, a: seq<ListHead>, b: seq<ListHead>, i: nat)
    requires Perm(a, b) && ByIdx(c, a) && ByIdx(c, b) && i < |a|
    ensures |a| == |b| && c[a[i]].idx == c[b[i]].idx
  {
    NoDupSize(a);
    NoDupSize(b);
    NotSmaller(c, a, b, i);
    NotSmaller(c, b, a, i);
  }

  lemma NotSmaller(c: Contents, a: seq<ListHead>, b: seq<ListHead>, i: nat)
    requires Perm(a, b) && ByIdx(c, a) && ByIdx(c, b) && i < |a| == |b|
    ensures c[a[i]].idx >= c[b[i]].idx
  {
    if c[a[i]].idx < c[b[i]].idx {
      forall x | x in a[..i + 1] ensures x in b[..i] {
        var j :| 0 <= j <= i && a[j] == x;
        assert x in Elems(a);
        var k :| 0 <= k < |b| && b[k] == x;
        assert c[x].idx <= c[a[i]].idx;
        assert k < i;
      }
      NoDupSize(a[..i + 1]);
      NoDupSize(b[..i]);
      Arith.SubsetSize(Elems(a[..i + 1]), Elems(b[..i]));
    }
  }

  // ---- Where indices tie ----

  // Not strictly increasing but ordered: two neighbours have the same index.
  lemma TiedNeighbours(c: Contents, s: seq<ListHead>) returns (i: nat)
    requires ByIdx(c, s) && !StrictlyByIdx(c, s)
    ensures i + 1 < |s| && c[s[i]].idx == c[s[i + 1]].idx
  {
    var j: nat, k: nat :| j < k < |s| && c[s[j]].idx >= c[s[k]].idx;
    assert c[s[j]].idx <= c[s[j + 1]].idx;
    i := j;
  }

  // The sequence after one search for index 0.
  lemma OneSearch(c: Contents, s: seq<ListHead>, junk: u16)
    requires |s| >= 3 && NoDup(s) && Elems(s) <= c.Keys
    ensures var k := FirstMatch(c, s, 0, 0);
      SearchRun(c, Search(s, 0, junk, 0, 0, 0), 1).s ==
      if 1 <= k < |s| then Spliced(Reversed(s), |s| - 1 - k) else Reversed(s)
  {
    hide SearchRun, SearchStep, NoDup, Elems, Spliced, FirstMatch, Reversed;
    var f0 := Search(s, 0, junk, 0, 0, 0);
    RunOnce(c, f0);
    StepOrder(c, f0);
  }

  lemma RunOnce(c: Contents, f: Search)
    requires NoDup(f.s) && Elems(f.s) <= c.Keys && |f.s| >= 2
    ensures SearchRun(c, f, 1) == SearchStep(c, f, 0)
  {
    hide SearchStep, NoDup, Elems;
    assert SearchRun(c, f, 0) == f;
  }

  lemma StepOrder(c: Contents, f: Search)
    requires NoDup(f.s) && Elems(f.s) <= c.Keys && |f.s| >= 2
    ensures var k := FirstMatch(c, f.s, f.idx, 0);
      SearchStep(c, f, 0).s ==
      if 1 <= k < |f.s| then Spliced(Reversed(f.s), |f.s| - 1 - k) else Reversed(f.s)
  {
    hide NoDup, Elems, Spliced, FirstMatch, Reversed;
  }

  // After it the later of two tied neighbours stands before the earlier one.
  lemma TieIsSwapped(c: Contents, s: seq<ListHead>, junk: u16, i: nat) returns (earlier: nat, later: nat)
    requires |s| >= 3 && NoDup(s) && Elems(s) <= c.Keys && ByIdx(c, s)
    requires i + 1 < |s| && c[s[i]].idx == c[s[i + 1]].idx
    ensures var t := SearchRun(c, Search(s, 0, junk, 0, 0, 0), 1).s;
      later < earlier < |t| && t[earlier] == s[i] && t[later] == s[i + 1]
  {
    OneSearch(c, s, junk);
    var k := FirstMatch(c, s, 0, 0);
    assert i + 1 != k || k == |s|;
    hide SearchRun, NoDup, Elems, Spliced, FirstMatch, Reversed, ByIdx, SplicedPlace;
    earlier, later := TieInReverse(s, k, i);
  }

  lemma TieInReverse(s: seq<ListHead>, k: nat, i: nat) returns (earlier: nat, later: nat)
    requires i + 1 < |s| && k <= |s| && (i + 1 == k ==> k == |s|)
    ensures var t := if 1 <= k < |s| then Spliced(Reversed(s), |s| - 1 - k) else Reversed(s);
      later < earlier < |t| && t[earlier] == s[i] && t[later] == s[i + 1]
  {
    hide Spliced;
    var r, n := Reversed(s), |s|;
    earlier, later := n - 1 - i, n - 2 - i;
    if 1 <= k < n {
      earlier, later := SplicedPlace(r, n - 1 - k, earlier), SplicedPlace(r, n - 1 - k, later);
    }
  }

  // Where the node at place `p` is after the splice behind place `at`.
  ghost function SplicedPlace(t: seq<ListHead>, at: nat, p: nat): (q: nat)
    requires at + 1 < |t| && p < |t|
    ensures q < |t| == |Spliced(t, at)| && Spliced(t, at)[q] == t[p]
  {
    if p == 0 then 0 else if p == at + 1 then 1 else if p <= at then p + 1 else p
  }

  // So the stable sort by index restores an ordered list exactly when its indices are distinct.
  lemma TiesExactly(c0: Contents, c2: Contents, s: seq<ListHead>, junk: u16, out: seq<ListHead>)
    requires |s| >= 3 && NoDup(s) && Elems(s) == c0.Keys && ByIdx(c0, s)
    requires Evolves(ByIndex(true), c0, c2, [], [])
    requires SortedFrom(ByIndex(true), c2, SearchRun(c0, Search(s, 0, junk, 0, 0, 0), 1).s, out)
    ensures out == s <==> StrictlyByIdx(c0, s)
  {
    var t := SearchRun(c0, Search(s, 0, junk, 0, 0, 0), 1).s;
    SameIdx(c0, c2, s);
    hide SearchRun, Evolves, SortedFrom, NoDup, Elems, StrictlyByIdx, ByIdx;
    if StrictlyByIdx(c0, s) {
      OrderRestored(c2, s, t, out);
    } else {
      var i := TiedNeighbours(c0, s);
      var earlier, later := TieIsSwapped(c0, s, junk, i);
      TieStaysSwapped(c2, s, t, out, i, earlier, later);
    }
  }

  lemma SameIdx(c0: Contents, c2: Contents, s: seq<ListHead>)
    requires Evolves(ByIndex(true), c0, c2, [], [])
    ensures StrictlyByIdx(c2, s) <==> StrictlyByIdx(c0, s)
    ensures ByIdx(c2, s) <==> ByIdx(c0, s)
    ensures forall x :: x in c0 ==> x in c2 && c2[x].idx == c0[x].idx
  {
    assert forall x :: x in c0 ==> ItemEvolves(ByIndex(true), c0[x], c2[x]);
    hide Evolves, ItemEvolves;
  }

  lemma TieStaysSwapped(c: Contents, s: seq<ListHead>, t: seq<ListHead>, out: seq<ListHead>, i: nat, earlier: nat,
                        later: nat)
    requires NoDup(t) && SortedFrom(ByIndex(true), c, t, out)
    requires i + 1 < |s| && s[i] in c && s[i + 1] in c && c[s[i]].idx == c[s[i + 1]].idx
    requires later < earlier < |t| && t[earlier] == s[i] && t[later] == s[i + 1]
    ensures out != s
  {
    PlacesAt(t, earlier);
    PlacesAt(t, later);
    hide PlacesIn, NoDup, AllSettled, Perm;
    assert !Before(ByIndex(true), c, PlacesIn(t), s[i], s[i + 1]);
  }

  // ---- A stable order always exists ----

  // One more node finds its place.
  lemma {:induction false} Insert(o: Order, c: Contents, pos: Positions, s: seq<ListHead>, x: ListHead)
    returns (r: seq<ListHead>)
    requires NoDup(s) && Sorted(o, c, pos, s) && x !in Elems(s) && x in c && x in pos
    requires forall y :: y in s ==> y in c && y in pos && pos[y] != pos[x]
    ensures NoDup(r) && Elems(r) == Elems(s) + {x} && Sorted(o, c, pos, r)
  {
    hide Before;
    if s == [] {
      r := [x];
    } else {
      PopElems(s);
      assert s == [s[0]] + s[1..];
      BeforeTotal(o, c, pos, x, s[0]);
      if Before(o, c, pos, x, s[0]) {
        r := [x] + s;
        forall j | 0 < j < |s|
          ensures Before(o, c, pos, x, s[j])
        {
          BeforeTrans(o, c, pos, x, s[0], s[j]);
        }
        assert Elems([x]) == {x};
        ElemsConcat([x], s);
      } else {
        var rest := Insert(o, c, pos, s[1..], x);
        r := [s[0]] + rest;
        FirstStaysFirst(o, c, pos, s, x, rest);
        assert Elems([s[0]]) == {s[0]};
        ElemsConcat([s[0]], rest);
      }
    }
  }

  lemma BeforeTotal(o: Order, c: Contents, pos: Positions, x: ListHead, y: ListHead)
    requires x in c && y in c && x in pos && y in pos && pos[x] != pos[y]
    ensures Before(o, c, pos, x, y) || Before(o, c, pos, y, x)
  {
  }

  lemma BeforeTrans(o: Order, c: Contents, pos: Positions, x: ListHead, y: ListHead, z: ListHead)
    requires Before(o, c, pos, x, y) && Before(o, c, pos, y, z)
    ensures Before(o, c, pos, x, z)
  {
  }

  lemma FirstStaysFirst(o: Order, c: Contents, pos: Positions, s: seq<ListHead>, x: ListHead, rest: seq<ListHead>)
    requires s != [] && Sorted(o, c, pos, s) && Before(o, c, pos, s[0], x) && Elems(rest) == Elems(s[1..]) + {x}
    ensures forall j :: 0 <= j < |rest| ==> Before(o, c, pos, s[0], rest[j])
  {
    hide Before;
    forall j | 0 <= j < |rest|
      ensures Before(o, c, pos, s[0], rest[j])
    {
      assert rest[j] in Elems(rest);
      if rest[j] != x {
        var k :| 0 <= k < |s[1..]| && s[1..][k] == rest[j];
        assert Before(o, c, pos, s[0], s[k + 1]);
      }
    }
  }

  lemma {:induction false} StableOrder(o: Order, c: Contents, pos: Positions, s: seq<ListHead>)
    returns (r: seq<ListHead>)
    requires NoDup(s) && forall y :: y in s ==> y in c && y in pos
    requires forall i, j :: 0 <= i < j < |s| ==> pos[s[i]] != pos[s[j]]
    ensures Perm(r, s) && Sorted(o, c, pos, r)
  {
    if s == [] {
      r := [];
    } else {
      PopElems(s);
      r := StableOrder(o, c, pos, s[1..]);
      forall y | y in r
        ensures y in c && y in pos && pos[y] != pos[s[0]]
      {
        assert y in Elems(s[1..]);
        var k :| 0 <= k < |s[1..]| && s[1..][k] == y;
        assert s[k + 1] == y;
      }
      r := Insert(o, c, pos, r, s[0]);
    }
  }

  // ---- The whole benchmark ----

  // What happened on the way: the sequences of nodes before, between and after the searches, the value the
  // searches leave, and list and contents when the first CRC was taken.
  datatype Trace = Trace(junk: u16, orders: seq<seq<ListHead>>, start: u16, middle: seq<ListHead>, contents: Contents)

  // For a positive finder index the list that the searches leave is sorted by value, otherwise it is left alone.
  ghost predicate Middle(c0: Contents, log0: seq<ListData>, log1: seq<ListData>, s: seq<ListHead>,
                         finderIdx: s16, findNum: s16, tr: Trace)
  {
    var n := Turns(findNum);
    && NoDup(s) && Elems(s) <= c0.Keys && |s| >= 2
    && Orders(c0, s, finderIdx, n, tr.orders) && Score(c0, tr.orders, finderIdx, n, tr.start)
    && Evolves(ByValue, c0, tr.contents, log0, log1)
    && (if finderIdx > 0 then SortedFrom(ByValue, tr.contents, tr.orders[n], tr.middle)
        else tr.contents == c0 && tr.middle == tr.orders[n] && log1 == log0)
  }

  // One call, on values: from contents `c0` and sequence `s` to contents `c2` and sequence `out`, by
  // way of `tr`; `log0` and `log1` are the values computed before and after.
  ghost predicate Outcome(c0: Contents, log0: seq<ListData>, log1: seq<ListData>, s: seq<ListHead>,
                          finderIdx: s16, findNum: s16, tr: Trace, c2: Contents, out: seq<ListHead>)
  {
    && Middle(c0, log0, log1, s, finderIdx, findNum, tr)
    && Evolves(ByIndex(true), tr.contents, c2, [], [])
    && SortedFrom(ByIndex(true), c2, tr.middle, out)
  }

  lemma MiddlePerm(c0: Contents, log0: seq<ListData>, log1: seq<ListData>, s: seq<ListHead>,
                   finderIdx: s16, findNum: s16, tr: Trace)
    requires Middle(c0, log0, log1, s, finderIdx, findNum, tr)
    ensures NoDup(tr.middle) && Elems(tr.middle) == Elems(s) && |tr.middle| == |s|
    ensures Evolves(ByValue, c0, tr.contents, log0, log1)
  {
    hide Orders, Score, Evolves, Sorted, AllSettled, NoDup, Elems;
    NoDupSize(s);
    OrdersPerm(c0, s, finderIdx, Turns(findNum), tr.orders, Turns(findNum));
    NoDupSize(tr.middle);
  }

  // A strictly ordered list comes back, whatever is searched for.
  lemma StrictlyOrderedReturns(c0: Contents, log0: seq<ListData>, log1: seq<ListData>, s: seq<ListHead>,
                               finderIdx: s16, findNum: s16, tr: Trace, c2: Contents, out: seq<ListHead>)
    requires |s| >= 3 && Elems(s) == c0.Keys && StrictlyByIdx(c0, s)
    requires Outcome(c0, log0, log1, s, finderIdx, findNum, tr, c2, out)
    ensures out == s
  {
    MiddlePerm(c0, log0, log1, s, finderIdx, findNum, tr);
    hide Orders, Score, Evolves, SortedFrom;
    BenchEnd(c0, tr.contents, c2, log0, log1, s, tr.middle, out);
  }

  lemma OneSearchMiddle(c0: Contents, s: seq<ListHead>) returns (tr: Trace)
    requires |s| >= 3 && NoDup(s) && Elems(s) == c0.Keys
    ensures Middle(c0, [], [], s, 0, 1, tr) && tr.contents == c0
    ensures tr.middle == SearchRun(c0, Search(s, 0, 0, 0, 0, 0), 1).s
  {
    hide SearchRun, Evolves, NoDup, Elems, NextOrder, Hits, Bonuses;
    var f0 := Search(s, 0, 0, 0, 0, 0);
    var orders := RunMeans(c0, f0, 1);
    var start := (Bonuses(c0, orders, 0, 1) + 5 * Hits(c0, orders, 0, 1) - 1) % M16;
    ScoreExists(Bonuses(c0, orders, 0, 1) + 5 * Hits(c0, orders, 0, 1), 1);
    tr := Trace(0, orders, start, SearchRun(c0, f0, 1).s, c0);
    EvolvesRefl(ByValue, c0, []);
  }

  lemma ScoreExists(x: int, n: int)
    ensures ((x - n) % M16 + n) % M16 == x % M16
  {
    var q := (x - n) / M16;
    assert x - n == q * M16 + (x - n) % M16;
    Arith.ModPlus((x - n) % M16 + n, q, M16);
  }

  // Any other list has a call, with one search for index 0, that does not bring it back.
  lemma OthersDoNotReturn(c0: Contents, s: seq<ListHead>) returns (tr: Trace, c2: Contents, out: seq<ListHead>)
    requires |s| >= 3 && NoDup(s) && Elems(s) == c0.Keys && !StrictlyByIdx(c0, s)
    ensures Outcome(c0, [], [], s, 0, 1, tr, c2, out) && out != s
  {
    tr := OneSearchMiddle(c0, s);
    c2 := RebuiltAll(c0);
    hide Middle, Evolves, RebuiltAll, StrictlyByIdx, ByIdx, SearchRun, NoDup, Elems, SortedFrom;
    RebuiltByIndex(c0);
    SameIdx(c0, c2, s);
    out := OrderFrom(c2, tr.middle);
    if ByIdx(c0, s) {
      TiesExactly(c0, c2, s, 0, out);
    } else {
      OutIsOrdered(c2, tr.middle, out);
    }
  }

  lemma OutIsOrdered(c: Contents, t: seq<ListHead>, out: seq<ListHead>)
    requires SortedFrom(ByIndex(true), c, t, out) && Elems(t) <= c.Keys
    ensures ByIdx(c, out)
  {
    forall x | x in out
      ensures x in c
    {
      assert x in Elems(out);
    }
    SortedByIdx(c, PlacesIn(t), out);
  }

  lemma RebuiltByIndex(c: Contents)
    ensures Evolves(ByIndex(true), c, RebuiltAll(c), [], [])
    ensures forall x :: x in c ==> Settled(ByIndex(true), RebuiltAll(c)[x])
  {
    forall x | x in c
      ensures ItemEvolves(ByIndex(true), c[x], RebuiltAll(c)[x]) && Settled(ByIndex(true), RebuiltAll(c)[x])
    {
      RebuiltEvolves(c[x], RebuiltAll(c)[x], true);
    }
  }

  lemma OrderFrom(c: Contents, t: seq<ListHead>) returns (out: seq<ListHead>)
    requires NoDup(t) && Elems(t) == c.Keys && forall x :: x in c ==> Settled(ByIndex(true), c[x])
    ensures SortedFrom(ByIndex(true), c, t, out)
  {
    forall i | 0 <= i < |t|
      ensures t[i] in c && t[i] in PlacesIn(t) && PlacesIn(t)[t[i]] == i
    {
      PlacesAt(t, i);
      assert t[i] in Elems(t);
    }
    out := StableOrder(ByIndex(true), c, PlacesIn(t), t);
    forall x | x in out
      ensures x in c
    {
      assert x in Elems(out);
    }
  }

  // The promise of the source, exactly: every call, whatever it searches for and however often,
  // brings the list back to its original sequence if and only if the indices strictly increase.
  lemma RestoredExactly(c0: Contents, s: seq<ListHead>)
    requires |s| >= 3 && NoDup(s) && Elems(s) == c0.Keys
    ensures (forall log0: seq<ListData>, log1: seq<ListData>, finderIdx: s16, findNum: s16, tr: Trace, c2: Contents,
               out: seq<ListHead> :: Outcome(c0, log0, log1, s, finderIdx, findNum, tr, c2, out) ==> out == s)
       <==> StrictlyByIdx(c0, s)
  {
    hide Outcome, StrictlyByIdx;
    if StrictlyByIdx(c0, s) {
      forall log0: seq<ListData>, log1: seq<ListData>, finderIdx: s16, findNum: s16, tr: Trace, c2: Contents,
        out: seq<ListHead> | Outcome(c0, log0, log1, s, finderIdx, findNum, tr, c2, out)
        ensures out == s
      {
        StrictlyOrderedReturns(c0, log0, log1, s, finderIdx, findNum, tr, c2, out);
      }
    } else {
      var tr, c2, out := OthersDoNotReturn(c0, s);
    }
  }

  // What the checksums run over: the head's item once per node of the tail at the first half's end, and once per
  // node but the head at the very end.
  ghost function BenchMessage(finderIdx: s16, findNum: s16, tr: Trace, final: Contents, out: seq<ListHead>): seq<bv8>
    requires |tr.middle| >= 3 && Elems(tr.middle) <= tr.contents.Keys
    requires |out| >= 1 && Elems(out) <= final.Keys
  {
    assert tr.middle[0] in Elems(tr.middle) && out[0] in Elems(out);
    var n := Turns(findNum);
    var tail := TailLength(tr.contents, tr.middle, IdxAt(finderIdx, n), DataAt(tr.junk, n));
    Copies(tr.contents[tr.middle[0]].data, tail) + Copies(final[out[0]].data, |out| - 1)
  }

  lemma BothCrcs(d: u16, n: nat, e: u16, m: nat, start: u16, mid: u16, end: u16)
    requires mid == CrcTimes(d, n, start) && end == CrcTimes(e, m, mid)
    ensures Words.Word(end) == Crc.CrcBytes(Copies(d, n) + Copies(e, m), Words.Word(start))
  {
    hide CrcTimes, Copies, Crc.CrcBytes, Words.Word;
    CrcTimesMeans(d, n, start);
    CrcTimesMeans(e, m, mid);
    Crc.CrcBytesConcat(Copies(d, n), Copies(e, m), Words.Word(start));
  }

  // The first half: the searches and the sort by value.
  method SearchAndSort(res: CoreResults, finderIdx: s16, ghost nodes: set<ListHead>, ghost s: seq<ListHead>)
    returns (list: ListHead, idx: s16, data16: u16, retval: u16, ghost tr: Trace)
    requires |s| >= 3 && IsList(nodes, LinksOf(nodes), res.list, s) && Elems(s) == nodes && Separate(nodes)
    modifies nodes`next, Infos(nodes)`data16, res
    ensures res.list == old(res.list) && Infos(nodes) == old(Infos(nodes)) && Separate(nodes)
    ensures Middle(old(ContentsOf(nodes)), old(res.computed), res.computed, s, finderIdx, old(res.seed3), tr)
    ensures tr.contents == ContentsOf(nodes) && Elems(tr.middle) == nodes && |tr.middle| == |s| && NoDup(tr.middle)
    ensures IsList(nodes, LinksOf(nodes), list, tr.middle)
    ensures var n := Turns(old(res.seed3)); idx == IdxAt(finderIdx, n) && data16 == DataAt(tr.junk, n)
    ensures retval == tr.start
  {
    hide Chain, ContentsOf, LinksOf, Separate, Elems, NextOrder, Score, IdxAt, Evolves, Sorted, AllSettled;
    ghost var c0, log0, infos, n := ContentsOf(nodes), res.computed, Infos(nodes), Turns(res.seed3);
    ghost var junk, orders;
    list, idx, data16, retval, junk, orders := SearchLoop(res.list, finderIdx, res.seed3, nodes, s);
    assert Infos(nodes) == infos;
    ghost var t := orders[n];
    OrdersPerm(c0, s, finderIdx, n, orders, n);
    EvolvesRefl(ByValue, c0, log0);
    if finderIdx > 0 {
      list, t := Mergesort(list, Complex, res, nodes, orders[n]);
      NoDupSize(t);
      NoDupSize(orders[n]);
    }
    tr := Trace(junk, orders, retval, t, ContentsOf(nodes));
  }

  lemma ListOf(nodes: set<ListHead>, nx: Links, p: ListHead?, s: seq<ListHead>)
    requires nx.Keys == nodes && NoDup(s) && Elems(s) == nodes && Chain(nx, p, s)
    ensures IsList(nodes, nx, p, s)
  {
  }

  // The sort by index, seen from the start of the benchmark.
  lemma BenchEnd(c0: Contents, c1: Contents, c2: Contents, log0: seq<ListData>, log1: seq<ListData>,
                 s: seq<ListHead>, t: seq<ListHead>, out: seq<ListHead>)
    requires Evolves(ByValue, c0, c1, log0, log1) && Evolves(ByIndex(true), c1, c2, [], [])
    requires SortedFrom(ByIndex(true), c2, t, out) && |t| >= 3
    requires NoDup(s) && Elems(s) == c0.Keys && Elems(t) == c0.Keys
    ensures c2 == RebuiltAll(c0) && Perm(out, s) && |out| == |s| && Elems(out) == c0.Keys && NoDup(out)
    ensures ByIdx(c2, out)
    ensures StrictlyByIdx(c0, s) ==> out == s
    ensures ByIdx(c0, s) ==> SameIndices(c0, s, out)
  {
    hide Evolves;
    ContentsRestored(c0, c1, c2, log0, log1, t, out);
    NoDupSize(s);
    NoDupSize(out);
    SortedByIdx(c2, PlacesIn(t), out);
    if StrictlyByIdx(c0, s) {
      assert StrictlyByIdx(c2, s);
      OrderRestored(c2, s, t, out);
    }
    if ByIdx(c0, s) {
      PlacesKeepIndices(c0, s, out);
    }
  }

  lemma PlacesKeepIndices(c: Contents, s: seq<ListHead>, out: seq<ListHead>)
    requires Perm(out, s) && ByIdx(c, s) && ByIdx(RebuiltAll(c), out)
    ensures SameIndices(c, s, out)
  {
    NoDupSize(s);
    NoDupSize(out);
    assert ByIdx(c, out);
    hide Perm, RebuiltAll;
    forall i: nat | i < |s|
      ensures c[s[i]].idx == c[out[i]].idx
    {
      IndicesRestored(c, s, out, i);
    }
  }

  // The same index stands at every place, though tied nodes may have changed places.
  ghost predicate SameIndices(c: Contents, s: seq<ListHead>, out: seq<ListHead>) {
    && |out| == |s|
    && (forall i :: 0 <= i < |s| ==> s[i] in c && out[i] in c && c[s[i]].idx == c[out[i]].idx)
  }

  lemma SortedByIdx(c: Contents, pos: Positions, out: seq<ListHead>)
    requires Sorted(ByIndex(true), c, pos, out) && forall x :: x in out ==> x in c
    ensures ByIdx(c, out)
  {
    assert forall i, j :: 0 <= i < j < |out| ==> Before(ByIndex(true), c, pos, out[i], out[j]);
  }

  // `core_bench_list`. Afterwards every node has its own data record back, with its index and the
  // data its backup byte prescribes, and the list is in index order; if the indices are distinct and
  // the list was in index order before, it is the original sequence, so `res->list` is its head again.
  method CoreBenchList(res: CoreResults, finderIdx: s16, ghost nodes: set<ListHead>, ghost s: seq<ListHead>)
    returns (retval: u16, ghost list: ListHead, ghost out: seq<ListHead>, ghost tr: Trace)
    requires |s| >= 3 && IsList(nodes, LinksOf(nodes), res.list, s) && Elems(s) == nodes && Separate(nodes)
    modifies nodes, Infos(nodes)`data16, res
    ensures res.list == old(res.list) && Separate(nodes)
    ensures IsList(nodes, LinksOf(nodes), list, out) && Perm(out, s)
    ensures ContentsOf(nodes) == RebuiltAll(old(ContentsOf(nodes)))
    ensures ContentsOf(nodes) == old(ContentsOf(nodes)) <==> AllIntact(old(ContentsOf(nodes)))
    ensures ByIdx(ContentsOf(nodes), out)
    ensures StrictlyByIdx(old(ContentsOf(nodes)), s) ==> out == s && list == res.list
    ensures ByIdx(old(ContentsOf(nodes)), s) ==> SameIndices(old(ContentsOf(nodes)), s, out)
    ensures Outcome(old(ContentsOf(nodes)), old(res.computed), res.computed, s, finderIdx, old(res.seed3), tr,
                    ContentsOf(nodes), out)
    ensures |out| >= 1 && Elems(out) <= nodes
    ensures |tr.middle| >= 3 && Elems(tr.middle) <= tr.contents.Keys
    ensures Words.Word(retval) ==
            Crc.CrcBytes(BenchMessage(finderIdx, old(res.seed3), tr, ContentsOf(nodes), out), Words.Word(tr.start))
  {
    hide Words.Word, Crc.CrcBytes, IdxAt, DataAt, Copies;
    hide Chain, ContentsOf, LinksOf, Separate, Elems, Orders, Score, Evolves, SortedFrom, CrcTimes;
    hide RebuiltAll, TailLength, FirstMatch, ByIdx, StrictlyByIdx, NoDup, Infos, AllIntact, Middle, SameIndices;
    ghost var c0, log0, findNum := ContentsOf(nodes), res.computed, res.seed3;
    RebuiltIntact(c0);
    ListFacts(nodes, LinksOf(nodes), res.list, s);
    var head, idx, data16;
    head, idx, data16, retval, tr := SearchAndSort(res, finderIdx, nodes, s);
    ghost var log1, c1 := res.computed, ContentsOf(nodes);
    MiddlePerm(c0, log0, log1, s, finderIdx, findNum, tr);
    retval := RemoveCrcUndo(head, idx, data16, retval, nodes, tr.middle);
    ghost var mid := retval;
    head, out := Mergesort(head, Idx, null, nodes, tr.middle);
    BenchEnd(c0, c1, ContentsOf(nodes), log0, log1, s, tr.middle, out);
    list := head;
    ListOf(nodes, LinksOf(nodes), head, out);
    SecondNode(nodes, head, out);
    ContentAt(nodes, head);
    retval := CrcLoop(head, head.next, retval, head, nodes, out, 1);
    BothCrcs(c1[tr.middle[0]].data, TailLength(c1, tr.middle, idx, data16), ContentsOf(nodes)[out[0]].data, |out| - 1,
             tr.start, mid, retval);
  }
}
