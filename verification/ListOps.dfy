// The list operations of `core_list_join.c` besides sorting: find, reverse, remove and its undo, and
// the splice that `core_bench_list` performs after a successful search.

module ListOps {
  import opened ListNodes
  import opened ListOrder
  import opened MergeSort

  ghost predicate IsList(nodes: set<ListHead>, nx: Links, p: ListHead?, s: seq<ListHead>) {
    && nx.Keys == nodes && NoDup(s) && Elems(s) <= nodes && Chain(nx, p, s)
  }

  // ---- core_list_find ----

  // The item searched for: by index unless that is negative, else by the low data byte.
  predicate Matches(x: Item, idx: s16, data16: u16) {
    if idx >= 0 then x.idx == idx else Lower(x.data) == data16
  }

  // The position of the first matching node, or the length of the list.
  ghost function FirstMatch(c: Contents, s: seq<ListHead>, idx: s16, data16: u16): (k: nat)
    requires Elems(s) <= c.Keys
    ensures k <= |s|
    ensures k < |s| ==> s[k] in c && Matches(c[s[k]], idx, data16)
    ensures forall i :: 0 <= i < k ==> s[i] in c && !Matches(c[s[i]], idx, data16)
  {
    if s == [] then 0
    else
      assert s[0] in Elems(s) && forall x :: x in s[1..] ==> x in Elems(s);
      if Matches(c[s[0]], idx, data16) then 0 else 1 + FirstMatch(c, s[1..], idx, data16)
  }

  method Find(list0: ListHead?, idx: s16, data16: u16, ghost nodes: set<ListHead>, ghost s: seq<ListHead>)
    returns (list: ListHead?)
    requires IsList(nodes, LinksOf(nodes), list0, s)
    ensures var k := FirstMatch(ContentsOf(nodes), s, idx, data16);
      list == if k == |s| then null else s[k]
  {
    list := list0;
    ghost var i, c := 0, ContentsOf(nodes);
    ghost var k := FirstMatch(c, s, idx, data16);
    assert forall j :: 0 <= j < |s| ==> s[j] in Elems(s);
    if idx >= 0 {
      while list != null && list.info.idx != idx
        invariant 0 <= i <= k && list == if i == |s| then null else s[i]
        decreases |s| - i
      {
        assert c[s[i]].idx == s[i].info.idx;
        list := list.next;
        i := i + 1;
      }
    } else {
      while list != null && list.info.data16 % 0x100 != data16
        invariant 0 <= i <= k && list == if i == |s| then null else s[i]
        decreases |s| - i
      {
        assert c[s[i]].data == s[i].info.data16;
        list := list.next;
        i := i + 1;
      }
    }
    assert i < |s| ==> c[s[i]] == Item(s[i].info, s[i].info.data16, s[i].info.idx);
  }

  // Where the node found stands, in terms of the records: it has the index or the low data byte searched for,
  // and no node before it has.
  lemma FindMeans(nodes: set<ListHead>, s: seq<ListHead>, idx: s16, data16: u16)
    requires Elems(s) <= nodes
    ensures var k := FirstMatch(ContentsOf(nodes), s, idx, data16);
      && k <= |s|
      && (k < |s| ==> if idx >= 0 then s[k].info.idx == idx else s[k].info.data16 % 0x100 == data16)
      && forall j :: 0 <= j < k ==> if idx >= 0 then s[j].info.idx != idx else s[j].info.data16 % 0x100 != data16
  {
    var k := FirstMatch(ContentsOf(nodes), s, idx, data16);
    forall j | 0 <= j < |s|
      ensures s[j] in nodes && ContentsOf(nodes)[s[j]] == Item(s[j].info, s[j].info.data16, s[j].info.idx)
    {
      assert s[j] in Elems(s);
    }
  }

  // `x->next = y`
  method SetNext(x: ListHead, y: ListHead?, ghost nodes: set<ListHead>)
    requires x in nodes
    modifies x`next
    ensures LinksOf(nodes) == old(LinksOf(nodes))[x := y]
    ensures ContentsOf(nodes) == old(ContentsOf(nodes)) && Separate(nodes) == old(Separate(nodes))
    ensures Infos(nodes) == old(Infos(nodes))
  {
    x.next := y;
  }

  // ---- core_list_reverse ----

  ghost function Reversed(s: seq<ListHead>): (r: seq<ListHead>)
    ensures |r| == |s|
    ensures forall i :: 0 <= i < |s| ==> r[i] == s[|s| - 1 - i]
  {
    if s == [] then [] else Reversed(s[1..]) + [s[0]]
  }

  lemma ReversedPerm(s: seq<ListHead>)
    ensures Elems(Reversed(s)) == Elems(s)
    ensures NoDup(s) ==> NoDup(Reversed(s))
  {
    var r := Reversed(s);
    forall x | x in s ensures x in r {
      var i :| 0 <= i < |s| && s[i] == x;
      assert r[|s| - 1 - i] == x;
    }
  }

  lemma ChainFrame(nx: Links, p: ListHead?, s: seq<ListHead>, x: ListHead, y: ListHead?)
    requires Chain(nx, p, s) && x !in Elems(s)
    ensures Chain(nx[x := y], p, s)
  {
    assert forall i :: 0 <= i < |s| ==> s[i] in Elems(s);
  }

  lemma ChainCons(nx: Links, x: ListHead, p: ListHead?, s: seq<ListHead>)
    requires Chain(nx, p, s) && x in nx && nx[x] == p
    ensures Chain(nx, x, [x] + s)
  {
  }

  method Reverse(list0: ListHead?, ghost nodes: set<ListHead>, ghost s: seq<ListHead>) returns (next: ListHead?)
    requires IsList(nodes, LinksOf(nodes), list0, s)
    modifies nodes`next
    ensures IsList(nodes, LinksOf(nodes), next, Reversed(s))
    ensures ContentsOf(nodes) == old(ContentsOf(nodes)) && Separate(nodes) == old(Separate(nodes))
  {
    hide Chain, Elems, NoDup, IsList, Separate, ContentsOf;
    var list := list0;
    next := null;
    ghost var i, c := 0, ContentsOf(nodes);
    ReverseStart(nodes, LinksOf(nodes), list, s);
    while list != null
      invariant 0 <= i <= |s| && ContentsOf(nodes) == c && Separate(nodes) == old(Separate(nodes))
      invariant Chain(LinksOf(nodes), list, s[i..])
      invariant Chain(LinksOf(nodes), next, Reversed(s[..i]))
      decreases |s| - i
    {
      ghost var nx := LinksOf(nodes);
      ReverseTurn(nodes, nx, list, next, s, i);
      var tmp := list.next;
      SetNext(list, next, nodes);
      next := list;
      list := tmp;
      i := i + 1;
    }
    ReverseEnd(nodes, LinksOf(nodes), next, s, i);
  }

  lemma ReverseStart(nodes: set<ListHead>, nx: Links, list: ListHead?, s: seq<ListHead>)
    requires IsList(nodes, nx, list, s)
    ensures Chain(nx, list, s[0..]) && Chain(nx, null, Reversed(s[..0]))
    ensures NoDup(s) && Elems(s) <= nodes
  {
    assert s[0..] == s;
  }

  lemma ReverseEnd(nodes: set<ListHead>, nx: Links, next: ListHead?, s: seq<ListHead>, i: nat)
    requires nx.Keys == nodes && NoDup(s) && Elems(s) <= nodes && i <= |s|
    requires Chain(nx, null, s[i..]) && Chain(nx, next, Reversed(s[..i]))
    ensures IsList(nodes, nx, next, Reversed(s))
  {
    assert i == |s| && s[..i] == s;
    ReversedPerm(s);
  }

  lemma ReversedSnoc(s: seq<ListHead>, x: ListHead)
    ensures Reversed(s + [x]) == [x] + Reversed(s)
  {
    if s != [] {
      assert (s + [x])[1..] == s[1..] + [x];
      ReversedSnoc(s[1..], x);
    }
  }

  lemma ReverseTurn(nodes: set<ListHead>, nx: Links, list: ListHead, next: ListHead?, s: seq<ListHead>, i: nat)
    requires nx.Keys == nodes && NoDup(s) && Elems(s) <= nodes && i <= |s|
    requires Chain(nx, list, s[i..]) && Chain(nx, next, Reversed(s[..i]))
    ensures i < |s| && list in nodes
    ensures Chain(nx[list := next], nx[list], s[i + 1..])
    ensures Chain(nx[list := next], list, Reversed(s[..i + 1]))
  {
    assert s[i..] == [list] + s[i + 1..];
    assert s[i] in Elems(s);
    assert list !in Elems(s[i + 1..]) && list !in Elems(s[..i]);
    assert Chain(nx, nx[list], s[i + 1..]);
    ReversedPerm(s[..i]);
    ChainFrame(nx, nx[list], s[i + 1..], list, next);
    ChainFrame(nx, next, Reversed(s[..i]), list, next);
    ChainCons(nx[list := next], list, next, Reversed(s[..i]));
    assert s[..i + 1] == s[..i] + [list];
    ReversedSnoc(s[..i], list);
  }

  // ---- The splice after a successful search ----

  // The successor of the node at `k` moves to the second place.
  ghost function Spliced(t: seq<ListHead>, k: nat): seq<ListHead>
    requires k + 1 < |t|
  {
    [t[0], t[k + 1]] + t[1..k + 1] + t[k + 2..]
  }

  lemma SplicedPerm(t: seq<ListHead>, k: nat)
    requires k + 1 < |t| && NoDup(t)
    ensures |Spliced(t, k)| == |t| && NoDup(Spliced(t, k)) && Elems(Spliced(t, k)) == Elems(t)
  {
    var u := Spliced(t, k);
    assert t == [t[0]] + t[1..k + 1] + [t[k + 1]] + t[k + 2..];
    forall i | 0 <= i < |u|
      ensures u[i] == t[if i == 0 then 0 else if i == 1 then k + 1 else if i < k + 2 then i - 1 else i]
    {
    }
  }

  // Head first, then the node from place k + 1, and everything else in its old order.
  lemma SplicedMeans(t: seq<ListHead>, k: nat, i: nat)
    requires k + 1 < |t| && i < |t|
    ensures |Spliced(t, k)| == |t|
    ensures Spliced(t, k)[i] == if i == 0 || i > k + 1 then t[i] else if i == 1 then t[k + 1] else t[i - 1]
  {
  }

  // The three assignments of the splice.
  ghost function SplicedLinks(nx: Links, list: ListHead, thisFind: ListHead, finder: ListHead): Links
    requires list in nx && finder in nx
  {
    var nx1: Links := nx[thisFind := nx[finder]];
    var nx2: Links := nx1[finder := nx1[list]];
    nx2[list := finder]
  }

  // `this_find` is the node at `k` of the list.
  method Splice(list: ListHead, thisFind: ListHead, ghost nodes: set<ListHead>, ghost t: seq<ListHead>, ghost k: nat)
    requires IsList(nodes, LinksOf(nodes), list, t) && k < |t| && thisFind == t[k]
    modifies nodes`next
    ensures IsList(nodes, LinksOf(nodes), list, if k + 1 < |t| then Spliced(t, k) else t)
    ensures ContentsOf(nodes) == old(ContentsOf(nodes)) && Separate(nodes) == old(Separate(nodes))
  {
    hide IsList, Spliced, ContentsOf, Separate;
    ghost var nx := LinksOf(nodes);
    ListAt(nodes, nx, list, t);
    assert LinkedAt(nx, t, k);
    if thisFind.next != null {
      SplicedChain(nodes, nx, list, t, k);
      var finder := thisFind.next;
      SetNext(thisFind, finder.next, nodes);
      SetNext(finder, list.next, nodes);
      SetNext(list, finder, nodes);
      assert LinksOf(nodes) == SplicedLinks(nx, list, thisFind, finder);
    }
  }

  // What a list says about each of its nodes, and conversely.
  ghost predicate LinkedAt(nx: Links, s: seq<ListHead>, i: nat)
    requires i < |s|
  {
    s[i] in nx && nx[s[i]] == if i + 1 < |s| then s[i + 1] else null
  }

  lemma ListAt(nodes: set<ListHead>, nx: Links, p: ListHead?, s: seq<ListHead>)
    requires IsList(nodes, nx, p, s)
    ensures forall i :: 0 <= i < |s| ==> s[i] in nodes && LinkedAt(nx, s, i)
    ensures NoDup(s) && (s != [] ==> p == s[0]) && nx.Keys == nodes
  {
    assert forall i :: 0 <= i < |s| ==> s[i] in Elems(s);
  }

  lemma ListFrom(nodes: set<ListHead>, nx: Links, s: seq<ListHead>)
    requires nx.Keys == nodes && NoDup(s) && s != [] && Elems(s) <= nodes
    requires forall i :: 0 <= i < |s| ==> LinkedAt(nx, s, i)
    ensures IsList(nodes, nx, s[0], s)
  {
    assert LinkedAt(nx, s, |s| - 1);
    forall i | 0 <= i < |s| - 1 ensures s[i] in nx && nx[s[i]] == s[i + 1] {
      assert LinkedAt(nx, s, i);
    }
  }

  lemma SplicedChain(nodes: set<ListHead>, nx: Links, list: ListHead, t: seq<ListHead>, k: nat)
    requires IsList(nodes, nx, list, t) && k + 1 < |t|
    ensures t[k + 1] in nodes && list in nodes
    ensures IsList(nodes, SplicedLinks(nx, list, t[k], t[k + 1]), list, Spliced(t, k))
  {
    hide IsList;
    ListAt(nodes, nx, list, t);
    var f := t[k + 1];
    var ny, u := SplicedLinks(nx, list, t[k], f), Spliced(t, k);
    SplicedPerm(t, k);
    assert LinkedAt(nx, t, 0) && LinkedAt(nx, t, k) && LinkedAt(nx, t, k + 1);
    forall i: nat | i < |u| ensures LinkedAt(ny, u, i) {
      SplicedAt(nx, t, k, i);
    }
    assert Elems(t) <= nodes by {
      assert forall x :: x in Elems(t) ==> x in t;
    }
    ListFrom(nodes, ny, u);
  }

  lemma SplicedItems(t: seq<ListHead>, k: nat)
    requires k + 1 < |t|
    ensures var u := Spliced(t, k);
      && |u| == |t| && u[0] == t[0] && u[1] == t[k + 1]
      && (forall j :: 2 <= j < k + 2 ==> u[j] == t[j - 1])
      && (forall j :: k + 2 <= j < |t| ==> u[j] == t[j])
  {
  }

  lemma SplicedNext(nx: Links, t: seq<ListHead>, k: nat, x: ListHead)
    requires NoDup(t) && k + 1 < |t| && t[0] in nx && t[k] in nx && t[k + 1] in nx && x in nx
    ensures var ny := SplicedLinks(nx, t[0], t[k], t[k + 1]);
      && x in ny
      && ny[x] == if x == t[0] then t[k + 1]
                  else if x == t[k + 1] then (if k == 0 then nx[x] else nx[t[0]])
                  else if x == t[k] then nx[t[k + 1]]
                  else nx[x]
  {
  }

  lemma SplicedAt(nx: Links, t: seq<ListHead>, k: nat, i: nat)
    requires NoDup(t) && k + 1 < |t| && i < |t|
    requires forall j :: 0 <= j < |t| ==> LinkedAt(nx, t, j)
    ensures t[0] in nx && t[k + 1] in nx
    ensures |Spliced(t, k)| == |t| && LinkedAt(SplicedLinks(nx, t[0], t[k], t[k + 1]), Spliced(t, k), i)
  {
    hide Spliced, SplicedLinks;
    assert LinkedAt(nx, t, 0) && LinkedAt(nx, t, k) && LinkedAt(nx, t, k + 1);
    SplicedItems(t, k);
    var j := if i == 0 then 0 else if i == 1 then k + 1 else if i < k + 2 then i - 1 else i;
    assert LinkedAt(nx, t, j);
    SplicedNext(nx, t, k, t[j]);
  }

  // ---- core_list_remove and core_list_undo_remove ----

  // The contents after two nodes have exchanged their data records.
  ghost function Swapped(c: Contents, x: ListHead, y: ListHead): Contents
    requires x in c && y in c
  {
    c[x := c[y]][y := c[x]]
  }

  lemma SwappedTwice(c: Contents, x: ListHead, y: ListHead)
    requires x in c && y in c
    ensures Swapped(Swapped(c, x, y), y, x) == c
  {
  }

  // Exchanges the `info` pointers of two nodes.
  method SwapInfo(x: ListHead, y: ListHead, ghost nodes: set<ListHead>)
    requires x in nodes && y in nodes && Separate(nodes)
    modifies x`info, y`info
    ensures ContentsOf(nodes) == Swapped(old(ContentsOf(nodes)), x, y)
    ensures LinksOf(nodes) == old(LinksOf(nodes)) && Separate(nodes)
    ensures Infos(nodes) == old(Infos(nodes))
  {
    ghost var c := ContentsOf(nodes);
    InfosOfContents(nodes);
    var tmp := x.info;
    x.info := y.info;
    y.info := tmp;
    forall n | n in nodes ensures ContentsOf(nodes)[n] == Swapped(c, x, y)[n] {
    }
    InfosOfContents(nodes);
    SwappedInfos(c, x, y);
  }

  ghost function InfosIn(c: Contents): set<ListData> {
    set n | n in c :: c[n].info
  }

  lemma InfosOfContents(nodes: set<ListHead>)
    ensures Infos(nodes) == InfosIn(ContentsOf(nodes))
  {
    forall d | d in Infos(nodes) ensures d in InfosIn(ContentsOf(nodes)) {
      var n :| n in nodes && n.info == d;
      assert ContentsOf(nodes)[n].info == d;
    }
  }

  lemma SwappedInfos(c: Contents, x: ListHead, y: ListHead)
    requires x in c && y in c
    ensures InfosIn(Swapped(c, x, y)) == InfosIn(c)
  {
    var e := Swapped(c, x, y);
    forall d | d in InfosIn(c) ensures d in InfosIn(e) {
      var n: ListHead :| n in c && c[n].info == d;
      var m: ListHead := if n == x then y else if n == y then x else n;
      assert e[m].info == d;
    }
  }

  ghost function Without(s: seq<ListHead>, k: nat): seq<ListHead>
    requires k < |s|
  {
    s[..k] + s[k + 1..]
  }

  lemma WithoutPerm(s: seq<ListHead>, k: nat)
    requires k < |s| && NoDup(s)
    ensures NoDup(Without(s, k)) && Elems(Without(s, k)) == Elems(s) - {s[k]} && s[k] in Elems(s)
  {
    assert s == s[..k] + [s[k]] + s[k + 1..];
    assert forall i :: 0 <= i < |s| && i != k ==> s[i] != s[k];
    assert s[..k + 1] == s[..k] + [s[k]];
  }

  // Unlinks the node after `item`, which leaves with the data record of `item`.
  method Remove(item: ListHead, ghost list: ListHead?, ghost nodes: set<ListHead>, ghost s: seq<ListHead>, ghost k: nat)
    returns (ret: ListHead)
    requires IsList(nodes, LinksOf(nodes), list, s) && Separate(nodes)
    requires k + 1 < |s| && item == s[k]
    modifies nodes
    ensures ret == s[k + 1] && ret.next == null
    ensures IsList(nodes, LinksOf(nodes), list, Without(s, k + 1)) && Separate(nodes)
    ensures item in nodes && ret in nodes
    ensures ContentsOf(nodes) == Swapped(old(ContentsOf(nodes)), item, ret)
    ensures Infos(nodes) == old(Infos(nodes))
  {
    hide IsList, Separate, ContentsOf, Infos;
    ghost var nx := LinksOf(nodes);
    ListAt(nodes, nx, list, s);
    assert LinkedAt(nx, s, k) && LinkedAt(nx, s, k + 1);
    ret := item.next;
    SwapInfo(item, ret, nodes);
    SetNext(item, item.next.next, nodes);
    SetNext(ret, null, nodes);
    RemovedList(nodes, nx, list, s, k);
  }

  lemma RemovedList(nodes: set<ListHead>, nx: Links, list: ListHead?, s: seq<ListHead>, k: nat)
    requires IsList(nodes, nx, list, s) && k + 1 < |s|
    ensures s[k + 1] in nx
    ensures IsList(nodes, nx[s[k] := nx[s[k + 1]]][s[k + 1] := null], list, Without(s, k + 1))
  {
    hide IsList, LinkedAt;
    ListAt(nodes, nx, list, s);
    WithoutPerm(s, k + 1);
    assert s[k + 1] in nodes && s[k] in nodes;
    var u, ny := Without(s, k + 1), nx[s[k] := nx[s[k + 1]]][s[k + 1] := null];
    forall i: nat | i < |u| ensures LinkedAt(ny, u, i) {
      RemovedAt(nx, s, k, i);
    }
    assert forall x :: x in Elems(s) ==> x in s;
    ListFrom(nodes, ny, u);
  }

  lemma RemovedAt(nx: Links, s: seq<ListHead>, k: nat, i: nat)
    requires NoDup(s) && k + 1 < |s| && i + 1 < |s|
    requires forall j :: 0 <= j < |s| ==> LinkedAt(nx, s, j)
    ensures s[k + 1] in nx && |Without(s, k + 1)| == |s| - 1
    ensures LinkedAt(nx[s[k] := nx[s[k + 1]]][s[k + 1] := null], Without(s, k + 1), i)
  {
    assert LinkedAt(nx, s, k) && LinkedAt(nx, s, k + 1);
    if i < k {
      assert LinkedAt(nx, s, i);
    } else if i > k {
      assert LinkedAt(nx, s, i + 1);
    }
  }

  ghost function Inserted(s: seq<ListHead>, k: nat, x: ListHead): seq<ListHead>
    requires k < |s|
  {
    s[..k + 1] + [x] + s[k + 1..]
  }

  lemma InsertedWithout(s: seq<ListHead>, k: nat)
    requires k + 1 < |s|
    ensures Inserted(Without(s, k + 1), k, s[k + 1]) == s
  {
  }

  // Links the removed node back in after `modified`, and exchanges the data records once more.
  method UndoRemove(removed: ListHead, modified: ListHead,
                    ghost list: ListHead?, ghost nodes: set<ListHead>, ghost s: seq<ListHead>, ghost k: nat)
    returns (r: ListHead)
    requires IsList(nodes, LinksOf(nodes), list, s) && Separate(nodes)
    requires k < |s| && modified == s[k] && removed in nodes && removed !in s
    modifies nodes
    ensures r == removed && modified in nodes
    ensures IsList(nodes, LinksOf(nodes), list, Inserted(s, k, removed)) && Separate(nodes)
    ensures ContentsOf(nodes) == Swapped(old(ContentsOf(nodes)), removed, modified)
    ensures Infos(nodes) == old(Infos(nodes))
  {
    hide IsList, Separate, ContentsOf, Infos;
    ghost var nx := LinksOf(nodes);
    ListAt(nodes, nx, list, s);
    assert LinkedAt(nx, s, k);
    SwapInfo(removed, modified, nodes);
    SetNext(removed, modified.next, nodes);
    SetNext(modified, removed, nodes);
    InsertedList(nodes, nx, list, s, k, removed);
    r := removed;
  }

  lemma InsertedList(nodes: set<ListHead>, nx: Links, list: ListHead?, s: seq<ListHead>, k: nat, x: ListHead)
    requires IsList(nodes, nx, list, s) && k < |s| && x in nodes && x !in s
    ensures s[k] in nx
    ensures IsList(nodes, nx[x := nx[s[k]]][s[k] := x], list, Inserted(s, k, x))
  {
    hide IsList, LinkedAt, Inserted, Elems, NoDup;
    ListAt(nodes, nx, list, s);
    assert s[k] in nodes && s[k] in nx;
    InsertedPerm(nodes, s, k, x);
    var u, ny := Inserted(s, k, x), nx[x := nx[s[k]]][s[k] := x];
    forall i: nat | i < |u| ensures LinkedAt(ny, u, i) {
      InsertedAt(nx, s, k, x, i);
    }
    ListFrom(nodes, ny, u);
  }

  lemma InsertedPerm(nodes: set<ListHead>, s: seq<ListHead>, k: nat, x: ListHead)
    requires NoDup(s) && k < |s| && x in nodes && x !in s && forall i :: 0 <= i < |s| ==> s[i] in nodes
    ensures NoDup(Inserted(s, k, x)) && Elems(Inserted(s, k, x)) <= nodes
    ensures |Inserted(s, k, x)| == |s| + 1 && Inserted(s, k, x)[0] == s[0]
  {
    var u := Inserted(s, k, x);
    forall i | 0 <= i < |u| ensures u[i] == if i <= k then s[i] else if i == k + 1 then x else s[i - 1] {
    }
  }

  lemma InsertedAt(nx: Links, s: seq<ListHead>, k: nat, x: ListHead, i: nat)
    requires NoDup(s) && k < |s| && i <= |s| && x in nx && x !in s
    requires forall j :: 0 <= j < |s| ==> LinkedAt(nx, s, j)
    ensures s[k] in nx && |Inserted(s, k, x)| == |s| + 1
    ensures LinkedAt(nx[x := nx[s[k]]][s[k] := x], Inserted(s, k, x), i)
  {
    assert LinkedAt(nx, s, k);
    if i < k {
      assert LinkedAt(nx, s, i);
    } else if i > k + 1 {
      assert LinkedAt(nx, s, i - 1);
    }
  }
}

