// `core_list_init` and `core_list_insert_new` of `sw/app/coremark/core_list_join.c`: the bump
// allocation of list cells out of one memory block, and the list they build.

module ListInit {
  import Arith
  import opened Words
  import opened ListNodes
  import opened ListOrder
  import opened MergeSort
  import opened ListOps
  import opened BenchSearch
  import opened BenchList
  import opened ListPatterns

  // ---- The memory block ----

  const PER_ITEM := 20 // 16 + sizeof(struct list_data_s)

  // The number of header cells, and of data cells.
  function Cells(blksize: nat): int {
    blksize / PER_ITEM - 2
  }

  // Header cell `k` starts here; a header takes 16 bytes with 64-bit pointers, 8 with 32-bit pointers.
  function HeaderAt(headerSize: nat, k: nat): nat { headerSize * k }

  // Data cell `k` starts here: the data cells follow all header cells.
  function DataAt(headerSize: nat, size: nat, k: nat): nat { headerSize * size + 4 * k }

  // Cells of the block do not overlap, and none sticks out of the block.
  lemma CellsApart(blksize: nat, headerSize: nat, j: nat, k: nat)
    requires headerSize <= 16 && j < Cells(blksize) && k < Cells(blksize)
    ensures j < k ==> HeaderAt(headerSize, j) + headerSize <= HeaderAt(headerSize, k)
    ensures j < k ==> DataAt(headerSize, Cells(blksize), j) + 4 <= DataAt(headerSize, Cells(blksize), k)
    ensures HeaderAt(headerSize, j) + headerSize <= DataAt(headerSize, Cells(blksize), k)
    ensures DataAt(headerSize, Cells(blksize), k) + 4 <= blksize
  {
    var size := Cells(blksize);
    Successor(headerSize, j);
    Arith.MulMono(j + 1, size, headerSize);
    if j < k {
      Arith.MulMono(j + 1, k, headerSize);
    }
    DataFits(blksize, headerSize, size, k);
  }

  lemma DataFits(blksize: nat, headerSize: nat, size: nat, k: nat)
    requires headerSize <= 16 && size == blksize / PER_ITEM - 2 && k < size
    ensures headerSize * size + 4 * k + 4 <= blksize
  {
    Arith.MulMono(headerSize, 16, size);
    assert headerSize * size == size * headerSize;
    assert 20 * size <= blksize;
  }

  lemma Successor(a: nat, b: nat)
    ensures a * (b + 1) == a * b + a
  {
  }

  // ---- Insertion ----

  // The list after cells 1 .. m-1 have been inserted, each right behind the head.
  ghost function Descending(heads: seq<ListHead>, m: nat): (s: seq<ListHead>)
    requires 1 <= m <= |heads|
    ensures |s| == m && s[0] == heads[0]
    ensures forall j :: 1 <= j < m ==> s[j] == heads[m - j]
  {
    if m == 1 then [heads[0]] else [heads[0]] + [heads[m - 1]] + Descending(heads, m - 1)[1..]
  }

  // `item->info = data; copy_info(item->info, info)`
  method Fill(item: ListHead, data: ListData, data16: u16, idx: s16, ghost nodes: set<ListHead>)
    requires item in nodes
    modifies item`info, data
    ensures item.info == data && data.data16 == data16 && data.idx == idx
    ensures LinksOf(nodes) == old(LinksOf(nodes))
  {
    item.info := data;
    item.info.data16 := data16;
    item.info.idx := idx;
  }

  // `core_list_insert_new`; the four pointers into the block are indices of cells.
  method CoreListInsertNew(insertPoint: ListHead, data16: u16, idx: s16, memblock0: nat, datablock0: nat,
                           heads: seq<ListHead>, datas: seq<ListData>, ghost nodes: set<ListHead>,
                           ghost s: seq<ListHead>)
    returns (newitem: ListHead?, memblock: nat, datablock: nat)
    requires s != [] && IsList(nodes, LinksOf(nodes), insertPoint, s)
    requires memblock0 < |heads| ==> heads[memblock0] in nodes && heads[memblock0] !in s
    modifies nodes, if datablock0 < |datas| then {datas[datablock0]} else {}
    ensures newitem == null <==> memblock0 + 1 >= |heads| || datablock0 + 1 >= |datas|
    ensures newitem == null ==>
      memblock == memblock0 && datablock == datablock0 && LinksOf(nodes) == old(LinksOf(nodes))
      && (forall n :: n in nodes ==> n.info == old(n.info))
      && (datablock0 < |datas| ==> unchanged(datas[datablock0]))
    ensures newitem != null ==>
      && memblock == memblock0 + 1 && datablock == datablock0 + 1
      && newitem == heads[memblock0] && newitem.info == datas[datablock0]
      && newitem.info.data16 == data16 && newitem.info.idx == idx
      && (forall n :: n in nodes && n != newitem ==> n.info == old(n.info))
      && IsList(nodes, LinksOf(nodes), insertPoint, Inserted(s, 0, newitem))
  {
    hide IsList, Inserted, LinkedAt;
    newitem, memblock, datablock := null, memblock0, datablock0;
    if memblock + 1 >= |heads| {
      return;
    }
    if datablock + 1 >= |datas| {
      return;
    }
    newitem := heads[memblock];
    memblock := memblock + 1;
    ghost var nx := LinksOf(nodes);
    ListAt(nodes, nx, insertPoint, s);
    SetNext(newitem, insertPoint.next, nodes);
    SetNext(insertPoint, newitem, nodes);
    InsertedList(nodes, nx, insertPoint, s, 0, newitem);
    Fill(newitem, datas[datablock], data16, idx, nodes);
    datablock := datablock + 1;
  }

  // ---- Building the list ----

  ghost predicate DistinctCells(heads: seq<ListHead>, datas: seq<ListData>) {
    NoDup(heads) && Distinct(datas)
  }

  // The first `m` header cells are linked and each points to the data cell of the same number.
  ghost predicate Built(heads: seq<ListHead>, datas: seq<ListData>, m: nat)
    reads heads, datas
    requires |heads| == |datas|
  {
    && 1 <= m <= |heads|
    && IsList(Elems(heads), LinksOf(Elems(heads)), heads[0], Descending(heads, m))
    && (forall k :: 0 <= k < m ==> heads[k].info == datas[k])
    && datas[0].idx == 0
    && (m > 1 ==> datas[1].idx == 0x7fff)
  }

  lemma DescendingSnoc(heads: seq<ListHead>, m: nat)
    requires 1 <= m < |heads|
    ensures Inserted(Descending(heads, m), 0, heads[m]) == Descending(heads, m + 1)
  {
  }

  lemma FreshCell(heads: seq<ListHead>, m: nat)
    requires NoDup(heads) && 1 <= m < |heads|
    ensures heads[m] in Elems(heads) && heads[m] !in Descending(heads, m)
  {
    forall x | x in Descending(heads, m) ensures x != heads[m] {
      var j :| 0 <= j < m && Descending(heads, m)[j] == x;
      assert x == heads[if j == 0 then 0 else m - j];
    }
  }

  // One call of `core_list_insert_new`: one more cell, unless only one is left.
  method BuildOne(data16: u16, idx: s16, m: nat, heads: seq<ListHead>, datas: seq<ListData>) returns (m': nat)
    requires |heads| == |datas| && DistinctCells(heads, datas)
    requires Built(heads, datas, m) && (m == 1 ==> idx == 0x7fff)
    modifies heads, datas
    ensures m' == if m + 1 < |heads| then m + 1 else m
    ensures Built(heads, datas, m')
    ensures m' > m ==> datas[m].data16 == data16
    ensures forall k :: 0 <= k < |datas| && (k != m || m' == m) ==> datas[k].data16 == old(datas[k].data16)
  {
    hide IsList, Descending, Inserted, NoDup;
    var newitem, db;
    if m < |heads| {
      FreshCell(heads, m);
      DescendingSnoc(heads, m);
    }
    HeadsFacts(heads);
    newitem, m', db := CoreListInsertNew(heads[0], data16, idx, m, m, heads, datas, Elems(heads), Descending(heads, m));
  }

  lemma HeadsFacts(heads: seq<ListHead>)
    ensures forall k :: 0 <= k < |heads| ==> heads[k] in Elems(heads)
    ensures NoDup(heads) ==> forall j, k :: 0 <= j < k < |heads| ==> heads[j] != heads[k]
  {
  }

  // Node `j` of the list points to the next one, the last node to NULL.
  ghost predicate NextAt(s: seq<ListHead>, j: int)
    reads s
    requires 0 <= j < |s|
  {
    s[j].next == if j + 1 < |s| then s[j + 1] else null
  }

  lemma BuiltLinks(heads: seq<ListHead>, datas: seq<ListData>, m: nat)
    requires |heads| == |datas| && Built(heads, datas, m)
    ensures var s := Descending(heads, m);
      && NoDup(s)
      && forall j :: 0 <= j < m ==> NextAt(s, j)
  {
    var s := Descending(heads, m);
    ListAt(Elems(heads), LinksOf(Elems(heads)), heads[0], s);
    forall j | 0 <= j < m ensures NextAt(s, j) {
      assert s[j] in Elems(heads) && LinkedAt(LinksOf(Elems(heads)), s, j);
    }
  }

  // Numbers every node between the head and the last: the first fifth in order, the others mixed.
  method Number(heads: seq<ListHead>, datas: seq<ListData>, size: nat, seed: s16, ghost m: nat)
    requires |heads| == |datas| && DistinctCells(heads, datas) && Built(heads, datas, m) && m >= 2
    requires size / 5 <= 0x7fff
    modifies datas`idx
    ensures Built(heads, datas, m)
    ensures DataBuilt(datas, seed, m) == old(DataBuilt(datas, seed, m))
    ensures forall k :: 2 <= k < m ==> datas[k].idx == NumberFor(m - k, size, seed)
  {
    hide IsList, NoDup;
    ghost var s := Descending(heads, m);
    BuiltLinks(heads, datas, m);
    NumberLoop(heads[0], heads, datas, size, seed, s, m);
  }

  method NumberLoop(list: ListHead, heads: seq<ListHead>, datas: seq<ListData>, size: nat, seed: s16,
                    ghost s: seq<ListHead>, ghost m: nat)
    requires |heads| == |datas| && Distinct(datas) && 2 <= m <= |heads| && size / 5 <= 0x7fff
    requires |s| == m && list == s[0] && forall j :: 1 <= j < m ==> s[j] == heads[m - j]
    requires forall j :: 0 <= j < m ==> NextAt(s, j)
    requires forall k :: 0 <= k < m ==> heads[k].info == datas[k]
    requires datas[0].idx == 0 && datas[1].idx == 0x7fff
    modifies datas`idx
    ensures LinksOf(Elems(heads)) == old(LinksOf(Elems(heads)))
    ensures datas[0].idx == 0 && datas[1].idx == 0x7fff
    ensures forall k :: 2 <= k < m ==> datas[k].idx == NumberFor(m - k, size, seed)
  {
    hide NumberFor;
    assert NextAt(s, 0);
    var finder := list.next;
    var i := 1;
    while finder.next != null
      invariant 1 <= i < m && finder == s[i]
      invariant forall k :: m - i < k < m ==> datas[k].idx == NumberFor(m - k, size, seed)
      invariant datas[0].idx == 0 && datas[1].idx == 0x7fff
      decreases m - i
    {
      assert NextAt(s, i) && i < m - 1;
      assert s[i] == heads[m - i] && finder.info == datas[m - i];
      finder.info.idx := NumberFor(i, size, seed);
      i := i + 1;
      finder := finder.next;
    }
    assert NextAt(s, i) && i == m - 1;
  }

  // A head with the least index stays first, a last node with the greatest index stays last.
  lemma EndsStay(c: Contents, s: seq<ListHead>, out: seq<ListHead>)
    requires SortedFrom(ByIndex(true), c, s, out) && |s| >= 2
    requires forall i :: 0 <= i < |s| ==> s[i] in c
    requires forall i :: 0 <= i < |s| ==> c[s[0]].idx <= c[s[i]].idx
    requires forall i :: 0 <= i < |s| - 1 ==> c[s[i]].idx < c[s[|s| - 1]].idx
    ensures |out| == |s| && out[0] == s[0] && out[|out| - 1] == s[|s| - 1]
  {
    var o, pos, last := ByIndex(true), PlacesIn(s), s[|s| - 1];
    NoDupSize(s);
    NoDupSize(out);
    assert s[0] in Elems(out) && last in Elems(out) && out[0] in Elems(s) && out[|out| - 1] in Elems(s);
    HeadFirst(o, c, pos, out, s[0]);
    PlacesAt(s, 0);
    var i :| 0 <= i < |s| && s[i] == out[0];
    PlacesAt(s, i);
    LastLast(o, c, pos, out, last);
    var j :| 0 <= j < |s| && s[j] == out[|out| - 1];
  }

  // Cells 2 .. m-1 hold the data of items 0 .. m-3; the two dummies have their own.
  ghost predicate DataBuilt(datas: seq<ListData>, seed: s16, m: nat)
    reads datas
  {
    && 2 <= m <= |datas| && datas[0].data16 == 0x8080 && datas[1].data16 == 0xffff
    && forall k :: 2 <= k < m ==> datas[k].data16 == DataFor(seed, k - 2)
  }

  // One turn of the insertion loop.
  method BuildItem(i: nat, seed: s16, m: nat, heads: seq<ListHead>, datas: seq<ListData>) returns (m': nat)
    requires |heads| == |datas| && DistinctCells(heads, datas)
    requires Built(heads, datas, m) && DataBuilt(datas, seed, m) && m >= 2 && (m < |datas| - 1 ==> m == i + 2)
    modifies heads, datas
    ensures m' == if m + 1 < |heads| then m + 1 else m
    ensures Built(heads, datas, m') && DataBuilt(datas, seed, m')
  {
    hide Built, NoDup, DataFor;
    m' := BuildOne(DataFor(seed, i), 0x7fff, m, heads, datas);
  }

  // Everything before the sort.
  method BuildAll(size: nat, heads: seq<ListHead>, datas: seq<ListData>, seed: s16) returns (m: nat)
    requires |heads| == |datas| == size && DistinctCells(heads, datas)
    requires size >= 3 && size / 5 <= 0x7fff
    modifies heads, datas
    ensures m == size - 1 && Built(heads, datas, m) && DataBuilt(datas, seed, m)
    ensures forall k :: 2 <= k < m ==> datas[k].idx == NumberFor(m - k, size, seed)
  {
    heads[0].next := null;
    heads[0].info := datas[0];
    heads[0].info.idx := 0;
    heads[0].info.data16 := 0x8080;
    BuiltFirst(heads, datas);
    hide Built, NoDup, DataFor, NumberFor;
    m := BuildOne(0xffff, 0x7fff, 1, heads, datas);
    assert DataBuilt(datas, seed, m);
    hide DataBuilt;
    var i := 0;
    while i < size
      invariant 0 <= i <= size && m == Min(i + 2, size - 1)
      invariant Built(heads, datas, m) && DataBuilt(datas, seed, m)
    {
      m := BuildItem(i, seed, m, heads, datas);
      i := i + 1;
    }
    Number(heads, datas, size, seed, m);
  }

  lemma ListReady(heads: seq<ListHead>, datas: seq<ListData>, m: nat) returns (s: seq<ListHead>, nodes: set<ListHead>)
    requires |heads| == |datas| && DistinctCells(heads, datas) && Built(heads, datas, m)
    ensures s == Descending(heads, m) && |s| == m && nodes == Elems(s)
    ensures NoDup(s) && Separate(nodes) && Chain(LinksOf(nodes), heads[0], s)
    ensures nodes <= Elems(heads) && forall n :: n in nodes ==> n in heads && n.info in datas
    ensures s[0] == heads[0]
  {
    s, nodes := Descending(heads, m), Elems(Descending(heads, m));
    BuiltLinks(heads, datas, m);
    forall n | n in nodes ensures exists k :: 0 <= k < m && n == heads[k] && n.info == datas[k] {
      var j :| 0 <= j < m && s[j] == n;
      assert n == heads[if j == 0 then 0 else m - j];
    }
    assert forall j :: 0 <= j < m ==> s[j] in nodes;
  }

  // The contents of the unsorted list: the first index is 0, the last 0x7fff, the others lie between.
  ghost predicate EndIndices(c: Contents, s: seq<ListHead>) {
    && (forall i :: 0 <= i < |s| ==> s[i] in c)
    && (forall i :: 0 <= i < |s| ==> 0 <= c[s[i]].idx)
    && |s| >= 2 && c[s[0]].idx == 0 && c[s[|s| - 1]].idx == 0x7fff
    && (forall i :: 0 <= i < |s| - 1 ==> c[s[i]].idx < 0x7fff)
  }

  lemma InitIndices(heads: seq<ListHead>, datas: seq<ListData>, m: nat, nodes: set<ListHead>, s: seq<ListHead>)
    requires |heads| == |datas| && DistinctCells(heads, datas) && Built(heads, datas, m) && m >= 2
    requires s == Descending(heads, m) && nodes == Elems(s)
    requires forall k :: 2 <= k < m ==> 0 <= datas[k].idx < 0x7fff
    ensures EndIndices(ContentsOf(nodes), s) && s[|s| - 1] == heads[1]
    ensures forall n :: n in nodes ==> n in heads && ContentsOf(nodes)[n].info in datas
  {
    var c := ContentsOf(nodes);
    forall j | 0 <= j < m
      ensures s[j] in nodes && c[s[j]].info == datas[if j == 0 then 0 else m - j]
      ensures c[s[j]].idx == datas[if j == 0 then 0 else m - j].idx
    {
      assert s[j] == heads[if j == 0 then 0 else m - j];
    }
    forall n | n in nodes ensures n in heads && c[n].info in datas {
      var j :| 0 <= j < m && s[j] == n;
      assert n == heads[if j == 0 then 0 else m - j];
    }
  }

  // ---- What the list holds ----

  function SuiteIdx(k: nat, size: nat, seed: s16): s16
    requires size / 5 <= 0x7fff
  {
    if k == 0 then 0 else if k == 1 then 0x7fff else if k < size - 1 then NumberFor(size - 1 - k, size, seed) else 0
  }

  function SuiteData(k: nat, seed: s16): (d: u16)
    ensures Intact(d)
  {
    if k == 0 then 0x8080 else if k == 1 then 0xffff else DataFor(seed, k - 2)
  }

  // The first `size - 1` header cells hold the numbers and patterns of the suite.
  ghost predicate SuiteContents(c: Contents, heads: seq<ListHead>, size: nat, seed: s16)
    requires size / 5 <= 0x7fff
  {
    && 3 <= size <= |heads|
    && c.Keys == Elems(heads[..size - 1])
    && forall k :: 0 <= k < size - 1 ==> SuiteItem(c, heads, size, seed, k)
  }

  ghost predicate SuiteItem(c: Contents, heads: seq<ListHead>, size: nat, seed: s16, k: nat)
    requires k < |heads| && size / 5 <= 0x7fff
  {
    heads[k] in c && c[heads[k]].idx == SuiteIdx(k, size, seed) && c[heads[k]].data == SuiteData(k, seed)
  }

  // The two dummies; cell k >= 2 holds the data of item k - 2.
  lemma SuiteDataMeans(c: Contents, heads: seq<ListHead>, size: nat, seed: s16, k: nat, b: nat)
    requires size / 5 <= 0x7fff && SuiteContents(c, heads, size, seed) && k < size - 1 && b < 16
    ensures heads[k] in c
    ensures k == 0 ==> c[heads[k]].idx == 0 && c[heads[k]].data == 0x8080
    ensures k == 1 ==> c[heads[k]].idx == 0x7fff && c[heads[k]].data == 0xffff
    ensures k >= 2 ==>
      (Arith.BitOf(c[heads[k]].data, b) <==>
       if b >= 8 then Arith.BitOf(c[heads[k]].data, b - 8)
       else if b < 3 then Arith.BitOf(k - 2, b)
       else b < 7 && Arith.BitOf(seed % M16, b - 3) != Arith.BitOf(k - 2, b - 3))
  {
    assert SuiteItem(c, heads, size, seed, k);
    hide Arith.BitOf, NumberFor, DataFor, SuiteContents;
    if k >= 2 {
      DataMeans(seed, k - 2, b);
    }
  }

  // Before the sort, the item of cell k >= 2 stands at place size - 1 - k behind the head, which decides its number.
  lemma SuiteNumberMeans(c: Contents, heads: seq<ListHead>, size: nat, seed: s16, k: nat, b: nat)
    requires size / 5 <= 0x7fff && SuiteContents(c, heads, size, seed) && 2 <= k < size - 1 && b < 16
    ensures heads[k] in c && c[heads[k]].idx >= 0
    ensures size - 1 - k < size / 5 ==> c[heads[k]].idx == size - 1 - k
    ensures size / 5 <= size - 1 - k && size <= M16 ==>
      (Arith.BitOf(c[heads[k]].idx, b) <==>
       || (8 <= b < 11 && Arith.BitOf(size - k, b - 8))
       || (b < 14 && Arith.BitOf(size - 1 - k, b) != Arith.BitOf(seed % M16, b)))
  {
    var i := size - 1 - k;
    ItemNumber(c, heads, size, seed, k);
    hide Arith.BitOf, NumberFor, SuiteContents;
    if size / 5 <= i && size <= M16 {
      NumberMeans(i, size, seed, b);
    }
  }

  lemma ItemNumber(c: Contents, heads: seq<ListHead>, size: nat, seed: s16, k: nat)
    requires size / 5 <= 0x7fff && SuiteContents(c, heads, size, seed) && 2 <= k < size - 1
    ensures heads[k] in c && c[heads[k]].idx == NumberFor(size - 1 - k, size, seed)
  {
    hide NumberFor, DataFor;
    assert SuiteItem(c, heads, size, seed, k);
  }

  // No two items get the same number, and none the number of the dummy head.
  predicate NumbersDistinct(size: nat, seed: s16)
    requires size / 5 <= 0x7fff
  {
    && (forall i :: 1 <= i < size - 2 ==> NumberFor(i, size, seed) != 0)
    && (forall i, j :: 1 <= i < j < size - 2 ==> NumberFor(i, size, seed) != NumberFor(j, size, seed))
  }

  // ---- When the numbers are distinct ----

  lemma SmallWords(i: nat, j: nat)
    requires i < 0x100 && j < 0x100
    ensures Word(i) < 0x100 && Word(j) < 0x100
    ensures Word(i) == Word(j) ==> i == j
  {
    WordIs(i);
    WordIs(j);
    WordSize(Word(i));
    WordSize(Word(j));
    hide Word, NumberOf;
  }

  lemma WordBits(i: nat)
    requires i <= 0x100
    ensures Word(i) & 0x07 == 0 ==> i % 8 == 0
    ensures i < 0x100 && i % 8 == 7 ==> Word(i) & 0x07 == 0x07
  {
    if i < 0x100 {
      WordIs(i);
      LowBits(i);
      LowDigit(i % 8);
      Widen(Byte(i));
    }
  }

  lemma LowByteTells(a: bv16, b: bv16, j: bv16, k: bv16, seed: bv16)
    requires j < 0x100 && k < 0x100 && MixedWord(a, j, seed) == MixedWord(b, k, seed)
    ensures j == k
  {
  }

  lemma HighByteSet(i: bv16, j: bv16, seed: bv16)
    requires i & 0x07 != 0
    ensures MixedWord(i, j, seed) >= 0x100
  {
  }

  lemma MixedNumber(i: nat, size: nat, seed: s16)
    requires size / 5 <= i < 0x100 && size / 5 <= 0x7fff
    ensures NumberFor(i, size, seed) == NumberOf(MixedWord(Word(i + 1), Word(i), Word(seed % M16)))
  {
    hide Word, NumberOf, MixedWord;
  }

  // Mixed numbers of the first 256 items differ from each other.
  lemma MixedApart(i: nat, j: nat, size: nat, seed: s16)
    requires size / 5 <= i < j < 0x100 && size / 5 <= 0x7fff
    ensures NumberFor(i, size, seed) != NumberFor(j, size, seed)
  {
    SmallWords(i, j);
    MixedNumber(i, size, seed);
    MixedNumber(j, size, seed);
    hide Word, NumberOf, MixedWord, NumberFor;
    var s := Word(seed % M16);
    var v, w := MixedWord(Word(i + 1), Word(i), s), MixedWord(Word(j + 1), Word(j), s);
    if NumberOf(v) == NumberOf(w) {
      SameWord(v, w);
      LowByteTells(Word(i + 1), Word(j + 1), Word(i), Word(j), s);
    }
  }

  // Only every eighth of them can be small.
  lemma MixedLarge(i: nat, size: nat, seed: s16)
    requires size / 5 <= i < 0x100 && i % 8 != 7 && size / 5 <= 0x7fff
    ensures NumberFor(i, size, seed) >= 0x100
  {
    hide Word, NumberOf, MixedWord, NumberFor;
    MixedNumber(i, size, seed);
    assert (i + 1) % 8 != 0;
    assert Word(i + 1) & 0x07 != 0 by { WordBits(i + 1); }
    HighByteSet(Word(i + 1), Word(i), Word(seed % M16));
    WordSize(MixedWord(Word(i + 1), Word(i), Word(seed % M16)));
  }

  // For up to 258 cells the numbers are distinct if and only if no item whose place is 7 modulo 8 gets a mixed
  // number that belongs to the head or to the items numbered in order.
  lemma NumbersDistinctExactly(size: nat, seed: s16)
    requires 3 <= size <= 258
    ensures NumbersDistinct(size, seed) <==>
            forall i :: size / 5 <= i < size - 2 && i % 8 == 7 ==> size / 5 <= NumberFor(i, size, seed) != 0
  {
    hide MixedIdx;
    if forall i :: size / 5 <= i < size - 2 && i % 8 == 7 ==> size / 5 <= NumberFor(i, size, seed) != 0 {
      forall i | 1 <= i < size - 2
        ensures NumberFor(i, size, seed) != 0 && (size / 5 <= i ==> size / 5 <= NumberFor(i, size, seed))
      {
        if size / 5 <= i && i % 8 != 7 {
          MixedLarge(i, size, seed);
        }
      }
      forall i, j | 1 <= i < j < size - 2
        ensures NumberFor(i, size, seed) != NumberFor(j, size, seed)
      {
        if size / 5 <= i {
          MixedApart(i, j, size, seed);
        }
      }
    } else {
      var i :| size / 5 <= i < size - 2 && i % 8 == 7 && !(size / 5 <= NumberFor(i, size, seed) != 0);
      var k := NumberFor(i, size, seed);
      if k != 0 {
        assert NumberFor(k, size, seed) == k;
      }
    }
  }

  // The sizes and seeds of the performance, validation and profiling runs.
  predicate SuiteParameters(blksize: nat, seed: s16) {
    blksize in {2000, 666, 400} && seed in {0, 0x3415, 0x08}
  }

  // With these the numbers are distinct.
  lemma SuiteNumbersDistinct(blksize: nat, seed: s16)
    requires SuiteParameters(blksize, seed)
    ensures 4 <= Cells(blksize) <= 98 && NumbersDistinct(Cells(blksize), seed)
  {
    var size := Cells(blksize);
    assert size == 98 || size == 31 || size == 18;
    forall i | size / 5 <= i < size - 2 && i % 8 == 7
      ensures size / 5 <= NumberFor(i, size, seed) != 0
    {
      SuiteNumber(i, seed);
    }
    hide NumberFor, NumbersDistinct;
    NumbersDistinctExactly(size, seed);
  }

  lemma SuiteNumber(i: nat, seed: s16)
    requires i % 8 == 7 && i < 96 && seed in {0, 0x3415, 0x08}
    ensures MixedIdx((i + 1) % M16, i % M16, seed % M16) >= if i >= 19 then 19 else 6
  {
    hide Word, NumberOf, MixedWord;
    SmallWords(i, i);
    WordBits(i);
    WordIs(i);
    WordSize(Word(i));
    SuiteSeeds(seed);
    SuiteWord(Word(i + 1), Word(i), Word(seed % M16));
    WordSize(MixedWord(Word(i + 1), Word(i), Word(seed % M16)));
  }

  lemma SuiteSeeds(seed: s16)
    requires seed in {0, 0x3415, 0x08}
    ensures Word(seed % M16) == 0 || Word(seed % M16) == 0x3415 || Word(seed % M16) == 0x08
  {
    if seed == 0 {
      assert Word(0) == 0;
    } else if seed == 0x08 {
      assert Word(0x08) == 0x08;
    } else {
      assert Word(0x3415) == 0x3415;
    }
  }

  lemma SuiteWord(a: bv16, w: bv16, seed: bv16)
    requires w & 0x07 == 0x07 && w < 0x100 && (seed == 0 || seed == 0x3415 || seed == 0x08)
    ensures MixedWord(a, w, seed) >= 6 && (w >= 19 ==> MixedWord(a, w, seed) >= 19)
  {
  }

  lemma BuiltContents(heads: seq<ListHead>, datas: seq<ListData>, size: nat, seed: s16)
    requires |heads| == |datas| == size >= 3 && size / 5 <= 0x7fff
    requires DistinctCells(heads, datas) && Built(heads, datas, size - 1) && DataBuilt(datas, seed, size - 1)
    requires forall k :: 2 <= k < size - 1 ==> datas[k].idx == NumberFor(size - 1 - k, size, seed)
    ensures Elems(Descending(heads, size - 1)) == Elems(heads[..size - 1])
    ensures SuiteContents(ContentsOf(Elems(heads[..size - 1])), heads, size, seed)
  {
    DescendingElems(heads, size - 1);
    BuiltCells(heads, datas, size, seed);
    CellContents(heads, datas, size, seed);
    hide Built, DataBuilt, SuiteContents, DistinctCells, NumberFor;
  }

  lemma BuiltCells(heads: seq<ListHead>, datas: seq<ListData>, size: nat, seed: s16)
    requires |heads| == |datas| == size >= 3 && size / 5 <= 0x7fff
    requires Built(heads, datas, size - 1) && DataBuilt(datas, seed, size - 1)
    requires forall k :: 2 <= k < size - 1 ==> datas[k].idx == NumberFor(size - 1 - k, size, seed)
    ensures CellsHold(heads, datas, size, seed)
  {
    hide IsList, LinksOf, Descending, Elems, NumberFor, DataFor;
  }

  ghost predicate CellsHold(heads: seq<ListHead>, datas: seq<ListData>, size: nat, seed: s16)
    reads heads, datas
    requires |heads| == |datas| == size >= 3 && size / 5 <= 0x7fff
  {
    forall k :: 0 <= k < size - 1 ==>
      heads[k].info == datas[k] && datas[k].idx == SuiteIdx(k, size, seed) && datas[k].data16 == SuiteData(k, seed)
  }

  lemma CellContents(heads: seq<ListHead>, datas: seq<ListData>, size: nat, seed: s16)
    requires |heads| == |datas| == size >= 3 && size / 5 <= 0x7fff && CellsHold(heads, datas, size, seed)
    ensures SuiteContents(ContentsOf(Elems(heads[..size - 1])), heads, size, seed)
  {
    hide SuiteIdx, SuiteData;
    var t := heads[..size - 1];
    forall k | 0 <= k < size - 1
      ensures SuiteItem(ContentsOf(Elems(t)), heads, size, seed, k)
    {
      HeldBy(t, k);
      assert t[k] == heads[k];
    }
  }

  lemma HeldBy(t: seq<ListHead>, k: nat)
    requires k < |t|
    ensures t[k] in Elems(t) && ContentsOf(Elems(t))[t[k]] == Item(t[k].info, t[k].info.data16, t[k].info.idx)
  {
  }

  lemma DescendingElems(heads: seq<ListHead>, m: nat)
    requires 1 <= m <= |heads|
    ensures Elems(Descending(heads, m)) == Elems(heads[..m])
  {
    var s, t := Descending(heads, m), heads[..m];
    forall j | 0 <= j < m
      ensures s[j] in t && t[j] in s
    {
      assert s[j] == t[if j == 0 then 0 else m - j];
      assert t[j] == s[if j == 0 then 0 else m - j];
    }
  }

  // Sorting by index moves no index and, since every item equals its backup, no data.
  lemma SortKeepsSuite(c: Contents, d: Contents, heads: seq<ListHead>, size: nat, seed: s16)
    requires size / 5 <= 0x7fff && SuiteContents(c, heads, size, seed)
    requires Evolves(ByIndex(true), c, d, [], [])
    ensures SuiteContents(d, heads, size, seed) && AllIntact(d)
  {
    forall k | 0 <= k < size - 1
      ensures SuiteItem(d, heads, size, seed, k) && Intact(d[heads[k]].data)
    {
      assert SuiteItem(c, heads, size, seed, k);
      assert ItemEvolves(ByIndex(true), c[heads[k]], d[heads[k]]);
      assert Intact(SuiteData(k, seed));
    }
    forall x | x in d
      ensures Intact(d[x].data)
    {
      assert x in heads[..size - 1];
    }
  }

  // An ordered list is strictly ordered exactly when no two nodes have the same index.
  lemma StrictMeansDistinct(c: Contents, s: seq<ListHead>)
    requires NoDup(s) && ByIdx(c, s)
    ensures StrictlyByIdx(c, s) <==> forall x, y :: x in s && y in s && x != y ==> c[x].idx != c[y].idx
  {
    if StrictlyByIdx(c, s) {
      forall x, y | x in s && y in s && x != y
        ensures c[x].idx != c[y].idx
      {
        var i, j :| 0 <= i < |s| && 0 <= j < |s| && s[i] == x && s[j] == y;
        assert i < j || j < i;
      }
    }
  }

  // The built list is strictly ordered exactly when the numbers are distinct.
  lemma SuiteStrictExactly(c: Contents, heads: seq<ListHead>, size: nat, seed: s16, out: seq<ListHead>)
    requires size / 5 <= 0x7fff && SuiteContents(c, heads, size, seed) && NoDup(heads)
    requires NoDup(out) && Elems(out) == c.Keys && ByIdx(c, out)
    ensures StrictlyByIdx(c, out) <==> NumbersDistinct(size, seed)
  {
    StrictMeansDistinct(c, out);
    SuiteMembers(c, heads, size, seed, out);
    hide StrictlyByIdx, ByIdx, NumberFor, SuiteContents, NumbersDistinct, NoDup, Elems, SuiteIdx;
    if NumbersDistinct(size, seed) {
      forall x, y | x in out && y in out && x != y
        ensures c[x].idx != c[y].idx
      {
        var i: nat, j: nat :| i < size - 1 && j < size - 1 && heads[i] == x && heads[j] == y;
        DistinctIdx(size, seed, i, j);
      }
    }
    if forall x, y :: x in out && y in out && x != y ==> c[x].idx != c[y].idx {
      DistinctNumbers(c, heads, size, seed, out);
    }
  }

  lemma SuiteMembers(c: Contents, heads: seq<ListHead>, size: nat, seed: s16, out: seq<ListHead>)
    requires size / 5 <= 0x7fff && SuiteContents(c, heads, size, seed) && Elems(out) == c.Keys
    ensures 3 <= size <= |heads|
    ensures forall k :: 0 <= k < size - 1 ==>
      heads[k] in out && heads[k] in c && c[heads[k]].idx == SuiteIdx(k, size, seed)
    ensures forall x :: x in out ==> x in c && exists i: nat :: i < size - 1 && heads[i] == x
  {
    var t := heads[..size - 1];
    forall k | 0 <= k < size - 1
      ensures heads[k] in out && heads[k] in c && c[heads[k]].idx == SuiteIdx(k, size, seed)
    {
      assert t[k] in Elems(t) && SuiteItem(c, heads, size, seed, k);
    }
    forall x | x in out
      ensures x in c && exists i: nat :: i < size - 1 && heads[i] == x
    {
      assert x in Elems(out) && x in Elems(t) && x in t;
      var i: nat :| i < |t| && t[i] == x;
      assert heads[i] == x;
    }
  }

  lemma DistinctNumbers(c: Contents, heads: seq<ListHead>, size: nat, seed: s16, out: seq<ListHead>)
    requires 3 <= size <= |heads| && size / 5 <= 0x7fff && NoDup(heads)
    requires forall k :: 0 <= k < size - 1 ==>
      heads[k] in out && heads[k] in c && c[heads[k]].idx == SuiteIdx(k, size, seed)
    requires forall x, y :: x in out && y in out && x != y ==> x in c && y in c && c[x].idx != c[y].idx
    ensures NumbersDistinct(size, seed)
  {
    hide NumberFor;
    forall i | 1 <= i < size - 2
      ensures NumberFor(i, size, seed) != 0
    {
      assert heads[0] != heads[size - 1 - i];
    }
    forall i, j | 1 <= i < j < size - 2
      ensures NumberFor(i, size, seed) != NumberFor(j, size, seed)
    {
      assert heads[size - 1 - j] != heads[size - 1 - i];
    }
  }

  lemma DistinctIdx(size: nat, seed: s16, i: nat, j: nat)
    requires 3 <= size && size / 5 <= 0x7fff && NumbersDistinct(size, seed) && i < size - 1 && j < size - 1 && i != j
    ensures SuiteIdx(i, size, seed) != SuiteIdx(j, size, seed)
  {
    hide NumberFor;
    if i >= 2 && j >= 2 {
      var a, b := size - 1 - i, size - 1 - j;
      assert NumberFor(a, size, seed) != NumberFor(b, size, seed);
    }
  }

  lemma InitEnd(heads: seq<ListHead>, datas: seq<ListData>, nodes: set<ListHead>, c: Contents, s: seq<ListHead>,
                list: ListHead, out: seq<ListHead>)
    requires |heads| == |datas| >= 2 && nodes == Elems(s) && NoDup(s)
    requires EndIndices(c, s) && s[0] == heads[0] && s[|s| - 1] == heads[1] && c.Keys == nodes
    requires forall n :: n in nodes ==> n in heads && c[n].info in datas
    requires Evolves(ByIndex(true), c, ContentsOf(nodes), [], [])
    requires SortedFrom(ByIndex(true), ContentsOf(nodes), s, out) && Chain(LinksOf(nodes), list, out)
    ensures Elems(out) == nodes && |out| == |s| && NoDup(out)
    ensures IsList(nodes, LinksOf(nodes), list, out)
    ensures forall n :: n in out ==> n in heads && n.info in datas && Intact(n.info.data16)
    ensures ByIdx(ContentsOf(nodes), out)
    ensures list == out[0] == heads[0] && out[|out| - 1] == heads[1]
    ensures heads[0].info.idx == 0 && heads[1].info.idx == 0x7fff
  {
    var d := ContentsOf(nodes);
    forall n | n in nodes
      ensures d[n] == Item(n.info, n.info.data16, n.info.idx)
      ensures d[n].idx == c[n].idx && d[n].info == c[n].info
    {
      assert ItemEvolves(ByIndex(true), c[n], d[n]);
    }
    assert forall i :: 0 <= i < |s| ==> s[i] in nodes;
    EndsStay(d, s, out);
    SortedByIdx(d, PlacesIn(s), out);
    forall n | n in out ensures n in nodes && Intact(n.info.data16) {
      assert n in Elems(out) && Settled(ByIndex(true), d[n]);
    }
  }

  // `core_list_init` on a block of `blksize` bytes whose cells are `heads` and `datas`. The list has one
  // node less than there are cells, starts with the dummy head and ends with the dummy of index 0x7fff;
  // it is in index order and every item equals its backup, as `core_bench_list` expects it.
  method CoreListInit(blksize: nat, heads: seq<ListHead>, datas: seq<ListData>, seed: s16)
    returns (list: ListHead, ghost out: seq<ListHead>)
    requires |heads| == |datas| == Cells(blksize) && DistinctCells(heads, datas)
    requires Cells(blksize) >= 3 && Cells(blksize) / 5 <= 0x7fff
    modifies heads, datas
    ensures |out| == Cells(blksize) - 1
    ensures IsList(Elems(out), LinksOf(Elems(out)), list, out) && Separate(Elems(out))
    ensures forall n :: n in out ==> n in heads && n.info in datas && Intact(n.info.data16)
    ensures ByIdx(ContentsOf(Elems(out)), out)
    ensures list == out[0] == heads[0] && out[|out| - 1] == heads[1]
    ensures heads[0].info.idx == 0 && heads[1].info.idx == 0x7fff
    ensures SuiteContents(ContentsOf(Elems(out)), heads, Cells(blksize), seed)
    ensures NoDup(out) && AllIntact(ContentsOf(Elems(out)))
    ensures StrictlyByIdx(ContentsOf(Elems(out)), out) <==> NumbersDistinct(Cells(blksize), seed)
  {
    hide IsList, Built, SortedFrom, Descending, ByIdx, Evolves, ContentsOf, Separate, Chain, Linked, Elems, NoDup;
    hide DataBuilt, SuiteContents, AllIntact, StrictlyByIdx, NumbersDistinct, NumberFor;
    var size := Cells(blksize);
    var m := BuildAll(size, heads, datas, seed);
    ghost var s, nodes := ListReady(heads, datas, m);
    ghost var c := ContentsOf(nodes);
    BuiltContents(heads, datas, size, seed);
    InitIndices(heads, datas, m, nodes, s);
    list, out := Mergesort(heads[0], Idx, null, nodes, s);
    SortKeepsSuite(c, ContentsOf(nodes), heads, size, seed);
    InitEnd(heads, datas, nodes, c, s, list, out);
    SuiteStrictExactly(ContentsOf(nodes), heads, size, seed, out);
  }

  lemma BuiltFirst(heads: seq<ListHead>, datas: seq<ListData>)
    requires |heads| == |datas| >= 1 && heads[0].next == null && heads[0].info == datas[0] && datas[0].idx == 0
    ensures Built(heads, datas, 1)
  {
    assert heads[0] in Elems(heads);
  }
}
