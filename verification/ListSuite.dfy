// `iterate` of `sw/app/coremark/core_main.c`: the list benchmark over and over on one list, and the
// list that `core_list_init` builds for it.

module ListSuite {
  import opened ListNodes
  import opened ListOrder
  import opened MergeSort
  import opened ListOps
  import opened BenchSearch
  import opened BenchList
  import opened ListInit

  // The nodes form the list `s` from `list` on, and hold `c`.
  ghost predicate Stands(nodes: set<ListHead>, list: ListHead, s: seq<ListHead>, c: Contents)
    reads nodes, set n | n in nodes :: n.info
  {
    IsList(nodes, LinksOf(nodes), list, s) && Elems(s) == nodes && Separate(nodes) && ContentsOf(nodes) == c
  }

  lemma SameInfos(nodes: set<ListHead>, infos: set<ListData>, c: Contents)
    requires ContentsOf(nodes) == c
    ensures infos == (set n | n in c :: c[n].info) <==> infos == Infos(nodes)
  {
    forall n | n in nodes
      ensures c[n].info == n.info
    {
    }
    assert Infos(nodes) == set n | n in c :: c[n].info;
  }

  // One call on a list that is strictly ordered and intact leaves everything as it was.
  method Again(res: CoreResults, finderIdx: s16, ghost nodes: set<ListHead>, ghost s: seq<ListHead>, ghost c: Contents)
    returns (crc: u16)
    requires |s| >= 3 && Stands(nodes, res.list, s, c) && StrictlyByIdx(c, s) && AllIntact(c)
    modifies nodes, Infos(nodes)`data16, res
    ensures res.list == old(res.list) && Stands(nodes, res.list, s, c) && Infos(nodes) == old(Infos(nodes))
  {
    hide IsList, ContentsOf, LinksOf, Separate, Elems, StrictlyByIdx, AllIntact, Outcome, RebuiltAll, ByIdx;
    SameInfos(nodes, Infos(nodes), c);
    ghost var list, out, tr;
    crc, list, out, tr := CoreBenchList(res, finderIdx, nodes, s);
    SameInfos(nodes, Infos(nodes), c);
  }

  // The body of that loop.
  method BothCalls(res: CoreResults, first: bool, ghost nodes: set<ListHead>, ghost s: seq<ListHead>, ghost c: Contents)
    requires |s| >= 3 && Stands(nodes, res.list, s, c) && StrictlyByIdx(c, s) && AllIntact(c)
    modifies nodes, Infos(nodes)`data16, res
    ensures res.list == old(res.list) && Stands(nodes, res.list, s, c) && Infos(nodes) == old(Infos(nodes))
  {
    hide Stands, StrictlyByIdx, AllIntact, Infos;
    var crc := Again(res, 1, nodes, s, c);
    res.crc := Crcu16(crc, res.crc);
    crc := Again(res, -1, nodes, s, c);
    res.crc := Crcu16(crc, res.crc);
    if first {
      res.crclist := res.crc;
    }
  }

  // The loop of `iterate`: two calls a turn, and the list is the same list at every turn.
  method Iterate(res: CoreResults, iterations: nat, ghost nodes: set<ListHead>, ghost s: seq<ListHead>,
                 ghost c: Contents)
    requires |s| >= 3 && Stands(nodes, res.list, s, c) && StrictlyByIdx(c, s) && AllIntact(c)
    modifies nodes, Infos(nodes)`data16, res
    ensures res.list == old(res.list) && Stands(nodes, res.list, s, c)
  {
    hide Stands, StrictlyByIdx, AllIntact, Infos;
    res.crc := 0;
    res.crclist := 0;
    res.crcmatrix := 0;
    res.crcstate := 0;
    var i := 0;
    while i < iterations
      invariant res.list == old(res.list) && Stands(nodes, res.list, s, c) && Infos(nodes) == old(Infos(nodes))
    {
      BothCalls(res, i == 0, nodes, s, c);
      i := i + 1;
    }
  }

  // What the sorted list was built from.
  lemma InCells(heads: seq<ListHead>, datas: seq<ListData>, out: seq<ListHead>)
    requires forall n :: n in out ==> n in heads && n.info in datas
    ensures forall n :: n in Elems(out) ==> n in heads
    ensures forall p :: p in Infos(Elems(out)) ==> p in datas
  {
  }

  // The list benchmark from its memory block: when the mixed numbers are distinct, the list that
  // `core_list_init` built is there, node for node and datum for datum, after any number of turns.
  method Suite(blksize: nat, heads: seq<ListHead>, datas: seq<ListData>, seed: s16, seed3: s16, iterations: nat)
    returns (res: CoreResults, ghost out: seq<ListHead>, ghost c: Contents)
    requires |heads| == |datas| == Cells(blksize) && DistinctCells(heads, datas)
    requires Cells(blksize) >= 4 && Cells(blksize) / 5 <= 0x7fff && NumbersDistinct(Cells(blksize), seed)
    modifies heads, datas
    ensures |out| == Cells(blksize) - 1 && Stands(Elems(out), res.list, out, c)
    ensures res.list == out[0] == heads[0] && out[|out| - 1] == heads[1]
    ensures SuiteContents(c, heads, Cells(blksize), seed) && StrictlyByIdx(c, out)
  {
    hide IsList, ContentsOf, LinksOf, Separate, Elems, StrictlyByIdx, AllIntact, SuiteContents, NumbersDistinct;
    hide ByIdx, Infos;
    var list;
    list, out := CoreListInit(blksize, heads, datas, seed);
    c := ContentsOf(Elems(out));
    InCells(heads, datas, out);
    assert Stands(Elems(out), list, out, c);
    hide Stands;
    res := new CoreResults(list, seed3, 0);
    Iterate(res, iterations, Elems(out), out, c);
  }
}
