// `core_list_mergesort` of `sw/app/coremark/core_list_join.c`: the in-place, bottom-up mergesort on
// linked nodes, with comparators that rewrite the data they compare.
//
// The nested loops of the source are kept; each loop is a method of its own, so that its invariant
// can be stated about the sequences of nodes it handles.

module MergeSort {
  import opened ListNodes
  import opened ListOrder

  // ---- Linked structure ----

  // The `next` pointers of the nodes of a list.
  type Links = map<ListHead, ListHead?>

  ghost function LinksOf(nodes: set<ListHead>): (nx: Links)
    reads nodes
    ensures nx.Keys == nodes
  {
    map n | n in nodes :: n.next
  }

  // Every node of `s` points to the next one.
  ghost predicate Linked(nx: Links, s: seq<ListHead>) {
    forall i :: 0 <= i < |s| - 1 ==> s[i] in nx && nx[s[i]] == s[i + 1]
  }

  // `p` is the head of a NULL-terminated list made of exactly the nodes `s`.
  ghost predicate Chain(nx: Links, p: ListHead?, s: seq<ListHead>) {
    && Linked(nx, s)
    && (if s == [] then p == null else p == s[0] && s[|s| - 1] in nx && nx[s[|s| - 1]] == null)
  }

  ghost function Infos(nodes: set<ListHead>): set<ListData>
    reads nodes
  {
    set n | n in nodes :: n.info
  }

  // No two nodes share a data record.
  ghost predicate Separate(nodes: set<ListHead>)
    reads nodes
  {
    forall x, y :: x in nodes && y in nodes && x != y ==> x.info != y.info
  }

  ghost function ContentsOf(nodes: set<ListHead>): (c: Contents)
    reads nodes, set n | n in nodes :: n.info
    ensures c.Keys == nodes
  {
    map n | n in nodes :: Item(n.info, n.info.data16, n.info.idx)
  }

  ghost function Log(res: CoreResults?): seq<ListData>
    reads res
  {
    if res == null then [] else res.computed
  }

  // ---- The comparator argument ----

  datatype Comparator = Complex | Idx

  ghost function OrderOf(cmp: Comparator, res: CoreResults?): Order {
    if cmp == Complex then ByValue else ByIndex(res == null)
  }

  // The call through the function pointer: what one comparison does to the contents, and what it answers.
  method Compare(cmp: Comparator, p: ListHead, q: ListHead, res: CoreResults?, ghost nodes: set<ListHead>)
    returns (r: int)
    requires cmp == Complex ==> res != null
    requires p in nodes && q in nodes && p != q && Separate(nodes)
    modifies Infos(nodes)`data16, res
    ensures res != null ==> res.list == old(res.list) && res.seed3 == old(res.seed3)
    ensures var o, c := OrderOf(cmp, res), ContentsOf(nodes);
      && Evolves(o, old(ContentsOf(nodes)), c, old(Log(res)), Log(res))
      && Settled(o, c[p]) && Settled(o, c[q])
      && (r <= 0 <==> Key(o, c[p]) <= Key(o, c[q]))
    ensures LinksOf(nodes) == old(LinksOf(nodes)) && Separate(nodes)
  {
    hide Evolves, ItemEvolves, Upper, Cached, Value, Regenerated, Settled, Fresh;
    ghost var c0, log0 := ContentsOf(nodes), Log(res);
    ghost var x, y := c0[p], c0[q];
    if cmp == Complex {
      r := CmpComplex(p.info, q.info, res);
      ComputedEvolves(x, Item(p.info, p.info.data16, p.info.idx));
      ComputedEvolves(y, Item(q.info, q.info.data16, q.info.idx));
      assert Log(res) == log0 + (Fresh(x.data, x.info) + Fresh(y.data, y.info));
    } else {
      r := CmpIdx(p.info, q.info, res);
      RebuiltEvolves(x, Item(p.info, p.info.data16, p.info.idx), res == null);
      RebuiltEvolves(y, Item(q.info, q.info.data16, q.info.idx), res == null);
      assert Log(res) == log0 + [];
    }
    ghost var c := ContentsOf(nodes);
    forall z | z in nodes && z != p && z != q
      ensures c[z] == c0[z] && c0[z].info != x.info && c0[z].info != y.info
    {
    }
    PairEvolves(OrderOf(cmp, res), c0, c, p, q, log0, Log(res));
  }

  // ---- One merge ----

  function Min(a: nat, b: nat): nat { if a < b then a else b }

  // `list` and `tail` are the two ends of the output built so far (NULL while it is empty).
  ghost predicate Output(nx: Links, list: ListHead?, tail: ListHead?, out: seq<ListHead>) {
    && Linked(nx, out)
    && (if out == [] then list == null && tail == null else list == out[0] && tail == out[|out| - 1])
  }

  // Output, first run and the rest of the list share no node, and all belong to the list.
  ghost predicate Apart(nodes: set<ListHead>, out: seq<ListHead>, p: seq<ListHead>, q: seq<ListHead>) {
    && NoDup(out) && NoDup(p) && NoDup(q)
    && Elems(out) !! Elems(p) && Elems(out) !! Elems(q) && Elems(p) !! Elems(q)
    && Elems(out) + Elems(p) + Elems(q) == nodes
  }

  lemma ApartFirst(nodes: set<ListHead>, out: seq<ListHead>, p: seq<ListHead>, q: seq<ListHead>)
    requires Apart(nodes, out, p, q) && p != []
    ensures Apart(nodes, out + [p[0]], p[1..], q)
  {
    PopElems(p);
    PushElems(out, p[0]);
  }

  lemma ApartSecond(nodes: set<ListHead>, out: seq<ListHead>, p: seq<ListHead>, q: seq<ListHead>)
    requires Apart(nodes, out, p, q) && q != []
    ensures Apart(nodes, out + [q[0]], p, q[1..])
  {
    PopElems(q);
    PushElems(out, q[0]);
  }

  // The links between two steps of a merge: the output, what is left of run `pp`, and the list from `q` on.
  ghost predicate Shape(nodes: set<ListHead>, nx: Links, list: ListHead?, tail: ListHead?, out: seq<ListHead>,
                        p: ListHead?, pp: seq<ListHead>, q: ListHead?, qq: seq<ListHead>)
  {
    && nx.Keys == nodes
    && Apart(nodes, out, pp, qq)
    && Output(nx, list, tail, out)
    && Linked(nx, pp) && (pp != [] ==> p == pp[0])
    && Chain(nx, q, qq)
  }

  lemma ShapeFacts(nodes: set<ListHead>, nx: Links, list: ListHead?, tail: ListHead?, out: seq<ListHead>,
                   p: ListHead?, pp: seq<ListHead>, q: ListHead?, qq: seq<ListHead>)
    requires Shape(nodes, nx, list, tail, out, p, pp, q, qq)
    ensures Elems(pp) <= nodes && Elems(qq) <= nodes && Elems(pp) !! Elems(qq)
    ensures (pp != [] ==> p == pp[0]) && (if qq == [] then q == null else q == qq[0])
    ensures tail != null ==> tail in nodes
  {
    assert tail != null ==> tail in Elems(out);
  }

  // The links after `e` has been hung to the end of the output.
  ghost function Hang(nx: Links, tail: ListHead?, e: ListHead): Links {
    if tail == null then nx else nx[tail := e]
  }

  lemma HangKeeps(nx: Links, out: seq<ListHead>, e: ListHead, s: seq<ListHead>)
    requires Linked(nx, s) && out != [] && Elems(out) !! Elems(s)
    ensures Linked(nx[out[|out| - 1] := e], s)
    ensures s != [] && s[|s| - 1] in nx ==> nx[out[|out| - 1] := e][s[|s| - 1]] == nx[s[|s| - 1]]
  {
    assert out[|out| - 1] in Elems(out);
    assert forall i :: 0 <= i < |s| ==> s[i] in Elems(s);
  }

  lemma HangOutput(nx: Links, list: ListHead?, tail: ListHead?, out: seq<ListHead>, e: ListHead)
    requires Output(nx, list, tail, out) && NoDup(out)
    ensures Output(Hang(nx, tail, e), if tail == null then e else list, e, out + [e])
  {
    if out != [] {
      assert forall i :: 0 <= i < |out| - 1 ==> out[i] != tail;
    }
  }

  lemma ShapeFirst(nodes: set<ListHead>, nx: Links, list: ListHead?, tail: ListHead?, out: seq<ListHead>,
                   p: ListHead?, pp: seq<ListHead>, q: ListHead?, qq: seq<ListHead>)
    requires nx.Keys == nodes && Shape(nodes, nx, list, tail, out, p, pp, q, qq) && pp != []
    ensures p != null && p in nodes && p == pp[0]
    ensures Shape(nodes, Hang(nx, tail, p), if tail == null then p else list, p, out + [p], nx[p], pp[1..], q, qq)
  {
    assert p in Elems(pp);
    ApartFirst(nodes, out, pp, qq);
    HangOutput(nx, list, tail, out, p);
    if out != [] {
      assert out[|out| - 1] in Elems(out);
      HangKeeps(nx, out, p, pp);
      HangKeeps(nx, out, p, qq);
    }
  }

  lemma ShapeSecond(nodes: set<ListHead>, nx: Links, list: ListHead?, tail: ListHead?, out: seq<ListHead>,
                    p: ListHead?, pp: seq<ListHead>, q: ListHead?, qq: seq<ListHead>)
    requires nx.Keys == nodes && Shape(nodes, nx, list, tail, out, p, pp, q, qq) && qq != []
    ensures q != null && q in nodes && q == qq[0]
    ensures Shape(nodes, Hang(nx, tail, q), if tail == null then q else list, q, out + [q], p, pp, nx[q], qq[1..])
  {
    assert q in Elems(qq);
    ApartSecond(nodes, out, pp, qq);
    HangOutput(nx, list, tail, out, q);
    if out != [] {
      assert out[|out| - 1] in Elems(out);
      HangKeeps(nx, out, q, pp);
      HangKeeps(nx, out, q, qq);
    }
  }

  // Hangs `e` to the end of the output.
  method Append(list0: ListHead?, tail: ListHead?, e: ListHead, ghost nodes: set<ListHead>) returns (list: ListHead?)
    requires tail != null ==> tail in nodes
    modifies nodes`next
    ensures LinksOf(nodes) == Hang(old(LinksOf(nodes)), tail, e)
    ensures list == if tail == null then e else list0
    ensures ContentsOf(nodes) == old(ContentsOf(nodes)) && Separate(nodes) == old(Separate(nodes))
  {
    if tail != null {
      tail.next := e;
      list := list0;
    } else {
      list := e;
    }
  }

  // The values between two steps of a merge of the runs `ps` and `qs`.
  ghost predicate Progress(o: Order, c: Contents, pos: Positions, ps: seq<ListHead>, qs: seq<ListHead>,
                           merged: seq<ListHead>, pp: seq<ListHead>, qr: seq<ListHead>)
  {
    && Merging(o, c, pos, merged, pp, qr)
    && |merged| + |pp| + |qr| == |ps| + |qs|
    && Elems(merged) + Elems(pp) + Elems(qr) == Elems(ps) + Elems(qs)
  }

  lemma ProgressFirst(o: Order, c: Contents, pos: Positions, ps: seq<ListHead>, qs: seq<ListHead>,
                      merged: seq<ListHead>, pp: seq<ListHead>, qr: seq<ListHead>)
    requires Progress(o, c, pos, ps, qs, merged, pp, qr) && FirstIsNext(o, c, pp, qr)
    ensures Progress(o, c, pos, ps, qs, merged + [pp[0]], pp[1..], qr)
  {
    TakeFirst(o, c, pos, merged, pp, qr);
    assert pp == [pp[0]] + pp[1..];
  }

  lemma ProgressSecond(o: Order, c: Contents, pos: Positions, ps: seq<ListHead>, qs: seq<ListHead>,
                       merged: seq<ListHead>, pp: seq<ListHead>, qr: seq<ListHead>)
    requires Progress(o, c, pos, ps, qs, merged, pp, qr) && SecondIsNext(o, c, pp, qr)
    ensures Progress(o, c, pos, ps, qs, merged + [qr[0]], pp, qr[1..])
  {
    TakeSecond(o, c, pos, merged, pp, qr);
    assert qr == [qr[0]] + qr[1..];
  }

  // What is left of the second run: at most `qsize` nodes from the front of the rest of the list.
  function Rest(qq: seq<ListHead>, qsize: nat): seq<ListHead> {
    qq[..Min(qsize, |qq|)]
  }

  // What one merge starts from: the contents and the history before it, the old places, and the two runs.
  datatype Task = Task(c0: Contents, log0: seq<ListData>, pos: Positions,
                       ps: seq<ListHead>, qs: seq<ListHead>, insize: nat)
  {
    // The second run: at most `insize` nodes of what follows the first.
    function Second(): seq<ListHead> { Rest(qs, insize) }
  }

  // How far it is: the merged nodes, and what is left of the first run and of the list behind it.
  datatype Left = Left(merged: seq<ListHead>, pp: seq<ListHead>, qq: seq<ListHead>) {
    function TookFirst(): Left
      requires pp != []
    {
      Left(merged + [pp[0]], pp[1..], qq)
    }

    function TookSecond(): Left
      requires qq != []
    {
      Left(merged + [qq[0]], pp, qq[1..])
    }
  }

  // The value part of the loop invariant.
  ghost predicate Values(o: Order, m: Task, c: Contents, log: seq<ListData>, w: Left, qsize: nat) {
    && qsize <= m.insize && m.insize - qsize <= |m.qs| && w.qq == m.qs[m.insize - qsize..]
    && Progress(o, c, m.pos, m.ps, m.Second(), w.merged, w.pp, Rest(w.qq, qsize))
    && Evolves(o, m.c0, c, m.log0, log)
  }

  // The merge may take the next node of the first run: the second is used up, or loses the comparison.
  ghost predicate FirstIsNext(o: Order, c: Contents, pp: seq<ListHead>, qr: seq<ListHead>) {
    pp != [] && pp[0] in c &&
    (qr == [] || (qr[0] in c && Settled(o, c[pp[0]]) && Settled(o, c[qr[0]]) && Key(o, c[pp[0]]) <= Key(o, c[qr[0]])))
  }

  ghost predicate SecondIsNext(o: Order, c: Contents, pp: seq<ListHead>, qr: seq<ListHead>) {
    qr != [] && qr[0] in c &&
    (pp == [] || (pp[0] in c && Settled(o, c[pp[0]]) && Settled(o, c[qr[0]]) && Key(o, c[qr[0]]) < Key(o, c[pp[0]])))
  }

  lemma ValuesFirst(o: Order, m: Task, c: Contents, log: seq<ListData>, w: Left, qsize: nat)
    requires Values(o, m, c, log, w, qsize) && FirstIsNext(o, c, w.pp, Rest(w.qq, qsize))
    ensures w.pp != [] && Values(o, m, c, log, w.TookFirst(), qsize)
  {
    hide Progress, Evolves, Settled, Key;
    ProgressFirst(o, c, m.pos, m.ps, m.Second(), w.merged, w.pp, Rest(w.qq, qsize));
  }

  lemma ValuesSecond(o: Order, m: Task, c: Contents, log: seq<ListData>, w: Left, qsize: nat)
    requires Values(o, m, c, log, w, qsize) && SecondIsNext(o, c, w.pp, Rest(w.qq, qsize))
    ensures w.qq != [] && qsize > 0 && Values(o, m, c, log, w.TookSecond(), qsize - 1)
  {
    hide Progress, Evolves, Settled, Key;
    ProgressSecond(o, c, m.pos, m.ps, m.Second(), w.merged, w.pp, Rest(w.qq, qsize));
    assert Rest(w.qq, qsize)[1..] == Rest(w.qq[1..], qsize - 1) && Rest(w.qq, qsize)[0] == w.qq[0];
    assert w.qq[1..] == m.qs[m.insize - qsize + 1..];
  }

  lemma ValuesStart(o: Order, m: Task, base: nat)
    requires var c, ps, r := m.c0, m.ps, m.Second();
      && ps != [] && RunOk(o, c, m.pos, ps) && From(m.pos, ps, base, base + |ps|)
      && RunOk(o, c, m.pos, r) && From(m.pos, r, base + |ps|, base + |ps| + |r|)
    ensures Values(o, m, m.c0, m.log0, Left([], m.ps, m.qs), m.insize)
  {
    EvolvesRefl(o, m.c0, m.log0);
    var mid := base + |m.ps|;
    MergeStart(o, m.c0, m.pos, m.ps, m.Second(), base, mid, mid + |m.Second()|);
  }

  lemma ValuesEnd(o: Order, m: Task, c: Contents, log: seq<ListData>, w: Left, qsize: nat)
    requires Values(o, m, c, log, w, qsize) && w.pp == [] && (qsize == 0 || w.qq == [])
    ensures var r := m.Second();
      && |w.merged| == |m.ps| + |r| && Elems(w.merged) == Elems(m.ps) + Elems(r)
      && RunOk(o, c, m.pos, w.merged) && Evolves(o, m.c0, c, m.log0, log)
      && w.qq == m.qs[|r|..]
  {
    assert Rest(w.qq, qsize) == [];
    MergeEnd(o, c, m.pos, w.merged);
  }

  lemma ShapeEnd(nodes: set<ListHead>, nx: Links, list: ListHead?, tail: ListHead?, out: seq<ListHead>,
                 p: ListHead?, q: ListHead?, qq: seq<ListHead>)
    requires Shape(nodes, nx, list, tail, out, p, [], q, qq)
    ensures Shape(nodes, nx, list, tail, out, null, [], q, qq) && (q == null <==> qq == [])
  {
  }

  // Which run does the next node come from?
  method Decide(cmp: Comparator, res: CoreResults?, p: ListHead?, psize: nat, q: ListHead?, qsize: nat,
                ghost nodes: set<ListHead>, ghost m: Task, ghost w: Left)
    returns (first: bool)
    requires cmp == Complex ==> res != null
    requires Separate(nodes) && Elems(w.pp) <= nodes && Elems(w.qq) <= nodes && Elems(w.pp) !! Elems(w.qq)
    requires psize == |w.pp| && (w.pp != [] ==> p == w.pp[0]) && (if w.qq == [] then q == null else q == w.qq[0])
    requires psize > 0 || (qsize > 0 && q != null)
    requires Values(OrderOf(cmp, res), m, ContentsOf(nodes), Log(res), w, qsize)
    modifies Infos(nodes)`data16, res
    ensures res != null ==> res.list == old(res.list) && res.seed3 == old(res.seed3)
    ensures var o, c := OrderOf(cmp, res), ContentsOf(nodes);
      && Values(o, m, c, Log(res), w, qsize)
      && (if first then FirstIsNext(o, c, w.pp, Rest(w.qq, qsize)) else SecondIsNext(o, c, w.pp, Rest(w.qq, qsize)))
    ensures LinksOf(nodes) == old(LinksOf(nodes)) && Separate(nodes)
  {
    if psize == 0 {
      first := false;
    } else if qsize == 0 || q == null {
      first := true;
    } else {
      ghost var o, c, log := OrderOf(cmp, res), ContentsOf(nodes), Log(res);
      assert p in Elems(w.pp) && q in Elems(w.qq);
      var r := Compare(cmp, p, q, res, nodes);
      MergeEvolves(o, c, ContentsOf(nodes), log, Log(res), m.pos, w.merged, w.pp, Rest(w.qq, qsize));
      EvolvesTrans(o, m.c0, c, ContentsOf(nodes), m.log0, log, Log(res));
      first := r <= 0;
    }
  }

  // Everything the invariant needs when the next node comes from the first run.
  lemma FirstTurn(o: Order, m: Task, c: Contents, log: seq<ListData>, w: Left, qsize: nat,
                  nodes: set<ListHead>, nx: Links, list: ListHead?, tail: ListHead?, p: ListHead?, q: ListHead?,
                  out: seq<ListHead>)
    requires Shape(nodes, nx, list, tail, out + w.merged, p, w.pp, q, w.qq)
    requires Values(o, m, c, log, w, qsize) && FirstIsNext(o, c, w.pp, Rest(w.qq, qsize)) && nx.Keys == nodes
    ensures w.pp != [] && p != null && p in nodes
    ensures var w', list' := w.TookFirst(), if tail == null then p else list;
      && Shape(nodes, Hang(nx, tail, p), list', p, out + w'.merged, nx[p], w'.pp, q, w'.qq)
      && Values(o, m, c, log, w', qsize)
  {
    hide Shape, Values, FirstIsNext, SecondIsNext, Rest, Hang;
    ValuesFirst(o, m, c, log, w, qsize);
    ShapeFirst(nodes, nx, list, tail, out + w.merged, p, w.pp, q, w.qq);
    assert (out + w.merged) + [p] == out + (w.merged + [p]);
  }

  lemma SecondTurn(o: Order, m: Task, c: Contents, log: seq<ListData>, w: Left, qsize: nat,
                   nodes: set<ListHead>, nx: Links, list: ListHead?, tail: ListHead?, p: ListHead?, q: ListHead?,
                   out: seq<ListHead>)
    requires Shape(nodes, nx, list, tail, out + w.merged, p, w.pp, q, w.qq)
    requires Values(o, m, c, log, w, qsize) && SecondIsNext(o, c, w.pp, Rest(w.qq, qsize)) && nx.Keys == nodes
    ensures w.qq != [] && qsize > 0 && q != null && q in nodes
    ensures var w', list' := w.TookSecond(), if tail == null then q else list;
      && Shape(nodes, Hang(nx, tail, q), list', q, out + w'.merged, p, w'.pp, nx[q], w'.qq)
      && Values(o, m, c, log, w', qsize - 1)
  {
    hide Shape, Values, FirstIsNext, SecondIsNext, Rest, Hang;
    ValuesSecond(o, m, c, log, w, qsize);
    ShapeSecond(nodes, nx, list, tail, out + w.merged, p, w.pp, q, w.qq);
    assert (out + w.merged) + [q] == out + (w.merged + [q]);
  }

  // One iteration of the innermost loop.
  method Turn(cmp: Comparator, res: CoreResults?, list0: ListHead?, tail0: ListHead?,
              p0: ListHead?, psize0: nat, q0: ListHead?, qsize0: nat,
              ghost nodes: set<ListHead>, ghost m: Task, ghost out: seq<ListHead>, ghost w0: Left)
    returns (list: ListHead?, tail: ListHead?, p: ListHead?, psize: nat, q: ListHead?, qsize: nat, ghost w: Left)
    requires cmp == Complex ==> res != null
    requires Separate(nodes) && Shape(nodes, LinksOf(nodes), list0, tail0, out + w0.merged, p0, w0.pp, q0, w0.qq)
    requires psize0 == |w0.pp| && (psize0 > 0 || (qsize0 > 0 && q0 != null))
    requires Values(OrderOf(cmp, res), m, ContentsOf(nodes), Log(res), w0, qsize0)
    modifies nodes`next, Infos(nodes)`data16, res
    ensures res != null ==> res.list == old(res.list) && res.seed3 == old(res.seed3)
    ensures psize == |w.pp| && psize + qsize < psize0 + qsize0 && Separate(nodes)
    ensures Shape(nodes, LinksOf(nodes), list, tail, out + w.merged, p, w.pp, q, w.qq)
    ensures Values(OrderOf(cmp, res), m, ContentsOf(nodes), Log(res), w, qsize)
  {
    list, tail, p, psize, q, qsize, w := list0, tail0, p0, psize0, q0, qsize0, w0;
    hide Shape, Separate, Values, FirstIsNext, SecondIsNext, Rest, ContentsOf, Elems, Hang, OrderOf;
    ghost var o, nx := OrderOf(cmp, res), LinksOf(nodes);
    ShapeFacts(nodes, nx, list, tail, out + w.merged, p, w.pp, q, w.qq);
    var first := Decide(cmp, res, p, psize, q, qsize, nodes, m, w);
    ghost var c, log := ContentsOf(nodes), Log(res);
    var e: ListHead;
    if first {
      FirstTurn(o, m, c, log, w, qsize, nodes, nx, list, tail, p, q, out);
      e := p;
      p := p.next;
      psize := psize - 1;
      w := w.TookFirst();
    } else {
      SecondTurn(o, m, c, log, w, qsize, nodes, nx, list, tail, p, q, out);
      e := q;
      q := q.next;
      qsize := qsize - 1;
      w := w.TookSecond();
    }
    list := Append(list, tail, e, nodes);
    tail := e;
  }

  // The innermost loop: merges the run `ps` (at `p`, `psize` nodes) with the first `insize` nodes of
  // `qs` (at `q`), appending to the output. Leaves `q` at the first node after both runs.
  method Merge(cmp: Comparator, res: CoreResults?, insize: nat, p0: ListHead, psize0: nat, q0: ListHead?,
               list0: ListHead?, tail0: ListHead?,
               ghost nodes: set<ListHead>, ghost pos: Positions, ghost base: nat,
               ghost out: seq<ListHead>, ghost ps: seq<ListHead>, ghost qs: seq<ListHead>)
    returns (q: ListHead?, list: ListHead?, tail: ListHead?, ghost merged: seq<ListHead>)
    requires cmp == Complex ==> res != null
    requires Separate(nodes) && Shape(nodes, LinksOf(nodes), list0, tail0, out, p0, ps, q0, qs)
    requires 0 < psize0 == |ps|
    requires var o, c, r := OrderOf(cmp, res), ContentsOf(nodes), Rest(qs, insize);
      && RunOk(o, c, pos, ps) && From(pos, ps, base, base + |ps|)
      && RunOk(o, c, pos, r) && From(pos, r, base + |ps|, base + |ps| + |r|)
    modifies nodes`next, Infos(nodes)`data16, res
    ensures res != null ==> res.list == old(res.list) && res.seed3 == old(res.seed3)
    ensures var o, c, r := OrderOf(cmp, res), ContentsOf(nodes), Rest(qs, insize);
      && Evolves(o, old(ContentsOf(nodes)), c, old(Log(res)), Log(res))
      && Separate(nodes)
      && |merged| == |ps| + |r| && Elems(merged) == Elems(ps) + Elems(r)
      && RunOk(o, c, pos, merged)
      && Shape(nodes, LinksOf(nodes), list, tail, out + merged, null, [], q, qs[|r|..])
  {
    hide Shape, Values, Evolves, Separate, Progress, Settled, Key, RunOk, From, Merging;
    ghost var o, m := OrderOf(cmp, res), Task(ContentsOf(nodes), Log(res), pos, ps, qs, insize);
    var p: ListHead? := p0;
    var psize: nat, qsize: nat := psize0, insize;
    q, list, tail := q0, list0, tail0;
    ghost var w := Left([], ps, qs);
    assert out + w.merged == out;
    ValuesStart(o, m, base);
    while psize > 0 || (qsize > 0 && q != null)
      invariant psize == |w.pp| && Separate(nodes)
      invariant Shape(nodes, LinksOf(nodes), list, tail, out + w.merged, p, w.pp, q, w.qq)
      invariant Values(o, m, ContentsOf(nodes), Log(res), w, qsize)
      invariant res != null ==> res.list == old(res.list) && res.seed3 == old(res.seed3)
      decreases psize + qsize
    {
      list, tail, p, psize, q, qsize, w := Turn(cmp, res, list, tail, p, psize, q, qsize, nodes, m, out, w);
    }
    merged := w.merged;
    ShapeEnd(nodes, LinksOf(nodes), list, tail, out + merged, p, q, w.qq);
    ValuesEnd(o, m, ContentsOf(nodes), Log(res), w, qsize);
  }

  // ---- One pass over the list ----

  // Steps at most `insize` places along the list; `psize` is the number of places.
  method StepAlong(p: ListHead, insize: nat, ghost nodes: set<ListHead>, ghost rest: seq<ListHead>)
    returns (q: ListHead?, psize: nat)
    requires insize > 0 && rest != [] && Elems(rest) <= nodes && Chain(LinksOf(nodes), p, rest)
    ensures psize == Min(insize, |rest|)
    ensures Chain(LinksOf(nodes), q, rest[psize..])
  {
    q := p;
    psize := 0;
    var i := 0;
    while i < insize
      invariant 0 <= i <= insize && psize == i && psize < |rest| && q == rest[psize]
    {
      assert rest[psize] in Elems(rest);
      assert q.next == if psize + 1 < |rest| then rest[psize + 1] else null;
      psize := psize + 1;
      q := q.next;
      i := i + 1;
      if q == null {
        assert psize == |rest|;
        break;
      }
    }
  }

  // Between two merges of a pass: full runs of twice the size so far, runs of the old size to come.
  ghost predicate PassValues(o: Order, c0: Contents, c: Contents, log0: seq<ListData>, log: seq<ListData>,
                             pos: Positions,
                             insize: nat, out: seq<ListHead>, rest: seq<ListHead>)
    requires insize > 0
  {
    && Evolves(o, c0, c, log0, log)
    && (if rest == [] && out != [] then Runs(o, c, pos, out, 2 * insize, 0)
        else FullRuns(o, c, pos, out, 2 * insize, 0))
    && Runs(o, c, pos, rest, insize, |out|)
  }

  lemma PassSplit(o: Order, c0: Contents, c: Contents, log0: seq<ListData>, log: seq<ListData>, pos: Positions,
                  insize: nat, out: seq<ListHead>, rest: seq<ListHead>, ps: seq<ListHead>, qs: seq<ListHead>)
    requires insize > 0 && rest != [] && PassValues(o, c0, c, log0, log, pos, insize, out, rest)
    requires rest == ps + qs && |ps| == Min(insize, |rest|)
    ensures var r := Rest(qs, insize);
      && RunOk(o, c, pos, ps) && From(pos, ps, |out|, |out| + |ps|)
      && RunOk(o, c, pos, r) && From(pos, r, |out| + |ps|, |out| + |ps| + |r|)
      && Runs(o, c, pos, qs[|r|..], insize, |out| + |ps| + |r|)
  {
    var r := Rest(qs, insize);
    assert rest == ps + r + qs[|r|..];
    TwoRuns(o, c, pos, rest, insize, |out|, ps, r, qs[|r|..]);
  }

  lemma PassJoin(o: Order, c0: Contents, c: Contents, d: Contents, log0: seq<ListData>, log: seq<ListData>,
                 log': seq<ListData>,
                 pos: Positions, insize: nat, out: seq<ListHead>, rest: seq<ListHead>,
                 ps: seq<ListHead>, qs: seq<ListHead>, merged: seq<ListHead>)
    requires insize > 0 && rest != [] && PassValues(o, c0, c, log0, log, pos, insize, out, rest)
    requires rest == ps + qs && |ps| == Min(insize, |rest|)
    requires Evolves(o, c, d, log, log') && RunOk(o, d, pos, merged)
    requires var r := Rest(qs, insize); |merged| == |ps| + |r| && Elems(merged) == Elems(ps) + Elems(r)
    ensures PassValues(o, c0, d, log0, log', pos, insize, out + merged, qs[|Rest(qs, insize)|..])
  {
    hide RunOk, Runs, FullRuns, Evolves, From, Elems;
    var r := Rest(qs, insize);
    PassSplit(o, c0, c, log0, log, pos, insize, out, rest, ps, qs);
    assert Evolves(o, c0, d, log0, log') by {
      EvolvesTrans(o, c0, c, d, log0, log, log');
    }
    assert FullRuns(o, d, pos, out, 2 * insize, 0) by {
      FullRunsStay(o, c, d, log, log', pos, out, 2 * insize, 0);
    }
    assert Runs(o, d, pos, qs[|r|..], insize, |out + merged|) by {
      RunsStay(o, c, d, log, log', pos, qs[|r|..], insize, |out| + |ps| + |r|);
      assert |out + merged| == |out| + |ps| + |r|;
    }
    FromMerged(pos, merged, ps, r, |out|);
    MergedSize(insize, rest, ps, qs);
    AppendRun(o, d, pos, out, merged, 2 * insize, 0);
  }

  lemma MergedSize(insize: nat, rest: seq<ListHead>, ps: seq<ListHead>, qs: seq<ListHead>)
    requires insize > 0 && rest != [] && rest == ps + qs && |ps| == Min(insize, |rest|)
    ensures var r := Rest(qs, insize);
      && 0 < |ps| + |r| <= 2 * insize
      && (qs[|r|..] != [] ==> |ps| + |r| == 2 * insize)
  {
  }

  lemma FromMerged(pos: Positions, merged: seq<ListHead>, ps: seq<ListHead>, r: seq<ListHead>, base: nat)
    requires From(pos, ps, base, base + |ps|) && From(pos, r, base + |ps|, base + |ps| + |r|)
    requires |merged| == |ps| + |r| && Elems(merged) == Elems(ps) + Elems(r)
    ensures From(pos, merged, base, base + |merged|)
  {
    assert forall x :: x in merged ==> x in Elems(merged);
  }

  // The links of the list, seen as a first run and the rest.
  lemma ShapeSplit(nodes: set<ListHead>, nx: Links, list: ListHead?, tail: ListHead?, out: seq<ListHead>,
                   p: ListHead?, rest: seq<ListHead>, q: ListHead?, n: nat)
    requires Shape(nodes, nx, list, tail, out, null, [], p, rest)
    requires 0 < n <= |rest| && Chain(nx, q, rest[n..])
    ensures Shape(nodes, nx, list, tail, out, p, rest[..n], q, rest[n..])
  {
    hide Apart, Linked;
    ApartSplit(nodes, out, rest, n);
    LinkedPrefix(nx, rest, n);
  }

  lemma ApartSplit(nodes: set<ListHead>, out: seq<ListHead>, rest: seq<ListHead>, n: nat)
    requires n <= |rest| && Apart(nodes, out, [], rest)
    ensures Apart(nodes, out, rest[..n], rest[n..])
  {
    assert rest == rest[..n] + rest[n..];
    ElemsConcat(rest[..n], rest[n..]);
    assert Elems([]) == {};
  }

  lemma LinkedPrefix(nx: Links, s: seq<ListHead>, n: nat)
    requires n <= |s| && Linked(nx, s)
    ensures Linked(nx, s[..n])
  {
  }

  lemma PassStart(o: Order, c: Contents, log: seq<ListData>, pos: Positions, insize: nat,
                  nodes: set<ListHead>, nx: Links, p: ListHead?, cur: seq<ListHead>)
    requires insize > 0 && Runs(o, c, pos, cur, insize, 0)
    requires nx.Keys == nodes && NoDup(cur) && Elems(cur) == nodes && Chain(nx, p, cur)
    ensures PassValues(o, c, c, log, log, pos, insize, [], cur)
    ensures Shape(nodes, nx, null, null, [], null, [], p, cur)
  {
    EvolvesRefl(o, c, log);
  }

  lemma PassEnd(o: Order, c0: Contents, c: Contents, log0: seq<ListData>, log: seq<ListData>, pos: Positions,
                insize: nat, out: seq<ListHead>)
    requires insize > 0 && out != [] && PassValues(o, c0, c, log0, log, pos, insize, out, [])
    ensures Evolves(o, c0, c, log0, log) && Runs(o, c, pos, out, 2 * insize, 0)
  {
  }

  lemma PassFacts(nodes: set<ListHead>, nx: Links, list: ListHead?, tail: ListHead?, out: seq<ListHead>,
                  p: ListHead?, rest: seq<ListHead>)
    requires Shape(nodes, nx, list, tail, out, null, [], p, rest)
    ensures Elems(rest) <= nodes && Chain(nx, p, rest)
    ensures rest == [] <==> p == null
  {
  }

  // Ending the output with NULL makes it a list.
  lemma FinishList(nodes: set<ListHead>, nx: Links, list: ListHead?, tail: ListHead?, out: seq<ListHead>)
    requires Shape(nodes, nx, list, tail, out, null, [], null, []) && out != []
    ensures tail != null && tail in nodes && Elems(out) == nodes && NoDup(out)
    ensures Chain(nx[tail := null], list, out)
  {
    assert tail in Elems(out);
  }

  // `tail->next = NULL`
  method Terminate(list: ListHead?, tail: ListHead?, ghost nodes: set<ListHead>, ghost out: seq<ListHead>)
    requires Shape(nodes, LinksOf(nodes), list, tail, out, null, [], null, []) && out != []
    modifies nodes`next
    ensures NoDup(out) && Elems(out) == nodes && Chain(LinksOf(nodes), list, out)
    ensures ContentsOf(nodes) == old(ContentsOf(nodes)) && Separate(nodes) == old(Separate(nodes))
  {
    hide Shape, Chain, Elems;
    ghost var nx := LinksOf(nodes);
    FinishList(nodes, nx, list, tail, out);
    tail.next := null;
    assert LinksOf(nodes) == nx[tail := null];
  }

  // One iteration of the loop of a pass: two neighbouring runs become one.
  method PassTurn(cmp: Comparator, res: CoreResults?, insize: nat, p0: ListHead, list0: ListHead?, tail0: ListHead?,
                  ghost nodes: set<ListHead>, ghost pos: Positions, ghost c0: Contents, ghost log0: seq<ListData>,
                  ghost out0: seq<ListHead>, ghost rest0: seq<ListHead>)
    returns (p: ListHead?, list: ListHead?, tail: ListHead?, ghost out: seq<ListHead>, ghost rest: seq<ListHead>)
    requires cmp == Complex ==> res != null
    requires insize > 0 && Separate(nodes)
    requires Shape(nodes, LinksOf(nodes), list0, tail0, out0, null, [], p0, rest0)
    requires PassValues(OrderOf(cmp, res), c0, ContentsOf(nodes), log0, Log(res), pos, insize, out0, rest0)
    modifies nodes`next, Infos(nodes)`data16, res
    ensures res != null ==> res.list == old(res.list) && res.seed3 == old(res.seed3)
    ensures Separate(nodes)
    ensures Shape(nodes, LinksOf(nodes), list, tail, out, null, [], p, rest)
    ensures PassValues(OrderOf(cmp, res), c0, ContentsOf(nodes), log0, Log(res), pos, insize, out, rest)
    ensures |rest| < |rest0| && |out0| < |out| <= |out0| + 2 * insize
    ensures rest != [] ==> |out| == |out0| + 2 * insize
  {
    hide Shape, PassValues, Runs, RunOk, From, Evolves, Separate, Linked, NoDup, Elems, ContentsOf, LinksOf, OrderOf;
    hide Chain;
    ghost var o, c, log := OrderOf(cmp, res), ContentsOf(nodes), Log(res);
    PassFacts(nodes, LinksOf(nodes), list0, tail0, out0, p0, rest0);
    var q, psize := StepAlong(p0, insize, nodes, rest0);
    ghost var ps, qs := rest0[..psize], rest0[psize..];
    assert rest0 == ps + qs;
    ShapeSplit(nodes, LinksOf(nodes), list0, tail0, out0, p0, rest0, q, psize);
    PassSplit(o, c0, c, log0, log, pos, insize, out0, rest0, ps, qs);
    ghost var merged;
    p, list, tail, merged := Merge(cmp, res, insize, p0, psize, q, list0, tail0, nodes, pos, |out0|, out0, ps, qs);
    PassJoin(o, c0, c, ContentsOf(nodes), log0, log, Log(res), pos, insize, out0, rest0, ps, qs, merged);
    MergedSize(insize, rest0, ps, qs);
    out, rest := out0 + merged, qs[|Rest(qs, insize)|..];
  }

  // One pass: sorted runs of `insize` nodes are merged pairwise into sorted runs of twice the size.
  method Pass(cmp: Comparator, res: CoreResults?, insize: nat, p0: ListHead,
              ghost nodes: set<ListHead>, ghost pos: Positions, ghost cur: seq<ListHead>)
    returns (list: ListHead?, nmerges: nat, ghost out: seq<ListHead>)
    requires cmp == Complex ==> res != null
    requires insize > 0 && cur != [] && NoDup(cur) && Elems(cur) == nodes && Separate(nodes)
    requires Chain(LinksOf(nodes), p0, cur)
    requires Runs(OrderOf(cmp, res), ContentsOf(nodes), pos, cur, insize, 0)
    modifies nodes`next, Infos(nodes)`data16, res
    ensures res != null ==> res.list == old(res.list) && res.seed3 == old(res.seed3)
    ensures Separate(nodes) && NoDup(out) && Elems(out) == nodes && Chain(LinksOf(nodes), list, out)
    ensures var o, c := OrderOf(cmp, res), ContentsOf(nodes);
      && Evolves(o, old(ContentsOf(nodes)), c, old(Log(res)), Log(res))
      && Runs(o, c, pos, out, 2 * insize, 0)
    ensures nmerges <= 1 <==> |out| <= 2 * insize
  {
    hide Shape, PassValues, Runs, Evolves, Separate, Linked, Chain, NoDup, OrderOf, Elems;
    ghost var o, c0, log0 := OrderOf(cmp, res), ContentsOf(nodes), Log(res);
    var p: ListHead? := p0;
    var tail: ListHead?;
    list, tail, nmerges, out := null, null, 0, [];
    ghost var rest := cur;
    PassStart(o, c0, log0, pos, insize, nodes, LinksOf(nodes), p, cur);
    while p != null
      invariant Separate(nodes) && (rest == [] <==> p == null)
      invariant Shape(nodes, LinksOf(nodes), list, tail, out, null, [], p, rest)
      invariant PassValues(o, c0, ContentsOf(nodes), log0, Log(res), pos, insize, out, rest)
      invariant res != null ==> res.list == old(res.list) && res.seed3 == old(res.seed3)
      invariant (nmerges == 0 <==> out == []) && (out == [] ==> rest == cur)
      invariant nmerges <= 1 <==> |out| <= 2 * insize
      invariant nmerges == 1 ==> |out| == 2 * insize || rest == []
      decreases |rest|
    {
      nmerges := nmerges + 1;
      p, list, tail, out, rest := PassTurn(cmp, res, insize, p, list, tail, nodes, pos, c0, log0, out, rest);
      PassFacts(nodes, LinksOf(nodes), list, tail, out, p, rest);
    }
    PassEnd(o, c0, ContentsOf(nodes), log0, Log(res), pos, insize, out);
    Terminate(list, tail, nodes, out);
  }

  // ---- The sort ----

  ghost function IndexOf(s: seq<ListHead>, x: ListHead): (i: nat)
    requires x in s
    ensures i < |s| && s[i] == x
  {
    if s[0] == x then 0 else 1 + IndexOf(s[1..], x)
  }

  // Where the nodes of `s` stand.
  ghost function PlacesIn(s: seq<ListHead>): Positions {
    map x | x in Elems(s) :: IndexOf(s, x)
  }

  lemma PlacesAt(s: seq<ListHead>, i: nat)
    requires NoDup(s) && i < |s|
    ensures s[i] in PlacesIn(s) && PlacesIn(s)[s[i]] == i
  {
    assert s[i] in Elems(s);
  }

  // What the sort delivers: a stable permutation of the nodes, ordered by the final keys; with at
  // least two nodes, every item has been compared (cached, or rebuilt from its backup).
  ghost predicate SortedFrom(o: Order, c: Contents, s: seq<ListHead>, out: seq<ListHead>) {
    && Perm(out, s)
    && Sorted(o, c, PlacesIn(s), out)
    && (|s| >= 2 ==> AllSettled(o, c, out))
  }

  lemma SortStart(o: Order, c: Contents, log: seq<ListData>, nodes: set<ListHead>, s: seq<ListHead>)
    requires NoDup(s) && Elems(s) == nodes && c.Keys == nodes
    ensures Evolves(o, c, c, log, log) && Runs(o, c, PlacesIn(s), s, 1, 0)
  {
    EvolvesRefl(o, c, log);
    forall i | 0 <= i < |s| ensures s[i] in c && s[i] in PlacesIn(s) && PlacesIn(s)[s[i]] == 0 + i {
      PlacesAt(s, i);
      assert s[i] in Elems(s);
    }
    UnitRuns(o, c, PlacesIn(s), s, 0);
  }

  lemma SortEnd(o: Order, c: Contents, s: seq<ListHead>, out: seq<ListHead>, insize: nat)
    requires insize > 0 && |out| <= 2 * insize && Runs(o, c, PlacesIn(s), out, 2 * insize, 0)
    requires NoDup(s) && NoDup(out) && Elems(out) == Elems(s) && |out| == |s|
    ensures SortedFrom(o, c, s, out)
  {
  }

  lemma ChainStart(nx: Links, p: ListHead?, s: seq<ListHead>)
    requires Chain(nx, p, s) && s != []
    ensures p != null
  {
  }

  // `core_list_mergesort`. The source dereferences `tail` after the first pass, so the list is not empty.
  method Mergesort(list0: ListHead, cmp: Comparator, res: CoreResults?, ghost nodes: set<ListHead>,
                   ghost s: seq<ListHead>)
    returns (list: ListHead, ghost out: seq<ListHead>)
    requires cmp == Complex ==> res != null
    requires s != [] && NoDup(s) && Elems(s) == nodes && Separate(nodes) && Chain(LinksOf(nodes), list0, s)
    modifies nodes`next, Infos(nodes)`data16, res
    ensures res != null ==> res.list == old(res.list) && res.seed3 == old(res.seed3)
    ensures Separate(nodes) && Chain(LinksOf(nodes), list, out) && Infos(nodes) == old(Infos(nodes))
    ensures var o, c := OrderOf(cmp, res), ContentsOf(nodes);
      && Evolves(o, old(ContentsOf(nodes)), c, old(Log(res)), Log(res))
      && SortedFrom(o, c, s, out)
  {
    hide Chain, Runs, Evolves, Separate, NoDup, SortedFrom, OrderOf, Elems, PlacesIn, ContentsOf, LinksOf;
    ghost var o, c0, log0, pos := OrderOf(cmp, res), ContentsOf(nodes), Log(res), PlacesIn(s);
    SortStart(o, c0, log0, nodes, s);
    NoDupSize(s);
    var insize := 1;
    list, out := list0, s;
    while true
      invariant insize > 0 && |out| == |s|
      invariant Separate(nodes) && NoDup(out) && Elems(out) == nodes && Chain(LinksOf(nodes), list, out)
      invariant Runs(o, ContentsOf(nodes), pos, out, insize, 0) && Infos(nodes) == old(Infos(nodes))
      invariant Evolves(o, c0, ContentsOf(nodes), log0, Log(res))
      invariant res != null ==> res.list == old(res.list) && res.seed3 == old(res.seed3)
      decreases |s| - insize
    {
      ghost var c, log := ContentsOf(nodes), Log(res);
      var list', nmerges;
      list', nmerges, out := Pass(cmp, res, insize, list, nodes, pos, out);
      EvolvesTrans(o, c0, c, ContentsOf(nodes), log0, log, Log(res));
      NoDupSize(out);
      ChainStart(LinksOf(nodes), list', out);
      list := list';
      if nmerges <= 1 {
        SortEnd(o, ContentsOf(nodes), s, out, insize);
        return;
      }
      insize := insize * 2;
    }
  }

  // ---- What the contract says, order by order ----

  // `x` comes before `y` in `s`.
  ghost predicate Ahead(s: seq<ListHead>, x: ListHead, y: ListHead)
    requires x in s && y in s
  {
    IndexOf(s, x) < IndexOf(s, y)
  }

  // The sort by value: although comparing rewrites the data it compares, every item ends cached with
  // its backup byte untouched, values cached before are kept, each other value is computed exactly
  // once, and the list is in the order of the cached values, equal values in their old order.
  lemma ValueSortMeans(c: Contents, d: Contents, log: seq<ListData>, log': seq<ListData>, s: seq<ListHead>,
                       out: seq<ListHead>)
    requires |s| >= 2 && Elems(s) == c.Keys
    requires Evolves(ByValue, c, d, log, log') && SortedFrom(ByValue, d, s, out)
    ensures forall x :: x in c ==>
      && Cached(d[x].data) && Upper(d[x].data) == Upper(c[x].data) && d[x].idx == c[x].idx && d[x].info == c[x].info
      && (Cached(c[x].data) ==> d[x].data == c[x].data)
      && (c[x].info in log'[|log|..] <==> !Cached(c[x].data))
    ensures Distinct(log'[|log|..])
    ensures forall x :: x in out ==> x in d && x in s
    ensures forall i, j :: 0 <= i < j < |out| ==>
      && Value(d[out[i]].data) <= Value(d[out[j]].data)
      && (Value(d[out[i]].data) == Value(d[out[j]].data) ==> Ahead(s, out[i], out[j]))
  {
    SortMeans(ByValue, c, d, log, log', s, out);
    forall x | x in c
      ensures Cached(d[x].data)
    {
      assert Settled(ByValue, d[x]);
    }
  }

  // The sort by index: a stable sort by the untouched indices; without a result record every data
  // item is rebuilt from its backup byte, otherwise the data is left alone.
  lemma IndexSortMeans(regen: bool, c: Contents, d: Contents, s: seq<ListHead>, out: seq<ListHead>)
    requires |s| >= 2 && Elems(s) == c.Keys
    requires Evolves(ByIndex(regen), c, d, [], []) && SortedFrom(ByIndex(regen), d, s, out)
    ensures forall x :: x in c ==>
      && d[x].data == (if regen then Regenerated(c[x].data) else c[x].data)
      && d[x].idx == c[x].idx && d[x].info == c[x].info
    ensures forall x :: x in out ==> x in d && x in s
    ensures forall i, j :: 0 <= i < j < |out| ==>
      && d[out[i]].idx <= d[out[j]].idx
      && (d[out[i]].idx == d[out[j]].idx ==> Ahead(s, out[i], out[j]))
  {
    SortMeans(ByIndex(regen), c, d, [], [], s, out);
    forall x | x in c
      ensures d[x].data == (if regen then Regenerated(c[x].data) else c[x].data)
    {
      assert ItemEvolves(ByIndex(regen), c[x], d[x]) && Settled(ByIndex(regen), d[x]);
      SameBackup(c[x].data, d[x].data);
    }
  }

  lemma SameBackup(a: u16, b: u16)
    requires Upper(a) == Upper(b)
    ensures Regenerated(a) == Regenerated(b)
  {
  }

  lemma SortMeans(o: Order, c: Contents, d: Contents, log: seq<ListData>, log': seq<ListData>, s: seq<ListHead>,
                  out: seq<ListHead>)
    requires |s| >= 2 && Elems(s) == c.Keys
    requires Evolves(o, c, d, log, log') && SortedFrom(o, d, s, out)
    ensures forall x :: x in c ==> ItemEvolves(o, c[x], d[x]) && Settled(o, d[x])
    ensures forall x :: x in out ==> x in d && x in s
    ensures forall i, j :: 0 <= i < j < |out| ==>
      && Key(o, d[out[i]]) <= Key(o, d[out[j]])
      && (Key(o, d[out[i]]) == Key(o, d[out[j]]) ==> Ahead(s, out[i], out[j]))
  {
    forall x | x in out
      ensures x in d && x in s
    {
      assert x in Elems(out) && x in Elems(s);
    }
    forall x | x in c
      ensures Settled(o, d[x])
    {
      assert x in Elems(out);
    }
    forall i, j | 0 <= i < j < |out|
      ensures Key(o, d[out[i]]) <= Key(o, d[out[j]])
      ensures Key(o, d[out[i]]) == Key(o, d[out[j]]) ==> Ahead(s, out[i], out[j])
    {
      assert Before(o, d, PlacesIn(s), out[i], out[j]);
      assert out[i] in Elems(s) && out[j] in Elems(s);
    }
  }
}
