// What sorting means for the CoreMark list, stated on values: the contents of the nodes, how a
// comparator may rewrite them, and the order in which nodes with given contents and original
// positions belong.

module ListOrder {
  import opened ListNodes

  // ---- Sequences of nodes ----

  ghost predicate NoDup(s: seq<ListHead>) {
    forall i, j :: 0 <= i < j < |s| ==> s[i] != s[j]
  }

  ghost function Elems(s: seq<ListHead>): set<ListHead> {
    set x | x in s
  }

  // `a` and `b` hold the same nodes, each once.
  ghost predicate Perm(a: seq<ListHead>, b: seq<ListHead>) {
    NoDup(a) && NoDup(b) && Elems(a) == Elems(b)
  }

  lemma NoDupSize(s: seq<ListHead>)
    requires NoDup(s)
    ensures |Elems(s)| == |s|
  {
    if s != [] {
      PopElems(s);
      NoDupSize(s[1..]);
      assert Elems(s) == Elems(s[1..]) + {s[0]};
    }
  }

  lemma PopElems(s: seq<ListHead>)
    requires NoDup(s) && s != []
    ensures NoDup(s[1..]) && s[0] !in Elems(s[1..])
    ensures Elems(s[1..]) == Elems(s) - {s[0]}
  {
    assert s == [s[0]] + s[1..];
  }

  lemma PushElems(s: seq<ListHead>, e: ListHead)
    requires NoDup(s) && e !in Elems(s)
    ensures NoDup(s + [e]) && Elems(s + [e]) == Elems(s) + {e}
  {
    forall i, j | 0 <= i < j < |s + [e]| ensures (s + [e])[i] != (s + [e])[j] {
      assert (s + [e])[i] in Elems(s);
    }
  }

  lemma ElemsConcat(a: seq<ListHead>, b: seq<ListHead>)
    ensures Elems(a + b) == Elems(a) + Elems(b)
    ensures NoDup(a) && NoDup(b) && Elems(a) !! Elems(b) ==> NoDup(a + b)
    ensures NoDup(a + b) ==> NoDup(a) && NoDup(b) && Elems(a) !! Elems(b)
  {
    if NoDup(a) && NoDup(b) && Elems(a) !! Elems(b) {
      forall i, j | 0 <= i < j < |a + b| ensures (a + b)[i] != (a + b)[j] {
        if i < |a| <= j {
          assert a[i] in Elems(a) && b[j - |a|] in Elems(b);
        }
      }
    }
    if NoDup(a + b) {
      forall i, j | 0 <= i < j < |a| ensures a[i] != a[j] {
        assert (a + b)[i] != (a + b)[j];
      }
      forall i, j | 0 <= i < j < |b| ensures b[i] != b[j] {
        assert (a + b)[|a| + i] != (a + b)[|a| + j];
      }
      forall i, j | 0 <= i < |a| && 0 <= j < |b| ensures a[i] != b[j] {
        assert (a + b)[i] == a[i] && (a + b)[|a| + j] == b[j];
      }
    }
  }

  // ---- Contents and what comparators do to them ----

  // The data record a node points to, and what is in it.
  datatype Item = Item(info: ListData, data: u16, idx: s16)

  type Contents = map<ListHead, Item>

  // How nodes are ordered: by the 7-bit value, or by index; `regen` says that comparing by index
  // also rebuilds the data (the call passes no result record).
  datatype Order = ByValue | ByIndex(regen: bool)

  // Comparing this item once more would not change it.
  predicate Settled(o: Order, x: Item) {
    match o
    case ByValue => Cached(x.data)
    case ByIndex(regen) => regen ==> x.data == Regenerated(x.data)
  }

  function Key(o: Order, x: Item): int {
    if o.ByValue? then Value(x.data) else x.idx
  }

  // What comparisons may do to one item.
  predicate ItemEvolves(o: Order, x: Item, y: Item) {
    && y.info == x.info && y.idx == x.idx && Upper(y.data) == Upper(x.data)
    && (Settled(o, x) ==> y == x)
    && (y == x || Settled(o, y))
    && (o.ByIndex? ==> y.data == x.data || (o.regen && y.data == Regenerated(x.data)))
  }

  // A comparison run has taken contents `c` to `d` and the computation history from `log` to `log'`.
  ghost predicate Evolves(o: Order, c: Contents, d: Contents, log: seq<ListData>, log': seq<ListData>) {
    && c.Keys == d.Keys
    && (forall x :: x in c ==> ItemEvolves(o, c[x], d[x]))
    && log <= log'
    && (if o.ByValue? then ComputedOnce(c, d, log'[|log|..]) else log' == log)
  }

  ghost predicate Distinct(log: seq<ListData>) {
    forall i, j :: 0 <= i < j < |log| ==> log[i] != log[j]
  }

  // `news` lists, each exactly once, the items that went from not computed to computed.
  ghost predicate ComputedOnce(c: Contents, d: Contents, news: seq<ListData>)
    requires c.Keys == d.Keys
  {
    && Distinct(news)
    && (forall p :: p in news ==> exists x :: x in c && c[x].info == p && !Cached(c[x].data))
    && (forall x :: x in c ==> (c[x].info in news <==> !Cached(c[x].data) && Cached(d[x].data)))
  }

  lemma ComputedEvolves(x: Item, y: Item)
    requires y.info == x.info && y.idx == x.idx && Upper(y.data) == Upper(x.data)
    requires Cached(y.data) && (Cached(x.data) ==> y.data == x.data)
    ensures ItemEvolves(ByValue, x, y) && Settled(ByValue, y)
  {
  }

  lemma RebuiltEvolves(x: Item, y: Item, regen: bool)
    requires y.info == x.info && y.idx == x.idx
    requires y.data == if regen then Regenerated(x.data) else x.data
    ensures ItemEvolves(ByIndex(regen), x, y) && Settled(ByIndex(regen), y)
  {
    assert Upper(Regenerated(x.data)) == Upper(x.data);
  }

  // Rewriting two nodes, and logging the values computed for them, is an evolution of the whole list.
  lemma PairEvolves(o: Order, c: Contents, d: Contents, p: ListHead, q: ListHead, log: seq<ListData>,
                    log': seq<ListData>)
    requires p in c && q in c && c.Keys == d.Keys && c[p].info != c[q].info
    requires forall x :: x in c && x != p && x != q ==> d[x] == c[x] && c[x].info != c[p].info && c[x].info != c[q].info
    requires ItemEvolves(o, c[p], d[p]) && ItemEvolves(o, c[q], d[q]) && Settled(o, d[p]) && Settled(o, d[q])
    requires log' == log + if o.ByValue? then Fresh(c[p].data, c[p].info) + Fresh(c[q].data, c[q].info) else []
    ensures Evolves(o, c, d, log, log')
  {
    var news := log'[|log|..];
    if o.ByValue? {
      assert news == Fresh(c[p].data, c[p].info) + Fresh(c[q].data, c[q].info);
    }
  }

  lemma EvolvesRefl(o: Order, c: Contents, log: seq<ListData>)
    ensures Evolves(o, c, c, log, log)
  {
  }

  lemma ItemEvolvesTrans(o: Order, x: Item, y: Item, z: Item)
    requires ItemEvolves(o, x, y) && ItemEvolves(o, y, z)
    ensures ItemEvolves(o, x, z)
  {
    assert Regenerated(x.data) == Regenerated(y.data);
  }

  lemma EvolvesTrans(o: Order, c: Contents, d: Contents, e: Contents,
                     log0: seq<ListData>, log1: seq<ListData>, log2: seq<ListData>)
    requires Evolves(o, c, d, log0, log1) && Evolves(o, d, e, log1, log2)
    ensures Evolves(o, c, e, log0, log2)
  {
    forall x | x in c ensures ItemEvolves(o, c[x], e[x]) {
      ItemEvolvesTrans(o, c[x], d[x], e[x]);
    }
    if o.ByValue? {
      var f, g := log1[|log0|..], log2[|log1|..];
      assert log2[|log0|..] == f + g;
      assert forall x :: x in c ==> ItemEvolves(o, c[x], d[x]) && ItemEvolves(o, d[x], e[x]);
      ComputedOnceTrans(c, d, e, f, g);
    }
  }

  lemma ComputedOnceTrans(c: Contents, d: Contents, e: Contents, f: seq<ListData>, g: seq<ListData>)
    requires c.Keys == d.Keys == e.Keys
    requires forall x :: x in c ==> ItemEvolves(ByValue, c[x], d[x]) && ItemEvolves(ByValue, d[x], e[x])
    requires ComputedOnce(c, d, f) && ComputedOnce(d, e, g)
    ensures ComputedOnce(c, e, f + g)
  {
    forall p | p in g ensures p !in f {
      var x :| x in d && d[x].info == p && !Cached(d[x].data);
      assert c[x].info == p;
    }
    forall i, j | 0 <= i < j < |f + g| ensures (f + g)[i] != (f + g)[j] {
      if i < |f| <= j {
        assert f[i] in f && g[j - |f|] in g;
      }
    }
    forall p | p in f + g ensures exists x :: x in c && c[x].info == p && !Cached(c[x].data) {
      if p in g {
        var x :| x in d && d[x].info == p && !Cached(d[x].data);
        assert ItemEvolves(ByValue, c[x], d[x]);
      }
    }
    forall x | x in c ensures c[x].info in f + g <==> !Cached(c[x].data) && Cached(e[x].data) {
      assert d[x].info == c[x].info;
    }
  }

  // ---- The order ----

  // Where each node stood when the sort began.
  type Positions = map<ListHead, nat>

  // `x` belongs before `y`: smaller key, or the same key and originally earlier.
  ghost predicate Before(o: Order, c: Contents, pos: Positions, x: ListHead, y: ListHead) {
    && x in c && y in c && x in pos && y in pos
    && (Key(o, c[x]) < Key(o, c[y]) || (Key(o, c[x]) == Key(o, c[y]) && pos[x] < pos[y]))
  }

  ghost predicate Sorted(o: Order, c: Contents, pos: Positions, s: seq<ListHead>) {
    forall i, j :: 0 <= i < j < |s| ==> Before(o, c, pos, s[i], s[j])
  }

  ghost predicate AllSettled(o: Order, c: Contents, s: seq<ListHead>) {
    forall x :: x in s ==> x in c && Settled(o, c[x])
  }

  ghost predicate Known(c: Contents, pos: Positions, s: seq<ListHead>) {
    forall x :: x in s ==> x in c && x in pos
  }

  // A sorted run. A run of two or more nodes has been compared, so its keys are final.
  ghost predicate RunOk(o: Order, c: Contents, pos: Positions, s: seq<ListHead>) {
    && Known(c, pos, s)
    && Sorted(o, c, pos, s)
    && (|s| <= 1 || AllSettled(o, c, s))
  }

  // Rewriting by comparisons never disturbs a sorted run.
  lemma RunStays(o: Order, c: Contents, d: Contents, log: seq<ListData>, log': seq<ListData>,
                 pos: Positions, s: seq<ListHead>)
    requires Evolves(o, c, d, log, log') && RunOk(o, c, pos, s)
    ensures RunOk(o, d, pos, s)
  {
    if |s| > 1 {
      assert forall x :: x in s ==> d[x] == c[x];
    }
  }

  // The original positions of the nodes of `s` lie in `[lo, hi)`.
  ghost predicate From(pos: Positions, s: seq<ListHead>, lo: nat, hi: nat) {
    forall x :: x in s ==> x in pos && lo <= pos[x] < hi
  }

  // `s` consists of sorted runs of `w` nodes (the last may be shorter), each made of the nodes that stood there.
  ghost predicate Runs(o: Order, c: Contents, pos: Positions, s: seq<ListHead>, w: nat, base: nat)
    requires w > 0
  {
    if |s| <= w then RunOk(o, c, pos, s) && From(pos, s, base, base + |s|)
    else RunOk(o, c, pos, s[..w]) && From(pos, s[..w], base, base + w) && Runs(o, c, pos, s[w..], w, base + w)
  }

  // Like `Runs`, with no short run at the end.
  ghost predicate FullRuns(o: Order, c: Contents, pos: Positions, s: seq<ListHead>, w: nat, base: nat)
    requires w > 0
  {
    s == [] ||
    (|s| >= w && RunOk(o, c, pos, s[..w]) && From(pos, s[..w], base, base + w)
     && FullRuns(o, c, pos, s[w..], w, base + w))
  }

  lemma {:induction false} RunsStay(o: Order, c: Contents, d: Contents, log: seq<ListData>, log': seq<ListData>,
                 pos: Positions, s: seq<ListHead>, w: nat, base: nat)
    requires w > 0 && Evolves(o, c, d, log, log') && Runs(o, c, pos, s, w, base)
    ensures Runs(o, d, pos, s, w, base)
  {
    if |s| <= w {
      RunStays(o, c, d, log, log', pos, s);
    } else {
      RunStays(o, c, d, log, log', pos, s[..w]);
      RunsStay(o, c, d, log, log', pos, s[w..], w, base + w);
    }
  }

  lemma {:induction false} FullRunsStay(o: Order, c: Contents, d: Contents, log: seq<ListData>, log': seq<ListData>,
                     pos: Positions, s: seq<ListHead>, w: nat, base: nat)
    requires w > 0 && Evolves(o, c, d, log, log') && FullRuns(o, c, pos, s, w, base)
    ensures FullRuns(o, d, pos, s, w, base)
  {
    if s != [] {
      RunStays(o, c, d, log, log', pos, s[..w]);
      FullRunsStay(o, c, d, log, log', pos, s[w..], w, base + w);
    }
  }

  // The first two runs of a list of runs, and what follows them.
  lemma TwoRuns(o: Order, c: Contents, pos: Positions, s: seq<ListHead>, w: nat, base: nat, ps: seq<ListHead>,
                r: seq<ListHead>, rest: seq<ListHead>)
    requires w > 0 && Runs(o, c, pos, s, w, base) && s == ps + r + rest
    requires |ps| == (if |s| < w then |s| else w) && |r| == (if |s| - |ps| < w then |s| - |ps| else w)
    ensures RunOk(o, c, pos, ps) && From(pos, ps, base, base + |ps|)
    ensures RunOk(o, c, pos, r) && From(pos, r, base + |ps|, base + |ps| + |r|)
    ensures Runs(o, c, pos, rest, w, base + |ps| + |r|)
  {
    if |s| <= w {
      assert ps == s && r == [] && rest == [];
    } else {
      assert s[..w] == ps && s[w..] == r + rest;
      if |r + rest| <= w {
        assert r == r + rest && rest == [];
      } else {
        assert (r + rest)[..w] == r && (r + rest)[w..] == rest;
      }
    }
  }

  lemma {:induction false} AppendRun(o: Order, c: Contents, pos: Positions, s: seq<ListHead>, r: seq<ListHead>,
                                     w: nat, base: nat)
    requires w > 0 && FullRuns(o, c, pos, s, w, base)
    requires 0 < |r| <= w && RunOk(o, c, pos, r) && From(pos, r, base + |s|, base + |s| + |r|)
    ensures Runs(o, c, pos, s + r, w, base)
    ensures |r| == w ==> FullRuns(o, c, pos, s + r, w, base)
  {
    if s == [] {
      assert s + r == r && r[..|r|] == r;
      assert |r| == w ==> r[w..] == [];
    } else {
      assert (s + r)[..w] == s[..w] && (s + r)[w..] == s[w..] + r;
      AppendRun(o, c, pos, s[w..], r, w, base + w);
    }
  }

  // Single nodes are sorted runs.
  lemma {:induction false} UnitRuns(o: Order, c: Contents, pos: Positions, s: seq<ListHead>, base: nat)
    requires forall i :: 0 <= i < |s| ==> s[i] in c && s[i] in pos && pos[s[i]] == base + i
    ensures Runs(o, c, pos, s, 1, base)
  {
    if |s| > 1 {
      UnitRuns(o, c, pos, s[1..], base + 1);
    }
  }

  lemma HeadFirst(o: Order, c: Contents, pos: Positions, s: seq<ListHead>, x: ListHead)
    requires Sorted(o, c, pos, s) && x in s
    ensures s[0] == x || Before(o, c, pos, s[0], x)
  {
    var i :| 0 <= i < |s| && s[i] == x;
    if i > 0 {
      assert Before(o, c, pos, s[0], s[i]);
    }
  }

  lemma LastLast(o: Order, c: Contents, pos: Positions, s: seq<ListHead>, x: ListHead)
    requires Sorted(o, c, pos, s) && x in s
    ensures s[|s| - 1] == x || Before(o, c, pos, x, s[|s| - 1])
  {
    var i :| 0 <= i < |s| && s[i] == x;
    if i < |s| - 1 {
      assert Before(o, c, pos, s[i], s[|s| - 1]);
    }
  }

  // Two sequences sorted the same way with the same nodes are the same sequence.
  lemma {:induction false} SortedUnique(o: Order, c: Contents, pos: Positions, a: seq<ListHead>, b: seq<ListHead>)
    requires Sorted(o, c, pos, a) && Sorted(o, c, pos, b) && Elems(a) == Elems(b)
    requires NoDup(a) && NoDup(b)
    ensures a == b
  {
    NoDupSize(a);
    NoDupSize(b);
    if a != [] {
      assert a[0] in Elems(b) && b[0] in Elems(a);
      HeadFirst(o, c, pos, b, a[0]);
      HeadFirst(o, c, pos, a, b[0]);
      PopElems(a);
      PopElems(b);
      SortedUnique(o, c, pos, a[1..], b[1..]);
      assert a == [a[0]] + a[1..] && b == [b[0]] + b[1..];
    }
  }

  // ---- Merging two runs ----

  // `m` has been merged, the nodes `p` and `q` of the two runs are still to come. Nothing that is
  // still to come belongs before a merged node, and the nodes of `p` stood before those of `q`.
  ghost predicate Merging(o: Order, c: Contents, pos: Positions, m: seq<ListHead>, p: seq<ListHead>, q: seq<ListHead>) {
    && (m != [] || p != [])
    && Known(c, pos, m) && Known(c, pos, p) && Known(c, pos, q)
    && Sorted(o, c, pos, m) && Sorted(o, c, pos, p) && Sorted(o, c, pos, q)
    && (forall x, y :: x in m && y in p ==> Before(o, c, pos, x, y))
    && (forall x, y :: x in m && y in q ==> Before(o, c, pos, x, y))
    && (forall x, y :: x in p && y in q ==> pos[x] < pos[y])
    && (|| (AllSettled(o, c, m) && AllSettled(o, c, p) && AllSettled(o, c, q))
        || (m == [] && RunOk(o, c, pos, p) && RunOk(o, c, pos, q))
        || (q == [] && |m| + |p| <= 1))
  }

  lemma MergeStart(o: Order, c: Contents, pos: Positions, p: seq<ListHead>, q: seq<ListHead>, lo: nat, mid: nat,
                   hi: nat)
    requires p != [] && RunOk(o, c, pos, p) && RunOk(o, c, pos, q)
    requires From(pos, p, lo, mid) && From(pos, q, mid, hi)
    ensures Merging(o, c, pos, [], p, q)
  {
  }

  lemma SettledSame(o: Order, c: Contents, d: Contents, log: seq<ListData>, log': seq<ListData>, s: seq<ListHead>)
    requires Evolves(o, c, d, log, log') && AllSettled(o, c, s)
    ensures forall x :: x in s ==> x in c && x in d && d[x] == c[x]
  {
  }

  lemma MergeSame(o: Order, c: Contents, d: Contents, pos: Positions, m: seq<ListHead>, p: seq<ListHead>,
                  q: seq<ListHead>)
    requires Merging(o, c, pos, m, p, q)
    requires AllSettled(o, c, m) && AllSettled(o, c, p) && AllSettled(o, c, q)
    requires forall x :: x in m ==> x in d && d[x] == c[x]
    requires forall x :: x in p ==> x in d && d[x] == c[x]
    requires forall x :: x in q ==> x in d && d[x] == c[x]
    ensures Merging(o, d, pos, m, p, q)
  {
    assert forall x: ListHead, y: ListHead {:trigger Before(o, d, pos, x, y)} ::
        Before(o, c, pos, x, y) && x in d && y in d && d[x] == c[x] && d[y] == c[y] ==> Before(o, d, pos, x, y);
  }

  lemma MergeEvolves(o: Order, c: Contents, d: Contents, log: seq<ListData>, log': seq<ListData>, pos: Positions,
                     m: seq<ListHead>, p: seq<ListHead>, q: seq<ListHead>)
    requires Merging(o, c, pos, m, p, q) && Evolves(o, c, d, log, log')
    ensures Merging(o, d, pos, m, p, q)
  {
    if AllSettled(o, c, m) && AllSettled(o, c, p) && AllSettled(o, c, q) {
      SettledSame(o, c, d, log, log', m);
      SettledSame(o, c, d, log, log', p);
      SettledSame(o, c, d, log, log', q);
      MergeSame(o, c, d, pos, m, p, q);
    } else if m == [] && RunOk(o, c, pos, p) && RunOk(o, c, pos, q) {
      RunStays(o, c, d, log, log', pos, p);
      RunStays(o, c, d, log, log', pos, q);
    }
  }

  // Two runs whose first nodes have just been compared have been compared entirely.
  lemma MergeCompared(o: Order, c: Contents, pos: Positions, m: seq<ListHead>, p: seq<ListHead>, q: seq<ListHead>)
    requires Merging(o, c, pos, m, p, q) && p != [] && q != []
    requires Settled(o, c[p[0]]) && Settled(o, c[q[0]])
    ensures AllSettled(o, c, m) && AllSettled(o, c, p) && AllSettled(o, c, q)
  {
  }

  lemma TakeFirst(o: Order, c: Contents, pos: Positions, m: seq<ListHead>, p: seq<ListHead>, q: seq<ListHead>)
    requires Merging(o, c, pos, m, p, q) && p != []
    requires q == [] || (Settled(o, c[p[0]]) && Settled(o, c[q[0]]) && Key(o, c[p[0]]) <= Key(o, c[q[0]]))
    ensures Merging(o, c, pos, m + [p[0]], p[1..], q)
  {
    var e := p[0];
    if q != [] {
      MergeCompared(o, c, pos, m, p, q);
      assert Before(o, c, pos, e, q[0]);
      assert forall j :: 1 <= j < |q| ==> Before(o, c, pos, q[0], q[j]);
    }
    assert p == [e] + p[1..];
    assert forall y :: y in p[1..] || y in q ==> Before(o, c, pos, e, y);
    SortedSnoc(o, c, pos, m, e);
  }

  lemma TakeSecond(o: Order, c: Contents, pos: Positions, m: seq<ListHead>, p: seq<ListHead>, q: seq<ListHead>)
    requires Merging(o, c, pos, m, p, q) && q != []
    requires p == [] || (Settled(o, c[p[0]]) && Settled(o, c[q[0]]) && Key(o, c[q[0]]) < Key(o, c[p[0]]))
    ensures Merging(o, c, pos, m + [q[0]], p, q[1..])
  {
    var e := q[0];
    if p != [] {
      MergeCompared(o, c, pos, m, p, q);
      assert Before(o, c, pos, e, p[0]);
      assert forall j :: 1 <= j < |p| ==> Before(o, c, pos, p[0], p[j]);
    }
    assert q == [e] + q[1..];
    assert forall y :: y in q[1..] || y in p ==> Before(o, c, pos, e, y);
    SortedSnoc(o, c, pos, m, e);
  }

  lemma SortedSnoc(o: Order, c: Contents, pos: Positions, m: seq<ListHead>, e: ListHead)
    requires Sorted(o, c, pos, m) && forall x :: x in m ==> Before(o, c, pos, x, e)
    ensures Sorted(o, c, pos, m + [e])
  {
  }

  lemma MergeEnd(o: Order, c: Contents, pos: Positions, m: seq<ListHead>)
    requires Merging(o, c, pos, m, [], [])
    ensures RunOk(o, c, pos, m)
  {
  }
}
