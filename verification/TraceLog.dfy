// The streaming readers of simulation logs. A log line is known by what the
// readers' regular expressions say about it; the readers are loops that keep
// at most one instruction in hand.

module TraceLog {

  datatype Option<T> = None | Some(value: T)

  // What CORE_RE captures: program counter, disassembly and encoding.
  datatype Instr = Instr(pc: string, text: string, binary: string) {
    predicate Ecall() { text == "ecall" }
  }

  // What RD_RE captures: the register update and the privilege mode.
  datatype Commit = Commit(gpr: string, mode: string)

  // The tests are independent of each other.
  datatype Line = Line(
    endTrampoline: bool, startDebug: bool, stopDebug: bool,
    core: Option<Instr>, trap: bool, commit: Option<Commit>)

  datatype Entry = Entry(instr: Instr, gpr: seq<string>, mode: string)

  // One element of the generated sequence.
  datatype Row = Row(entry: Entry, illegal: bool)

  function New(instr: Instr): Entry { Entry(instr, [], "") }

  // ---- The log as a whole ----

  // The first line with a property, or the number of lines.
  function First(lines: seq<Line>, p: Line -> bool): (i: nat)
    ensures i <= |lines|
    ensures forall j :: 0 <= j < i ==> !p(lines[j])
    ensures i < |lines| ==> p(lines[i])
  {
    if lines == [] || p(lines[0]) then 0 else 1 + First(lines[1..], p)
  }

  predicate IsEnd(l: Line) { l.endTrampoline }

  predicate IsStart(l: Line) { l.startDebug }

  predicate IsStop(l: Line) { l.stopDebug }

  predicate IsCore(l: Line) { l.core.Some? }

  predicate IsEcall(l: Line) { l.core.Some? && l.core.value.Ecall() }

  predicate IsTrap(l: Line) { l.trap }

  // Spike: everything after the end of the trampoline.
  function AfterTrampoline(lines: seq<Line>): seq<Line> {
    var i := First(lines, IsEnd);
    if i < |lines| then lines[i + 1..] else []
  }

  // Verilator: everything from the end of the trampoline on.
  function FromTrampoline(lines: seq<Line>): seq<Line> {
    lines[First(lines, IsEnd)..]
  }

  // Without the regions from a start-of-debug line to the next end-of-debug
  // line.
  function WithoutDebug(lines: seq<Line>): seq<Line>
    decreases |lines|
  {
    var i := First(lines, IsStart);
    if i < |lines| then lines[..i] + AfterDebug(lines[i + 1..]) else lines
  }

  // What is left of a debug region that has begun.
  function AfterDebug(lines: seq<Line>): seq<Line>
    decreases |lines|
  {
    var j := First(lines, IsStop);
    if j < |lines| then WithoutDebug(lines[j + 1..]) else []
  }

  // Up to and including the first ecall.
  function UpToEcall(lines: seq<Line>): seq<Line> {
    var i := First(lines, IsEcall);
    if i < |lines| then lines[..i + 1] else lines
  }

  // An instruction line and the lines up to the next one.
  datatype Segment = Segment(instr: Instr, follow: seq<Line>)

  function Segments(lines: seq<Line>): seq<Segment>
    decreases |lines|, 0
  {
    var i := First(lines, IsCore);
    if i < |lines| then SegmentsAt(lines[i].core.value, lines[i + 1..]) else []
  }

  // The segments from an instruction line on.
  function SegmentsAt(instr: Instr, rest: seq<Line>): seq<Segment>
    decreases |rest|, 1
  {
    var k := First(rest, IsCore);
    [Segment(instr, rest[..k])] + Segments(rest[k..])
  }

  function Commits(lines: seq<Line>): seq<Commit> {
    if lines == [] then []
    else (if lines[0].commit.Some? then [lines[0].commit.value] else []) + Commits(lines[1..])
  }

  // An entry in hand, completed by the commits before the first trap line.
  function Complete(e: Entry, follow: seq<Line>): Row {
    var t := First(follow, IsTrap);
    Row(Apply(e, Commits(follow[..t])), t < |follow|)
  }

  // Each commit adds its register update; the last one sets the mode.
  function Apply(e: Entry, commits: seq<Commit>): Entry
    decreases |commits|
  {
    if commits == [] then e
    else Apply(e.(gpr := e.gpr + [commits[0].gpr], mode := commits[0].mode), commits[1..])
  }

  function RowOf(s: Segment): Row { Complete(New(s.instr), s.follow) }

  function Rows(segments: seq<Segment>): seq<Row> {
    if segments == [] then [] else [RowOf(segments[0])] + Rows(segments[1..])
  }

  // What a reader should yield for the lines it looks at.
  function Reading(lines: seq<Line>): seq<Row> { Rows(Segments(UpToEcall(lines))) }

  // ---- One line at a time ----

  // With an entry in hand.
  function Holding(e: Entry, lines: seq<Line>): seq<Row> {
    var all := UpToEcall(lines);
    var k := First(all, IsCore);
    [Complete(e, all[..k])] + Rows(Segments(all[k..]))
  }

  lemma EmptyRest(e: Entry)
    ensures Reading([]) == [] && Holding(e, []) == [Row(e, false)]
  {
    assert UpToEcall([]) == [];
  }

  lemma CutStep(line: Line, rest: seq<Line>)
    requires !IsEcall(line)
    ensures UpToEcall([line] + rest) == [line] + UpToEcall(rest)
  {
    assert ([line] + rest)[1..] == rest;
  }

  lemma CutEcall(line: Line, rest: seq<Line>)
    requires IsEcall(line)
    ensures UpToEcall([line] + rest) == [line]
  {
  }

  lemma FirstStep(line: Line, rest: seq<Line>, p: Line -> bool)
    ensures First([line] + rest, p) == if p(line) then 0 else First(rest, p) + 1
  {
    assert ([line] + rest)[1..] == rest;
  }

  // Lines before the first instruction line belong to no segment.
  lemma SkipStep(line: Line, rest: seq<Line>)
    requires !IsCore(line)
    ensures Segments([line] + rest) == Segments(rest)
  {
    hide Segments, SegmentsAt;
    var lines := [line] + rest;
    FirstStep(line, rest, IsCore);
    hide First;
    var i := First(rest, IsCore);
    SegmentsFrom(lines, First(lines, IsCore));
    SegmentsFrom(rest, i);
    if i < |rest| {
      assert lines[i + 1] == rest[i] && lines[i + 2..] == rest[i + 1..];
    }
  }

  lemma SegmentsFrom(lines: seq<Line>, i: nat)
    requires i == First(lines, IsCore)
    ensures Segments(lines) == if i < |lines| then SegmentsAt(lines[i].core.value, lines[i + 1..]) else []
  {
    hide First, SegmentsAt;
  }

  lemma ReadingSkips(line: Line, rest: seq<Line>)
    requires !IsCore(line)
    ensures Reading([line] + rest) == Reading(rest)
  {
    CutStep(line, rest);
    SkipStep(line, UpToEcall(rest));
  }

  lemma ReadingStarts(line: Line, rest: seq<Line>)
    requires IsCore(line)
    ensures IsEcall(line) ==> Reading([line] + rest) == [Row(New(line.core.value), false)]
    ensures !IsEcall(line) ==> Reading([line] + rest) == Holding(New(line.core.value), rest)
  {
    if IsEcall(line) {
      CutEcall(line, rest);
      SegmentFirst(line, []);
      assert [line] + [] == [line];
      assert Segments([]) == [] && Rows([]) == [];
      assert Complete(New(line.core.value), []) == Row(New(line.core.value), false);
    } else {
      CutStep(line, rest);
      SegmentFirst(line, UpToEcall(rest));
    }
  }

  lemma SegmentFirst(line: Line, rest: seq<Line>)
    requires IsCore(line)
    ensures var k := First(rest, IsCore);
            && Segments([line] + rest) == [Segment(line.core.value, rest[..k])] + Segments(rest[k..])
            && Rows(Segments([line] + rest)) == [Complete(New(line.core.value), rest[..k])] + Rows(Segments(rest[k..]))
  {
    hide Segments;
    FirstStep(line, rest, IsCore);
    SegmentsFrom([line] + rest, 0);
    assert ([line] + rest)[1..] == rest;
    var k := First(rest, IsCore);
    assert SegmentsAt(line.core.value, rest)[1..] == Segments(rest[k..]);
  }

  // An instruction line completes the entry in hand.
  lemma HoldingEnds(e: Entry, line: Line, rest: seq<Line>)
    requires IsCore(line)
    ensures Holding(e, [line] + rest) == [Row(e, false)] + Reading([line] + rest)
  {
    var all := UpToEcall([line] + rest);
    if IsEcall(line) {
      CutEcall(line, rest);
    } else {
      CutStep(line, rest);
    }
    assert all[0] == line;
    assert First(all, IsCore) == 0 && all[..0] == [] && all[0..] == all;
  }

  lemma HoldingCut(e: Entry, line: Line, rest: seq<Line>)
    requires !IsCore(line)
    ensures var all := UpToEcall(rest);
            var k := First(all, IsCore);
            Holding(e, [line] + rest) == [Complete(e, [line] + all[..k])] + Rows(Segments(all[k..]))
  {
    CutStep(line, rest);
    var all := UpToEcall(rest);
    var lines := [line] + all;
    var k := First(all, IsCore);
    assert lines[1..] == all;
    assert First(lines, IsCore) == k + 1;
    assert lines[..k + 1] == [line] + all[..k] && lines[k + 1..] == all[k..];
  }

  lemma {:induction false} LeadingLinesSkipped(lines: seq<Line>, k: nat)
    requires k <= |lines| && forall j :: 0 <= j < k ==> !IsCore(lines[j])
    ensures Segments(lines) == Segments(lines[k..])
    decreases k
  {
    if k == 0 {
      assert lines[0..] == lines;
    } else {
      assert lines == [lines[0]] + lines[1..];
      SkipStep(lines[0], lines[1..]);
      LeadingLinesSkipped(lines[1..], k - 1);
      assert lines[1..][k - 1..] == lines[k..];
    }
  }

  lemma HoldingTraps(e: Entry, line: Line, rest: seq<Line>)
    requires !IsCore(line) && IsTrap(line)
    ensures Holding(e, [line] + rest) == [Row(e, true)] + Reading(rest)
  {
    HoldingCut(e, line, rest);
    var all := UpToEcall(rest);
    var k := First(all, IsCore);
    LeadingLinesSkipped(all, k);
    assert First([line] + all[..k], IsTrap) == 0;
  }

  lemma HoldingGoesOn(e: Entry, line: Line, rest: seq<Line>)
    requires !IsCore(line) && !IsTrap(line)
    ensures line.commit.Some? ==>
              Holding(e, [line] + rest) == Holding(Apply(e, [line.commit.value]), rest)
    ensures line.commit.None? ==> Holding(e, [line] + rest) == Holding(e, rest)
  {
    HoldingCut(e, line, rest);
    var all := UpToEcall(rest);
    var follow := all[..First(all, IsCore)];
    CompleteStep(e, line, follow);
    hide UpToEcall, First, Complete, Segments, Rows, Apply, Commits;
  }

  lemma CompleteStep(e: Entry, line: Line, follow: seq<Line>)
    requires !IsTrap(line)
    ensures Complete(e, [line] + follow) ==
            Complete(if line.commit.Some? then Apply(e, [line.commit.value]) else e, follow)
  {
    var lines := [line] + follow;
    FirstStep(line, follow, IsTrap);
    var t := First(follow, IsTrap);
    assert lines[..t + 1] == [line] + follow[..t];
    CommitsStep(line, follow[..t]);
    if line.commit.Some? {
      ApplyStep(e, line.commit.value, Commits(follow[..t]));
    }
  }

  lemma CommitsStep(line: Line, rest: seq<Line>)
    ensures Commits([line] + rest) == if line.commit.Some? then [line.commit.value] + Commits(rest) else Commits(rest)
  {
    assert ([line] + rest)[1..] == rest;
  }

  lemma ApplyStep(e: Entry, c: Commit, rest: seq<Commit>)
    ensures Apply(e, [c] + rest) == Apply(Apply(e, [c]), rest)
  {
    assert ([c] + rest)[1..] == rest && [c][1..] == [];
  }

  // ---- The readers ----

  // Line i is the first one that ends the trampoline.
  predicate EndsAt(lines: seq<Line>, i: nat) {
    i < |lines| && lines[i].endTrampoline && forall j :: 0 <= j < i ==> !lines[j].endTrampoline
  }

  // Spike: what is read are the lines behind that one.
  ghost predicate SpikeYields(lines: seq<Line>, rows: seq<Row>) {
    && (forall i: nat :: EndsAt(lines, i) ==> rows == Reading(lines[i + 1..]))
    && ((forall l <- lines :: !l.endTrampoline) ==> rows == [])
  }

  // Verilator: what is read are the lines from that one on, but for the debug
  // regions.
  ghost predicate VerilatorYields(lines: seq<Line>, rows: seq<Row>) {
    && (forall i: nat :: EndsAt(lines, i) ==> rows == Reading(WithoutDebug(lines[i..])))
    && ((forall l <- lines :: !l.endTrampoline) ==> rows == [])
  }

  lemma TrampolineMeans(lines: seq<Line>)
    ensures SpikeYields(lines, Reading(AfterTrampoline(lines)))
    ensures VerilatorYields(lines, Reading(WithoutDebug(FromTrampoline(lines))))
  {
    EmptyReading();
    hide First, Reading, WithoutDebug;
    var f := First(lines, IsEnd);
    if f < |lines| {
      assert IsEnd(lines[f]) && lines[f] in lines;
    } else {
      assert lines[f..] == [];
    }
    forall i: nat | EndsAt(lines, i)
      ensures i == f
    {
      assert IsEnd(lines[i]);
    }
  }

  // What is still to be yielded.
  function Rest(instr: Option<Entry>, lines: seq<Line>): seq<Row> {
    if instr.Some? then Holding(instr.value, lines) else Reading(lines)
  }

  // Everything yielded: so far and from here on.
  function Total(rows: seq<Row>, instr: Option<Entry>, lines: seq<Line>): seq<Row> {
    rows + Rest(instr, lines)
  }

  // The entry in hand is yielded at the end of the file.
  function Last(instr: Option<Entry>): seq<Row> {
    if instr.Some? then [Row(instr.value, false)] else []
  }

  lemma RestStep(instr: Option<Entry>, line: Line, rest: seq<Line>)
    ensures instr.Some? && IsCore(line) ==>
      Rest(instr, [line] + rest) == [Row(instr.value, false)] + Rest(None, [line] + rest)
    ensures IsEcall(line) ==> Rest(None, [line] + rest) == Last(Some(New(line.core.value)))
    ensures IsCore(line) && !IsEcall(line) ==> Rest(None, [line] + rest) == Rest(Some(New(line.core.value)), rest)
    ensures !IsCore(line) && instr.None? ==> Rest(instr, [line] + rest) == Rest(instr, rest)
    ensures !IsCore(line) && instr.Some? && line.trap ==>
      Rest(instr, [line] + rest) == [Row(instr.value, true)] + Rest(None, rest)
    ensures !IsCore(line) && instr.Some? && !line.trap ==>
      Rest(instr, [line] + rest) ==
      Rest(Some(if line.commit.Some? then Apply(instr.value, [line.commit.value]) else instr.value), rest)
  {
    hide Holding, Reading, Apply;
    if IsCore(line) {
      ReadingStarts(line, rest);
      if instr.Some? {
        HoldingEnds(instr.value, line, rest);
      }
    } else if instr.None? {
      ReadingSkips(line, rest);
    } else if line.trap {
      HoldingTraps(instr.value, line, rest);
    } else {
      HoldingGoesOn(instr.value, line, rest);
    }
  }

  // The code after the loop.
  function AppendLast(rows: seq<Row>, instr: Option<Entry>): (all: seq<Row>)
    ensures all == rows + Last(instr)
  {
    if instr.Some? then rows + [Row(instr.value, false)] else rows
  }

  // The states INSTR and EFFECT of the loop body; `stop` is the break after an
  // ecall.
  method Step(line: Line, instr: Option<Entry>, rows: seq<Row>, ghost rest: seq<Line>)
    returns (instr1: Option<Entry>, rows1: seq<Row>, stop: bool)
    ensures Total(rows, instr, [line] + rest) == if stop then AppendLast(rows1, instr1) else Total(rows1, instr1, rest)
  {
    RestStep(instr, line, rest);
    hide Rest, Last, Apply;
    instr1, rows1, stop := instr, rows, false;
    if instr.None? {
      if line.core.Some? {
        instr1 := Some(New(line.core.value));
        stop := line.core.value.Ecall();
      }
    } else if line.core.Some? {
      rows1 := rows + [Row(instr.value, false)];
      instr1 := Some(New(line.core.value));
      stop := line.core.value.Ecall();
    } else if line.trap {
      rows1 := rows + [Row(instr.value, true)];
      instr1 := None;
    } else if line.commit.Some? {
      OneCommit(instr.value, line.commit.value);
      instr1 := Some(instr.value.(gpr := instr.value.gpr + [line.commit.value.gpr], mode := line.commit.value.mode));
    }
  }

  lemma OneCommit(e: Entry, c: Commit)
    ensures Apply(e, [c]) == e.(gpr := e.gpr + [c.gpr], mode := c.mode)
  {
  }

  method ReadSpikeTrace(lines: seq<Line>) returns (rows: seq<Row>)
    ensures SpikeYields(lines, rows)
  {
    TrampolineMeans(lines);
    TotalAtStart(AfterTrampoline(lines));
    NothingLeft();
    hide SpikeYields, VerilatorYields, Total, AppendLast, Reading, AfterTrampoline, First, New;
    var inTrampoline := true;
    var instr: Option<Entry> := None;
    rows := [];
    ghost var goal := Total([], None, AfterTrampoline(lines));
    assert lines[0..] == lines;
    for i := 0 to |lines|
      invariant inTrampoline ==> rows == [] && instr.None? && AfterTrampoline(lines[i..]) == AfterTrampoline(lines)
      invariant !inTrampoline ==> Total(rows, instr, lines[i..]) == goal
    {
      var line := lines[i];
      Peel(lines, i);
      if inTrampoline {
        TrampolineStep(line, lines[i + 1..]);
        if line.endTrampoline {
          inTrampoline := false;
        }
        continue;
      }
      var stop;
      instr, rows, stop := Step(line, instr, rows, lines[i + 1..]);
      if stop {
        return AppendLast(rows, instr);
      }
    }
    assert lines[|lines|..] == [];
    LastIsRest(rows, instr);
    return AppendLast(rows, instr);
  }

  lemma EmptyReading()
    ensures Reading([]) == [] && WithoutDebug([]) == []
  {
    EmptyRest(New(Instr("", "", "")));
    NothingLeft();
  }

  lemma TotalAtStart(lines: seq<Line>)
    ensures Total([], None, lines) == Reading(lines)
  {
  }

  lemma NothingLeft()
    ensures AfterTrampoline([]) == [] && FromTrampoline([]) == [] && WithoutDebug([]) == []
  {
  }

  lemma LastIsRest(rows: seq<Row>, instr: Option<Entry>)
    ensures Total(rows, instr, []) == AppendLast(rows, instr)
  {
    assert UpToEcall([]) == [];
    if instr.Some? {
      EmptyRest(instr.value);
    }
  }

  lemma TailOf(line: Line, rest: seq<Line>, i: nat)
    requires i <= |rest|
    ensures ([line] + rest)[i + 1..] == rest[i..] && ([line] + rest)[..i + 1] == [line] + rest[..i]
  {
  }

  lemma TrampolineStep(line: Line, rest: seq<Line>)
    ensures AfterTrampoline([line] + rest) == if line.endTrampoline then rest else AfterTrampoline(rest)
    ensures FromTrampoline([line] + rest) == if line.endTrampoline then [line] + rest else FromTrampoline(rest)
  {
    FirstStep(line, rest, IsEnd);
    hide First;
    var i := First(rest, IsEnd);
    TailOf(line, rest, 0);
    TailOf(line, rest, i);
    if i < |rest| {
      TailOf(line, rest, i + 1);
    }
  }

  lemma DebugFrom(lines: seq<Line>, i: nat)
    requires i == First(lines, IsStart)
    ensures WithoutDebug(lines) == if i < |lines| then lines[..i] + AfterDebug(lines[i + 1..]) else lines
  {
    hide First, AfterDebug;
  }

  lemma AfterFrom(lines: seq<Line>, j: nat)
    requires j == First(lines, IsStop)
    ensures AfterDebug(lines) == if j < |lines| then WithoutDebug(lines[j + 1..]) else []
  {
    hide First, WithoutDebug;
  }

  lemma DebugStep(line: Line, rest: seq<Line>)
    ensures WithoutDebug([line] + rest) == if line.startDebug then AfterDebug(rest) else [line] + WithoutDebug(rest)
    ensures AfterDebug([line] + rest) == if line.stopDebug then WithoutDebug(rest) else AfterDebug(rest)
  {
    InDebugStep(line, rest);
    if line.startDebug {
      DebugNow(line, rest);
    } else {
      DebugLater(line, rest);
    }
  }

  lemma InDebugStep(line: Line, rest: seq<Line>)
    ensures AfterDebug([line] + rest) == if line.stopDebug then WithoutDebug(rest) else AfterDebug(rest)
  {
    hide WithoutDebug, AfterDebug;
    FirstStep(line, rest, IsStop);
    hide First;
    var j := First(rest, IsStop);
    AfterFrom([line] + rest, First([line] + rest, IsStop));
    AfterFrom(rest, j);
    TailOf(line, rest, 0);
    if j < |rest| {
      TailOf(line, rest, j + 1);
    }
  }

  lemma DebugNow(line: Line, rest: seq<Line>)
    requires line.startDebug
    ensures WithoutDebug([line] + rest) == AfterDebug(rest)
  {
    hide WithoutDebug, AfterDebug;
    FirstStep(line, rest, IsStart);
    hide First;
    DebugFrom([line] + rest, 0);
    TailOf(line, rest, 0);
  }

  lemma DebugLater(line: Line, rest: seq<Line>)
    requires !line.startDebug
    ensures WithoutDebug([line] + rest) == [line] + WithoutDebug(rest)
  {
    hide WithoutDebug, AfterDebug;
    FirstStep(line, rest, IsStart);
    hide First;
    var i := First(rest, IsStart);
    DebugFrom([line] + rest, i + 1);
    DebugFrom(rest, i);
    TailOf(line, rest, i);
    if i < |rest| {
      TailOf(line, rest, i + 1);
      Grouped([line], rest[..i], AfterDebug(rest[i + 1..]));
    }
  }

  lemma Grouped(a: seq<Line>, b: seq<Line>, c: seq<Line>)
    ensures (a + b) + c == a + (b + c)
  {
  }

  // ---- Which lines a debug region hides ----

  // Line q lies behind a start line that was itself not inside a region, with
  // no stop line in between. The region includes its stop line.
  predicate Inside(lines: seq<Line>, q: nat)
    requires q <= |lines|
    decreases q
  {
    exists a: nat :: a < q && StartsAt(lines, a, q) && !Inside(lines, a)
  }

  predicate StartsAt(lines: seq<Line>, a: nat, q: nat)
    requires a < q <= |lines|
  {
    lines[a].startDebug && forall j :: a < j < q ==> !lines[j].stopDebug
  }

  predicate Keeps(lines: seq<Line>, q: nat)
    requires q < |lines|
  {
    !Inside(lines, q) && !lines[q].startDebug
  }

  lemma InsideStep(lines: seq<Line>, q: nat)
    requires q < |lines|
    ensures Inside(lines, q + 1) <==> if Inside(lines, q) then !lines[q].stopDebug else lines[q].startDebug
  {
    if Inside(lines, q) && !lines[q].stopDebug {
      var a: nat :| a < q && StartsAt(lines, a, q) && !Inside(lines, a);
      assert StartsAt(lines, a, q + 1);
    }
    if !Inside(lines, q) && lines[q].startDebug {
      assert StartsAt(lines, q, q + 1);
    }
    if Inside(lines, q + 1) {
      var a: nat :| a < q + 1 && StartsAt(lines, a, q + 1) && !Inside(lines, a);
      if a < q {
        assert StartsAt(lines, a, q) && !lines[q].stopDebug;
      }
    }
  }

  function KeptFrom(lines: seq<Line>, i: nat): seq<Line>
    requires i <= |lines|
    decreases |lines| - i
  {
    if i == |lines| then [] else (if Keeps(lines, i) then [lines[i]] else []) + KeptFrom(lines, i + 1)
  }

  lemma {:induction false} DebugIsKept(lines: seq<Line>, i: nat)
    requires i <= |lines|
    ensures (if Inside(lines, i) then AfterDebug(lines[i..]) else WithoutDebug(lines[i..])) == KeptFrom(lines, i)
    decreases |lines| - i
  {
    hide WithoutDebug, AfterDebug, Inside;
    if i == |lines| {
      assert lines[i..] == [];
      NothingLeft();
      DebugAtEnd();
    } else {
      Peel(lines, i);
      DebugStep(lines[i], lines[i + 1..]);
      InsideStep(lines, i);
      DebugIsKept(lines, i + 1);
    }
  }

  function KeptPlaces(lines: seq<Line>, i: nat, n: nat): set<nat>
    requires n <= |lines|
  {
    set q: nat | i <= q < n && Keeps(lines, q)
  }

  lemma KeptPlacesStep(lines: seq<Line>, i: nat, n: nat)
    requires i < n <= |lines|
    ensures |KeptPlaces(lines, i, n)| == |KeptPlaces(lines, i + 1, n)| + if Keeps(lines, i) then 1 else 0
  {
    hide Keeps;
    assert KeptPlaces(lines, i, n) == KeptPlaces(lines, i + 1, n) + if Keeps(lines, i) then {i} else {};
  }

  lemma NoKeptPlaces(lines: seq<Line>, i: nat)
    requires i <= |lines|
    ensures KeptPlaces(lines, i, i) == {}
  {
  }

  lemma {:induction false} KeptAt(lines: seq<Line>, i: nat, q: nat)
    requires i <= q <= |lines|
    ensures |KeptFrom(lines, i)| == |KeptPlaces(lines, i, |lines|)|
    ensures q < |lines| && Keeps(lines, q) ==>
              && |KeptPlaces(lines, i, q)| < |KeptFrom(lines, i)|
              && KeptFrom(lines, i)[|KeptPlaces(lines, i, q)|] == lines[q]
    decreases |lines| - i
  {
    hide Keeps, KeptPlaces;
    NoKeptPlaces(lines, i);
    if i < |lines| {
      KeptPlacesStep(lines, i, |lines|);
      KeptAt(lines, i + 1, if q == i then i + 1 else q);
      if i < q {
        KeptPlacesStep(lines, i, q);
      }
    }
  }

  // Without the debug regions there are exactly the lines that are outside of
  // all regions and start none, in the order of the log.
  lemma DebugMeans(lines: seq<Line>, q: nat)
    requires q <= |lines|
    ensures |WithoutDebug(lines)| == |KeptPlaces(lines, 0, |lines|)|
    ensures q < |lines| && !Inside(lines, q) && !lines[q].startDebug ==>
              && |KeptPlaces(lines, 0, q)| < |WithoutDebug(lines)|
              && WithoutDebug(lines)[|KeptPlaces(lines, 0, q)|] == lines[q]
  {
    hide WithoutDebug, AfterDebug, KeptPlaces, KeptFrom, Inside;
    DebugIsKept(lines, 0);
    OutsideAtFirst(lines);
    assert lines[0..] == lines;
    KeptAt(lines, 0, q);
  }

  lemma OutsideAtFirst(lines: seq<Line>)
    ensures !Inside(lines, 0)
  {
  }

  lemma Peel(lines: seq<Line>, i: nat)
    requires i < |lines|
    ensures lines[i..] == [lines[i]] + lines[i + 1..]
  {
  }

  method ReadVerilatorTrace(lines: seq<Line>) returns (rows: seq<Row>)
    ensures VerilatorYields(lines, rows)
  {
    TrampolineMeans(lines);
    TotalAtStart(WithoutDebug(FromTrampoline(lines)));
    NothingLeft();
    hide SpikeYields, VerilatorYields, Total, AppendLast, Reading, FromTrampoline, WithoutDebug, AfterDebug, First, New;
    var inTrampoline, inDebug := true, false;
    var instr: Option<Entry> := None;
    rows := [];
    ghost var goal := Total([], None, WithoutDebug(FromTrampoline(lines)));
    assert lines[0..] == lines;
    for i := 0 to |lines|
      invariant inTrampoline ==>
        rows == [] && instr.None? && !inDebug && FromTrampoline(lines[i..]) == FromTrampoline(lines)
      invariant !inTrampoline ==>
        Total(rows, instr, if inDebug then AfterDebug(lines[i..]) else WithoutDebug(lines[i..])) == goal
    {
      var line := lines[i];
      Peel(lines, i);
      if inTrampoline {
        TrampolineStep(line, lines[i + 1..]);
        if line.endTrampoline {
          inTrampoline := false;
        } else {
          continue;
        }
      }
      DebugStep(line, lines[i + 1..]);
      if inDebug {
        if line.stopDebug {
          inDebug := false;
        }
        continue;
      } else if line.startDebug {
        inDebug := true;
        continue;
      }
      var stop;
      instr, rows, stop := Step(line, instr, rows, WithoutDebug(lines[i + 1..]));
      if stop {
        return AppendLast(rows, instr);
      }
    }
    assert lines[|lines|..] == [];
    DebugAtEnd();
    LastIsRest(rows, instr);
    return AppendLast(rows, instr);
  }

  lemma DebugAtEnd()
    ensures AfterDebug([]) == []
  {
  }

  // ---- What a reading says ----

  // The instructions of a log, in order.
  function Instrs(lines: seq<Line>): seq<Instr> {
    if lines == [] then [] else InstrIn(lines[0]) + Instrs(lines[1..])
  }

  function InstrIn(line: Line): seq<Instr> {
    if IsCore(line) then [line.core.value] else []
  }

  function RowInstrs(rows: seq<Row>): seq<Instr> {
    if rows == [] then [] else [rows[0].entry.instr] + RowInstrs(rows[1..])
  }

  function Gprs(commits: seq<Commit>): (gprs: seq<string>)
    ensures |gprs| == |commits| && forall i :: 0 <= i < |commits| ==> gprs[i] == commits[i].gpr
  {
    seq(|commits|, i requires 0 <= i < |commits| => commits[i].gpr)
  }

  lemma GprsFirst(gpr: seq<string>, commits: seq<Commit>)
    requires commits != []
    ensures gpr + Gprs(commits) == gpr + [commits[0].gpr] + Gprs(commits[1..])
  {
  }

  lemma {:induction false} ApplyMeans(e: Entry, commits: seq<Commit>)
    ensures Apply(e, commits).instr == e.instr
    ensures Apply(e, commits).gpr == e.gpr + Gprs(commits)
    ensures Apply(e, commits).mode == if commits == [] then e.mode else commits[|commits| - 1].mode
    decreases |commits|
  {
    hide Gprs;
    if commits == [] {
      assert e.gpr + Gprs(commits) == e.gpr;
    } else {
      GprsFirst(e.gpr, commits);
      ApplyMeans(e.(gpr := e.gpr + [commits[0].gpr], mode := commits[0].mode), commits[1..]);
    }
  }

  // t is the position of the first trap line, or the end.
  predicate FirstTrapAt(lines: seq<Line>, t: nat) {
    && t <= |lines|
    && (forall j :: 0 <= j < t ==> !lines[j].trap)
    && (t < |lines| ==> lines[t].trap)
  }

  // Which of the first n lines have a property, and how many.
  function Places(lines: seq<Line>, n: nat, p: Line -> bool): set<nat>
    requires n <= |lines|
  {
    set q: nat | q < n && p(lines[q])
  }

  function Place(lines: seq<Line>, n: nat, p: Line -> bool): nat
    requires n <= |lines|
  {
    |Places(lines, n, p)|
  }

  predicate IsCommit(l: Line) { l.commit.Some? }

  lemma PlaceStep(lines: seq<Line>, n: nat, p: Line -> bool)
    requires n < |lines|
    ensures Place(lines, n + 1, p) == Place(lines, n, p) + if p(lines[n]) then 1 else 0
  {
    assert Places(lines, n + 1, p) == Places(lines, n, p) + if p(lines[n]) then {n} else {};
  }

  lemma {:induction false} PlaceShift(line: Line, rest: seq<Line>, n: nat, p: Line -> bool)
    requires n <= |rest|
    ensures Place([line] + rest, n + 1, p) == (if p(line) then 1 else 0) + Place(rest, n, p)
    decreases n
  {
    hide Place;
    PlaceStep([line] + rest, n, p);
    if n == 0 {
      NoPlace([line] + rest, p);
      NoPlace(rest, p);
    } else {
      PlaceStep(rest, n - 1, p);
      PlaceShift(line, rest, n - 1, p);
    }
  }

  lemma NoPlace(lines: seq<Line>, p: Line -> bool)
    ensures Place(lines, 0, p) == 0
  {
    assert forall q: nat :: q !in Places(lines, 0, p);
  }

  // The commits of some lines are those of the lines that have one, in order.
  lemma {:induction false} CommitsMean(lines: seq<Line>, n: nat)
    requires n <= |lines|
    ensures |Commits(lines)| == Place(lines, |lines|, IsCommit)
    ensures n < |lines| && lines[n].commit.Some? ==>
              && Place(lines, n, IsCommit) < |Commits(lines)|
              && Commits(lines)[Place(lines, n, IsCommit)] == lines[n].commit.value
    decreases |lines|
  {
    hide Place, Commits;
    NoPlace(lines, IsCommit);
    if lines == [] {
      assert Commits([]) == [] by { NoCommits(); }
    } else {
      var line, rest := lines[0], lines[1..];
      assert lines == [line] + rest;
      CommitsStep(line, rest);
      PlaceShift(line, rest, |rest|, IsCommit);
      CommitsMean(rest, if n == 0 then 0 else n - 1);
      if n > 0 {
        PlaceShift(line, rest, n - 1, IsCommit);
      }
    }
  }

  lemma NoCommits()
    ensures Commits([]) == []
  {
  }

  predicate LastCommitAt(lines: seq<Line>, t: nat, n: nat) {
    n < t <= |lines| && lines[n].commit.Some? && forall j :: n < j < t ==> lines[j].commit.None?
  }

  // A row is illegal exactly when its segment has a trap line. It carries the
  // register updates committed before that line, each in its place, and the
  // mode of the last of them.
  lemma RowMeans(s: Segment, t: nat, n: nat)
    requires FirstTrapAt(s.follow, t) && n <= t
    ensures RowOf(s).entry.instr == s.instr
    ensures RowOf(s).illegal <==> exists j :: 0 <= j < |s.follow| && s.follow[j].trap
    ensures |RowOf(s).entry.gpr| == Place(s.follow, t, IsCommit)
    ensures n < t && s.follow[n].commit.Some? ==>
              && Place(s.follow, n, IsCommit) < |RowOf(s).entry.gpr|
              && RowOf(s).entry.gpr[Place(s.follow, n, IsCommit)] == s.follow[n].commit.value.gpr
    ensures LastCommitAt(s.follow, t, n) ==> RowOf(s).entry.mode == s.follow[n].commit.value.mode
    ensures Place(s.follow, t, IsCommit) == 0 ==> RowOf(s).entry.mode == ""
  {
    hide Place, Commits, Gprs;
    var lines := s.follow[..t];
    FirstTrapIsFirst(s.follow, t);
    ApplyMeans(New(s.instr), Commits(lines));
    CommitsMean(lines, n);
    PlacePrefix(s.follow, t, t, IsCommit);
    PlacePrefix(s.follow, t, n, IsCommit);
    if LastCommitAt(s.follow, t, n) {
      PlaceOfLast(s.follow, t, n);
    }
  }

  lemma PlacePrefix(lines: seq<Line>, t: nat, n: nat, p: Line -> bool)
    requires n <= t <= |lines|
    ensures Place(lines[..t], n, p) == Place(lines, n, p)
  {
    assert Places(lines[..t], n, p) == Places(lines, n, p);
  }

  lemma {:induction false} PlaceOfLast(lines: seq<Line>, t: nat, n: nat)
    requires LastCommitAt(lines, t, n)
    ensures Place(lines, t, IsCommit) == Place(lines, n, IsCommit) + 1
    decreases t
  {
    hide Place;
    PlaceStep(lines, t - 1, IsCommit);
    if n < t - 1 {
      PlaceOfLast(lines, t - 1, n);
    }
  }

  // Line k is the next instruction line after p, or the end.
  predicate NextCore(lines: seq<Line>, p: nat, k: nat) {
    && p < k <= |lines|
    && (forall j :: p < j < k ==> !IsCore(lines[j]))
    && (k < |lines| ==> IsCore(lines[k]))
  }

  lemma {:induction false} SegmentsCount(lines: seq<Line>)
    ensures |Segments(lines)| == Place(lines, |lines|, IsCore)
    decreases |lines|
  {
    hide Place, Segments, First;
    NoPlace(lines, IsCore);
    if lines == [] {
      NoSegments();
    } else {
      assert lines == [lines[0]] + lines[1..];
      PlaceShift(lines[0], lines[1..], |lines| - 1, IsCore);
      SegmentsStep(lines[0], lines[1..]);
      SegmentsCount(lines[1..]);
    }
  }

  // There is a segment for each instruction line, with the lines up to the next
  // one, in the order of the log.
  lemma {:induction false} SegmentsMean(lines: seq<Line>, p: nat, k: nat)
    requires p < |lines| && IsCore(lines[p]) && NextCore(lines, p, k)
    ensures |Segments(lines)| == Place(lines, |lines|, IsCore)
    ensures Place(lines, p, IsCore) < |Segments(lines)|
    ensures Segments(lines)[Place(lines, p, IsCore)] == Segment(lines[p].core.value, lines[p + 1..k])
    decreases p
  {
    hide Place, Segments, First, NextCore;
    SegmentsCount(lines);
    var line, rest := lines[0], lines[1..];
    assert lines == [line] + rest;
    if p == 0 {
      SegmentHere(line, rest, k);
    } else {
      NextCoreShift(line, rest, p, k);
      SegmentsMean(rest, p - 1, k - 1);
      SegmentLater(line, rest, p, k);
    }
  }

  lemma NextCoreShift(line: Line, rest: seq<Line>, p: nat, k: nat)
    requires p > 0 && NextCore([line] + rest, p, k)
    ensures p < k && NextCore(rest, p - 1, k - 1)
  {
    forall j | p - 1 < j < k - 1
      ensures !IsCore(rest[j])
    {
      assert ([line] + rest)[j + 1] == rest[j];
    }
  }

  lemma SegmentHere(line: Line, rest: seq<Line>, k: nat)
    requires IsCore(line) && NextCore([line] + rest, 0, k)
    ensures var lines := [line] + rest;
            && Place(lines, 0, IsCore) < |Segments(lines)|
            && Segments(lines)[Place(lines, 0, IsCore)] == Segment(line.core.value, lines[1..k])
  {
    forall j | 0 <= j < k - 1
      ensures !IsCore(rest[j])
    {
      assert ([line] + rest)[j + 1] == rest[j];
    }
    hide Place, Segments, First;
    NoPlace([line] + rest, IsCore);
    SegmentsStep(line, rest);
    FirstIs(rest, k - 1);
    Slice(line, rest, 0, k - 1);
  }

  lemma SegmentLater(line: Line, rest: seq<Line>, p: nat, k: nat)
    requires 0 < p < k <= |rest| + 1
    requires Place(rest, p - 1, IsCore) < |Segments(rest)|
    ensures var lines := [line] + rest;
            && Place(lines, p, IsCore) < |Segments(lines)|
            && Segments(lines)[Place(lines, p, IsCore)] == Segments(rest)[Place(rest, p - 1, IsCore)]
            && lines[p] == rest[p - 1] && lines[p + 1..k] == rest[p..k - 1]
  {
    hide *;
    PlaceShift(line, rest, p - 1, IsCore);
    SegmentsStep(line, rest);
    Slice(line, rest, p, k - 1);
  }

  lemma Slice(line: Line, rest: seq<Line>, a: nat, b: nat)
    requires a <= b <= |rest|
    ensures ([line] + rest)[a + 1..b + 1] == rest[a..b]
  {
  }

  lemma NoSegments()
    ensures Segments([]) == []
  {
  }

  lemma FirstIs(lines: seq<Line>, i: nat)
    requires i <= |lines| && (forall j :: 0 <= j < i ==> !IsCore(lines[j])) && (i < |lines| ==> IsCore(lines[i]))
    ensures First(lines, IsCore) == i
  {
    hide First;
    var f := First(lines, IsCore);
    if f < |lines| {
      assert IsCore(lines[f]);
    }
    if i < |lines| {
      assert IsCore(lines[i]);
    }
  }

  lemma SegmentsStep(line: Line, rest: seq<Line>)
    ensures var k := First(rest, IsCore);
            Segments([line] + rest) ==
            if IsCore(line) then [Segment(line.core.value, rest[..k])] + Segments(rest) else Segments(rest)
  {
    if IsCore(line) {
      SegmentFirst(line, rest);
      hide First, Segments;
      LeadingLinesSkipped(rest, First(rest, IsCore));
    } else {
      SkipStep(line, rest);
    }
  }

  lemma {:induction false} RowsAre(segments: seq<Segment>, i: nat)
    ensures |Rows(segments)| == |segments|
    ensures i < |segments| ==> Rows(segments)[i] == RowOf(segments[i])
    decreases |segments|
  {
    hide RowOf;
    if segments != [] {
      RowsAre(segments[1..], if i == 0 then 0 else i - 1);
    }
  }

  // The log is read up to position e: behind the first ecall, or to its end.
  predicate CutAt(lines: seq<Line>, e: nat) {
    && e <= |lines|
    && (forall j :: 0 <= j < e - 1 ==> !IsEcall(lines[j]))
    && (e < |lines| ==> e > 0 && IsEcall(lines[e - 1]))
  }

  lemma CutIs(lines: seq<Line>, e: nat)
    requires CutAt(lines, e)
    ensures UpToEcall(lines) == lines[..e]
  {
    hide First;
    var i := First(lines, IsEcall);
    if i < |lines| {
      assert IsEcall(lines[i]);
    }
    if e < |lines| {
      assert IsEcall(lines[e - 1]);
    }
  }

  // What is yielded: for each instruction line up to the first ecall, in the
  // order of the log, the row of that line and the lines up to the next one.
  lemma ReadingMeans(lines: seq<Line>, e: nat, p: nat, k: nat)
    requires CutAt(lines, e) && p < e && IsCore(lines[p]) && NextCore(lines[..e], p, k)
    ensures |Reading(lines)| == Place(lines, e, IsCore)
    ensures Place(lines, p, IsCore) < |Reading(lines)|
    ensures Reading(lines)[Place(lines, p, IsCore)] == RowOf(Segment(lines[p].core.value, lines[p + 1..k]))
  {
    var cut := lines[..e];
    CutIs(lines, e);
    hide Place, Segments, Rows, RowOf, First, UpToEcall, CutAt;
    SegmentsMean(cut, p, k);
    PlacePrefix(lines, e, p, IsCore);
    PlacePrefix(lines, e, e, IsCore);
    RowsAre(Segments(cut), Place(cut, p, IsCore));
    assert cut[p + 1..k] == lines[p + 1..k];
  }

  lemma FirstTrapIsFirst(lines: seq<Line>, t: nat)
    requires FirstTrapAt(lines, t)
    ensures First(lines, IsTrap) == t
  {
    hide First;
    var f := First(lines, IsTrap);
    if f < |lines| {
      assert IsTrap(lines[f]);
    }
    if t < |lines| {
      assert IsTrap(lines[t]);
    }
  }

  lemma {:induction false} LeadingInstrs(lines: seq<Line>, k: nat)
    requires k <= |lines| && forall j :: 0 <= j < k ==> !IsCore(lines[j])
    ensures Instrs(lines) == Instrs(lines[k..])
    decreases k
  {
    if k == 0 {
      assert lines[0..] == lines;
    } else {
      LeadingInstrs(lines[1..], k - 1);
      assert lines[1..][k - 1..] == lines[k..];
    }
  }

  lemma {:induction false} SegmentInstrs(lines: seq<Line>)
    ensures RowInstrs(Rows(Segments(lines))) == Instrs(lines)
    decreases |lines|
  {
    hide First, Segments, Rows, RowInstrs, Instrs;
    var i := First(lines, IsCore);
    SegmentsFrom(lines, i);
    LeadingInstrs(lines, i);
    if i < |lines| {
      var rest := lines[i + 1..];
      var k := First(rest, IsCore);
      LeadingInstrs(rest, k);
      SegmentInstrs(rest[k..]);
      InstrFirst(lines, i);
      RowsCons(Segment(lines[i].core.value, rest[..k]), Segments(rest[k..]));
    } else {
      Nothing();
      assert lines[i..] == [];
    }
  }

  lemma Nothing()
    ensures RowInstrs(Rows([])) == [] == Instrs([])
  {
  }

  lemma RowsCons(s: Segment, rest: seq<Segment>)
    ensures RowInstrs(Rows([s] + rest)) == [s.instr] + RowInstrs(Rows(rest))
  {
    assert ([s] + rest)[1..] == rest;
    assert ([RowOf(s)] + Rows(rest))[1..] == Rows(rest);
    ApplyMeans(New(s.instr), Commits(s.follow[..First(s.follow, IsTrap)]));
  }

  lemma InstrFirst(lines: seq<Line>, i: nat)
    requires i < |lines| && IsCore(lines[i])
    ensures Instrs(lines[i..]) == [lines[i].core.value] + Instrs(lines[i + 1..])
  {
    Peel(lines, i);
    assert lines[i..][1..] == lines[i + 1..];
  }

  // Each instruction up to the first ecall is yielded once, in order.
  lemma EveryInstructionOnce(lines: seq<Line>)
    ensures RowInstrs(Reading(lines)) == Instrs(UpToEcall(lines))
  {
    SegmentInstrs(UpToEcall(lines));
  }

  lemma {:induction false} InstrsConcat(a: seq<Line>, b: seq<Line>)
    ensures Instrs(a + b) == Instrs(a) + Instrs(b)
    decreases |a|
  {
    if a == [] {
      assert a + b == b;
    } else {
      hide InstrIn;
      InstrsConcat(a[1..], b);
      assert (a + b)[0] == a[0] && (a + b)[1..] == a[1..] + b;
      assert Instrs(a + b) == InstrIn(a[0]) + Instrs(a[1..] + b);
      assert Instrs(a) == InstrIn(a[0]) + Instrs(a[1..]);
    }
  }

  lemma {:induction false} NoEcall(lines: seq<Line>)
    requires forall l <- lines :: !IsEcall(l)
    ensures forall i <- Instrs(lines) :: !i.Ecall()
    decreases |lines|
  {
    if lines != [] {
      assert !IsEcall(lines[0]);
      NoEcall(lines[1..]);
    }
  }

  // If an ecall is yielded at all, it is the last instruction.
  lemma EcallIsLast(lines: seq<Line>, n: nat)
    requires n < |RowInstrs(Reading(lines))| && RowInstrs(Reading(lines))[n].Ecall()
    ensures n == |RowInstrs(Reading(lines))| - 1
  {
    EveryInstructionOnce(lines);
    hide Reading, RowInstrs, First;
    var i := First(lines, IsEcall);
    var last := lines[i..if i < |lines| then i + 1 else i];
    assert UpToEcall(lines) == lines[..i] + last;
    InstrsConcat(lines[..i], last);
    NoEcall(lines[..i]);
    AtMostOne(last);
  }

  lemma AtMostOne(lines: seq<Line>)
    requires |lines| <= 1
    ensures |Instrs(lines)| <= 1
  {
  }
}
