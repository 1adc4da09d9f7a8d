// The scanner of the CoreMark state-machine benchmark: how repeated calls cut a
// text into tokens, and what they charge to the transition counters.

module StateScan {
  import Arith
  import opened StateGrammar

  // ---- Scanning ----

  ghost predicate NulAhead(text: seq<bv8>, i: nat) {
    exists j: nat :: i <= j < |text| && text[j] == 0
  }

  function FirstNul(text: seq<bv8>, i: nat): (n: nat)
    requires NulAhead(text, i)
    ensures i <= n < |text| && text[n] == 0 && forall j :: i <= j < n ==> text[j] != 0
    decreases |text| - i
  {
    if text[i] == 0 then i else FirstNul(text, i + 1)
  }

  // From position i in state st: where the scan stops and in which state.
  function ScanFrom(text: seq<bv8>, i: nat, st: State): (r: (nat, State))
    requires NulAhead(text, i)
    ensures i <= r.0 <= FirstNul(text, i)
    ensures text[i] != 0 && st != Invalid ==> i < r.0
    decreases |text| - i
  {
    if text[i] == 0 || st == Invalid then (i, st)
    else if text[i] == COMMA then (i + 1, st)
    else ScanFrom(text, i + 1, Next(st, text[i]))
  }

  // How often the scan charges `counter`.
  function Charged(text: seq<bv8>, i: nat, st: State, counter: State): nat
    requires NulAhead(text, i)
    decreases |text| - i
  {
    if text[i] == 0 || st == Invalid || text[i] == COMMA then 0
    else (if Charges(st, text[i], counter) then 1 else 0) + Charged(text, i + 1, Next(st, text[i]), counter)
  }

  datatype Token = Token(from: nat, end: nat, state: State) {
    predicate In(text: seq<bv8>) {
      from <= end <= |text|
    }
  }

  // Scanning again and again, up to the first NUL.
  function Tokens(text: seq<bv8>, i: nat): (tokens: seq<Token>)
    requires NulAhead(text, i)
    ensures forall t <- tokens :: t.In(text)
    decreases |text| - i
  {
    if text[i] == 0 then []
    else
      var (end, state) := ScanFrom(text, i, Start);
      StillAhead(text, i, end);
      [Token(i, end, state)] + Tokens(text, end)
  }

  lemma StillAhead(text: seq<bv8>, i: nat, j: nat)
    requires NulAhead(text, i) && i <= j <= FirstNul(text, i)
    ensures NulAhead(text, j) && FirstNul(text, j) == FirstNul(text, i)
  {
    var n, m := FirstNul(text, i), FirstNul(text, j);
  }

  function Finals(tokens: seq<Token>, state: State): nat {
    if tokens == [] then 0
    else (if tokens[0].state == state then 1 else 0) + Finals(tokens[1..], state)
  }

  // ---- What a token is ----

  // The word of a token: without the comma that may end it.
  function WordEnd(text: seq<bv8>, t: Token): (k: nat)
    requires t.In(text)
    ensures t.from <= k <= t.end
  {
    if t.end > t.from && text[t.end - 1] == COMMA then t.end - 1 else t.end
  }

  // The text from..k is a word without NUL or comma that is not yet invalid
  // before its last character.
  predicate OpenWord(text: seq<bv8>, from: nat, k: nat) {
    && from <= k <= |text|
    && (forall j :: from <= j < k ==> text[j] != 0 && text[j] != COMMA)
    && (forall j: nat :: from <= j < k ==> !IllegalBefore(text, from, j))
  }

  predicate IllegalBefore(text: seq<bv8>, from: nat, j: nat)
    requires from <= j <= |text|
  {
    Means(Invalid, text[from..j])
  }

  predicate TokenMeans(text: seq<bv8>, t: Token)
    requires t.In(text)
  {
    var k := WordEnd(text, t);
    && OpenWord(text, t.from, k)
    && Means(t.state, text[t.from..k])
    && (k == t.end ==> t.state == Invalid || (k < |text| && text[k] == 0))
  }

  lemma WordMore(text: seq<bv8>, from: nat, k: nat)
    requires from <= k < |text|
    ensures Word(text[from..k + 1]) == Next(Word(text[from..k]), text[k])
  {
    var w := text[from..k + 1];
    assert w[..|w| - 1] == text[from..k] && w[|w| - 1] == text[k];
  }

  lemma {:induction false} ScanMeans(text: seq<bv8>, from: nat, i: nat, st: State)
    requires NulAhead(text, i) && OpenWord(text, from, i) && st == Word(text[from..i])
    ensures TokenMeans(text, Token(from, ScanFrom(text, i, st).0, ScanFrom(text, i, st).1))
    decreases |text| - i
  {
    hide Means, Next, Word;
    MachineIsGrammar(text[from..i], st);
    MachineIsGrammar(text[from..i], Invalid);
    if text[i] != 0 && st != Invalid && text[i] != COMMA {
      WordMore(text, from, i);
      ScanMeans(text, from, i + 1, Next(st, text[i]));
    }
  }

  // ---- What a token is charged ----

  // The word has the form of the state, but not with one more character.
  predicate LeavesAt(text: seq<bv8>, from: nat, j: nat, state: State)
    requires from <= j < |text|
  {
    Means(state, text[from..j]) && !Means(state, text[from..j + 1])
  }

  function Leaves(text: seq<bv8>, from: nat, i: nat, k: nat, state: State): set<nat>
    requires from <= i && k <= |text|
  {
    set j: nat | i <= j < k && LeavesAt(text, from, j, state)
  }

  // The word is illegal from its first character on, or from the one behind a
  // complete scientific number.
  predicate BadEnd(text: seq<bv8>, from: nat, k: nat)
    requires k <= |text|
  {
    && from < k
    && Means(Invalid, text[from..k])
    && (k == from + 1 || Means(Scientific, text[from..k - 1]))
  }

  // What the scan of a token charges each counter.
  function TokenCharge(text: seq<bv8>, t: Token, counter: State): nat
    requires t.In(text)
  {
    match counter
    case Scientific => 0
    case Invalid => if BadEnd(text, t.from, WordEnd(text, t)) then 1 else 0
    case _ => |Leaves(text, t.from, t.from, WordEnd(text, t), counter)|
  }

  function ChargeSum(text: seq<bv8>, tokens: seq<Token>, counter: State): nat
    requires forall t <- tokens :: t.In(text)
  {
    if tokens == [] then 0 else TokenCharge(text, tokens[0], counter) + ChargeSum(text, tokens[1..], counter)
  }

  function TokenAt(text: seq<bv8>, from: nat, i: nat, st: State): (t: Token)
    requires NulAhead(text, i) && from <= i
    ensures t.In(text) && t.from == from
  {
    Token(from, ScanFrom(text, i, st).0, ScanFrom(text, i, st).1)
  }

  // Where the scan stops at once, and where it goes on.
  lemma WordEnds(text: seq<bv8>, from: nat, i: nat, st: State)
    requires NulAhead(text, i) && OpenWord(text, from, i)
    ensures text[i] == 0 || st == Invalid || text[i] == COMMA ==> WordEnd(text, TokenAt(text, from, i, st)) == i
    ensures text[i] != 0 && st != Invalid && text[i] != COMMA ==>
            NulAhead(text, i + 1) && TokenAt(text, from, i, st) == TokenAt(text, from, i + 1, Next(st, text[i]))
    ensures i <= WordEnd(text, TokenAt(text, from, i, st)) <= |text|
    decreases |text| - i
  {
    hide Next, Means;
    var end := ScanFrom(text, i, st).0;
    if i == end && i > from {
      assert text[i - 1] != COMMA;
    }
  }

  // The scan goes on with an open word.
  lemma StaysOpen(text: seq<bv8>, from: nat, i: nat, st: State)
    requires NulAhead(text, i) && OpenWord(text, from, i) && st == Word(text[from..i])
    requires text[i] != 0 && st != Invalid && text[i] != COMMA
    ensures OpenWord(text, from, i + 1) && Word(text[from..i + 1]) == Next(st, text[i])
  {
    hide Means, Next, Word;
    MachineIsGrammar(text[from..i], Invalid);
    WordMore(text, from, i);
  }

  lemma LeavesOne(text: seq<bv8>, from: nat, i: nat, k: nat, state: State)
    requires from <= i < k <= |text|
    ensures |Leaves(text, from, i, k, state)| ==
            |Leaves(text, from, i + 1, k, state)| + if LeavesAt(text, from, i, state) then 1 else 0
  {
    hide LeavesAt;
    var all, rest := Leaves(text, from, i, k, state), Leaves(text, from, i + 1, k, state);
    forall j: nat
      ensures j in all <==> j in rest || (j == i && LeavesAt(text, from, i, state))
    {
    }
    hide Leaves;
    assert i !in rest;
    assert all == if LeavesAt(text, from, i, state) then rest + {i} else rest;
  }

  lemma LeavesMore(text: seq<bv8>, from: nat, i: nat, k: nat, state: State)
    requires from <= i < k <= |text|
    ensures |Leaves(text, from, i, k, state)| ==
            |Leaves(text, from, i + 1, k, state)| +
            if Word(text[from..i]) == state && Word(text[from..i + 1]) != state then 1 else 0
  {
    hide Means, Word, Leaves;
    MachineIsGrammar(text[from..i], state);
    MachineIsGrammar(text[from..i + 1], state);
    LeavesOne(text, from, i, k, state);
  }

  lemma ChargesLeaving(st: State, c: bv8, counter: State)
    requires counter != Invalid && counter != Scientific
    ensures Charges(st, c, counter) <==> st == counter && Next(st, c) != counter
  {
  }

  lemma NoLeaves(text: seq<bv8>, from: nat, i: nat, state: State)
    requires from <= i <= |text|
    ensures Leaves(text, from, i, i, state) == {}
  {
  }

  lemma InText(text: seq<bv8>, from: nat, i: nat)
    requires NulAhead(text, i) && OpenWord(text, from, i)
    ensures from <= i < |text|
  {
    hide Means;
  }

  lemma ChargedStep(text: seq<bv8>, i: nat, st: State, counter: State)
    requires NulAhead(text, i)
    ensures var stops := text[i] == 0 || st == Invalid || text[i] == COMMA;
            if stops then Charged(text, i, st, counter) == 0
            else
              && NulAhead(text, i + 1)
              && Charged(text, i, st, counter) ==
                 (if Charges(st, text[i], counter) then 1 else 0) + Charged(text, i + 1, Next(st, text[i]), counter)
  {
    hide Charges, Next;
  }

  lemma {:induction false} ChargedLeaving(text: seq<bv8>, from: nat, i: nat, st: State, counter: State)
    requires NulAhead(text, i) && OpenWord(text, from, i) && st == Word(text[from..i])
    requires counter != Invalid && counter != Scientific
    ensures i <= WordEnd(text, TokenAt(text, from, i, st))
    ensures Charged(text, i, st, counter) ==
            |Leaves(text, from, i, WordEnd(text, TokenAt(text, from, i, st)), counter)|
    decreases |text| - i
  {
    hide *;
    InText(text, from, i);
    ChargedStep(text, i, st, counter);
    WordEnds(text, from, i, st);
    NoLeaves(text, from, i, counter);
    if text[i] != 0 && st != Invalid && text[i] != COMMA {
      StaysOpen(text, from, i, st);
      ChargedLeaving(text, from, i + 1, Next(st, text[i]), counter);
      ChargesLeaving(st, text[i], counter);
      LeavesMore(text, from, i, WordEnd(text, TokenAt(text, from, i, st)), counter);
    }
  }

  lemma InvalidStep(text: seq<bv8>, from: nat, i: nat, st: State)
    requires from <= i < |text| && st == Word(text[from..i]) && st != Invalid
    requires Word(text[from..i + 1]) == Next(st, text[i])
    ensures Charges(st, text[i], Invalid) <==> BadEnd(text, from, i + 1)
    ensures BadEnd(text, from, i + 1) ==> Next(st, text[i]) == Invalid
  {
    hide Means, Next, Word;
    MachineIsGrammar(text[from..i + 1], Invalid);
    MachineIsGrammar(text[from..i], Scientific);
    MachineIsGrammar(text[from..i], Start);
    StartIsEmpty(text, from, i);
  }

  lemma {:induction false} ChargedInvalid(text: seq<bv8>, from: nat, i: nat, st: State)
    requires NulAhead(text, i) && OpenWord(text, from, i) && st == Word(text[from..i])
    ensures var k := WordEnd(text, TokenAt(text, from, i, st));
            Charged(text, i, st, Invalid) == if i < k && BadEnd(text, from, k) then 1 else 0
    decreases |text| - i
  {
    hide *;
    InText(text, from, i);
    ChargedStep(text, i, st, Invalid);
    WordEnds(text, from, i, st);
    if text[i] != 0 && st != Invalid && text[i] != COMMA {
      var next := Next(st, text[i]);
      StaysOpen(text, from, i, st);
      InvalidStep(text, from, i, st);
      ChargedInvalid(text, from, i + 1, next);
      WordEnds(text, from, i + 1, next);
    }
  }

  lemma StartIsEmpty(text: seq<bv8>, from: nat, i: nat)
    requires from <= i <= |text|
    ensures Means(Start, text[from..i]) <==> i == from
  {
  }

  lemma {:induction false} NeverScientific(text: seq<bv8>, i: nat, st: State)
    requires NulAhead(text, i)
    ensures Charged(text, i, st, Scientific) == 0
    decreases |text| - i
  {
    if text[i] != 0 && st != Invalid && text[i] != COMMA {
      NeverScientific(text, i + 1, Next(st, text[i]));
    }
  }

  // The charges of one scan, read off the grammar.
  lemma ChargedMeans(text: seq<bv8>, i: nat, counter: State)
    requires NulAhead(text, i)
    ensures Charged(text, i, Start, counter) == TokenCharge(text, TokenAt(text, i, i, Start), counter)
  {
    hide Means, Word, Leaves, Charged, Next;
    StartsOpen(text, i);
    if counter == Scientific {
      NeverScientific(text, i, Start);
    } else if counter == Invalid {
      ChargedInvalid(text, i, i, Start);
      StartIsEmpty(text, i, i);
      MachineIsGrammar(text[i..i], Start);
      MachineIsGrammar(text[i..i], Invalid);
      WordEnds(text, i, i, Start);
    } else {
      ChargedLeaving(text, i, i, Start, counter);
    }
  }

  // Tokens are non-empty, follow each other without gaps, and end at n.
  predicate CutsUp(text: seq<bv8>, tokens: seq<Token>, i: nat, n: nat)
    decreases |tokens|
  {
    if tokens == [] then i == n
    else
      && tokens[0].from == i < tokens[0].end <= n <= |text|
      && TokenMeans(text, tokens[0])
      && CutsUp(text, tokens[1..], tokens[0].end, n)
  }

  lemma {:induction false} TokensCutUpText(text: seq<bv8>, i: nat)
    requires NulAhead(text, i)
    ensures CutsUp(text, Tokens(text, i), i, FirstNul(text, i))
    decreases |text| - i
  {
    hide TokenMeans;
    if text[i] != 0 {
      var (end, state) := ScanFrom(text, i, Start);
      StillAhead(text, i, end);
      StartsOpen(text, i);
      ScanMeans(text, i, i, Start);
      TokensCutUpText(text, end);
      assert Tokens(text, i)[1..] == Tokens(text, end);
    }
  }

  lemma StartsOpen(text: seq<bv8>, i: nat)
    requires i <= |text|
    ensures OpenWord(text, i, i) && Word(text[i..i]) == Start
  {
  }

  function EndingIn(tokens: seq<Token>, n: nat, state: State): set<nat>
    requires n <= |tokens|
  {
    set i: nat | i < n && tokens[i].state == state
  }

  // The final count of a state is the number of tokens that end in it.
  lemma FinalsMean(tokens: seq<Token>, state: State)
    ensures Finals(tokens, state) == |EndingIn(tokens, |tokens|, state)|
  {
    FinalsUpTo(tokens, |tokens|, state);
    assert tokens[..|tokens|] == tokens;
  }

  lemma {:induction false} FinalsUpTo(tokens: seq<Token>, n: nat, state: State)
    requires n <= |tokens|
    ensures Finals(tokens[..n], state) == |EndingIn(tokens, n, state)|
    decreases n
  {
    if n == 0 {
      assert EndingIn(tokens, 0, state) == {};
    } else {
      FinalsUpTo(tokens, n - 1, state);
      FinalsMore(tokens[..n - 1], tokens[n - 1], state);
      assert tokens[..n] == tokens[..n - 1] + [tokens[n - 1]];
      Arith.OneMoreIn(EndingIn(tokens, n - 1, state), EndingIn(tokens, n, state), n - 1, tokens[n - 1].state == state);
    }
  }

  lemma {:induction false} FinalsMore(tokens: seq<Token>, t: Token, state: State)
    ensures Finals(tokens + [t], state) == Finals(tokens, state) + if t.state == state then 1 else 0
    decreases |tokens|
  {
    if tokens != [] {
      FinalsMore(tokens[1..], t, state);
      assert (tokens + [t])[1..] == tokens[1..] + [t];
    }
  }

  // Every token lands in exactly one final counter.
  lemma {:induction false} FinalsAddUp(tokens: seq<Token>)
    ensures Finals(tokens, Start) + Finals(tokens, Invalid) + Finals(tokens, S1) + Finals(tokens, S2)
          + Finals(tokens, Int) + Finals(tokens, Float) + Finals(tokens, Exponent) + Finals(tokens, Scientific) ==
              |tokens|
  {
    if tokens != [] {
      FinalsAddUp(tokens[1..]);
    }
  }

  // ---- The scanner ----

  function Index(state: State): (i: nat)
    ensures i < NUM_CORE_STATES
  {
    match state
    case Start => 0
    case Invalid => 1
    case S1 => 2
    case S2 => 3
    case Int => 4
    case Float => 5
    case Exponent => 6
    case Scientific => 7
  }

  const NUM_CORE_STATES := 8

  // The switch, with its counters.
  method Transition(state: State, symbol: bv8, count: array<nat>) returns (next: State)
    requires count.Length == NUM_CORE_STATES
    modifies count
    ensures next == Next(state, symbol)
    ensures forall k :: count[Index(k)] == old(count[Index(k)]) + if Charges(state, symbol, k) then 1 else 0
  {
    hide IsDigit, IsSign, IsDot, IsE;
    next := state;
    match state {
      case Start =>
        if IsDigit(symbol) {
          next := Int;
        } else if IsSign(symbol) {
          next := S1;
        } else if IsDot(symbol) {
          next := Float;
        } else {
          next := Invalid;
          count[Index(Invalid)] := count[Index(Invalid)] + 1;
        }
        count[Index(Start)] := count[Index(Start)] + 1;
      case S1 =>
        if IsDigit(symbol) {
          next := Int;
          count[Index(S1)] := count[Index(S1)] + 1;
        } else if IsDot(symbol) {
          next := Float;
          count[Index(S1)] := count[Index(S1)] + 1;
        } else {
          next := Invalid;
          count[Index(S1)] := count[Index(S1)] + 1;
        }
      case Int =>
        if IsDot(symbol) {
          next := Float;
          count[Index(Int)] := count[Index(Int)] + 1;
        } else if !IsDigit(symbol) {
          next := Invalid;
          count[Index(Int)] := count[Index(Int)] + 1;
        }
      case Float =>
        if IsE(symbol) {
          next := S2;
          count[Index(Float)] := count[Index(Float)] + 1;
        } else if !IsDigit(symbol) {
          next := Invalid;
          count[Index(Float)] := count[Index(Float)] + 1;
        }
      case S2 =>
        if IsSign(symbol) {
          next := Exponent;
          count[Index(S2)] := count[Index(S2)] + 1;
        } else {
          next := Invalid;
          count[Index(S2)] := count[Index(S2)] + 1;
        }
      case Exponent =>
        if IsDigit(symbol) {
          next := Scientific;
          count[Index(Exponent)] := count[Index(Exponent)] + 1;
        } else {
          next := Invalid;
          count[Index(Exponent)] := count[Index(Exponent)] + 1;
        }
      case Scientific =>
        if !IsDigit(symbol) {
          next := Invalid;
          count[Index(Invalid)] := count[Index(Invalid)] + 1;
        }
      case Invalid =>
    }
  }

  method CoreStateTransition(memblock: array<bv8>, p: nat, count: array<nat>) returns (str: nat, state: State)
    requires NulAhead(memblock[..], p) && count.Length == NUM_CORE_STATES
    requires memblock as object != count as object
    modifies count
    ensures memblock[..] == old(memblock[..])
    ensures (str, state) == ScanFrom(memblock[..], p, Start)
    ensures p <= str <= memblock.Length && TokenMeans(memblock[..], Token(p, str, state))
    ensures forall k :: count[Index(k)] == old(count[Index(k)]) + TokenCharge(memblock[..], Token(p, str, state), k)
  {
    hide Next, Charges, Index, TokenMeans, TokenCharge;
    TokenOf(memblock[..], p);
    ghost var text := memblock[..];
    str, state := p, Start;
    while memblock[str] != 0 && state != Invalid
      invariant NulAhead(text, str)
      invariant ScanFrom(text, str, state) == ScanFrom(text, p, Start)
      invariant forall k :: count[Index(k)] + Charged(text, str, state, k)
                         == old(count[Index(k)]) + Charged(text, p, Start, k)
      decreases |text| - str
    {
      var symbol := memblock[str];
      if symbol == COMMA {
        str := str + 1;
        return;
      }
      state := Transition(state, symbol, count);
      str := str + 1;
    }
  }

  // What one call is promised to give.
  lemma TokenOf(text: seq<bv8>, p: nat)
    requires NulAhead(text, p)
    ensures var (end, state) := ScanFrom(text, p, Start);
            && end <= |text| && TokenMeans(text, Token(p, end, state))
            && forall k :: Charged(text, p, Start, k) == TokenCharge(text, Token(p, end, state), k)
  {
    hide Means, Word, TokenMeans, TokenCharge, Charged, OpenWord;
    StartsOpen(text, p);
    ScanMeans(text, p, p, Start);
    forall k
      ensures Charged(text, p, Start, k) == TokenCharge(text, TokenAt(text, p, p, Start), k)
    {
      ChargedMeans(text, p, k);
    }
  }

  lemma NextToken(text: seq<bv8>, p: nat)
    requires NulAhead(text, p) && text[p] != 0
    ensures var (end, state) := ScanFrom(text, p, Start);
            && p < end && NulAhead(text, end)
            && forall k ::
                 && Finals(Tokens(text, p), k) == Finals(Tokens(text, end), k) + (if state == k then 1 else 0)
                 && ChargeSum(text, Tokens(text, p), k) ==
                    TokenCharge(text, Token(p, end, state), k) + ChargeSum(text, Tokens(text, end), k)
  {
    hide TokenCharge, FirstNul;
    StillAhead(text, p, ScanFrom(text, p, Start).0);
    var (end, state) := ScanFrom(text, p, Start);
    assert Tokens(text, p)[1..] == Tokens(text, end) && Tokens(text, p)[0] == Token(p, end, state);
  }

  lemma NoToken(text: seq<bv8>, p: nat)
    requires NulAhead(text, p) && text[p] == 0
    ensures forall k :: Finals(Tokens(text, p), k) == 0 && ChargeSum(text, Tokens(text, p), k) == 0
  {
  }

  // The loop over the whole text.
  method ScanAll(memblock: array<bv8>, finals: array<nat>, tracks: array<nat>)
    requires NulAhead(memblock[..], 0)
    requires finals.Length == NUM_CORE_STATES && tracks.Length == NUM_CORE_STATES && finals != tracks
    requires memblock as object != finals as object && memblock as object != tracks as object
    modifies finals, tracks
    ensures memblock[..] == old(memblock[..])
    ensures forall k :: finals[Index(k)] == old(finals[Index(k)]) + Finals(Tokens(memblock[..], 0), k)
    ensures forall k :: tracks[Index(k)] == old(tracks[Index(k)]) + ChargeSum(memblock[..], Tokens(memblock[..], 0), k)
  {
    hide Tokens, Finals, ChargeSum, TokenCharge, TokenMeans, ScanFrom;
    ghost var text := memblock[..];
    var p := 0;
    while memblock[p] != 0
      invariant NulAhead(text, p)
      invariant forall k ::
        finals[Index(k)] + Finals(Tokens(text, p), k) == old(finals[Index(k)]) + Finals(Tokens(text, 0), k)
      invariant forall k ::
        tracks[Index(k)] + ChargeSum(text, Tokens(text, p), k) ==
        old(tracks[Index(k)]) + ChargeSum(text, Tokens(text, 0), k)
      decreases |text| - p
    {
      var from := p;
      var state;
      p, state := CoreStateTransition(memblock, from, tracks);
      NextToken(text, from);
      finals[Index(state)] := finals[Index(state)] + 1;
    }
    NoToken(text, p);
  }
}
