// The number scanner of the CoreMark state machine: what each end state means,
// and how repeated calls cut a text into tokens.

module StateGrammar {

  datatype State = Start | Invalid | S1 | S2 | Int | Float | Exponent | Scientific

  predicate IsDigit(c: bv8) { 48 <= c <= 57 }

  predicate IsSign(c: bv8) { c == 43 || c == 45 }

  predicate IsDot(c: bv8) { c == 46 }

  predicate IsE(c: bv8) { c == 69 || c == 101 }

  const COMMA: bv8 := 44

  // The switch of core_state_transition.
  function Next(state: State, c: bv8): State {
    match state
    case Start => if IsDigit(c) then Int else if IsSign(c) then S1 else if IsDot(c) then Float else Invalid
    case S1 => if IsDigit(c) then Int else if IsDot(c) then Float else Invalid
    case Int => if IsDot(c) then Float else if !IsDigit(c) then Invalid else Int
    case Float => if IsE(c) then S2 else if !IsDigit(c) then Invalid else Float
    case S2 => if IsSign(c) then Exponent else Invalid
    case Exponent => if IsDigit(c) then Scientific else Invalid
    case Scientific => if !IsDigit(c) then Invalid else Scientific
    case Invalid => Invalid
  }

  // The counters the switch charges for reading c: that of the state it leaves,
  // except Scientific, and Invalid when it is entered from Start or Scientific.
  predicate Charges(state: State, c: bv8, counter: State) {
    match counter
    case Scientific => false
    case Invalid => Next(state, c) == Invalid && (state == Start || state == Scientific)
    case _ => state == counter && Next(state, c) != counter
  }

  function Word(w: seq<bv8>): State {
    if w == [] then Start else Next(Word(w[..|w| - 1]), w[|w| - 1])
  }

  // ---- The grammar ----

  predicate Digits(w: seq<bv8>) {
    forall i :: 0 <= i < |w| ==> IsDigit(w[i])
  }

  function Unsigned(w: seq<bv8>): seq<bv8> {
    if w != [] && IsSign(w[0]) then w[1..] else w
  }

  predicate IsSignOnly(w: seq<bv8>) { |w| == 1 && IsSign(w[0]) }

  // sign? digit+
  predicate IsInteger(w: seq<bv8>) {
    Unsigned(w) != [] && Digits(Unsigned(w))
  }

  // sign? digit* '.' digit*
  predicate IsFloat(w: seq<bv8>) {
    exists i :: 0 <= i < |Unsigned(w)| && DotAt(Unsigned(w), i)
  }

  predicate DotAt(u: seq<bv8>, i: int)
    requires 0 <= i < |u|
  {
    IsDot(u[i]) && Digits(u[..i]) && Digits(u[i + 1..])
  }

  // float e
  predicate IsFloatE(w: seq<bv8>) {
    |w| > 0 && IsE(w[|w| - 1]) && IsFloat(w[..|w| - 1])
  }

  // float e sign
  predicate IsFloatESign(w: seq<bv8>) {
    |w| > 0 && IsSign(w[|w| - 1]) && IsFloatE(w[..|w| - 1])
  }

  // float e sign digit+
  predicate IsScientific(w: seq<bv8>) {
    exists k :: 0 < k < |w| && IsFloatESign(w[..k]) && Digits(w[k..])
  }

  // The words that end in each state.
  predicate Means(state: State, w: seq<bv8>) {
    match state
    case Start => w == []
    case S1 => IsSignOnly(w)
    case Int => IsInteger(w)
    case Float => IsFloat(w)
    case S2 => IsFloatE(w)
    case Exponent => IsFloatESign(w)
    case Scientific => IsScientific(w)
    case Invalid =>
      && w != [] && !IsSignOnly(w) && !IsInteger(w) && !IsFloat(w)
      && !IsFloatE(w) && !IsFloatESign(w) && !IsScientific(w)
  }

  // ---- One more character ----

  lemma DigitsMore(w: seq<bv8>, c: bv8)
    ensures Digits(w + [c]) <==> Digits(w) && IsDigit(c)
  {
    if Digits(w + [c]) {
      assert (w + [c])[|w|] == c;
      assert forall i :: 0 <= i < |w| ==> w[i] == (w + [c])[i];
    }
  }

  lemma UnsignedMore(w: seq<bv8>, c: bv8)
    requires w != []
    ensures Unsigned(w + [c]) == Unsigned(w) + [c]
  {
    assert (w + [c])[0] == w[0];
    assert (w + [c])[1..] == w[1..] + [c];
  }

  lemma OneCharacter(c: bv8)
    ensures Unsigned([c]) == if IsSign(c) then [] else [c]
    ensures IsInteger([c]) <==> IsDigit(c)
    ensures IsFloat([c]) <==> IsDot(c)
    ensures !IsFloatE([c]) && !IsFloatESign([c]) && !IsScientific([c])
  {
    assert [c][..0] == [];
    if IsDot(c) {
      assert DotAt([c], 0);
    }
  }

  lemma IntegerMore(w: seq<bv8>, c: bv8)
    requires w != []
    ensures IsInteger(w + [c]) <==> IsDigit(c) && (IsSignOnly(w) || IsInteger(w))
  {
    UnsignedMore(w, c);
    DigitsMore(Unsigned(w), c);
  }

  lemma DotMore(u: seq<bv8>, c: bv8, i: int)
    requires 0 <= i < |u|
    ensures DotAt(u + [c], i) <==> DotAt(u, i) && IsDigit(c)
  {
    assert (u + [c])[..i] == u[..i];
    assert (u + [c])[i + 1..] == u[i + 1..] + [c];
    DigitsMore(u[i + 1..], c);
  }

  lemma DotLast(u: seq<bv8>, c: bv8)
    ensures DotAt(u + [c], |u|) <==> IsDot(c) && Digits(u)
  {
    assert (u + [c])[..|u|] == u;
    assert (u + [c])[|u| + 1..] == [];
  }

  lemma FloatMore(w: seq<bv8>, c: bv8)
    requires w != []
    ensures IsFloat(w + [c]) <==> (IsDot(c) && (IsSignOnly(w) || IsInteger(w))) || (IsDigit(c) && IsFloat(w))
  {
    UnsignedMore(w, c);
    var u := Unsigned(w);
    DotLast(u, c);
    forall i | 0 <= i < |u|
      ensures DotAt(u + [c], i) <==> DotAt(u, i) && IsDigit(c)
    {
      DotMore(u, c, i);
    }
    if IsFloat(w) && IsDigit(c) {
      var i :| 0 <= i < |u| && DotAt(u, i);
      assert DotAt(u + [c], i);
    }
    if IsFloat(w + [c]) {
      var i :| 0 <= i < |u + [c]| && DotAt(u + [c], i);
      assert i == |u| || DotAt(u, i);
    }
    assert Digits(u) <==> u == [] || IsInteger(w);
  }

  lemma FloatEMore(w: seq<bv8>, c: bv8)
    ensures IsFloatE(w + [c]) <==> IsE(c) && IsFloat(w)
    ensures IsFloatESign(w + [c]) <==> IsSign(c) && IsFloatE(w)
  {
    assert (w + [c])[..|w|] == w;
  }

  lemma CutMore(w: seq<bv8>, c: bv8, k: nat)
    requires k <= |w|
    ensures (w + [c])[..k] == w[..k] && (w + [c])[k..] == w[k..] + [c]
  {
  }

  lemma ScientificMore(w: seq<bv8>, c: bv8)
    ensures IsScientific(w + [c]) <==> IsDigit(c) && (IsFloatESign(w) || IsScientific(w))
  {
    var v := w + [c];
    forall k | 0 < k <= |w|
      ensures v[..k] == w[..k] && (Digits(v[k..]) <==> Digits(w[k..]) && IsDigit(c))
    {
      CutMore(w, c, k);
      DigitsMore(w[k..], c);
    }
    if IsDigit(c) && IsFloatESign(w) {
      assert w[..|w|] == w && w[|w|..] == [];
      assert IsFloatESign(v[..|w|]) && Digits(v[|w|..]);
    }
    if IsDigit(c) && IsScientific(w) {
      var k :| 0 < k < |w| && IsFloatESign(w[..k]) && Digits(w[k..]);
      assert IsFloatESign(v[..k]) && Digits(v[k..]);
    }
    if IsScientific(v) {
      var k :| 0 < k < |v| && IsFloatESign(v[..k]) && Digits(v[k..]);
      assert IsFloatESign(w[..k]) && Digits(w[k..]);
      if k == |w| {
        assert w[..|w|] == w;
      }
    }
  }

  // No character belongs to two classes.
  lemma Classes(c: bv8)
    ensures !(IsDigit(c) && IsSign(c)) && !(IsDigit(c) && IsDot(c)) && !(IsDigit(c) && IsE(c))
    ensures !(IsSign(c) && IsDot(c)) && !(IsSign(c) && IsE(c)) && !(IsDot(c) && IsE(c))
  {
  }

  lemma MeansFirst(c: bv8, st: State)
    ensures Means(st, [c]) <==> st == Next(Start, c)
  {
    Classes(c);
    OneCharacter(c);
    hide IsDigit, IsSign, IsDot, IsE, IsInteger, IsFloat, IsFloatE, IsFloatESign, IsScientific;
  }

  lemma MeansLater(state: State, w: seq<bv8>, c: bv8, st: State)
    requires w != []
    requires IsSignOnly(w) <==> state == S1
    requires IsInteger(w) <==> state == Int
    requires IsFloat(w) <==> state == Float
    requires IsFloatE(w) <==> state == S2
    requires IsFloatESign(w) <==> state == Exponent
    requires IsScientific(w) <==> state == Scientific
    requires state != Start
    ensures Means(st, w + [c]) <==> st == Next(state, c)
  {
    Classes(c);
    IntegerMore(w, c);
    FloatMore(w, c);
    FloatEMore(w, c);
    ScientificMore(w, c);
    NotOneCharacter(w, c);
    assert w + [c] != [];
    hide IsDigit, IsSign, IsDot, IsE, IsSignOnly, IsInteger, IsFloat, IsFloatE, IsFloatESign, IsScientific;
  }

  lemma MeansMore(state: State, w: seq<bv8>, c: bv8)
    requires forall st :: Means(st, w) <==> st == state
    ensures forall st :: Means(st, w + [c]) <==> st == Next(state, c)
  {
    hide IsSignOnly, IsInteger, IsFloat, IsFloatE, IsFloatESign, IsScientific, Next;
    assert Means(Start, w) <==> w == [];
    assert Means(S1, w) <==> IsSignOnly(w);
    assert Means(Int, w) <==> IsInteger(w);
    assert Means(Float, w) <==> IsFloat(w);
    assert Means(S2, w) <==> IsFloatE(w);
    assert Means(Exponent, w) <==> IsFloatESign(w);
    assert Means(Scientific, w) <==> IsScientific(w);
    forall st
      ensures Means(st, w + [c]) <==> st == Next(state, c)
    {
      if w == [] {
        assert w + [c] == [c];
        MeansFirst(c, st);
      } else {
        MeansLater(state, w, c, st);
      }
    }
  }

  lemma NotOneCharacter(w: seq<bv8>, c: bv8)
    requires w != []
    ensures !IsSignOnly(w + [c])
  {
  }

  // The state machine decides the grammar, both ways, for every word.
  lemma {:induction false} MachineIsGrammar(w: seq<bv8>, state: State)
    ensures Word(w) == state <==> Means(state, w)
    decreases |w|
  {
    AllStates(w);
  }

  lemma {:induction false} AllStates(w: seq<bv8>)
    ensures forall st :: Means(st, w) <==> st == Word(w)
    decreases |w|
  {
    if w == [] {
      EmptyWord();
    } else {
      var front := w[..|w| - 1];
      AllStates(front);
      assert w == front + [w[|w| - 1]];
      MeansMore(Word(front), front, w[|w| - 1]);
    }
  }

  lemma EmptyWord()
    ensures forall st :: Means(st, []) <==> st == Start
  {
    assert forall st :: Means(st, []) ==> st == Start by {
      assert Unsigned([]) == [];
    }
  }
}
