/** Literal names and strings: what the scanner accepts of them is what the grammar says. */
module JsonTokens {
  import opened JsonScanner
  import opened JsonGrammar
  import opened JsonProof

  // ----- literal names -----

  /** The letter that has to come next, and the state it leads to. */
  function Wanted(step: Step): (char, Step) {
    match step
    case StateT => ('r', StateTr)
    case StateTr => ('u', StateTru)
    case StateTru => ('e', EndValue)
    case StateF => ('a', StateFa)
    case StateFa => ('l', StateFal)
    case StateFal => ('s', StateFals)
    case StateFals => ('e', EndValue)
    case StateN => ('u', StateNu)
    case StateNu => ('l', StateNul)
    case _ => ('l', EndValue)
  }

  predicate InWord(step: Step) {
    step in {StateT, StateTr, StateTru, StateF, StateFa, StateFal, StateFals, StateN, StateNu, StateNul}
  }

  /** The first letter of a name. */
  function FirstLetter(c: char): Step { if c == 't' then StateT else if c == 'f' then StateF else StateN }

  lemma OnFirstLetter(st: seq<Parse>, c: char)
    requires c in {'t', 'f', 'n'}
    ensures Next(At(BeginValue, st), c) == (At(FirstLetter(c), st), BeginLiteral)
  {
  }

  lemma OnLetterOf(step: Step, st: seq<Parse>)
    requires InWord(step)
    ensures Next(At(step, st), Wanted(step).0) == (At(Wanted(step).1, st), Continue)
    ensures forall c :: c != Wanted(step).0 ==> Next(At(step, st), c).1 == ScanError
    ensures !EofOk(At(step, st))
  {
  }

  /** The letters of a name from a state in it. */
  function Rest(step: Step): Text
    requires InWord(step)
  {
    match step
    case StateT => "rue"
    case StateTr => "ue"
    case StateTru => "e"
    case StateF => "alse"
    case StateFa => "lse"
    case StateFal => "se"
    case StateFals => "e"
    case StateN => "ull"
    case StateNu => "ll"
    case _ => "l"
  }

  lemma RestIs(step: Step)
    requires InWord(step)
    ensures Rest(step) == [Wanted(step).0] + (if Wanted(step).1.EndValue? then [] else Rest(Wanted(step).1))
    ensures !Wanted(step).1.EndValue? ==> InWord(Wanted(step).1)
  {
  }

  /** A state in a name accepts the rest of the name and then what the end of a value accepts. */
  lemma {:induction false} WordRest(step: Step, st: seq<Parse>, r: Text)
    requires InWord(step)
    ensures Accepts(At(step, st), Rest(step) + r) <==> Accepts(At(EndValue, st), r)
    decreases |Rest(step)|
  {
    hide Next, Accepts, Rest, InWord;
    RestIs(step);
    OnLetterOf(step, st);
    var (c, next) := Wanted(step);
    if next.EndValue? {
      assert Rest(step) + r == [c] + r;
      Goes(At(step, st), c, r, At(EndValue, st));
    } else {
      WordRest(next, st, r);
      assert Rest(step) + r == [c] + (Rest(next) + r);
      Goes(At(step, st), c, Rest(next) + r, At(next, st));
    }
  }

  lemma {:induction false} WordFound(step: Step, st: seq<Parse>, r: Text) returns (r': Text)
    requires InWord(step) && Accepts(At(step, st), r)
    ensures r == Rest(step) + r' && |r'| < |r|
    decreases |Rest(step)|
  {
    hide Next, Rest, InWord, EofOk;
    RestIs(step);
    OnLetterOf(step, st);
    var (c, next) := Wanted(step);
    LetterThere(At(step, st), c, r);
    if next.EndValue? {
      r' := r[1..];
      assert r == Rest(step) + r';
    } else {
      assert Accepts(At(next, st), r[1..]);
      r' := WordFound(next, st, r[1..]);
      assert r == Rest(step) + r';
    }
  }

  lemma LetterThere(s: Scan, c: char, r: Text)
    requires Accepts(s, r) && !EofOk(s) && forall d :: d != c ==> Next(s, d).1 == ScanError
    ensures r != [] && r[0] == c
  {
    hide Next, EofOk;
  }

  function WordValue(c: char): Value { if c == 't' then True else if c == 'f' then False else Null }

  lemma WordText(c: char)
    requires c in {'t', 'f', 'n'}
    ensures ValueText(WordValue(c)) == [c] + Rest(FirstLetter(c))
  {
  }

  lemma WordAccepted(st: seq<Parse>, c: char, r: Text)
    requires c in {'t', 'f', 'n'}
    ensures Accepts(At(BeginValue, st), ValueText(WordValue(c)) + r) <==> Accepts(At(EndValue, st), r)
  {
    hide Next, Accepts, ValueText, Rest;
    WordText(c);
    OnFirstLetter(st, c);
    WordRest(FirstLetter(c), st, r);
    assert ValueText(WordValue(c)) + r == [c] + (Rest(FirstLetter(c)) + r);
    Goes(At(BeginValue, st), c, Rest(FirstLetter(c)) + r, At(FirstLetter(c), st));
  }

  /** The rest of a literal name whose first letter has been read. */
  lemma WordSound(st: seq<Parse>, c: char, r: Text) returns (v: Value, r': Text)
    requires c in {'t', 'f', 'n'} && Accepts(At(FirstLetter(c), st), r)
    ensures v == WordValue(c) && [c] + r == ValueText(v) + r'
    ensures Accepts(At(EndValue, st), r') && |r'| < |r|
  {
    hide Next, Accepts, ValueText, Rest;
    v := WordValue(c);
    WordText(c);
    r' := WordFound(FirstLetter(c), st, r);
    WordRest(FirstLetter(c), st, r');
    assert [c] + (Rest(FirstLetter(c)) + r') == ValueText(v) + r';
  }

  // ----- strings -----

  lemma OnStringByte(st: seq<Parse>, c: char)
    ensures Next(At(InString, st), '"') == (At(EndValue, st), Continue)
    ensures Next(At(InString, st), '\\') == (At(InStringEsc, st), Continue)
    ensures UnitOk(Plain(c)) ==> Next(At(InString, st), c) == (At(InString, st), Continue)
    ensures IsEscaped(c) ==> Next(At(InStringEsc, st), c) == (At(InString, st), Continue)
    ensures Next(At(InStringEsc, st), 'u') == (At(InStringEscU, st), Continue)
  {
  }

  lemma OnHex(st: seq<Parse>, c: char)
    requires IsHex(c)
    ensures Next(At(InStringEscU, st), c) == (At(InStringEscU1, st), Continue)
    ensures Next(At(InStringEscU1, st), c) == (At(InStringEscU12, st), Continue)
    ensures Next(At(InStringEscU12, st), c) == (At(InStringEscU123, st), Continue)
    ensures Next(At(InStringEscU123, st), c) == (At(InString, st), Continue)
  {
  }

  lemma UnitAccepted(st: seq<Parse>, u: Unit, r: Text)
    requires UnitOk(u)
    ensures Accepts(At(InString, st), UnitText(u) + r) <==> Accepts(At(InString, st), r)
  {
    hide Next, Accepts;
    match u
    case Plain(c) =>
      OnStringByte(st, c);
      Goes(At(InString, st), c, r, At(InString, st));
    case Escape(c) =>
      OnStringByte(st, c);
      assert UnitText(u) + r == ['\\'] + ([c] + r);
      Goes(At(InStringEsc, st), c, r, At(InString, st));
      Goes(At(InString, st), '\\', [c] + r, At(InStringEsc, st));
    case Unicode(a, b, c, d) =>
      OnStringByte(st, 'u');
      OnHex(st, a);
      OnHex(st, b);
      OnHex(st, c);
      OnHex(st, d);
      assert UnitText(u) + r == ['\\'] + (['u'] + ([a] + ([b] + ([c] + ([d] + r)))));
      Goes(At(InStringEscU123, st), d, r, At(InString, st));
      Goes(At(InStringEscU12, st), c, [d] + r, At(InStringEscU123, st));
      Goes(At(InStringEscU1, st), b, [c] + ([d] + r), At(InStringEscU12, st));
      Goes(At(InStringEscU, st), a, [b] + ([c] + ([d] + r)), At(InStringEscU1, st));
      Goes(At(InStringEsc, st), 'u', [a] + ([b] + ([c] + ([d] + r))), At(InStringEscU, st));
      Goes(At(InString, st), '\\', ['u'] + ([a] + ([b] + ([c] + ([d] + r)))), At(InStringEsc, st));
  }

  lemma {:induction false} StrAccepted(st: seq<Parse>, us: seq<Unit>, r: Text)
    requires StrOk(us)
    ensures Accepts(At(InString, st), StrText(us) + r) <==> Accepts(At(EndValue, st), r)
    decreases |us|
  {
    hide Next, Accepts, UnitText;
    if us == [] {
      OnStringByte(st, ' ');
      assert StrText(us) == ['"'];
      Goes(At(InString, st), '"', r, At(EndValue, st));
    } else {
      StrAccepted(st, us[1..], r);
      UnitAccepted(st, us[0], StrText(us[1..]) + r);
      assert StrText(us) + r == UnitText(us[0]) + (StrText(us[1..]) + r);
    }
  }

  lemma HexFound(step: Step, next: Step, st: seq<Parse>, r: Text)
    requires (step, next) in {(InStringEscU, InStringEscU1), (InStringEscU1, InStringEscU12),
      (InStringEscU12, InStringEscU123),
                              (InStringEscU123, InString)}
    requires Accepts(At(step, st), r)
    ensures r != [] && IsHex(r[0]) && Accepts(At(next, st), r[1..])
  {
    NeedsHex(step, st);
  }

  lemma NeedsHex(step: Step, st: seq<Parse>)
    requires step in {InStringEscU, InStringEscU1, InStringEscU12, InStringEscU123}
    ensures forall c :: !IsHex(c) ==> Next(At(step, st), c).1 == ScanError
  {
  }

  /** What stands behind a backslash. */
  lemma EscapeFound(st: seq<Parse>, r: Text) returns (u: Unit, r': Text)
    requires Accepts(At(InStringEsc, st), r)
    ensures UnitOk(u) && ['\\'] + r == UnitText(u) + r' && Accepts(At(InString, st), r') && |r'| < |r|
  {
    hide Next, Accepts;
    EscapeByte(st, r);
    assert r == [r[0]] + r[1..];
    OnStringByte(st, r[0]);
    if r[0] == 'u' {
      Goes(At(InStringEsc, st), 'u', r[1..], At(InStringEscU, st));
      var t := r[1..];
      HexFound(InStringEscU, InStringEscU1, st, t);
      HexFound(InStringEscU1, InStringEscU12, st, t[1..]);
      HexFound(InStringEscU12, InStringEscU123, st, t[1..][1..]);
      HexFound(InStringEscU123, InString, st, t[1..][1..][1..]);
      u, r' := Unicode(t[0], t[1], t[2], t[3]), t[1..][1..][1..][1..];
      assert ['\\'] + r == UnitText(u) + r';
    } else {
      Goes(At(InStringEsc, st), r[0], r[1..], At(InString, st));
      u, r' := Escape(r[0]), r[1..];
      assert ['\\'] + r == UnitText(u) + r';
    }
  }

  lemma EscapeByte(st: seq<Parse>, r: Text)
    requires Accepts(At(InStringEsc, st), r)
    ensures r != [] && (IsEscaped(r[0]) || r[0] == 'u')
  {
  }

  lemma StringByte(st: seq<Parse>, r: Text)
    requires Accepts(At(InString, st), r)
    ensures r != [] && (r[0] == '"' || r[0] == '\\' || UnitOk(Plain(r[0])))
  {
  }

  lemma {:induction false} StrSound(st: seq<Parse>, r: Text) returns (us: seq<Unit>, r': Text)
    requires Accepts(At(InString, st), r)
    ensures StrOk(us) && r == StrText(us) + r' && Accepts(At(EndValue, st), r') && |r'| < |r|
    decreases |r|
  {
    hide Next, Accepts, UnitText;
    StringByte(st, r);
    OnStringByte(st, r[0]);
    assert r == [r[0]] + r[1..];
    if r[0] == '"' {
      Goes(At(InString, st), '"', r[1..], At(EndValue, st));
      us, r' := [], r[1..];
      assert StrText(us) == ['"'];
    } else {
      var u, t;
      if r[0] == '\\' {
        Goes(At(InString, st), '\\', r[1..], At(InStringEsc, st));
        u, t := EscapeFound(st, r[1..]);
      } else {
        Goes(At(InString, st), r[0], r[1..], At(InString, st));
        u, t := Plain(r[0]), r[1..];
        assert UnitText(u) == [r[0]] by { PlainText(r[0]); }
      }
      var rest;
      rest, r' := StrSound(st, t);
      us := [u] + rest;
      assert us[1..] == rest;
      assert r == UnitText(u) + (StrText(rest) + r');
    }
  }

  lemma PlainText(c: char)
    ensures UnitText(Plain(c)) == [c]
  {
  }
}
