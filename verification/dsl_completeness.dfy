/** The automaton accepts every layered tree's yield and returns that very tree. */
module DslCompleteness {
  import opened DslGrammar
  import opened DslAutomaton
  import opened DslSoundness

  lemma RunShift(st: Stack, t: Token, rest: seq<Token>)
    requires ShiftOf(Top(st), t) != NO_STATE
    ensures Run(Config(st, [t] + rest)) == Run(Config(Push(st, ShiftOf(Top(st), t), Tok(t)), rest))
  {
    assert ([t] + rest)[1..] == rest;
  }

  lemma RunReduce(st: Stack, rest: seq<Token>)
    requires Reduced(st, RuleOf(Top(st))).1 && Top(st) != 1
    requires rest != [] ==> ShiftOf(Top(st), rest[0]) == NO_STATE
    ensures Run(Config(st, rest)) == Run(Config(Reduced(st, RuleOf(Top(st))).0, rest))
  {
  }

  /** Three tokens shifted one after the other. */
  lemma RunThree(st: Stack, a: Token, b: Token, c: Token, rest: seq<Token>)
    requires ShiftOf(Top(st), a) != NO_STATE && ShiftOf(ShiftOf(Top(st), a), b) != NO_STATE
    requires ShiftOf(ShiftOf(ShiftOf(Top(st), a), b), c) != NO_STATE
    ensures var s1 := ShiftOf(Top(st), a); var s2 := ShiftOf(s1, b);
      Run(Config(st, [a, b, c] + rest)) ==
      Run(Config(Push(Push(Push(st, s1, Tok(a)), s2, Tok(b)), ShiftOf(s2, c), Tok(c)), rest))
  {
    var s1 := ShiftOf(Top(st), a);
    var s2 := ShiftOf(s1, b);
    assert [a, b, c] + rest == [a] + ([b] + ([c] + rest));
    RunShift(st, a, [b] + ([c] + rest));
    RunShift(Push(st, s1, Tok(a)), b, [c] + rest);
    RunShift(Push(Push(st, s1, Tok(a)), s2, Tok(b)), c, rest);
  }

  predicate IsComparison(e: Expr) {
    !e.Paren? && !e.LogicalAnd? && !e.LogicalOr? && !e.With? && !e.Without?
  }

  /** The stack after the three tokens of a comparison, or after the three that follow WITH or WITHOUT. */
  function Shifted(st: Stack, y: seq<Token>): Stack
    requires |y| == 3
  {
    var s1 := ShiftOf(Top(st), y[0]);
    var s2 := ShiftOf(s1, y[1]);
    Push(Push(Push(st, s1, Tok(y[0])), s2, Tok(y[1])), ShiftOf(s2, y[2]), Tok(y[2]))
  }

  lemma ComparisonReduces(st: Stack, e: Expr)
    requires AtExpression(Top(st)) && IsComparison(e)
    ensures |Yield(e)| == 3
    ensures ShiftOf(Top(st), Yield(e)[0]) == 6 && ShiftOf(6, Yield(e)[1]) != NO_STATE
    ensures var st' := Shifted(st, Yield(e));
      25 <= Top(st') <= 34 && Reduced(st', RuleOf(Top(st'))) == (PushExpr(st, e), true)
  {
  }

  lemma ParseComparison(st: Stack, e: Expr, rest: seq<Token>)
    requires AtExpression(Top(st)) && IsComparison(e)
    ensures Run(Config(st, Yield(e) + rest)) == Run(Config(PushExpr(st, e), rest))
  {
    var y := Yield(e);
    ComparisonReduces(st, e);
    RunThree(st, y[0], y[1], y[2], rest);
    assert y == [y[0], y[1], y[2]];
    RunReduce(Shifted(st, y), rest);
  }

  lemma PresenceReduces(st: Stack, e: Expr)
    requires AtExpression(Top(st)) && (e.With? || e.Without?)
    ensures var w := Yield(e)[0]; var s1 := ShiftOf(Top(st), w);
      var st' := Shifted(Push(st, s1, Tok(w)), [OPEN, FIELD(e.key), CLOSE]);
      && s1 in {4, 5} && ShiftOf(s1, OPEN) != NO_STATE && ShiftOf(ShiftOf(s1, OPEN), FIELD(e.key)) != NO_STATE
      && Top(st') in {35, 36} && Reduced(st', RuleOf(Top(st'))) == (PushExpr(st, e), true)
  {
  }

  lemma ParsePresence(st: Stack, e: Expr, rest: seq<Token>)
    requires AtExpression(Top(st)) && (e.With? || e.Without?)
    ensures Run(Config(st, Yield(e) + rest)) == Run(Config(PushExpr(st, e), rest))
  {
    var w := Yield(e)[0];
    PresenceReduces(st, e);
    assert Yield(e) + rest == [w] + ([OPEN, FIELD(e.key), CLOSE] + rest);
    RunShift(st, w, [OPEN, FIELD(e.key), CLOSE] + rest);
    var st1 := Push(st, ShiftOf(Top(st), w), Tok(w));
    RunThree(st1, OPEN, FIELD(e.key), CLOSE, rest);
    RunReduce(Shifted(st1, [OPEN, FIELD(e.key), CLOSE]), rest);
  }

  lemma {:induction false} ParseAtom(st: Stack, e: Expr, rest: seq<Token>)
    requires AtExpression(Top(st)) && Atom(e)
    ensures Run(Config(st, Yield(e) + rest)) == Run(Config(PushExpr(st, e), rest))
    decreases e, 0
  {
    if e.Paren? {
      var st1 := Push(st, 3, Tok(OPEN));
      assert Yield(e) + rest == [OPEN] + (Yield(e.inner) + ([CLOSE] + rest));
      RunShift(st, OPEN, Yield(e.inner) + ([CLOSE] + rest));
      ParseLayered(st1, e.inner, [CLOSE] + rest);
      var st2 := PushExpr(st1, e.inner);
      RunShift(st2, CLOSE, rest);
      RunReduce(Push(st2, 22, Tok(CLOSE)), rest);
    } else if e.With? || e.Without? {
      ParsePresence(st, e, rest);
    } else {
      ParseComparison(st, e, rest);
    }
  }

  /** Behind an OR only an atom is read; an OR chain closes by itself, whatever follows. */
  lemma {:induction false} ParseOrChain(st: Stack, e: Expr, rest: seq<Token>)
    requires Top(st) in {0, 3, 7} && OrChain(e)
    ensures Run(Config(st, Yield(e) + rest)) == Run(Config(PushExpr(st, e), rest))
    decreases e, 1
  {
    if e.LogicalOr? {
      assert Yield(e) + rest == Yield(e.left) + ([OR] + (Yield(e.right) + rest));
      ParseOrChain(st, e.left, [OR] + (Yield(e.right) + rest));
      var st1 := PushExpr(st, e.left);
      RunShift(st1, OR, Yield(e.right) + rest);
      var st2 := Push(st1, 8, Tok(OR));
      ParseAtom(st2, e.right, rest);
      RunReduce(PushExpr(st2, e.right), rest);
    } else {
      ParseAtom(st, e, rest);
    }
  }

  lemma {:induction false} ParseLayered(st: Stack, e: Expr, rest: seq<Token>)
    requires Top(st) in {0, 3} && Layered(e) && (rest != [] ==> !rest[0].OR?)
    ensures Run(Config(st, Yield(e) + rest)) == Run(Config(PushExpr(st, e), rest))
    decreases e, 2
  {
    if e.LogicalAnd? {
      assert Yield(e) + rest == Yield(e.left) + ([AND] + (Yield(e.right) + rest));
      ParseLayered(st, e.left, [AND] + (Yield(e.right) + rest));
      var st1 := PushExpr(st, e.left);
      RunShift(st1, AND, Yield(e.right) + rest);
      var st2 := Push(st1, 7, Tok(AND));
      ParseOrChain(st2, e.right, rest);
      RunReduce(PushExpr(st2, e.right), rest);
    } else {
      ParseOrChain(st, e, rest);
    }
  }

  /** Completeness: parsing the printed form of a layered tree returns that tree. */
  lemma ParseComplete(e: Expr)
    requires Layered(e)
    ensures Parse(Yield(e)) == Accepted(e)
  {
    assert Yield(e) + [] == Yield(e);
    ParseLayered(Base, e, []);
    RunReduce(PushExpr(Base, e), []);
  }

  /** The parser decides the language, and a token list has at most one layered reading. */
  lemma ParseExact(tokens: seq<Token>, e: Expr)
    ensures Parse(tokens) == Accepted(e) <==> Layered(e) && Yield(e) == tokens
  {
    if Parse(tokens) == Accepted(e) {
      ParseSound(tokens);
    }
    if Layered(e) && Yield(e) == tokens {
      ParseComplete(e);
    }
  }
}
