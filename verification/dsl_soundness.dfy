/** What the automaton accepts: only token lists that are the yield of the layered tree it returns. */
module DslSoundness {
  import opened DslGrammar
  import opened DslAutomaton

  predicate AtExpression(s: int) { s in {0, 3, 7, 8} }

  /** Each cell is where the automaton led, and holds an expression of the layer its state stands for. */
  predicate WellFormed(st: Stack) {
    st.Base? ||
    (WellFormed(st.below) &&
     match st.item
     case Tok(t) => st.state == ShiftOf(Top(st.below), t) != NO_STATE && (t.OR? ==> OrChainOnTop(st.below))
     case Ex(e) => AtExpression(Top(st.below)) && st.state == GotoOf(Top(st.below)) && Fits(st.state, e)
     case Root(e) => st.below.Base? && st.state == 1 && Layered(e))
  }

  predicate Fits(s: int, e: Expr) {
    if s == 20 then OrChain(e) else if s == 21 then Atom(e) else Layered(e)
  }

  predicate OrChainOnTop(st: Stack) { st.Push? && st.item.Ex? && OrChain(st.item.e) }

  /** An AND chain is complete only when no OR follows. */
  predicate Settled(c: Config) {
    c.stack.Push? && c.stack.item.Ex? && c.rest != [] && c.rest[0].OR? ==> OrChain(c.stack.item.e)
  }

  predicate Good(c: Config) { WellFormed(c.stack) && Settled(c) }

  function StackYield(st: Stack): seq<Token> {
    if st.Base? then [] else StackYield(st.below) + ItemYield(st.item)
  }

  function ItemYield(it: Item): seq<Token> {
    match it
    case Tok(t) => [t]
    case Ex(e) => Yield(e)
    case Root(e) => Yield(e)
  }

  lemma ShiftGood(c: Config)
    requires Good(c) && c.rest != [] && ShiftOf(Top(c.stack), c.rest[0]) != NO_STATE
    ensures Step(c).Goes? && Good(Step(c).c)
  {
  }

  /** The one way into each state: its item, and the states it can lie on. */
  predicate Entry(s: int, it: Item, from: int) {
    if s == 1 then it.Root? && from == 0
    else if s == 2 then it.Ex? && from == 0
    else if s == 9 then it.Ex? && from == 3
    else if s == 20 then it.Ex? && from == 7
    else if s == 21 then it.Ex? && from == 8
    else it.Tok? && TokenEntry(s, it.t, from)
  }

  predicate TokenEntry(s: int, t: Token, from: int) {
    if s == 3 then t.OPEN? && AtExpression(from)
    else if s == 4 then t.WITH? && AtExpression(from)
    else if s == 5 then t.WITHOUT? && AtExpression(from)
    else if s == 6 then t.FIELD? && AtExpression(from)
    else if s == 7 then t.AND? && from in {2, 9}
    else if s == 8 then t.OR? && from in {2, 9, 20}
    else if s == 10 then t.OPEN? && from == 4
    else if s == 11 then t.OPEN? && from == 5
    else if 12 <= s <= 19 then t == [EQ, NEQ, LT, GT, LE, GE, REG, NREG][s - 12] && from == 6
    else if s == 22 then t.CLOSE? && from == 9
    else if s == 23 then t.FIELD? && from == 10
    else if s == 24 then t.FIELD? && from == 11
    else if s == 25 || s == 27 then t.STRING? && from == (s - 1) / 2
    else if s == 26 || s == 28 then t.NUMBER? && from == s / 2 - 1
    else if 29 <= s <= 32 then t.NUMBER? && from == s - 15
    else if 33 <= s <= 34 then t.STRING? && from == s - 15
    else (s == 35 || s == 36) && t.CLOSE? && from == s - 12
  }

  lemma UniqueEntry(st: Stack)
    requires WellFormed(st) && st.Push?
    ensures Entry(st.state, st.item, Top(st.below)) && WellFormed(st.below)
    ensures st.state != 0
  {
  }

  /** The items on top of a well-formed stack are the right-hand side of the rule of its state. */
  lemma Handle(st: Stack)
    requires WellFormed(st) && st.Push? && RuleOf(st.state) != 0
    ensures Reduced(st, RuleOf(st.state)).1
  {
    var rule := RuleOf(st.state);
    if rule == 1 {
      UniqueEntry(st);
    } else if rule <= 4 {
      HandleOfThree(st);
    } else if rule <= 6 {
      HandleOfFour(st);
    } else {
      HandleOfThree(st);
    }
  }

  lemma HandleOfThree(st: Stack)
    requires WellFormed(st) && st.Push? && (2 <= RuleOf(st.state) <= 4 || 7 <= RuleOf(st.state))
    ensures Reduced(st, RuleOf(st.state)).1
  {
    UniqueEntry(st);
    UniqueEntry(st.below);
    UniqueEntry(st.below.below);
  }

  lemma HandleOfFour(st: Stack)
    requires WellFormed(st) && st.Push? && 5 <= RuleOf(st.state) <= 6
    ensures Reduced(st, RuleOf(st.state)).1
  {
    UniqueEntry(st);
    UniqueEntry(st.below);
    UniqueEntry(st.below.below);
    UniqueEntry(st.below.below.below);
  }

  lemma AtomFits(b: Stack, e: Expr)
    requires WellFormed(b) && AtExpression(Top(b)) && Atom(e)
    ensures WellFormed(PushExpr(b, e)) && OrChain(e)
  {
    assert !e.LogicalOr? && !e.LogicalAnd?;
    assert OrChain(e) && Layered(e);
  }

  lemma AndFits(b: Stack, s: int, l: Expr, r: Expr)
    requires WellFormed(b) && s in {2, 9} && Entry(s, Ex(l), Top(b)) && Fits(s, l) && OrChain(r)
    ensures WellFormed(PushExpr(b, LogicalAnd(l, r)))
  {
  }

  lemma OrFits(b: Stack, s: int, l: Expr, r: Expr)
    requires WellFormed(b) && s in {2, 9, 20} && Entry(s, Ex(l), Top(b)) && OrChain(l) && Atom(r)
    ensures WellFormed(PushExpr(b, LogicalOr(l, r))) && OrChain(LogicalOr(l, r))
  {
    var e := LogicalOr(l, r);
    assert OrChain(e) && Layered(e);
    assert GotoOf(Top(b)) == s && Fits(s, e);
  }

  /** A reduction keeps every layer, and never leaves an AND chain before an OR. */
  lemma ReduceGood(c: Config)
    requires Good(c) && c.stack.Push? && RuleOf(c.stack.state) != 0
    requires c.rest != [] ==> ShiftOf(c.stack.state, c.rest[0]) == NO_STATE
    ensures Good(Config(Reduced(c.stack, RuleOf(c.stack.state)).0, c.rest))
  {
    var rule := RuleOf(c.stack.state);
    if rule == 1 {
      RootGood(c);
    } else if rule <= 4 {
      CompoundGood(c);
    } else if rule <= 6 {
      PresenceGood(c);
    } else {
      ComparisonGood(c);
    }
  }

  /** A reduction of c may take place: nothing is shifted. */
  predicate Reducible(c: Config) {
    Good(c) && c.stack.Push? && (c.rest != [] ==> ShiftOf(c.stack.state, c.rest[0]) == NO_STATE)
  }

  function AfterReduction(c: Config): Config { Config(Reduced(c.stack, RuleOf(Top(c.stack))).0, c.rest) }

  lemma RootGood(c: Config)
    requires Reducible(c) && RuleOf(c.stack.state) == 1
    ensures Good(AfterReduction(c))
  {
    UniqueEntry(c.stack);
    Handle(c.stack);
  }

  /** An expression in the place of the items it was built from. */
  lemma AtomGood(c: Config, b: Stack, e: Expr)
    requires Reducible(c) && AfterReduction(c).stack == PushExpr(b, e)
    requires WellFormed(b) && AtExpression(Top(b)) && Atom(e)
    ensures Good(AfterReduction(c))
  {
    AtomFits(b, e);
  }

  lemma CompoundGood(c: Config)
    requires Reducible(c) && 2 <= RuleOf(c.stack.state) <= 4
    ensures Good(AfterReduction(c))
  {
    var st, rule := c.stack, RuleOf(c.stack.state);
    UniqueEntry(st);
    Compound(st);
    UniqueEntry(st.below);
    UniqueEntry(st.below.below);
    var b, i, j, k := st.below.below.below, st.below.below.item, st.below.item, st.item;
    if rule == 2 {
      AtomGood(c, b, Paren(j.e));
    } else if rule == 3 {
      AndFits(b, st.below.below.state, i.e, k.e);
    } else {
      OrFits(b, st.below.below.state, i.e, k.e);
    }
  }

  lemma PresenceGood(c: Config)
    requires Reducible(c) && 5 <= RuleOf(c.stack.state) <= 6
    ensures Good(AfterReduction(c))
  {
    PresenceShape(c.stack);
    var r := AfterReduction(c).stack;
    AtomGood(c, r.below, r.item.e);
  }

  lemma PresenceShape(st: Stack)
    requires WellFormed(st) && st.Push? && 5 <= RuleOf(st.state) <= 6
    ensures var r := Reduced(st, RuleOf(st.state)).0;
      && r.Push? && r.item.Ex? && r == PushExpr(r.below, r.item.e)
      && WellFormed(r.below) && AtExpression(Top(r.below)) && Atom(r.item.e)
  {
    Handle(st);
    UniqueEntry(st);
    UniqueEntry(st.below);
    UniqueEntry(st.below.below);
    UniqueEntry(st.below.below.below);
  }

  lemma ComparisonGood(c: Config)
    requires Reducible(c) && 7 <= RuleOf(c.stack.state)
    ensures Good(AfterReduction(c))
  {
    Comparison(c.stack);
    var r := AfterReduction(c).stack;
    AtomGood(c, r.below, r.item.e);
  }

  lemma ReduceYield(st: Stack)
    requires WellFormed(st) && st.Push? && RuleOf(st.state) != 0
    ensures StackYield(Reduced(st, RuleOf(st.state)).0) == StackYield(st)
  {
    var rule := RuleOf(st.state);
    if rule == 1 {
      Handle(st);
    } else if rule <= 4 {
      CompoundYield(st);
    } else if rule <= 6 {
      PresenceYield(st);
    } else {
      ComparisonYield(st);
    }
  }

  /** Rules 2 to 4, item by item. */
  lemma Compound(st: Stack)
    requires WellFormed(st) && st.Push? && 2 <= RuleOf(st.state) <= 4
    ensures st.below.Push? && st.below.below.Push?
    ensures var rule, b, i, j, k := RuleOf(st.state), st.below.below.below, st.below.below.item, st.below.item, st.item;
      && (rule == 2 ==> i == Tok(OPEN) && j.Ex? && k == Tok(CLOSE) && Reduced(st, rule).0 == PushExpr(b, Paren(j.e)))
      && (rule == 3 ==> i.Ex? && j == Tok(AND) && k.Ex? && Reduced(st, rule).0 == PushExpr(b, LogicalAnd(i.e, k.e)))
      && (rule == 4 ==> i.Ex? && j == Tok(OR) && k.Ex? && Reduced(st, rule).0 == PushExpr(b, LogicalOr(i.e, k.e)))
    ensures var r := Reduced(st, RuleOf(st.state)).0;
      && r.Push? && r.item.Ex? && r == PushExpr(st.below.below.below, r.item.e)
      && Yield(r.item.e) == ItemYield(st.below.below.item) + ItemYield(st.below.item) + ItemYield(st.item)
  {
    Handle(st);
    UniqueEntry(st);
    UniqueEntry(st.below);
    UniqueEntry(st.below.below);
  }

  lemma CompoundYield(st: Stack)
    requires WellFormed(st) && st.Push? && 2 <= RuleOf(st.state) <= 4
    ensures StackYield(Reduced(st, RuleOf(st.state)).0) == StackYield(st)
  {
    Compound(st);
    YieldOfThree(st);
    var y, r := StackYield(st.below.below.below), Reduced(st, RuleOf(st.state)).0;
    var i, j, k := ItemYield(st.below.below.item), ItemYield(st.below.item), ItemYield(st.item);
    assert ItemYield(r.item) == i + j + k && StackYield(r) == y + ItemYield(r.item);
    assert y + i + j + k == y + (i + j + k);
  }

  lemma PresenceYield(st: Stack)
    requires WellFormed(st) && st.Push? && 5 <= RuleOf(st.state) <= 6
    ensures StackYield(Reduced(st, RuleOf(st.state)).0) == StackYield(st)
  {
    Handle(st);
    UniqueEntry(st);
    UniqueEntry(st.below);
    UniqueEntry(st.below.below);
    UniqueEntry(st.below.below.below);
    YieldOfThree(st);
    var b := st.below.below.below;
    assert StackYield(b) == StackYield(b.below) + ItemYield(b.item);
    var y := StackYield(b.below);
    var h, i, j, k := ItemYield(b.item), ItemYield(st.below.below.item), ItemYield(st.below.item), ItemYield(st.item);
    assert y + h + i + j + k == y + (h + i + j + k);
    assert h + i + j + k == [b.item.t, st.below.below.item.t, st.below.item.t, st.item.t];
  }

  lemma ComparisonShape(st: Stack)
    requires WellFormed(st) && st.Push? && 7 <= RuleOf(st.state)
    ensures st.below.Push? && st.below.below.Push?
    ensures st.below.below.item.Tok? && st.below.item.Tok? && st.item.Tok?
    ensures WellFormed(st.below.below.below) && AtExpression(Top(st.below.below.below))
  {
    UniqueEntry(st);
    UniqueEntry(st.below);
    UniqueEntry(st.below.below);
  }

  /** Rules 7 to 16. */
  lemma Comparison(st: Stack)
    requires WellFormed(st) && st.Push? && 7 <= RuleOf(st.state)
    ensures st.below.Push? && st.below.below.Push?
    ensures var r, i, j, k := Reduced(st, RuleOf(st.state)).0, st.below.below.item, st.below.item, st.item;
      && i.Tok? && j.Tok? && k.Tok? && WellFormed(st.below.below.below) && AtExpression(Top(st.below.below.below))
      && r.Push? && r.item.Ex? && r == PushExpr(st.below.below.below, r.item.e)
      && Atom(r.item.e) && Yield(r.item.e) == [i.t, j.t, k.t]
  {
    ComparisonShape(st);
    Handle(st);
    ComparisonBuilt(st, RuleOf(st.state));
  }

  lemma ComparisonBuilt(st: Stack, rule: int)
    requires st.Push? && st.below.Push? && st.below.below.Push? && rule >= 7 && Reduced(st, rule).1
    requires st.below.below.item.Tok? && st.below.item.Tok? && st.item.Tok?
    ensures var r, i, j, k := Reduced(st, rule).0, st.below.below.item, st.below.item, st.item;
      && r.Push? && r.item.Ex? && r == PushExpr(st.below.below.below, r.item.e)
      && Atom(r.item.e) && Yield(r.item.e) == [i.t, j.t, k.t]
  {
  }

  lemma ComparisonYield(st: Stack)
    requires WellFormed(st) && st.Push? && 7 <= RuleOf(st.state)
    ensures StackYield(Reduced(st, RuleOf(st.state)).0) == StackYield(st)
  {
    Comparison(st);
    YieldOfThree(st);
    var y := StackYield(st.below.below.below);
    var i, j, k := ItemYield(st.below.below.item), ItemYield(st.below.item), ItemYield(st.item);
    assert y + i + j + k == y + (i + j + k);
  }

  lemma YieldOfThree(st: Stack)
    requires st.Push? && st.below.Push? && st.below.below.Push?
    ensures StackYield(st) ==
      StackYield(st.below.below.below) + ItemYield(st.below.below.item) + ItemYield(st.below.item) + ItemYield(st.item)
  {
    assert StackYield(st.below) == StackYield(st.below.below) + ItemYield(st.below.item);
  }

  lemma StepGood(c: Config)
    requires Good(c) && Step(c).Goes?
    ensures var c' := Step(c).c; Good(c') && StackYield(c'.stack) + c'.rest == StackYield(c.stack) + c.rest
  {
    var s := Top(c.stack);
    if c.rest != [] && ShiftOf(s, c.rest[0]) != NO_STATE {
      ShiftGood(c);
      assert c.rest == [c.rest[0]] + c.rest[1..];
    } else {
      ReduceGood(c);
      ReduceYield(c.stack);
    }
  }

  lemma {:induction false} RunSound(c: Config)
    requires Good(c) && Run(c).Accepted?
    ensures Layered(Run(c).e) && Yield(Run(c).e) == StackYield(c.stack) + c.rest
    decreases |c.rest|, Height(c.stack), if Top(c.stack) == 1 then 0 else 1
  {
    if Step(c).Goes? {
      StepGood(c);
      ReducedShrinks(c.stack, RuleOf(Top(c.stack)));
      RunSound(Step(c).c);
    } else {
      UniqueEntry(c.stack);
      assert StackYield(c.stack.below) == [];
    }
  }

  /** Soundness: an accepted token list is the yield of the tree returned, and that tree is layered. */
  lemma ParseSound(tokens: seq<Token>)
    requires Parse(tokens).Accepted?
    ensures Layered(Parse(tokens).e) && Yield(Parse(tokens).e) == tokens
  {
    RunSound(Config(Base, tokens));
    assert StackYield(Base) + tokens == tokens;
  }
}
