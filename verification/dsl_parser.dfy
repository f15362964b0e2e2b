/** The generated driver (yyParserImpl.Parse of expr.y.go) on the real tables, refining the automaton. */
module DslParser {
  import opened Common
  import opened DslGrammar
  import opened DslAutomaton
  import opened DslSoundness
  import opened DslCompleteness
  import opened DslTables

  /** yySymType. */
  datatype SymType = SymType(yys: int, expr: Option<Expr>, value: string, intValue: int)

  /** What the lexer leaves in its value for a token; other fields keep their contents. */
  function Lexed(lval: SymType, t: Token): SymType {
    match t
    case FIELD(name) => lval.(value := name)
    case STRING(text) => lval.(value := text)
    case NUMBER(n) => lval.(intValue := n)
    case _ => lval
  }

  function Binary(op: (Expr, Expr) -> Expr, l: Option<Expr>, r: Option<Expr>): Option<Expr> {
    if l.Some? && r.Some? then Some(op(l.value, r.value)) else None
  }

  /** The semantic action of a rule on the symbols of its right-hand side. */
  function Action(rule: int, d: seq<SymType>): Option<Expr>
    requires |d| == YyR2(rule)
  {
    match rule
    case 1 => d[0].expr
    case 2 => if d[1].expr.Some? then Some(Paren(d[1].expr.value)) else None
    case 3 => Binary((l, r) => LogicalAnd(l, r), d[0].expr, d[2].expr)
    case 4 => Binary((l, r) => LogicalOr(l, r), d[0].expr, d[2].expr)
    case 5 => Some(With(d[2].value))
    case 6 => Some(Without(d[2].value))
    case 7 => Some(Eq(d[0].value, d[2].value))
    case 8 => Some(NEq(d[0].value, d[2].value))
    case 9 => Some(EqNum(d[0].value, d[2].intValue))
    case 10 => Some(NEqNum(d[0].value, d[2].intValue))
    case 11 => Some(LessThan(d[0].value, d[2].intValue))
    case 12 => Some(GreaterThan(d[0].value, d[2].intValue))
    case 13 => Some(LessOrEqualThan(d[0].value, d[2].intValue))
    case 14 => Some(GreaterOrEqualThan(d[0].value, d[2].intValue))
    case 15 => Some(Reg(d[0].value, d[2].value))
    case 16 => Some(NReg(d[0].value, d[2].value))
    case _ => None
  }

  // ----- the concrete stack against the automaton's

  predicate Carries(v: SymType, it: Item) {
    match it
    case Tok(t) => (t.FIELD? ==> v.value == t.name) && (t.STRING? ==> v.value == t.text)
      && (t.NUMBER? ==> v.intValue == t.n)
    case Ex(e) => v.expr == Some(e)
    case Root(e) => v.expr == Some(e)
  }

  predicate Holds(yyS: seq<SymType>, st: Stack) {
    yyS != [] && yyS[|yyS|-1].yys == Top(st) &&
    if st.Base? then |yyS| == 1
    else Carries(yyS[|yyS|-1], st.item) && Holds(yyS[..|yyS|-1], st.below)
  }

  lemma HoldsPush(yyS: seq<SymType>, st: Stack, v: SymType, s: int, it: Item)
    requires Holds(yyS, st) && Carries(v, it)
    ensures Holds(yyS + [v.(yys := s)], Push(st, s, it))
  {
    assert (yyS + [v.(yys := s)])[..|yyS|] == yyS;
  }

  lemma HoldsBelow(yyS: seq<SymType>, st: Stack)
    requires Holds(yyS, st) && st.Push?
    ensures |yyS| > 1 && Holds(yyS[..|yyS|-1], st.below) && Carries(yyS[|yyS|-1], st.item)
    ensures st.below.Push? ==>
      |yyS| > 2 && Holds(yyS[..|yyS|-2], st.below.below) && Carries(yyS[|yyS|-2], st.below.item)
  {
    var b := yyS[..|yyS|-1];
    if st.below.Push? {
      assert b[..|b|-1] == yyS[..|yyS|-2];
    }
  }

  /** The driver's reduction matches the automaton's: what is popped, what is built, where it goes. */
  predicate ReducesTo(yyS: seq<SymType>, st: Stack, rule: int, st': Stack) {
    var k := YyR2(rule);
    && 0 < k < |yyS| && st'.Push? && Holds(yyS[..|yyS|-k], st'.below)
    && (st'.item.Ex? || st'.item.Root?) && Action(rule, yyS[|yyS|-k..]) == Some(st'.item.e)
    && st'.state == TableGoto(yyS[|yyS|-k-1].yys, YyR1(rule))
  }

  lemma ReduceHolds(yyS: seq<SymType>, st: Stack)
    requires Holds(yyS, st) && WellFormed(st) && st.Push? && RuleOf(st.state) != 0
    ensures ReducesTo(yyS, st, RuleOf(st.state), Reduced(st, RuleOf(st.state)).0)
  {
    var rule := RuleOf(st.state);
    if rule == 1 {
      Handle(st);
      UniqueEntry(st);
      HoldsBelow(yyS, st);
      GotoAgrees(0);
    } else if rule <= 4 {
      CompoundHolds(yyS, st);
    } else if rule <= 6 {
      PresenceHolds(yyS, st);
    } else if rule <= 11 {
      ComparisonHolds(yyS, st);
    } else {
      ComparisonHoldsToo(yyS, st);
    }
  }

  lemma HoldsThree(yyS: seq<SymType>, st: Stack)
    requires Holds(yyS, st) && st.Push? && st.below.Push? && st.below.below.Push?
    ensures |yyS| > 3 && Holds(yyS[..|yyS|-3], st.below.below.below)
    ensures Carries(yyS[|yyS|-3..][0], st.below.below.item)
    ensures Carries(yyS[|yyS|-3..][1], st.below.item)
    ensures Carries(yyS[|yyS|-3..][2], st.item)
    ensures yyS[|yyS|-4].yys == Top(st.below.below.below)
  {
    HoldsBelow(yyS, st);
    var p := yyS[..|yyS|-2];
    HoldsBelow(p, st.below.below);
    assert p[..|p|-1] == yyS[..|yyS|-3];
    assert p[|p|-1] == yyS[|yyS|-3];
  }

  lemma CompoundHolds(yyS: seq<SymType>, st: Stack)
    requires Holds(yyS, st) && WellFormed(st) && st.Push? && 2 <= RuleOf(st.state) <= 4
    ensures ReducesTo(yyS, st, RuleOf(st.state), Reduced(st, RuleOf(st.state)).0)
  {
    Compound(st);
    HoldsThree(yyS, st);
    UniqueEntry(st);
    UniqueEntry(st.below);
    UniqueEntry(st.below.below);
    GotoAgrees(Top(st.below.below.below));
  }

  lemma PresenceHolds(yyS: seq<SymType>, st: Stack)
    requires Holds(yyS, st) && WellFormed(st) && st.Push? && 5 <= RuleOf(st.state) <= 6
    ensures ReducesTo(yyS, st, RuleOf(st.state), Reduced(st, RuleOf(st.state)).0)
  {
    PresenceParts(st);
    HoldsThree(yyS, st);
    HoldsBelow(yyS[..|yyS|-3], st.below.below.below);
    assert yyS[..|yyS|-3][..|yyS|-4] == yyS[..|yyS|-4];
    assert yyS[|yyS|-4..][2] == yyS[|yyS|-3..][1];
    GotoAgrees(Top(st.below.below.below.below));
  }

  lemma PresenceParts(st: Stack)
    requires WellFormed(st) && st.Push? && 5 <= RuleOf(st.state) <= 6
    ensures st.below.Push? && st.below.below.Push? && st.below.below.below.Push?
    ensures var b, j := st.below.below.below.below, st.below.item;
      && AtExpression(Top(b)) && j.Tok? && j.t.FIELD?
      && Reduced(st, 5).1 == (RuleOf(st.state) == 5) && Reduced(st, 6).1 == (RuleOf(st.state) == 6)
      && Reduced(st, RuleOf(st.state)).0
        == PushExpr(b, if RuleOf(st.state) == 5 then With(j.t.name) else Without(j.t.name))
  {
    Handle(st);
    UniqueEntry(st);
    UniqueEntry(st.below);
    UniqueEntry(st.below.below);
    UniqueEntry(st.below.below.below);
  }

  lemma ComparisonHolds(yyS: seq<SymType>, st: Stack)
    requires Holds(yyS, st) && WellFormed(st) && st.Push? && 7 <= RuleOf(st.state) <= 11
    ensures ReducesTo(yyS, st, RuleOf(st.state), Reduced(st, RuleOf(st.state)).0)
  {
    ComparisonParts(st);
    HoldsThree(yyS, st);
    GotoAgrees(Top(st.below.below.below));
  }

  lemma ComparisonHoldsToo(yyS: seq<SymType>, st: Stack)
    requires Holds(yyS, st) && WellFormed(st) && st.Push? && 12 <= RuleOf(st.state)
    ensures ReducesTo(yyS, st, RuleOf(st.state), Reduced(st, RuleOf(st.state)).0)
  {
    ComparisonParts(st);
    HoldsThree(yyS, st);
    GotoAgrees(Top(st.below.below.below));
  }

  lemma ComparisonParts(st: Stack)
    requires WellFormed(st) && st.Push? && 7 <= RuleOf(st.state)
    ensures st.below.Push? && st.below.below.Push? && AtExpression(Top(st.below.below.below))
    ensures var rule, i, j, k := RuleOf(st.state), st.below.below.item, st.below.item, st.item;
      && i.Tok? && i.t.FIELD? && j.Tok? && k.Tok?
      && (if rule in {7, 8, 15, 16} then k.t.STRING? else k.t.NUMBER?)
      && Reduced(st, rule).0 == PushExpr(st.below.below.below, ComparisonOf(rule, i.t.name, k.t))
  {
    Handle(st);
    UniqueEntry(st);
    UniqueEntry(st.below);
    UniqueEntry(st.below.below);
  }

  function ComparisonOf(rule: int, k: string, t: Token): Expr
    requires if rule in {7, 8, 15, 16} then t.STRING? else t.NUMBER?
  {
    match rule
    case 7 => Eq(k, t.text)
    case 8 => NEq(k, t.text)
    case 9 => EqNum(k, t.n)
    case 10 => NEqNum(k, t.n)
    case 11 => LessThan(k, t.n)
    case 12 => GreaterThan(k, t.n)
    case 13 => LessOrEqualThan(k, t.n)
    case 14 => GreaterOrEqualThan(k, t.n)
    case 15 => Reg(k, t.text)
    case 16 => NReg(k, t.text)
    case _ => Paren(With(k))
  }

  // ----- the lookahead

  /** The automaton's remaining input, given how far the lexer has been read. */
  predicate LooksAhead(tokens: seq<Token>, pos: nat, c: int, yytoken: int, lval: SymType, rest: seq<Token>) {
    pos <= |tokens| &&
    if c < 0 then rest == tokens[pos..]
    else if c == 0 then pos == |tokens| && rest == [] && yytoken == YY_EOF_CODE
    else pos > 0 && rest == tokens[pos-1..] && rest != [] && IsLookahead(rest[0], c, yytoken, lval)
  }

  predicate IsLookahead(t: Token, c: int, yytoken: int, lval: SymType) {
    c == CharOf(t) && yytoken == TokenNumber(c) && Carries(lval, Tok(t))
  }

  /** yylex1. */
  method Lex(tokens: seq<Token>, pos: nat, lval: SymType) returns (c: int, yytoken: int, lval': SymType, pos': nat)
    requires pos <= |tokens|
    ensures c >= 0 && LooksAhead(tokens, pos', c, yytoken, lval', tokens[pos..])
  {
    if pos == |tokens| {
      return 0, TokenNumber(0), lval, pos;
    }
    return CharOf(tokens[pos]), TokenNumber(CharOf(tokens[pos])), Lexed(lval, tokens[pos]), pos + 1;
  }

  /** The search of the error recovery for a state that shifts the error token: there is none, so it aborts. */
  method Recover(yyS: seq<SymType>) returns (resumed: bool)
    requires forall v :: v in yyS ==> 0 <= v.yys < STATES
    ensures !resumed
  {
    var yyp := |yyS| - 1;
    while yyp >= 0
      invariant -1 <= yyp < |yyS|
    {
      assert yyS[yyp] in yyS;
      NeverShifted(yyS[yyp].yys);
      var yyn := YyPact(yyS[yyp].yys) + YY_ERR_CODE;
      if 0 <= yyn < YY_LAST && YyChk(YyAct(yyn)) == YY_ERR_CODE {
        return true;
      }
      yyp := yyp - 1;
    }
    return false;
  }

  lemma StateInRange(st: Stack)
    requires WellFormed(st)
    ensures 0 <= Top(st) < STATES
  {
  }

  /** Everything the driver's variables mean when it is about to read the state on top of its stack. */
  predicate Means(
    tokens: seq<Token>, yyS: seq<SymType>, pos: nat, c: int, yytoken: int, lval: SymType, cfg: Config)
  {
    && Good(cfg) && Run(cfg) == DslAutomaton.Parse(tokens)
    && Holds(yyS, cfg.stack) && (forall v :: v in yyS ==> 0 <= v.yys < STATES)
    && LooksAhead(tokens, pos, c, yytoken, lval, cfg.rest)
  }

  /** In the final state the lexer's result is the expression at the root. */
  predicate AtRoot(cfg: Config, result: Option<Expr>) {
    cfg.stack.Push? && cfg.stack.item.Root? && result == Some(cfg.stack.item.e)
  }

  predicate Progress(cfg: Config, cfg': Config) {
    |cfg'.rest| <= |cfg.rest| &&
    (Height(cfg'.stack) < Height(cfg.stack) ||
     (Height(cfg'.stack) == Height(cfg.stack) && Top(cfg'.stack) == 1 && Top(cfg.stack) != 1))
  }

  /** In state 1 the end marker accepts and anything else fails; a state without a rule fails. */
  lemma Finishing(
    tokens: seq<Token>, yyS: seq<SymType>, pos: nat, c: int, yytoken: int, lval: SymType, cfg: Config,
    result: Option<Expr>)
    requires Means(tokens, yyS, pos, c, yytoken, lval, cfg)
    requires cfg.rest != [] ==> ShiftOf(Top(cfg.stack), cfg.rest[0]) == NO_STATE
    requires Top(cfg.stack) == 1 ==> c >= 0 && AtRoot(cfg, result)
    ensures Top(cfg.stack) == 1 && yytoken == YY_EOF_CODE ==>
      result.Some? && DslAutomaton.Parse(tokens) == Accepted(result.value)
    ensures (if Top(cfg.stack) == 1 then yytoken != YY_EOF_CODE else RuleOf(Top(cfg.stack)) == 0) ==>
      DslAutomaton.Parse(tokens) == SyntaxError
  {
    if cfg.rest != [] {
      ShiftAgrees(1, cfg.rest[0]);
    }
  }

  /** One shift of the driver is one step of the automaton. */
  lemma ShiftMeans(
    tokens: seq<Token>, yyS: seq<SymType>, pos: nat, c: int, yytoken: int, lval: SymType, cfg: Config, next: int)
    requires Means(tokens, yyS, pos, c, yytoken, lval, cfg) && c >= 0
    requires next == TableShift(Top(cfg.stack), yytoken) && next != NO_STATE
    ensures Step(cfg).Goes?
    ensures Means(tokens, yyS + [lval.(yys := next)], pos, -1, -1, lval, Step(cfg).c)
    ensures next == Top(Step(cfg).c.stack) != 1 && |Step(cfg).c.rest| < |cfg.rest|
  {
    var s := Top(cfg.stack);
    StateInRange(cfg.stack);
    NeverShifted(s);
    var t := cfg.rest[0];
    ShiftAgrees(s, t);
    StepGood(cfg);
    StateInRange(Step(cfg).c.stack);
    HoldsPush(yyS, cfg.stack, lval, next, Tok(t));
  }

  lemma ReduceMeans(
    tokens: seq<Token>, yyS: seq<SymType>, pos: nat, c: int, yytoken: int, lval: SymType, cfg: Config, v: SymType)
    requires Means(tokens, yyS, pos, c, yytoken, lval, cfg)
    requires var s := Top(cfg.stack); RuleOf(s) != 0 && (cfg.rest != [] ==> ShiftOf(s, cfg.rest[0]) == NO_STATE)
    requires var rule := RuleOf(Top(cfg.stack));
      && YyR2(rule) < |yyS| && v.yys == TableGoto(yyS[|yyS|-YyR2(rule)-1].yys, YyR1(rule))
      && v.expr == Action(rule, yyS[|yyS|-YyR2(rule)..])
    ensures Step(cfg).Goes?
    ensures Means(tokens, yyS[..|yyS|-YyR2(RuleOf(Top(cfg.stack)))] + [v], pos, c, yytoken, lval, Step(cfg).c)
    ensures Progress(cfg, Step(cfg).c) && Top(Step(cfg).c.stack) == v.yys
    ensures RuleOf(Top(cfg.stack)) == 1 ==> AtRoot(Step(cfg).c, v.expr)
    ensures RuleOf(Top(cfg.stack)) != 1 ==> v.yys != 1
  {
    ReducedShrinks(cfg.stack, RuleOf(Top(cfg.stack)));
    var st, rule := cfg.stack, RuleOf(Top(cfg.stack));
    var st' := Reduced(st, rule).0;
    Handle(st);
    ReduceHolds(yyS, st);
    StepGood(cfg);
    assert Step(cfg).c == Config(st', cfg.rest);
    StateInRange(st');
    HoldsPush(yyS[..|yyS|-YyR2(rule)], st'.below, v, v.yys, st'.item);
    assert Push(st'.below, v.yys, st'.item) == st' && v.(yys := v.yys) == v;
  }

  /** The handle is on the stack whenever a reduction is due. */
  lemma HandleFits(yyS: seq<SymType>, st: Stack)
    requires Holds(yyS, st) && WellFormed(st) && RuleOf(Top(st)) != 0
    ensures 0 < YyR2(RuleOf(Top(st))) < |yyS| && st.Push?
  {
    ReduceHolds(yyS, st);
  }

  /** The reduction of the driver: pops the right-hand side, runs the action, consults the goto table. */
  method Reduce(yyS: seq<SymType>, rule: int) returns (rest: seq<SymType>, yyVAL: SymType)
    requires 0 < YyR2(rule) < |yyS|
    ensures rest == yyS[..|yyS|-YyR2(rule)]
    ensures yyVAL.expr == Action(rule, yyS[|yyS|-YyR2(rule)..])
    ensures yyVAL.yys == TableGoto(yyS[|yyS|-YyR2(rule)-1].yys, YyR1(rule))
  {
    var yyp := |yyS| - YyR2(rule);
    var dollar := yyS[yyp..];
    yyVAL := dollar[0].(expr := Action(rule, dollar), yys := TableGoto(yyS[yyp-1].yys, YyR1(rule)));
    rest := yyS[..yyp];
  }

  /** Parse: 0 with the expression when the tokens have a layered reading, otherwise 1 and one reported error. */
  method Parse(tokens: seq<Token>) returns (ret: int, result: Option<Expr>, errors: nat)
    ensures errors == 0 <==> exists e :: Layered(e) && Yield(e) == tokens
    ensures errors == 0 ==> ret == 0 && result.Some? && Layered(result.value) && Yield(result.value) == tokens
    ensures errors != 0 ==> ret == 1 && errors == 1
  {
    Decided(tokens);
    ret, result, errors := Drive(tokens);
  }

  /** yynewstate: reads a token if the state needs one, and decides by the tables whether to shift it. */
  method NewState(
    tokens: seq<Token>, yystate: int, c: int, yytoken: int, lval: SymType, pos: nat, ghost rest: seq<Token>)
    returns (next: int, c': int, yytoken': int, lval': SymType, pos': nat)
    requires 0 <= yystate < STATES && LooksAhead(tokens, pos, c, yytoken, lval, rest)
    ensures LooksAhead(tokens, pos', c', yytoken', lval', rest)
    ensures next != NO_STATE ==> c' >= 0 && next == TableShift(yystate, yytoken')
    ensures next == NO_STATE ==> rest != [] ==> ShiftOf(yystate, rest[0]) == NO_STATE
  {
    c', yytoken', lval', pos' := c, yytoken, lval, pos;
    if rest != [] {
      ShiftAgrees(yystate, rest[0]);
    }
    var yyn := YyPact(yystate);
    if yyn <= YY_FLAG {
      return NO_STATE, c', yytoken', lval', pos';
    }
    if c < 0 {
      c', yytoken', lval', pos' := Lex(tokens, pos, lval);
    }
    next := TableShift(yystate, yytoken');
  }

  /** The driver loop returns what the automaton decides. */
  method Drive(tokens: seq<Token>) returns (ret: int, result: Option<Expr>, errors: nat)
    ensures DslAutomaton.Parse(tokens).Accepted? ==>
      ret == 0 && errors == 0 && result == Some(DslAutomaton.Parse(tokens).e)
    ensures DslAutomaton.Parse(tokens).SyntaxError? ==> ret == 1 && errors == 1
  {
    var lval := SymType(0, None, "", 0);
    var yyVAL := lval;
    var yystate, c, yytoken, pos := 0, -1, -1, 0;
    var yyS: seq<SymType> := [];
    ghost var cfg := Config(Base, tokens);
    result, errors := None, 0;
    while true
      invariant Means(tokens, yyS + [yyVAL.(yys := yystate)], pos, c, yytoken, lval, cfg)
      invariant errors == 0 && yystate == Top(cfg.stack)
      invariant yystate == 1 ==> AtRoot(cfg, result)
      decreases |cfg.rest|, Height(cfg.stack), if Top(cfg.stack) == 1 then 0 else 1
    {
      // yystack: put a state and value onto the stack
      yyS := yyS + [yyVAL.(yys := yystate)];
      StateInRange(cfg.stack);
      // yynewstate
      var next;
      next, c, yytoken, lval, pos := NewState(tokens, yystate, c, yytoken, lval, pos, cfg.rest);
      if next != NO_STATE {
        ShiftMeans(tokens, yyS, pos, c, yytoken, lval, cfg, next);
        cfg := Step(cfg).c;
        c, yytoken, yyVAL, yystate := -1, -1, lval, next;
        continue;
      }
      // yydefault
      DefaultAgrees(yystate);
      var yyn := YyDef(yystate);
      if yyn == -2 {
        if c < 0 {
          c, yytoken, lval, pos := Lex(tokens, pos, lval);
        }
        Finishing(tokens, yyS, pos, c, yytoken, lval, cfg, result);
        yyn := Exception(yystate, yytoken);
        if yyn < 0 {
          return 0, result, errors;
        }
      }
      if yyn == 0 {
        Finishing(tokens, yyS, pos, c, yytoken, lval, cfg, result);
        errors := errors + 1;
        var resumed := Recover(yyS);
        assert !resumed;
        return 1, result, errors;
      }
      // reduction by production yyn
      HandleFits(yyS, cfg.stack);
      ghost var before := yyS;
      yyS, yyVAL := Reduce(yyS, yyn);
      ReduceMeans(tokens, before, pos, c, yytoken, lval, cfg, yyVAL);
      yystate := yyVAL.yys;
      if yyn == 1 {
        result := yyVAL.expr;
      }
      cfg := Step(cfg).c;
      assert yyVAL.(yys := yystate) == yyVAL;
    }
  }

  lemma Decided(tokens: seq<Token>)
    ensures DslAutomaton.Parse(tokens).Accepted? <==> exists e :: Layered(e) && Yield(e) == tokens
    ensures DslAutomaton.Parse(tokens).Accepted? ==>
      Layered(DslAutomaton.Parse(tokens).e) && Yield(DslAutomaton.Parse(tokens).e) == tokens
  {
    if DslAutomaton.Parse(tokens).Accepted? {
      ParseSound(tokens);
    }
    if e :| Layered(e) && Yield(e) == tokens {
      ParseComplete(e);
    }
  }

  /** The look through the exception table of state 1: accept on the end marker, otherwise an error. */
  method Exception(yystate: int, yytoken: int) returns (yyn: int)
    requires yystate == 1
    ensures yyn == if yytoken == YY_EOF_CODE then -1 else 0
  {
    assert YyExca(0) == -1 && YyExca(1) == yystate;  // the table has one block, and it is the one for state 1
    var xi := 2;
    while !(YyExca(xi) < 0 || YyExca(xi) == yytoken)
      invariant xi == 2 || (xi == 4 && yytoken != YY_EOF_CODE)
      decreases 4 - xi
    {
      xi := xi + 2;
    }
    yyn := YyExca(xi + 1);
  }
}
