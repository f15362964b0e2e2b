/** The shift-reduce automaton of the filter language in readable form, proved against the grammar. */
module DslAutomaton {
  import opened DslGrammar

  type State = s: int | 0 <= s < 37

  const NO_STATE := -1

  /** What lies on the parser stack above each state. */
  datatype Item = Tok(t: Token) | Ex(e: Expr) | Root(e: Expr)
  datatype Stack = Base | Push(below: Stack, state: int, item: Item)

  function Top(st: Stack): int {
    if st.Base? then 0 else st.state
  }

  function Height(st: Stack): nat {
    if st.Base? then 0 else 1 + Height(st.below)
  }

  /** Where a token leads, or NO_STATE. */
  function ShiftOf(s: int, t: Token): int {
    if s == 0 || s == 3 || s == 7 || s == 8 then
      (match t
       case OPEN => 3
       case WITH => 4
       case WITHOUT => 5
       case FIELD(_) => 6
       case _ => NO_STATE)
    else if s == 2 then (if t.AND? then 7 else if t.OR? then 8 else NO_STATE)
    else if s == 9 then (if t.AND? then 7 else if t.OR? then 8 else if t.CLOSE? then 22 else NO_STATE)
    else if s == 20 then (if t.OR? then 8 else NO_STATE)
    else if s == 4 then (if t.OPEN? then 10 else NO_STATE)
    else if s == 5 then (if t.OPEN? then 11 else NO_STATE)
    else if s == 6 then
      (match t
       case EQ => 12
       case NEQ => 13
       case LT => 14
       case GT => 15
       case LE => 16
       case GE => 17
       case REG => 18
       case NREG => 19
       case _ => NO_STATE)
    else if s == 10 then (if t.FIELD? then 23 else NO_STATE)
    else if s == 11 then (if t.FIELD? then 24 else NO_STATE)
    else if s == 12 then (if t.STRING? then 25 else if t.NUMBER? then 26 else NO_STATE)
    else if s == 13 then (if t.STRING? then 27 else if t.NUMBER? then 28 else NO_STATE)
    else if 14 <= s <= 17 then (if t.NUMBER? then s + 15 else NO_STATE)
    else if 18 <= s <= 19 then (if t.STRING? then s + 15 else NO_STATE)
    else if s == 23 then (if t.CLOSE? then 35 else NO_STATE)
    else if s == 24 then (if t.CLOSE? then 36 else NO_STATE)
    else NO_STATE
  }

  /** Where a finished expression leads. */
  function GotoOf(s: int): int {
    if s == 3 then 9 else if s == 7 then 20 else if s == 8 then 21 else 2
  }

  /** The rule reduced when nothing is shifted; 0 is a syntax error, state 1 accepts or fails. */
  function RuleOf(s: int): int {
    if s == 2 then 1 else if s == 22 then 2 else if s == 20 then 3 else if s == 21 then 4
    else if s == 35 then 5 else if s == 36 then 6 else if s == 25 then 7 else if s == 27 then 8
    else if s == 26 then 9 else if s == 28 then 10 else if 29 <= s <= 34 then s - 18 else 0
  }

  /** The expression a rule builds from the items on top of the stack, with what remains below them. */
  function Reduced(st: Stack, rule: int): (Stack, bool) {
    match st
    case Push(Push(Push(b, _, Tok(OPEN)), _, Ex(e)), _, Tok(CLOSE)) =>
      if rule == 2 then (PushExpr(b, Paren(e)), true) else (st, false)
    case Push(Push(Push(b, _, Ex(l)), _, Tok(op)), _, Ex(r)) =>
      if rule == 3 && op.AND? then (PushExpr(b, LogicalAnd(l, r)), true)
      else if rule == 4 && op.OR? then (PushExpr(b, LogicalOr(l, r)), true)
      else (st, false)
    case Push(Push(Push(Push(b, _, Tok(w)), _, Tok(OPEN)), _, Tok(FIELD(k))), _, Tok(CLOSE)) =>
      if rule == 5 && w.WITH? then (PushExpr(b, With(k)), true)
      else if rule == 6 && w.WITHOUT? then (PushExpr(b, Without(k)), true)
      else (st, false)
    case Push(Push(Push(b, _, Tok(FIELD(k))), _, Tok(op)), _, Tok(STRING(v))) =>
      if rule == 7 && op.EQ? then (PushExpr(b, Eq(k, v)), true)
      else if rule == 8 && op.NEQ? then (PushExpr(b, NEq(k, v)), true)
      else if rule == 15 && op.REG? then (PushExpr(b, Reg(k, v)), true)
      else if rule == 16 && op.NREG? then (PushExpr(b, NReg(k, v)), true)
      else (st, false)
    case Push(Push(Push(b, _, Tok(FIELD(k))), _, Tok(op)), _, Tok(NUMBER(n))) =>
      if rule == 9 && op.EQ? then (PushExpr(b, EqNum(k, n)), true)
      else if rule == 10 && op.NEQ? then (PushExpr(b, NEqNum(k, n)), true)
      else if rule == 11 && op.LT? then (PushExpr(b, LessThan(k, n)), true)
      else if rule == 12 && op.GT? then (PushExpr(b, GreaterThan(k, n)), true)
      else if rule == 13 && op.LE? then (PushExpr(b, LessOrEqualThan(k, n)), true)
      else if rule == 14 && op.GE? then (PushExpr(b, GreaterOrEqualThan(k, n)), true)
      else (st, false)
    case Push(b, _, Ex(e)) =>
      if rule == 1 then (Push(b, 1, Root(e)), true) else (st, false)
    case _ => (st, false)
  }

  function PushExpr(b: Stack, e: Expr): Stack { Push(b, GotoOf(Top(b)), Ex(e)) }

  lemma ReducedShrinks(st: Stack, rule: int)
    ensures var (st', ok) := Reduced(st, rule);
      ok ==> Height(st') < Height(st) || (Height(st') == Height(st) && Top(st') == 1)
  {
    var r := Reduced(st, rule).0;
    HeightOf(st);
    HeightOf(r);
    if st.Push? {
      HeightOf(st.below);
      if st.below.Push? {
        HeightOf(st.below.below);
      }
    }
  }

  lemma HeightOf(st: Stack)
    ensures st.Push? ==> Height(st) == 1 + Height(st.below)
    ensures st.Push? && st.below.Push? ==> Height(st) == 2 + Height(st.below.below)
  {
  }

  datatype Config = Config(stack: Stack, rest: seq<Token>)
  datatype Result = Accepted(e: Expr) | SyntaxError

  datatype Outcome = Goes(c: Config) | Stops(r: Result)

  function Step(c: Config): Outcome {
    var s := Top(c.stack);
    if c.rest != [] && ShiftOf(s, c.rest[0]) != NO_STATE then
      Goes(Config(Push(c.stack, ShiftOf(s, c.rest[0]), Tok(c.rest[0])), c.rest[1..]))
    else if s == 1 then
      (if c.rest == [] && c.stack.Push? && c.stack.item.Root? then Stops(Accepted(c.stack.item.e))
        else Stops(SyntaxError))
    else
      var (st, ok) := Reduced(c.stack, RuleOf(s));
      if ok then Goes(Config(st, c.rest)) else Stops(SyntaxError)
  }

  /** Tokens left, then stack height, then the final reduction: every step makes progress. */
  function Run(c: Config): Result
    decreases |c.rest|, Height(c.stack), if Top(c.stack) == 1 then 0 else 1
  {
    ReducedShrinks(c.stack, RuleOf(Top(c.stack)));
    match Step(c)
    case Stops(r) => r
    case Goes(c') => Run(c')
  }

  function Parse(tokens: seq<Token>): Result { Run(Config(Base, tokens)) }
}
