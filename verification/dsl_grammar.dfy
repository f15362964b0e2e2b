/** Tokens and expressions of the filter language, and the layering that its parser realises (expr.y, lexer.go):
    OR binds tighter than AND, and both associate to the left. */
module DslGrammar {

  /** Tokens as the lexer delivers them; operators carry no payload. */
  datatype Token =
    | FIELD(name: string) | STRING(text: string) | NUMBER(n: int)
    | AND | OR | EQ | NEQ | GT | LT | GE | LE | REG | NREG | OPEN | CLOSE | WITH | WITHOUT

  datatype Expr =
    | Paren(inner: Expr)
    | LogicalAnd(left: Expr, right: Expr)
    | LogicalOr(left: Expr, right: Expr)
    | With(key: string) | Without(key: string)
    | Eq(key: string, value: string) | NEq(key: string, value: string)
    | EqNum(key: string, num: int) | NEqNum(key: string, num: int)
    | LessThan(key: string, num: int) | GreaterThan(key: string, num: int)
    | LessOrEqualThan(key: string, num: int) | GreaterOrEqualThan(key: string, num: int)
    | Reg(key: string, value: string) | NReg(key: string, value: string)

  /** The token list an expression is written as. */
  function Yield(e: Expr): seq<Token> {
    match e
    case Paren(inner) => [OPEN] + Yield(inner) + [CLOSE]
    case LogicalAnd(l, r) => Yield(l) + [AND] + Yield(r)
    case LogicalOr(l, r) => Yield(l) + [OR] + Yield(r)
    case With(k) => [WITH, OPEN, FIELD(k), CLOSE]
    case Without(k) => [WITHOUT, OPEN, FIELD(k), CLOSE]
    case Eq(k, v) => [FIELD(k), EQ, STRING(v)]
    case NEq(k, v) => [FIELD(k), NEQ, STRING(v)]
    case EqNum(k, n) => [FIELD(k), EQ, NUMBER(n)]
    case NEqNum(k, n) => [FIELD(k), NEQ, NUMBER(n)]
    case LessThan(k, n) => [FIELD(k), LT, NUMBER(n)]
    case GreaterThan(k, n) => [FIELD(k), GT, NUMBER(n)]
    case LessOrEqualThan(k, n) => [FIELD(k), LE, NUMBER(n)]
    case GreaterOrEqualThan(k, n) => [FIELD(k), GE, NUMBER(n)]
    case Reg(k, v) => [FIELD(k), REG, STRING(v)]
    case NReg(k, v) => [FIELD(k), NREG, STRING(v)]
  }

  /** A comparison, a presence test or a parenthesised expression. */
  predicate Atom(e: Expr)
    decreases e, 0
  {
    match e
    case Paren(inner) => Layered(inner)
    case LogicalAnd(_, _) => false
    case LogicalOr(_, _) => false
    case _ => true
  }

  /** Atoms joined by OR, grouped to the left. */
  predicate OrChain(e: Expr)
    decreases e, 1
  {
    if e.LogicalOr? then OrChain(e.left) && Atom(e.right) else Atom(e)
  }

  /** OR chains joined by AND, grouped to the left: the one tree among all of equal yield that a parse returns. */
  predicate Layered(e: Expr)
    decreases e, 2
  {
    if e.LogicalAnd? then Layered(e.left) && OrChain(e.right) else OrChain(e)
  }
}
