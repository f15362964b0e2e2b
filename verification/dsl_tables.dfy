/** The generated parse tables (expr.y.go), and the proof that they encode the automaton. */
module DslTables {
  import opened DslGrammar
  import opened DslAutomaton

  const YY_PRIVATE := 57344
  const YY_LAST := 39
  const YY_FLAG := -1000
  const YY_EOF_CODE := 1
  const YY_ERR_CODE := 2
  const STATES := 37

  /** yyAct. */
  function YyAct(i: int): int {
    match i
    case 0 => 6
    case 1 => 12
    case 2 => 13
    case 3 => 15
    case 4 => 14
    case 5 => 17
    case 6 => 16
    case 7 => 18
    case 8 => 19
    case 9 => 27
    case 10 => 25
    case 11 => 32
    case 12 => 3
    case 13 => 34
    case 14 => 4
    case 15 => 5
    case 16 => 11
    case 17 => 31
    case 18 => 30
    case 19 => 29
    case 20 => 7
    case 21 => 8
    case 22 => 8
    case 23 => 36
    case 24 => 28
    case 25 => 26
    case 26 => 35
    case 27 => 10
    case 28 => 2
    case 29 => 7
    case 30 => 8
    case 31 => 22
    case 32 => 9
    case 33 => 33
    case 34 => 24
    case 35 => 23
    case 36 => 20
    case 37 => 21
    case 38 => 1
    case _ => 0
  }

  /** yyPact. */
  function YyPact(i: int): int {
    match i
    case 0 => -4
    case 1 => -1000
    case 2 => 23
    case 3 => -4
    case 4 => 11
    case 5 => 0
    case 6 => -7
    case 7 => -4
    case 8 => -4
    case 9 => 14
    case 10 => 31
    case 11 => 30
    case 12 => 5
    case 13 => 4
    case 14 => -1
    case 15 => -2
    case 16 => -3
    case 17 => -9
    case 18 => 28
    case 19 => 8
    case 20 => 15
    case 21 => -1000
    case 22 => -1000
    case 23 => 9
    case 24 => 6
    case 25 => -1000
    case 26 => -1000
    case 27 => -1000
    case 28 => -1000
    case 29 => -1000
    case 30 => -1000
    case 31 => -1000
    case 32 => -1000
    case 33 => -1000
    case 34 => -1000
    case 35 => -1000
    case 36 => -1000
    case _ => 0
  }

  /** yyChk. */
  function YyChk(i: int): int {
    match i
    case 0 => -1000
    case 1 => -1
    case 2 => -2
    case 3 => 16
    case 4 => 18
    case 5 => 19
    case 6 => 4
    case 7 => 6
    case 8 => 7
    case 9 => -2
    case 10 => 16
    case 11 => 16
    case 12 => 8
    case 13 => 9
    case 14 => 11
    case 15 => 10
    case 16 => 13
    case 17 => 12
    case 18 => 14
    case 19 => 15
    case 20 => -2
    case 21 => -2
    case 22 => 17
    case 23 => 4
    case 24 => 4
    case 25 => 5
    case 26 => 20
    case 27 => 5
    case 28 => 20
    case 29 => 20
    case 30 => 20
    case 31 => 20
    case 32 => 20
    case 33 => 5
    case 34 => 5
    case 35 => 17
    case 36 => 17
    case _ => 0
  }

  /** yyDef. */
  function YyDef(i: int): int {
    match i
    case 0 => 0
    case 1 => -2
    case 2 => 1
    case 3 => 0
    case 4 => 0
    case 5 => 0
    case 6 => 0
    case 7 => 0
    case 8 => 0
    case 9 => 0
    case 10 => 0
    case 11 => 0
    case 12 => 0
    case 13 => 0
    case 14 => 0
    case 15 => 0
    case 16 => 0
    case 17 => 0
    case 18 => 0
    case 19 => 0
    case 20 => 3
    case 21 => 4
    case 22 => 2
    case 23 => 0
    case 24 => 0
    case 25 => 7
    case 26 => 9
    case 27 => 8
    case 28 => 10
    case 29 => 11
    case 30 => 12
    case 31 => 13
    case 32 => 14
    case 33 => 15
    case 34 => 16
    case 35 => 5
    case 36 => 6
    case _ => 0
  }

  /** yyR2. */
  function YyR2(i: int): int {
    match i
    case 0 => 0
    case 1 => 1
    case 2 => 3
    case 3 => 3
    case 4 => 3
    case 5 => 4
    case 6 => 4
    case 7 => 3
    case 8 => 3
    case 9 => 3
    case 10 => 3
    case 11 => 3
    case 12 => 3
    case 13 => 3
    case 14 => 3
    case 15 => 3
    case 16 => 3
    case _ => 0
  }

  /** yyR1: rule 1 makes the root, all others an expression. */
  function YyR1(rule: int): int { if rule == 0 then 0 else if rule == 1 then 1 else 2 }

  /** yyPgo. */
  function YyPgo(nonterminal: int): int { if nonterminal == 1 then 38 else if nonterminal == 2 then 28 else 0 }

  /** yyExca: the exceptions of state 1, as pairs. */
  function YyExca(i: int): int {
    match i
    case 0 => -1
    case 1 => 1
    case 2 => 1
    case 3 => -1
    case 4 => -2
    case _ => 0
  }

  /** yyTok2: the internal number of the i-th private token. */
  function YyTok2(i: int): int { i + 2 }

  /** What Lex returns for a token; 0 is the end of the input. */
  function CharOf(t: Token): int {
    match t
    case FIELD(_) => 57346
    case STRING(_) => 57347
    case AND => 57348
    case OR => 57349
    case EQ => 57350
    case NEQ => 57351
    case GT => 57352
    case LT => 57353
    case GE => 57354
    case LE => 57355
    case REG => 57356
    case NREG => 57357
    case OPEN => 57358
    case CLOSE => 57359
    case WITH => 57360
    case WITHOUT => 57361
    case NUMBER(_) => 57362
  }

  /** yylex1: from what the lexer returned to the internal numbering. */
  function TokenNumber(c: int): int {
    if c <= 0 then YY_EOF_CODE
    else if YY_PRIVATE <= c < YY_PRIVATE + 19 then YyTok2(c - YY_PRIVATE)
    else 3
  }

  /** The shift decision of the driver: the next state, or NO_STATE to take the default action. */
  function TableShift(state: int, token: int): int {
    var n := YyPact(state);
    if n <= YY_FLAG || n + token < 0 || n + token >= YY_LAST then NO_STATE
    else
      var next := YyAct(n + token);
      if YyChk(next) == token then next else NO_STATE
  }

  /** The goto decision of the driver after a reduction to a nonterminal. */
  function TableGoto(state: int, nonterminal: int): int {
    var g := YyPgo(nonterminal);
    var j := g + state + 1;
    if j >= YY_LAST || YyChk(YyAct(j)) != -nonterminal then YyAct(g) else YyAct(j)
  }

  /** The tables shift exactly where the automaton does. */
  lemma ShiftAgrees(s: int, t: Token)
    requires 0 <= s < STATES
    ensures TableShift(s, TokenNumber(CharOf(t))) == ShiftOf(s, t)
  {
    if s < 10 {
      ShiftAgreesLow(s, t);
    } else if s < 17 {
      ShiftAgreesMiddle(s, t);
    } else if s < 23 {
      ShiftAgreesUpper(s, t);
    } else {
      ShiftAgreesHigh(s, t);
    }
  }

  lemma ShiftAgreesMiddle(s: int, t: Token)
    requires 10 <= s < 17
    ensures TableShift(s, TokenNumber(CharOf(t))) == ShiftOf(s, t)
  {
  }

  lemma ShiftAgreesUpper(s: int, t: Token)
    requires 17 <= s < 23
    ensures TableShift(s, TokenNumber(CharOf(t))) == ShiftOf(s, t)
  {
  }

  lemma ShiftAgreesLow(s: int, t: Token)
    requires 0 <= s < 10
    ensures TableShift(s, TokenNumber(CharOf(t))) == ShiftOf(s, t)
  {
  }

  lemma ShiftAgreesHigh(s: int, t: Token)
    requires 23 <= s < STATES
    ensures TableShift(s, TokenNumber(CharOf(t))) == ShiftOf(s, t)
  {
  }

  /** Neither the end marker nor the error token is ever shifted: error recovery finds no state to resume in. */
  lemma NeverShifted(s: int)
    requires 0 <= s < STATES
    ensures TableShift(s, YY_EOF_CODE) == NO_STATE && TableShift(s, YY_ERR_CODE) == NO_STATE
  {
  }

  lemma GotoAgrees(s: int)
    requires s in {0, 3, 7, 8}
    ensures TableGoto(s, 2) == GotoOf(s)
    ensures TableGoto(0, 1) == 1
  {
  }

  lemma DefaultAgrees(s: int)
    requires 0 <= s < STATES
    ensures YyDef(s) == if s == 1 then -2 else RuleOf(s)
  {
  }
}
