/** From parsed expression to predicate (toTree of lexer.go, apply of eval.go, the leaves of filters.go). */
module DslEval {
  import opened Common
  import opened DslGrammar
  import opened DslAutomaton
  import opened DslCompleteness
  import DslParser

  /** Conversions, variable injection (None when a filter value has no variable) and regular expressions. */
  datatype FilterLib = FilterLib(
    toInt: Value -> Option<int>,
    toText: Value -> string,
    inject: (GenericMap, string) -> Option<string>,
    compile: string -> Option<string -> bool>)

  function TextOf(lib: FilterLib, v: Value): string {
    if v.Str? then v.s else lib.toText(v)
  }

  // ----- leaf predicates

  predicate Equal(lib: FilterLib, key: string, value: string, flow: GenericMap) {
    key in flow &&
    match lib.inject(flow, value)
    case Some(injected) => TextOf(lib, flow[key]) == injected
    case None => flow[key] == Str(value)
  }

  /** A numeric test fails on a missing or non-integer field, whichever way it compares. */
  predicate IntTest(lib: FilterLib, key: string, test: int -> bool, flow: GenericMap) {
    key in flow && lib.toInt(flow[key]).Some? && test(lib.toInt(flow[key]).value)
  }

  predicate RegexTest(lib: FilterLib, key: string, r: string -> bool, flow: GenericMap) {
    key in flow && r(TextOf(lib, flow[key]))
  }

  // ----- trees

  datatype Tree = Leaf(pred: GenericMap -> bool) | Node(logicalOp: string, children: seq<Tree>)

  function ToTree(lib: FilterLib, e: Expr): Option<Tree> {
    match e
    case Paren(inner) => ToTree(lib, inner)
    case LogicalAnd(l, r) => Join("and", ToTree(lib, l), ToTree(lib, r))
    case LogicalOr(l, r) => Join("or", ToTree(lib, l), ToTree(lib, r))
    case With(k) => Some(Leaf(flow => k in flow))
    case Without(k) => Some(Leaf(flow => k !in flow))
    case Eq(k, v) => Some(Leaf(flow => Equal(lib, k, v, flow)))
    case NEq(k, v) => Some(Leaf(flow => !Equal(lib, k, v, flow)))
    case EqNum(k, n) => Some(Leaf(flow => IntTest(lib, k, i => i == n, flow)))
    case NEqNum(k, n) => Some(Leaf(flow => IntTest(lib, k, i => i != n, flow)))
    case LessThan(k, n) => Some(Leaf(flow => IntTest(lib, k, i => i < n, flow)))
    case GreaterThan(k, n) => Some(Leaf(flow => IntTest(lib, k, i => i > n, flow)))
    case LessOrEqualThan(k, n) => Some(Leaf(flow => IntTest(lib, k, i => i <= n, flow)))
    case GreaterOrEqualThan(k, n) => Some(Leaf(flow => IntTest(lib, k, i => i >= n, flow)))
    case Reg(k, v) =>
      (match lib.compile(v)
       case None => None
       case Some(r) => Some(Leaf(flow => RegexTest(lib, k, r, flow))))
    case NReg(k, v) =>
      (match lib.compile(v)
       case None => None
       case Some(r) => Some(Leaf(flow => !RegexTest(lib, k, r, flow))))
  }

  function Join(op: string, l: Option<Tree>, r: Option<Tree>): Option<Tree> {
    if l.Some? && r.Some? then Some(Node(op, [l.value, r.value])) else None
  }

  /** apply: every operator but "and" is read as "or". */
  predicate Apply(t: Tree, flow: GenericMap)
    decreases t, if t.Node? then |t.children| + 1 else 0
  {
    match t
    case Leaf(pred) => pred(flow)
    case Node(op, children) => if op == "and" then ApplyAll(t, 0, flow) else ApplyAny(t, 0, flow)
  }

  /** The loops over children, from the i-th on, with their early returns. */
  predicate ApplyAll(t: Tree, i: nat, flow: GenericMap)
    requires t.Node? && i <= |t.children|
    decreases t, |t.children| - i
  {
    if i == |t.children| then true
    else if !Apply(t.children[i], flow) then false
    else ApplyAll(t, i + 1, flow)
  }

  predicate ApplyAny(t: Tree, i: nat, flow: GenericMap)
    requires t.Node? && i <= |t.children|
    decreases t, |t.children| - i
  {
    if i == |t.children| then false
    else if Apply(t.children[i], flow) then true
    else ApplyAny(t, i + 1, flow)
  }

  // ----- meaning

  /** The text of a value: a string itself, anything else as it is converted. */
  predicate IsText(lib: FilterLib, value: Value, text: string) {
    value == Str(text) || (!value.Str? && lib.toText(value) == text)
  }

  /** key = "v": the field is exactly the text v, or its text is the one injected for the variable in v. */
  predicate MeansEqual(lib: FilterLib, k: string, v: string, flow: GenericMap) {
    && k in flow
    && (lib.inject(flow, v) == None ==> flow[k] == Str(v))
    && (lib.inject(flow, v).Some? ==> IsText(lib, flow[k], lib.inject(flow, v).value))
  }

  /** key =~ "v": the field has a text that the regular expression accepts. */
  ghost predicate MeansMatch(lib: FilterLib, k: string, v: string, flow: GenericMap) {
    k in flow && exists text :: IsText(lib, flow[k], text) && Accepts(lib, v, text)
  }

  predicate Accepts(lib: FilterLib, v: string, text: string) {
    match lib.compile(v)
    case None => false
    case Some(accepts) => accepts(text)
  }

  /** The boolean reading of an expression. */
  ghost predicate Meaning(lib: FilterLib, e: Expr, flow: GenericMap) {
    match e
    case Paren(inner) => Meaning(lib, inner, flow)
    case LogicalAnd(l, r) => Meaning(lib, l, flow) && Meaning(lib, r, flow)
    case LogicalOr(l, r) => Meaning(lib, l, flow) || Meaning(lib, r, flow)
    case With(k) => k in flow
    case Without(k) => k !in flow
    case Eq(k, v) => MeansEqual(lib, k, v, flow)
    case NEq(k, v) => !MeansEqual(lib, k, v, flow)
    case EqNum(k, n) => Number(lib, k, flow) == Some(n)
    case NEqNum(k, n) => Number(lib, k, flow).Some? && Number(lib, k, flow) != Some(n)
    case LessThan(k, n) => Number(lib, k, flow).Some? && Number(lib, k, flow).value < n
    case GreaterThan(k, n) => Number(lib, k, flow).Some? && Number(lib, k, flow).value > n
    case LessOrEqualThan(k, n) => Number(lib, k, flow).Some? && Number(lib, k, flow).value <= n
    case GreaterOrEqualThan(k, n) => Number(lib, k, flow).Some? && Number(lib, k, flow).value >= n
    case Reg(k, v) => MeansMatch(lib, k, v, flow)
    case NReg(k, v) => !MeansMatch(lib, k, v, flow)
  }

  function Number(lib: FilterLib, k: string, flow: GenericMap): Option<int> {
    if k in flow then lib.toInt(flow[k]) else None
  }

  predicate Compiles(lib: FilterLib, e: Expr) {
    match e
    case Paren(inner) => Compiles(lib, inner)
    case LogicalAnd(l, r) => Compiles(lib, l) && Compiles(lib, r)
    case LogicalOr(l, r) => Compiles(lib, l) && Compiles(lib, r)
    case Reg(_, v) => lib.compile(v).Some?
    case NReg(_, v) => lib.compile(v).Some?
    case _ => true
  }

  lemma ApplyJoin(op: string, l: Tree, r: Tree, flow: GenericMap)
    ensures Apply(Node(op, [l, r]), flow) ==
      if op == "and" then Apply(l, flow) && Apply(r, flow) else Apply(l, flow) || Apply(r, flow)
  {
    var t := Node(op, [l, r]);
    assert t.children[0] == l && t.children[1] == r;
    assert ApplyAll(t, 2, flow) && !ApplyAny(t, 2, flow);
    assert ApplyAll(t, 1, flow) == Apply(r, flow) && ApplyAny(t, 1, flow) == Apply(r, flow);
  }

  /** A tree is built exactly when all regular expressions compile, and applying it is the boolean meaning. */
  lemma {:induction false} TreeMeaning(lib: FilterLib, e: Expr, flow: GenericMap)
    ensures ToTree(lib, e).Some? <==> Compiles(lib, e)
    ensures ToTree(lib, e).Some? ==> Apply(ToTree(lib, e).value, flow) == Meaning(lib, e, flow)
  {
    match e
    case Paren(inner) =>
      TreeMeaning(lib, inner, flow);
    case LogicalAnd(l, r) =>
      TreeMeaning(lib, l, flow);
      TreeMeaning(lib, r, flow);
      if Compiles(lib, e) {
        ApplyJoin("and", ToTree(lib, l).value, ToTree(lib, r).value, flow);
      }
    case LogicalOr(l, r) =>
      TreeMeaning(lib, l, flow);
      TreeMeaning(lib, r, flow);
      if Compiles(lib, e) {
        ApplyJoin("or", ToTree(lib, l).value, ToTree(lib, r).value, flow);
      }
    case Reg(k, v) =>
      if lib.compile(v).Some? && k in flow {
        MatchMeaning(lib, k, v, flow);
      }
    case NReg(k, v) =>
      if lib.compile(v).Some? && k in flow {
        MatchMeaning(lib, k, v, flow);
      }
    case _ =>
  }

  lemma MatchMeaning(lib: FilterLib, k: string, v: string, flow: GenericMap)
    requires lib.compile(v).Some? && k in flow
    ensures RegexTest(lib, k, lib.compile(v).value, flow) <==> MeansMatch(lib, k, v, flow)
  {
    assert IsText(lib, flow[k], TextOf(lib, flow[k]));
  }

  /** Parse of lexer.go: a predicate, or an error from the syntax or from a regular expression. */
  method ParseQuery(lib: FilterLib, tokens: seq<Token>) returns (t: Option<Tree>)
    ensures t.Some? <==> exists e :: Layered(e) && Yield(e) == tokens && Compiles(lib, e)
    ensures t.Some? ==> forall e, flow :: Layered(e) && Yield(e) == tokens ==>
      Apply(t.value, flow) == Meaning(lib, e, flow)
  {
    var _, result, errors := DslParser.Parse(tokens);
    if errors > 0 {
      return None;
    }
    forall e | Layered(e) && Yield(e) == tokens ensures e == result.value {
      ParseComplete(e);
      ParseComplete(result.value);
    }
    forall flow
      ensures ToTree(lib, result.value).Some? <==> Compiles(lib, result.value)
      ensures ToTree(lib, result.value).Some? ==>
        Apply(ToTree(lib, result.value).value, flow) == Meaning(lib, result.value, flow)
    {
      TreeMeaning(lib, result.value, flow);
    }
    TreeMeaning(lib, result.value, map[]);
    t := ToTree(lib, result.value);
  }

  /** OR binds tighter than AND: without parentheses, a AND b OR c is a and (b or c), a OR b AND c is (a or b) and c. */
  lemma OrBindsTighter(a: Expr, b: Expr, c: Expr)
    requires Atom(a) && Atom(b) && Atom(c)
    ensures Parse(Yield(a) + [AND] + Yield(b) + [OR] + Yield(c)) == Accepted(LogicalAnd(a, LogicalOr(b, c)))
    ensures Parse(Yield(a) + [OR] + Yield(b) + [AND] + Yield(c)) == Accepted(LogicalAnd(LogicalOr(a, b), c))
  {
    AtomIsLayered(a);
    AtomIsLayered(b);
    AtomIsLayered(c);
    ParseComplete(LogicalAnd(a, LogicalOr(b, c)));
    ParseComplete(LogicalAnd(LogicalOr(a, b), c));
    Regroup(Yield(a), [AND], Yield(b), [OR], Yield(c));
  }

  lemma Regroup(a: seq<Token>, x: seq<Token>, b: seq<Token>, y: seq<Token>, c: seq<Token>)
    ensures a + x + (b + y + c) == a + x + b + y + c
  {
  }

  lemma AtomIsLayered(e: Expr)
    requires Atom(e)
    ensures OrChain(e) && Layered(e)
  {
    assert !e.LogicalOr? && !e.LogicalAnd?;
  }
}
