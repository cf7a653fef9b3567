/** The allow-list translator from Python's generic syntax tree to `ExprNode`
    (`ast_to_exprnode`), its entry point `parse_expr`, and `default_trees`. */
module Translator {
  import opened Wrappers
  import opened PyAst
  import opened ExprTree

  /** One constructor per `raise` of the translator and its entry point. */
  datatype ParseError =
    | DisallowedOperator          // a binary operator outside `ALLOWED_OPS`
    | DisallowedUnaryOp           // a unary operator other than negation
    | NonNumericConstant          // a constant that is not an int or a float
    | DisallowedName              // a name other than `X` and `Y`
    | UnsupportedNode(className: string)
    | EmptyExpression             // `parse_expr` on the empty text

  /** `ALLOWED_OPS`: the binary operator classes accepted, and their tags. */
  const AllowedOps: map<BinOpKind, string> :=
    map[Add := "+", Sub := "-", Mult := "*", Div := "/", Pow := "**"]

  /** The only names a tree may refer to. */
  const AllowedNames: set<string> := {"X", "Y"}

  /** The ast.parse call: the body of the expression parsed from a text. */
  type Parser = string -> Node

  /** `ast_to_exprnode`. A binary operator is checked before either operand
      is translated, and the left operand is translated before the right. */
  function AstToExprNode(a: Node): (r: Result<ExprNode, ParseError>)
    ensures r.Ok? ==> WellFormed(r.value)
    ensures r.Ok? ==> VarNames(r.value) <= {Some("X"), Some("Y")}
  {
    match a
    case BinOp(k, l, rt) =>
      if k !in AllowedOps then Err(DisallowedOperator)
      else
        var left :- AstToExprNode(l);
        var right :- AstToExprNode(rt);
        Ok(ExprNode(AllowedOps[k], Some(left), Some(right), None, None))
    case UnaryOp(k, e) =>
      if k == USub then
        var operand :- AstToExprNode(e);
        Ok(ExprNode("neg", None, Some(operand), None, None))
      else Err(DisallowedUnaryOp)
    case Constant(lit) =>
      if IsIntOrFloat(lit) then Ok(ExprNode("const", None, None, Some(NumericValue(lit)), None))
      else Err(NonNumericConstant)
    case Name(id) =>
      if id in AllowedNames then Ok(ExprNode("var", None, None, None, Some(id)))
      else Err(DisallowedName)
    case Expr(e) =>
      AstToExprNode(e)
    case Other(c) =>
      Err(UnsupportedNode(c))
  }

  /** `parse_expr`: the empty text is refused before the parser is called;
      any other text is parsed and its body translated. */
  function ParseExpr(text: string, parser: Parser): (r: Result<ExprNode, ParseError>)
    ensures text == [] ==> r == Err(EmptyExpression)
    ensures text != [] ==> r == AstToExprNode(parser(text))
    ensures r.Ok? ==> WellFormed(r.value) && VarNames(r.value) <= {Some("X"), Some("Y")}
  {
    if text == [] then Err(EmptyExpression)
    else AstToExprNode(parser(text))
  }

  /** `default_trees`: the trees of the two default expressions. */
  function DefaultTrees(parser: Parser): (r: Result<(ExprNode, ExprNode), ParseError>)
    ensures r.Ok? <==> AstToExprNode(parser("X**2")).Ok? && AstToExprNode(parser("2*Y")).Ok?
    ensures r.Ok? ==> Ok(r.value.0) == ParseExpr("X**2", parser) && Ok(r.value.1) == ParseExpr("2*Y", parser)
  {
    var tree1 :- ParseExpr("X**2", parser);
    var tree2 :- ParseExpr("2*Y", parser);
    Ok((tree1, tree2))
  }

  // ----- The allow-list as a property of single nodes -----

  /** The error a node raises by itself, before any of its children is
      looked at, or `None` when the node is on the allow-list. */
  function LocalError(a: Node): Option<ParseError> {
    match a
    case BinOp(k, _, _) => if k in AllowedOps then None else Some(DisallowedOperator)
    case UnaryOp(k, _) => if k == USub then None else Some(DisallowedUnaryOp)
    case Constant(lit) => if IsIntOrFloat(lit) then None else Some(NonNumericConstant)
    case Name(id) => if id in AllowedNames then None else Some(DisallowedName)
    case Expr(_) => None
    case Other(c) => Some(UnsupportedNode(c))
  }

  /** The nodes of a generic tree, parents before children, left before right. */
  function Preorder(a: Node): (s: seq<Node>)
    ensures |s| > 0 && s[0] == a
  {
    match a
    case BinOp(_, l, r) => [a] + Preorder(l) + Preorder(r)
    case UnaryOp(_, e) => [a] + Preorder(e)
    case Expr(e) => [a] + Preorder(e)
    case _ => [a]
  }

  /** The local error of the first offending node of a list. */
  function FirstError(nodes: seq<Node>): (e: Option<ParseError>)
    ensures e.None? <==> forall i :: 0 <= i < |nodes| ==> LocalError(nodes[i]).None?
  {
    if nodes == [] then None
    else if LocalError(nodes[0]).Some? then LocalError(nodes[0])
    else FirstError(nodes[1..])
  }

  /** A tree every node of which is on the allow-list. */
  predicate Admissible(a: Node) {
    forall i :: 0 <= i < |Preorder(a)| ==> LocalError(Preorder(a)[i]).None?
  }

  lemma {:induction false} FirstErrorAppend(xs: seq<Node>, ys: seq<Node>)
    ensures FirstError(xs + ys) == if FirstError(xs).Some? then FirstError(xs) else FirstError(ys)
    decreases |xs|
  {
    if xs == [] {
      assert xs + ys == ys;
    } else {
      assert (xs + ys)[0] == xs[0];
      assert (xs + ys)[1..] == xs[1..] + ys;
      FirstErrorAppend(xs[1..], ys);
    }
  }

  /** Translation fails exactly when some node of the tree is off the
      allow-list, and then with the error of the first such node in
      pre-order: operators are checked before operands, left before right. */
  lemma {:induction false} TranslationFailsAtFirstOffence(a: Node)
    ensures AstToExprNode(a).Ok? <==> FirstError(Preorder(a)).None?
    ensures AstToExprNode(a).Err? ==> FirstError(Preorder(a)) == Some(AstToExprNode(a).error)
  {
    match a
    case BinOp(_, l, r) =>
      TranslationFailsAtFirstOffence(l);
      TranslationFailsAtFirstOffence(r);
      FirstErrorAppend(Preorder(l), Preorder(r));
      FirstErrorAppend([a], Preorder(l) + Preorder(r));
      assert [a] + Preorder(l) + Preorder(r) == [a] + (Preorder(l) + Preorder(r));
    case UnaryOp(_, e) =>
      TranslationFailsAtFirstOffence(e);
      FirstErrorAppend([a], Preorder(e));
    case Expr(e) =>
      TranslationFailsAtFirstOffence(e);
      FirstErrorAppend([a], Preorder(e));
    case _ =>
  }

  /** The translator accepts exactly the admissible trees. */
  lemma TranslationSucceedsIffAdmissible(a: Node)
    ensures AstToExprNode(a).Ok? <==> Admissible(a)
  {
    TranslationFailsAtFirstOffence(a);
  }

  // ----- The translation rule for each node kind -----

  /** A binary operator outside `ALLOWED_OPS` fails before either operand is
      translated; an allowed one yields its tag over the translated operands,
      the left operand's error taking precedence. */
  lemma BinOpRule(k: BinOpKind, l: Node, r: Node)
    ensures k !in AllowedOps ==> AstToExprNode(BinOp(k, l, r)) == Err(DisallowedOperator)
    ensures k in AllowedOps && AstToExprNode(l).Err? ==>
      AstToExprNode(BinOp(k, l, r)) == Err(AstToExprNode(l).error)
    ensures k in AllowedOps && AstToExprNode(l).Ok? && AstToExprNode(r).Err? ==>
      AstToExprNode(BinOp(k, l, r)) == Err(AstToExprNode(r).error)
    ensures AstToExprNode(BinOp(k, l, r)).Ok? <==>
      k in AllowedOps && AstToExprNode(l).Ok? && AstToExprNode(r).Ok?
    ensures AstToExprNode(BinOp(k, l, r)).Ok? ==>
      var t := AstToExprNode(BinOp(k, l, r)).value;
      t.op == AllowedOps[k] && t.left == Some(AstToExprNode(l).value)
      && t.right == Some(AstToExprNode(r).value) && t.value.None? && t.name.None?
  {
  }

  /** Only negation is accepted as a unary operator; its operand goes in `right`. */
  lemma UnaryOpRule(k: UnaryOpKind, e: Node)
    ensures k != USub ==> AstToExprNode(UnaryOp(k, e)) == Err(DisallowedUnaryOp)
    ensures AstToExprNode(UnaryOp(k, e)).Ok? <==> k == USub && AstToExprNode(e).Ok?
    ensures k == USub && AstToExprNode(e).Err? ==> AstToExprNode(UnaryOp(k, e)) == AstToExprNode(e)
    ensures AstToExprNode(UnaryOp(k, e)).Ok? ==>
      var t := AstToExprNode(UnaryOp(k, e)).value;
      t.op == "neg" && t.left.None? && t.right == Some(AstToExprNode(e).value)
  {
  }

  /** A constant is accepted exactly when it is an int or a float (a bool included). */
  lemma ConstantRule(lit: Literal)
    ensures AstToExprNode(Constant(lit)).Ok? <==> IsIntOrFloat(lit)
    ensures !IsIntOrFloat(lit) ==> AstToExprNode(Constant(lit)) == Err(NonNumericConstant)
    ensures IsIntOrFloat(lit) ==>
      var t := AstToExprNode(Constant(lit)).value;
      t.op == "const" && t.value == Some(NumericValue(lit))
  {
  }

  /** A name is accepted exactly when it is `X` or `Y`, case-sensitively. */
  lemma NameRule(id: string)
    ensures AstToExprNode(Name(id)).Ok? <==> id == "X" || id == "Y"
    ensures id != "X" && id != "Y" ==> AstToExprNode(Name(id)) == Err(DisallowedName)
    ensures AstToExprNode(Name(id)).Ok? ==>
      var t := AstToExprNode(Name(id)).value;
      t.op == "var" && t.name == Some(id)
  {
  }

  /** The `Expr` wrapper is transparent; any other node kind fails naming its class. */
  lemma WrapperAndOtherRule(e: Node, c: string)
    ensures AstToExprNode(Expr(e)) == AstToExprNode(e)
    ensures AstToExprNode(Other(c)) == Err(UnsupportedNode(c))
  {
  }

  /** The empty text is refused whatever the parser would have produced. */
  lemma EmptyTextNeverParsed(p1: Parser, p2: Parser)
    ensures ParseExpr("", p1) == ParseExpr("", p2) == Err(EmptyExpression)
  {
  }

  // ----- Safety of every translated tree -----

  /** The tags of `ALLOWED_OPS` are exactly the binary tags `eval` handles. */
  lemma AllowedOpsValues()
    ensures AllowedOps.Values == BinaryTags
  {
    assert AllowedOps[Add] == "+" && AllowedOps[Sub] == "-" && AllowedOps[Mult] == "*";
    assert AllowedOps[Div] == "/" && AllowedOps[Pow] == "**";
  }

  /** A translated tree carries only the tags of `ALLOWED_OPS`, `neg`,
      `const` and `var`, and refers to no variable but `X` and `Y`; evaluated
      with both bound, it can fail only in `/` or `**`. */
  lemma TranslatedTreesAreSafe(a: Node, env: Env, pow: PowFn)
    requires AstToExprNode(a).Ok?
    requires "X" in env && "Y" in env
    ensures Tags(AstToExprNode(a).value) <= AllowedOps.Values + {"neg", "const", "var"}
    ensures VarNames(AstToExprNode(a).value) <= {Some("X"), Some("Y")}
    ensures var v := Eval(AstToExprNode(a).value, env, pow);
      (v.Ok? ==> v.value.Num?) && (v.Err? ==> v.error == ZeroDivision || v.error == PowUndefined)
  {
    var t := AstToExprNode(a).value;
    WellFormedTagsKnown(t);
    AllowedOpsValues();
    WellFormedEvalFailsOnlyInArithmetic(t, env, pow);
  }
}
