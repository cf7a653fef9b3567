/** Worked examples: the syntax trees the parser produces for a few texts,
    what they translate to and what they evaluate to. */
module Scenarios {
  import opened Wrappers
  import opened PyAst
  import opened ExprTree
  import opened Translator

  const XSquared: Node := BinOp(Pow, Name("X"), Constant(IntLit(2)))
  const TwoY: Node := BinOp(Mult, Constant(IntLit(2)), Name("Y"))

  function VarNode(x: string): ExprNode { ExprNode("var", None, None, None, Some(x)) }
  function ConstNode(v: real): ExprNode { ExprNode("const", None, None, Some(v), None) }

  const XSquaredTree: ExprNode := ExprNode("**", Some(VarNode("X")), Some(ConstNode(2.0)), None, None)
  const TwoYTree: ExprNode := ExprNode("*", Some(ConstNode(2.0)), Some(VarNode("Y")), None, None)

  /** With a parser that reads the two default texts as Python does,
      `default_trees` yields the trees of `X ** 2` and `2 * Y`. */
  lemma DefaultTreesShape(parser: Parser)
    requires parser("X**2") == XSquared && parser("2*Y") == TwoY
    ensures DefaultTrees(parser) == Ok((XSquaredTree, TwoYTree))
  {
    assert AstToExprNode(Name("X")) == Ok(VarNode("X"));
    assert AstToExprNode(Name("Y")) == Ok(VarNode("Y"));
    assert AstToExprNode(Constant(IntLit(2))) == Ok(ConstNode(2.0));
    assert ParseExpr("X**2", parser) == Ok(XSquaredTree);
    assert ParseExpr("2*Y", parser) == Ok(TwoYTree);
  }

  /** The default trees evaluate to 9 and 10 when `X` is 3 and `Y` is 5,
      for any `pow` exact on natural exponents. */
  lemma DefaultTreesEvaluate(pow: PowFn)
    requires ExactOnNaturalExponents(pow)
    ensures Eval(XSquaredTree, map["X" := 3.0, "Y" := 5.0], pow) == Ok(Num(9.0))
    ensures Eval(TwoYTree, map["X" := 3.0, "Y" := 5.0], pow) == Ok(Num(10.0))
  {
    var env := map["X" := 3.0, "Y" := 5.0];
    assert PowerNat(3.0, 2) == 9.0;
    assert pow(3.0, (2 as nat) as real) == Some(PowerNat(3.0, 2));
    assert Eval(VarNode("X"), env, pow) == Ok(Num(3.0));
    assert Eval(VarNode("Y"), env, pow) == Ok(Num(5.0));
    assert Eval(ConstNode(2.0), env, pow) == Ok(Num(2.0));
    assert Eval(XSquaredTree, env, pow) == Dispatch("**", Ok(Num(3.0)), Ok(Num(2.0)), pow);
    assert Eval(TwoYTree, env, pow) == Dispatch("*", Ok(Num(2.0)), Ok(Num(5.0)), pow);
  }

  /** `-X` with `X` bound to 4 is -4. */
  lemma NegationScenario(pow: PowFn)
    ensures var t := AstToExprNode(UnaryOp(USub, Name("X")));
      t.Ok? && Eval(t.value, map["X" := 4.0, "Y" := 0.0], pow) == Ok(Num(-4.0))
  {
    var env := map["X" := 4.0, "Y" := 0.0];
    assert AstToExprNode(Name("X")) == Ok(VarNode("X"));
    assert Eval(VarNode("X"), env, pow) == Ok(Num(4.0));
  }

  /** `X / Y` with `Y` bound to 0 raises a division by zero. */
  lemma DivisionByZeroScenario(pow: PowFn)
    ensures var t := AstToExprNode(BinOp(Div, Name("X"), Name("Y")));
      t.Ok? && Eval(t.value, map["X" := 1.0, "Y" := 0.0], pow) == Err(ZeroDivision)
  {
    var env := map["X" := 1.0, "Y" := 0.0];
    assert AstToExprNode(Name("X")) == Ok(VarNode("X"));
    assert AstToExprNode(Name("Y")) == Ok(VarNode("Y"));
    assert Eval(VarNode("X"), env, pow) == Ok(Num(1.0));
    assert Eval(VarNode("Y"), env, pow) == Ok(Num(0.0));
  }

  /** `X % Y`, a lower-case `x`, a string constant, `not X` and a call are refused. */
  lemma RejectionScenarios()
    ensures AstToExprNode(BinOp(Mod, Name("X"), Name("Y"))) == Err(DisallowedOperator)
    ensures AstToExprNode(BinOp(Add, Name("x"), Name("Y"))) == Err(DisallowedName)
    ensures AstToExprNode(BinOp(Add, Constant(StrLit("1")), Name("Y"))) == Err(NonNumericConstant)
    ensures AstToExprNode(UnaryOp(Not, Name("X"))) == Err(DisallowedUnaryOp)
    ensures AstToExprNode(Other("Call")) == Err(UnsupportedNode("Call"))
  {
  }
}
