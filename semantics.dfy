/** A reference semantics for the restricted grammar: the four node shapes
    as a typed tree, with a direct evaluator. The tag-and-optional-field
    `ExprNode` and its defensive `Eval` are proved to agree with it, and the
    translator is proved to reach every tree of the grammar. */
module Semantics {
  import opened Wrappers
  import opened PyAst
  import opened ExprTree
  import opened Translator

  datatype BinaryOp = Plus | Minus | Times | Divide | Power

  datatype Term =
    | Const(v: real)
    | Var(x: string)
    | Binary(op: BinaryOp, l: Term, r: Term)
    | Negate(e: Term)

  /** The tag an operator carries in an `ExprNode`. */
  function Symbol(op: BinaryOp): (s: string)
    ensures s in BinaryTags && OpOfSymbol(s) == op
  {
    match op
    case Plus => "+"
    case Minus => "-"
    case Times => "*"
    case Divide => "/"
    case Power => "**"
  }

  /** The Python operator class an operator comes from. */
  function Kind(op: BinaryOp): (k: BinOpKind)
    ensures k in AllowedOps && AllowedOps[k] == Symbol(op)
  {
    match op
    case Plus => Add
    case Minus => Sub
    case Times => Mult
    case Divide => Div
    case Power => Pow
  }

  function FreeVars(t: Term): set<string> {
    match t
    case Const(_) => {}
    case Var(x) => {x}
    case Binary(_, l, r) => FreeVars(l) + FreeVars(r)
    case Negate(e) => FreeVars(e)
  }

  /** Post-order evaluation of a term: operands first, left before right. */
  function Meaning(t: Term, env: Env, pow: PowFn): Result<real, EvalError> {
    match t
    case Const(v) => Ok(v)
    case Var(x) => if x in env then Ok(env[x]) else Err(KeyError(Some(x)))
    case Binary(op, l, r) =>
      var a :- Meaning(l, env, pow);
      var b :- Meaning(r, env, pow);
      Arith(Symbol(op), a, b, pow)
    case Negate(e) =>
      var a :- Meaning(e, env, pow);
      Ok(-a)
  }

  /** A term's meaning fails only for an unbound variable of the term, a
      division by zero or an undefined power. */
  lemma {:induction false} MeaningErrors(t: Term, env: Env, pow: PowFn)
    ensures var r := Meaning(t, env, pow);
      r.Err? ==>
        (r.error.KeyError? && r.error.key.Some? && r.error.key.value in FreeVars(t)
           && r.error.key.value !in env)
        || r.error == ZeroDivision || r.error == PowUndefined
  {
    match t
    case Const(_) =>
    case Var(_) =>
    case Binary(_, l, r) =>
      MeaningErrors(l, env, pow);
      MeaningErrors(r, env, pow);
    case Negate(e) =>
      MeaningErrors(e, env, pow);
  }

  /** The `ExprNode` the translator builds for a term. */
  function Lower(t: Term): (n: ExprNode)
    ensures WellFormed(n)
  {
    match t
    case Const(v) => ExprNode("const", None, None, Some(v), None)
    case Var(x) => ExprNode("var", None, None, None, Some(x))
    case Binary(op, l, r) => ExprNode(Symbol(op), Some(Lower(l)), Some(Lower(r)), None, None)
    case Negate(e) => ExprNode("neg", None, Some(Lower(e)), None, None)
  }

  /** The variables of the node built for a term are the term's free variables. */
  lemma {:induction false} LowerVarNames(t: Term)
    ensures VarNames(Lower(t)) == set x | x in FreeVars(t) :: Some(x)
  {
    match t
    case Const(_) =>
    case Var(_) =>
    case Binary(_, l, r) =>
      LowerVarNames(l);
      LowerVarNames(r);
    case Negate(e) =>
      LowerVarNames(e);
  }

  function OpOfSymbol(s: string): BinaryOp
    requires s in BinaryTags
  {
    if s == "+" then Plus
    else if s == "-" then Minus
    else if s == "*" then Times
    else if s == "/" then Divide
    else Power
  }

  /** The term a well-formed node stands for. */
  function Lift(n: ExprNode): Term
    requires WellFormed(n)
    decreases n
  {
    if n.op in BinaryTags then Binary(OpOfSymbol(n.op), Lift(n.left.value), Lift(n.right.value))
    else if n.op == "neg" then Negate(Lift(n.right.value))
    else if n.op == "const" then Const(n.value.value)
    else Var(n.name.value)
  }

  /** Terms and well-formed nodes are in one-to-one correspondence. */
  lemma {:induction false} LiftLower(t: Term)
    ensures Lift(Lower(t)) == t
  {
    match t
    case Const(_) =>
    case Var(_) =>
    case Binary(op, l, r) =>
      LiftLower(l);
      LiftLower(r);
    case Negate(e) =>
      LiftLower(e);
  }

  lemma {:induction false} LowerLift(n: ExprNode)
    requires WellFormed(n)
    ensures Lower(Lift(n)) == n
    decreases n
  {
    if n.op in BinaryTags {
      LowerLift(n.left.value);
      LowerLift(n.right.value);
    } else if n.op == "neg" {
      LowerLift(n.right.value);
    }
  }

  function ToValue(r: Result<real, EvalError>): Result<Value, EvalError> {
    match r
    case Ok(x) => Ok(Num(x))
    case Err(e) => Err(e)
  }

  /** On a well-formed node, `eval` computes exactly the reference meaning
      of the term the node stands for. */
  lemma {:induction false} EvalAgreesWithMeaning(n: ExprNode, env: Env, pow: PowFn)
    requires WellFormed(n)
    ensures Eval(n, env, pow) == ToValue(Meaning(Lift(n), env, pow))
    decreases n
  {
    TagsDistinct();
    if n.op in BinaryTags {
      EvalAgreesWithMeaning(n.left.value, env, pow);
      EvalAgreesWithMeaning(n.right.value, env, pow);
      BinaryStep(n, env, pow);
    } else if n.op == "neg" {
      EvalAgreesWithMeaning(n.right.value, env, pow);
      NegateStep(n, env, pow);
    }
  }

  lemma BinaryStep(n: ExprNode, env: Env, pow: PowFn)
    requires WellFormed(n) && n.op in BinaryTags
    requires Eval(n.left.value, env, pow) == ToValue(Meaning(Lift(n.left.value), env, pow))
    requires Eval(n.right.value, env, pow) == ToValue(Meaning(Lift(n.right.value), env, pow))
    ensures Eval(n, env, pow) == ToValue(Meaning(Lift(n), env, pow))
  {
    TagsDistinct();
    var l, r := n.left.value, n.right.value;
    assert Eval(n, env, pow) == Dispatch(n.op, Eval(l, env, pow), Eval(r, env, pow), pow);
    assert Lift(n) == Binary(OpOfSymbol(n.op), Lift(l), Lift(r));
    assert Symbol(OpOfSymbol(n.op)) == n.op;
  }

  lemma NegateStep(n: ExprNode, env: Env, pow: PowFn)
    requires WellFormed(n) && n.op == "neg"
    requires Eval(n.right.value, env, pow) == ToValue(Meaning(Lift(n.right.value), env, pow))
    ensures Eval(n, env, pow) == ToValue(Meaning(Lift(n), env, pow))
  {
    TagsDistinct();
    var e := n.right.value;
    assert Eval(n, env, pow) == Dispatch(n.op, Ok(PyNone), Eval(e, env, pow), pow);
    assert Lift(n) == Negate(Lift(e));
  }

  /** The Python syntax tree of a term, as the parser would produce it. */
  function Unparse(t: Term): Node {
    match t
    case Const(v) => Constant(FloatLit(v))
    case Var(x) => Name(x)
    case Binary(op, l, r) => BinOp(Kind(op), Unparse(l), Unparse(r))
    case Negate(e) => UnaryOp(USub, Unparse(e))
  }

  /** Every tree of the restricted grammar over `X` and `Y` is the
      translation of some Python syntax tree: translating the unparsed term
      gives back its node. */
  lemma {:induction false} TranslateUnparse(t: Term)
    requires FreeVars(t) <= AllowedNames
    ensures AstToExprNode(Unparse(t)) == Ok(Lower(t))
  {
    match t
    case Const(_) =>
    case Var(_) =>
    case Binary(op, l, r) =>
      TranslateUnparse(l);
      TranslateUnparse(r);
    case Negate(e) =>
      TranslateUnparse(e);
  }

  /** A translated syntax tree, evaluated with `X` and `Y` bound, yields the
      reference meaning of its term, and unparsing that term and translating
      again gives back the same node. */
  lemma TranslatedTreeMeaning(a: Node, env: Env, pow: PowFn)
    requires AstToExprNode(a).Ok?
    ensures var n := AstToExprNode(a).value;
      Eval(n, env, pow) == ToValue(Meaning(Lift(n), env, pow))
      && AstToExprNode(Unparse(Lift(n))) == Ok(n)
  {
    var n := AstToExprNode(a).value;
    EvalAgreesWithMeaning(n, env, pow);
    LowerLift(n);
    LiftFreeVars(n);
    TranslateUnparse(Lift(n));
  }

  /** The variables of a well-formed node are those of its term. */
  lemma LiftFreeVars(n: ExprNode)
    requires WellFormed(n)
    ensures VarNames(n) == set x | x in FreeVars(Lift(n)) :: Some(x)
    ensures VarNames(n) <= {Some("X"), Some("Y")} ==> FreeVars(Lift(n)) <= AllowedNames
  {
    LowerLift(n);
    var t := Lift(n);
    LowerVarNames(t);
    if VarNames(n) <= {Some("X"), Some("Y")} {
      forall x | x in FreeVars(t) ensures x in AllowedNames {
        assert Some(x) in VarNames(n);
      }
    }
  }
}
