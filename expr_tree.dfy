/** The restricted expression tree (`ExprNode`) and its evaluator. */
module ExprTree {
  import opened Wrappers

  /** A node as the dataclass stores it: an `op` tag and four optional fields. */
  datatype ExprNode = ExprNode(
    op: string,
    left: Option<ExprNode>,
    right: Option<ExprNode>,
    value: Option<real>,
    name: Option<string>)

  /** A Python value the evaluator can return: a number, or `None` (what a
      `const` node without a value yields). */
  datatype Value = PyNone | Num(x: real)

  /** The variable bindings handed to `eval`. */
  type Env = map<string, real>

  /** Python's `**` on two numbers: `None` where Python raises or leaves the
      reals (a zero base with a negative exponent, a negative base with a
      fractional exponent). */
  type PowFn = (real, real) -> Option<real>

  datatype EvalError =
    | KeyError(key: Option<string>)   // `env[self.name]` with no binding
    | OperandIsNone(op: string)       // a TypeError: an arithmetic operand is `None`
    | ZeroDivision                    // `l / r` with `r == 0`
    | PowUndefined                    // `l ** r` with no real result
    | Unsupported(op: string)         // the final `raise` for an unknown tag

  /** The values of the `ALLOWED_OPS` table. */
  const BinaryTags: set<string> := {"+", "-", "*", "/", "**"}

  /** Every tag `eval` gives a meaning to. */
  const KnownTags: set<string> := BinaryTags + {"neg", "const", "var"}

  /** The tags `eval` dispatches on are pairwise distinct. */
  lemma TagsDistinct()
    ensures "const" !in BinaryTags && "var" !in BinaryTags && "neg" !in BinaryTags
    ensures "const" != "var" && "const" != "neg" && "var" != "neg"
  {
  }

  /** Every `op` tag occurring in the tree. */
  function Tags(n: ExprNode): set<string>
    decreases n
  {
    {n.op}
    + (if n.left.Some? then Tags(n.left.value) else {})
    + (if n.right.Some? then Tags(n.right.value) else {})
  }

  /** The `name` fields of the `var` nodes of the tree. */
  function VarNames(n: ExprNode): set<Option<string>>
    decreases n
  {
    (if n.op == "var" then {n.name} else {})
    + (if n.left.Some? then VarNames(n.left.value) else {})
    + (if n.right.Some? then VarNames(n.right.value) else {})
  }

  /** The shape of every node the translator builds: a binary operator with
      both children, `neg` with only `right`, `const` with a value, `var`
      with a name, and every other field left unset. */
  predicate WellFormed(n: ExprNode)
    decreases n
  {
    if n.op in BinaryTags then
      n.left.Some? && n.right.Some? && n.value.None? && n.name.None?
      && WellFormed(n.left.value) && WellFormed(n.right.value)
    else if n.op == "neg" then
      n.left.None? && n.right.Some? && n.value.None? && n.name.None?
      && WellFormed(n.right.value)
    else if n.op == "const" then
      n.left.None? && n.right.None? && n.value.Some? && n.name.None?
    else
      n.op == "var" && n.left.None? && n.right.None? && n.value.None? && n.name.Some?
  }

  /** A well-formed tree only carries tags `eval` knows. */
  lemma {:induction false} WellFormedTagsKnown(n: ExprNode)
    requires WellFormed(n)
    ensures Tags(n) <= KnownTags
    decreases n
  {
    if n.left.Some? {
      WellFormedTagsKnown(n.left.value);
    }
    if n.right.Some? {
      WellFormedTagsKnown(n.right.value);
    }
  }

  /** `a` raised to a natural power by repeated multiplication. */
  function PowerNat(a: real, k: nat): real {
    if k == 0 then 1.0 else a * PowerNat(a, k - 1)
  }

  /** A `pow` that agrees with repeated multiplication on every natural
      exponent, as Python's `**` does on the reals. */
  ghost predicate ExactOnNaturalExponents(pow: PowFn) {
    forall a: real, k: nat :: pow(a, k as real) == Some(PowerNat(a, k))
  }

  /** One of the five allowed binary operators applied to two numbers. */
  function Arith(op: string, a: real, b: real, pow: PowFn): (r: Result<real, EvalError>)
    requires op in BinaryTags
    ensures r.Err? <==> (op == "/" && b == 0.0) || (op == "**" && pow(a, b).None?)
    ensures r.Err? ==> r.error == (if op == "/" then ZeroDivision else PowUndefined)
    ensures op == "+" ==> r == Ok(a + b)
    ensures op == "-" ==> r == Ok(a - b)
    ensures op == "*" ==> r == Ok(a * b)
    ensures op == "/" && b != 0.0 ==> r == Ok(a / b)
    ensures op == "**" && pow(a, b).Some? ==> r == Ok(pow(a, b).value)
  {
    if op == "+" then Ok(a + b)
    else if op == "-" then Ok(a - b)
    else if op == "*" then Ok(a * b)
    else if op == "/" then (if b == 0.0 then Err(ZeroDivision) else Ok(a / b))
    else match pow(a, b)
      case Some(p) => Ok(p)
      case None => Err(PowUndefined)
  }

  /** The dispatch on `op` after both children have been evaluated. */
  function Combine(op: string, l: Value, r: Value, pow: PowFn): (res: Result<Value, EvalError>)
    ensures res.Ok? ==> res.value.Num?
    ensures op in BinaryTags && l.Num? && r.Num? ==>
      res == match Arith(op, l.x, r.x, pow)
             case Ok(v) => Ok(Num(v))
             case Err(e) => Err(e)
    ensures op in BinaryTags && (l.PyNone? || r.PyNone?) ==> res == Err(OperandIsNone(op))
    ensures op == "neg" && r.Num? ==> res == Ok(Num(-r.x))
    ensures op == "neg" && r.PyNone? ==> res == Err(OperandIsNone(op))
    ensures res.Err? && res.error.Unsupported? <==> op !in BinaryTags && op != "neg"
    ensures op !in BinaryTags && op != "neg" ==> res == Err(Unsupported(op))
  {
    if op in BinaryTags then
      if l.PyNone? || r.PyNone? then Err(OperandIsNone(op))
      else
        var v :- Arith(op, l.x, r.x, pow);
        Ok(Num(v))
    else if op == "neg" then
      if r.PyNone? then Err(OperandIsNone(op)) else Ok(Num(-r.x))
    else
      Err(Unsupported(op))
  }

  /** `ExprNode.eval`: `const` and `var` first; otherwise evaluate `left`
      then `right` and dispatch on `op`. */
  function Eval(n: ExprNode, env: Env, pow: PowFn): (r: Result<Value, EvalError>)
    ensures r.Ok? && r.value.PyNone? ==> n.op == "const" && n.value.None?
    decreases n
  {
    if n.op == "const" then
      Ok(if n.value.Some? then Num(n.value.value) else PyNone)
    else if n.op == "var" then
      if n.name.Some? && n.name.value in env then Ok(Num(env[n.name.value]))
      else Err(KeyError(n.name))
    else
      Dispatch(n.op, EvalChild(n.left, env, pow), EvalChild(n.right, env, pow), pow)
  }

  /** `self.left.eval(env) if self.left else None`, and likewise for `right`. */
  function EvalChild(c: Option<ExprNode>, env: Env, pow: PowFn): (r: Result<Value, EvalError>)
    ensures c.None? ==> r == Ok(PyNone)
    ensures c.Some? ==> r == Eval(c.value, env, pow)
    ensures r.Ok? && r.value.PyNone? ==> c.None? || (c.value.op == "const" && c.value.value.None?)
    decreases c
  {
    if c.Some? then Eval(c.value, env, pow) else Ok(PyNone)
  }

  /** The left child's error, else the right child's, else the operator
      applied to both values. */
  function Dispatch(op: string, l: Result<Value, EvalError>, r: Result<Value, EvalError>, pow: PowFn)
    : (res: Result<Value, EvalError>)
    ensures l.Err? ==> res == Err(l.error)
    ensures l.Ok? && r.Err? ==> res == Err(r.error)
    ensures l.Ok? && r.Ok? ==> res == Combine(op, l.value, r.value, pow)
    ensures res.Ok? ==> l.Ok? && r.Ok? && res.value.Num?
  {
    if l.Err? then Err(l.error)
    else if r.Err? then Err(r.error)
    else Combine(op, l.value, r.value, pow)
  }

  /** On any tree, well formed or not, the final `raise` is reached only for
      a tag of the tree that `eval` does not know. */
  lemma {:induction false} UnsupportedOnlyForUnknownTag(n: ExprNode, env: Env, pow: PowFn)
    ensures Eval(n, env, pow).Err? && Eval(n, env, pow).error.Unsupported? ==>
      Eval(n, env, pow).error.op in Tags(n) - KnownTags
    decreases n
  {
    if n.op != "const" && n.op != "var" {
      if n.left.Some? {
        UnsupportedOnlyForUnknownTag(n.left.value, env, pow);
      }
      if n.right.Some? {
        UnsupportedOnlyForUnknownTag(n.right.value, env, pow);
      }
    }
  }

  /** On any tree, a `KeyError` names the `name` of one of its `var` nodes,
      and that name is unbound. */
  lemma {:induction false} KeyErrorOnlyForUnboundName(n: ExprNode, env: Env, pow: PowFn)
    ensures Eval(n, env, pow).Err? && Eval(n, env, pow).error.KeyError? ==>
      var k := Eval(n, env, pow).error.key;
      k in VarNames(n) && (k.Some? ==> k.value !in env)
    decreases n
  {
    if n.op != "const" && n.op != "var" {
      assert Eval(n, env, pow) == Dispatch(n.op, EvalChild(n.left, env, pow), EvalChild(n.right, env, pow), pow);
      if n.left.Some? {
        KeyErrorOnlyForUnboundName(n.left.value, env, pow);
      }
      if n.right.Some? {
        KeyErrorOnlyForUnboundName(n.right.value, env, pow);
      }
    }
  }

  /** The evaluator's base cases and negation; a binary node missing a child
      whose sibling evaluates raises the TypeError of a `None` operand. */
  lemma EvalBaseCases(n: ExprNode, env: Env, pow: PowFn)
    ensures n.op == "const" && n.value.Some? ==> Eval(n, env, pow) == Ok(Num(n.value.value))
    ensures n.op == "const" && n.value.None? ==> Eval(n, env, pow) == Ok(PyNone)
    ensures n.op == "var" && n.name.Some? && n.name.value in env ==>
      Eval(n, env, pow) == Ok(Num(env[n.name.value]))
    ensures n.op == "var" && (n.name.None? || n.name.value !in env) ==>
      Eval(n, env, pow) == Err(KeyError(n.name))
    ensures n.op == "neg" && n.left.None? && n.right.Some? ==>
      Eval(n, env, pow) ==
        match Eval(n.right.value, env, pow)
        case Ok(v) => if v.Num? then Ok(Num(-v.x)) else Err(OperandIsNone("neg"))
        case Err(e) => Err(e)
    ensures (n.op in BinaryTags && (n.left.None? || n.right.None?)
             && EvalChild(n.left, env, pow).Ok? && EvalChild(n.right, env, pow).Ok?) ==>
      Eval(n, env, pow) == Err(OperandIsNone(n.op))
  {
    TagsDistinct();
  }

  /** On a well-formed tree whose variables are all bound, `eval` never
      reaches the final `raise`, never looks up a missing name, never meets a
      `None` operand, and yields a number whenever it succeeds. */
  lemma {:induction false} WellFormedEvalFailsOnlyInArithmetic(n: ExprNode, env: Env, pow: PowFn)
    requires WellFormed(n)
    requires forall k :: k in VarNames(n) ==> k.Some? && k.value in env
    ensures Eval(n, env, pow).Ok? ==> Eval(n, env, pow).value.Num?
    ensures Eval(n, env, pow).Err? ==> Eval(n, env, pow).error in {ZeroDivision, PowUndefined}
    decreases n
  {
    TagsDistinct();
    if n.op in BinaryTags || n.op == "neg" {
      if n.left.Some? {
        WellFormedEvalFailsOnlyInArithmetic(n.left.value, env, pow);
      }
      WellFormedEvalFailsOnlyInArithmetic(n.right.value, env, pow);
    }
  }
}
