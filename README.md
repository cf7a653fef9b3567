# Safe arithmetic-expression interpreter (calc) in Dafny

This project models the core of the `calc` web calculator. The calculator reads
arithmetic expressions over two variables, `X` and `Y`, as untrusted text.
Python's `ast.parse` parses the text. `ast_to_exprnode` then translates the
generic syntax tree into an `ExprNode` tree. The translator enforces an
allow-list:

- binary `+ - * / **`;
- unary negation;
- numeric constants;
- the names `X` and `Y`.

`ExprNode.eval` evaluates the tree against an environment of variable bindings.

Files and modules:

- `wrappers.dfy` (`Wrappers`): `Option` and `Result`. These stand in for
  Python's `None` and for raised exceptions.
- `py_ast.dfy` (`PyAst`): the generic Python syntax tree the translator takes as
  input. It has `BinOp`, `UnaryOp`, `Constant`, `Name` and `Expr`. Every other
  node class becomes `Other(className)`.
- `expr_tree.dfy` (`ExprTree`): the `ExprNode` record and `Eval`.
  - The record has the `op` tag and the optional `left`, `right`, `value` and
    `name` fields.
  - The well-formedness invariant states the shape of every node the translator
    builds.
- `translator.dfy` (`Translator`):
  - `ALLOWED_OPS` (`AllowedOps`), `ast_to_exprnode` (`AstToExprNode`),
    `parse_expr` (`ParseExpr`) and `default_trees` (`DefaultTrees`);
  - the allow-list stated one node at a time (`LocalError`);
  - the proof that translation fails exactly at the first offending node in
    pre-order.
- `semantics.dfy` (`Semantics`): a reference semantics.
  - `Term` is a typed tree with the four node shapes. `Meaning` is its direct
    evaluator.
  - Proved: well-formed `ExprNode`s and `Term`s correspond one to one.
  - Proved: `Eval` agrees with `Meaning`.
  - Proved: unparsing a term and translating it gives back its node.
- `scenarios.dfy` (`Scenarios`): worked examples. They cover the default trees
  `X**2` and `2*Y`, negation, division by zero, and rejected inputs.

Numbers are Dafny `real`s. `+`, `-`, `*`, `/` and negation are exact. `/` by
zero fails with `ZeroDivision`, as Python's `ZeroDivisionError`. `**` is a
parameter `pow: (real, real) -> Option<real>`, where `None` marks the cases in
which Python raises or leaves the reals. `ast.parse` is a parameter
`parser: string -> Node` of `ParseExpr` and `DefaultTrees`.

On these edges the model keeps the source's behaviour:

- `parse_expr` refuses only the empty text (`if not text`). Whitespace-only
  text goes to the parser.
- The source evaluates `X / Y` with `Y` equal to 0 by raising
  `ZeroDivisionError` (Python float division). It does not yield infinity.
  `Scenarios.DivisionByZeroScenario` states this.
- The source has separate raise sites for a disallowed binary operator
  (line 38) and a disallowed unary operator (line 46). They are separate error
  constructors here.
- A missing variable raises a plain `KeyError`. Here it is `KeyError(name)`.

## Model

| member | source | states |
|---|---|---|
| `ExprTree.UnsupportedOnlyForUnknownTag` | calc/views.py:14-27 | On any tree, evaluation fails with `Unsupported(op)` only if `op` is a tag of the tree that `eval` does not know. |
| `ExprTree.KeyErrorOnlyForUnboundName` | calc/views.py:17-20 | On any tree, a `KeyError` names the `name` of one of the tree's `var` nodes, and that name is missing from the environment. |
| `ExprTree.Eval` | calc/views.py:14-27 | `eval` returns `None` only for a `const` node without a value. On every well-formed tree, its result is stated by `WellFormedEvalFailsOnlyInArithmetic` (it fails only in `/` or `**`) and `Semantics.EvalAgreesWithMeaning` (it equals the reference evaluation). On other shapes, `EvalBaseCases` states the `const`, `var`, `neg` and missing-child cases, and `EvalChild`, `Dispatch` and `Combine` state the rest. |
| `ExprTree.EvalChild` | calc/views.py:19-20 | An absent child yields `None`. A present child yields its own evaluation. A `None` therefore comes only from an absent child or a valueless `const` child. |
| `ExprTree.Dispatch` | calc/views.py:19-27 | The left child's error is raised first, then the right child's. When both children succeed, the result is `Combine` of the two values. A success is always a number. |
| `ExprTree.Combine` | calc/views.py:21-27 | The dispatch after both children are evaluated. A binary tag over two numbers gives `Arith`'s result or its error. A `None` operand of a binary tag, or a `None` right value of `neg`, raises the TypeError (`OperandIsNone`). `neg` negates the right value. The final `raise` fires exactly for a tag that is neither a binary operator nor `neg`. A success is always a number. |
| `ExprTree.Arith` | calc/views.py:21-25 | The five operators on numbers. The result fails exactly for `/` with a zero divisor (`ZeroDivision`) or for `**` without a real result (`PowUndefined`). Otherwise it is the sum, difference, product or quotient, or for `**` the value `pow(a, b)` returns. |
| `ExprTree.EvalBaseCases` | calc/views.py:15-26 | `const` yields its value, or `None` when it has none. `var` yields the bound number, or fails with `KeyError` when the name is absent. `neg` yields the negation of `right`'s value and propagates its errors. A binary node missing a child, whose present children evaluate, raises the TypeError of a `None` operand. |
| `ExprTree.WellFormedTagsKnown` | calc/views.py:14-27 | A well-formed tree carries only tags that `eval` handles. |
| `ExprTree.WellFormedEvalFailsOnlyInArithmetic` | calc/views.py:14-27 | A well-formed tree with every variable bound evaluates to a number. Otherwise it fails only by division by zero or an undefined power. It never reaches the "unsupported operation" raise, a missing key or a `None` operand. |
| `Translator.AstToExprNode` | calc/views.py:34-59 | Every translated tree is well formed. Each node has the shape its rule builds. Its `var` nodes name only `X` or `Y`. |
| `Translator.ParseExpr` | calc/views.py:61-66 | The empty text fails with `EmptyExpression`. Any other text yields exactly the translation of its parsed body. A success is well formed and refers only to `X` and `Y`. |
| `Translator.DefaultTrees` | calc/views.py:69-72 | Succeeds exactly when both default texts translate. The two trees are then those `parse_expr` gives for `X**2` and `2*Y`. |
| `Translator.TranslationFailsAtFirstOffence` | calc/views.py:34-59 | Translation succeeds if and only if every node of the input is on the allow-list. When it fails, the error is that of the first offending node in pre-order: an operator before its operands, the left operand before the right. |
| `Translator.TranslationSucceedsIffAdmissible` | calc/views.py:34-59 | The translator accepts exactly the admissible syntax trees, in both directions. |
| `Translator.BinOpRule` | calc/views.py:35-41 | An operator outside `ALLOWED_OPS` fails with `DisallowedOperator` whatever its operands are. Otherwise the left operand's error comes before the right's. A success carries `ALLOWED_OPS[kind]` over the translated operands in `left` and `right`. |
| `Translator.UnaryOpRule` | calc/views.py:42-46 | Only `USub` succeeds. It yields `neg` with the translated operand in `right` and `left` unset. Any other unary operator fails with `DisallowedUnaryOp`. |
| `Translator.ConstantRule` | calc/views.py:49-52 | A constant succeeds exactly when it is an int or a float (a bool included) and then carries its value. Any other constant fails with `NonNumericConstant`. |
| `Translator.NameRule` | calc/views.py:53-56 | A name succeeds exactly when it is `X` or `Y`, case-sensitively, and yields a `var` node with that name. Any other name fails with `DisallowedName`. |
| `Translator.WrapperAndOtherRule` | calc/views.py:57-59 | `Expr(e)` translates as `e`. Any other node class fails with `UnsupportedNode` carrying its class name. |
| `Translator.EmptyTextNeverParsed` | calc/views.py:63-64 | The empty text fails with `EmptyExpression` whatever the parser would return, so the parser is not consulted. |
| `Translator.TranslatedTreesAreSafe` | calc/views.py:14-59 | A translated tree's tags are among the values of `ALLOWED_OPS`, `neg`, `const` and `var`. Its variables are only `X` and `Y`. Evaluated with both bound, it fails only in `/` or `**`. |
| `Translator.AllowedOpsValues` | calc/views.py:30-32 | The tags of `ALLOWED_OPS` are exactly `+ - * / **`, the binary tags `eval` handles. |
| `PyAst.NumericLiterals` | calc/views.py:50-51 | The constants `isinstance(value, (int, float))` accepts are the ints, floats and bools. Complex, string, bytes, `None` and `Ellipsis` constants are refused. An int keeps its value, and a bool counts as the int 1 or 0. |
| `Semantics.Kind` | calc/views.py:30-32 | Each operator of the grammar comes from a key of `ALLOWED_OPS` whose value is that operator's tag. |
| `Semantics.MeaningErrors` | calc/views.py:14-27 | The reference evaluation of a term fails only with an unbound variable of the term, a division by zero or an undefined power. |
| `Semantics.Lower` | calc/views.py:34-59 | The node built for a term is well formed. |
| `Semantics.LowerVarNames` | calc/views.py:53-55 | The `var` names of the node built for a term are exactly the term's free variables. |
| `Semantics.LiftLower` | calc/views.py:6-12 | Reading back the node built for a term gives the term. |
| `Semantics.LowerLift` | calc/views.py:6-12 | Rebuilding the node from the term a well-formed node stands for gives the node. |
| `Semantics.EvalAgreesWithMeaning` | calc/views.py:14-27 | On a well-formed node, `eval` returns exactly the reference meaning of its term, errors included. |
| `Semantics.TranslateUnparse` | calc/views.py:34-59 | Every tree of the grammar over `X` and `Y` is reached: translating the unparsed term yields its node. |
| `Semantics.TranslatedTreeMeaning` | calc/views.py:14-59 | A translated tree evaluates to the reference meaning of its term. Unparsing that term and translating again gives back the same tree. |
| `Scenarios.DefaultTreesShape` | calc/views.py:69-72 | With a parser that reads `X**2` and `2*Y` as Python does, the default trees are `X ** 2` and `2 * Y`. |
| `Scenarios.DefaultTreesEvaluate` | calc/views.py:14-25 | For `X = 3` and `Y = 5`, the default trees evaluate to 9 and 10, for any `pow` that agrees with repeated multiplication on natural exponents (`ExactOnNaturalExponents`). The 9 is derived from that premise. |
| `Scenarios.NegationScenario` | calc/views.py:42-45 | `-X` with `X = 4` evaluates to -4. |
| `Scenarios.DivisionByZeroScenario` | calc/views.py:24 | `X / Y` with `Y = 0` fails with `ZeroDivision`. |
| `Scenarios.RejectionScenarios` | calc/views.py:34-59 | `X % Y`, a lower-case `x`, a string constant, `not X` and a call are each refused with their own error. |

## Left out

- The `input_view` and `result_view` request handlers (calc/views.py:74-108) are left out as request and template I/O. This includes reading the form fields, the `float(X)`/`float(Y)` conversion and substituting the default expressions.
- `ast.parse` (calc/views.py:65) is a foreign call into Python's parser. It is the `parser` parameter, which returns the parsed body. Syntax errors are not modelled: text such as `import os` fails in the parser, outside this model.
- The legacy `ast.Num` check (calc/views.py:47) is left out. It is version dependent and, on some interpreters, also admits complex literals. Here a constant is numeric when it is an int, a float or a bool, as at calc/views.py:50.
- Python floating point is not modelled. Numbers are exact reals: no rounding, no infinities or NaNs from literals such as `1e999`, no distinction between `int` and `float` results.
- `Scenarios.DefaultTreesEvaluate` holds only for a `pow` that agrees with repeated multiplication on natural exponents. That is the premise under which `3 ** 2` is 9.
- `ExprTree.Arith`: `**` is delegated to the `pow` parameter. The model does not fix its value on numbers: Dafny has no real exponentiation, and Python's result is platform floating point.
- `ExprTree.Eval`: complex numbers are not modelled. For a negative base with a fractional exponent, as in `(-8)**0.5 + 1`, Python's `**` returns a complex number and evaluation goes on. `Value` has no complex numbers, so here `pow` can only return a real or fail with `PowUndefined`.
- `ExprTree.Arith`: a zero base with a negative exponent, such as `0.0 ** -1`, raises ZeroDivisionError in Python. Here that failure is `PowUndefined`, not `ZeroDivision`.
- `ExprTree.Eval`: an `op` tag of `None` (a hand-built `ExprNode()`) is not representable, since `op` is a string here. It would fall through to the final `raise` like any unknown tag.
- `Translator.AstToExprNode` and `ExprTree.Eval` have no recursion limit. The source recurses once per nesting level (calc/views.py:19-20, 39-40, 44, 58). An expression nested about a thousand deep, such as a thousand unary minuses or a long `X+X+…` chain, raises Python's RecursionError there. The model translates and evaluates such inputs successfully. Stack depth is a property of the interpreter, not of the code.
- Exact error-message text is left out. Each raise site has its own error constructor.
- Determinism and idempotence of parsing and evaluation hold by construction: every operation is a mathematical function.
