/** The part of Python's generic expression syntax tree (the output of
    `ast.parse`) that the translator inspects. */
module PyAst {

  /** The operator classes of `ast.BinOp` nodes. */
  datatype BinOpKind =
    | Add | Sub | Mult | Div | Pow
    | Mod | FloorDiv | MatMult | LShift | RShift | BitOr | BitXor | BitAnd

  /** The operator classes of `ast.UnaryOp` nodes. */
  datatype UnaryOpKind = USub | UAdd | Not | Invert

  /** The Python value held by an `ast.Constant` node. */
  datatype Literal =
    | IntLit(i: int)
    | FloatLit(f: real)
    | BoolLit(b: bool)
    | ComplexLit(re: real, im: real)
    | StrLit(s: string)
    | BytesLit(bytes: seq<int>)
    | NoneLit
    | EllipsisLit

  /** A node of the generic tree. Node classes the translator has no rule
      for are collapsed into `Other`, which keeps only the class name. */
  datatype Node =
    | BinOp(op: BinOpKind, left: Node, right: Node)
    | UnaryOp(unaryOp: UnaryOpKind, operand: Node)
    | Constant(lit: Literal)
    | Name(id: string)
    | Expr(value: Node)
    | Other(className: string)

  /** `isinstance(value, (int, float))`; `bool` is a subclass of `int`, so a
      boolean literal passes. */
  predicate IsIntOrFloat(lit: Literal) {
    lit.IntLit? || lit.FloatLit? || lit.BoolLit?
  }

  /** The number a numeric literal stands for (`True` is 1, `False` is 0). */
  function NumericValue(lit: Literal): real
    requires IsIntOrFloat(lit)
  {
    match lit
    case IntLit(i) => i as real
    case FloatLit(f) => f
    case BoolLit(b) => if b then 1.0 else 0.0
  }

  /** The literals `isinstance(value, (int, float))` accepts are the ints,
      the floats and the bools; a bool counts as the int 1 or 0. */
  lemma NumericLiterals(lit: Literal)
    ensures IsIntOrFloat(lit) <==>
      !(lit.ComplexLit? || lit.StrLit? || lit.BytesLit? || lit.NoneLit? || lit.EllipsisLit?)
    ensures lit.IntLit? ==> NumericValue(lit) == lit.i as real
    ensures lit.BoolLit? ==> NumericValue(lit) == NumericValue(IntLit(if lit.b then 1 else 0))
  {
  }
}
