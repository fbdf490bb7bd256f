/** The syntax trees that reach the code generator. */
module Ast {
  import opened Words

  /** Static types; a node the tracer has not visited yet is `Unknown`. */
  datatype Ty = Unknown | TInt | TFlt

  datatype BinOp = Add | Sub | Mul | Div | Eq | Ne | Lt | Le | Gt | Ge

  /** The four bytes of a single-precision number as they lie in memory. */
  datatype Float = Float(b0: byte, b1: byte, b2: byte, b3: byte)

  /** Expression nodes. `ty` is the node's `static_type` field; `Cast` nodes are
      never parsed, only inserted by type tracing. */
  datatype Expr =
    | IntLit(i: int32)
    | FltLit(f: Float)
    | Ident(name: string, ty: Ty)
    | Group(inner: Expr, ty: Ty)
    | Neg(operand: Expr, ty: Ty)
    | Binary(op: BinOp, left: Expr, right: Expr, ty: Ty)
    | Cast(operand: Expr)

  /** Statements. A scope is the linked list of its statements; a missing `else`
      scope compiles like an empty one. */
  datatype Stmt =
    | Assign(target: string, rhs: Expr)
    | Bare(expr: Expr)
    | Call(func: string, args: seq<Expr>)
    | If(cond: Expr, thn: Block, els: Block)
    | While(cond: Expr, body: Block)

  datatype Block = End | Then(head: Stmt, tail: Block)

  datatype Param = Param(name: string, ty: Ty)

  datatype FuncDecl = FuncDecl(params: seq<Param>, body: Block)

  predicate IsComparison(op: BinOp) {
    op.Eq? || op.Ne? || op.Lt? || op.Le? || op.Gt? || op.Ge?
  }

  /** As the parser builds them: no static types yet on inner nodes, no casts. */
  predicate Parsed(e: Expr) {
    match e
    case IntLit(_) => true
    case FltLit(_) => true
    case Ident(_, ty) => ty.Unknown?
    case Group(inner, ty) => ty.Unknown? && Parsed(inner)
    case Neg(operand, ty) => ty.Unknown? && Parsed(operand)
    case Binary(_, l, r, ty) => ty.Unknown? && Parsed(l) && Parsed(r)
    case Cast(_) => false
  }
}
