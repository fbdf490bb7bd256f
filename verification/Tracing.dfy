/** Static type tracing: every node gets its type and int operands of mixed
    operators get a cast. */
module Tracing {
  import opened Words
  import opened Ast
  import opened Language
  import opened Bytecode
  import opened Machine
  import opened Codegen
  import opened ExprCorrect

  function StaticType(e: Expr): Ty {
    match e
    case IntLit(_) => TInt
    case FltLit(_) => TFlt
    case Cast(_) => TFlt
    case Ident(_, ty) => ty
    case Group(_, ty) => ty
    case Neg(_, ty) => ty
    case Binary(_, _, _, ty) => ty
  }

  datatype CastRequest = CastRequest(opcode: Option<byte>, onLeft: bool, ty: Ty)

  /** Which operand to convert and to what. Only int and float can be mixed; for
      any other pair the opcode is the panic opcode. */
  function SelectCast(left: Ty, right: Ty): CastRequest {
    if (left == TInt && right == TFlt) || (left == TFlt && right == TInt)
    then CastRequest(Some(I2F_OP), left == TInt, TFlt)
    else CastRequest(None, true, Unknown)
  }

  /** `None`: an undeclared variable, the compiler stops. A node that already has
      a type is left alone. */
  function Trace(vars: seq<Var>, e: Expr): Option<Expr> {
    if StaticType(e) != Unknown then Some(e) else
      match e
      case Ident(x, _) =>
        (match Lookup(vars, x)
         case None => None
         case Some(k) => Some(Ident(x, if vars[k].ty.TFlt? then TFlt else TInt)))
      case Group(inner, _) =>
        (match Trace(vars, inner)
         case None => None
         case Some(t) => Some(Group(t, StaticType(t))))
      case Neg(operand, _) =>
        (match Trace(vars, operand)
         case None => None
         case Some(t) => Some(Neg(t, StaticType(t))))
      case Binary(op, l, r, _) =>
        (match (Trace(vars, l), Trace(vars, r))
         case (Some(tl), Some(tr)) => Some(Balance(op, tl, tr))
         case _ => None)
      case _ => Some(e)
  }

  function Balance(op: BinOp, l: Expr, r: Expr): Expr {
    if StaticType(l) == StaticType(r) then Binary(op, l, r, StaticType(r))
    else
      var cast := SelectCast(StaticType(l), StaticType(r));
      if cast.onLeft then Binary(op, Cast(l), r, cast.ty) else Binary(op, l, Cast(r), cast.ty)
  }

  /** The tree without what tracing added. */
  function Erase(e: Expr): Expr {
    match e
    case Ident(x, _) => Ident(x, Unknown)
    case Group(inner, _) => Group(Erase(inner), Unknown)
    case Neg(operand, _) => Neg(Erase(operand), Unknown)
    case Binary(op, l, r, _) => Binary(op, Erase(l), Erase(r), Unknown)
    case Cast(operand) => Erase(operand)
    case _ => e
  }

  /** Fully typed, and consistently: both operands of every operator have the
      operator's type, and only ints are cast. */
  predicate Annotated(vars: seq<Var>, e: Expr) {
    match e
    case Ident(x, ty) =>
      var k := Lookup(vars, x);
      k.Some? && ty == if vars[k.value].ty.TFlt? then TFlt else TInt
    case Group(inner, ty) => Annotated(vars, inner) && ty == StaticType(inner)
    case Neg(operand, ty) => Annotated(vars, operand) && ty == StaticType(operand)
    case Binary(_, l, r, ty) => Annotated(vars, l) && Annotated(vars, r) && ty == StaticType(l) == StaticType(r)
    case Cast(operand) => Annotated(vars, operand) && StaticType(operand) == TInt
    case _ => true
  }

  /** All names are declared. */
  predicate Declared(vars: seq<Var>, e: Expr) {
    match e
    case Ident(x, _) => Lookup(vars, x).Some?
    case Group(inner, _) => Declared(vars, inner)
    case Neg(operand, _) => Declared(vars, operand)
    case Binary(_, l, r, _) => Declared(vars, l) && Declared(vars, r)
    case Cast(operand) => Declared(vars, operand)
    case _ => true
  }

  lemma {:induction false} AnnotatedTyped(vars: seq<Var>, e: Expr)
    requires Annotated(vars, e)
    ensures StaticType(e) == TInt || StaticType(e) == TFlt
  {
    match e
    case Group(inner, _) => AnnotatedTyped(vars, inner);
    case Neg(operand, _) => AnnotatedTyped(vars, operand);
    case Binary(_, l, _, _) => AnnotatedTyped(vars, l);
    case _ =>
  }

  /** Cast insertion changes only casts. Tracing a parsed tree succeeds exactly
      when its names are declared; erasing what it inserted gives the tree back,
      both operands of every operator then have the same type, and tracing again
      changes nothing. */
  lemma {:induction false} TraceChangesOnlyCasts(vars: seq<Var>, e: Expr)
    requires Parsed(e)
    ensures Trace(vars, e).Some? <==> Declared(vars, e)
    ensures Trace(vars, e).Some? ==>
              var t := Trace(vars, e).value;
              Erase(t) == e && Annotated(vars, t) && Trace(vars, t) == Some(t)
  {
    match e
    case Group(inner, _) =>
      TraceChangesOnlyCasts(vars, inner);
      if Trace(vars, inner).Some? { AnnotatedTyped(vars, Trace(vars, inner).value); }
    case Neg(operand, _) =>
      TraceChangesOnlyCasts(vars, operand);
      if Trace(vars, operand).Some? { AnnotatedTyped(vars, Trace(vars, operand).value); }
    case Binary(op, l, r, _) =>
      TraceChangesOnlyCasts(vars, l);
      TraceChangesOnlyCasts(vars, r);
      if Trace(vars, e).Some? {
        AnnotatedTyped(vars, Trace(vars, l).value);
        AnnotatedTyped(vars, Trace(vars, r).value);
      }
    case _ =>
  }

  lemma {:induction false} AnnotatedCode(vars: seq<Var>, t: Expr)
    requires Annotated(vars, t) && ExprCode(vars, t).ECode?
    ensures ExprCode(vars, t).ty == StaticType(t)
  {
    match t
    case Group(inner, _) => AnnotatedCode(vars, inner);
    case Neg(operand, _) => AnnotatedCode(vars, operand);
    case Binary(_, l, r, _) =>
      AnnotatedCode(vars, l);
      AnnotatedCode(vars, r);
    case _ =>
  }

  /** Tracing does not change what is emitted ... */
  lemma {:induction false} TraceKeepsCode(vars: seq<Var>, e: Expr)
    requires Parsed(e) && Trace(vars, e).Some?
    ensures ExprCode(vars, Trace(vars, e).value) == ExprCode(vars, e)
    ensures ExprCode(vars, e).ECode? ==> ExprCode(vars, e).ty == StaticType(Trace(vars, e).value)
  {
    match e
    case Group(inner, _) => TraceKeepsCode(vars, inner);
    case Neg(operand, _) => TraceKeepsCode(vars, operand);
    case Binary(op, l, r, _) =>
      TraceKeepsCode(vars, l);
      TraceKeepsCode(vars, r);
      BalanceCode(vars, op, Trace(vars, l).value, Trace(vars, r).value) by {
        TraceChangesOnlyCasts(vars, l);
        TraceChangesOnlyCasts(vars, r);
      }
    case _ =>
  }

  /** Two operands and their operator. */
  function Combine(op: BinOp, l: ECode, r: ECode): ECode {
    if !l.ECode? || !r.ECode? then EPanic
    else
      var ty := Wider(l.ty, r.ty);
      match OperatorCode(op, ty)
      case None => EPanic
      case Some(b) => ECode(l.code + CastTo(ty, l.ty) + (r.code + CastTo(ty, r.ty)) + [b], ty)
  }

  lemma BinaryCode(vars: seq<Var>, op: BinOp, l: Expr, r: Expr, ty: Ty)
    ensures ExprCode(vars, Binary(op, l, r, ty)) == Combine(op, ExprCode(vars, l), ExprCode(vars, r))
  {
    hide OperatorCode, CastTo;
  }

  /** Converting an int operand beforehand is what the operator would do. */
  lemma CastCombines(vars: seq<Var>, op: BinOp, e: Expr, other: ECode)
    requires ExprCode(vars, e).ECode? ==> ExprCode(vars, e).ty == TInt
    requires other.ECode? ==> other.ty == TFlt
    ensures Combine(op, ExprCode(vars, Cast(e)), other) == Combine(op, ExprCode(vars, e), other)
    ensures Combine(op, other, ExprCode(vars, Cast(e))) == Combine(op, other, ExprCode(vars, e))
  {
    hide OperatorCode, Encode;
    var c := ExprCode(vars, e);
    if c.ECode? {
      assert c.code + Encode(I2F) + [] == c.code + Encode(I2F);
    }
  }

  lemma CombinedType(op: BinOp, l: ECode, r: ECode)
    ensures Combine(op, l, r).ECode? ==> l.ECode? && r.ECode? && Combine(op, l, r).ty == Wider(l.ty, r.ty)
  {
  }

  lemma BalanceCode(vars: seq<Var>, op: BinOp, l: Expr, r: Expr)
    requires Annotated(vars, l) && Annotated(vars, r)
    ensures ExprCode(vars, Balance(op, l, r)) == ExprCode(vars, Binary(op, l, r, Unknown))
    ensures ExprCode(vars, Balance(op, l, r)).ECode? ==>
              ExprCode(vars, Balance(op, l, r)).ty == StaticType(Balance(op, l, r))
  {
    hide ExprCode, Annotated, Combine;
    AnnotatedTyped(vars, l);
    AnnotatedTyped(vars, r);
    if ExprCode(vars, l).ECode? { AnnotatedCode(vars, l); }
    if ExprCode(vars, r).ECode? { AnnotatedCode(vars, r); }
    var b := Balance(op, l, r);
    BinaryCode(vars, op, l, r, Unknown);
    BinaryCode(vars, op, b.left, b.right, b.ty);
    if StaticType(l) == TInt && StaticType(r) == TFlt {
      CastCombines(vars, op, l, ExprCode(vars, r));
    } else if StaticType(l) == TFlt && StaticType(r) == TInt {
      CastCombines(vars, op, r, ExprCode(vars, l));
    }
    CombinedType(op, ExprCode(vars, l), ExprCode(vars, r));
  }

  /** ... nor what is meant. */
  lemma {:induction false} TraceKeepsValue(fl: FloatOps, vars: seq<Var>, e: Expr, store: Store, locals: seq<Word>)
    requires Parsed(e) && Trace(vars, e).Some? && Agree(vars, store, locals)
    ensures EvalExpr(fl, store, Trace(vars, e).value) == EvalExpr(fl, store, e)
    ensures EvalExpr(fl, store, e).Val? ==> TyOf(EvalExpr(fl, store, e).v) == StaticType(Trace(vars, e).value)
  {
    hide Agree;
    match e
    case Ident(x, _) => IdentAt(vars, x, store, locals);
    case Group(inner, _) => TraceKeepsValue(fl, vars, inner, store, locals);
    case Neg(operand, _) => TraceKeepsValue(fl, vars, operand, store, locals);
    case Binary(op, l, r, _) =>
      TraceKeepsValue(fl, vars, l, store, locals);
      TraceKeepsValue(fl, vars, r, store, locals);
      TracedOperand(vars, l);
      TracedOperand(vars, r);
      BalanceValue(fl, op, l, r, Trace(vars, l).value, Trace(vars, r).value, store);
    case _ =>
  }

  lemma TracedOperand(vars: seq<Var>, e: Expr)
    requires Parsed(e) && Trace(vars, e).Some?
    ensures StaticType(Trace(vars, e).value) == TInt || StaticType(Trace(vars, e).value) == TFlt
  {
    TraceChangesOnlyCasts(vars, e);
    AnnotatedTyped(vars, Trace(vars, e).value);
  }

  /** A balanced operator computes what the operator computes. */
  lemma BalanceValue(fl: FloatOps, op: BinOp, l: Expr, r: Expr, tl: Expr, tr: Expr, store: Store)
    requires EvalExpr(fl, store, tl) == EvalExpr(fl, store, l) && EvalExpr(fl, store, tr) == EvalExpr(fl, store, r)
    requires EvalExpr(fl, store, l).Val? ==> TyOf(EvalExpr(fl, store, l).v) == StaticType(tl)
    requires EvalExpr(fl, store, r).Val? ==> TyOf(EvalExpr(fl, store, r).v) == StaticType(tr)
    requires StaticType(tl) != Unknown && StaticType(tr) != Unknown
    ensures var v := EvalExpr(fl, store, Binary(op, l, r, Unknown));
            && EvalExpr(fl, store, Balance(op, tl, tr)) == v
            && (v.Val? ==> TyOf(v.v) == StaticType(Balance(op, tl, tr)))
  {
    hide Apply;
    var (a, b) := (EvalExpr(fl, store, l), EvalExpr(fl, store, r));
    if a.Val? && b.Val? {
      ApplyLifted(fl, op, a.v, b.v);
      ApplyType(fl, op, a.v, b.v);
    }
  }
}
