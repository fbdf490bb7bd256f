/** Expression code computes the value of its expression. */
module ExprCorrect {
  import opened Words
  import opened Ast
  import opened Language
  import opened Bytecode
  import opened Machine
  import opened Runs
  import opened Codegen

  ghost predicate Distinct(vars: seq<Var>) {
    forall i, j :: 0 <= i < j < |vars| ==> vars[i].name != vars[j].name
  }

  /** The compiler's view of the variables, the program's store and the frame's
      locals agree: every name has one slot and the slot holds its value. */
  ghost predicate Agree(vars: seq<Var>, store: Store, locals: seq<Word>) {
    && Distinct(vars)
    && |vars| <= 0x100 && |vars| <= |locals|
    && (forall x :: x in store <==> Lookup(vars, x).Some?)
    && (forall i :: 0 <= i < |vars| ==>
          vars[i].name in store && locals[i] == Some(store[vars[i].name]) && TyOf(store[vars[i].name]) == vars[i].ty)
  }

  lemma LookupAt(vars: seq<Var>, i: nat)
    requires Distinct(vars) && i < |vars|
    ensures Lookup(vars, vars[i].name) == Some(i)
  {
  }

  /** Room for `words` more operands. */
  ghost predicate Room(m: Vm, d: Data, words: nat) {
    m.checked ==> |d.stack| + words <= d.cap
  }

  function WithTop(d: Data, v: Value): Data { d.(stack := d.stack + [v]) }

  function Lifted(fl: FloatOps, ty: Ty, v: Value): Value { if ty.TFlt? then Promote(fl, v) else v }

  lemma CastRun(m: Vm, d: Data, v: Value, ty: Ty) returns (n: nat)
    requires ty != Unknown
    ensures Fares(m, CastTo(ty, TyOf(v)), WithTop(d, v), n,
                  Ends(WithTop(d, Lifted(m.fl, ty, v))))
  {
    if ty.TFlt? && v.IntV? {
      Simple(m, I2F, WithTop(d, v));
      n := 1;
    } else {
      n := 0;
    }
  }

  /** What one operator instruction does to the two values on top. */
  lemma OperatorRun(m: Vm, op: BinOp, ty: Ty, d: Data, a: Value, b: Value, fate: Fate)
    requires ty != Unknown && OperatorCode(op, ty).Some? && TyOf(a) == TyOf(b) == ty
    requires fate == match Apply(m.fl, op, a, b)
                     case Val(v) => Ends(WithTop(d, v))
                     case Err(why) => Dies(why)
    ensures Fares(m, [OperatorCode(op, ty).value], WithTop(WithTop(d, a), b), 1, fate)
  {
    var d2 := WithTop(WithTop(d, a), b);
    var i := if ty.TFlt? && !IsComparison(op) then FArith(op) else IArith(op);
    assert Encode(i) == [OperatorCode(op, ty).value];
    Simple(m, i, d2);
    assert d2.stack[..|d2.stack| - 2] == d.stack;
  }

  /** A load or a constant. */
  lemma PushRun(m: Vm, i: Instr, d: Data, v: Value)
    requires Valid(i) && !i.Invoke? && Room(m, d, 1)
    requires var f := AsFrame(Encode(i), 0, d); Handle(m, i, f) == Push(m, f, v, InstrWidth(i))
    ensures Fares(m, Encode(i), d, 1, Ends(WithTop(d, v)))
  {
    hide Fares, Encode, Handle;
    EncodeWidth(i);
    Simple(m, i, d);
  }

  lemma IdentAt(vars: seq<Var>, x: string, store: Store, locals: seq<Word>)
    requires Agree(vars, store, locals) && Lookup(vars, x).Some?
    ensures var k := Lookup(vars, x).value;
            && k < |vars| && k < |locals| && k < 0x100 && x in store
            && locals[k] == Some(store[x]) && TyOf(store[x]) == vars[k].ty
  {
  }

  lemma LoadRun(m: Vm, v: Var, k: nat, d: Data)
    requires k < |d.locals| && k < 0x100 && d.locals[k].Some? && TyOf(d.locals[k].value) == v.ty && Room(m, d, 1)
    ensures Fares(m, Encode(LoadInstr(v, k)), d, 1, Ends(WithTop(d, d.locals[k].value)))
  {
    hide Fares, Encode;
    PushRun(m, LoadInstr(v, k), d, d.locals[k].value);
  }

  lemma LeafRun(m: Vm, vars: seq<Var>, e: Expr, store: Store, d: Data)
    requires e.IntLit? || e.FltLit? || e.Ident?
    requires ExprCode(vars, e).ECode?
    requires Agree(vars, store, d.locals) && Room(m, d, 1)
    ensures EvalExpr(m.fl, store, e).Val?
    ensures var v := EvalExpr(m.fl, store, e).v;
            && TyOf(v) == ExprCode(vars, e).ty
            && Fares(m, ExprCode(vars, e).code, d, 1, Ends(WithTop(d, v)))
  {
    hide Fares, Encode, Agree, Room, LoadInstr;
    match e
    case IntLit(i) => PushRun(m, IConst(i), d, IntV(i));
    case FltLit(f) => PushRun(m, FConst(f), d, FltV(f));
    case Ident(x, _) =>
      IdentAt(vars, x, store, d.locals);
      var k := Lookup(vars, x).value;
      LoadRun(m, vars[k], k, d);
  }

  /** Promoting both operands beforehand changes nothing, because the operator
      promotes them anyway when their types differ. */
  lemma ApplyLifted(fl: FloatOps, op: BinOp, a: Value, b: Value)
    ensures var ty := Wider(TyOf(a), TyOf(b));
            Apply(fl, op, Lifted(fl, ty, a), Lifted(fl, ty, b)) == Apply(fl, op, a, b)
  {
  }

  lemma ApplyType(fl: FloatOps, op: BinOp, a: Value, b: Value)
    ensures Apply(fl, op, a, b).Val? ==> TyOf(Apply(fl, op, a, b).v) == Wider(TyOf(a), TyOf(b))
    ensures Apply(fl, op, a, b).Err? ==> Sane(Apply(fl, op, a, b).why)
  {
  }

  lemma {:induction false} ExprRun(m: Vm, vars: seq<Var>, e: Expr, store: Store, d: Data)
    returns (n: nat, fate: Fate)
    requires ExprCode(vars, e).ECode?
    requires Agree(vars, store, d.locals) && Room(m, d, Depth(e))
    ensures Fares(m, ExprCode(vars, e).code, d, n, fate)
    ensures match EvalExpr(m.fl, store, e)
            case Val(v) => fate == Ends(WithTop(d, v)) && TyOf(v) == ExprCode(vars, e).ty
            case Err(why) => fate == Dies(why) && Sane(why)
    decreases e, 1
  {
    match e
    case Group(inner, _) => n, fate := ExprRun(m, vars, inner, store, d);
    case Neg(operand, _) => n, fate := NegRun(m, vars, operand, store, d);
    case Cast(operand) => n, fate := OperandRun(m, vars, operand, TFlt, store, d);
    case Binary(_, _, _, _) => n, fate := BinaryRun(m, vars, e, store, d);
    case _ =>
      LeafRun(m, vars, e, store, d);
      n, fate := 1, Ends(WithTop(d, EvalExpr(m.fl, store, e).v));
  }

  lemma {:induction false} NegRun(m: Vm, vars: seq<Var>, e: Expr, store: Store, d: Data)
    returns (n: nat, fate: Fate)
    requires ExprCode(vars, e).ECode?
    requires Agree(vars, store, d.locals) && Room(m, d, Depth(e))
    ensures Fares(m, ExprCode(vars, e).code + Encode(Unhandled(INEG)), d, n, fate)
    ensures fate.Dies? && Sane(fate.why)
    ensures fate == Dies(if EvalExpr(m.fl, store, e).Val? then Panic else EvalExpr(m.fl, store, e).why)
    decreases e, 2
  {
    hide Fares, ExprCode, EvalExpr, Agree;
    var code, neg := ExprCode(vars, e).code, Encode(Unhandled(INEG));
    n, fate := ExprRun(m, vars, e, store, d);
    if fate.Ends? {
      var v := EvalExpr(m.fl, store, e).v;
      Simple(m, Unhandled(INEG), WithTop(d, v));
      Sequence(m, code, neg, d, n, WithTop(d, v), 1, Dies(Panic));
      n, fate := n + 1, Dies(Panic);
    } else {
      Stuck(m, code, neg, d, n, fate);
    }
  }

  /** An operand followed by its promotion, if the other side is a float. */
  lemma {:induction false} OperandRun(m: Vm, vars: seq<Var>, e: Expr, ty: Ty, store: Store, d: Data)
    returns (n: nat, fate: Fate)
    requires ExprCode(vars, e).ECode? && ty != Unknown
    requires Agree(vars, store, d.locals) && Room(m, d, Depth(e))
    ensures Fares(m, ExprCode(vars, e).code + CastTo(ty, ExprCode(vars, e).ty), d, n, fate)
    ensures match EvalExpr(m.fl, store, e)
            case Val(v) => && TyOf(v) == ExprCode(vars, e).ty
                           && fate == Ends(WithTop(d, Lifted(m.fl, ty, v)))
            case Err(why) => fate == Dies(why) && Sane(why)
    decreases e, 2
  {
    hide Fares, CastTo;
    var code, cast := ExprCode(vars, e).code, CastTo(ty, ExprCode(vars, e).ty);
    n, fate := ExprRun(m, vars, e, store, d);
    if fate.Ends? {
      var v := EvalExpr(m.fl, store, e).v;
      var w := Lifted(m.fl, ty, v);
      var n' := CastRun(m, d, v, ty);
      Sequence(m, code, cast, d, n, WithTop(d, v), n', Ends(WithTop(d, w)));
      n, fate := n + n', Ends(WithTop(d, w));
    } else {
      Stuck(m, code, cast, d, n, fate);
    }
  }

  lemma {:induction false} BinaryRun(m: Vm, vars: seq<Var>, e: Expr, store: Store, d: Data)
    returns (n: nat, fate: Fate)
    requires e.Binary? && ExprCode(vars, e).ECode?
    requires Agree(vars, store, d.locals) && Room(m, d, Depth(e))
    ensures Fares(m, ExprCode(vars, e).code, d, n, fate)
    ensures match EvalExpr(m.fl, store, e)
            case Val(v) => fate == Ends(WithTop(d, v)) && TyOf(v) == ExprCode(vars, e).ty
            case Err(why) => fate == Dies(why) && Sane(why)
    decreases e, 0
  {
    hide *;
    var Binary(op, l, r, _) := e;
    BinaryParts(m.fl, vars, e, store);
    RoomLess(m, d, Depth(e), Depth(l));
    var tl, tr := ExprCode(vars, l).ty, ExprCode(vars, r).ty;
    var ty := Wider(tl, tr);
    var cl, cr := ExprCode(vars, l).code + CastTo(ty, tl), ExprCode(vars, r).code + CastTo(ty, tr);
    var o := [OperatorCode(op, ty).value];
    var nl, fl := OperandRun(m, vars, l, ty, store, d);
    if !fl.Ends? {
      Stuck(m, cl, cr, d, nl, fl);
      Stuck(m, cl + cr, o, d, nl, fl);
      return nl, fl;
    }
    RoomAbove(m, d, Lifted(m.fl, ty, EvalExpr(m.fl, store, l).v), Depth(e), Depth(r));
    var nr, fr := OperandRun(m, vars, r, ty, store, fl.d);
    Sequence(m, cl, cr, d, nl, fl.d, nr, fr);
    if !fr.Ends? {
      Stuck(m, cl + cr, o, d, nl + nr, fr);
      return nl + nr, fr;
    }
    var a, b := EvalExpr(m.fl, store, l).v, EvalExpr(m.fl, store, r).v;
    var a', b' := Lifted(m.fl, ty, a), Lifted(m.fl, ty, b);
    ApplyLifted(m.fl, op, a, b);
    ApplyType(m.fl, op, a, b);
    fate := match Apply(m.fl, op, a, b) case Val(v) => Ends(WithTop(d, v)) case Err(why) => Dies(why);
    LiftedType(m.fl, tl, tr, a, b);
    OperatorRun(m, op, ty, d, a', b', fate);
    Sequence(m, cl + cr, o, d, nl + nr, fr.d, 1, fate);
    n := nl + nr + 1;
  }

  lemma RoomAbove(m: Vm, d: Data, v: Value, words: nat, above: nat)
    requires Room(m, d, words) && 1 + above <= words
    ensures Room(m, WithTop(d, v), above) && WithTop(d, v).locals == d.locals
  {
  }

  lemma RoomLess(m: Vm, d: Data, words: nat, less: nat)
    requires Room(m, d, words)
    ensures less <= words ==> Room(m, d, less)
  {
  }

  lemma LiftedType(fl: FloatOps, tl: Ty, tr: Ty, a: Value, b: Value)
    requires TyOf(a) == tl && TyOf(b) == tr
    ensures TyOf(Lifted(fl, Wider(tl, tr), a)) == TyOf(Lifted(fl, Wider(tl, tr), b)) == Wider(tl, tr)
  {
  }

  /** An operator node, one level down. */
  lemma BinaryParts(fl: FloatOps, vars: seq<Var>, e: Expr, store: Store)
    requires e.Binary? && ExprCode(vars, e).ECode?
    ensures var (l, r) := (e.left, e.right);
            && ExprCode(vars, l).ECode? && ExprCode(vars, r).ECode?
            && Depth(l) <= Depth(e) && 1 + Depth(r) <= Depth(e)
            && (var (tl, tr) := (ExprCode(vars, l).ty, ExprCode(vars, r).ty);
                var ty := Wider(tl, tr);
                && OperatorCode(e.op, ty).Some? && ty != Unknown
                && ExprCode(vars, e) == ECode(ExprCode(vars, l).code + CastTo(ty, tl)
                                              + (ExprCode(vars, r).code + CastTo(ty, tr))
                                              + [OperatorCode(e.op, ty).value], ty))
    ensures var (a, b) := (EvalExpr(fl, store, e.left), EvalExpr(fl, store, e.right));
            EvalExpr(fl, store, e) == if a.Err? then a else if b.Err? then b else Apply(fl, e.op, a.v, b.v)
  {
    hide Apply, CastTo, OperatorCode, Lookup;
  }
}
