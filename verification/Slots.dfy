/** Slots: every variable of a scope chain has one, named by a single operand byte,
    and what goes wrong when the bytes run out. */
module Slots {
  import opened Words
  import opened Ast
  import opened Bytecode
  import opened Machine
  import opened Codegen
  import opened ControlFlow
  import opened ExprCorrect

  // ---- the bytes of a scope chain ----

  /** The operand byte that stores of variable `k` are emitted with. */
  function SlotOf(vars: seq<Var>, k: nat): byte
    requires k < |vars|
  {
    Encode(SaveInstr(vars[k].ty, k))[1]
  }

  /** Loads use the same byte as stores, and it is no larger than the position. */
  lemma SlotIs(vars: seq<Var>, k: nat)
    requires k < |vars|
    ensures SlotOf(vars, k) == Encode(LoadInstr(vars[k], k))[1] == k % 0x100 <= k
  {
  }

  /** The variables of a scope chain have pairwise distinct slots exactly when there
      are at most 0x100 of them. */
  lemma SlotsExact(vars: seq<Var>)
    ensures (forall i, j :: 0 <= i < j < |vars| ==> SlotOf(vars, i) != SlotOf(vars, j)) <==> |vars| <= 0x100
  {
    hide SlotOf;
    if |vars| <= 0x100 {
      forall i, j | 0 <= i < j < |vars| ensures SlotOf(vars, i) != SlotOf(vars, j) {
        SlotIs(vars, i);
        SlotIs(vars, j);
      }
    } else {
      SlotIs(vars, 0);
      SlotIs(vars, 0x100);
      assert SlotOf(vars, 0) == SlotOf(vars, 0x100);
    }
  }

  // ---- the slots the code addresses ----

  predicate Addresses(opcode: byte) { opcode == ILOAD || opcode == ISAVE || opcode == FLOAD || opcode == FSAVE }

  /** Every load and store in the code has a slot below `n`. */
  predicate SlotsBelow(code: seq<byte>, n: nat)
    decreases |code|
  {
    code == [] ||
    (&& Width(code[0]) <= |code| && (Addresses(code[0]) ==> code[1] < n)
     && SlotsBelow(code[Width(code[0])..], n))
  }

  lemma {:induction false} BelowConcat(a: seq<byte>, b: seq<byte>, n: nat)
    requires SlotsBelow(a, n) && SlotsBelow(b, n)
    ensures SlotsBelow(a + b, n)
    decreases |a|
  {
    if a == [] {
      assert a + b == b;
    } else {
      var w := Width(a[0]);
      assert (a + b)[w..] == a[w..] + b;
      BelowConcat(a[w..], b, n);
    }
  }

  lemma {:induction false} BelowMore(code: seq<byte>, n: nat, m: nat)
    requires SlotsBelow(code, n) && n <= m
    ensures SlotsBelow(code, m)
    decreases |code|
  {
    if code != [] {
      BelowMore(code[Width(code[0])..], n, m);
    }
  }

  lemma {:induction false} BelowByte(code: seq<byte>, n: nat, pc: nat)
    requires SlotsBelow(code, n) && Boundary(code, pc) && pc < |code|
    ensures pc + Width(code[pc]) <= |code| && (Addresses(code[pc]) ==> code[pc + 1] < n)
    decreases |code|
  {
    if pc > 0 {
      var w := Width(code[0]);
      BelowByte(code[w..], n, pc - w);
      assert code[w..][pc - w] == code[pc];
    }
  }

  lemma FetchedSlot(code: seq<byte>, pc: nat)
    requires pc < |code| && pc + Width(code[pc]) <= |code|
    ensures match Fetch(code, pc).value
            case ILoad(k) => Addresses(code[pc]) && k == code[pc + 1]
            case ISave(k) => Addresses(code[pc]) && k == code[pc + 1]
            case FLoad(k) => Addresses(code[pc]) && k == code[pc + 1]
            case FSave(k) => Addresses(code[pc]) && k == code[pc + 1]
            case _ => true
  {
    hide FromBe32, FromBe16;
  }

  /** What the predicate means for the machine: the instruction at any boundary. */
  lemma BelowAt(code: seq<byte>, n: nat, pc: nat)
    requires SlotsBelow(code, n) && Boundary(code, pc) && pc < |code|
    ensures Fetch(code, pc).Some?
    ensures match Fetch(code, pc).value
            case ILoad(k) => k < n
            case ISave(k) => k < n
            case FLoad(k) => k < n
            case FSave(k) => k < n
            case _ => true
  {
    BelowByte(code, n, pc);
    FetchedSlot(code, pc);
    hide SlotsBelow, Boundary, Interpret;
  }

  lemma BelowInstr(i: Instr, n: nat)
    requires Valid(i) && (Addresses(Encode(i)[0]) ==> Encode(i)[1] < n)
    ensures SlotsBelow(Encode(i), n)
  {
    hide Encode;
    var w := Encode(i);
    assert w[|w|..] == [];
  }

  lemma BelowOther(i: Instr, n: nat)
    requires Valid(i) && !i.ILoad? && !i.ISave? && !i.FLoad? && !i.FSave?
    ensures SlotsBelow(Encode(i), n)
  {
    NotAddressing(i);
    BelowInstr(i, n);
  }

  lemma NotAddressing(i: Instr)
    requires Valid(i) && !i.ILoad? && !i.ISave? && !i.FLoad? && !i.FSave?
    ensures !Addresses(Encode(i)[0])
  {
  }

  lemma BelowSlot(v: Var, ty: Ty, k: nat, n: nat)
    requires k < n
    ensures SlotsBelow(Encode(LoadInstr(v, k)), n) && SlotsBelow(Encode(SaveInstr(ty, k)), n)
  {
    hide SlotsBelow;
    assert k % 0x100 <= k;
    BelowInstr(LoadInstr(v, k), n);
    BelowInstr(SaveInstr(ty, k), n);
  }

  lemma BelowCast(ty: Ty, from: Ty, n: nat)
    ensures SlotsBelow(CastTo(ty, from), n)
  {
    BelowOther(I2F, n);
  }

  lemma BelowOperator(op: BinOp, ty: Ty, n: nat)
    requires OperatorCode(op, ty).Some?
    ensures SlotsBelow([OperatorCode(op, ty).value], n)
  {
    hide SlotsBelow;
    var i := if ty.TFlt? && !IsComparison(op) then FArith(op) else IArith(op);
    assert Encode(i) == [OperatorCode(op, ty).value];
    BelowOther(i, n);
  }

  lemma {:induction false} BelowExpr(vars: seq<Var>, e: Expr, n: nat)
    requires |vars| <= n
    ensures SlotsBelow(CodeOf(ExprCode(vars, e)), n)
  {
    hide SlotsBelow, CastTo, OperatorCode, LoadInstr;
    assert SlotsBelow([], n) by { BelowNothing(n); }
    match e
    case IntLit(i) => BelowOther(IConst(i), n);
    case FltLit(f) => BelowOther(FConst(f), n);
    case Ident(x, _) =>
      var k := Lookup(vars, x);
      if k.Some? { BelowSlot(vars[k.value], TInt, k.value, n); }
    case Group(inner, _) => BelowExpr(vars, inner, n);
    case Neg(operand, _) =>
      BelowExpr(vars, operand, n);
      BelowOther(Unhandled(INEG), n);
      BelowConcat(CodeOf(ExprCode(vars, operand)), Encode(Unhandled(INEG)), n);
    case Cast(operand) =>
      var c := ExprCode(vars, operand);
      BelowExpr(vars, operand, n);
      if c.ECode? { BelowOperand(c, TFlt, n); }
    case Binary(op, l, r, _) =>
      var (cl, cr) := (ExprCode(vars, l), ExprCode(vars, r));
      BelowExpr(vars, l, n);
      BelowExpr(vars, r, n);
      if cl.ECode? && cr.ECode? && OperatorCode(op, Wider(cl.ty, cr.ty)).Some? {
        BelowBinary(op, cl, cr, n);
      }
  }

  lemma BelowNothing(n: nat)
    ensures SlotsBelow([], n)
  {
  }

  lemma BelowOperand(c: ECode, ty: Ty, n: nat)
    requires c.ECode? && SlotsBelow(c.code, n)
    ensures SlotsBelow(c.code + CastTo(ty, c.ty), n)
  {
    BelowCast(ty, c.ty, n);
    BelowConcat(c.code, CastTo(ty, c.ty), n);
  }

  lemma BelowBinary(op: BinOp, cl: ECode, cr: ECode, n: nat)
    requires cl.ECode? && cr.ECode? && SlotsBelow(cl.code, n) && SlotsBelow(cr.code, n)
    requires OperatorCode(op, Wider(cl.ty, cr.ty)).Some?
    ensures var ty := Wider(cl.ty, cr.ty);
            SlotsBelow(cl.code + CastTo(ty, cl.ty) + (cr.code + CastTo(ty, cr.ty)) + [OperatorCode(op, ty).value], n)
  {
    hide SlotsBelow, CastTo, OperatorCode;
    var ty := Wider(cl.ty, cr.ty);
    var (a, b) := (cl.code + CastTo(ty, cl.ty), cr.code + CastTo(ty, cr.ty));
    BelowOperand(cl, ty, n);
    BelowOperand(cr, ty, n);
    BelowOperator(op, ty, n);
    BelowConcat(a, b, n);
    BelowConcat(a + b, [OperatorCode(op, ty).value], n);
  }

  lemma {:induction false} BelowArgs(sc: Scope, args: seq<Expr>, n: nat)
    requires ArgsCode(sc, args).SCode? && |sc.vars| <= n
    ensures SlotsBelow(ArgsCode(sc, args).code, n)
    decreases args
  {
    if args != [] {
      hide SlotsBelow, ExprCode, Depth;
      var c := ExprCode(sc.vars, args[0]);
      BelowExpr(sc.vars, args[0], n);
      BelowArgs(Pushed(sc, c, args[0]), args[1..], n);
      BelowConcat(CodeOf(c), ArgsCode(Pushed(sc, c, args[0]), args[1..]).code, n);
    }
  }

  lemma BelowAssign(sc: Scope, x: string, e: Expr)
    requires sc.off <= |sc.vars| <= sc.vmax && AssignCode(sc, x, e).SCode?
    ensures SlotsBelow(AssignCode(sc, x, e).code, AssignCode(sc, x, e).sc.vmax)
  {
    hide SlotsBelow, ExprCode, CastTo, SaveInstr, Depth;
    var c, n := ExprCode(sc.vars, e), AssignCode(sc, x, e).sc.vmax;
    BelowExpr(sc.vars, e, n);
    match Lookup(sc.vars, x)
    case Some(k) =>
      var vt := if sc.vars[k].ty.TFlt? then TFlt else TInt;
      BelowOperand(c, vt, n);
      BelowSlot(sc.vars[k], vt, k, n);
      BelowConcat(c.code + CastTo(vt, c.ty), Encode(SaveInstr(vt, k)), n);
    case None =>
      BelowSlot(Var(x, c.ty), c.ty, |sc.vars|, n);
      BelowConcat(c.code, Encode(SaveInstr(c.ty, |sc.vars|)), n);
  }

  lemma BelowIfTail(g: Globals, t: seq<byte>, f: seq<byte>, n: nat)
    requires g.Ok() && SlotsBelow(t, n) && SlotsBelow(f, n)
    ensures SlotsBelow(IfTail(g, t, f), n)
  {
    BelowNothing(n);
    hide SlotsBelow;
    var te := WithExit(t, f);
    if |f| < 0x1_0000 {
      BelowOther(Jmp(|f|), n);
      BelowConcat(t, Encode(Jmp(|f|)), n);
    }
    if |te| < 0x1_0000 {
      var jez := Encode(Jez(Short(g, |te|)));
      BelowOther(Jez(Short(g, |te|)), n);
      BelowConcat(jez, te, n);
      BelowConcat(jez + te, f, n);
    }
  }

  lemma BelowWhileTail(g: Globals, c: seq<byte>, b: seq<byte>, n: nat)
    requires g.Ok() && SlotsBelow(b, n)
    ensures SlotsBelow(WhileTail(g, c, b), n)
  {
    hide SlotsBelow;
    var (exit, back) := (Jez(Short(g, |b| + 3)), RJmp(Short(g, |c| + |b| + 6)));
    BelowOther(exit, n);
    BelowOther(back, n);
    BelowConcat(Encode(exit), b, n);
    BelowConcat(Encode(exit) + b, Encode(back), n);
  }

  /** No statement's code addresses a slot beyond the maximum collected for it. */
  lemma {:induction false} BelowStmt(g: Globals, sc: Scope, s: Stmt)
    requires g.Ok() && sc.off <= |sc.vars| <= sc.vmax && StmtCode(g, sc, s).SCode?
    ensures SlotsBelow(StmtCode(g, sc, s).code, StmtCode(g, sc, s).sc.vmax)
    decreases s
  {
    hide SlotsBelow, ExprCode, Depth, AssignCode, IfTail, WhileTail, BlockCode, ArgsCode;
    var n := StmtCode(g, sc, s).sc.vmax;
    match s
    case Assign(x, e) => BelowAssign(sc, x, e);
    case Bare(e) => BelowExpr(sc.vars, e, n);
    case Call(f, args) =>
      BelowArgs(sc, args, n);
      BelowOther(Invoke(g.fns[f].index), n);
      BelowConcat(ArgsCode(sc, args).code, Encode(Invoke(g.fns[f].index)), n);
    case If(e, t, f) =>
      var sc1 := Pushed(sc, ExprCode(sc.vars, e), e);
      var ct := BlockCode(g, Child(sc1, sc1.ssize), t);
      var sc2 := Back(sc1, ct.sc);
      var cf := BlockCode(g, Child(sc2, sc2.ssize), f);
      BelowBlock(g, Child(sc1, sc1.ssize), t);
      BelowBlock(g, Child(sc2, sc2.ssize), f);
      BelowExpr(sc.vars, e, n);
      BelowMore(ct.code, ct.sc.vmax, n);
      BelowIfTail(g, ct.code, cf.code, n);
      BelowConcat(CodeOf(ExprCode(sc.vars, e)), IfTail(g, ct.code, cf.code), n);
    case While(e, body) =>
      var c := CodeOf(ExprCode(sc.vars, e));
      var child := Child(Pushed(sc, ExprCode(sc.vars, e), e), 0);
      var b := BlockCode(g, child, body);
      BelowBlock(g, child, body);
      BelowExpr(sc.vars, e, n);
      BelowWhileTail(g, c, b.code, n);
      BelowConcat(c, WhileTail(g, c, b.code), n);
  }

  lemma {:induction false} BelowBlock(g: Globals, sc: Scope, b: Block)
    requires g.Ok() && sc.off <= |sc.vars| <= sc.vmax && BlockCode(g, sc, b).SCode?
    ensures SlotsBelow(BlockCode(g, sc, b).code, BlockCode(g, sc, b).sc.vmax)
    decreases b
  {
    if b.End? {
      BelowNothing(sc.vmax);
    } else {
      hide SlotsBelow, StmtCode;
      var (r, n) := (StmtCode(g, sc, b.head), BlockCode(g, sc, b).sc.vmax);
      var rest := BlockCode(g, r.sc, b.tail);
      BelowStmt(g, sc, b.head);
      BelowBlock(g, r.sc, b.tail);
      BelowMore(r.code, r.sc.vmax, n);
      BelowConcat(r.code, rest.code, n);
    }
  }

  /** Slot discipline along a block: visible names stay pairwise distinct and slots
      once given are kept; every slot the code addresses is below the collected
      maximum, however many variables there are; and the visible variables have
      pairwise distinct slots exactly as long as one operand byte can tell them apart. */
  lemma SlotDiscipline(g: Globals, sc: Scope, b: Block)
    requires g.Ok() && sc.off <= |sc.vars| <= sc.vmax && Distinct(sc.vars) && BlockCode(g, sc, b).SCode?
    ensures var r := BlockCode(g, sc, b);
            var vars := r.sc.vars;
            && Distinct(vars) && |vars| <= r.sc.vmax && sc.vars <= vars && sc.vmax <= r.sc.vmax
            && SlotsBelow(r.code, r.sc.vmax)
            && ((forall i, j :: 0 <= i < j < |vars| ==> SlotOf(vars, i) != SlotOf(vars, j)) <==> |vars| <= 0x100)
  {
    hide Distinct, SlotsBelow, BlockCode, SlotOf;
    BlockDistinct(g, sc, b);
    BelowBlock(g, sc, b);
    SlotsExact(BlockCode(g, sc, b).sc.vars);
  }

  lemma {:induction false} BlockDistinct(g: Globals, sc: Scope, b: Block)
    requires g.Ok() && sc.off <= |sc.vars| && Distinct(sc.vars) && BlockCode(g, sc, b).SCode?
    ensures Distinct(BlockCode(g, sc, b).sc.vars)
    decreases b
  {
    hide StmtCode, Distinct;
    if b.Then? {
      StmtDistinct(g, sc, b.head);
      BlockDistinct(g, StmtCode(g, sc, b.head).sc, b.tail);
    }
  }

  lemma StmtDistinct(g: Globals, sc: Scope, s: Stmt)
    requires g.Ok() && sc.off <= |sc.vars| && Distinct(sc.vars) && StmtCode(g, sc, s).SCode?
    ensures Distinct(StmtCode(g, sc, s).sc.vars)
  {
    hide ExprCode, BlockCode, ArgsCode, IfTail, WhileTail, Encode;
    if s.Assign? && Lookup(sc.vars, s.target).None? {
      assert StmtCode(g, sc, s).sc.vars[..|sc.vars|] == sc.vars;
    }
  }

  // ---- the locals of a run ----

  ghost predicate FrameInside(f: Frame) { SlotsBelow(f.code, |f.locals|) }

  ghost predicate StateInside(s: Frames) { FrameInside(s.top) && forall f :: f in s.below ==> FrameInside(f) }

  ghost predicate BodiesInside(m: Vm) {
    forall i :: i in m.funcs ==> m.funcs[i].argc <= m.funcs[i].nvars && SlotsBelow(m.funcs[i].body, m.funcs[i].nvars)
  }

  lemma HandleInside(m: Vm, i: Instr, f: Frame)
    requires !i.Invoke? && Handle(m, i, f).Ok?
    ensures Handle(m, i, f).f.code == f.code && |Handle(m, i, f).f.locals| == |f.locals|
  {
  }

  lemma StepInside(m: Vm, s: Frames)
    requires BodiesInside(m) && StateInside(s) && !Halted(s) && Step(m, s).At?
    ensures StateInside(Step(m, s).s)
  {
    hide SlotsBelow, Fetch, Handle;
    if Live(s.top) {
      var i := Fetch(s.top.code, s.top.pc).value;
      if !i.Invoke? { HandleInside(m, i, s.top); }
    } else {
      var caller := s.below[|s.below| - 1];
      assert caller in s.below && FrameInside(caller);
    }
  }

  /** The word an instruction addresses. */
  function Addressed(i: Instr): Option<nat> {
    match i
    case ILoad(k) => Some(k)
    case ISave(k) => Some(k)
    case FLoad(k) => Some(k)
    case FSave(k) => Some(k)
    case _ => None
  }

  /** No run of compiled code ever addresses a word outside its frame's locals, also
      when slots are shared because there are too many variables. */
  lemma {:induction false} LocalsInside(m: Vm, s: Frames, n: nat, s': Frames)
    requires BodiesClosed(m) && BodiesInside(m) && StateOk(s) && StateInside(s)
    requires Takes(m, s, n, At(s')) && Live(s'.top)
    ensures Fetch(s'.top.code, s'.top.pc).Some?
    ensures var k := Addressed(Fetch(s'.top.code, s'.top.pc).value); k.Some? ==> k.value < |s'.top.locals|
    decreases n
  {
    hide BodiesClosed, BodiesInside, SlotsBelow, Step, Boundary, Fetch;
    if n > 0 {
      StepInside(m, s);
      StepOk(m, s);
      LocalsInside(m, Step(m, s).s, n - 1, s');
    } else {
      BelowAt(s.top.code, |s.top.locals|, s.top.pc);
    }
  }
}
