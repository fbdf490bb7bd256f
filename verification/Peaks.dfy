/** Operand memory, exactly: a run reaches every height its meaning says, so it overruns
    its memory if and only if that is smaller. */
module Peaks {
  import opened Words
  import opened Ast
  import opened Language
  import opened Bytecode
  import opened Machine
  import opened Runs
  import opened Codegen
  import opened Needs
  import opened Layout
  import opened ExprCorrect
  import opened StmtCorrect
  import opened Correctness
  import opened Session
  import opened Activations
  import opened Overruns

  /** At some point of `code` there are `height` operands. */
  ghost predicate Reaches(m: Vm, code: seq<byte>, d: Data, height: nat) {
    exists n: nat, pc, d1 :: Goes(m, code, 0, d, n, Ends(d1), pc) && d1.cap == d.cap && |d1.stack| >= height
  }

  lemma Seen(m: Vm, code: seq<byte>, d: Data, n: nat, pc: int, d1: Data, height: nat)
    requires Goes(m, code, 0, d, n, Ends(d1), pc) && d1.cap == d.cap && |d1.stack| >= height
    ensures Reaches(m, code, d, height)
  {
  }

  /** A point inside a piece is a point inside any code around it. */
  lemma GoesInside(m: Vm, pre: seq<byte>, code: seq<byte>, post: seq<byte>, d: Data, n: nat, d1: Data, pc: int)
    requires Goes(m, code, 0, d, n, Ends(d1), pc)
    ensures Goes(m, pre + code + post, |pre|, d, n, Ends(d1), |pre| + pc)
  {
    hide Takes;
    assert Deeper(m, []) == m;
    TakesEmbed(m, Mid(code, 0, d), n, At(Mid(code, pc, d1)), [], pre, post);
    assert Embed([], pre, post, Mid(code, 0, d)) == Mid(pre + code + post, |pre|, d);
    assert Embed([], pre, post, Mid(code, pc, d1)) == Mid(pre + code + post, |pre| + pc, d1);
  }

  /** A run that gets to a piece reaches what the piece reaches. */
  lemma ReachInside(m: Vm, pre: seq<byte>, code: seq<byte>, post: seq<byte>, d: Data, n: nat, d1: Data, height: nat)
    requires Goes(m, pre + code + post, 0, d, n, Ends(d1), |pre|) && d1.cap == d.cap && Reaches(m, code, d1, height)
    ensures Reaches(m, pre + code + post, d, height)
  {
    hide Goes;
    var k: nat, pc, d2 :| Goes(m, code, 0, d1, k, Ends(d2), pc) && d2.cap == d1.cap && |d2.stack| >= height;
    GoesInside(m, pre, code, post, d1, k, d2, pc);
    Join(m, pre + code + post, 0, d, n, d1, |pre|, k, Ends(d2), |pre| + pc);
    Seen(m, pre + code + post, d, n + k, |pre| + pc, d2, height);
  }

  lemma ReachFirst(m: Vm, c1: seq<byte>, c2: seq<byte>, d: Data, height: nat)
    requires Reaches(m, c1, d, height)
    ensures Reaches(m, c1 + c2, d, height)
  {
    Standing(m, c1 + c2, d);
    hide Goes, Reaches;
    assert [] + c1 + c2 == c1 + c2;
    ReachInside(m, [], c1, c2, d, 0, d, height);
  }

  lemma ReachSecond(m: Vm, c1: seq<byte>, c2: seq<byte>, d: Data, n: nat, d1: Data, height: nat)
    requires Fares(m, c1, d, n, Ends(d1)) && d1.cap == d.cap && Reaches(m, c2, d1, height)
    ensures Reaches(m, c1 + c2, d, height)
  {
    hide Goes, Reaches;
    Inside(m, [], c1, c2, d, n, Ends(d1));
    assert [] + c1 + c2 == c1 + c2 == c1 + c2 + [];
    ReachInside(m, c1, c2, [], d, n, d1, height);
  }

  lemma ReachNow(m: Vm, code: seq<byte>, d: Data)
    ensures Reaches(m, code, d, |d.stack|)
  {
    Standing(m, code, d);
    hide Goes;
    Seen(m, code, d, 0, 0, d, |d.stack|);
  }

  // ---- expressions ----

  lemma {:induction false} ExprReach(m: Vm, vars: seq<Var>, e: Expr, store: Store, d: Data)
    requires !m.checked && ExprCode(vars, e).ECode? && Agree(vars, store, d.locals)
    requires EvalExpr(m.fl, store, e).Val?
    ensures Reaches(m, ExprCode(vars, e).code, d, |d.stack| + Depth(e))
    decreases e, 1
  {
    hide Reaches, Fares, Agree, CastTo;
    match e
    case Group(inner, _) => ExprReach(m, vars, inner, store, d);
    case Neg(_, _) =>
    case Cast(operand) =>
      ExprReach(m, vars, operand, store, d);
      var c := ExprCode(vars, operand);
      ReachFirst(m, c.code, CastTo(TFlt, c.ty), d, |d.stack| + Depth(operand));
    case Binary(_, _, _, _) => BinaryReach(m, vars, e, store, d);
    case _ =>
      var n, fate := ExprRun(m, vars, e, store, d);
      hide ExprCode, EvalExpr;
      EndReach(m, ExprCode(vars, e).code, d, n, EvalExpr(m.fl, store, e).v);
  }

  lemma EndReach(m: Vm, code: seq<byte>, d: Data, n: nat, v: Value)
    requires Fares(m, code, d, n, Ends(WithTop(d, v)))
    ensures Reaches(m, code, d, |d.stack| + 1)
  {
    hide Goes;
    Seen(m, code, d, n, |code|, WithTop(d, v), |d.stack| + 1);
  }

  lemma {:induction false} BinaryReach(m: Vm, vars: seq<Var>, e: Expr, store: Store, d: Data)
    requires !m.checked && ExprCode(vars, e).ECode? && Agree(vars, store, d.locals)
    requires EvalExpr(m.fl, store, e).Val? && e.Binary?
    ensures Reaches(m, ExprCode(vars, e).code, d, |d.stack| + Depth(e))
    decreases e, 0
  {
    hide *;
    var l, r := e.left, e.right;
    BinaryParts(m.fl, vars, e, store);
    BinaryDepth(m, vars, e, store, d);
    var tl, tr := ExprCode(vars, l).ty, ExprCode(vars, r).ty;
    var ty := Wider(tl, tr);
    var cl, cr := ExprCode(vars, l).code + CastTo(ty, tl), ExprCode(vars, r).code + CastTo(ty, tr);
    var o := [OperatorCode(e.op, ty).value];
    var height := |d.stack| + Depth(e);
    if Depth(e) == Depth(l) {
      ExprReach(m, vars, l, store, d);
      ReachFirst(m, ExprCode(vars, l).code, CastTo(ty, tl), d, height);
      ReachFirst(m, cl, cr, d, height);
    } else {
      var n, fate := OperandRun(m, vars, l, ty, store, d);
      AboveTop(d, Lifted(m.fl, ty, EvalExpr(m.fl, store, l).v));
      ExprReach(m, vars, r, store, fate.d);
      ReachFirst(m, ExprCode(vars, r).code, CastTo(ty, tr), fate.d, height);
      ReachSecond(m, cl, cr, d, n, fate.d, height);
    }
    ReachFirst(m, cl + cr, o, d, height);
  }

  lemma AboveTop(d: Data, v: Value)
    ensures WithTop(d, v).cap == d.cap && WithTop(d, v).locals == d.locals && |WithTop(d, v).stack| == |d.stack| + 1
  {
  }

  lemma BinaryDepth(m: Vm, vars: seq<Var>, e: Expr, store: Store, d: Data)
    requires e.Binary? && EvalExpr(m.fl, store, e).Val?
    ensures EvalExpr(m.fl, store, e.left).Val? && EvalExpr(m.fl, store, e.right).Val?
    ensures Depth(e) == Depth(e.left) || Depth(e) == 1 + Depth(e.right)
    ensures !m.checked ==> Room(m, d, Depth(e.left))
  {
    hide Apply;
  }

  lemma {:induction false} ArgsReach(m: Vm, sc: Scope, args: seq<Expr>, params: seq<Ty>, store: Store, d: Data)
    requires !m.checked && ArgsCode(sc, args).SCode? && ArgsFit(sc.vars, args, params)
    requires Agree(sc.vars, store, d.locals) && EvalArgs(m.fl, store, args).1.None?
    ensures Reaches(m, ArgsCode(sc, args).code, d, |d.stack| + ArgsNeed(args))
    decreases args
  {
    hide *;
    if args == [] {
      NoArgs(m, sc, d);
      return;
    }
    ArgsSplit(sc, args, params);
    EvalArgsSplit(m.fl, store, args, d.stack);
    NeedSplit(m, d, args);
    var c, height := ExprCode(sc.vars, args[0]), |d.stack| + ArgsNeed(args);
    var sc1 := Pushed(sc, c, args[0]);
    if ArgsNeed(args) == Depth(args[0]) {
      ExprReach(m, sc.vars, args[0], store, d);
      ReachFirst(m, c.code, ArgsCode(sc1, args[1..]).code, d, height);
    } else {
      var n, fate := ExprRun(m, sc.vars, args[0], store, d);
      AboveTop(d, EvalExpr(m.fl, store, args[0]).v);
      ArgsReach(m, sc1, args[1..], params[1..], store, fate.d);
      ReachSecond(m, c.code, ArgsCode(sc1, args[1..]).code, d, n, fate.d, height);
    }
  }

  lemma NoArgs(m: Vm, sc: Scope, d: Data)
    ensures ArgsCode(sc, []).SCode? && Reaches(m, ArgsCode(sc, []).code, d, |d.stack| + ArgsNeed([]))
  {
    ReachNow(m, [], d);
  }

  lemma NeedSplit(m: Vm, d: Data, args: seq<Expr>)
    requires args != []
    ensures ArgsNeed(args) == Depth(args[0]) || ArgsNeed(args) == 1 + ArgsNeed(args[1..])
    ensures !m.checked ==> Room(m, d, Depth(args[0]))
  {
    hide Depth;
  }

  // ---- statements ----

  lemma AssignReach(m: Vm, sc: Scope, x: string, e: Expr, store: Store, d: Data)
    requires !m.checked && sc.off <= |sc.vars| && AssignCode(sc, x, e).SCode?
    requires Agree(sc.vars, store, d.locals) && EvalExpr(m.fl, store, e).Val?
    ensures Reaches(m, AssignCode(sc, x, e).code, d, |d.stack| + Depth(e))
  {
    hide *;
    var rest := AssignRest(sc, x, e);
    ExprReach(m, sc.vars, e, store, d);
    ReachFirst(m, ExprCode(sc.vars, e).code, rest, d, |d.stack| + Depth(e));
  }

  lemma AssignRest(sc: Scope, x: string, e: Expr) returns (rest: seq<byte>)
    requires sc.off <= |sc.vars| && AssignCode(sc, x, e).SCode?
    ensures ExprCode(sc.vars, e).ECode? && AssignCode(sc, x, e).code == ExprCode(sc.vars, e).code + rest
  {
    hide ExprCode, Encode, CastTo, Depth, SaveInstr;
    var ty := ExprCode(sc.vars, e).ty;
    match Lookup(sc.vars, x)
    case Some(k) =>
      var vt := if sc.vars[k].ty.TFlt? then TFlt else TInt;
      rest := CastTo(vt, ty) + Encode(SaveInstr(vt, k));
    case None => rest := Encode(SaveInstr(ty, |sc.vars|));
  }

  lemma BareMeans(vars: seq<Var>, st: State, e: Expr, locals: seq<Word>)
    requires Agree(vars, st.store, locals) && !ExprCode(vars, e).EPanic?
    ensures Valueless(st.store.Keys, e) <==> ExprCode(vars, e).ENone?
  {
    ValuelessCode(vars, st.store.Keys, e);
  }

  lemma ThenReach(m: Vm, c: seq<byte>, t: seq<byte>, f: seq<byte>, d: Data, nc: nat, i: int32, height: nat)
    requires |t| + 3 < 0x1_0000 && |f| < 0x1_0000 && i != 0
    requires Fares(m, c, d, nc, Ends(WithTop(d, IntV(i)))) && Reaches(m, t, d, height)
    ensures Reaches(m, IfBytes(c, t, f), d, height)
  {
    hide Goes, Encode, Reaches;
    JumpWidth(|t| + 3);
    var jez, jmp := Encode(Jez(|t| + 3)), Encode(Jmp(|f|));
    Decide(m, c, |t| + 3, t + jmp + f, d, nc, i);
    assert c + jez + t + (jmp + f) == IfBytes(c, t, f);
    ReachInside(m, c + jez, t, jmp + f, d, nc + 1, d, height);
  }

  lemma ElseReach(m: Vm, c: seq<byte>, t: seq<byte>, f: seq<byte>, d: Data, nc: nat, height: nat)
    requires |t| + 3 < 0x1_0000 && |f| < 0x1_0000
    requires Fares(m, c, d, nc, Ends(WithTop(d, IntV(0)))) && Reaches(m, f, d, height)
    ensures Reaches(m, IfBytes(c, t, f), d, height)
  {
    hide Goes, Encode, Reaches;
    JumpWidth(|t| + 3);
    JumpWidth(|f|);
    var jez, jmp := Encode(Jez(|t| + 3)), Encode(Jmp(|f|));
    Decide(m, c, |t| + 3, t + jmp + f, d, nc, 0);
    assert c + jez + t + jmp + f + [] == IfBytes(c, t, f);
    ReachInside(m, c + jez + t + jmp, f, [], d, nc + 1, d, height);
  }

  lemma BodyReach(m: Vm, c: seq<byte>, b: seq<byte>, d: Data, nc: nat, i: int32, height: nat)
    requires |c| + |b| + 6 < 0x1_0000 && i != 0
    requires Fares(m, c, d, nc, Ends(WithTop(d, IntV(i)))) && Reaches(m, b, d, height)
    ensures Reaches(m, WhileBytes(c, b), d, height)
  {
    hide Goes, Encode, Reaches;
    JumpWidth(|b| + 3);
    var jez, rjmp := Encode(Jez(|b| + 3)), Encode(RJmp(|c| + |b| + 6));
    Decide(m, c, |b| + 3, b + rjmp, d, nc, i);
    assert c + jez + b + rjmp == WhileBytes(c, b);
    ReachInside(m, c + jez, b, rjmp, d, nc + 1, d, height);
  }

  lemma RoundReach(m: Vm, code: seq<byte>, d: Data, n: nat, d1: Data, height: nat)
    requires Goes(m, code, 0, d, n, Ends(d1), 0) && d1.cap == d.cap && Reaches(m, code, d1, height)
    ensures Reaches(m, code, d, height)
  {
    hide Goes, Reaches;
    assert [] + code + [] == code;
    ReachInside(m, [], code, [], d, n, d1, height);
  }

  /** What `StmtReach` and `BlockReach` assume. */
  ghost predicate Free(p: Program, m: Vm, g: Globals, depth: nat, sc: Scope, r: SCode, st: State, d: Data) {
    !m.checked && Placed(p, m, g, depth, sc, r, true, st, d)
  }

  /** A finished run of a statement's code reaches every height its meaning says. */
  lemma {:induction false} StmtReach(p: Program, m: Vm, g: Globals, sc: Scope, s: Stmt, fuel: nat, depth: nat,
                                     st: State, d: Data)
    requires g.Ok() && sc.off <= |sc.vars| && Fits(g, sc, s) && Free(p, m, g, depth, sc, StmtCode(g, sc, s), st, d)
    requires Exec(p, fuel, depth, s, st).Done?
    ensures Reaches(m, StmtCode(g, sc, s).code, d, High(p, fuel, depth, s, st))
    decreases fuel, s, 1
  {
    hide Reaches, ExprCode, EvalExpr, EvalArgs, ArgsCode, AssignCode, Agree, Encode, Depth, Compiled, Valueless, Update;
    hide BlockCode, FitsBlock, ExecBlock, ExecScope, HighBlock, HighLoop;
    match s
    case Assign(x, e) => AssignReach(m, sc, x, e, st.store, d);
    case Bare(e) =>
      BareMeans(sc.vars, st, e, d.locals);
      if Valueless(st.store.Keys, e) {
        ReachNow(m, CodeOf(ExprCode(sc.vars, e)), d);
      } else {
        ExprReach(m, sc.vars, e, st.store, d);
      }
    case Call(f, args) =>
      ArgsReach(m, sc, args, g.fns[f].params, st.store, d);
      ReachFirst(m, ArgsCode(sc, args).code, Encode(Invoke(g.fns[f].index)), d, |d.stack| + ArgsNeed(args));
    case If(_, _, _) => IfReach(p, m, g, sc, s, fuel, depth, st, d);
    case While(_, _) => WhileReach(p, m, g, sc, s, fuel, depth, st, d);
  }

  lemma {:induction false} IfReach(p: Program, m: Vm, g: Globals, sc: Scope, s: Stmt, fuel: nat, depth: nat, st: State,
                                   d: Data)
    requires g.Ok() && sc.off <= |sc.vars| && Fits(g, sc, s) && Free(p, m, g, depth, sc, StmtCode(g, sc, s), st, d)
    requires Exec(p, fuel, depth, s, st).Done? && s.If?
    ensures Reaches(m, StmtCode(g, sc, s).code, d, High(p, fuel, depth, s, st))
    decreases fuel, s, 0
  {
    hide *;
    var c, t, f, child, nc, i := IfReady(p, m, g, sc, s, fuel, depth, st, d);
    var b, high := if i != 0 then s.thn else s.els, High(p, fuel, depth, s, st);
    if high == |d.stack| + Depth(s.cond) {
      ExprReach(m, sc.vars, s.cond, st.store, d);
      IfStarts(c, t, f);
      ReachFirst(m, c, IfBytes([], t, f), d, high);
    } else {
      BlockReach(p, m, g, child, b, fuel, depth, st, d);
      if i != 0 {
        ThenReach(m, c, t, f, d, nc, i, high);
      } else {
        ElseReach(m, c, t, f, d, nc, high);
      }
    }
  }

  /** The pieces of a finished `if`, the branch that is taken ready to run. */
  lemma IfReady(p: Program, m: Vm, g: Globals, sc: Scope, s: Stmt, fuel: nat, depth: nat, st: State, d: Data)
    returns (c: seq<byte>, t: seq<byte>, f: seq<byte>, child: Scope, nc: nat, i: int32)
    requires g.Ok() && sc.off <= |sc.vars| && Fits(g, sc, s) && Free(p, m, g, depth, sc, StmtCode(g, sc, s), st, d)
    requires Exec(p, fuel, depth, s, st).Done? && s.If?
    ensures |t| + 3 < 0x1_0000 && |f| < 0x1_0000 && StmtCode(g, sc, s).SCode?
            && StmtCode(g, sc, s).code == IfBytes(c, t, f)
    ensures ExprCode(sc.vars, s.cond).ECode? && c == ExprCode(sc.vars, s.cond).code
    ensures !m.checked && Agree(sc.vars, st.store, d.locals) && EvalExpr(m.fl, st.store, s.cond).Val?
    ensures Fares(m, c, d, nc, Ends(WithTop(d, IntV(i))))
    ensures var b := if i != 0 then s.thn else s.els;
            && child.off <= |child.vars| && FitsBlock(g, child, b) && BlockCode(g, child, b).SCode?
            && BlockCode(g, child, b).code == (if i != 0 then t else f)
            && Free(p, m, g, depth, child, BlockCode(g, child, b), st, d) && ExecBlock(p, fuel, depth, b, st).Done?
            && (var high := High(p, fuel, depth, s, st);
                high == |d.stack| + Depth(s.cond) || high == HighBlock(p, fuel, depth, b, st))
  {
    ExecIf(p, fuel, depth, s, st);
    hide Fares, Agree, World, Encode, ExprCode, EvalExpr, BlockCode, StmtCode, Fits, FitsBlock, ExecBlock;
    hide Depth, Room, Placed, IfBytes, HighBlock, Exec, High;
    var r := StmtCode(g, sc, s);
    PlacedAgrees(p, m, g, depth, sc, r, true, st, d);
    AnyIsEnough(p, m, g, depth, sc, r, true, High(p, fuel, depth, s, st) <= d.cap, st, d);
    var ce, ct, cf, sct, scf := IfParts(p, m, g, sc, s, fuel, depth, st, d);
    var fc;
    nc, fc := ExprRun(m, sc.vars, s.cond, st.store, d);
    i := EvalExpr(m.fl, st.store, s.cond).v.i;
    c, t, f, child := ce.code, ct.code, cf.code, if i != 0 then sct else scf;
    if i != 0 {
      AnyIsEnough(p, m, g, depth, sct, ct, HighBlock(p, fuel, depth, s.thn, st) <= d.cap, true, st, d);
    } else {
      AnyIsEnough(p, m, g, depth, scf, cf, HighBlock(p, fuel, depth, s.els, st) <= d.cap, true, st, d);
    }
  }

  lemma IfStarts(c: seq<byte>, t: seq<byte>, f: seq<byte>)
    requires |t| + 3 < 0x1_0000 && |f| < 0x1_0000
    ensures IfBytes(c, t, f) == c + IfBytes([], t, f)
  {
    hide Encode;
  }

  /** A finished `if`, and the heights it is made of. */
  lemma ExecIf(p: Program, fuel: nat, depth: nat, s: Stmt, st: State)
    requires s.If? && Exec(p, fuel, depth, s, st).Done?
    ensures var v := EvalExpr(p.fl, st.store, s.cond);
            && v.Val? && v.v.IntV?
            && (var b := if v.v.i != 0 then s.thn else s.els;
                && ExecBlock(p, fuel, depth, b, st).Done?
                && (var high := High(p, fuel, depth, s, st);
                    high == |st.pushed| + Depth(s.cond) || high == HighBlock(p, fuel, depth, b, st)))
  {
    hide EvalExpr, ExecBlock, HighBlock, Depth;
  }

  lemma {:induction false} WhileReach(p: Program, m: Vm, g: Globals, sc: Scope, s: Stmt, fuel: nat, depth: nat,
                                      st: State, d: Data)
    requires g.Ok() && sc.off <= |sc.vars| && Fits(g, sc, s) && Free(p, m, g, depth, sc, StmtCode(g, sc, s), st, d)
    requires Exec(p, fuel, depth, s, st).Done? && s.While?
    ensures Reaches(m, StmtCode(g, sc, s).code, d, High(p, fuel, depth, s, st))
    decreases fuel, s, 0
  {
    hide *;
    var high := High(p, fuel, depth, s, st);
    WhileHighs(p, fuel, depth, s, st);
    LoopFacts(p, m, g, sc, s, depth, st, d);
    if high == |d.stack| + Depth(s.cond) {
      LoopConditionReach(p, m, g, sc, s, fuel, depth, st, d);
    } else if high == HighBlock(p, fuel, depth, s.body, st) {
      var c, b, child, nc, i := LoopReady(p, m, g, sc, s, fuel, depth, st, d);
      BlockReach(p, m, g, child, s.body, fuel, depth, st, d);
      BodyReach(m, c, b, d, nc, i, high);
    } else {
      var st1 := ExecScope(p, fuel, depth, s.body, st).st;
      var n, d1 := Around(p, m, g, sc, s, fuel, depth, st, d);
      StillFree(p, m, g, depth, sc, StmtCode(g, sc, s), st1, d1);
      StmtReach(p, m, g, sc, s, fuel - 1, depth, st1, d1);
      RoundReach(m, StmtCode(g, sc, s).code, d, n, d1, high);
    }
  }

  lemma LoopFacts(p: Program, m: Vm, g: Globals, sc: Scope, s: Stmt, depth: nat, st: State, d: Data)
    requires g.Ok() && sc.off <= |sc.vars| && Free(p, m, g, depth, sc, StmtCode(g, sc, s), st, d)
    ensures g.Ok() && sc.off <= |sc.vars| && StmtCode(g, sc, s).SCode? && !m.checked && m.fl == p.fl
    ensures Placed(p, m, g, depth, sc, StmtCode(g, sc, s), true, st, d)
    ensures Agree(sc.vars, st.store, d.locals) && d.stack == st.pushed
  {
    hide Agree, StmtCode;
  }

  lemma StillFree(p: Program, m: Vm, g: Globals, depth: nat, sc: Scope, r: SCode, st: State, d: Data)
    requires !m.checked && Placed(p, m, g, depth, sc, r, true, st, d)
    ensures Free(p, m, g, depth, sc, r, st, d)
  {
    hide Placed;
  }

  /** The condition of a loop, however the loop goes on. */
  lemma LoopConditionReach(p: Program, m: Vm, g: Globals, sc: Scope, s: Stmt, fuel: nat, depth: nat, st: State, d: Data)
    requires g.Ok() && sc.off <= |sc.vars| && Fits(g, sc, s) && Free(p, m, g, depth, sc, StmtCode(g, sc, s), st, d)
    requires s.While? && EvalExpr(p.fl, st.store, s.cond).Val?
    ensures Reaches(m, StmtCode(g, sc, s).code, d, |d.stack| + Depth(s.cond))
  {
    hide *;
    LoopFacts(p, m, g, sc, s, depth, st, d);
    var rest := LoopRest(g, sc, s);
    ExprReach(m, sc.vars, s.cond, st.store, d);
    ReachFirst(m, ExprCode(sc.vars, s.cond).code, rest, d, |d.stack| + Depth(s.cond));
  }

  lemma LoopRest(g: Globals, sc: Scope, s: Stmt) returns (rest: seq<byte>)
    requires g.Ok() && sc.off <= |sc.vars| && s.While? && StmtCode(g, sc, s).SCode? && Fits(g, sc, s)
    ensures ExprCode(sc.vars, s.cond).ECode? && StmtCode(g, sc, s).code == ExprCode(sc.vars, s.cond).code + rest
  {
    hide ExprCode, Encode, StmtCode, BlockCode, Fits, FitsBlock;
    var c, cb, child := WhileLayout(g, sc, s);
    rest := Encode(Jez(|cb.code| + 3)) + (cb.code + Encode(RJmp(|c.code| + |cb.code| + 6)));
  }

  /** The pieces of an entered loop, the body ready to run. */
  lemma LoopReady(p: Program, m: Vm, g: Globals, sc: Scope, s: Stmt, fuel: nat, depth: nat, st: State, d: Data)
    returns (c: seq<byte>, b: seq<byte>, child: Scope, nc: nat, i: int32)
    requires g.Ok() && sc.off <= |sc.vars| && Fits(g, sc, s) && Free(p, m, g, depth, sc, StmtCode(g, sc, s), st, d)
    requires s.While? && EntersLoop(p, s, st)
    ensures |c| + |b| + 6 < 0x1_0000 && StmtCode(g, sc, s).SCode? && StmtCode(g, sc, s).code == WhileBytes(c, b)
    ensures Fares(m, c, d, nc, Ends(WithTop(d, IntV(i)))) && i != 0
    ensures child.off <= |child.vars| && FitsBlock(g, child, s.body)
    ensures var r := BlockCode(g, child, s.body); r.SCode? && r.code == b && Free(p, m, g, depth, child, r, st, d)
  {
    LoopFacts(p, m, g, sc, s, depth, st, d);
    hide Fares, Agree, World, Encode, ExprCode, EvalExpr, BlockCode, StmtCode, Fits, FitsBlock;
    hide Depth, Room, Placed, WhileBytes, HighBlock, High;
    AnyIsEnough(p, m, g, depth, sc, StmtCode(g, sc, s), true, High(p, fuel, depth, s, st) <= d.cap, st, d);
    var ce, cb;
    ce, cb, child := WhileParts(p, m, g, sc, s, fuel, depth, st, d);
    var fc;
    nc, fc := ExprRun(m, sc.vars, s.cond, st.store, d);
    c, b, i := ce.code, cb.code, EvalExpr(m.fl, st.store, s.cond).v.i;
    AnyIsEnough(p, m, g, depth, child, cb, HighBlock(p, fuel, depth, s.body, st) <= d.cap, true, st, d);
  }

  /** A finished loop, and the heights it is made of. */
  lemma WhileHighs(p: Program, fuel: nat, depth: nat, s: Stmt, st: State)
    requires s.While? && Exec(p, fuel, depth, s, st).Done?
    ensures EvalExpr(p.fl, st.store, s.cond).Val?
    ensures var (high, o) := (High(p, fuel, depth, s, st), ExecScope(p, fuel, depth, s.body, st));
            || high == |st.pushed| + Depth(s.cond)
            || (&& Iterates(p, fuel, depth, s, st, 1) && EntersLoop(p, s, st) && o.Done? && fuel > 0
                && ExecBlock(p, fuel, depth, s.body, st).Done? && Exec(p, fuel - 1, depth, s, o.st).Done?
                && (high == HighBlock(p, fuel, depth, s.body, st) || high == High(p, fuel - 1, depth, s, o.st)))
  {
    ExecWhile(p, fuel, depth, s, st);
    var o := ExecScope(p, fuel, depth, s.body, st);
    if o.Done? { assert ExecBlock(p, fuel, depth, s.body, st).Done? && Iterates(p, fuel, depth, s, o.st, 0); }
    hide EvalExpr, ExecBlock, ExecScope, HighBlock, Depth;
  }

  lemma {:induction false} BlockReach(p: Program, m: Vm, g: Globals, sc: Scope, b: Block, fuel: nat, depth: nat,
                                      st: State, d: Data)
    requires g.Ok() && sc.off <= |sc.vars| && FitsBlock(g, sc, b)
             && Free(p, m, g, depth, sc, BlockCode(g, sc, b), st, d)
    requires ExecBlock(p, fuel, depth, b, st).Done?
    ensures Reaches(m, BlockCode(g, sc, b).code, d, HighBlock(p, fuel, depth, b, st))
    decreases fuel, b, 0
  {
    hide Reaches, Exec, Agree, World, StmtCode, Fits, BlockCode, FitsBlock, Fares, High;
    var r0 := BlockCode(g, sc, b);
    PlacedAgrees(p, m, g, depth, sc, r0, true, st, d);
    if b.End? {
      ReachNow(m, r0.code, d);
      return;
    }
    AnyIsEnough(p, m, g, depth, sc, r0, true, HighBlock(p, fuel, depth, b, st) <= d.cap, st, d);
    var r, r2 := BlockParts(p, m, g, sc, b, fuel, depth, st, d);
    var n, fate := StmtRun(p, m, g, sc, b.head, fuel, depth, st, d);
    var st1 := Exec(p, fuel, depth, b.head, st).st;
    Onward(p, m, g, sc, r, r2, b, fuel, depth, st, d, fate.d);
    if HighBlock(p, fuel, depth, b, st) == High(p, fuel, depth, b.head, st) {
      AnyIsEnough(p, m, g, depth, sc, r, High(p, fuel, depth, b.head, st) <= d.cap, true, st, d);
      StmtReach(p, m, g, sc, b.head, fuel, depth, st, d);
      ReachFirst(m, r.code, r2.code, d, HighBlock(p, fuel, depth, b, st));
    } else {
      AnyIsEnough(p, m, g, depth, r.sc, r2, HighBlock(p, fuel, depth, b.tail, st1) <= fate.d.cap, true, st1, fate.d);
      BlockReach(p, m, g, r.sc, b.tail, fuel, depth, st1, fate.d);
      ReachSecond(m, r.code, r2.code, d, n, fate.d, HighBlock(p, fuel, depth, b, st));
    }
  }

  lemma TooHigh(m: Vm, code: seq<byte>, d: Data, height: nat)
    requires m.checked && Reaches(Unchecked(m), code, d, height) && |d.stack| <= d.cap < height
    ensures exists k: nat :: Takes(m, Mid(code, 0, d), k, Trap(Memory))
  {
    hide Goes, Takes;
    var n: nat, pc, d1 :| Goes(Unchecked(m), code, 0, d, n, Ends(d1), pc) && d1.cap == d.cap && |d1.stack| >= height;
    TooMany(m, code, d, n, d1, pc);
  }

  // ---- the exact size ----

  /** Every program that finishes, with its loops, branches, calls and leftovers: the
      machine has overrun the operand memory of the frame if and only if the memory is
      smaller than the height the program's meaning reaches. */
  lemma OverrunsExactly(p: Program, m: Vm, g: Globals, depth: nat, sc: Scope, b: Block, fuel: nat, st: State, d: Data)
    requires m.checked && World(p, m, g, depth) && Fitted(p, Unchecked(m), g, depth, sc, b, true, st, d)
    requires ExecBlock(p, fuel, depth, b, st).Done? && |d.stack| <= d.cap
    ensures (exists n: nat :: Takes(m, Mid(Code(g, sc, b), 0, d), n, Trap(Memory)))
       <==> HighBlock(p, fuel, depth, b, st) > d.cap
  {
    hide Reaches, Takes, ExecBlock, BlockCode, FitsBlock, HighBlock, World, Agree;
    var code := Code(g, sc, b);
    if HighBlock(p, fuel, depth, b, st) <= d.cap {
      var n, r := RunToMachine(p, m, g, depth, sc, b, st, d, fuel);
      forall k: nat ensures !Takes(m, Mid(code, 0, d), k, Trap(Memory)) {
        if Takes(m, Mid(code, 0, d), k, Trap(Memory)) {
          FinalUnique(m, Mid(code, 0, d), n, r, k, Trap(Memory));
        }
      }
    } else {
      BlockReach(p, Unchecked(m), g, sc, b, fuel, depth, st, d);
      TooHigh(m, code, d, HighBlock(p, fuel, depth, b, st));
    }
  }

  /** A straight-line statement leaves exactly what its text says. */
  lemma LeavesExactly(p: Program, fuel: nat, depth: nat, s: Stmt, st: State)
    requires Exec(p, fuel, depth, s, st).Done? && !s.If? && !s.While?
    ensures var st1 := Exec(p, fuel, depth, s, st).st;
            && StmtNeed(st.store.Keys, s).Bounded? && st1.store.Keys == Names(st.store.Keys, s)
            && |st1.pushed| == |st.pushed| + StmtNeed(st.store.Keys, s).left
            && High(p, fuel, depth, s, st) == |st.pushed| + StmtNeed(st.store.Keys, s).most
  {
    ExecLeaves(p, fuel, depth, s, st);
    LeavesAtLeast(p, fuel, depth, s, st);
    hide Exec, Depth, ArgsNeed, Valueless, Names;
  }

  lemma {:induction false} StraightHigh(p: Program, fuel: nat, depth: nat, b: Block, st: State)
    requires Straight(b) && ExecBlock(p, fuel, depth, b, st).Done?
    ensures BlockNeed(st.store.Keys, b).Bounded?
    ensures HighBlock(p, fuel, depth, b, st) == |st.pushed| + BlockNeed(st.store.Keys, b).most
    decreases b
  {
    hide Exec, High, StmtNeed, Names;
    if b.Then? {
      LeavesExactly(p, fuel, depth, b.head, st);
      StraightHigh(p, fuel, depth, b.tail, Exec(p, fuel, depth, b.head, st).st);
    }
  }

  /** For straight-line code, calls and bare expressions included, that is what the
      program's text needs. */
  lemma StraightExact(p: Program, m: Vm, g: Globals, depth: nat, sc: Scope, b: Block, fuel: nat, st: State, d: Data)
    requires m.checked && World(p, m, g, depth) && Fitted(p, Unchecked(m), g, depth, sc, b, true, st, d)
    requires Straight(b) && ExecBlock(p, fuel, depth, b, st).Done? && |d.stack| <= d.cap
    ensures (exists n: nat :: Takes(m, Mid(Code(g, sc, b), 0, d), n, Trap(Memory)))
       <==> !Suffices(BlockNeed(st.store.Keys, b), |d.stack|, d.cap)
  {
    OverrunsExactly(p, m, g, depth, sc, b, fuel, st, d);
    StraightHigh(p, fuel, depth, b, st);
    hide Takes, ExecBlock, BlockCode, FitsBlock, BlockNeed, HighBlock, World, Agree;
  }

  /** A loop whose body leaves nothing, once entered, also if it never ends: it overruns
      operand memory if and only if that is smaller than what was left over before the
      loop together with what condition or body need - though the compiler records the
      body as if it were entered with nothing left over. */
  lemma LoopExact(p: Program, m: Vm, g: Globals, depth: nat, sc: Scope, s: Stmt, fuel: nat, st: State, d: Data)
    requires m.checked && World(p, m, g, depth)
    requires g.Ok() && sc.off <= |sc.vars| && Fits(g, sc, s) && s.While? && Straight(s.body)
    requires Placed(p, Unchecked(m), g, depth, sc, StmtCode(g, sc, s), true, st, d)
    requires Iterates(p, fuel, depth, s, st, 1) && StmtNeed(st.store.Keys, s).Bounded? && |d.stack| <= d.cap
    ensures (exists n: nat :: Takes(m, Mid(StmtCode(g, sc, s).code, 0, d), n, Trap(Memory)))
       <==> !Suffices(StmtNeed(st.store.Keys, s), |d.stack|, d.cap)
  {
    hide Reaches, Takes, StmtCode, Fits, StmtNeed, World, Agree, Iterates;
    LoopReach(p, Unchecked(m), g, depth, sc, s, fuel, st, d);
    var need := StmtNeed(st.store.Keys, s);
    if Suffices(need, |d.stack|, d.cap) {
      OnlyStatement(g, sc, s, st.store.Keys);
      NeverOverruns(p, m, g, depth, sc, Then(s, End), st, d);
      assert Code(g, sc, Then(s, End)) == StmtCode(g, sc, s).code;
    } else {
      TooHigh(m, StmtCode(g, sc, s).code, d, |d.stack| + need.most);
    }
  }

  lemma LoopReach(p: Program, m: Vm, g: Globals, depth: nat, sc: Scope, s: Stmt, fuel: nat, st: State, d: Data)
    requires g.Ok() && sc.off <= |sc.vars| && Fits(g, sc, s) && s.While? && Straight(s.body)
    requires Free(p, m, g, depth, sc, StmtCode(g, sc, s), st, d)
    requires Iterates(p, fuel, depth, s, st, 1) && StmtNeed(st.store.Keys, s).Bounded?
    ensures Reaches(m, StmtCode(g, sc, s).code, d, |d.stack| + StmtNeed(st.store.Keys, s).most)
  {
    hide *;
    var most := StmtNeed(st.store.Keys, s).most;
    LoopNeed(st.store.Keys, s);
    LoopFacts(p, m, g, sc, s, depth, st, d);
    EnteredOnce(p, fuel, depth, s, st);
    if most == Depth(s.cond) {
      LoopConditionReach(p, m, g, sc, s, fuel, depth, st, d);
    } else {
      StraightHigh(p, fuel, depth, s.body, st);
      var c, b, child, nc, i := LoopReady(p, m, g, sc, s, fuel, depth, st, d);
      BlockReach(p, m, g, child, s.body, fuel, depth, st, d);
      BodyReach(m, c, b, d, nc, i, |d.stack| + most);
    }
  }

  lemma EnteredOnce(p: Program, fuel: nat, depth: nat, s: Stmt, st: State)
    requires s.While? && Iterates(p, fuel, depth, s, st, 1)
    ensures EntersLoop(p, s, st) && EvalExpr(p.fl, st.store, s.cond).Val? && ExecBlock(p, fuel, depth, s.body, st).Done?
  {
    hide EvalExpr, ExecBlock;
  }

  lemma LoopNeed(names: set<string>, s: Stmt)
    requires s.While? && StmtNeed(names, s).Bounded?
    ensures BlockNeed(names, s.body).Bounded?
    ensures StmtNeed(names, s).most == Depth(s.cond) || StmtNeed(names, s).most == BlockNeed(names, s.body).most
  {
    hide Depth;
  }

  lemma OnlyStatement(g: Globals, sc: Scope, s: Stmt, names: set<string>)
    requires g.Ok() && sc.off <= |sc.vars| && StmtCode(g, sc, s).SCode? && Fits(g, sc, s)
    requires s.While? && StmtNeed(names, s).Bounded?
    ensures BlockCode(g, sc, Then(s, End)) == StmtCode(g, sc, s) && FitsBlock(g, sc, Then(s, End))
    ensures BlockNeed(names, Then(s, End)) == StmtNeed(names, s)
  {
    hide Fits, Depth;
    var r := StmtCode(g, sc, s);
    assert r.code + [] == r.code;
    assert BlockCode(g, r.sc, End) == SCode([], r.sc);
  }
}
