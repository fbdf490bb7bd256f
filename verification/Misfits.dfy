/** Programs that the compiler accepts and whose code does something else: one beyond
    each condition of `Fits`, and two about which function a call runs. */
module Misfits {
  import opened Words
  import opened Ast
  import opened Language
  import opened Bytecode
  import opened Machine
  import opened Runs
  import opened Codegen
  import opened Needs
  import opened ExprCorrect
  import opened StmtCorrect
  import opened Limits
  import opened Linking

  // ---- a `then` part that is jumped over by nothing ----

  const SET: Stmt := Assign("x", IntLit(1))
  const KEEP: Stmt := Assign("x", Ident("x", Unknown))

  function Repeat(n: nat, s: Stmt, rest: Block): Block {
    if n == 0 then rest else Then(s, Repeat(n - 1, s, rest))
  }

  /** x = 1 (k times); x = x; x = x */
  function Long(k: nat): Block { Repeat(k, SET, Repeat(2, KEEP, End)) }

  predicate OneInt(sc: Scope) { sc.vars == [Var("x", TInt)] && sc.off <= 1 && sc.vmax == 1 }

  /** x = 1 is seven bytes, x = x four. */
  function StepBytes(s: Stmt): seq<byte> {
    if s == SET then [ICONST, 0, 0, 0, 1, ISAVE, 0] else [ILOAD, 0, ISAVE, 0]
  }

  function RepeatBytes(n: nat, s: Stmt): seq<byte> { if n == 0 then [] else StepBytes(s) + RepeatBytes(n - 1, s) }

  lemma {:induction false} RepeatWidth(n: nat, s: Stmt)
    ensures |RepeatBytes(n, s)| == n * (if s == SET then 7 else 4)
  {
    if n > 0 { RepeatWidth(n - 1, s); }
  }

  lemma StepCode(sc: Scope, s: Stmt)
    requires OneInt(sc) && (s == SET || s == KEEP)
    ensures var r := AssignCode(sc, s.target, s.rhs); r.SCode? && OneInt(r.sc) && r.code == StepBytes(s)
  {
    assert Lookup(sc.vars, "x") == Some(0);
    assert Encode(IConst(1)) == [ICONST, 0, 0, 0, 1];
    hide Lookup;
  }

  /** In a scope of one int `b` compiles to `bytes` and fits its jumps. */
  ghost predicate Gives(g: Globals, sc: Scope, b: Block, bytes: seq<byte>)
    requires g.Ok() && OneInt(sc)
  {
    var r := BlockCode(g, sc, b);
    r.SCode? && OneInt(r.sc) && r.code == bytes && FitsBlock(g, sc, b)
  }

  lemma StepThen(g: Globals, sc: Scope, s: Stmt, tail: Block, bytes: seq<byte>) returns (sc1: Scope)
    requires g.Ok() && OneInt(sc) && (s == SET || s == KEEP)
    ensures OneInt(sc1)
    ensures Gives(g, sc1, tail, bytes) ==> Gives(g, sc, Then(s, tail), StepBytes(s) + bytes)
  {
    StepCode(sc, s);
    sc1 := AssignCode(sc, s.target, s.rhs).sc;
    assert StmtCode(g, sc, s) == AssignCode(sc, s.target, s.rhs) && Fits(g, sc, s);
    hide AssignCode, StepBytes, OneInt, StmtCode, Fits;
    if Gives(g, sc1, tail, bytes) {
      var (a, r) := (BlockCode(g, sc, Then(s, tail)), BlockCode(g, sc1, tail));
      assert a == SCode(StepBytes(s) + bytes, r.sc);
    }
  }

  lemma {:induction false} RepeatCode(g: Globals, sc: Scope, n: nat, s: Stmt, rest: Block, bytes: seq<byte>)
    requires g.Ok() && OneInt(sc) && (s == SET || s == KEEP)
    requires forall sc1 :: OneInt(sc1) ==> Gives(g, sc1, rest, bytes)
    ensures Gives(g, sc, Repeat(n, s, rest), RepeatBytes(n, s) + bytes)
    decreases n
  {
    hide StepBytes, OneInt, Gives;
    if n > 0 {
      var sc1 := StepThen(g, sc, s, Repeat(n - 1, s, rest), RepeatBytes(n - 1, s) + bytes);
      RepeatCode(g, sc1, n - 1, s, rest, bytes);
      assert StepBytes(s) + (RepeatBytes(n - 1, s) + bytes) == RepeatBytes(n, s) + bytes;
    } else {
      assert [] + bytes == bytes;
    }
  }

  function LongBytes(k: nat): seq<byte> { RepeatBytes(k, SET) + RepeatBytes(2, KEEP) }

  lemma LongCode(g: Globals, sc: Scope, k: nat)
    requires g.Ok() && OneInt(sc)
    ensures var r := BlockCode(g, sc, Long(k));
            r.SCode? && OneInt(r.sc) && r.code == LongBytes(k) && |r.code| == 7 * k + 8 && FitsBlock(g, sc, Long(k))
  {
    hide AssignCode, StmtCode, RepeatBytes;
    forall sc1 | OneInt(sc1) ensures Gives(g, sc1, Repeat(2, KEEP, End), RepeatBytes(2, KEEP)) {
      RepeatCode(g, sc1, 2, KEEP, End, []);
      assert RepeatBytes(2, KEEP) + [] == RepeatBytes(2, KEEP);
    }
    RepeatCode(g, sc, k, SET, Repeat(2, KEEP, End), RepeatBytes(2, KEEP));
    RepeatWidth(k, SET);
    RepeatWidth(2, KEEP);
  }

  function ShowX(i: int32): State { State(map["x" := IntV(i)], []) }

  lemma StepExec(p: Program, fuel: nat, depth: nat, i: int32)
    ensures Exec(p, fuel, depth, SET, ShowX(i)) == Done(ShowX(1))
    ensures Exec(p, fuel, depth, KEEP, ShowX(i)) == Done(ShowX(i))
  {
  }

  lemma {:induction false} RepeatExec(p: Program, fuel: nat, depth: nat, n: nat, s: Stmt, rest: Block, i: int32)
    requires s == SET || s == KEEP
    ensures ExecBlock(p, fuel, depth, Repeat(n, s, rest), ShowX(i))
         == ExecBlock(p, fuel, depth, rest, ShowX(if s == SET && n > 0 then 1 else i))
    decreases n
  {
    hide Exec;
    if n > 0 {
      StepExec(p, fuel, depth, i);
      RepeatExec(p, fuel, depth, n - 1, s, rest, if s == SET then 1 else i);
    }
  }

  lemma LongSource(p: Program, depth: nat, k: nat)
    requires k > 0
    ensures ExecBlock(p, 0, depth, Long(k), ShowX(0)) == Done(ShowX(1))
  {
    hide Exec, Repeat;
    RepeatExec(p, 0, depth, k, SET, Repeat(2, KEEP, End), 0);
    RepeatExec(p, 0, depth, 2, KEEP, End, 1);
  }

  lemma LongPlaced(p: Program, m: Vm, g: Globals, depth: nat, sc: Scope, cap: nat, k: nat)
    requires World(p, m, g, depth) && !m.checked && OneInt(sc) && k > 0
    ensures FitsBlock(g, sc, Long(k))
    ensures Placed(p, m, g, depth, sc, BlockCode(g, sc, Long(k)), HighBlock(p, 0, depth, Long(k), ShowX(0)) <= cap,
                   ShowX(0), Data([], [Some(IntV(0))], cap))
  {
    assert g.Ok();
    hide BlockCode, FitsBlock, World, HighBlock, Repeat, Long, Agree;
    LongCode(g, sc, k);
    OneIntAgrees();
  }

  lemma OneIntAgrees()
    ensures Agree([Var("x", TInt)], ShowX(0).store, [Some(IntV(0))])
  {
    assert Lookup([Var("x", TInt)], "x") == Some(0);
    assert ShowX(0).store["x"] == IntV(0);
  }

  /** The block alone does what it says. */
  lemma LongRun(p: Program, m: Vm, g: Globals, depth: nat, sc: Scope, cap: nat, k: nat) returns (n: nat)
    requires World(p, m, g, depth) && !m.checked && OneInt(sc) && k > 0
    ensures BlockCode(g, sc, Long(k)).SCode?
    ensures Fares(m, BlockCode(g, sc, Long(k)).code, Data([], [Some(IntV(0))], cap), n,
                  Ends(Data([], [Some(IntV(1))], cap)))
  {
    assert g.Ok();
    hide Fares, BlockCode, FitsBlock, World, ExecBlock, HighBlock, Repeat, Long;
    var d := Data([], [Some(IntV(0))], cap);
    LongCode(g, sc, k);
    LongPlaced(p, m, g, depth, sc, cap, k);
    LongSource(p, depth, k);
    hide Placed;
    var fate;
    n, fate := BlockRun(p, m, g, sc, Long(k), 0, depth, ShowX(0), d);
    assert fate.d.locals == [Some(IntV(1))];
  }

  /** `if 0 { x = 1 (35 times); x = x; x = x }` with 0 in x: the program leaves 0
      there, its code leaves 1. */
  lemma LongIfGoesWrong(p: Program, m: Vm, g: Globals, depth: nat, cap: nat, k: nat) returns (n: nat)
    requires k == 35
    requires World(p, m, g, depth) && g.reach == AS_WRITTEN && !m.checked
    ensures var s := If(IntLit(0), Long(k), End);
            var r := StmtCode(g, Scope([Var("x", TInt)], 0, 0x40, 0, 1, 0), s);
            && Exec(p, 0, depth, s, ShowX(0)) == Done(ShowX(0))
            && r.SCode? && Fares(m, r.code, Data([], [Some(IntV(0))], cap), n, Ends(Data([], [Some(IntV(1))], cap)))
  {
    assert g.Ok();
    hide *;
    var sc := Scope([Var("x", TInt)], 0, 0x40, 0, 1, 0);
    var d := Data([], [Some(IntV(0))], cap);
    LongIfSource(p, depth, k);
    ConstRun(m, d, 0);
    var child, ct := LongIfCode(g, sc, k);
    var nt := LongRun(p, m, g, depth, child, cap, k);
    n := LongThenRunsAnyway(m, g, Encode(IConst(0)), ct, d, 1, nt, Data([], [Some(IntV(1))], cap));
  }

  lemma LongIfSource(p: Program, depth: nat, k: nat)
    ensures Exec(p, 0, depth, If(IntLit(0), Long(k), End), ShowX(0)) == Done(ShowX(0))
  {
    hide Long;
    assert Leave(ShowX(0).store, ShowX(0).store) == ShowX(0).store;
  }

  lemma LongIfCode(g: Globals, sc: Scope, k: nat) returns (child: Scope, ct: seq<byte>)
    requires g.Ok() && g.reach == AS_WRITTEN && k == 35
    requires sc == Scope([Var("x", TInt)], 0, 0x40, 0, 1, 0)
    ensures OneInt(child) && BlockCode(g, child, Long(k)).SCode? && BlockCode(g, child, Long(k)).code == ct
    ensures |ct| + 3 == 0x100
    ensures var r := StmtCode(g, sc, If(IntLit(0), Long(k), End));
            r.SCode? && r.code == Encode(IConst(0)) + IfTail(g, ct, [])
  {
    hide Long, Encode, IfTail, LongBytes;
    var c := ExprCode(sc.vars, IntLit(0));
    child := Child(Pushed(sc, c, IntLit(0)), 4);
    LongCode(g, child, k);
    ct := BlockCode(g, child, Long(k)).code;
  }

  // ---- an `else` part without an exit jump before it ----

  lemma ConstRun(m: Vm, d: Data, i: int32)
    requires !m.checked
    ensures Fares(m, Encode(IConst(i)), d, 1, Ends(WithTop(d, IntV(i))))
  {
    hide Fares, Encode;
    PushRun(m, IConst(i), d, IntV(i));
  }

  lemma LongElseCode(g: Globals, sc: Scope, k: nat) returns (child: Scope, cf: seq<byte>)
    requires g.Ok() && 7 * k + 8 >= 0x1_0000 && sc == Scope([Var("x", TInt)], 0, 0x40, 0, 1, 0)
    ensures OneInt(child) && BlockCode(g, child, Long(k)).SCode? && BlockCode(g, child, Long(k)).code == cf
    ensures |cf| >= 0x1_0000
    ensures var r := StmtCode(g, sc, If(IntLit(1), End, Long(k)));
            r.SCode? && r.code == Encode(IConst(1)) + IfTail(g, [], cf)
  {
    hide Long, Encode, IfTail, LongBytes;
    var sc1 := Pushed(sc, ExprCode(sc.vars, IntLit(1)), IntLit(1));
    child := Child(Back(sc1, Child(sc1, sc1.ssize)), sc1.ssize);
    LongCode(g, child, k);
    cf := BlockCode(g, child, Long(k)).code;
    assert BlockCode(g, Child(sc1, sc1.ssize), End) == SCode([], Child(sc1, sc1.ssize));
  }

  /** `if 1 { } else { x = 1 (k times); x = x; x = x }` with 0 in x, for an `else` part of
      0x1_0000 bytes or more: the program leaves 0 there, its code leaves 1. */
  lemma LongElseGoesWrong(p: Program, m: Vm, g: Globals, depth: nat, cap: nat, k: nat) returns (n: nat)
    requires 7 * k + 8 >= 0x1_0000
    requires World(p, m, g, depth) && !m.checked
    ensures var s := If(IntLit(1), End, Long(k));
            var r := StmtCode(g, Scope([Var("x", TInt)], 0, 0x40, 0, 1, 0), s);
            && Exec(p, 0, depth, s, ShowX(0)) == Done(ShowX(0))
            && r.SCode? && Fares(m, r.code, Data([], [Some(IntV(0))], cap), n, Ends(Data([], [Some(IntV(1))], cap)))
  {
    assert g.Ok();
    hide *;
    var sc := Scope([Var("x", TInt)], 0, 0x40, 0, 1, 0);
    var d := Data([], [Some(IntV(0))], cap);
    NothingSource(p, depth, If(IntLit(1), End, Long(k)));
    ConstRun(m, d, 1);
    var child, cf := LongElseCode(g, sc, k);
    var nf := LongRun(p, m, g, depth, child, cap, k);
    n := ElseRunsToo(m, g, Encode(IConst(1)), cf, d, 1, nf, Data([], [Some(IntV(1))], cap));
  }

  lemma NothingSource(p: Program, depth: nat, s: Stmt)
    requires (s.If? && s.cond == IntLit(1) && s.thn == End) || (s.While? && s.cond == IntLit(0))
    ensures Exec(p, 0, depth, s, ShowX(0)) == Done(ShowX(0))
  {
    assert Leave(ShowX(0).store, ShowX(0).store) == ShowX(0).store;
  }

  lemma ElseRunsToo(m: Vm, g: Globals, c: seq<byte>, f: seq<byte>, d: Data, nc: nat, nf: nat, d1: Data) returns (n: nat)
    requires g.Ok() && |f| >= 0x1_0000
    requires Fares(m, c, d, nc, Ends(WithTop(d, IntV(1)))) && Fares(m, f, d, nf, Ends(d1))
    ensures Fares(m, c + IfTail(g, [], f), d, n, Ends(d1))
  {
    hide *;
    EmptyRun(m, d);
    NoThen(f);
    n := IfExitExact(m, g, c, [], f, d, nc, 1, 0, d);
    RunsOver(m, c + IfTail(g, [], f), f, d, n, nf, d1);
    n := n + nf;
  }

  /** A run that gets to the last piece of the code goes on to its end. */
  lemma RunsOver(m: Vm, code: seq<byte>, f: seq<byte>, d: Data, n: nat, nf: nat, d1: Data)
    requires |f| <= |code| && code[|code| - |f|..] == f
    requires Goes(m, code, 0, d, n, Ends(d), |code| - |f|) && Fares(m, f, d, nf, Ends(d1))
    ensures Fares(m, code, d, n + nf, Ends(d1))
  {
    hide Goes;
    InsideAt(m, code, |code| - |f|, f, d, nf, Ends(d1));
    Join(m, code, 0, d, n, d, |code| - |f|, nf, Ends(d1), |code|);
  }

  lemma NoThen(f: seq<byte>)
    requires |f| >= 0x1_0000
    ensures WithExit([], f) == []
  {
  }

  // ---- a loop whose jumps miss ----

  lemma LongLoopCode(g: Globals, sc: Scope, k: nat) returns (child: Scope)
    requires g.Ok() && k == 35 && sc == Scope([Var("x", TInt)], 0, 0x40, 0, 1, 0)
    ensures OneInt(child) && BlockCode(g, child, Long(k)).SCode? && BlockCode(g, child, Long(k)).code == LongBytes(k)
    ensures |LongBytes(k)| == 253
    ensures var (r, c) := (StmtCode(g, sc, While(IntLit(0), Long(k))), Encode(IConst(0)));
            r.SCode? && r.code == c + WhileTail(g, c, LongBytes(k))
  {
    hide Long, Encode, WhileTail, LongBytes;
    child := Child(Pushed(sc, ExprCode(sc.vars, IntLit(0)), IntLit(0)), 0);
    LongCode(g, child, k);
  }

  /** The byte five before the end of the body is an operand. */
  lemma OperandByte(k: nat)
    ensures |LongBytes(k)| == 7 * k + 8 && LongBytes(k)[7 * k + 3] == 0
  {
    RepeatWidth(k, SET);
    RepeatWidth(2, KEEP);
    assert RepeatBytes(2, KEEP)[3] == 0;
    hide RepeatBytes;
  }

  /** `while 0 { x = 1 (35 times); x = x; x = x }` with 0 in x: the program leaves it there.
      Its code enters the body, sets x to 1, jumps back into the middle of an instruction
      and takes that instruction's operand for an opcode. */
  lemma LongWhileGoesWrong(p: Program, m: Vm, g: Globals, depth: nat, cap: nat, k: nat) returns (n: nat)
    requires k == 35
    requires World(p, m, g, depth) && g.reach == AS_WRITTEN && !m.checked
    ensures var s := While(IntLit(0), Long(k));
            var r := StmtCode(g, Scope([Var("x", TInt)], 0, 0x40, 0, 1, 0), s);
            && Exec(p, 0, depth, s, ShowX(0)) == Done(ShowX(0))
            && r.SCode? && Fares(m, r.code, Data([], [Some(IntV(0))], cap), n, Dies(Panic))
  {
    assert g.Ok();
    hide *;
    var sc := Scope([Var("x", TInt)], 0, 0x40, 0, 1, 0);
    var d := Data([], [Some(IntV(0))], cap);
    NothingSource(p, depth, While(IntLit(0), Long(k)));
    ConstRun(m, d, 0);
    var child := LongLoopCode(g, sc, k);
    var nb := LongRun(p, m, g, depth, child, cap, k);
    OperandByte(k);
    ZeroWidth();
    n := JumpsMiss(m, g, Encode(IConst(0)), LongBytes(k), d, 1, nb, Data([], [Some(IntV(1))], cap));
  }

  lemma ZeroWidth()
    ensures |Encode(IConst(0))| == 5 && AS_WRITTEN == 0x100
  {
  }

  lemma JumpsMiss(m: Vm, g: Globals, c: seq<byte>, b: seq<byte>, d: Data, nc: nat, nb: nat, d1: Data) returns (n: nat)
    requires g.Ok() && g.reach == 0x100 && |c| == 5 && |b| == 253 && b[248] == 0
    requires Fares(m, c, d, nc, Ends(WithTop(d, IntV(0)))) && Fares(m, b, d, nb, Ends(d1))
    ensures Fares(m, c + WhileTail(g, c, b), d, n, Dies(Panic))
  {
    hide Goes, Encode, WhileTail;
    var code := c + WhileTail(g, c, b);
    WhileShape(g, c, b);
    Slices(c, Encode(Jez(Short(g, |b| + 3))), b, Encode(RJmp(Short(g, |c| + |b| + 6))));
    WhileExitExact(m, g, c, b, d, nc);
    InsideAt(m, code, 8, b, d, nb, Ends(d1));
    Join(m, code, 0, d, nc + 1, d, 8, nb, Ends(d1), 261);
    WhileBackExact(m, g, c, b, d1);
    Join(m, code, 0, d, nc + 1 + nb, d1, 261, 1, Ends(d1), 0x100);
    assert code[8..261][248] == code[0x100];
    NoOpcode(m, code, 0x100, d1);
    Join(m, code, 0, d, nc + 1 + nb + 1, d1, 0x100, 1, Dies(Panic), |code|);
    n := nc + 1 + nb + 1 + 1;
  }

  lemma NoOpcode(m: Vm, code: seq<byte>, pc: nat, d: Data)
    requires pc < |code| && code[pc] == 0
    ensures Goes(m, code, pc, d, 1, Dies(Panic), |code|)
  {
    assert Encode(Unhandled(0)) == [0] && code[pc..pc + 1] == [0];
    hide Goes, Encode;
    SingleAt(m, code, pc, Unhandled(0), d);
  }

  // ---- an argument of the wrong type ----

  /** `func f(float a) { y = a }` */
  const TAKES_FLOAT: FuncDecl := FuncDecl([Param("a", TFlt)], Then(Assign("y", Ident("a", Unknown)), End))

  lemma TakesFloatCode(g: Globals)
    requires g.Ok()
    ensures ParamTypes(TAKES_FLOAT) == [TFlt]
    ensures var r := BlockCode(g, FuncScope(TAKES_FLOAT.params), TAKES_FLOAT.body);
            r.SCode? && r.code == Encode(FLoad(0)) + Encode(FSave(1)) && r.sc.vmax == 2
  {
    var sc := FuncScope(TAKES_FLOAT.params);
    var s := Assign("y", Ident("a", Unknown));
    assert sc.vars == [Var("a", TFlt)] && Lookup(sc.vars, "a") == Some(0) && Lookup(sc.vars, "y") == None;
    hide Lookup, Encode;
    var r := AssignCode(sc, "y", s.rhs);
    assert r.code == Encode(FLoad(0)) + Encode(FSave(1));
    assert StmtCode(g, sc, s) == r;
    assert BlockCode(g, r.sc, End) == SCode([], r.sc) && r.code + [] == r.code;
  }

  lemma CallSource(p: Program, depth: nat, f: string, st: State)
    requires f in p.funcs && p.funcs[f] == TAKES_FLOAT && depth > 0
    ensures Exec(p, 1, depth, Call(f, [IntLit(1)]), st) == Done(st.(pushed := st.pushed + [IntV(1)]))
  {
    var args := [IntLit(1)];
    assert EvalExpr(p.fl, st.store, args[0]) == Val(IntV(1)) && args[1..] == [];
    assert EvalArgs(p.fl, st.store, args[1..]) == ([], None);
    assert [IntV(1)] + [] == [IntV(1)];
    assert EvalArgs(p.fl, st.store, args) == ([IntV(1)], None);
    BodySource(p, depth);
    hide EvalArgs;
  }

  lemma BodySource(p: Program, depth: nat)
    requires depth > 0
    ensures ExecBlock(p, 0, depth - 1, TAKES_FLOAT.body, State(BindParams(TAKES_FLOAT.params, [IntV(1)]), [])).Done?
  {
    assert BindParams([], []) == map[];
    assert BindParams(TAKES_FLOAT.params, [IntV(1)]) == map["a" := IntV(1)];
    var st := State(map["a" := IntV(1)], []);
    assert Exec(p, 0, depth - 1, Assign("y", Ident("a", Unknown)), st).Done?;
    hide Exec;
  }

  /** Nothing compares an argument with its parameter: `f(1)` means a finished call, but
      the callee loads the int as a float. */
  lemma WrongArgument(p: Program, m: Vm, g: Globals, depth: nat, sc: Scope, f: string, st: State, d: Data)
    returns (n: nat)
    requires World(p, m, g, depth) && depth > 0 && sc.off <= |sc.vars| && Room(m, d, 1)
    requires f in p.funcs && p.funcs[f] == TAKES_FLOAT
    ensures var s := Call(f, [IntLit(1)]);
            var r := StmtCode(g, sc, s);
            && Exec(p, 1, depth, s, st) == Done(st.(pushed := st.pushed + [IntV(1)]))
            && r.SCode? && Fares(m, r.code, d, n, Dies(Confused)) && !Fits(g, sc, s)
  {
    hide *;
    CallSource(p, depth, f, st);
    var push, call, func := WrongCallParts(p, m, g, depth, sc, f, d);
    var d1 := WithTop(d, IntV(1));
    CalleeConfused(m.(limit := m.limit - 1), func, FreshData(m, func, [IntV(1)]));
    var n1, fate := Calling(m, push, g.fns[f].index, d1, [IntV(1)], 1, Dies(Confused));
    Sequenced(m, push, call, d, d1, n1);
    n := 1 + n1;
  }

  lemma WrongCallParts(p: Program, m: Vm, g: Globals, depth: nat, sc: Scope, f: string, d: Data)
    returns (push: seq<byte>, call: seq<byte>, func: Func)
    requires World(p, m, g, depth) && depth > 0 && sc.off <= |sc.vars| && Room(m, d, 1)
    requires f in p.funcs && p.funcs[f] == TAKES_FLOAT
    ensures f in g.fns && g.fns[f].index < 0x1_0000 && m.limit >= 2
    ensures g.fns[f].index in m.funcs && func == m.funcs[g.fns[f].index] && func.argc == |[IntV(1)]| <= func.nvars
    ensures push == Encode(IConst(1)) && call == Encode(Invoke(g.fns[f].index)) && |call| == 3
    ensures var r := StmtCode(g, sc, Call(f, [IntLit(1)]));
            r.SCode? && r.code == push + call && !Fits(g, sc, Call(f, [IntLit(1)]))
    ensures func.body == Encode(FLoad(0)) + Encode(FSave(1))
    ensures var d2 := FreshData(m, func, [IntV(1)]); |d2.locals| > 0 && d2.locals[0] == Some(IntV(1))
    ensures var d1 := WithTop(d, IntV(1)); |d1.stack| >= 1 && d1.stack[|d1.stack| - 1..] == [IntV(1)]
    ensures Fares(m, push, d, 1, Ends(WithTop(d, IntV(1))))
  {
    hide Goes, Encode, BlockCode, FitsBlock, Distinct, Roomy, ExprCode, ArgsCode;
    TakesFloatCode(g);
    OneArgument(sc);
    push, call := Encode(IConst(1)), Encode(Invoke(g.fns[f].index));
    func := m.funcs[g.fns[f].index];
    assert Compiled(g, p.funcs[f], func);
    EncodeWidth(Invoke(g.fns[f].index));
    PushRun(m, IConst(1), d, IntV(1));
    IntHasType(sc.vars);
    assert ParamTypes(TAKES_FLOAT)[0] == TFlt;
  }

  lemma IntHasType(vars: seq<Var>)
    ensures ExprCode(vars, IntLit(1)).ECode? && ExprCode(vars, IntLit(1)).ty == TInt
  {
  }

  lemma Sequenced(m: Vm, push: seq<byte>, call: seq<byte>, d: Data, d1: Data, n1: nat)
    requires Fares(m, push, d, 1, Ends(d1)) && |call| == 3
    requires Goes(m, push + call, |push|, d1, n1, Dies(Confused), |push| + 3)
    ensures Fares(m, push + call, d, 1 + n1, Dies(Confused))
  {
    hide Goes;
    Inside(m, [], push, call, d, 1, Ends(d1));
    assert [] + push + call == push + call;
    Join(m, push + call, 0, d, 1, d1, |push|, n1, Dies(Confused), |push| + 3);
  }

  lemma OneArgument(sc: Scope)
    ensures ArgsCode(sc, [IntLit(1)]).SCode? && ArgsCode(sc, [IntLit(1)]).code == Encode(IConst(1))
  {
    hide Encode;
    assert [IntLit(1)][1..] == [];
    var sc1 := Pushed(sc, ExprCode(sc.vars, IntLit(1)), IntLit(1));
    assert ArgsCode(sc1, []) == SCode([], sc1);
    assert Encode(IConst(1)) + [] == Encode(IConst(1));
  }

  lemma CalleeConfused(m: Vm, func: Func, d: Data)
    requires func.body == Encode(FLoad(0)) + Encode(FSave(1)) && |d.locals| > 0 && d.locals[0] == Some(IntV(1))
    ensures Fares(m, func.body, d, 1, Dies(Confused))
  {
    hide Goes, Encode;
    Simple(m, FLoad(0), d);
    Stuck(m, Encode(FLoad(0)), Encode(FSave(1)), d, 1, Dies(Confused));
  }

  // ---- two functions ----

  const STOP: FuncDecl := FuncDecl([], End)
  const FAIL: FuncDecl :=
    FuncDecl([], Then(Assign("x", Binary(Div, IntLit(1), IntLit(0), Unknown)), End))
  const AGAIN: FuncDecl := FuncDecl([], Then(Call("again", []), End))

  lemma CallCode(g: Globals, sc: Scope, f: string)
    requires g.Ok() && sc.off <= |sc.vars| && f in g.fns && g.fns[f].params == []
    ensures var r := StmtCode(g, sc, Call(f, []));
            r.SCode? && r.code == Encode(Invoke(g.fns[f].index)) && r.sc == sc && Fits(g, sc, Call(f, []))
  {
    hide Encode;
    assert ArgsCode(sc, []) == SCode([], sc) && ArgsFit(sc.vars, [], []);
    assert [] + Encode(Invoke(g.fns[f].index)) == Encode(Invoke(g.fns[f].index));
  }

  lemma StopExec(p: Program, depth: nat, f: string, st: State)
    requires f in p.funcs && p.funcs[f] == STOP && depth > 0
    ensures Exec(p, 1, depth, Call(f, []), st) == Done(st)
  {
    assert EvalArgs(p.fl, st.store, []) == ([], None) && BindParams([], []) == map[];
    assert ExecBlock(p, 0, depth - 1, End, State(map[], [])).Done?;
    assert st.pushed + [] == st.pushed;
  }

  /** A call without arguments runs the body its index leads to. */
  lemma PlainCall(m: Vm, index: nat, d: Data, n: nat, fate: Fate) returns (n': nat, fate': Fate)
    requires index < 0x1_0000 && index in m.funcs && m.funcs[index].argc == 0 && m.limit >= 2
    requires Fares(m.(limit := m.limit - 1), m.funcs[index].body, FreshData(m, m.funcs[index], []), n, fate)
    ensures Fares(m, Encode(Invoke(index)), d, n', fate') && fate' == if fate.Ends? then Ends(d) else fate
  {
    hide Goes, Encode, FreshData;
    assert d.stack[|d.stack| - 0..] == [];
    n', fate' := Calling(m, [], index, d, [], n, fate);
    assert [] + Encode(Invoke(index)) == Encode(Invoke(index));
    EncodeWidth(Invoke(index));
  }

  lemma FailRun(m: Vm, g: Globals, func: Func, d: Data)
    requires g.Ok() && Compiled(g, FAIL, func) && !m.checked
    ensures exists n: nat :: Fares(m, func.body, d, n, Dies(Arith))
  {
    hide Goes, Encode, EvalExpr, ExprCode;
    FailCode(g);
    FailValue(m.fl);
    var e := FAIL.body.head.rhs;
    assert Agree([], map[], d.locals);
    var n, fate := ExprRun(m, [], e, map[], d);
    Stuck(m, ExprCode([], e).code, Encode(ISave(0)), d, n, fate);
  }

  lemma FailValue(fl: FloatOps)
    ensures EvalExpr(fl, map[], FAIL.body.head.rhs) == Err(Arith)
  {
  }

  lemma FailCode(g: Globals)
    requires g.Ok()
    ensures var (e, r) := (FAIL.body.head.rhs, BlockCode(g, FuncScope([]), FAIL.body));
            && ExprCode([], e).ECode? && r.SCode? && r.code == ExprCode([], e).code + Encode(ISave(0))
  {
    var e := FAIL.body.head.rhs;
    assert ParamVars([]) == [] && ExprCode([], e).ECode? && ExprCode([], e).ty == TInt;
    hide Encode, ExprCode, Depth;
    var sc := FuncScope([]);
    var r := AssignCode(sc, "x", e);
    assert StmtCode(g, sc, FAIL.body.head) == r && BlockCode(g, r.sc, End) == SCode([], r.sc);
    assert r.code + [] == r.code;
  }

  lemma TwoParts(r: Registry, m: Vm, reach: nat, first: string, a: FuncDecl, second: string, b: FuncDecl)
    requires Consistent(r) && AllCompiled(r, reach) && r.order == [first, second]
    requires Knows(r, first, a) && Knows(r, second, b) && a.params == [] && b.params == []
    ensures r.order != [] && r.descs[first].signature in r.handles
    ensures var (g, m') := (GlobalsOf(r, reach), Linked(r, m));
            && g.Ok() && first in g.fns && second in g.fns && g.fns[first].params == [] && g.fns[second].params == []
            && g.fns[first].index == 0 && g.fns[second].index == 1 && 0 in m'.funcs && 1 in m'.funcs
            && Compiled(g, b, Newest(r)) && Newest(r).argc == 0
            && m'.funcs[0] == (if r.pool.moves then r.handles[r.descs[first].signature] else Newest(r))
            && m'.funcs[1] == Newest(r) && m' == m.(funcs := m'.funcs)
    ensures var p := ProgramOf(r, m);
            first in p.funcs && p.funcs[first] == a && second in p.funcs && p.funcs[second] == b
  {
    IndexOfAt(r, 0, reach);
    IndexOfAt(r, 1, reach);
    IndexExact(r, first, reach);
    IndexExact(r, second, reach);
    TableExact(r, 0);
    TableExact(r, 1);
    NewestIs(r, second);
    hide Consistent, Table, Newest, BlockCode, FitsBlock;
  }

  /** As the code stands: after `stop() { }` and `fail() { x = 1 / 0 }` are declared, a call of
      `stop` means that nothing happens, and its code fails at the division of `fail`. */
  lemma OlderRunsNewest(r: Registry, m: Vm, reach: nat, depth: nat, sc: Scope, st: State, d: Data)
    requires Consistent(r) && AllCompiled(r, reach) && !r.pool.moves && r.order == ["stop", "fail"]
    requires Knows(r, "stop", STOP) && Knows(r, "fail", FAIL)
    requires m.limit == depth + 1 && depth > 0 && !m.checked && sc.off <= |sc.vars|
    ensures var (g, s) := (GlobalsOf(r, reach), Call("stop", []));
            && g.Ok() && Exec(ProgramOf(r, m), 1, depth, s, st) == Done(st)
            && StmtCode(g, sc, s).SCode? && Fits(g, sc, s)
            && exists n: nat :: Fares(Linked(r, m), StmtCode(g, sc, s).code, d, n, Dies(Arith))
  {
    hide *;
    NoParameters();
    TwoParts(r, m, reach, "stop", STOP, "fail", FAIL);
    var (g, m', fail) := (GlobalsOf(r, reach), Linked(r, m), Newest(r));
    StopExec(ProgramOf(r, m), depth, "stop", st);
    CallCode(g, sc, "stop");
    FailRun(m'.(limit := m'.limit - 1), g, fail, FreshData(m', fail, []));
    var n: nat :| Fares(m'.(limit := m'.limit - 1), fail.body, FreshData(m', fail, []), n, Dies(Arith));
    var n', fate := PlainCall(m', 0, d, n, Dies(Arith));
  }

  lemma NoParameters()
    ensures STOP.params == [] && FAIL.params == [] && AGAIN.params == []
  {
  }

  /** `again() { again() }` never comes back. */
  lemma {:induction false} AgainExec(p: Program, fuel: nat, depth: nat, st: State)
    requires "again" in p.funcs && p.funcs["again"] == AGAIN
    ensures !Exec(p, fuel, depth, Call("again", []), st).Done?
    decreases depth
  {
    assert EvalArgs(p.fl, st.store, []) == ([], None) && BindParams([], []) == map[];
    if depth > 0 && fuel > 0 {
      AgainExec(p, fuel - 1, depth - 1, State(map[], []));
    }
  }

  /** `again` is the compilation of `AGAIN` while its index is not known. */
  ghost predicate CompiledInside(r: Registry, reach: nat, again: Func) {
    var begun := GlobalsOf(Begun(r, "again", Desc(AGAIN, "again()V")), reach);
    begun.Ok() && Compiled(begun, AGAIN, again)
  }

  lemma AgainSigns()
    ensures Signs("again", "again()V")
  {
    assert "again()V"[..5] == "again" && "again()V"[5] == '(';
  }

  lemma AgainDeclared(r: Registry, reach: nat, again: Func)
    requires Consistent(r) && r.pool.moves && r.order == ["stop"] && (reach == 0x100 || reach == 0x1_0000)
    ensures var r' := Declared(r, "again", Desc(AGAIN, "again()V"), again);
            && Consistent(r') && r'.pool.moves && r'.order == ["stop", "again"] && GlobalsOf(r', reach).Ok()
            && "stop" in r'.descs && "stop" in r.descs && r'.descs["stop"] == r.descs["stop"]
            && r.descs["stop"].signature in r.handles && r.descs["stop"].signature in r'.handles
            && r'.handles[r.descs["stop"].signature] == r.handles[r.descs["stop"].signature]
            && "again()V" !in r.indices && "again" in r'.descs && r'.descs["again"] == Desc(AGAIN, "again()V")
            && r'.handles["again()V"] == again
            && r'.order != [] && Newest(r') == again
  {
    AgainSigns();
    assert "again" !in r.descs;
    assert r.order[0] in r.descs;
    NewSignature(r, "again", "again()V");
    DeclaredSound(r, "again", Desc(AGAIN, "again()V"), again);
    GlobalsOk(Declared(r, "again", Desc(AGAIN, "again()V"), again), reach);
    hide Signs, Wrote, AddConstant;
  }

  /** Index 0 leads to `stop`, index 1 to the code of `again`. */
  ghost predicate AgainReady(r: Registry, m: Vm, reach: nat) {
    var (g, m', p) := (GlobalsOf(r, reach), Linked(r, m), ProgramOf(r, m));
    && g.Ok() && "again" in g.fns && g.fns["again"] == Signature(1, [])
    && 0 in m'.funcs && m'.funcs[0].argc == 0 && m'.funcs[0].body == []
    && 1 in m'.funcs && m'.funcs[1].argc == 0 && m'.funcs[1].body == Encode(Invoke(0))
    && m' == m.(funcs := m'.funcs) && "again" in p.funcs && p.funcs["again"] == AGAIN
  }

  lemma AgainParts(r: Registry, m: Vm, reach: nat, again: Func)
    requires Consistent(r) && AllCompiled(r, reach) && r.pool.moves && r.order == ["stop"] && Knows(r, "stop", STOP)
    requires CompiledInside(r, reach, again)
    ensures AgainReady(Declared(r, "again", Desc(AGAIN, "again()V"), again), m, reach)
  {
    hide *;
    var r', desc := Declared(r, "again", Desc(AGAIN, "again()V"), again), Desc(AGAIN, "again()V");
    AgainStarts(r, reach, again);
    var stop := r.handles[r.descs["stop"].signature];
    AgainDeclared(r, reach, again);
    StopCompiled(GlobalsOf(r, reach), stop);
    AgainCompiled(r, reach, again);
    IndexOfAt(r', 1, reach);
    IndexExact(r', "again", reach);
    TableExact(r', 0);
    TableExact(r', 1);
    AgainTable(r', m, reach, stop, again);
  }

  lemma AgainStarts(r: Registry, reach: nat, again: Func)
    requires Consistent(r) && AllCompiled(r, reach) && r.order == ["stop"] && Knows(r, "stop", STOP)
    requires CompiledInside(r, reach, again)
    ensures (reach == 0x100 || reach == 0x1_0000) && GlobalsOf(r, reach).Ok() && "stop" in r.descs
    ensures r.descs["stop"].signature in r.handles
    ensures Compiled(GlobalsOf(r, reach), STOP, r.handles[r.descs["stop"].signature])
  {
    hide Consistent, Compiled;
  }

  lemma AgainTable(r: Registry, m: Vm, reach: nat, stop: Func, again: Func)
    requires GlobalsOf(r, reach).Ok() && "again" in r.descs && r.descs["again"].decl == AGAIN
    requires GlobalsOf(r, reach).fns["again"].index == 1 && GlobalsOf(r, reach).fns["again"].params == ParamTypes(AGAIN)
    requires 0 in Table(r) && Table(r)[0] == stop && 1 in Table(r) && Table(r)[1] == again
    requires stop.argc == 0 && stop.body == [] && again.argc == 0 && again.body == Encode(Invoke(0))
    ensures AgainReady(r, m, reach)
  {
    hide Table, Encode;
  }

  lemma AgainUnfolds(r: Registry, m: Vm, reach: nat)
    requires AgainReady(r, m, reach)
    ensures var (g, m') := (GlobalsOf(r, reach), Linked(r, m));
            && g.Ok() && "again" in g.fns && g.fns["again"].params == [] && g.fns["again"].index == 1
            && 0 in m'.funcs && m'.funcs[0].argc == 0 && m'.funcs[0].body == []
            && 1 in m'.funcs && m'.funcs[1].argc == 0 && m'.funcs[1].body == Encode(Invoke(0))
            && m' == m.(funcs := m'.funcs)
    ensures var p := ProgramOf(r, m); "again" in p.funcs && p.funcs["again"] == AGAIN
  {
    hide GlobalsOf, Linked, ProgramOf, Encode;
  }

  lemma StopCompiled(g: Globals, func: Func)
    requires g.Ok() && Compiled(g, STOP, func)
    ensures func.argc == 0 && func.body == []
  {
  }

  lemma AgainCompiled(r: Registry, reach: nat, again: Func)
    requires "again()V" !in r.indices
    requires CompiledInside(r, reach, again)
    ensures again.argc == 0 && again.body == Encode(Invoke(0))
  {
    var g := GlobalsOf(Begun(r, "again", Desc(AGAIN, "again()V")), reach);
    assert g.fns["again"].index == 0 && g.fns["again"].params == [];
    var sc := FuncScope([]);
    CallCode(g, sc, "again");
    hide StmtCode, Encode, GlobalsOf;
    assert BlockCode(g, sc, End) == SCode([], sc);
    assert Encode(Invoke(0)) + [] == Encode(Invoke(0));
  }

  /** Even with a pool that advances: when `stop() { }` and then `again() { again() }` are
      declared, the inner call is compiled to index 0, which is `stop`. A call of `again`
      means a call that never comes back, and its code comes back at once. */
  lemma SelfCallRunsFirst(r: Registry, m: Vm, reach: nat, depth: nat, sc: Scope, st: State, d: Data, again: Func)
    returns (n: nat)
    requires Consistent(r) && AllCompiled(r, reach) && r.pool.moves && r.order == ["stop"] && Knows(r, "stop", STOP)
    requires m.limit == depth + 1 && depth > 1 && sc.off <= |sc.vars|
    requires CompiledInside(r, reach, again)
    ensures var r' := Declared(r, "again", Desc(AGAIN, "again()V"), again);
            var (g, s) := (GlobalsOf(r', reach), Call("again", []));
            && g.Ok() && (forall fuel: nat :: !Exec(ProgramOf(r', m), fuel, depth, s, st).Done?)
            && StmtCode(g, sc, s).SCode? && Fits(g, sc, s)
            && Fares(Linked(r', m), StmtCode(g, sc, s).code, d, n, Ends(d))
  {
    hide *;
    var desc := Desc(AGAIN, "again()V");
    var r' := Declared(r, "again", desc, again);
    var (g, m') := (GlobalsOf(r', reach), Linked(r', m));
    AgainParts(r, m, reach, again);
    AgainUnfolds(r', m, reach);
    forall fuel: nat ensures !Exec(ProgramOf(r', m), fuel, depth, Call("again", []), st).Done? {
      AgainExec(ProgramOf(r', m), fuel, depth, st);
    }
    CallCode(g, sc, "again");
    var (m1, m2) := (m'.(limit := m'.limit - 1), m'.(limit := m'.limit - 2));
    EmptyRun(m2, FreshData(m1, m'.funcs[0], []));
    var n1, fate1 := PlainCall(m1, 0, FreshData(m', m'.funcs[1], []), 0, Ends(FreshData(m1, m'.funcs[0], [])));
    var fate;
    n, fate := PlainCall(m', 1, d, n1, fate1);
  }
}
