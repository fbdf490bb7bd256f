/** The theorems at work on one program, for every input: `x = n; while x { x = x - 1 }`. */
module Countdown {
  import opened Words
  import opened Ast
  import opened Language
  import opened Bytecode
  import opened Machine
  import opened Runs
  import opened Codegen
  import opened Needs
  import opened ExprCorrect
  import opened Correctness
  import opened Activations

  const X: Expr := Ident("x", Unknown)
  const LESS: Expr := Binary(Sub, X, IntLit(1), Unknown)
  const STEP: Stmt := Assign("x", LESS)
  const BODY: Block := Then(STEP, End)
  const LOOP: Stmt := While(X, BODY)
  const REST: Block := Then(LOOP, End)

  function Start(n: int32): Stmt { Assign("x", IntLit(n)) }

  function Whole(n: int32): Block { Then(Start(n), REST) }

  /** The scope once x is defined. */
  function WithX(off: nat, ssize: nat, smax: nat): Scope { Scope([Var("x", TInt)], off, 64, ssize, 1, smax) }

  lemma FindX()
    ensures Lookup([Var("x", TInt)], "x") == Some(0) && Lookup([], "x") == None
  {
  }

  lemma StartCode(g: Globals, n: int32)
    requires g.Ok()
    ensures var r := StmtCode(g, ROOT, Start(n)); r.SCode? && r.sc == WithX(0, 0, 4)
    ensures Fits(g, ROOT, Start(n))
  {
    FindX();
    hide Encode, Lookup;
  }

  lemma LessCode()
    ensures var c := ExprCode([Var("x", TInt)], LESS);
            c.ECode? && c.ty == TInt && |c.code| == 8 && Depth(LESS) == 2
    ensures var c := ExprCode([Var("x", TInt)], X);
            c.ECode? && c.ty == TInt && |c.code| == 2 && Depth(X) == 1
  {
    FindX();
    hide Lookup;
    var one := ExprCode([Var("x", TInt)], IntLit(1));
    assert |one.code| == 5 && |one.code + []| == 5;
  }

  lemma StepCode(g: Globals)
    requires g.Ok()
    ensures var r := StmtCode(g, WithX(1, 0, 4), STEP);
            r.SCode? && r.sc == WithX(1, 0, 8) && |r.code| == 10 && Fits(g, WithX(1, 0, 4), STEP)
  {
    FindX();
    LessCode();
    hide ExprCode, Lookup, Depth;
  }

  lemma BodyCode(g: Globals)
    requires g.Ok()
    ensures var r := BlockCode(g, WithX(1, 0, 4), BODY);
            r.SCode? && r.sc == WithX(1, 0, 8) && |r.code| == 10 && FitsBlock(g, WithX(1, 0, 4), BODY)
  {
    StepCode(g);
    hide StmtCode, Fits;
  }

  lemma LoopCode(g: Globals)
    requires g.Ok()
    ensures var r := StmtCode(g, WithX(0, 0, 4), LOOP);
            r.SCode? && r.sc == WithX(0, 4, 8) && Fits(g, WithX(0, 0, 4), LOOP)
  {
    LessCode();
    BodyCode(g);
    var sc1 := Pushed(WithX(0, 0, 4), ExprCode([Var("x", TInt)], X), X);
    assert Child(sc1, 0) == WithX(1, 0, 4);
    hide ExprCode, BlockCode, FitsBlock, Depth, WhileTail;
  }

  lemma WholeCode(g: Globals, n: int32)
    requires g.Ok()
    ensures var r := BlockCode(g, ROOT, Whole(n)); r.SCode? && r.sc == WithX(0, 4, 8) && FitsBlock(g, ROOT, Whole(n))
  {
    StartCode(g, n);
    LoopCode(g);
    hide StmtCode, Fits;
    assert BlockCode(g, WithX(0, 0, 4), REST).SCode?;
  }

  function Holds(n: int32): State { State(map["x" := IntV(n)], []) }

  lemma StepExec(p: Program, fuel: nat, depth: nat, n: int32)
    requires n > 0
    ensures ExecScope(p, fuel, depth, BODY, Holds(n)) == Done(Holds(n - 1))
  {
    LessValue(p, n);
    assert Wrap(n - 1) == n - 1;
    assert Holds(n).store["x" := IntV(n - 1)] == Holds(n - 1).store;
    assert Exec(p, fuel, depth, STEP, Holds(n)) == Done(Holds(n - 1)) by {
      hide EvalExpr;
    }
    hide Exec, Leave;
    assert ExecBlock(p, fuel, depth, End, Holds(n - 1)) == Done(Holds(n - 1));
    assert ExecBlock(p, fuel, depth, BODY, Holds(n)) == Done(Holds(n - 1));
    LeaveSame(Holds(n - 1).store, Holds(n).store);
  }

  lemma LeaveSame(inner: Store, outer: Store)
    requires inner.Keys == outer.Keys
    ensures Leave(inner, outer) == inner
  {
  }

  lemma LessValue(p: Program, n: int32)
    ensures EvalExpr(p.fl, Holds(n).store, LESS) == Val(IntV(Wrap(n - 1)))
  {
    hide Wrap;
  }

  lemma {:induction false} LoopExec(p: Program, fuel: nat, depth: nat, n: int32)
    requires 0 <= n <= fuel
    ensures Exec(p, fuel, depth, LOOP, Holds(n)) == Done(Holds(0))
    decreases fuel
  {
    hide ExecScope, ExecBlock;
    if n > 0 {
      StepExec(p, fuel, depth, n);
      LoopExec(p, fuel - 1, depth, n - 1);
    }
  }

  lemma WholeExec(p: Program, depth: nat, n: int32)
    requires n >= 0
    ensures ExecBlock(p, n, depth, Whole(n), State(map[], [])) == Done(Holds(0))
  {
    LoopExec(p, n, depth, n);
    StartExec(p, n, depth, n);
    hide Exec;
    assert ExecBlock(p, n, depth, REST, Holds(n)) == Done(Holds(0));
  }

  lemma StartExec(p: Program, fuel: nat, depth: nat, n: int32)
    ensures Exec(p, fuel, depth, Start(n), State(map[], [])) == Done(Holds(n))
  {
    assert map[]["x" := IntV(n)] == map["x" := IntV(n)];
  }

  function Prog(fl: FloatOps): Program { Program(fl, map[]) }

  function Mach(fl: FloatOps): Vm { Vm(fl, map[], 1, true, _ => None) }

  const GLOBALS: Globals := Globals(map[], AS_WRITTEN)

  /** Two operand words and one local, whose content does not matter. */
  function Fresh(junk: Word): Data { Data([], [junk], 2) }

  lemma StartsIsMet(fl: FloatOps, n: int32, junk: Word)
    ensures Starts(Prog(fl), Mach(fl), GLOBALS, 0, ROOT, Whole(n), State(map[], []), Fresh(junk))
  {
    hide BlockCode, FitsBlock, BlockNeed, Whole, Agree;
    WholeCode(GLOBALS, n);
    WholeNeed(n);
    EmptyAgrees(junk);
  }

  lemma BodyNeed()
    ensures BlockNeed({"x"}, BODY) == Bounded(2, 0) && Depth(X) == 1
  {
    assert Depth(LESS) == 2 && Depth(X) == 1;
    hide Depth;
    assert {"x"} + {"x"} == {"x"};
    assert BlockNeed({"x"}, End) == Bounded(0, 0);
  }

  lemma NeedsInTurn(names: set<string>, s: Stmt, rest: Block)
    ensures BlockNeed(names, Then(s, rest)) == InTurn(StmtNeed(names, s), BlockNeed(Names(names, s), rest))
  {
    hide StmtNeed, InTurn, Names;
  }

  lemma WholeNeed(n: int32)
    ensures State(map[], []).store.Keys == {} && BlockNeed({}, Whole(n)) == Bounded(2, 0)
  {
    PartNeeds(n);
    NeedsInTurn({}, Start(n), REST);
    NeedsInTurn({"x"}, LOOP, End);
    hide StmtNeed, BlockNeed, Names;
  }

  lemma LoopNeeds(names: set<string>, c: Expr, body: Block, most: nat)
    requires BlockNeed(names, body) == Bounded(most, 0)
    ensures StmtNeed(names, While(c, body)) == Bounded(Max(Depth(c), most), 0)
  {
    hide BlockNeed, Depth;
  }

  lemma StartNeeds(n: int32)
    ensures StmtNeed({}, Start(n)) == Bounded(1, 0) && Names({}, Start(n)) == {"x"}
  {
    assert Depth(IntLit(n)) == 1;
    hide Depth;
  }

  lemma LoopIs()
    ensures LOOP == While(X, BODY) && Max(1, 2) == 2 && Names({"x"}, LOOP) == {"x"}
    ensures BlockNeed({"x"}, End) == Bounded(0, 0)
  {
  }

  lemma PartNeeds(n: int32)
    ensures StmtNeed({}, Start(n)) == Bounded(1, 0) && Names({}, Start(n)) == {"x"}
    ensures StmtNeed({"x"}, LOOP) == Bounded(2, 0) && Names({"x"}, LOOP) == {"x"}
    ensures BlockNeed({"x"}, End) == Bounded(0, 0)
  {
    hide *;
    StartNeeds(n);
    BodyNeed();
    LoopIs();
    LoopNeeds({"x"}, X, BODY, 2);
  }

  lemma EmptyAgrees(junk: Word)
    ensures Agree([], map[], [junk])
  {
  }

  /** For every non-negative n the compiled bytes, in a frame of exactly the recorded
      size, run to their end and leave 0 in slot 0 and nothing on the stack. */
  lemma CountsDown(fl: FloatOps, n: int32, junk: Word) returns (steps: nat)
    requires n >= 0
    ensures var code := Code(GLOBALS, ROOT, Whole(n));
            Takes(Mach(fl), Mid(code, 0, Fresh(junk)), steps, At(Mid(code, |code|, Data([], [Some(IntV(0))], 2))))
  {
    assert GLOBALS.Ok() && ROOT.off <= |ROOT.vars|;
    hide *;
    StartsIsMet(fl, n, junk);
    WholeExec(Prog(fl), 0, n);
    var r;
    steps, r := SourceToMachine(Prog(fl), Mach(fl), GLOBALS, 0, ROOT, Whole(n), State(map[], []), Fresh(junk), n);
    WholeCode(GLOBALS, n);
    ResultIs(Code(GLOBALS, ROOT, Whole(n)), junk, r);
    CapKept(Mach(fl), Mid(Code(GLOBALS, ROOT, Whole(n)), 0, Fresh(junk)), steps, r.s);
    FrameIs(Code(GLOBALS, ROOT, Whole(n)), junk, r.s);
  }

  lemma ResultIs(code: seq<byte>, junk: Word, r: Result)
    requires SameResult(code, WithX(0, 4, 8).vars, Fresh(junk), Done(Holds(0)), r)
    ensures r.At? && r.s.below == [] && r.s.top.code == code && r.s.top.pc == |code|
    ensures r.s.top.stack == [] && r.s.top.locals == [Some(IntV(0))]
  {
    assert r.s.top.locals[0] == Some(Holds(0).store["x"]);
  }

  lemma FrameIs(code: seq<byte>, junk: Word, s: Frames)
    requires s.below == [] && s.top.code == code && s.top.pc == |code| && s.top.stack == []
             && s.top.locals == [Some(IntV(0))]
    requires BottomCap(s) == BottomCap(Mid(code, 0, Fresh(junk)))
    ensures s == Mid(code, |code|, Data([], [Some(IntV(0))], 2))
  {
  }
}
