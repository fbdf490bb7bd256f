/** Which compiled programs never fail for their types: the exact expressions that
    can deliver a value, and what is left to go wrong in programs made of them. */
module Safety {
  import opened Words
  import opened Ast
  import opened Language
  import opened Machine
  import opened Runs
  import opened Codegen
  import opened Needs
  import opened ExprCorrect
  import opened Layout
  import opened StmtCorrect
  import opened Correctness

  predicate Negates(e: Expr) {
    match e
    case Group(inner, _) => Negates(inner)
    case Neg(_, _) => true
    case Cast(operand) => Negates(operand)
    case Binary(_, l, r, _) => Negates(l) || Negates(r)
    case _ => false
  }

  predicate ComparesFloats(vars: seq<Var>, e: Expr) {
    match e
    case Group(inner, _) => ComparesFloats(vars, inner)
    case Neg(operand, _) => ComparesFloats(vars, operand)
    case Cast(operand) => ComparesFloats(vars, operand)
    case Binary(op, l, r, _) =>
      || ComparesFloats(vars, l) || ComparesFloats(vars, r)
      || (IsComparison(op) && !(TypeOf(vars, l) == TypeOf(vars, r) == TInt))
    case _ => false
  }

  /** No unary minus, and no comparison with a float side. */
  predicate Tame(vars: seq<Var>, e: Expr) { !Negates(e) && !ComparesFloats(vars, e) }

  function TypeOf(vars: seq<Var>, e: Expr): Ty {
    match ExprCode(vars, e) case ECode(_, ty) => ty case _ => Unknown
  }

  /** Type soundness of expressions: a compiled expression without float comparisons
      evaluates to a value of its static type if it has no unary minus, and reaches
      the panic handler if it has one, unless it stops at a division first. A unary
      minus never lets any expression deliver a value. */
  lemma {:induction false} TameExact(fl: FloatOps, vars: seq<Var>, e: Expr, store: Store, locals: seq<Word>)
    requires Agree(vars, store, locals) && ExprCode(vars, e).ECode?
    ensures var v := EvalExpr(fl, store, e);
            && (Tame(vars, e) ==> (v.Val? && TyOf(v.v) == TypeOf(vars, e)) || v == Err(Arith))
            && (Negates(e) ==> v.Err?)
            && (Negates(e) && !ComparesFloats(vars, e) ==> v == Err(Panic) || v == Err(Arith))
  {
    hide Agree;
    match e
    case Group(inner, _) => TameExact(fl, vars, inner, store, locals);
    case Neg(operand, _) => TameExact(fl, vars, operand, store, locals);
    case Cast(operand) => TameExact(fl, vars, operand, store, locals);
    case Binary(op, l, r, _) =>
      TameExact(fl, vars, l, store, locals);
      TameExact(fl, vars, r, store, locals);
    case Ident(x, _) => IdentAt(vars, x, store, locals);
    case _ =>
  }

  /** Tame programs: every expression is, and every condition is an int. */
  ghost predicate TameStmt(g: Globals, sc: Scope, s: Stmt)
    requires g.Ok() && sc.off <= |sc.vars|
    decreases s
  {
    match s
    case Assign(_, e) => Tame(sc.vars, e)
    case Bare(e) => Tame(sc.vars, e)
    case Call(_, args) => forall i :: 0 <= i < |args| ==> Tame(sc.vars, args[i])
    case If(e, t, f) =>
      var sc1 := Pushed(sc, ExprCode(sc.vars, e), e);
      var bt := BlockCode(g, Child(sc1, sc1.ssize), t);
      && Tame(sc.vars, e) && TypeOf(sc.vars, e) == TInt
      && TameBlock(g, Child(sc1, sc1.ssize), t)
      && (bt.SCode? ==> TameBlock(g, Child(Back(sc1, bt.sc), sc1.ssize), f))
    case While(e, body) =>
      && Tame(sc.vars, e) && TypeOf(sc.vars, e) == TInt
      && TameBlock(g, Child(Pushed(sc, ExprCode(sc.vars, e), e), 0), body)
  }

  ghost predicate TameBlock(g: Globals, sc: Scope, b: Block)
    requires g.Ok() && sc.off <= |sc.vars|
    decreases b
  {
    match b
    case End => true
    case Then(s, rest) =>
      && TameStmt(g, sc, s)
      && (StmtCode(g, sc, s).SCode? ==> TameBlock(g, StmtCode(g, sc, s).sc, rest))
  }

  ghost predicate TameProgram(p: Program, g: Globals)
    requires g.Ok()
  {
    forall f :: f in p.funcs ==> TameBlock(g, FuncScope(p.funcs[f].params), p.funcs[f].body)
  }

  /** The two faults a tame program can still meet. */
  ghost predicate Benign(o: Outcome) {
    o.Crash? ==> o.why == Arith || o.why == CallDepth
  }

  lemma TameCondition(fl: FloatOps, vars: seq<Var>, e: Expr, store: Store, locals: seq<Word>)
    requires Agree(vars, store, locals) && ExprCode(vars, e).ECode?
    requires Tame(vars, e) && TypeOf(vars, e) == TInt
    ensures var v := EvalExpr(fl, store, e); (v.Val? && v.v.IntV?) || v == Err(Arith)
  {
    hide Agree, Tame, EvalExpr, TypeOf;
    TameExact(fl, vars, e, store, locals);
  }

  lemma {:induction false} TameRun(p: Program, m: Vm, g: Globals, sc: Scope, s: Stmt,
                                   fuel: nat, depth: nat, st: State, d: Data)
    requires g.Ok() && sc.off <= |sc.vars| && Fits(g, sc, s)
    requires Placed(p, m, g, depth, sc, StmtCode(g, sc, s), High(p, fuel, depth, s, st) <= d.cap, st, d)
    requires TameProgram(p, g) && TameStmt(g, sc, s)
    ensures Benign(Exec(p, fuel, depth, s, st))
    decreases fuel, s, 2
  {
    hide Agree, World, BlockCode, FitsBlock, TameProgram, TameBlock, TypeOf, Tame, EvalExpr, ExprCode, Pushed;
    match s
    case Assign(x, e) => TameAssign(p, sc, x, e, fuel, depth, st, d.locals);
    case Bare(e) => TameBare(p, sc, e, fuel, depth, st, d.locals);
    case Call(_, _) => TameCall(p, m, g, sc, s, fuel, depth, st, d);
    case If(_, _, _) => TameIf(p, m, g, sc, s, fuel, depth, st, d);
    case While(_, _) => TameWhile(p, m, g, sc, s, fuel, depth, st, d);
  }

  lemma TameAssign(p: Program, sc: Scope, x: string, e: Expr, fuel: nat, depth: nat, st: State, locals: seq<Word>)
    requires sc.off <= |sc.vars| && AssignCode(sc, x, e).SCode?
    requires Agree(sc.vars, st.store, locals) && Tame(sc.vars, e)
    ensures Benign(Exec(p, fuel, depth, Assign(x, e), st))
  {
    hide Tame;
    TameExact(p.fl, sc.vars, e, st.store, locals);
    hide EvalExpr, ExprCode;
  }

  lemma TameBare(p: Program, sc: Scope, e: Expr, fuel: nat, depth: nat, st: State, locals: seq<Word>)
    requires !ExprCode(sc.vars, e).EPanic?
    requires Agree(sc.vars, st.store, locals) && Tame(sc.vars, e)
    ensures Benign(Exec(p, fuel, depth, Bare(e), st))
  {
    hide Tame;
    ValuelessCode(sc.vars, st.store.Keys, e);
    hide EvalExpr, ExprCode, Agree, Valueless;
    if ExprCode(sc.vars, e).ECode? {
      TameExact(p.fl, sc.vars, e, st.store, locals);
    }
  }

  lemma {:induction false} TameArgs(fl: FloatOps, vars: seq<Var>, args: seq<Expr>, params: seq<Ty>, store: Store,
                                    locals: seq<Word>)
    requires Agree(vars, store, locals) && ArgsFit(vars, args, params)
    requires forall i :: 0 <= i < |args| ==> Tame(vars, args[i])
    ensures EvalArgs(fl, store, args).1 in {None, Some(Arith)}
    decreases args
  {
    hide Agree, Tame, EvalExpr, ExprCode;
    if args != [] {
      TameExact(fl, vars, args[0], store, locals);
      TameArgs(fl, vars, args[1..], params[1..], store, locals);
    }
  }

  lemma {:induction false} TameIf(p: Program, m: Vm, g: Globals, sc: Scope, s: Stmt,
                                  fuel: nat, depth: nat, st: State, d: Data)
    requires g.Ok() && sc.off <= |sc.vars| && Fits(g, sc, s) && s.If?
    requires Placed(p, m, g, depth, sc, StmtCode(g, sc, s), High(p, fuel, depth, s, st) <= d.cap, st, d)
    requires TameProgram(p, g) && TameStmt(g, sc, s)
    ensures Benign(Exec(p, fuel, depth, s, st))
    decreases fuel, s, 1
  {
    hide Agree, World, BlockCode, FitsBlock, TameProgram, TameBlock, TypeOf, Tame, EvalExpr, ExprCode, Pushed;
    var c, ct, cf, sct, scf := IfParts(p, m, g, sc, s, fuel, depth, st, d);
    hide StmtCode, Fits;
    TameCondition(p.fl, sc.vars, s.cond, st.store, d.locals);
    var v := EvalExpr(p.fl, st.store, s.cond);
    if v.Val? && v.v.i != 0 {
      TameScope(p, m, g, sct, s.thn, fuel, depth, st, d);
    } else if v.Val? {
      TameScope(p, m, g, scf, s.els, fuel, depth, st, d);
    }
  }

  lemma {:induction false} TameWhile(p: Program, m: Vm, g: Globals, sc: Scope, s: Stmt,
                                     fuel: nat, depth: nat, st: State, d: Data)
    requires g.Ok() && sc.off <= |sc.vars| && Fits(g, sc, s) && s.While?
    requires Placed(p, m, g, depth, sc, StmtCode(g, sc, s), High(p, fuel, depth, s, st) <= d.cap, st, d)
    requires TameProgram(p, g) && TameStmt(g, sc, s)
    ensures Benign(Exec(p, fuel, depth, s, st))
    decreases fuel, s, 1
  {
    hide Agree, World, BlockCode, FitsBlock, TameProgram, TameBlock, TypeOf, Tame, EvalExpr, ExprCode, Depth;
    var c, cb, child := WhileParts(p, m, g, sc, s, fuel, depth, st, d);
    ExecWhile(p, fuel, depth, s, st);
    hide StmtCode, Fits, Exec, ExecScope, WhileBytes, High, HighBlock;
    TameCondition(p.fl, sc.vars, s.cond, st.store, d.locals);
    var v := EvalExpr(p.fl, st.store, s.cond);
    if v.Val? && v.v.i != 0 {
      TameScope(p, m, g, child, s.body, fuel, depth, st, d);
      var nb, fb := ScopeRun(p, m, g, child, s.body, fuel, depth, st, d);
      var o := ExecScope(p, fuel, depth, s.body, st);
      if o.Done? && fuel > 0 {
        StillPlaced(p, m, g, sc, StmtCode(g, sc, s), s, fuel, depth, st, d, fb.d);
        TameWhile(p, m, g, sc, s, fuel - 1, depth, o.st, fb.d);
      }
    }
  }

  lemma {:induction false} TameCall(p: Program, m: Vm, g: Globals, sc: Scope, s: Stmt,
                                    fuel: nat, depth: nat, st: State, d: Data)
    requires g.Ok() && sc.off <= |sc.vars| && Fits(g, sc, s) && s.Call?
    requires Placed(p, m, g, depth, sc, StmtCode(g, sc, s), High(p, fuel, depth, s, st) <= d.cap, st, d)
    requires TameProgram(p, g) && TameStmt(g, sc, s)
    ensures Benign(Exec(p, fuel, depth, s, st))
    decreases fuel, s, 1
  {
    hide Agree, ExprCode, EvalExpr, EvalArgs, BlockCode, FitsBlock, TameBlock, Tame, ArgsCode, Compiled, TameProgram;
    var ca := CallParts(p, m, g, sc, s, fuel, depth, st, d);
    hide StmtCode, Fits, World;
    TameArgs(p.fl, sc.vars, s.args, g.fns[s.func].params, st.store, d.locals);
    var na, fa := ArgsRun(m, sc, s.args, g.fns[s.func].params, st.store, d);
    var (vs, err) := EvalArgs(p.fl, st.store, s.args);
    if err.None? && depth > 0 && fuel > 0 {
      assert fa.d.stack[|d.stack|..] == vs;
      TameCallee(p, m, g, s, vs, fuel, depth, fa.d);
    }
  }

  lemma {:induction false} TameCallee(p: Program, m: Vm, g: Globals, s: Stmt, vs: seq<Value>, fuel: nat, depth: nat,
                                      d: Data)
    requires Invocable(p, m, g, depth, s, vs, d) && TameProgram(p, g) && fuel > 0 && depth > 0
    ensures s.func in p.funcs && |vs| == |p.funcs[s.func].params|
    ensures Benign(ExecBlock(p, fuel - 1, depth - 1, p.funcs[s.func].body,
                             State(BindParams(p.funcs[s.func].params, vs), [])))
    decreases fuel, s, 0
  {
    hide ExecBlock, BlockCode, FitsBlock, TameBlock, HighBlock, Placed, World, FreshData;
    var decl, m', d' := CalleeParts(p, m, g, fuel - 1, depth, s, vs, d);
    assert s.func in p.funcs;
    TameBody(p, m', g, FuncScope(decl.params), decl.body, fuel - 1, depth - 1, State(BindParams(decl.params, vs), []),
             d');
  }

  lemma {:induction false} TameBody(p: Program, m: Vm, g: Globals, sc: Scope, b: Block,
                                    fuel: nat, depth: nat, st: State, d: Data)
    requires g.Ok() && sc.off <= |sc.vars| && FitsBlock(g, sc, b)
    requires Placed(p, m, g, depth, sc, BlockCode(g, sc, b), HighBlock(p, fuel, depth, b, st) <= d.cap, st, d)
    requires TameProgram(p, g) && TameBlock(g, sc, b)
    ensures Benign(ExecBlock(p, fuel, depth, b, st))
    decreases fuel, b, 0
  {
    if b.Then? {
      hide Exec, Agree, World, StmtCode, Fits, BlockCode, FitsBlock, TameStmt, TameProgram;
      var r, r2 := BlockParts(p, m, g, sc, b, fuel, depth, st, d);
      TameRun(p, m, g, sc, b.head, fuel, depth, st, d);
      var n, fate := StmtRun(p, m, g, sc, b.head, fuel, depth, st, d);
      var o := Exec(p, fuel, depth, b.head, st);
      if o.Done? {
        Onward(p, m, g, sc, r, r2, b, fuel, depth, st, d, fate.d);
        TameBody(p, m, g, r.sc, b.tail, fuel, depth, o.st, fate.d);
      }
    }
  }

  lemma {:induction false} TameScope(p: Program, m: Vm, g: Globals, sc: Scope, b: Block,
                                     fuel: nat, depth: nat, st: State, d: Data)
    requires g.Ok() && sc.off <= |sc.vars| && FitsBlock(g, sc, b)
    requires Placed(p, m, g, depth, sc, BlockCode(g, sc, b), HighBlock(p, fuel, depth, b, st) <= d.cap, st, d)
    requires TameProgram(p, g) && TameBlock(g, sc, b)
    ensures Benign(ExecScope(p, fuel, depth, b, st))
    decreases fuel, b, 1
  {
    hide ExecBlock, BlockCode, FitsBlock, TameBlock, Agree, World;
    TameBody(p, m, g, sc, b, fuel, depth, st, d);
  }

  /** Type soundness of whole runs: a tame program's machine run never meets an
      instruction at the wrong type, never dispatches the panic handler and never
      leaves its memory. Only a refused division and an exhausted call stack
      remain. */
  lemma TypeSoundness(p: Program, m: Vm, g: Globals, depth: nat, sc: Scope, b: Block, st: State, d: Data,
                      n: nat, why: Fault)
    requires Starts(p, m, g, depth, sc, b, st, d) && TameProgram(p, g) && TameBlock(g, sc, b)
    requires Takes(m, Mid(Code(g, sc, b), 0, d), n, Trap(why))
    ensures why == Arith || why == CallDepth
  {
    hide Takes, ExecBlock, BlockCode, FitsBlock, TameBlock, TameProgram, Agree, World, HighBlock, BlockNeed;
    MachineToSource(p, m, g, depth, sc, b, st, d, n, Trap(why));
    StartsFitted(p, m, g, depth, sc, b, st, d, n + 1);
    TameBody(p, m, g, sc, b, n + 1, depth, st, d);
  }
}
