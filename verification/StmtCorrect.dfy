/** Statement code does what its statement means. */
module StmtCorrect {
  import opened Words
  import opened Ast
  import opened Language
  import opened Bytecode
  import opened Machine
  import opened Runs
  import opened Codegen
  import opened Needs
  import opened Layout
  import opened ExprCorrect

  function ParamVars(params: seq<Param>): seq<Var> {
    seq(|params|, i requires 0 <= i < |params| => Var(params[i].name, params[i].ty))
  }

  function ParamTypes(decl: FuncDecl): seq<Ty> {
    seq(|decl.params|, i requires 0 <= i < |decl.params| => decl.params[i].ty)
  }

  /** The scope a function body is compiled in: parameter i in slot i. */
  function FuncScope(params: seq<Param>): Scope {
    Scope(ParamVars(params), 0, 0x80, 0, |params|, 0)
  }

  /** `func` is the registered form of the compiled `decl`. */
  ghost predicate Compiled(g: Globals, decl: FuncDecl, func: Func)
    requires g.Ok()
  {
    var r := BlockCode(g, FuncScope(decl.params), decl.body);
    && Distinct(ParamVars(decl.params))
    && (forall i :: 0 <= i < |decl.params| ==> decl.params[i].ty != Unknown)
    && r.SCode? && FitsBlock(g, FuncScope(decl.params), decl.body)
    && r.sc.vmax <= 0x100
    && func.argc == |decl.params| && func.nvars == r.sc.vmax && func.body == r.code
  }

  /** The machine's function table holds the compiled program. `depth` more calls
      can be opened. Where operand memory is checked there is enough of it. */
  ghost predicate World(p: Program, m: Vm, g: Globals, depth: nat) {
    && g.Ok() && m.fl == p.fl && m.limit == depth + 1
    && g.fns.Keys == p.funcs.Keys
    && forall f :: f in p.funcs ==>
         var (sig, decl) := (g.fns[f], p.funcs[f]);
         && sig.params == ParamTypes(decl)
         && sig.index in m.funcs && Compiled(g, decl, m.funcs[sig.index])
         && (m.checked ==> Roomy(decl, m.funcs[sig.index]))
  }

  /** The operand memory of a function covers what its body needs. */
  ghost predicate Roomy(decl: FuncDecl, func: Func) {
    Suffices(BlockNeed(ParamNames(decl.params), decl.body), 0, func.nstack)
  }

  /** The frame and the source state stand at the same point, and the frame has
      the slots the compiler recorded in `sc'` and the operand words still needed. */
  ghost predicate Ready(m: Vm, sc: Scope, sc': Scope, enough: bool, st: State, d: Data) {
    && sc.off <= |sc.vars| <= sc.vmax
    && Agree(sc.vars, st.store, d.locals) && d.stack == st.pushed
    && sc'.vmax <= 0x100 && sc'.vmax <= |d.locals|
    && (m.checked ==> enough)
  }

  /** The machine's fate is what the source program does. A source run that is
      out of fuel has kept the machine busy for at least that many steps. */
  ghost predicate Mirrors(o: Outcome, fuel: nat, vars: seq<Var>, d: Data, n: nat, fate: Fate) {
    match o
    case Done(st) =>
      && fate.Ends? && fate.d.stack == st.pushed && fate.d.cap == d.cap
      && |fate.d.locals| == |d.locals| && Agree(vars, st.store, fate.d.locals)
    case Crash(why) => fate == Dies(why) && Sane(why)
    case Timeout => fate.Lasts? && n >= fuel
  }

  // ---- assignments ----

  lemma LookupSnoc(vars: seq<Var>, v: Var, x: string)
    ensures Lookup(vars + [v], x) ==
            if Lookup(vars, x).Some? then Lookup(vars, x)
            else if v.name == x then Some(|vars|) else None
  {
    if vars != [] {
      assert (vars + [v])[1..] == vars[1..] + [v];
      LookupSnoc(vars[1..], v, x);
    }
  }

  lemma AgreeStore(vars: seq<Var>, store: Store, locals: seq<Word>, k: nat, v: Value)
    requires Agree(vars, store, locals) && k < |vars| && TyOf(v) == vars[k].ty
    ensures Agree(vars, store[vars[k].name := v], locals[k := Some(v)])
  {
    LookupAt(vars, k);
  }

  lemma AgreeDefine(vars: seq<Var>, store: Store, locals: seq<Word>, x: string, v: Value)
    requires Agree(vars, store, locals) && Lookup(vars, x).None?
    requires |vars| < |locals| && |vars| < 0x100
    ensures Agree(vars + [Var(x, TyOf(v))], store[x := v], locals[|vars| := Some(v)])
  {
    var vars', locals' := vars + [Var(x, TyOf(v))], locals[|vars| := Some(v)];
    forall y ensures y in store[x := v] <==> Lookup(vars', y).Some? {
      LookupSnoc(vars, Var(x, TyOf(v)), y);
    }
    forall i | 0 <= i < |vars'|
      ensures vars'[i].name in store[x := v] && locals'[i] == Some(store[x := v][vars'[i].name])
      ensures TyOf(store[x := v][vars'[i].name]) == vars'[i].ty
    {
      if i < |vars| { assert vars'[i] == vars[i] && vars[i].name != x; }
    }
    assert Distinct(vars') by { hide Lookup; }
    hide Lookup, Distinct;
  }

  lemma SaveRun(m: Vm, d: Data, v: Value, k: nat)
    requires k < |d.locals| && k < 0x100
    ensures Fares(m, Encode(SaveInstr(TyOf(v), k)), WithTop(d, v), 1, Ends(d.(locals := d.locals[k := Some(v)])))
  {
    Simple(m, SaveInstr(TyOf(v), k), WithTop(d, v));
    assert WithTop(d, v).stack[..|d.stack|] == d.stack;
  }

  /** Evaluate, convert to the type of the slot, store. */
  lemma StoreRun(m: Vm, vars: seq<Var>, e: Expr, vt: Ty, k: nat, store: Store, d: Data)
    returns (n: nat, fate: Fate)
    requires ExprCode(vars, e).ECode? && vt != Unknown && Wider(vt, ExprCode(vars, e).ty) == vt
    requires Agree(vars, store, d.locals) && Room(m, d, Depth(e))
    requires k < |d.locals| && k < 0x100
    ensures Fares(m, ExprCode(vars, e).code + CastTo(vt, ExprCode(vars, e).ty) + Encode(SaveInstr(vt, k)), d, n, fate)
    ensures match EvalExpr(m.fl, store, e)
            case Val(v) => && TyOf(v) == ExprCode(vars, e).ty && TyOf(Lifted(m.fl, vt, v)) == vt
                           && fate == Ends(d.(locals := d.locals[k := Some(Lifted(m.fl, vt, v))]))
            case Err(why) => fate == Dies(why) && Sane(why)
  {
    hide Fares, CastTo, SaveInstr;
    var code, save := ExprCode(vars, e).code + CastTo(vt, ExprCode(vars, e).ty), Encode(SaveInstr(vt, k));
    n, fate := OperandRun(m, vars, e, vt, store, d);
    if fate.Ends? {
      var w := Lifted(m.fl, vt, EvalExpr(m.fl, store, e).v);
      var d' := d.(locals := d.locals[k := Some(w)]);
      SaveRun(m, d, w, k);
      Sequence(m, code, save, d, n, WithTop(d, w), 1, Ends(d'));
      n, fate := n + 1, Ends(d');
    } else {
      Stuck(m, code, save, d, n, fate);
    }
  }

  lemma AssignRun(p: Program, m: Vm, sc: Scope, x: string, e: Expr, fuel: nat, depth: nat, st: State, d: Data)
    returns (n: nat, fate: Fate)
    requires sc.off <= |sc.vars| && AssignCode(sc, x, e).SCode? && m.fl == p.fl
    requires Ready(m, sc, AssignCode(sc, x, e).sc, |st.pushed| + Depth(e) <= d.cap, st, d)
    ensures Fares(m, AssignCode(sc, x, e).code, d, n, fate)
    ensures Mirrors(Exec(p, fuel, depth, Assign(x, e), st), fuel, AssignCode(sc, x, e).sc.vars, d, n, fate)
  {
    hide Fares, SaveInstr, Encode, ExprCode, EvalExpr, CastTo;
    if Lookup(sc.vars, x).Some? {
      n, fate := ReassignRun(p, m, sc, x, e, fuel, depth, st, d);
    } else {
      n, fate := DefineRun(p, m, sc, x, e, fuel, depth, st, d);
    }
  }

  /** An assignment's meaning, by the slot its variable has, if any. */
  lemma ExecAssign(p: Program, fuel: nat, depth: nat, x: string, e: Expr, st: State, vars: seq<Var>, locals: seq<Word>)
    requires Agree(vars, st.store, locals)
    ensures Lookup(vars, x).Some? ==>
              var k := Lookup(vars, x).value;
              vars[k].name == x && vars[k].ty != Unknown && x in st.store && TyOf(st.store[x]) == vars[k].ty
                  && k < |locals| && k < 0x100
    ensures Lookup(vars, x).None? ==> x !in st.store
    ensures Exec(p, fuel, depth, Assign(x, e), st) ==
            match EvalExpr(p.fl, st.store, e)
            case Err(why) => Crash(why)
            case Val(v) =>
              match Update(p.fl, st.store, x, v)
              case None => Crash(Confused)
              case Some(store) => Done(st.(store := store))
  {
    hide EvalExpr, Update;
  }

  lemma ReassignRun(p: Program, m: Vm, sc: Scope, x: string, e: Expr, fuel: nat, depth: nat, st: State, d: Data)
    returns (n: nat, fate: Fate)
    requires sc.off <= |sc.vars| && AssignCode(sc, x, e).SCode? && m.fl == p.fl && Lookup(sc.vars, x).Some?
    requires Ready(m, sc, AssignCode(sc, x, e).sc, |st.pushed| + Depth(e) <= d.cap, st, d)
    ensures Fares(m, AssignCode(sc, x, e).code, d, n, fate)
    ensures Mirrors(Exec(p, fuel, depth, Assign(x, e), st), fuel, sc.vars, d, n, fate)
  {
    ExecAssign(p, fuel, depth, x, e, st, sc.vars, d.locals);
    hide Fares, SaveInstr, Encode, ExprCode, EvalExpr, CastTo, Exec, Agree, Lookup;
    var k := Lookup(sc.vars, x).value;
    n, fate := StoreRun(m, sc.vars, e, sc.vars[k].ty, k, st.store, d);
    if fate.Ends? {
      AgreeStore(sc.vars, st.store, d.locals, k, fate.d.locals[k].value);
    }
  }

  lemma DefineRun(p: Program, m: Vm, sc: Scope, x: string, e: Expr, fuel: nat, depth: nat, st: State, d: Data)
    returns (n: nat, fate: Fate)
    requires sc.off <= |sc.vars| && AssignCode(sc, x, e).SCode? && m.fl == p.fl && Lookup(sc.vars, x).None?
    requires Ready(m, sc, AssignCode(sc, x, e).sc, |st.pushed| + Depth(e) <= d.cap, st, d)
    ensures Fares(m, AssignCode(sc, x, e).code, d, n, fate)
    ensures Mirrors(Exec(p, fuel, depth, Assign(x, e), st), fuel, AssignCode(sc, x, e).sc.vars, d, n, fate)
  {
    ExecAssign(p, fuel, depth, x, e, st, sc.vars, d.locals);
    hide Fares, SaveInstr, Encode, ExprCode, EvalExpr, Exec, Agree, Lookup;
    var c := ExprCode(sc.vars, e);
    assert CastTo(c.ty, c.ty) == [];
    assert c.code + [] == c.code;
    n, fate := StoreRun(m, sc.vars, e, c.ty, |sc.vars|, st.store, d);
    if fate.Ends? {
      AgreeDefine(sc.vars, st.store, d.locals, x, fate.d.locals[|sc.vars|].value);
    }
  }

  // ---- bare expressions and calls ----

  lemma ValuelessCode(vars: seq<Var>, names: set<string>, e: Expr)
    requires forall x :: x in names <==> Lookup(vars, x).Some?
    requires !ExprCode(vars, e).EPanic?
    ensures Valueless(names, e) <==> ExprCode(vars, e).ENone?
  {
  }

  lemma BareRun(p: Program, m: Vm, sc: Scope, e: Expr, fuel: nat, depth: nat, st: State, d: Data)
    returns (n: nat, fate: Fate)
    requires m.fl == p.fl && !ExprCode(sc.vars, e).EPanic?
    requires Agree(sc.vars, st.store, d.locals) && d.stack == st.pushed
    requires m.checked ==> High(p, fuel, depth, Bare(e), st) <= d.cap
    ensures Fares(m, CodeOf(ExprCode(sc.vars, e)), d, n, fate)
    ensures Mirrors(Exec(p, fuel, depth, Bare(e), st), fuel, sc.vars, d, n, fate)
  {
    ValuelessCode(sc.vars, st.store.Keys, e);
    if ExprCode(sc.vars, e).ECode? {
      hide Fares, ExprCode, EvalExpr, Valueless;
      n, fate := ExprRun(m, sc.vars, e, st.store, d);
    } else {
      n, fate := 0, Ends(d);
    }
  }

  /** The arguments' values end up on the operand stack, first one deepest. */
  lemma {:induction false} ArgsRun(m: Vm, sc: Scope, args: seq<Expr>, params: seq<Ty>, store: Store, d: Data)
    returns (n: nat, fate: Fate)
    requires ArgsCode(sc, args).SCode? && ArgsFit(sc.vars, args, params)
    requires Agree(sc.vars, store, d.locals) && Room(m, d, ArgsNeed(args))
    ensures Fares(m, ArgsCode(sc, args).code, d, n, fate)
    ensures var (vs, err) := EvalArgs(m.fl, store, args);
            match err
            case Some(why) => fate == Dies(why) && Sane(why)
            case None => && fate == Ends(d.(stack := d.stack + vs)) && |vs| == |params|
                         && forall i :: 0 <= i < |vs| ==> TyOf(vs[i]) == params[i]
    decreases args
  {
    hide *;
    if args == [] {
      ArgsEmpty(m, sc, params, store, d);
      n, fate := 0, Ends(d);
      return;
    }
    ArgsSplit(sc, args, params);
    EvalArgsSplit(m.fl, store, args, d.stack);
    ArgsRoom(m, d, args);
    var c, sc1 := ExprCode(sc.vars, args[0]), Pushed(sc, ExprCode(sc.vars, args[0]), args[0]);
    n, fate := ExprRun(m, sc.vars, args[0], store, d);
    if fate.Ends? {
      var v := EvalExpr(m.fl, store, args[0]).v;
      RoomAbove(m, d, v, 1 + ArgsNeed(args[1..]), ArgsNeed(args[1..]));
      Above(d, v);
      var n2, fate2 := ArgsRun(m, sc1, args[1..], params[1..], store, WithTop(d, v));
      Sequence(m, c.code, ArgsCode(sc1, args[1..]).code, d, n, WithTop(d, v), n2, fate2);
      n, fate := n + n2, fate2;
    } else {
      Stuck(m, c.code, ArgsCode(sc1, args[1..]).code, d, n, fate);
    }
  }

  lemma ArgsRoom(m: Vm, d: Data, args: seq<Expr>)
    requires args != [] && Room(m, d, ArgsNeed(args))
    ensures Room(m, d, Depth(args[0])) && Room(m, d, 1 + ArgsNeed(args[1..]))
  {
    hide Depth;
  }

  lemma Above(d: Data, v: Value)
    ensures WithTop(d, v) == d.(stack := d.stack + [v])
  {
  }

  lemma ArgsEmpty(m: Vm, sc: Scope, params: seq<Ty>, store: Store, d: Data)
    requires ArgsFit(sc.vars, [], params)
    ensures ArgsCode(sc, []) == SCode([], sc) && EvalArgs(m.fl, store, []) == ([], None) && params == []
    ensures Fares(m, [], d, 0, Ends(d)) && d.(stack := d.stack + []) == d
  {
    assert d.stack + [] == d.stack;
  }

  lemma ArgsSplit(sc: Scope, args: seq<Expr>, params: seq<Ty>)
    requires args != [] && ArgsCode(sc, args).SCode? && ArgsFit(sc.vars, args, params)
    ensures var c := ExprCode(sc.vars, args[0]);
            var rest := ArgsCode(Pushed(sc, c, args[0]), args[1..]);
            && |params| == |args| && c.ECode? && c.ty == params[0]
            && Pushed(sc, c, args[0]).vars == sc.vars
            && rest.SCode? && ArgsCode(sc, args).code == c.code + rest.code
            && ArgsFit(sc.vars, args[1..], params[1..])
  {
    hide ExprCode, Depth;
  }

  lemma EvalArgsSplit(fl: FloatOps, store: Store, args: seq<Expr>, stack: seq<Value>)
    requires args != []
    ensures match EvalExpr(fl, store, args[0])
            case Err(why) => EvalArgs(fl, store, args) == ([], Some(why))
            case Val(v) =>
              var (vs, err) := EvalArgs(fl, store, args[1..]);
              && EvalArgs(fl, store, args) == ([v] + vs, err)
              && stack + [v] + vs == stack + ([v] + vs)
  {
  }

  lemma ParamVarsSnoc(params: seq<Param>)
    requires params != []
    ensures var k := |params| - 1;
            ParamVars(params) == ParamVars(params[..k]) + [Var(params[k].name, params[k].ty)]
  {
  }

  lemma {:induction false} BindParamsDomain(params: seq<Param>, vs: seq<Value>, x: string)
    requires |params| == |vs|
    ensures x in BindParams(params, vs) <==> Lookup(ParamVars(params), x).Some?
  {
    if params != [] {
      var k := |params| - 1;
      ParamVarsSnoc(params);
      BindParamsDomain(params[..k], vs[..k], x);
      LookupSnoc(ParamVars(params[..k]), Var(params[k].name, params[k].ty), x);
    }
  }

  lemma {:induction false} BindParamsAt(params: seq<Param>, vs: seq<Value>, i: nat)
    requires |params| == |vs| && Distinct(ParamVars(params)) && i < |params|
    ensures params[i].name in BindParams(params, vs) && BindParams(params, vs)[params[i].name] == vs[i]
  {
    var k := |params| - 1;
    assert ParamVars(params)[i].name == params[i].name && ParamVars(params)[k].name == params[k].name;
    if i < k {
      assert forall j :: 0 <= j < k ==> ParamVars(params[..k])[j] == ParamVars(params)[j];
      BindParamsAt(params[..k], vs[..k], i);
    }
  }

  /** A callee starts with argument i in slot i, the slot its body uses for
      parameter i. */
  lemma AgreeEntry(m: Vm, params: seq<Param>, func: Func, vs: seq<Value>)
    requires |params| == |vs| <= func.nvars && |vs| <= 0x100 && Distinct(ParamVars(params))
    requires forall i :: 0 <= i < |vs| ==> TyOf(vs[i]) == params[i].ty
    ensures Agree(ParamVars(params), BindParams(params, vs), Entry(m, func, vs).locals)
  {
    forall x ensures x in BindParams(params, vs) <==> Lookup(ParamVars(params), x).Some? {
      BindParamsDomain(params, vs, x);
    }
    forall i | 0 <= i < |params|
      ensures params[i].name in BindParams(params, vs) && BindParams(params, vs)[params[i].name] == vs[i]
    {
      BindParamsAt(params, vs, i);
    }
  }

  lemma DepthExceeded(m: Vm, pre: seq<byte>, index: nat, d: Data, exit: int)
    requires index < 0x1_0000 && index in m.funcs && m.limit == 1
    requires m.funcs[index].argc <= |d.stack| && m.funcs[index].argc <= m.funcs[index].nvars
    ensures Goes(m, pre + Encode(Invoke(index)), |pre|, d, 1, Dies(CallDepth), exit)
  {
    hide Handle;
    FetchEncoded(pre, Invoke(index), []);
    assert pre + Encode(Invoke(index)) + [] == pre + Encode(Invoke(index));
  }

  // ---- statements, blocks and scopes ----

  lemma AgreeLeave(vars: seq<Var>, vars': seq<Var>, store: Store, store': Store, locals: seq<Word>, locals': seq<Word>)
    requires vars <= vars' && Agree(vars, store, locals) && Agree(vars', store', locals')
    ensures Agree(vars, Leave(store', store), locals')
  {
    forall i | 0 <= i < |vars| ensures vars[i] == vars'[i] {}
  }

  /** What `StmtRun` and `BlockRun` assume of a piece of code with outcome `r`. */
  ghost predicate Placed(p: Program, m: Vm, g: Globals, depth: nat, sc: Scope, r: SCode, enough: bool, st: State,
                         d: Data) {
    && World(p, m, g, depth) && sc.off <= |sc.vars|
    && r.SCode? && Ready(m, sc, r.sc, enough, st, d)
  }

  lemma {:induction false} StmtRun(p: Program, m: Vm, g: Globals, sc: Scope, s: Stmt,
                                   fuel: nat, depth: nat, st: State, d: Data)
    returns (n: nat, fate: Fate)
    requires g.Ok() && sc.off <= |sc.vars| && Fits(g, sc, s)
    requires Placed(p, m, g, depth, sc, StmtCode(g, sc, s), High(p, fuel, depth, s, st) <= d.cap, st, d)
    ensures Fares(m, StmtCode(g, sc, s).code, d, n, fate)
    ensures Mirrors(Exec(p, fuel, depth, s, st), fuel, StmtCode(g, sc, s).sc.vars, d, n, fate)
    decreases fuel, s, 2
  {
    hide Fares, ExprCode, EvalExpr, Agree, Mirrors;
    match s
    case Assign(x, e) => n, fate := AssignRun(p, m, sc, x, e, fuel, depth, st, d);
    case Bare(e) => n, fate := BareRun(p, m, sc, e, fuel, depth, st, d);
    case Call(_, _) => n, fate := CallRun(p, m, g, sc, s, fuel, depth, st, d);
    case If(_, _, _) => n, fate := IfRun(p, m, g, sc, s, fuel, depth, st, d);
    case While(_, _) => n, fate := WhileRun(p, m, g, sc, s, fuel, depth, st, d);
  }

  lemma {:induction false} BlockRun(p: Program, m: Vm, g: Globals, sc: Scope, b: Block,
                                    fuel: nat, depth: nat, st: State, d: Data)
    returns (n: nat, fate: Fate)
    requires g.Ok() && sc.off <= |sc.vars| && FitsBlock(g, sc, b)
    requires Placed(p, m, g, depth, sc, BlockCode(g, sc, b), HighBlock(p, fuel, depth, b, st) <= d.cap, st, d)
    ensures Fares(m, BlockCode(g, sc, b).code, d, n, fate)
    ensures Mirrors(ExecBlock(p, fuel, depth, b, st), fuel, BlockCode(g, sc, b).sc.vars, d, n, fate)
    decreases fuel, b, 0
  {
    hide Fares, Exec, Agree, World, StmtCode, Fits, BlockCode, FitsBlock;
    if b.End? {
      EndCode(g, sc);
      EmptyRun(m, d);
      return 0, Ends(d);
    }
    var s, rest := b.head, b.tail;
    var r, r2 := BlockParts(p, m, g, sc, b, fuel, depth, st, d);
    n, fate := StmtRun(p, m, g, sc, s, fuel, depth, st, d);
    if fate.Ends? {
      var st1 := Exec(p, fuel, depth, s, st).st;
      Onward(p, m, g, sc, r, r2, b, fuel, depth, st, d, fate.d);
      var n2, fate2 := BlockRun(p, m, g, r.sc, rest, fuel, depth, st1, fate.d);
      Sequence(m, r.code, r2.code, d, n, fate.d, n2, fate2);
      n, fate := n + n2, fate2;
    } else {
      Stuck(m, r.code, r2.code, d, n, fate);
    }
  }

  lemma EndCode(g: Globals, sc: Scope)
    requires g.Ok() && sc.off <= |sc.vars|
    ensures BlockCode(g, sc, End) == SCode([], sc)
  {
  }

  lemma BlockParts(p: Program, m: Vm, g: Globals, sc: Scope, b: Block, fuel: nat, depth: nat, st: State, d: Data)
    returns (r: SCode, r2: SCode)
    requires g.Ok() && sc.off <= |sc.vars| && FitsBlock(g, sc, b) && b.Then?
    requires Placed(p, m, g, depth, sc, BlockCode(g, sc, b), HighBlock(p, fuel, depth, b, st) <= d.cap, st, d)
    ensures r == StmtCode(g, sc, b.head) && r.SCode? && Fits(g, sc, b.head) && Grows(sc, r.sc)
    ensures Placed(p, m, g, depth, sc, r, High(p, fuel, depth, b.head, st) <= d.cap, st, d)
    ensures r2 == BlockCode(g, r.sc, b.tail) && r2.SCode? && FitsBlock(g, r.sc, b.tail) && Grows(r.sc, r2.sc)
    ensures BlockCode(g, sc, b) == SCode(r.code + r2.code, r2.sc)
  {
    hide Agree, World, StmtCode, Fits;
    r := StmtCode(g, sc, b.head);
    r2 := BlockCode(g, r.sc, b.tail);
  }

  /** After one statement the rest of its block is ready. */
  lemma Onward(p: Program, m: Vm, g: Globals, sc: Scope, r: SCode, r2: SCode, b: Block, fuel: nat, depth: nat,
               st: State, d: Data, d1: Data)
    requires b.Then? && Placed(p, m, g, depth, sc, r2, HighBlock(p, fuel, depth, b, st) <= d.cap, st, d)
    requires r.SCode? && Grows(sc, r.sc) && Grows(r.sc, r2.sc) && Exec(p, fuel, depth, b.head, st).Done?
    requires var st1 := Exec(p, fuel, depth, b.head, st).st;
             && Agree(r.sc.vars, st1.store, d1.locals) && d1.stack == st1.pushed
             && d1.cap == d.cap && |d1.locals| == |d.locals|
    ensures var st1 := Exec(p, fuel, depth, b.head, st).st;
            Placed(p, m, g, depth, r.sc, r2, HighBlock(p, fuel, depth, b.tail, st1) <= d1.cap, st1, d1)
  {
    hide World, Agree, Exec, High;
  }

  /** A child scope: on the way out its variables are gone, the outer ones have
      their current values. */
  lemma {:induction false} ScopeRun(p: Program, m: Vm, g: Globals, sc: Scope, b: Block,
                                    fuel: nat, depth: nat, st: State, d: Data)
    returns (n: nat, fate: Fate)
    requires g.Ok() && sc.off <= |sc.vars| && FitsBlock(g, sc, b)
    requires Placed(p, m, g, depth, sc, BlockCode(g, sc, b), HighBlock(p, fuel, depth, b, st) <= d.cap, st, d)
    ensures Fares(m, BlockCode(g, sc, b).code, d, n, fate)
    ensures Mirrors(ExecScope(p, fuel, depth, b, st), fuel, sc.vars, d, n, fate)
    decreases fuel, b, 1
  {
    hide Fares, ExecBlock, Agree, World, BlockCode;
    n, fate := BlockRun(p, m, g, sc, b, fuel, depth, st, d);
    var o := ExecBlock(p, fuel, depth, b, st);
    if o.Done? {
      AgreeLeave(sc.vars, BlockCode(g, sc, b).sc.vars, st.store, o.st.store, d.locals, fate.d.locals);
    }
  }

  /** The pieces of an `if`, each ready to run. */
  lemma IfParts(p: Program, m: Vm, g: Globals, sc: Scope, s: Stmt, fuel: nat, depth: nat, st: State, d: Data)
    returns (c: ECode, ct: SCode, cf: SCode, sct: Scope, scf: Scope)
    requires g.Ok() && sc.off <= |sc.vars| && Fits(g, sc, s) && s.If?
    requires Placed(p, m, g, depth, sc, StmtCode(g, sc, s), High(p, fuel, depth, s, st) <= d.cap, st, d)
    ensures c == ExprCode(sc.vars, s.cond) && c.ECode? && Room(m, d, Depth(s.cond)) && m.fl == p.fl
    ensures var sc1 := Pushed(sc, c, s.cond);
            sct == Child(sc1, sc1.ssize) && ct.SCode? && scf == Child(Back(sc1, ct.sc), sc1.ssize)
    ensures ct == BlockCode(g, sct, s.thn) && FitsBlock(g, sct, s.thn)
    ensures cf == BlockCode(g, scf, s.els) && cf.SCode? && FitsBlock(g, scf, s.els)
    ensures match EvalExpr(m.fl, st.store, s.cond)
            case Val(IntV(i)) =>
              if i != 0 then Placed(p, m, g, depth, sct, ct, HighBlock(p, fuel, depth, s.thn, st) <= d.cap, st, d)
              else Placed(p, m, g, depth, scf, cf, HighBlock(p, fuel, depth, s.els, st) <= d.cap, st, d)
            case _ => true
    ensures |ct.code| + 3 < g.reach && |cf.code| < 0x1_0000
    ensures StmtCode(g, sc, s).code == IfBytes(c.code, ct.code, cf.code)
  {
    c, ct, cf, sct, scf := IfLayout(g, sc, s);
    hide Agree, World, ExprCode, Encode, BlockCode, FitsBlock, StmtCode, Fits, IfBytes;
    FlOfWorld(p, m, g, depth);
  }

  lemma FlOfWorld(p: Program, m: Vm, g: Globals, depth: nat)
    requires World(p, m, g, depth)
    ensures m.fl == p.fl
  {
  }

  lemma {:induction false} IfRun(p: Program, m: Vm, g: Globals, sc: Scope, s: Stmt,
                                 fuel: nat, depth: nat, st: State, d: Data)
    returns (n: nat, fate: Fate)
    requires g.Ok() && sc.off <= |sc.vars| && Fits(g, sc, s) && s.If?
    requires Placed(p, m, g, depth, sc, StmtCode(g, sc, s), High(p, fuel, depth, s, st) <= d.cap, st, d)
    ensures Fares(m, StmtCode(g, sc, s).code, d, n, fate)
    ensures Mirrors(Exec(p, fuel, depth, s, st), fuel, sc.vars, d, n, fate)
    decreases fuel, s, 1
  {
    hide Fares, Agree, World, Encode, ExprCode, EvalExpr, BlockCode, StmtCode, Fits, FitsBlock, ExecScope;
    var c, ct, cf, sct, scf := IfParts(p, m, g, sc, s, fuel, depth, st, d);
    var nc, fc := ExprRun(m, sc.vars, s.cond, st.store, d);
    var v := EvalExpr(m.fl, st.store, s.cond);
    var rest := ct.code + Encode(Jmp(|cf.code|)) + cf.code;
    if v.Err? {
      Stuck(m, c.code, Encode(Jez(|ct.code| + 3)) + rest, d, nc, fc);
      n, fate := nc, fc;
    } else if v.v.FltV? {
      DecideConfused(m, c.code, |ct.code| + 3, rest, d, nc, v.v);
      n, fate := nc + 1, Dies(Confused);
    } else if v.v.i != 0 {
      var nt;
      nt, fate := ScopeRun(p, m, g, sct, s.thn, fuel, depth, st, d);
      n := IfTrue(m, c.code, ct.code, cf.code, d, nc, v.v.i, nt, fate);
    } else {
      var nf;
      nf, fate := ScopeRun(p, m, g, scf, s.els, fuel, depth, st, d);
      n := IfFalse(m, c.code, ct.code, cf.code, d, nc, nf, fate);
    }
  }

  lemma WhileParts(p: Program, m: Vm, g: Globals, sc: Scope, s: Stmt, fuel: nat, depth: nat, st: State, d: Data)
    returns (c: ECode, b: SCode, child: Scope)
    requires g.Ok() && sc.off <= |sc.vars| && Fits(g, sc, s) && s.While?
    requires Placed(p, m, g, depth, sc, StmtCode(g, sc, s), High(p, fuel, depth, s, st) <= d.cap, st, d)
    ensures c == ExprCode(sc.vars, s.cond) && c.ECode? && Room(m, d, Depth(s.cond)) && m.fl == p.fl
    ensures child == Child(Pushed(sc, c, s.cond), 0)
    ensures b == BlockCode(g, child, s.body) && b.SCode? && FitsBlock(g, child, s.body)
    ensures match EvalExpr(m.fl, st.store, s.cond)
            case Val(IntV(i)) =>
              i != 0 ==> Placed(p, m, g, depth, child, b, HighBlock(p, fuel, depth, s.body, st) <= d.cap, st, d)
            case _ => true
    ensures |c.code| + |b.code| + 6 < g.reach
    ensures StmtCode(g, sc, s).code == WhileBytes(c.code, b.code)
  {
    c, b, child := WhileLayout(g, sc, s);
    hide Agree, World, ExprCode, Encode, BlockCode, FitsBlock, StmtCode, Fits, WhileBytes;
    FlOfWorld(p, m, g, depth);
  }

  /** Being ready again after one iteration. */
  lemma StillPlaced(p: Program, m: Vm, g: Globals, sc: Scope, r: SCode, s: Stmt, fuel: nat, depth: nat,
                    st: State, d: Data, d1: Data)
    requires s.While? && fuel > 0 && Placed(p, m, g, depth, sc, r, High(p, fuel, depth, s, st) <= d.cap, st, d)
    requires EntersLoop(p, s, st) && ExecScope(p, fuel, depth, s.body, st).Done?
    requires var st1 := ExecScope(p, fuel, depth, s.body, st).st;
             && Agree(sc.vars, st1.store, d1.locals) && d1.stack == st1.pushed
             && d1.cap == d.cap && |d1.locals| == |d.locals|
    ensures var st1 := ExecScope(p, fuel, depth, s.body, st).st;
            Placed(p, m, g, depth, sc, r, High(p, fuel - 1, depth, s, st1) <= d1.cap, st1, d1)
  {
    hide World, Agree, HighBlock, Depth, ExecScope, EvalExpr;
  }

  ghost predicate EntersLoop(p: Program, s: Stmt, st: State)
    requires s.While?
  {
    var v := EvalExpr(p.fl, st.store, s.cond);
    v.Val? && v.v.IntV? && v.v.i != 0
  }

  lemma ExecWhile(p: Program, fuel: nat, depth: nat, s: Stmt, st: State)
    requires s.While?
    ensures Exec(p, fuel, depth, s, st) ==
            match EvalExpr(p.fl, st.store, s.cond)
            case Err(why) => Crash(why)
            case Val(FltV(_)) => Crash(Confused)
            case Val(IntV(i)) =>
              if i == 0 then Done(st) else
              match ExecScope(p, fuel, depth, s.body, st)
              case Done(st1) => if fuel == 0 then Timeout else Exec(p, fuel - 1, depth, s, st1)
              case other => other
  {
    hide EvalExpr, ExecScope;
  }

  lemma PlacedAgrees(p: Program, m: Vm, g: Globals, depth: nat, sc: Scope, r: SCode, enough: bool, st: State, d: Data)
    requires Placed(p, m, g, depth, sc, r, enough, st, d)
    ensures r.SCode? && Agree(sc.vars, st.store, d.locals) && d.stack == st.pushed
  {
    hide Agree, World;
  }

  lemma {:induction false} WhileRun(p: Program, m: Vm, g: Globals, sc: Scope, s: Stmt,
                                    fuel: nat, depth: nat, st: State, d: Data)
    returns (n: nat, fate: Fate)
    requires g.Ok() && sc.off <= |sc.vars| && Fits(g, sc, s) && s.While?
    requires Placed(p, m, g, depth, sc, StmtCode(g, sc, s), High(p, fuel, depth, s, st) <= d.cap, st, d)
    ensures Fares(m, StmtCode(g, sc, s).code, d, n, fate)
    ensures Mirrors(Exec(p, fuel, depth, s, st), fuel, sc.vars, d, n, fate)
    decreases fuel, s, 1
  {
    hide Fares, Agree, World, Encode, ExprCode, EvalExpr, BlockCode, StmtCode, Fits, FitsBlock, Exec, ExecScope;
    hide High, HighBlock, Depth, Room, Placed;
    ExecWhile(p, fuel, depth, s, st);
    PlacedAgrees(p, m, g, depth, sc, StmtCode(g, sc, s), High(p, fuel, depth, s, st) <= d.cap, st, d);
    var c, cb, child := WhileParts(p, m, g, sc, s, fuel, depth, st, d);
    var b := cb.code;
    var nc, fc := ExprRun(m, sc.vars, s.cond, st.store, d);
    var v := EvalExpr(m.fl, st.store, s.cond);
    var rest := b + Encode(RJmp(|c.code| + |b| + 6));
    if v.Err? {
      Stuck(m, c.code, Encode(Jez(|b| + 3)) + rest, d, nc, fc);
      n, fate := nc, fc;
    } else if v.v.FltV? {
      DecideConfused(m, c.code, |b| + 3, rest, d, nc, v.v);
      n, fate := nc + 1, Dies(Confused);
    } else if v.v.i == 0 {
      WhileExit(m, c.code, b, d, nc);
      n, fate := nc + 1, Ends(d);
    } else {
      var nb, fb := ScopeRun(p, m, g, child, s.body, fuel, depth, st, d);
      if !fb.Ends? {
        WhileStuck(m, c.code, b, d, nc, v.v.i, nb, fb);
        n, fate := nc + 1 + nb, fb;
      } else if fuel == 0 {
        JumpWidth(|b| + 3);
        Alive(m, WhileBytes(c.code, b), d);
        n, fate := 0, Lasts;
      } else {
        var st1 := ExecScope(p, fuel, depth, s.body, st).st;
        StillPlaced(p, m, g, sc, StmtCode(g, sc, s), s, fuel, depth, st, d, fb.d);
        var n1;
        n1, fate := WhileRun(p, m, g, sc, s, fuel - 1, depth, st1, fb.d);
        n := WhileAgain(m, c.code, b, d, nc, v.v.i, nb, fb.d, n1, fate);
      }
    }
  }

  lemma {:induction false} CallRun(p: Program, m: Vm, g: Globals, sc: Scope, s: Stmt,
                                   fuel: nat, depth: nat, st: State, d: Data)
    returns (n: nat, fate: Fate)
    requires g.Ok() && sc.off <= |sc.vars| && Fits(g, sc, s) && s.Call?
    requires Placed(p, m, g, depth, sc, StmtCode(g, sc, s), High(p, fuel, depth, s, st) <= d.cap, st, d)
    ensures Fares(m, StmtCode(g, sc, s).code, d, n, fate)
    ensures Mirrors(Exec(p, fuel, depth, s, st), fuel, sc.vars, d, n, fate)
    decreases fuel, s, 1
  {
    hide Goes, Agree, World, Encode, ExprCode, EvalArgs, ArgsCode, StmtCode, Fits, ExecBlock;
    var f, args := s.func, s.args;
    var ca := CallParts(p, m, g, sc, s, fuel, depth, st, d);
    var invoke := Encode(Invoke(g.fns[f].index));
    var na, fa := ArgsRun(m, sc, args, g.fns[f].params, st.store, d);
    var (vs, err) := EvalArgs(m.fl, st.store, args);
    if !fa.Ends? {
      Stuck(m, ca, invoke, d, na, fa);
      return na, fa;
    }
    assert fa.d.stack[|d.stack|..] == vs;
    var nc, fc := CalleeRun(p, m, g, s, ca, vs, fuel, depth, fa.d);
    Inside(m, [], ca, invoke, d, na, fa);
    assert [] + ca + invoke == ca + invoke;
    InvokeWidth(g.fns[f].index);
    Join(m, ca + invoke, 0, d, na, fa.d, |ca|, nc, fc, |ca + invoke|);
    n, fate := na + nc, fc;
    AnswersLater(p, s, vs, fuel, depth, nc, n, fate, Ends(fa.d));
    CallMirrors(p, s, fuel, depth, st, sc.vars, d, n, fate, vs);
  }

  lemma CallParts(p: Program, m: Vm, g: Globals, sc: Scope, s: Stmt, fuel: nat, depth: nat, st: State, d: Data)
    returns (ca: seq<byte>)
    requires g.Ok() && sc.off <= |sc.vars| && Fits(g, sc, s) && s.Call?
    requires Placed(p, m, g, depth, sc, StmtCode(g, sc, s), High(p, fuel, depth, s, st) <= d.cap, st, d)
    ensures m.fl == p.fl && s.func in p.funcs && s.func in g.fns && Room(m, d, ArgsNeed(s.args))
    ensures g.fns[s.func].params == ParamTypes(p.funcs[s.func])
    ensures ArgsCode(sc, s.args).SCode? && ca == ArgsCode(sc, s.args).code
    ensures ArgsFit(sc.vars, s.args, g.fns[s.func].params)
    ensures StmtCode(g, sc, s).code == ca + Encode(Invoke(g.fns[s.func].index))
  {
    hide Agree, Encode, ExprCode, Compiled, ArgsCode;
    ca := ArgsCode(sc, s.args).code;
  }

  /** A call's fate is its body's; a body that is done leads back with `back`. */
  ghost predicate Answers(p: Program, s: Stmt, vs: seq<Value>, fuel: nat, depth: nat, n: nat, fate: Fate, back: Fate)
    requires s.Call? && s.func in p.funcs && |vs| == |p.funcs[s.func].params|
  {
    if depth == 0 then fate == Dies(CallDepth)
    else if fuel == 0 then fate.Lasts?
    else
      var start := State(BindParams(p.funcs[s.func].params, vs), []);
      match ExecBlock(p, fuel - 1, depth - 1, p.funcs[s.func].body, start)
      case Done(_) => fate == back
      case Crash(why) => fate == Dies(why) && Sane(why)
      case Timeout => fate.Lasts? && n >= fuel
  }

  lemma AnswersLater(p: Program, s: Stmt, vs: seq<Value>, fuel: nat, depth: nat, n: nat, n': nat, fate: Fate,
                     back: Fate)
    requires s.Call? && s.func in p.funcs && |vs| == |p.funcs[s.func].params|
    requires Answers(p, s, vs, fuel, depth, n, fate, back) && n <= n'
    ensures Answers(p, s, vs, fuel, depth, n', fate, back)
  {
    hide ExecBlock, BindParams;
  }

  /** A body's run answers the call. */
  lemma BodyAnswers(p: Program, s: Stmt, vs: seq<Value>, fuel: nat, depth: nat, n: nat, n': nat, fate: Fate,
                    fate': Fate,
                    vars: seq<Var>, d': Data, back: Fate)
    requires s.Call? && s.func in p.funcs && |vs| == |p.funcs[s.func].params| && fuel > 0 && depth > 0
    requires Mirrors(ExecBlock(p, fuel - 1, depth - 1, p.funcs[s.func].body,
                               State(BindParams(p.funcs[s.func].params, vs), [])),
                     fuel - 1, vars, d', n, fate)
    requires n' > n && fate' == if fate.Ends? then back else fate
    ensures Answers(p, s, vs, fuel, depth, n', fate', back)
  {
    hide ExecBlock, BindParams, Agree;
  }

  /** The outcome of a call, from the outcome of its body. */
  lemma CallMirrors(p: Program, s: Stmt, fuel: nat, depth: nat, st: State, vars: seq<Var>, d: Data,
                    n: nat, fate: Fate, vs: seq<Value>)
    requires s.Call? && s.func in p.funcs && EvalArgs(p.fl, st.store, s.args) == (vs, None)
    requires |vs| == |p.funcs[s.func].params|
    requires Agree(vars, st.store, d.locals) && d.stack == st.pushed
    requires Answers(p, s, vs, fuel, depth, n, fate, Ends(d.(stack := d.stack + vs)))
    ensures Mirrors(Exec(p, fuel, depth, s, st), fuel, vars, d, n, fate)
  {
    hide Agree, ExecBlock, EvalArgs, BindParams;
  }

  lemma InvokeWidth(index: nat)
    requires index < 0x1_0000
    ensures |Encode(Invoke(index))| == 3
  {
  }

  /** The argument values `vs` of a call are on top of the stack, of the parameters' types. */
  ghost predicate Invocable(p: Program, m: Vm, g: Globals, depth: nat, s: Stmt, vs: seq<Value>, d: Data) {
    && World(p, m, g, depth) && s.Call? && s.func in p.funcs
    && (var params := g.fns[s.func].params;
        |vs| == |params| && forall i :: 0 <= i < |vs| ==> TyOf(vs[i]) == params[i])
    && |vs| <= |d.stack| && d.stack[|d.stack| - |vs|..] == vs
  }

  ghost predicate Invoked(p: Program, m: Vm, g: Globals, s: Stmt, pre: seq<byte>, vs: seq<Value>,
                          fuel: nat, depth: nat, d: Data, n: nat, fate: Fate) {
    && s.Call? && s.func in g.fns && g.fns[s.func].index < 0x1_0000
    && Goes(m, pre + Encode(Invoke(g.fns[s.func].index)), |pre|, d, n, fate, |pre| + 3)
    && s.func in p.funcs && |vs| == |p.funcs[s.func].params|
    && Answers(p, s, vs, fuel, depth, n, fate, Ends(d))
  }

  /** The call instruction itself. */
  lemma {:induction false} CalleeRun(p: Program, m: Vm, g: Globals, s: Stmt, pre: seq<byte>, vs: seq<Value>,
                                     fuel: nat, depth: nat, d: Data)
    returns (n: nat, fate: Fate)
    requires Invocable(p, m, g, depth, s, vs, d)
    ensures Invoked(p, m, g, s, pre, vs, fuel, depth, d, n, fate)
    decreases fuel, s, 0
  {
    hide *;
    if depth == 0 || fuel == 0 {
      n, fate := CalleeNow(p, m, g, s, pre, vs, fuel, depth, d);
      return;
    }
    var decl, m', d' := CalleeParts(p, m, g, fuel - 1, depth, s, vs, d);
    var nb, fb := BlockRun(p, m', g, FuncScope(decl.params), decl.body, fuel - 1, depth - 1,
                           State(BindParams(decl.params, vs), []), d');
    n, fate := CalleeBack(p, m, g, s, pre, vs, fuel, depth, d, nb, fb);
  }

  /** Without a frame left the call fails, without fuel it has not begun. */
  lemma CalleeNow(p: Program, m: Vm, g: Globals, s: Stmt, pre: seq<byte>, vs: seq<Value>, fuel: nat, depth: nat,
                  d: Data)
    returns (n: nat, fate: Fate)
    requires Invocable(p, m, g, depth, s, vs, d) && (depth == 0 || fuel == 0)
    ensures Invoked(p, m, g, s, pre, vs, fuel, depth, d, n, fate)
  {
    hide Goes, Encode, BlockCode, FitsBlock, Roomy, Distinct, ExecBlock, BindParams;
    var index := g.fns[s.func].index;
    assert Compiled(g, p.funcs[s.func], m.funcs[index]);
    if depth == 0 {
      DepthExceeded(m, pre, index, d, |pre| + 3);
      n, fate := 1, Dies(CallDepth);
    } else {
      AliveAt(m, pre, index, d, |pre| + 3);
      n, fate := 0, Lasts;
    }
  }

  /** A declaration about to be called, with its body ready to run. */
  lemma CalleeParts(p: Program, m: Vm, g: Globals, fuel: nat, depth: nat, s: Stmt, vs: seq<Value>, d: Data)
    returns (decl: FuncDecl, m': Vm, d': Data)
    requires Invocable(p, m, g, depth, s, vs, d) && depth > 0
    ensures decl == p.funcs[s.func] && |vs| == |decl.params|
    ensures g.Ok() && FuncScope(decl.params).off <= |FuncScope(decl.params).vars|
    ensures FitsBlock(g, FuncScope(decl.params), decl.body) && BlockCode(g, FuncScope(decl.params), decl.body).SCode?
    ensures g.fns[s.func].index in m.funcs && |vs| <= m.funcs[g.fns[s.func].index].nvars
    ensures m' == m.(limit := m.limit - 1) && d' == FreshData(m, m.funcs[g.fns[s.func].index], vs)
    ensures var start := State(BindParams(decl.params, vs), []);
            Placed(p, m', g, depth - 1, FuncScope(decl.params), BlockCode(g, FuncScope(decl.params), decl.body),
                   HighBlock(p, fuel, depth - 1, decl.body, start) <= d'.cap, start, d')
  {
    hide BlockCode, FitsBlock, BlockNeed, HighBlock, BindParams, Agree, Distinct;
    decl := p.funcs[s.func];
    var func := m.funcs[g.fns[s.func].index];
    m', d' := m.(limit := m.limit - 1), FreshData(m, func, vs);
    assert Compiled(g, decl, func) && (m.checked ==> Roomy(decl, func));
    AgreeEntry(m, decl.params, func, vs);
    BindParamsKeys(decl.params, vs);
    HighBlockWithin(p, fuel, depth - 1, decl.body, State(BindParams(decl.params, vs), []));
  }

  /** The body's run seen from the call. */
  lemma CalleeBack(p: Program, m: Vm, g: Globals, s: Stmt, pre: seq<byte>, vs: seq<Value>, fuel: nat, depth: nat,
                   d: Data,
                   nb: nat, fb: Fate)
    returns (n: nat, fate: Fate)
    requires Invocable(p, m, g, depth, s, vs, d) && depth > 0 && fuel > 0
    requires |vs| == |p.funcs[s.func].params|
    requires var (decl, index) := (p.funcs[s.func], g.fns[s.func].index);
             && g.Ok() && FuncScope(decl.params).off <= |FuncScope(decl.params).vars| && index in m.funcs
             && |vs| <= m.funcs[index].nvars
             && (var code := BlockCode(g, FuncScope(decl.params), decl.body);
                 && code.SCode?
                 && Fares(m.(limit := m.limit - 1), code.code, FreshData(m, m.funcs[index], vs), nb, fb)
                 && Mirrors(ExecBlock(p, fuel - 1, depth - 1, decl.body, State(BindParams(decl.params, vs), [])),
                            fuel - 1,
                            code.sc.vars, FreshData(m, m.funcs[index], vs), nb, fb))
    ensures Invoked(p, m, g, s, pre, vs, fuel, depth, d, n, fate)
  {
    hide Goes, Encode, BlockCode, FitsBlock, Roomy, Distinct, ExecBlock, BindParams, Agree, Fares, Mirrors, FreshData;
    var index := g.fns[s.func].index;
    var func := m.funcs[index];
    assert Compiled(g, p.funcs[s.func], func);
    n, fate := Calling(m, pre, index, d, vs, nb, fb);
    BodyAnswers(p, s, vs, fuel, depth, nb, n, fb, fate,
                BlockCode(g, FuncScope(p.funcs[s.func].params), p.funcs[s.func].body).sc.vars,
                FreshData(m, func, vs), Ends(d));
  }

  lemma AliveAt(m: Vm, pre: seq<byte>, index: nat, d: Data, exit: int)
    requires index < 0x1_0000
    ensures Goes(m, pre + Encode(Invoke(index)), |pre|, d, 0, Lasts, exit)
  {
    hide Step;
    var code := pre + Encode(Invoke(index));
    assert Takes(m, Mid(code, |pre|, d), 0, At(Mid(code, |pre|, d)));
  }
}
