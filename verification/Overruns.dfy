/** What the recorded operand memory is good for: where it covers what a function
    needs, and the loops for which no size would. */
module Overruns {
  import opened Words
  import opened Ast
  import opened Language
  import opened Bytecode
  import opened Machine
  import opened Runs
  import opened Codegen
  import opened Needs
  import opened Layout
  import opened ExprCorrect
  import opened StmtCorrect
  import opened Session
  import opened Activations

  // ---- the recorded size and the need ----

  ghost predicate Named(vars: seq<Var>, names: set<string>) {
    forall x :: x in names <==> Lookup(vars, x).Some?
  }

  /** The tracked size counts at least `height` words. */
  ghost predicate Counts(sc: Scope, height: nat) { 4 * height <= sc.ssize <= sc.smax }

  /** After a piece of code the tracked size counts what is left, and the maximum
      has counted the deepest point. */
  ghost predicate Counted(after: Scope, height: nat, need: Need) {
    need.Bounded? && Counts(after, height + need.left) && 4 * (height + need.most) <= after.smax
  }

  lemma PushedCounts(sc: Scope, c: ECode, e: Expr, height: nat)
    requires Counts(sc, height) && c.ECode?
    ensures Counts(Pushed(sc, c, e), height + 1) && 4 * (height + Depth(e)) <= Pushed(sc, c, e).smax
  {
    hide Depth;
  }

  lemma {:induction false} ArgsCounted(sc: Scope, args: seq<Expr>, params: seq<Ty>, height: nat)
    requires ArgsCode(sc, args).SCode? && ArgsFit(sc.vars, args, params) && Counts(sc, height)
    ensures Counted(ArgsCode(sc, args).sc, height, Bounded(ArgsNeed(args), |args|))
    decreases args
  {
    if args != [] {
      ArgsSplit(sc, args, params);
      hide ExprCode, Depth;
      var c := ExprCode(sc.vars, args[0]);
      PushedCounts(sc, c, args[0], height);
      ArgsCounted(Pushed(sc, c, args[0]), args[1..], params[1..], height + 1);
    }
  }

  lemma StmtNamed(g: Globals, sc: Scope, s: Stmt, names: set<string>)
    requires g.Ok() && sc.off <= |sc.vars| && StmtCode(g, sc, s).SCode? && Named(sc.vars, names)
    ensures Named(StmtCode(g, sc, s).sc.vars, Names(names, s))
  {
    hide ExprCode, BlockCode, ArgsCode, IfTail, WhileTail, Encode, Depth;
    if s.Assign? && Lookup(sc.vars, s.target).None? {
      var c := ExprCode(sc.vars, s.rhs);
      forall y ensures y in Names(names, s) <==> Lookup(StmtCode(g, sc, s).sc.vars, y).Some? {
        LookupSnoc(sc.vars, Var(s.target, c.ty), y);
      }
    }
  }

  lemma {:induction false} StmtCounted(g: Globals, sc: Scope, s: Stmt, names: set<string>, height: nat)
    requires g.Ok() && sc.off <= |sc.vars| && StmtCode(g, sc, s).SCode? && Fits(g, sc, s)
    requires Named(sc.vars, names) && Counts(sc, height) && Recorded(names, s, height) && StmtNeed(names, s).Bounded?
    ensures Counted(StmtCode(g, sc, s).sc, height, StmtNeed(names, s))
    decreases s, 1
  {
    hide Depth, Encode, ExprCode, BlockCode, FitsBlock, BlockNeed, RecordedBlock, IfTail, WhileTail;
    match s
    case Assign(x, e) => hide Named;
    case Bare(e) =>
      ValuelessCode(sc.vars, names, e);
      hide Valueless;
    case Call(f, args) =>
      hide ArgsCode, Named;
      ArgsCounted(sc, args, g.fns[f].params, height);
    case If(_, _, _) => IfCounted(g, sc, s, names, height);
    case While(_, _) => WhileCounted(g, sc, s, names, height);
  }

  lemma {:induction false} IfCounted(g: Globals, sc: Scope, s: Stmt, names: set<string>, height: nat)
    requires g.Ok() && sc.off <= |sc.vars| && StmtCode(g, sc, s).SCode? && Fits(g, sc, s) && s.If?
    requires Named(sc.vars, names) && Counts(sc, height) && Recorded(names, s, height) && StmtNeed(names, s).Bounded?
    ensures Counted(StmtCode(g, sc, s).sc, height, StmtNeed(names, s))
    decreases s, 0
  {
    hide Depth, ExprCode, BlockCode, FitsBlock, BlockNeed, RecordedBlock, Recorded, StmtNeed, StmtCode, Fits, IfBytes;
    hide Named, Counts, Counted;
    var c, ct, cf, sct, scf := IfLayout(g, sc, s);
    IfRecorded(names, s, height);
    PushedCounts(sc, c, s.cond, height);
    ChildCounts(sc, c, s.cond, ct.sc, height, names);
    BlockCounted(g, sct, s.thn, names, height);
    BranchCounts(sc, c, s.cond, ct.sc, height, names, BlockNeed(names, s.thn));
    BlockCounted(g, scf, s.els, names, height);
    BothCounted(Pushed(sc, c, s.cond), ct.sc, cf.sc, height, s, names);
  }

  lemma IfRecorded(names: set<string>, s: Stmt, height: nat)
    requires s.If? && Recorded(names, s, height) && StmtNeed(names, s).Bounded?
    ensures RecordedBlock(names, s.thn, height) && RecordedBlock(names, s.els, height)
    ensures BlockNeed(names, s.thn).Bounded? && BlockNeed(names, s.els).Bounded?
  {
    hide RecordedBlock, BlockNeed;
  }

  lemma ChildCounts(sc: Scope, c: ECode, e: Expr, ct: Scope, height: nat, names: set<string>)
    requires c.ECode? && Counts(Pushed(sc, c, e), height + 1) && Named(sc.vars, names)
    ensures var sc1 := Pushed(sc, c, e);
            && Counts(Child(sc1, sc1.ssize), height) && Named(Child(sc1, sc1.ssize).vars, names)
            && Named(Child(Back(sc1, ct), sc1.ssize).vars, names)
  {
    hide Named, Depth;
  }

  lemma BranchCounts(sc: Scope, c: ECode, e: Expr, ct: Scope, height: nat, names: set<string>, need: Need)
    requires c.ECode? && Counts(Pushed(sc, c, e), height + 1) && Counted(ct, height, need)
    requires Grows(Child(Pushed(sc, c, e), Pushed(sc, c, e).ssize), ct)
    ensures var sc1 := Pushed(sc, c, e); Counts(Child(Back(sc1, ct), sc1.ssize), height)
  {
    hide Depth;
  }

  lemma BothCounted(sc1: Scope, ct: Scope, cf: Scope, height: nat, s: Stmt, names: set<string>)
    requires s.If? && Recorded(names, s, height) && StmtNeed(names, s).Bounded?
    requires Counts(sc1, height + 1) && 4 * (height + Depth(s.cond)) <= sc1.smax
    requires Counted(ct, height, BlockNeed(names, s.thn)) && Counted(cf, height, BlockNeed(names, s.els))
    requires sc1.smax <= ct.smax <= cf.smax
    ensures Counted(Back(sc1, cf), height, StmtNeed(names, s))
  {
    hide Depth, BlockNeed, RecordedBlock;
  }

  lemma {:induction false} WhileCounted(g: Globals, sc: Scope, s: Stmt, names: set<string>, height: nat)
    requires g.Ok() && sc.off <= |sc.vars| && StmtCode(g, sc, s).SCode? && Fits(g, sc, s) && s.While?
    requires Named(sc.vars, names) && Counts(sc, height) && Recorded(names, s, height) && StmtNeed(names, s).Bounded?
    ensures Counted(StmtCode(g, sc, s).sc, height, StmtNeed(names, s))
    decreases s, 0
  {
    var c, b, child := WhileLayout(g, sc, s);
    hide Depth, ExprCode, BlockCode, FitsBlock, BlockNeed, RecordedBlock, Named, WhileBytes, WhileTail, Fits;
    PushedCounts(sc, c, s.cond, height);
    BlockCounted(g, child, s.body, names, 0);
  }

  lemma {:induction false} BlockCounted(g: Globals, sc: Scope, b: Block, names: set<string>, height: nat)
    requires g.Ok() && sc.off <= |sc.vars| && BlockCode(g, sc, b).SCode? && FitsBlock(g, sc, b)
    requires Named(sc.vars, names) && Counts(sc, height) && RecordedBlock(names, b, height)
    ensures Counted(BlockCode(g, sc, b).sc, height, BlockNeed(names, b))
    decreases b, 0
  {
    hide StmtCode, Fits, StmtNeed, Names, Named, Recorded;
    if b.Then? {
      StmtCounted(g, sc, b.head, names, height);
      StmtNamed(g, sc, b.head, names);
      BlockCounted(g, StmtCode(g, sc, b.head).sc, b.tail, Names(names, b.head), height + StmtNeed(names, b.head).left);
    }
  }

  lemma {:induction false} ParamsNamed(params: seq<Param>, x: string)
    ensures x in ParamNames(params) <==> Lookup(ParamVars(params), x).Some?
  {
    if params != [] {
      var k := |params| - 1;
      ParamVarsSnoc(params);
      ParamsNamed(params[..k], x);
      LookupSnoc(ParamVars(params[..k]), Var(params[k].name, params[k].ty), x);
    }
  }

  /** The size the compiler records covers every function whose loops leave nothing
      and are entered with nothing left over, and whose branches leave at most one
      word - although conditions are never subtracted and loop bodies start anew. */
  lemma RecordedIsEnough(g: Globals, decl: FuncDecl, func: Func)
    requires g.Ok() && Compiled(g, decl, func) && RecordedBlock(ParamNames(decl.params), decl.body, 0)
    requires BlockCode(g, FuncScope(decl.params), decl.body).sc.smax <= 4 * func.nstack
    ensures Roomy(decl, func)
  {
    hide BlockCode, FitsBlock, BlockNeed, RecordedBlock, Distinct;
    forall x ensures x in ParamNames(decl.params) <==> Lookup(ParamVars(decl.params), x).Some? {
      ParamsNamed(decl.params, x);
    }
    BlockCounted(g, FuncScope(decl.params), decl.body, ParamNames(decl.params), 0);
  }

  /** Assignments and control flow over them are recorded well, ... */
  lemma {:induction false} NeutralRecorded(names: set<string>, b: Block)
    requires NeutralBlock(b)
    ensures RecordedBlock(names, b, 0) && BlockNeed(names, b).Bounded? && BlockNeed(names, b).left == 0
    decreases b
  {
    hide Depth;
    if b.Then? {
      match b.head {
        case If(_, t, f) =>
          NeutralRecorded(names, t);
          NeutralRecorded(names, f);
        case While(_, body) => NeutralRecorded(names, body);
        case _ =>
      }
      NeutralRecorded(Names(names, b.head), b.tail);
    }
  }

  /** ... and so is straight-line code, calls and bare expressions included. */
  lemma {:induction false} StraightRecorded(names: set<string>, b: Block, height: nat)
    requires Straight(b)
    ensures RecordedBlock(names, b, height) && BlockNeed(names, b).Bounded?
    decreases b
  {
    hide Depth, ArgsNeed;
    if b.Then? {
      StraightRecorded(Names(names, b.head), b.tail, height + StmtNeed(names, b.head).left);
    }
  }

  predicate Straight(b: Block) {
    match b
    case End => true
    case Then(s, rest) => !s.If? && !s.While? && Straight(rest)
  }

  // ---- loops that leave something behind ----

  /** The least number of words a finished statement leaves on the stack. */
  function StmtLeast(names: set<string>, s: Stmt): nat
    decreases s
  {
    match s
    case Bare(e) => if Valueless(names, e) then 0 else 1
    case Call(_, args) => |args|
    case If(_, t, f) => Min(BlockLeast(names, t), BlockLeast(names, f))
    case _ => 0
  }

  function BlockLeast(names: set<string>, b: Block): nat
    decreases b
  {
    match b
    case End => 0
    case Then(s, rest) => StmtLeast(names, s) + BlockLeast(Names(names, s), rest)
  }

  lemma {:induction false} LeavesAtLeast(p: Program, fuel: nat, depth: nat, s: Stmt, st: State)
    requires Exec(p, fuel, depth, s, st).Done?
    ensures |Exec(p, fuel, depth, s, st).st.pushed| >= |st.pushed| + StmtLeast(st.store.Keys, s)
    decreases fuel, s, 0
  {
    hide EvalExpr, Valueless;
    match s
    case Assign(_, _) =>
    case Bare(_) =>
    case Call(_, _) => hide EvalArgs, ExecBlock;
    case If(c, t, f) =>
      hide ExecScope;
      ScopeLeavesAtLeast(p, fuel, depth, if EvalExpr(p.fl, st.store, c).v.i != 0 then t else f, st);
    case While(c, body) =>
      hide ExecScope;
      if EvalExpr(p.fl, st.store, c).v.i != 0 {
        ScopeLeavesAtLeast(p, fuel, depth, body, st);
        LeavesAtLeast(p, fuel - 1, depth, s, ExecScope(p, fuel, depth, body, st).st);
      }
  }

  lemma {:induction false} ScopeLeavesAtLeast(p: Program, fuel: nat, depth: nat, b: Block, st: State)
    requires ExecScope(p, fuel, depth, b, st).Done?
    ensures |ExecScope(p, fuel, depth, b, st).st.pushed| >= |st.pushed| + BlockLeast(st.store.Keys, b)
    decreases fuel, b, 1
  {
    BlockLeavesAtLeast(p, fuel, depth, b, st);
  }

  lemma {:induction false} BlockLeavesAtLeast(p: Program, fuel: nat, depth: nat, b: Block, st: State)
    requires ExecBlock(p, fuel, depth, b, st).Done?
    ensures |ExecBlock(p, fuel, depth, b, st).st.pushed| >= |st.pushed| + BlockLeast(st.store.Keys, b)
    decreases fuel, b, 0
  {
    hide Exec, StmtLeast, Names;
    if b.Then? {
      LeavesAtLeast(p, fuel, depth, b.head, st);
      ExecLeaves(p, fuel, depth, b.head, st);
      BlockLeavesAtLeast(p, fuel, depth, b.tail, Exec(p, fuel, depth, b.head, st).st);
    }
  }

  /** The loop goes through `n` iterations. */
  ghost predicate Iterates(p: Program, fuel: nat, depth: nat, s: Stmt, st: State, n: nat)
    requires s.While?
    decreases n
  {
    n == 0 ||
    (var v := EvalExpr(p.fl, st.store, s.cond);
     && v.Val? && v.v.IntV? && v.v.i != 0
     && var o := ExecScope(p, fuel, depth, s.body, st);
        o.Done? && Iterates(p, fuel, depth, s, o.st, n - 1))
  }

  /** Without a bound on operand memory any amount is enough. */
  lemma AnyIsEnough(p: Program, m: Vm, g: Globals, depth: nat, sc: Scope, r: SCode, e1: bool, e2: bool, st: State,
                    d: Data)
    requires !m.checked && Placed(p, m, g, depth, sc, r, e1, st, d)
    ensures Placed(p, m, g, depth, sc, r, e2, st, d)
  {
    hide World, Agree;
  }

  lemma PlacedAgain(p: Program, m: Vm, g: Globals, depth: nat, sc: Scope, r: SCode, st: State, d: Data, st1: State,
                    d1: Data)
    requires !m.checked && Placed(p, m, g, depth, sc, r, true, st, d)
    requires Agree(sc.vars, st1.store, d1.locals) && d1.stack == st1.pushed && |d1.locals| == |d.locals|
    ensures Placed(p, m, g, depth, sc, r, true, st1, d1)
  {
    hide World, Agree;
  }

  /** One iteration of the machine. */
  lemma Around(p: Program, m: Vm, g: Globals, sc: Scope, s: Stmt, fuel: nat, depth: nat, st: State, d: Data)
    returns (n: nat, d1: Data)
    requires g.Ok() && sc.off <= |sc.vars| && Fits(g, sc, s) && s.While? && !m.checked
    requires Placed(p, m, g, depth, sc, StmtCode(g, sc, s), true, st, d)
    requires Iterates(p, fuel, depth, s, st, 1)
    ensures Goes(m, StmtCode(g, sc, s).code, 0, d, n, Ends(d1), 0) && d1.cap == d.cap
    ensures var st1 := ExecScope(p, fuel, depth, s.body, st).st;
            Placed(p, m, g, depth, sc, StmtCode(g, sc, s), true, st1, d1) && d1.stack == st1.pushed
  {
    hide Goes, Agree, World, Encode, ExprCode, EvalExpr, BlockCode, StmtCode, Fits, FitsBlock, ExecScope;
    hide High, HighBlock, Depth, Room, Placed;
    var r := StmtCode(g, sc, s);
    PlacedAgrees(p, m, g, depth, sc, r, true, st, d);
    AnyIsEnough(p, m, g, depth, sc, r, true, High(p, fuel, depth, s, st) <= d.cap, st, d);
    var c, cb, child := WhileParts(p, m, g, sc, s, fuel, depth, st, d);
    var nc, fc := ExprRun(m, sc.vars, s.cond, st.store, d);
    var nb, fb := ScopeRun(p, m, g, child, s.body, fuel, depth, st, d);
    d1 := fb.d;
    PlacedAgain(p, m, g, depth, sc, r, st, d, ExecScope(p, fuel, depth, s.body, st).st, d1);
    WhileRound(m, c.code, cb.code, d, nc, EvalExpr(m.fl, st.store, s.cond).v.i, nb, d1);
    n := nc + nb + 2;
  }

  lemma {:induction false} AroundOften(p: Program, m: Vm, g: Globals, sc: Scope, s: Stmt, fuel: nat, depth: nat,
                                       st: State,
                                       d: Data, n: nat)
    returns (k: nat, d1: Data)
    requires g.Ok() && sc.off <= |sc.vars| && Fits(g, sc, s) && s.While? && !m.checked
    requires Placed(p, m, g, depth, sc, StmtCode(g, sc, s), true, st, d)
    requires Iterates(p, fuel, depth, s, st, n)
    ensures Goes(m, StmtCode(g, sc, s).code, 0, d, k, Ends(d1), 0) && d1.cap == d.cap
    ensures |d1.stack| >= |d.stack| + n * BlockLeast(st.store.Keys, s.body)
    decreases n
  {
    hide Goes, StmtCode, Fits, Placed, ExecScope, EvalExpr, StmtNeed, BlockLeast;
    PlacedAgrees(p, m, g, depth, sc, StmtCode(g, sc, s), true, st, d);
    var code, least := StmtCode(g, sc, s).code, BlockLeast(st.store.Keys, s.body);
    if n == 0 {
      Standing(m, code, d);
      return 0, d;
    }
    var st1 := ExecScope(p, fuel, depth, s.body, st).st;
    var k1, d2 := Around(p, m, g, sc, s, fuel, depth, st, d);
    ScopeLeavesAtLeast(p, fuel, depth, s.body, st);
    ScopeLeaves(p, fuel, depth, s.body, st);
    var k2;
    k2, d1 := AroundOften(p, m, g, sc, s, fuel, depth, st1, d2, n - 1);
    Join(m, code, 0, d, k1, d2, 0, k2, Ends(d1), 0);
    k := k1 + k2;
    assert n * least == least + (n - 1) * least;
  }

  lemma Standing(m: Vm, code: seq<byte>, d: Data)
    ensures Goes(m, code, 0, d, 0, Ends(d), 0)
  {
  }

  /** A checked frame does not survive a state the run without bounds reaches with
      too many operands. */
  lemma TooMany(m: Vm, code: seq<byte>, d: Data, n: nat, d1: Data, pc: int)
    requires m.checked && |d.stack| <= d.cap && d1.cap == d.cap < |d1.stack|
    requires Goes(Unchecked(m), code, 0, d, n, Ends(d1), pc)
    ensures exists k: nat :: Takes(m, Mid(code, 0, d), k, Trap(Memory))
  {
    hide Takes;
    var s := Mid(code, 0, d);
    if forall k: nat :: !Takes(m, s, k, Trap(Memory)) {
      BoundUnneeded(m, s, n, At(Mid(code, pc, d1)));
      WithinBound(m, s, n, Mid(code, pc, d1));
    }
  }

  /** No operand memory is enough for a loop whose body always leaves something: any
      loop whose body leaves `k` words or more overruns memory of any size, once
      `n` iterations leave more than it holds. */
  lemma LoopOverruns(p: Program, m: Vm, g: Globals, sc: Scope, s: Stmt, fuel: nat, depth: nat, st: State, d: Data,
                     n: nat)
    requires g.Ok() && sc.off <= |sc.vars| && Fits(g, sc, s) && s.While? && m.checked
    requires Placed(p, Unchecked(m), g, depth, sc, StmtCode(g, sc, s), true, st, d)
    requires Iterates(p, fuel, depth, s, st, n)
    requires |d.stack| <= d.cap < |d.stack| + n * BlockLeast(st.store.Keys, s.body)
    ensures exists k: nat :: Takes(m, Mid(StmtCode(g, sc, s).code, 0, d), k, Trap(Memory))
  {
    hide Goes, StmtCode, Fits, Placed, Iterates, StmtNeed, BlockLeast, Takes;
    PlacedAgrees(p, Unchecked(m), g, depth, sc, StmtCode(g, sc, s), true, st, d);
    var k, d1 := AroundOften(p, Unchecked(m), g, sc, s, fuel, depth, st, d, n);
    TooMany(m, StmtCode(g, sc, s).code, d, k, d1, 0);
  }

  // ---- such a loop ----

  const SEVEN: Block := Then(Bare(IntLit(7)), End)
  const LEAKY: Stmt := While(IntLit(1), SEVEN)

  lemma SevenCode(g: Globals)
    requires g.Ok()
    ensures var sc := Scope([], 0, 0x80, 0, 0, 4);
            var r := BlockCode(g, sc, SEVEN);
            r.SCode? && r.sc == sc.(ssize := 4) && |r.code| == 5 && FitsBlock(g, sc, SEVEN)
    ensures BlockLeast({}, SEVEN) == 1
  {
    assert |Encode(IConst(7))| == 5;
    assert Depth(IntLit(7)) == 1;
    hide Encode;
    assert BlockLeast(Names({}, Bare(IntLit(7))), End) == 0;
  }

  lemma LeakyCode(g: Globals)
    requires g.Ok()
    ensures var r := StmtCode(g, FuncScope([]), LEAKY);
            r.SCode? && Fits(g, FuncScope([]), LEAKY) && r.sc.smax == 4 && r.sc.vmax == 0
  {
    SevenCode(g);
    assert ParamVars([]) == [] && FuncScope([]) == Scope([], 0, 0x80, 0, 0, 0);
    assert |Encode(IConst(1))| == 5;
    assert Depth(IntLit(1)) == 1;
    hide BlockCode, FitsBlock, WhileTail, Encode, Depth;
  }

  lemma {:induction false} LeakyIterates(p: Program, depth: nat, st: State, n: nat)
    requires st.store == map[]
    ensures Iterates(p, 0, depth, LEAKY, st, n)
    decreases n
  {
    if n > 0 {
      var st1 := State(map[], st.pushed + [IntV(7)]);
      assert Exec(p, 0, depth, Bare(IntLit(7)), st) == Done(st1);
      assert ExecBlock(p, 0, depth, End, st1) == Done(st1);
      assert ExecBlock(p, 0, depth, SEVEN, st) == Done(st1);
      assert Leave(map[], map[]) == map[];
      LeakyIterates(p, depth, st1, n - 1);
    }
  }

  lemma LeakyPlaced(p: Program, m: Vm, g: Globals, depth: nat, locals: seq<Word>, cap: nat)
    requires World(p, m, g, depth) && !m.checked
    ensures g.Ok() && FuncScope([]).off <= |FuncScope([]).vars|
    ensures var r := StmtCode(g, FuncScope([]), LEAKY);
            && Placed(p, m, g, depth, FuncScope([]), r, true, State(map[], []), Data([], locals, cap))
            && r.SCode? && r.sc.smax == 4 && Fits(g, FuncScope([]), LEAKY)
  {
    assert g.Ok();
    LeakyCode(g);
    assert ParamVars([]) == [];
    hide StmtCode, Fits, World;
  }

  lemma LeakySetup(m: Vm)
    ensures State(map[], []).store.Keys == {} && State(map[], []).store == map[]
    ensures !Unchecked(m).checked && LEAKY.While? && LEAKY.body == SEVEN
  {
  }

  /** The header of a function `while 1 { 7 }` asks for one operand word, and no
      number of words is enough. */
  lemma TrackedStackTooSmall(p: Program, m: Vm, g: Globals, depth: nat, locals: seq<Word>, cap: nat)
    requires World(p, Unchecked(m), g, depth) && m.checked
    ensures g.Ok() && FuncScope([]).off <= |FuncScope([]).vars|
    ensures var r := StmtCode(g, FuncScope([]), LEAKY);
            && r.SCode? && Fits(g, FuncScope([]), LEAKY) && r.sc.smax == 4
            && exists k: nat :: Takes(m, Mid(r.code, 0, Data([], locals, cap)), k, Trap(Memory))
  {
    hide *;
    LeakySetup(m);
    LeakyPlaced(p, Unchecked(m), g, depth, locals, cap);
    SevenCode(g);
    LeakyIterates(p, depth, State(map[], []), cap + 1);
    assert (cap + 1) * 1 == cap + 1;
    LoopOverruns(p, m, g, FuncScope([]), LEAKY, 0, depth, State(map[], []), Data([], locals, cap), cap + 1);
  }
}
