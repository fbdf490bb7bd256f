/** Compiling statements as it is written: child scopes with emitters of their
    own, and the compiled pieces spliced around jumps. */
module StmtCompiler {
  import opened Words
  import opened Ast
  import opened Bytecode
  import opened Codegen
  import opened Tracing
  import opened Streaming
  import opened Emitter
  import opened Scopes
  import opened ExprCompiler

  // ---- assignments ----

  ghost predicate Typed(vars: seq<Var>) {
    forall v :: v in vars ==> v.ty != Unknown
  }

  /** The tracked stack after a stored expression. */
  function Stored(sc: Scope, words: nat): Scope {
    Lift(sc, words).(ssize := sc.ssize)
  }

  lemma StoreStack(sc: Scope, words: nat)
    requires words >= 1
    ensures Bumped(Lift(sc, words), 0) == Lift(sc, words) && Bumped(Lift(sc, words), -4) == Stored(sc, words)
  {
  }

  /** What evaluating a traced tree into a slot amounts to. */
  ghost predicate StoreDone(status: Status, t: Expr, cast: bool, opcode: byte, index: byte,
                            before: Scope, after: Scope, log: seq<seq<byte>>, log': seq<seq<byte>>) {
    if ExprCode(before.vars, t).ECode? then
      && status == Success && after == Stored(before, Depth(t))
      && log' == log + ExprChunks(before.vars, t) + (if cast then [[I2F_OP]] else []) + [[opcode, index]]
    else status == Panicked
  }

  lemma StoreSucceeds(t: Expr, cast: bool, opcode: byte, index: byte, sc: Scope, log: seq<seq<byte>>)
    requires ExprCode(sc.vars, t).ECode?
    ensures StoreDone(Success, t, cast, opcode, index, sc, Stored(sc, Depth(t)), log,
                      log + ExprChunks(sc.vars, t) + (if cast then [[I2F_OP]] else []) + [[opcode, index]])
  {
  }

  lemma StoreFails(status: Status, t: Expr, cast: bool, opcode: byte, index: byte,
                   before: Scope, after: Scope, log: seq<seq<byte>>, log': seq<seq<byte>>)
    requires Annotated(before.vars, t) && !status.Success? && ExprDone(status, t, before, after, log, log')
    ensures StoreDone(status, t, cast, opcode, index, before, after, log, log')
  {
    OperandFails(status, t, before, after, log, log');
  }

  lemma StoreSetup(scope: ScopeHandler, t: Expr, opcode: byte)
    requires Annotated(scope.AllVars(), t) && (opcode == ISAVE || opcode == FSAVE)
    ensures var sc := scope.Abs();
            && sc.vars == scope.AllVars() && Sound(sc.vars, t) && Lift(sc, Depth(t)).ssize >= 4
            && Bumped(Lift(sc, Depth(t)), 0) == Lift(sc, Depth(t))
            && Bumped(Lift(sc, Depth(t)), -4) == Stored(sc, Depth(t))
    ensures StackEffect(opcode) == -4 && StackEffect(I2F_OP) == 0
  {
    StoreStack(scope.Abs(), Depth(t));
  }

  /** An instruction with one operand byte that pops a word. */
  method EmitSave(scope: ScopeHandler, opcode: byte, index: byte)
    requires scope.Ready() && scope.stackSize >= 4 && StackEffect(opcode) == -4
    modifies scope`stackSize, scope`memory, scope.max`stack, scope.memory
    ensures scope.Ready() && fresh(scope.memory - old(scope.memory)) && scope.emitter == old(scope.emitter)
            && scope.vars == old(scope.vars)
    ensures scope.Log() == old(scope.Log()) + [[opcode, index]]
    ensures scope.Abs() == Bumped(old(scope.Abs()), -4)
  {
    scope.Apart();
    hide ScopeHandler.Valid;
    scope.IncrementStackSize(StackEffect(opcode));
    var ok := scope.Emit([opcode, index]);
  }

  method CompileStore(scope: ScopeHandler, t: Expr, cast: bool, opcode: byte, index: byte) returns (status: Status)
    requires scope.Ready() && Annotated(scope.AllVars(), t) && (opcode == ISAVE || opcode == FSAVE)
    modifies scope`stackSize, scope`memory, scope.max`stack, scope.memory
    ensures scope.Ready() && fresh(scope.memory - old(scope.memory)) && scope.emitter == old(scope.emitter)
            && scope.vars == old(scope.vars)
    ensures StoreDone(status, t, cast, opcode, index, old(scope.Abs()), scope.Abs(), old(scope.Log()), scope.Log())
  {
    hide *;
    ghost var before, log := scope.Abs(), scope.Log();
    StoreSetup(scope, t, opcode);
    status := CompileExpression(scope, t);
    if !status.Success? {
      StoreFails(status, t, cast, opcode, index, before, scope.Abs(), log, scope.Log());
      return;
    }
    Succeeded(t, before, scope.Abs(), log, scope.Log());
    StackOf(scope);
    ghost var log1 := scope.Log();
    if cast {
      EmitOperator(scope, I2F_OP);
    } else {
      assert log1 + [] == log1;
    }
    StackOf(scope);
    EmitSave(scope, opcode, index);
    StoreSucceeds(t, cast, opcode, index, before, log);
  }

  ghost predicate AssignDone(status: Status, x: string, e: Expr,
                             before: Scope, after: Scope, log: seq<seq<byte>>, log': seq<seq<byte>>)
    requires before.off <= |before.vars|
  {
    match AssignCode(before, x, e)
    case SPanic => status == Panicked
    case SCode(_, sc) =>
      && status == Success && after == sc
      && log' == log + (ExprChunks(before.vars, e) + AssignTail(before, x, ExprCode(before.vars, e).ty))
  }

  /** Where the value goes: the slot, and whether it is converted first. */
  datatype Target = Target(cast: bool, ty: Ty, index: byte)

  function SaveOpcode(ty: Ty): byte { if ty.TFlt? then FSAVE else ISAVE }

  lemma Traceable(vars: seq<Var>, e: Expr)
    requires Parsed(e)
    ensures match Trace(vars, e)
            case None => !ExprCode(vars, e).ECode?
            case Some(t) =>
              && Annotated(vars, t) && Depth(t) == Depth(e) && (StaticType(t) == TInt || StaticType(t) == TFlt)
              && ExprCode(vars, t) == ExprCode(vars, e)
              && (ExprCode(vars, e).ECode? ==>
                    ExprCode(vars, e).ty == StaticType(t) && ExprChunks(vars, t) == ExprChunks(vars, e))
  {
    TraceChangesOnlyCasts(vars, e);
    if Trace(vars, e).Some? {
      TraceNodes(vars, e);
      TraceKeepsCode(vars, e);
      if ExprCode(vars, e).ECode? { TraceKeepsChunks(vars, e); }
      AnnotatedTyped(vars, Trace(vars, e).value);
    } else {
      NotDeclared(vars, e);
    }
  }

  lemma KnownTail(sc: Scope, x: string, ty: Ty, k: nat)
    requires Lookup(sc.vars, x) == Some(k) && sc.vars[k].ty != Unknown && ty != Unknown
    requires !(sc.vars[k].ty == TInt && ty == TFlt)
    ensures var vt := sc.vars[k].ty;
            AssignTail(sc, x, ty) == (if vt != ty then [[I2F_OP]] else []) + [[SaveOpcode(vt), k % 0x100]]
  {
  }

  lemma KnownCode(sc: Scope, x: string, e: Expr, k: nat)
    requires sc.off <= |sc.vars| && Lookup(sc.vars, x) == Some(k) && sc.vars[k].ty != Unknown
    requires ExprCode(sc.vars, e).ECode? ==> !(sc.vars[k].ty == TInt && ExprCode(sc.vars, e).ty == TFlt)
    ensures match AssignCode(sc, x, e)
            case SPanic => !ExprCode(sc.vars, e).ECode?
            case SCode(_, sc') => ExprCode(sc.vars, e).ECode? && sc' == Stored(sc, Depth(e))
  {
    hide ExprCode, Encode, Depth;
  }

  /** A value stored into a variable that exists. */
  lemma AssignKnown(status: Status, x: string, e: Expr, t: Expr, k: nat,
                    before: Scope, after: Scope, log: seq<seq<byte>>, log': seq<seq<byte>>)
    requires before.off <= |before.vars| && Parsed(e) && Typed(before.vars) && Trace(before.vars, e) == Some(t)
    requires Lookup(before.vars, x) == Some(k) && !(before.vars[k].ty == TInt && StaticType(t) == TFlt)
    requires var vt := before.vars[k].ty;
             StoreDone(status, t, vt != StaticType(t), SaveOpcode(vt), k % 0x100, before, after, log, log')
    ensures AssignDone(status, x, e, before, after, log, log')
  {
    hide *;
    KnownType(before.vars, k);
    Traceable(before.vars, e);
    StoreMeans(status, t, before.vars[k].ty != StaticType(t), SaveOpcode(before.vars[k].ty), k % 0x100, before, after,
               log, log');
    KnownCode(before, x, e, k);
    if ExprCode(before.vars, e).ECode? {
      KnownTail(before, x, StaticType(t), k);
      Regroup(log, ExprChunks(before.vars, e), if before.vars[k].ty != StaticType(t) then [[I2F_OP]] else [],
              [[SaveOpcode(before.vars[k].ty), k % 0x100]]);
      AssignSucceeds(x, e, before, log);
    } else {
      AssignFails(x, e, before, after, log, log');
    }
  }

  lemma KnownType(vars: seq<Var>, k: nat)
    requires Typed(vars) && k < |vars|
    ensures vars[k].ty != Unknown
  {
    assert vars[k] in vars;
  }

  lemma Regroup(log: seq<seq<byte>>, a: seq<seq<byte>>, b: seq<seq<byte>>, c: seq<seq<byte>>)
    ensures log + a + b + c == log + (a + (b + c))
  {
  }

  lemma StoreMeans(status: Status, t: Expr, cast: bool, opcode: byte, index: byte,
                   before: Scope, after: Scope, log: seq<seq<byte>>, log': seq<seq<byte>>)
    requires StoreDone(status, t, cast, opcode, index, before, after, log, log')
    ensures ExprCode(before.vars, t).ECode? ==>
              && status == Success && after == Stored(before, Depth(t))
              && log' == log + ExprChunks(before.vars, t) + (if cast then [[I2F_OP]] else []) + [[opcode, index]]
    ensures !ExprCode(before.vars, t).ECode? ==> status == Panicked
  {
  }

  lemma AssignSucceeds(x: string, e: Expr, sc: Scope, log: seq<seq<byte>>)
    requires sc.off <= |sc.vars| && AssignCode(sc, x, e).SCode?
    requires ExprCode(sc.vars, e).ECode?
    ensures AssignDone(Success, x, e, sc, AssignCode(sc, x, e).sc, log,
                       log + (ExprChunks(sc.vars, e) + AssignTail(sc, x, ExprCode(sc.vars, e).ty)))
  {
  }

  lemma AssignFails(x: string, e: Expr, before: Scope, after: Scope, log: seq<seq<byte>>, log': seq<seq<byte>>)
    requires before.off <= |before.vars| && AssignCode(before, x, e).SPanic?
    ensures AssignDone(Panicked, x, e, before, after, log, log')
  {
  }

  lemma AssignNew(status: Status, x: string, e: Expr, t: Expr, before: Scope, mid: Scope, after: Scope,
                  log: seq<seq<byte>>, log': seq<seq<byte>>)
    requires before.off <= |before.vars| && Parsed(e) && Trace(before.vars, e) == Some(t)
    requires Lookup(before.vars, x).None? && Define(before, x, StaticType(t)) == Some(mid)
    requires StoreDone(status, t, false, SaveOpcode(StaticType(t)), |before.vars| % 0x100, mid, after, log, log')
    ensures AssignDone(status, x, e, before, after, log, log')
  {
    hide ExprCode, ExprChunks, Annotated, Trace, Parsed, Depth, Lookup, StaticType, Declared;
    Traceable(before.vars, e);
    Extended(before.vars, Var(x, StaticType(t)), t);
    if ExprCode(before.vars, e).ECode? {
      var (a, c) := (ExprChunks(before.vars, e), [[SaveOpcode(StaticType(t)), |before.vars| % 0x100]]);
      assert log + a + [] + c == log + (a + c);
    }
  }

  /** The ways an assignment stops the compiler before anything is emitted. */
  lemma AssignPanics(x: string, e: Expr, before: Scope, after: Scope, log: seq<seq<byte>>, log': seq<seq<byte>>)
    requires before.off <= |before.vars| && Parsed(e)
    requires match Trace(before.vars, e)
             case None => true
             case Some(t) =>
               match Lookup(before.vars, x)
               case None => Define(before, x, StaticType(t)).None?
               case Some(k) => before.vars[k].ty == TInt && StaticType(t) == TFlt
    ensures AssignDone(Panicked, x, e, before, after, log, log')
  {
    Traceable(before.vars, e);
  }

  /** Finds or defines the variable and selects the conversion. */
  method SelectTarget(scope: ScopeHandler, x: string, ty: Ty) returns (target: Option<Target>)
    requires scope.Ready() && Typed(scope.AllVars()) && (ty == TInt || ty == TFlt)
    modifies scope`vars, scope.max`vars
    ensures scope.Ready() && Typed(scope.AllVars())
    ensures var (sc, vars) := (old(scope.Abs()), old(scope.AllVars()));
            match Lookup(vars, x)
            case Some(k) =>
              && scope.vars == old(scope.vars) && scope.Abs() == sc
              && target == if vars[k].ty == TInt && ty == TFlt then None
                           else Some(Target(vars[k].ty != ty, vars[k].ty, k % 0x100))
            case None =>
              match Define(sc, x, ty)
              case None => target.None?
              case Some(sc1) => target == Some(Target(false, ty, |vars| % 0x100)) && scope.Abs() == sc1
  {
    hide *;
    ghost var before := scope.Abs();
    TargetSetup(scope, x, ty);
    var found := scope.LookupVar(x);
    if found.Some? {
      if found.value.v.ty != ty {
        var cast := SelectCast(found.value.v.ty, ty);
        if cast.onLeft {
          return None;
        }
        return Some(Target(true, cast.ty, found.value.index));
      }
      return Some(Target(false, ty, found.value.index));
    }
    found := scope.DefineVar(ty, x);
    DefinedReady(scope, before, x, ty);
    target := if found.None? then None else Some(Target(false, ty, found.value.index));
  }

  lemma TargetSetup(scope: ScopeHandler, x: string, ty: Ty)
    requires scope.Ready() && Typed(scope.AllVars()) && (ty == TInt || ty == TFlt)
    ensures scope.Valid() && scope.emitter.Backed(scope.memory)
    ensures scope !in scope.memory && scope.max !in scope.memory && scope.emitter.Self() in scope.memory
    ensures scope.Abs().vars == scope.AllVars() && scope.Abs().off <= |scope.AllVars()|
    ensures match Lookup(scope.AllVars(), x)
            case None => Lookup(scope.outer, x).None?
            case Some(k) =>
              var vt := scope.AllVars()[k].ty;
              vt != ty ==>
                && SelectCast(vt, ty).onLeft == (vt == TInt && ty == TFlt)
                && (vt == TFlt ==> SelectCast(vt, ty).ty == TFlt) && (vt == TInt || vt == TFlt)
  {
    scope.Apart();
    LookupConcat(scope.outer, Plain(scope.vars), x);
    hide Output.Backed, ScopeHandler.Valid;
    if Lookup(scope.AllVars(), x).Some? {
      KnownType(scope.AllVars(), Lookup(scope.AllVars(), x).value);
    }
  }

  lemma DefinedReady(scope: ScopeHandler, before: Scope, x: string, ty: Ty)
    requires scope.Valid() && scope.emitter.Backed(scope.memory) && before.off <= |before.vars|
    requires Typed(before.vars) && ty != Unknown
    requires match Define(before, x, ty)
             case None => scope.Abs() == before
             case Some(sc) => scope.Abs() == sc
    ensures scope.Ready() && Typed(scope.AllVars())
  {
    hide Output.Backed, ScopeHandler.Valid;
    assert scope.Abs().vars == scope.AllVars();
  }

  lemma TargetOk(vars: seq<Var>, x: string, ty: Ty)
    requires Typed(vars) && (ty == TInt || ty == TFlt)
    ensures match Lookup(vars, x)
            case None => true
            case Some(k) => !(vars[k].ty == TInt && ty == TFlt) ==> (vars[k].ty == TInt || vars[k].ty == TFlt)
  {
  }

  /** A value stored into the selected target. */
  lemma AssignStored(status: Status, x: string, e: Expr, t: Expr, target: Target, before: Scope, mid: Scope,
                     after: Scope,
                     log: seq<seq<byte>>, log': seq<seq<byte>>)
    requires before.off <= |before.vars| && Parsed(e) && Typed(before.vars) && Trace(before.vars, e) == Some(t)
    requires match Lookup(before.vars, x)
             case Some(k) =>
               && mid == before && !(before.vars[k].ty == TInt && StaticType(t) == TFlt)
               && target == Target(before.vars[k].ty != StaticType(t), before.vars[k].ty, k % 0x100)
             case None =>
               && Define(before, x, StaticType(t)) == Some(mid)
               && target == Target(false, StaticType(t), |before.vars| % 0x100)
    requires StoreDone(status, t, target.cast, SaveOpcode(target.ty), target.index, mid, after, log, log')
    ensures AssignDone(status, x, e, before, after, log, log')
  {
    hide StoreDone, AssignDone, Trace, Parsed, Typed, StaticType;
    var found := Lookup(before.vars, x);
    if found.Some? {
      AssignKnown(status, x, e, t, found.value, before, after, log, log');
    } else {
      AssignNew(status, x, e, t, before, mid, after, log, log');
    }
  }

  /** The traced tree is still traced after the target has been defined. */
  lemma StillAnnotated(vars: seq<Var>, vars': seq<Var>, x: string, e: Expr, t: Expr)
    requires Parsed(e) && Trace(vars, e) == Some(t)
    requires vars' == vars || vars' == vars + [Var(x, StaticType(t))]
    ensures Annotated(vars', t)
  {
    Traceable(vars, e);
    if vars' != vars { Extended(vars, Var(x, StaticType(t)), t); }
  }

  lemma TracedType(vars: seq<Var>, e: Expr)
    requires Parsed(e)
    ensures Trace(vars, e).Some? ==>
              StaticType(Trace(vars, e).value) == TInt || StaticType(Trace(vars, e).value) == TFlt
  {
    Traceable(vars, e);
  }

  lemma VarsOf(scope: ScopeHandler)
    requires scope.Ready()
    ensures scope.Abs().vars == scope.AllVars() && scope.Abs().off <= |scope.AllVars()|
    ensures scope.Valid() && scope !in scope.ancestors
    ensures scope.Abs() == Scope(scope.AllVars(), scope.varsOff, scope.varsCap, scope.stackSize, scope.max.vars,
                                 scope.max.stack)
  {
  }

  method CompileAssignment(scope: ScopeHandler, x: string, e: Expr) returns (status: Status)
    requires scope.Ready() && Typed(scope.AllVars()) && Parsed(e)
    modifies scope`stackSize, scope`memory, scope`vars, scope.max, scope.memory
    ensures scope.Ready() && fresh(scope.memory - old(scope.memory)) && scope.emitter == old(scope.emitter)
    ensures Typed(scope.AllVars()) && old(scope.Abs()).off <= |old(scope.Abs()).vars|
    ensures AssignDone(status, x, e, old(scope.Abs()), scope.Abs(), old(scope.Log()), scope.Log())
  {
    hide *;
    ghost var before, log := scope.Abs(), scope.Log();
    VarsOf(scope);
    scope.Apart();
    var t := TraceDataType(scope, e);
    if t.None? {
      AssignPanics(x, e, before, before, log, log);
      return Panicked;
    }
    TracedType(before.vars, e);
    var target := SelectTarget(scope, x, StaticType(t.value));
    TargetOk(before.vars, x, StaticType(t.value));
    if target.None? {
      AssignPanics(x, e, before, scope.Abs(), log, scope.Log());
      return Panicked;
    }
    ghost var mid := scope.Abs();
    VarsOf(scope);
    DefinedVars(before, x, StaticType(t.value));
    StillAnnotated(before.vars, mid.vars, x, e, t.value);
    TargetOpcode(target.value.ty);
    status := CompileStore(scope, t.value, target.value.cast, SaveOpcode(target.value.ty), target.value.index);
    AssignStored(status, x, e, t.value, target.value, before, mid, scope.Abs(), log, scope.Log());
  }

  lemma DefinedVars(sc: Scope, x: string, ty: Ty)
    requires sc.off <= |sc.vars|
    ensures Define(sc, x, ty).Some? ==> Define(sc, x, ty).value.vars == sc.vars + [Var(x, ty)]
  {
  }

  lemma TargetOpcode(ty: Ty)
    ensures SaveOpcode(ty) == ISAVE || SaveOpcode(ty) == FSAVE
  {
  }

  // ---- statements ----

  predicate ParsedStmt(s: Stmt) {
    match s
    case Assign(_, e) => Parsed(e)
    case Bare(e) => Parsed(e)
    case Call(_, args) => forall a :: a in args ==> Parsed(a)
    case If(e, t, f) => Parsed(e) && ParsedBlock(t) && ParsedBlock(f)
    case While(e, body) => Parsed(e) && ParsedBlock(body)
  }

  predicate ParsedBlock(b: Block) {
    match b
    case End => true
    case Then(s, rest) => ParsedStmt(s) && ParsedBlock(rest)
  }

  const BLOCK_PAGE: pagesize := 512

  /** Every spliced piece is taken by the emitter it goes to, which has `size` bytes when
      the statement is met. */
  ghost predicate PagesFit(g: Globals, sc: Scope, s: Stmt, page: Option<pagesize>, size: nat)
    requires g.Ok() && sc.off <= |sc.vars|
    decreases s
  {
    match s
    case If(e, t, f) =>
      var c := ExprCode(sc.vars, e);
      c.EPanic? ||
      (var sc1 := Pushed(sc, c, e);
       var ct := BlockCode(g, Child(sc1, sc1.ssize), t);
       && PagesFitBlock(g, Child(sc1, sc1.ssize), t, Some(BLOCK_PAGE), 0)
       && (ct.SCode? ==>
             var cf := BlockCode(g, Child(Back(sc1, ct.sc), sc1.ssize), f);
             && PagesFitBlock(g, Child(Back(sc1, ct.sc), sc1.ssize), f, Some(BLOCK_PAGE), 0)
             && (cf.SCode? ==> Accepts(page, size + |CodeOf(c)|, |IfTail(g, ct.code, cf.code)|))))
    case While(e, body) =>
      var c := ExprCode(sc.vars, e);
      c.EPanic? ||
      (var sc1 := Pushed(sc, c, e);
       && PagesFitBlock(g, Child(sc1, 0), body, Some(BLOCK_PAGE), 0)
       && (StmtCode(g, sc, s).SCode? ==> Accepts(page, size, |StmtCode(g, sc, s).code|)))
    case _ => true
  }

  ghost predicate PagesFitBlock(g: Globals, sc: Scope, b: Block, page: Option<pagesize>, size: nat)
    requires g.Ok() && sc.off <= |sc.vars|
    decreases b
  {
    match b
    case End => true
    case Then(s, rest) =>
      && PagesFit(g, sc, s, page, size)
      && (var r := StmtCode(g, sc, s); r.SCode? ==> PagesFitBlock(g, r.sc, rest, page, size + |r.code|))
  }

  /** The code a compiled statement is reported with. */
  function Reported(sc: Scope, s: Stmt): Status {
    if s.Bare? && ExprCode(sc.vars, s.expr).ENone? then Unresolved else Success
  }

  /** What compiling a statement amounts to: the first piece that its emitter refuses, or
      the first thing that stops the compiler, or else the code in pieces. */
  ghost predicate StmtDone(g: Globals, s: Stmt, page: Option<pagesize>, status: Status,
                           before: Scope, after: Scope, log: seq<seq<byte>>, log': seq<seq<byte>>)
    requires g.Ok() && before.off <= |before.vars|
  {
    if !PagesFit(g, before, s, page, |Flat(log)|) then status == Overrun
    else
      match StmtCode(g, before, s)
      case SPanic => status == Panicked
      case SCode(_, sc) =>
        status == Reported(before, s) && after == sc && log' == log + StmtChunks(g, before, s)
  }

  ghost predicate BlockDone(g: Globals, b: Block, page: Option<pagesize>, status: Status,
                            before: Scope, after: Scope, log: seq<seq<byte>>, log': seq<seq<byte>>)
    requires g.Ok() && before.off <= |before.vars|
  {
    if !PagesFitBlock(g, before, b, page, |Flat(log)|) then status == Overrun
    else
      match BlockCode(g, before, b)
      case SPanic => status == Panicked
      case SCode(_, sc) => status == Success && after == sc && log' == log + BlockChunks(g, before, b)
  }

  lemma AssignIsStmt(g: Globals, s: Stmt, page: Option<pagesize>, status: Status,
                     before: Scope, after: Scope, log: seq<seq<byte>>, log': seq<seq<byte>>)
    requires g.Ok() && before.off <= |before.vars|
    requires s.Assign? && AssignDone(status, s.target, s.rhs, before, after, log, log')
    ensures StmtDone(g, s, page, status, before, after, log, log')
  {
    hide ExprCode, ExprChunks, AssignTail, AssignCode;
  }

  lemma BareIsStmt(g: Globals, s: Stmt, page: Option<pagesize>, status: Status,
                   before: Scope, after: Scope, log: seq<seq<byte>>, log': seq<seq<byte>>)
    requires g.Ok() && before.off <= |before.vars|
    requires s.Bare? && ExprDone(status, s.expr, before, after, log, log')
    ensures StmtDone(g, s, page, status, before, after, log, log')
  {
    hide ExprCode, ExprChunks, Depth;
    assert log + [] == log;
  }

  // ---- calls ----

  /** After `i` arguments: the others complete the job. */
  ghost predicate ArgsPending(args: seq<Expr>, before: Scope, log: seq<seq<byte>>, i: nat, mid: Scope,
                              log1: seq<seq<byte>>) {
    && i <= |args| && mid.vars == before.vars && mid.off == before.off
    && (match ArgsCode(before, args)
        case SPanic => ArgsCode(mid, args[i..]).SPanic?
        case SCode(_, sc) =>
          && ArgsCode(mid, args[i..]).SCode? && ArgsCode(mid, args[i..]).sc == sc
          && log + ArgsChunks(before.vars, args) == log1 + ArgsChunks(before.vars, args[i..]))
  }

  lemma ArgsStart(args: seq<Expr>, sc: Scope, log: seq<seq<byte>>)
    ensures ArgsPending(args, sc, log, 0, sc, log)
  {
    assert args[0..] == args;
  }

  /** The last argument must not be an operator. */
  lemma ArgsStop(args: seq<Expr>, before: Scope, log: seq<seq<byte>>, i: nat, mid: Scope, log1: seq<seq<byte>>)
    requires ArgsPending(args, before, log, i, mid, log1) && i + 1 == |args| && args[i].Binary?
    ensures ArgsCode(before, args).SPanic?
  {
  }

  lemma ArgsNext(status: Status, args: seq<Expr>, before: Scope, log: seq<seq<byte>>, i: nat,
                 mid: Scope, log1: seq<seq<byte>>, mid': Scope, log2: seq<seq<byte>>)
    requires ArgsPending(args, before, log, i, mid, log1) && i < |args| && !(i + 1 == |args| && args[i].Binary?)
    requires ExprDone(status, args[i], mid, mid', log1, log2)
    ensures status == Panicked ==> ArgsCode(before, args).SPanic?
    ensures status != Panicked ==> ArgsPending(args, before, log, i + 1, mid', log2)
  {
    hide ExprDone, ExprCode, ExprChunks, Pushed, ArgsCode, ArgsChunks;
    assert args[i..][0] == args[i] && args[i..][1..] == args[i + 1..];
    ArgsCons(mid, args[i..]);
    ArgDone(status, args[i], mid, mid', log1, log2);
    if status != Panicked {
      var c := ExprCode(mid.vars, args[i]);
      Associate(log1, if c.ECode? then ExprChunks(mid.vars, args[i]) else [], ArgsChunks(mid.vars, args[i + 1..]));
    }
  }

  lemma Associate(a: seq<seq<byte>>, b: seq<seq<byte>>, c: seq<seq<byte>>)
    ensures a + (b + c) == a + b + c
  {
  }

  /** An argument, or a condition, that is compiled. */
  lemma ArgDone(status: Status, e: Expr, sc: Scope, sc1: Scope, log: seq<seq<byte>>, log1: seq<seq<byte>>)
    requires ExprDone(status, e, sc, sc1, log, log1)
    ensures status == Panicked <==> ExprCode(sc.vars, e).EPanic?
    ensures status != Overrun
    ensures status != Panicked ==>
              && sc1 == Pushed(sc, ExprCode(sc.vars, e), e) && sc1.vars == sc.vars && sc1.off == sc.off
              && log1 == log + if ExprCode(sc.vars, e).ECode? then ExprChunks(sc.vars, e) else []
  {
    hide ExprCode, ExprChunks, Depth;
    assert log + [] == log;
  }

  lemma ArgsCons(sc: Scope, args: seq<Expr>)
    requires args != [] && !(|args| == 1 && args[0].Binary?)
    ensures var c := ExprCode(sc.vars, args[0]);
            && (c.EPanic? ==> ArgsCode(sc, args).SPanic?)
            && (!c.EPanic? ==>
                  var rest := ArgsCode(Pushed(sc, c, args[0]), args[1..]);
                  && (rest.SPanic? <==> ArgsCode(sc, args).SPanic?)
                  && (rest.SCode? ==> ArgsCode(sc, args).sc == rest.sc))
    ensures ArgsChunks(sc.vars, args)
         == (if ExprCode(sc.vars, args[0]).ECode? then ExprChunks(sc.vars, args[0]) else [])
             + ArgsChunks(sc.vars, args[1..])
  {
    hide ExprCode, ExprChunks, Depth;
  }

  lemma CallDone(g: Globals, s: Stmt, page: Option<pagesize>, before: Scope, after: Scope, log: seq<seq<byte>>,
                 log1: seq<seq<byte>>)
    requires g.Ok() && before.off <= |before.vars|
    requires s.Call? && s.func in g.fns && ArgsPending(s.args, before, log, |s.args|, after, log1)
    ensures StmtDone(g, s, page, Success, before, after, log, log1 + [Encode(Invoke(g.fns[s.func].index))])
  {
    hide ExprCode, ExprChunks, Depth, Encode;
    assert s.args[|s.args|..] == [];
    var invoke := [Encode(Invoke(g.fns[s.func].index))];
    assert log1 == log + ArgsChunks(before.vars, s.args);
    assert log1 + invoke == log + (ArgsChunks(before.vars, s.args) + invoke);
  }

  lemma CallPanics(g: Globals, s: Stmt, page: Option<pagesize>, before: Scope, after: Scope, log: seq<seq<byte>>,
                   log': seq<seq<byte>>)
    requires g.Ok() && before.off <= |before.vars|
    requires s.Call? && (s.func !in g.fns || ArgsCode(before, s.args).SPanic?)
    ensures StmtDone(g, s, page, Panicked, before, after, log, log')
  {
  }

  lemma CallSetup(g: Globals, s: Stmt, vars: seq<Var>)
    requires g.Ok() && s.Call? && ParsedStmt(s)
    ensures forall a :: a in s.args ==> Sound(vars, a)
    ensures s.func in g.fns ==>
              && g.fns[s.func].index < 0x1_0000
              && Encode(Invoke(g.fns[s.func].index)) == [CALL, g.fns[s.func].index / 0x100, g.fns[s.func].index % 0x100]
  {
  }

  /** The arguments in order, then the call by its pool index. The tracked stack
      size is left as the arguments made it. */
  method CompileCall(g: Globals, scope: ScopeHandler, s: Stmt) returns (status: Status)
    requires g.Ok() && scope.Ready() && s.Call? && ParsedStmt(s)
    modifies scope`stackSize, scope`memory, scope.max`stack, scope.memory
    ensures scope.Ready() && fresh(scope.memory - old(scope.memory)) && scope.emitter == old(scope.emitter)
            && scope.vars == old(scope.vars)
    ensures old(scope.Abs()).off <= |old(scope.Abs()).vars|
    ensures StmtDone(g, s, scope.emitter.PageSize(), status, old(scope.Abs()), scope.Abs(), old(scope.Log()),
                     scope.Log())
  {
    hide *;
    ghost var before, log, vars := scope.Abs(), scope.Log(), scope.AllVars();
    VarsOf(scope);
    CallSetup(g, s, vars);
    if s.func !in g.fns {
      CallPanics(g, s, scope.emitter.PageSize(), before, before, log, log);
      return Panicked;
    }
    ArgsStart(s.args, before, log);
    for i := 0 to |s.args|
      invariant scope.Ready() && fresh(scope.memory - old(scope.memory)) && scope.emitter == old(scope.emitter)
                && scope.vars == old(scope.vars)
      invariant ArgsPending(s.args, before, log, i, scope.Abs(), scope.Log())
    {
      ghost var mid, log1 := scope.Abs(), scope.Log();
      VarsOf(scope);
      if i + 1 == |s.args| && s.args[i].Binary? {
        ArgsStop(s.args, before, log, i, mid, log1);
        CallPanics(g, s, scope.emitter.PageSize(), before, mid, log, log1);
        return Panicked;
      }
      status := CompileExpression(scope, s.args[i]);
      ArgsNext(status, s.args, before, log, i, mid, log1, scope.Abs(), scope.Log());
      if status == Panicked {
        CallPanics(g, s, scope.emitter.PageSize(), before, scope.Abs(), log, scope.Log());
        return;
      }
    }
    CallDone(g, s, scope.emitter.PageSize(), before, scope.Abs(), log, scope.Log());
    EmitOnly(scope, [CALL, g.fns[s.func].index / 0x100, g.fns[s.func].index % 0x100]);
    status := Success;
  }

  /** A chunk without a tracked effect. */
  method EmitChunk(scope: ScopeHandler, chunk: seq<byte>) returns (ok: bool)
    requires scope.Ready()
    modifies scope`memory, scope.memory
    ensures scope.Ready() && fresh(scope.memory - old(scope.memory)) && scope.emitter == old(scope.emitter)
            && scope.vars == old(scope.vars)
    ensures scope.Log() == (if ok then old(scope.Log()) + [chunk] else old(scope.Log()))
            && scope.Abs() == old(scope.Abs())
    ensures ok <==> Accepts(scope.emitter.PageSize(), |Flat(old(scope.Log()))|, |chunk|)
  {
    scope.Apart();
    hide ScopeHandler.Valid;
    ok := scope.Emit(chunk);
  }

  /** A small chunk without a tracked effect. */
  method EmitOnly(scope: ScopeHandler, chunk: seq<byte>)
    requires scope.Ready() && |chunk| <= 5
    modifies scope`memory, scope.memory
    ensures scope.Ready() && fresh(scope.memory - old(scope.memory)) && scope.emitter == old(scope.emitter)
            && scope.vars == old(scope.vars)
    ensures scope.Log() == old(scope.Log()) + [chunk] && scope.Abs() == old(scope.Abs())
  {
    scope.Apart();
    hide ScopeHandler.Valid;
    var ok := scope.Emit(chunk);
  }

  // ---- splicing ----

  /** The operand bytes as they are written: the high one is shifted after the
      cast to a byte, so it is always zero. */
  function HighByte(n: nat): byte { n % 0x100 / 0x100 }

  function LowByte(n: nat): byte { n % 0x100 }

  lemma OperandBytes(g: Globals, n: nat)
    requires g.Ok() && g.reach == AS_WRITTEN
    ensures Encode(Jez(Short(g, n))) == [JEZ, HighByte(n), LowByte(n)]
    ensures Encode(RJmp(Short(g, n))) == [RJMP, HighByte(n), LowByte(n)]
  {
  }

  lemma SizeOf(scope: ScopeHandler)
    requires scope.Ready() && scope.emitter.Paged?
    ensures var e := scope.emitter.pages;
            e.Valid() && e.log == scope.Log() && e.size == |Flat(e.log)| && e.Repr() == scope.memory
  {
    scope.emitter.pages.Accounting();
  }

  /** Sinks what a scope has emitted into a buffer. */
  method Pour(scope: ScopeHandler, data: array<byte>, at: nat)
    requires scope.Ready() && scope.emitter.Paged? && data !in scope.memory && at + |Flat(scope.Log())| <= data.Length
    modifies data
    ensures scope.Ready() && scope.Log() == old(scope.Log())
    ensures data[..] == Patch(old(data[..]), at, Flat(scope.Log()))
  {
    SizeOf(scope);
    hide ScopeHandler.Valid;
    hide Buffered.Valid;
    var n := scope.emitter.pages.Sink(data, at, scope.emitter.pages.size);
  }

  method SizeIn(scope: ScopeHandler) returns (size: nat)
    requires scope.Ready() && scope.emitter.Paged?
    ensures size == |Flat(scope.Log())|
  {
    SizeOf(scope);
    size := scope.emitter.pages.size;
  }

  /** A jump instruction written by hand. */
  method PutJump(data: array<byte>, at: nat, opcode: byte, dist: nat)
    requires at + 3 <= data.Length
    modifies data
    ensures data[..] == Patch(old(data[..]), at, [opcode, HighByte(dist), LowByte(dist)])
  {
    data[at], data[at + 1], data[at + 2] := opcode, HighByte(dist), LowByte(dist);
  }

  /** The exit jump and the contents of two emitters. */
  method SpliceIf(trueScope: ScopeHandler, falseScope: ScopeHandler) returns (data: array<byte>)
    requires trueScope.Ready() && falseScope.Ready() && trueScope.emitter.Paged? && falseScope.emitter.Paged?
    ensures fresh(data)
    ensures var (t, f) := (Flat(trueScope.Log()), Flat(falseScope.Log()));
            data[..] == [JEZ, HighByte(|t|), LowByte(|t|)] + t + f
  {
    hide *;
    var trueSize := SizeIn(trueScope);
    var falseSize := SizeIn(falseScope);
    data := new byte[trueSize + falseSize + 3](_ => 0);
    ghost var zero := data[..];
    PutJump(data, 0, JEZ, trueSize);
    Pour(trueScope, data, 3);
    Pour(falseScope, data, 3 + trueSize);
    IfSpliced(zero, [JEZ, HighByte(trueSize), LowByte(trueSize)], Flat(trueScope.Log()), Flat(falseScope.Log()));
  }

  lemma IfSpliced(zero: seq<byte>, jez: seq<byte>, t: seq<byte>, f: seq<byte>)
    requires |jez| == 3 && |zero| == |t| + |f| + 3
    ensures Patch(Patch(Patch(zero, 0, jez), 3, t), 3 + |t|, f) == jez + t + f
  {
  }

  /** The `then` code, a jump over the `else` code, and before both the jump that
      skips the former. Nothing is emitted when the first part is too long. */
  method EmitIf(g: Globals, scope: ScopeHandler, trueScope: ScopeHandler, falseScope: ScopeHandler)
    returns (status: Status)
    requires g.Ok() && g.reach == AS_WRITTEN
    requires scope.Ready() && trueScope.Ready() && falseScope.Ready()
    requires trueScope.emitter.Paged? && falseScope.emitter.Paged?
    requires scope.memory !! trueScope.memory && falseScope.memory !! trueScope.memory
    requires scope != trueScope && trueScope != falseScope
    modifies scope`memory, scope.memory, trueScope`memory, trueScope.memory
    ensures scope.Ready() && fresh(scope.memory - old(scope.memory)) && scope.emitter == old(scope.emitter)
            && scope.vars == old(scope.vars)
    ensures scope.Abs() == old(scope.Abs())
    ensures TailDone(g, status, scope.emitter.PageSize(), old(Flat(trueScope.Log())), old(Flat(falseScope.Log())),
                     old(scope.Log()), scope.Log())
  {
    hide *;
    ghost var (t, f) := (Flat(trueScope.Log()), Flat(falseScope.Log()));
    Foreign(scope, trueScope);
    Foreign(falseScope, trueScope);
    Foreign(trueScope, scope);
    Foreign(trueScope, falseScope);
    AppendExit(trueScope, falseScope);
    status := EmitTail(g, scope, trueScope, falseScope, t);
  }

  /** The jump over the `else` part, unless that is too long for it. */
  method AppendExit(trueScope: ScopeHandler, falseScope: ScopeHandler)
    requires trueScope.Ready() && falseScope.Ready() && trueScope.emitter.Paged? && falseScope.emitter.Paged?
    modifies trueScope`memory, trueScope.memory
    ensures trueScope.Ready() && trueScope.emitter == old(trueScope.emitter)
    ensures Flat(trueScope.Log()) == WithExit(old(Flat(trueScope.Log())), old(Flat(falseScope.Log())))
  {
    hide *;
    WithExitIs(Flat(trueScope.Log()), Flat(falseScope.Log()));
    var falseSize := SizeIn(falseScope);
    if falseSize < 0x1_0000 {
      FlatSnoc(trueScope.Log(), [JMP, falseSize / 0x100, falseSize % 0x100]);
      EmitOnly(trueScope, [JMP, falseSize / 0x100, falseSize % 0x100]);
    }
  }

  lemma WithExitIs(t: seq<byte>, f: seq<byte>)
    ensures WithExit(t, f) == if |f| < 0x1_0000 then t + [JMP, |f| / 0x100, |f| % 0x100] else t
  {
  }

  ghost predicate TailDone(g: Globals, status: Status, page: Option<pagesize>, t: seq<byte>, f: seq<byte>,
                           log: seq<seq<byte>>, log': seq<seq<byte>>)
    requires g.Ok()
  {
    if Accepts(page, |Flat(log)|, |IfTail(g, t, f)|) then status == Success && log' == log + One(IfTail(g, t, f))
    else status == Overrun
  }

  ghost predicate LoopDone(g: Globals, status: Status, page: Option<pagesize>, c: seq<byte>, b: seq<byte>,
                           log: seq<seq<byte>>, log': seq<seq<byte>>)
    requires g.Ok()
  {
    if |b| >= 0x1_0000 then status == Panicked
    else if Accepts(page, |Flat(log)|, |c + WhileTail(g, c, b)|)
    then status == Success && log' == log + [c + WhileTail(g, c, b)]
    else status == Overrun
  }

  method EmitTail(g: Globals, scope: ScopeHandler, trueScope: ScopeHandler, falseScope: ScopeHandler,
                  ghost t: seq<byte>)
    returns (status: Status)
    requires g.Ok() && g.reach == AS_WRITTEN
    requires scope.Ready() && trueScope.Ready() && falseScope.Ready()
    requires trueScope.emitter.Paged? && falseScope.emitter.Paged?
    requires Flat(trueScope.Log()) == WithExit(t, Flat(falseScope.Log()))
    modifies scope`memory, scope.memory
    ensures scope.Ready() && fresh(scope.memory - old(scope.memory)) && scope.emitter == old(scope.emitter)
            && scope.vars == old(scope.vars)
    ensures scope.Abs() == old(scope.Abs())
    ensures TailDone(g, status, scope.emitter.PageSize(), t, old(Flat(falseScope.Log())), old(scope.Log()), scope.Log())
  {
    hide *;
    ghost var f, log, page := Flat(falseScope.Log()), scope.Log(), scope.emitter.PageSize();
    var trueSize := SizeIn(trueScope);
    if trueSize < 0x1_0000 {
      var data := SpliceIf(trueScope, falseScope);
      var ok := EmitChunk(scope, data[..]);
      status := if ok then Success else Overrun;
      TailEmitted(g, status, page, t, f, log, scope.Log(), data[..]);
    } else {
      status := Success;
      TailDropped(g, page, t, f, log);
    }
  }

  lemma TailEmitted(g: Globals, status: Status, page: Option<pagesize>, t: seq<byte>, f: seq<byte>, log: seq<seq<byte>>,
                    log': seq<seq<byte>>,
                    data: seq<byte>)
    requires g.Ok() && g.reach == AS_WRITTEN && |WithExit(t, f)| < 0x1_0000
    requires var te := WithExit(t, f); data == [JEZ, HighByte(|te|), LowByte(|te|)] + te + f
    requires if Accepts(page, |Flat(log)|, |data|) then status == Success && log' == log + [data]
             else status == Overrun
    ensures TailDone(g, status, page, t, f, log, log')
  {
    OperandBytes(g, |WithExit(t, f)|);
  }

  lemma TailDropped(g: Globals, page: Option<pagesize>, t: seq<byte>, f: seq<byte>, log: seq<seq<byte>>)
    requires g.Ok() && |WithExit(t, f)| >= 0x1_0000
    ensures TailDone(g, Success, page, t, f, log, log)
  {
    assert log + [] == log;
  }

  /** Scope records are not part of any scope's emitter. */
  lemma Foreign(a: ScopeHandler, b: ScopeHandler)
    requires b.Ready()
    ensures a !in b.memory && a.max !in b.memory && a.ancestors !! b.memory
    ensures match b.emitter case Paged(e) => e in b.memory case Streamed(e) => e in b.memory
  {
  }

  /** What a branch or a loop body leaves behind, and what the enclosing scope
      then looks like. */
  lemma BlockMeans(g: Globals, b: Block, page: Option<pagesize>, status: Status, before: Scope, after: Scope,
                   log': seq<seq<byte>>)
    requires g.Ok() && before.off <= |before.vars|
    requires BlockDone(g, b, page, status, before, after, [], log')
    ensures status == Overrun <==> !PagesFitBlock(g, before, b, page, 0)
    ensures status == Panicked <==> PagesFitBlock(g, before, b, page, 0) && BlockCode(g, before, b).SPanic?
    ensures status != Panicked && status != Overrun ==>
              var r := BlockCode(g, before, b);
              && status == Success && PagesFitBlock(g, before, b, page, 0)
              && r.SCode? && after == r.sc && log' == BlockChunks(g, before, b) && Flat(log') == r.code
  {
    hide BlockCode, BlockChunks, PagesFitBlock;
    if status != Panicked && status != Overrun {
      BlockFlat(g, before, b);
      assert [] + BlockChunks(g, before, b) == BlockChunks(g, before, b);
    }
  }

  /** A child scope with an emitter of its own. */
  method OpenChild(scope: ScopeHandler, root: ScopeHandler, stackSize: nat) returns (child: ScopeHandler)
    requires scope.Ready() && root.max == scope.max
    ensures child.Ready() && fresh(child) && fresh(child.memory) && child.max == scope.max
    ensures child.AllVars() == scope.AllVars() && child.Log() == [] && child.emitter.PageSize() == Some(BLOCK_PAGE)
            && child.emitter.Paged?
    ensures child.Abs() == Child(scope.Abs(), stackSize) && child.Abs().off <= |child.Abs().vars|
  {
    VarsOf(scope);
    assert BLOCK_PAGE >= 5;
    hide ScopeHandler.Valid, ScopeHandler.Ready;
    hide Buffered.Valid;
    var emitter := new Buffered(BLOCK_PAGE);
    child := new ScopeHandler.Child(scope, root, stackSize, emitter);
    assert child.Abs().vars == scope.AllVars();
  }

  /** A block compiled in a child scope. */
  method CompileBranch(g: Globals, scope: ScopeHandler, root: ScopeHandler, stackSize: nat, b: Block)
    returns (status: Status, child: ScopeHandler)
    requires g.Ok() && g.reach == AS_WRITTEN && scope.Ready() && root.max == scope.max
    requires Typed(scope.AllVars()) && ParsedBlock(b)
    modifies scope.max
    ensures scope.Ready() && child.Ready() && fresh(child) && fresh(child.memory) && child.emitter.Paged?
    ensures scope.Abs() == Back(old(scope.Abs()), child.Abs())
    ensures Child(old(scope.Abs()), stackSize).off <= |Child(old(scope.Abs()), stackSize).vars|
    ensures BlockDone(g, b, Some(BLOCK_PAGE), status, Child(old(scope.Abs()), stackSize), child.Abs(), [], child.Log())
    decreases b, 1
  {
    hide *;
    ghost var before := scope.Abs();
    VarsOf(scope);
    Foreign(scope, scope);
    child := OpenChild(scope, root, stackSize);
    Foreign(scope, child);
    Foreign(child, scope);
    status := CompileScope(g, child, b);
    SharedMaxima(scope, child, before);
  }

  lemma SharedMaxima(scope: ScopeHandler, child: ScopeHandler, before: Scope)
    requires scope.max == child.max
    requires before.(vmax := 0, smax := 0) == Scope(scope.AllVars(), scope.varsOff, scope.varsCap, scope.stackSize, 0,
                                                    0)
    ensures scope.Abs() == Back(before, child.Abs())
  {
  }

  method CompileScope(g: Globals, scope: ScopeHandler, b: Block) returns (status: Status)
    requires g.Ok() && g.reach == AS_WRITTEN && scope.Ready() && Typed(scope.AllVars()) && ParsedBlock(b)
    modifies scope`stackSize, scope`memory, scope`vars, scope`emitter, scope.max, scope.memory
    ensures scope.Ready() && fresh(scope.memory - old(scope.memory)) && scope.emitter == old(scope.emitter)
    ensures Typed(scope.AllVars()) && old(scope.Abs()).off <= |old(scope.Abs()).vars|
    ensures BlockDone(g, b, scope.emitter.PageSize(), status, old(scope.Abs()), scope.Abs(), old(scope.Log()),
                      scope.Log())
    decreases b, 0
  {
    hide *;
    ghost var before, log := scope.Abs(), scope.Log();
    VarsOf(scope);
    status := Success;
    var current := b;
    BlockStart(g, b, scope.emitter.PageSize(), before, log);
    while current.Then?
      invariant scope.Ready() && fresh(scope.memory - old(scope.memory)) && scope.emitter == old(scope.emitter)
      invariant Typed(scope.AllVars()) && ParsedBlock(current) && (current == b || current < b)
      invariant BlockPending(g, b, scope.emitter.PageSize(), before, log, current, scope.Abs(), scope.Log())
      decreases current
    {
      ghost var mid, log1 := scope.Abs(), scope.Log();
      VarsOf(scope);
      ParsedParts(current);
      status := CompileStatement(g, scope, current.head);
      BlockNext(g, b, scope.emitter.PageSize(), status, before, log, current, mid, log1, scope.Abs(), scope.Log());
      if status == Panicked || status == Overrun {
        return;
      }
      current := current.tail;
    }
    status := Success;
    BlockEnd(g, b, scope.emitter.PageSize(), before, log, current, scope.Abs(), scope.Log());
  }

  method CompileStatement(g: Globals, scope: ScopeHandler, s: Stmt) returns (status: Status)
    requires g.Ok() && g.reach == AS_WRITTEN && scope.Ready() && Typed(scope.AllVars()) && ParsedStmt(s)
    modifies scope`stackSize, scope`memory, scope`vars, scope`emitter, scope.max, scope.memory
    ensures scope.Ready() && fresh(scope.memory - old(scope.memory)) && scope.emitter == old(scope.emitter)
    ensures Typed(scope.AllVars()) && old(scope.Abs()).off <= |old(scope.Abs()).vars|
    ensures StmtDone(g, s, scope.emitter.PageSize(), status, old(scope.Abs()), scope.Abs(), old(scope.Log()),
                     scope.Log())
    decreases s, 2
  {
    hide *;
    ghost var before, log := scope.Abs(), scope.Log();
    VarsOf(scope);
    StmtSetup(s, before.vars);
    match s {
      case Assign(x, e) =>
        status := CompileAssignment(scope, x, e);
        AssignIsStmt(g, s, scope.emitter.PageSize(), status, before, scope.Abs(), log, scope.Log());
      case Bare(e) =>
        status := CompileExpression(scope, e);
        BareIsStmt(g, s, scope.emitter.PageSize(), status, before, scope.Abs(), log, scope.Log());
      case Call(_, _) =>
        status := CompileCall(g, scope, s);
      case If(_, _, _) =>
        status := CompileIf(g, scope, s);
      case While(_, _) =>
        status := CompileWhile(g, scope, s);
    }
  }

  method CompileIf(g: Globals, scope: ScopeHandler, s: Stmt) returns (status: Status)
    requires g.Ok() && g.reach == AS_WRITTEN && scope.Ready() && Typed(scope.AllVars()) && s.If? && ParsedStmt(s)
    modifies scope`stackSize, scope`memory, scope.max, scope.memory
    ensures scope.Ready() && fresh(scope.memory - old(scope.memory)) && scope.emitter == old(scope.emitter)
            && scope.vars == old(scope.vars)
    ensures old(scope.Abs()).off <= |old(scope.Abs()).vars|
    ensures StmtDone(g, s, scope.emitter.PageSize(), status, old(scope.Abs()), scope.Abs(), old(scope.Log()),
                     scope.Log())
    decreases s, 1
  {
    hide *;
    ghost var before, log, page := scope.Abs(), scope.Log(), scope.emitter.PageSize();
    VarsOf(scope);
    StmtSetup(s, before.vars);
    var root := scope.FindRootScope();
    status := CompileExpression(scope, s.cond);
    ghost var sc1, log1 := scope.Abs(), scope.Log();
    CondDone(before, s.cond, status, sc1, log, log1);
    if status == Panicked {
      CondPanics(g, s, page, before, sc1, log, log1);
      return;
    }
    status := CompileArms(g, scope, root, s, before, log);
  }

  /** Both parts in child scopes of their own, then the spliced code. */
  method CompileArms(g: Globals, scope: ScopeHandler, root: ScopeHandler, s: Stmt, ghost before: Scope,
                     ghost log: seq<seq<byte>>)
    returns (status: Status)
    requires g.Ok() && g.reach == AS_WRITTEN && scope.Ready() && Typed(scope.AllVars()) && s.If? && ParsedStmt(s)
    requires root.max == scope.max && before.off <= |before.vars| && CondOk(before, s.cond, scope.Abs())
    requires scope.Log() == log + (if ExprCode(before.vars, s.cond).ECode? then ExprChunks(before.vars, s.cond) else [])
    modifies scope`memory, scope.max, scope.memory
    ensures scope.Ready() && fresh(scope.memory - old(scope.memory)) && scope.emitter == old(scope.emitter)
            && scope.vars == old(scope.vars)
    ensures StmtDone(g, s, scope.emitter.PageSize(), status, before, scope.Abs(), log, scope.Log())
    decreases s, 0
  {
    hide *;
    ghost var sc1, log1, page := scope.Abs(), scope.Log(), scope.emitter.PageSize();
    VarsOf(scope);
    StmtSetup(s, before.vars);
    var trueScope, falseScope;
    status, trueScope := CompileBranch(g, scope, root, scope.stackSize, s.thn);
    ghost var sc2, t := scope.Abs(), Flat(trueScope.Log());
    BranchDone(g, s.thn, status, sc1, sc1.ssize, trueScope.Abs(), sc2, trueScope.Log());
    if status == Panicked || status == Overrun {
      ThenStops(g, s, page, status, before, sc1, sc2, log, scope.Log());
      return;
    }
    VarsOf(scope);
    status, falseScope := CompileBranch(g, scope, root, scope.stackSize, s.els);
    ghost var sc3, f := scope.Abs(), Flat(falseScope.Log());
    BranchDone(g, s.els, status, sc2, sc1.ssize, falseScope.Abs(), sc3, falseScope.Log());
    if status == Panicked || status == Overrun {
      ElseStops(g, s, page, status, before, sc1, sc2, t, sc3, log, scope.Log());
      return;
    }
    status := EmitIf(g, scope, trueScope, falseScope);
    IfFinishes(g, s, page, status, before, sc1, sc2, sc3, t, f, log, log1, scope.Log());
  }

  method CompileWhile(g: Globals, scope: ScopeHandler, s: Stmt) returns (status: Status)
    requires g.Ok() && g.reach == AS_WRITTEN && scope.Ready() && Typed(scope.AllVars()) && s.While? && ParsedStmt(s)
    modifies scope`stackSize, scope`memory, scope`vars, scope`emitter, scope.max, scope.memory
    ensures scope.Ready() && fresh(scope.memory - old(scope.memory)) && scope.emitter == old(scope.emitter)
            && scope.vars == old(scope.vars)
    ensures old(scope.Abs()).off <= |old(scope.Abs()).vars|
    ensures StmtDone(g, s, scope.emitter.PageSize(), status, old(scope.Abs()), scope.Abs(), old(scope.Log()),
                     scope.Log())
    decreases s, 1
  {
    hide *;
    ghost var before, log, page := scope.Abs(), scope.Log(), scope.emitter.PageSize();
    VarsOf(scope);
    StmtSetup(s, before.vars);
    var root := scope.FindRootScope();
    var cond;
    ghost var memory;
    status, cond, memory := CompileCondition(scope, s.cond);
    ghost var sc1 := scope.Abs();
    CondDone(before, s.cond, status, sc1, [], cond.log);
    if status == Panicked {
      CondPanics(g, s, page, before, sc1, log, scope.Log());
      return;
    }
    CondFlat(before.vars, s.cond, cond.log);
    VarsOf(scope);
    var body;
    status, body := CompileBranch(g, scope, root, 0, s.body);
    ghost var sc2, b := scope.Abs(), Flat(body.Log());
    BranchDone(g, s.body, status, sc1, 0, body.Abs(), sc2, body.Log());
    if status == Panicked || status == Overrun {
      BodyStops(g, s, page, status, before, sc1, sc2, log, scope.Log());
      return;
    }
    status := EmitWhile(g, scope, cond, body, memory);
    WhileFinishes(g, s, page, status, before, sc1, sc2, b, log, scope.Log());
  }

  /** The condition of a loop is compiled in the loop's own scope, but into an
      emitter of its own. */
  method CompileCondition(scope: ScopeHandler, e: Expr)
    returns (status: Status, code: Buffered, ghost memory: set<object>)
    requires scope.Ready() && Sound(scope.AllVars(), e)
    modifies scope`stackSize, scope`memory, scope`vars, scope`emitter, scope.max`stack, scope.memory
    ensures scope.Ready() && scope.memory == old(scope.memory) && scope.emitter == old(scope.emitter)
            && scope.vars == old(scope.vars)
    ensures scope.Log() == old(scope.Log())
    ensures Paged(code).Backed(memory) && fresh(memory)
    ensures ExprDone(status, e, old(scope.Abs()), scope.Abs(), [], code.log)
  {
    hide *;
    code := new Buffered(256);
    Backing(code);
    memory := code.Repr();
    var saved, varsSize := scope.emitter, |scope.vars|;
    ghost var savedMemory := scope.memory;
    VarsOf(scope);
    Foreign(scope, scope);
    scope.emitter := Paged(code);
    scope.memory := memory;
    Redirected(scope, code);
    status := CompileExpression(scope, e);
    Unredirected(scope, code);
    memory := scope.memory;
    assert scope.vars[..varsSize] == scope.vars;
    scope.vars := scope.vars[..varsSize];
    scope.emitter := saved;
    scope.memory := savedMemory;
  }

  lemma Backing(e: Buffered)
    requires e.Valid() && e.pageSize >= 5
    ensures Paged(e).Backed(e.Repr()) && Paged(e).Log() == e.log
  {
  }

  lemma Unredirected(scope: ScopeHandler, e: Buffered)
    requires scope.Ready() && scope.emitter == Paged(e)
    ensures Paged(e).Backed(scope.memory) && scope.Log() == e.log
  {
  }

  lemma Redirected(scope: ScopeHandler, e: Buffered)
    requires scope.Valid() && scope.emitter == Paged(e) && Paged(e).Backed(scope.memory)
    ensures scope.Ready() && scope.Log() == e.log
  {
  }

  lemma CondFlat(vars: seq<Var>, e: Expr, chunks: seq<seq<byte>>)
    requires !ExprCode(vars, e).EPanic?
    requires chunks == [] + if ExprCode(vars, e).ECode? then ExprChunks(vars, e) else []
    ensures Flat(chunks) == CodeOf(ExprCode(vars, e))
  {
    hide ExprCode, ExprChunks;
    if ExprCode(vars, e).ECode? {
      ExprSplits(vars, e);
      assert chunks == ExprChunks(vars, e);
    }
  }

  /** What the emitter holds behind a condition. */
  lemma CondSize(vars: seq<Var>, e: Expr, log: seq<seq<byte>>, log1: seq<seq<byte>>)
    requires !ExprCode(vars, e).EPanic?
    requires log1 == log + if ExprCode(vars, e).ECode? then ExprChunks(vars, e) else []
    ensures |Flat(log1)| == |Flat(log)| + |CodeOf(ExprCode(vars, e))|
  {
    hide ExprCode, ExprChunks;
    var chunks := if ExprCode(vars, e).ECode? then ExprChunks(vars, e) else [];
    assert [] + chunks == chunks;
    CondFlat(vars, e, chunks);
    FlatAppend(log, chunks);
  }

  lemma BodyStops(g: Globals, s: Stmt, page: Option<pagesize>, status: Status, before: Scope, sc1: Scope, after: Scope,
                  log: seq<seq<byte>>, log': seq<seq<byte>>)
    requires g.Ok() && before.off <= |before.vars| && s.While? && CondOk(before, s.cond, sc1)
    requires BranchStops(g, sc1, 0, s.body, status)
    ensures StmtDone(g, s, page, status, before, after, log, log')
  {
    hide ExprCode, BlockCode, PagesFitBlock, Pushed, WhileTail;
  }

  lemma WhileFinishes(g: Globals, s: Stmt, page: Option<pagesize>, status: Status, before: Scope, sc1: Scope,
                      sc2: Scope, b: seq<byte>, log: seq<seq<byte>>, log': seq<seq<byte>>)
    requires g.Ok() && before.off <= |before.vars| && s.While? && CondOk(before, s.cond, sc1)
    requires BranchOk(g, sc1, 0, s.body, sc2, b)
    requires var c := CodeOf(ExprCode(before.vars, s.cond));
             LoopDone(g, status, page, c, b, log, log')
    ensures StmtDone(g, s, page, status, before, sc2, log, log')
  {
    hide ExprCode, ExprChunks, BlockCode, PagesFitBlock, Pushed, WhileTail, Accepts, Flat;
  }

  /** Condition, exit jump, body and back jump in one chunk. */
  method EmitWhile(g: Globals, scope: ScopeHandler, cond: Buffered, body: ScopeHandler, ghost memory: set<object>)
    returns (status: Status)
    requires g.Ok() && g.reach == AS_WRITTEN && scope.Ready() && body.Ready() && body.emitter.Paged?
             && Paged(cond).Backed(memory)
    modifies scope`memory, scope.memory
    ensures scope.Ready() && fresh(scope.memory - old(scope.memory)) && scope.emitter == old(scope.emitter)
            && scope.vars == old(scope.vars)
    ensures scope.Abs() == old(scope.Abs())
    ensures var (c, b) := (old(Flat(cond.log)), old(Flat(body.Log())));
            LoopDone(g, status, scope.emitter.PageSize(), c, b, old(scope.Log()), scope.Log())
  {
    hide *;
    ghost var (c, b) := (Flat(cond.log), Flat(body.Log()));
    WhileBytes(g, c, b);
    var bodySize := SizeIn(body);
    ghost var page, log := scope.emitter.PageSize(), scope.Log();
    LoopIs(g, page, c, b, log);
    if bodySize >= 0x1_0000 {
      return Panicked;
    }
    var data := SpliceWhile(cond, body, memory);
    var ok := EmitChunk(scope, data[..]);
    status := if ok then Success else Overrun;
  }

  lemma LoopIs(g: Globals, page: Option<pagesize>, c: seq<byte>, b: seq<byte>, log: seq<seq<byte>>)
    requires g.Ok()
    ensures if |b| >= 0x1_0000 then LoopDone(g, Panicked, page, c, b, log, log)
            else if Accepts(page, |Flat(log)|, |c + WhileTail(g, c, b)|)
            then LoopDone(g, Success, page, c, b, log, log + [c + WhileTail(g, c, b)])
            else LoopDone(g, Overrun, page, c, b, log, log)
  {
  }

  lemma WhileBytes(g: Globals, c: seq<byte>, b: seq<byte>)
    requires g.Ok() && g.reach == AS_WRITTEN
    ensures c + WhileTail(g, c, b)
         == c + [JEZ, HighByte(|b| + 3), LowByte(|b| + 3)] + b + [RJMP, HighByte(|c| + |b| + 6), LowByte(|c| + |b| + 6)]
  {
    OperandBytes(g, |b| + 3);
    OperandBytes(g, |c| + |b| + 6);
  }

  method SpliceWhile(cond: Buffered, body: ScopeHandler, ghost memory: set<object>) returns (data: array<byte>)
    requires Paged(cond).Backed(memory) && body.Ready() && body.emitter.Paged?
    ensures fresh(data)
    ensures var (c, b) := (Flat(cond.log), Flat(body.Log()));
            data[..] == c + [JEZ, HighByte(|b| + 3), LowByte(|b| + 3)] + b
                      + [RJMP, HighByte(|c| + |b| + 6), LowByte(|c| + |b| + 6)]
  {
    hide *;
    BackedSize(cond, memory);
    var exprSize := cond.size;
    var bodySize := SizeIn(body);
    var sumSize := exprSize + bodySize + 3 + 3;
    data := new byte[sumSize](_ => 0);
    ghost var zero := data[..];
    PourFrom(cond, data, 0, memory);
    PutJump(data, exprSize, JEZ, bodySize + 3);
    Pour(body, data, exprSize + 3);
    PutJump(data, exprSize + bodySize + 3, RJMP, sumSize);
    WhileSpliced(zero, Flat(cond.log), [JEZ, HighByte(bodySize + 3), LowByte(bodySize + 3)], Flat(body.Log()),
                 [RJMP, HighByte(sumSize), LowByte(sumSize)]);
  }

  lemma BackedSize(e: Buffered, memory: set<object>)
    requires Paged(e).Backed(memory)
    ensures e.size == |Flat(e.log)|
  {
    e.Accounting();
  }

  method PourFrom(e: Buffered, data: array<byte>, at: nat, ghost memory: set<object>)
    requires Paged(e).Backed(memory) && data !in memory && at + |Flat(e.log)| <= data.Length
    modifies data
    ensures Paged(e).Backed(memory) && e.log == old(e.log)
    ensures data[..] == Patch(old(data[..]), at, Flat(e.log))
  {
    BackedSize(e, memory);
    hide Buffered.Valid;
    var n := e.Sink(data, at, e.size);
  }

  lemma WhileSpliced(zero: seq<byte>, c: seq<byte>, jez: seq<byte>, b: seq<byte>, rjmp: seq<byte>)
    requires |zero| == |c| + |b| + 6 && |jez| == |rjmp| == 3
    ensures Patch(Patch(Patch(Patch(zero, 0, c), |c|, jez), |c| + 3, b), |c| + |b| + 3, rjmp) == c + jez + b + rjmp
  {
  }

  ghost predicate BlockPending(g: Globals, b: Block, page: Option<pagesize>, before: Scope, log: seq<seq<byte>>,
                               current: Block, mid: Scope, log1: seq<seq<byte>>)
    requires g.Ok() && before.off <= |before.vars|
  {
    && mid.off <= |mid.vars|
    && (PagesFitBlock(g, before, b, page, |Flat(log)|) <==> PagesFitBlock(g, mid, current, page, |Flat(log1)|))
    && (match BlockCode(g, before, b)
        case SPanic => BlockCode(g, mid, current).SPanic?
        case SCode(_, sc) =>
          && BlockCode(g, mid, current).SCode? && BlockCode(g, mid, current).sc == sc
          && log + BlockChunks(g, before, b) == log1 + BlockChunks(g, mid, current))
  }

  lemma BlockStart(g: Globals, b: Block, page: Option<pagesize>, before: Scope, log: seq<seq<byte>>)
    requires g.Ok() && before.off <= |before.vars|
    ensures BlockPending(g, b, page, before, log, b, before, log)
  {
  }

  lemma BlockNext(g: Globals, b: Block, page: Option<pagesize>, status: Status, before: Scope, log: seq<seq<byte>>,
                  current: Block, mid: Scope, log1: seq<seq<byte>>, after: Scope, log2: seq<seq<byte>>)
    requires g.Ok() && before.off <= |before.vars| && current.Then?
    requires BlockPending(g, b, page, before, log, current, mid, log1)
    requires StmtDone(g, current.head, page, status, mid, after, log1, log2)
    ensures status == Panicked || status == Overrun ==> BlockDone(g, b, page, status, before, after, log, log2)
    ensures status != Panicked && status != Overrun ==> BlockPending(g, b, page, before, log, current.tail, after, log2)
  {
    hide StmtCode, StmtChunks, PagesFit, Flat, ExprCode;
    var r := StmtCode(g, mid, current.head);
    if status != Panicked && status != Overrun {
      StmtFlat(g, mid, current.head);
      FlatAppend(log1, StmtChunks(g, mid, current.head));
      var rest := BlockCode(g, after, current.tail);
      if rest.SCode? {
        var (a, c) := (StmtChunks(g, mid, current.head), BlockChunks(g, after, current.tail));
        assert log1 + (a + c) == log2 + c;
      }
    }
  }

  lemma BlockEnd(g: Globals, b: Block, page: Option<pagesize>, before: Scope, log: seq<seq<byte>>,
                 current: Block, after: Scope, log': seq<seq<byte>>)
    requires g.Ok() && before.off <= |before.vars| && current.End?
    requires BlockPending(g, b, page, before, log, current, after, log')
    ensures BlockDone(g, b, page, Success, before, after, log, log')
  {
    assert log' + [] == log';
  }

  lemma ParsedParts(b: Block)
    requires b.Then? && ParsedBlock(b)
    ensures ParsedStmt(b.head) && ParsedBlock(b.tail)
  {
  }

  lemma StmtSetup(s: Stmt, vars: seq<Var>)
    requires ParsedStmt(s)
    ensures s.Assign? ==> Parsed(s.rhs)
    ensures s.Bare? ==> Sound(vars, s.expr)
    ensures s.If? ==> Sound(vars, s.cond) && ParsedBlock(s.thn) && ParsedBlock(s.els)
    ensures s.While? ==> Sound(vars, s.cond) && ParsedBlock(s.body)
  {
  }

  /** How far an `if` has been compiled: its condition ... */
  ghost predicate CondOk(before: Scope, e: Expr, sc1: Scope) {
    !ExprCode(before.vars, e).EPanic? && sc1 == Pushed(before, ExprCode(before.vars, e), e) && sc1.off <= |sc1.vars|
  }

  /** ... and a block. */
  ghost predicate BranchOk(g: Globals, sc: Scope, stackSize: nat, b: Block, sc': Scope, code: seq<byte>)
    requires g.Ok() && sc.off <= |sc.vars|
  {
    var r := BlockCode(g, Child(sc, stackSize), b);
    && PagesFitBlock(g, Child(sc, stackSize), b, Some(BLOCK_PAGE), 0)
    && r.SCode? && sc' == Back(sc, r.sc) && code == r.code
  }

  ghost predicate BranchStops(g: Globals, sc: Scope, stackSize: nat, b: Block, status: Status)
    requires g.Ok() && sc.off <= |sc.vars|
  {
    if PagesFitBlock(g, Child(sc, stackSize), b, Some(BLOCK_PAGE), 0)
    then status == Panicked && BlockCode(g, Child(sc, stackSize), b).SPanic?
    else status == Overrun
  }

  lemma CondPanics(g: Globals, s: Stmt, page: Option<pagesize>, before: Scope, after: Scope, log: seq<seq<byte>>,
                   log': seq<seq<byte>>)
    requires g.Ok() && before.off <= |before.vars|
    requires (s.If? || s.While?) && ExprCode(before.vars, s.cond).EPanic?
    ensures StmtDone(g, s, page, Panicked, before, after, log, log')
  {
  }

  lemma ThenStops(g: Globals, s: Stmt, page: Option<pagesize>, status: Status, before: Scope, sc1: Scope, after: Scope,
                  log: seq<seq<byte>>, log': seq<seq<byte>>)
    requires g.Ok() && before.off <= |before.vars| && s.If? && CondOk(before, s.cond, sc1)
    requires BranchStops(g, sc1, sc1.ssize, s.thn, status)
    ensures StmtDone(g, s, page, status, before, after, log, log')
  {
    hide ExprCode, BlockCode, PagesFitBlock, Pushed, IfTail;
  }

  lemma ElseStops(g: Globals, s: Stmt, page: Option<pagesize>, status: Status, before: Scope, sc1: Scope, sc2: Scope,
                  t: seq<byte>, after: Scope, log: seq<seq<byte>>, log': seq<seq<byte>>)
    requires g.Ok() && before.off <= |before.vars| && s.If? && CondOk(before, s.cond, sc1) && sc2.off <= |sc2.vars|
    requires BranchOk(g, sc1, sc1.ssize, s.thn, sc2, t) && BranchStops(g, sc2, sc1.ssize, s.els, status)
    ensures StmtDone(g, s, page, status, before, after, log, log')
  {
    hide ExprCode, BlockCode, PagesFitBlock, Pushed, IfTail;
  }

  lemma IfFinishes(g: Globals, s: Stmt, page: Option<pagesize>, status: Status, before: Scope, sc1: Scope, sc2: Scope,
                   sc3: Scope, t: seq<byte>, f: seq<byte>, log: seq<seq<byte>>, log1: seq<seq<byte>>,
                   log': seq<seq<byte>>)
    requires g.Ok() && before.off <= |before.vars| && s.If? && CondOk(before, s.cond, sc1) && sc2.off <= |sc2.vars|
    requires BranchOk(g, sc1, sc1.ssize, s.thn, sc2, t) && BranchOk(g, sc2, sc1.ssize, s.els, sc3, f)
    requires log1 == log + (if ExprCode(before.vars, s.cond).ECode? then ExprChunks(before.vars, s.cond) else [])
    requires TailDone(g, status, page, t, f, log1, log')
    ensures StmtDone(g, s, page, status, before, sc3, log, log')
  {
    hide ExprCode, ExprChunks, BlockCode, PagesFitBlock, Pushed, IfTail, Accepts, Flat;
    CondSize(before.vars, s.cond, log, log1);
    var (a, b) := (if ExprCode(before.vars, s.cond).ECode? then ExprChunks(before.vars, s.cond) else [],
                   One(IfTail(g, t, f)));
    assert log + a + b == log + (a + b);
  }

  /** The steps above, from what the methods below learn. */
  lemma CondDone(before: Scope, e: Expr, status: Status, sc1: Scope, log: seq<seq<byte>>, log1: seq<seq<byte>>)
    requires before.off <= |before.vars| && ExprDone(status, e, before, sc1, log, log1)
    ensures status == Panicked <==> ExprCode(before.vars, e).EPanic?
    ensures status != Overrun
    ensures status != Panicked ==>
              && CondOk(before, e, sc1) && sc1.vars == before.vars
              && log1 == log + if ExprCode(before.vars, e).ECode? then ExprChunks(before.vars, e) else []
  {
    hide ExprDone, ExprCode, ExprChunks, Pushed;
    ArgDone(status, e, before, sc1, log, log1);
  }

  lemma BranchDone(g: Globals, b: Block, status: Status, sc: Scope, stackSize: nat, child: Scope, sc': Scope,
                   log': seq<seq<byte>>)
    requires g.Ok() && sc.off <= |sc.vars|
    requires BlockDone(g, b, Some(BLOCK_PAGE), status, Child(sc, stackSize), child, [], log') && sc' == Back(sc, child)
    ensures status == Panicked || status == Overrun ==> BranchStops(g, sc, stackSize, b, status)
    ensures status != Panicked && status != Overrun ==> BranchOk(g, sc, stackSize, b, sc', Flat(log'))
    ensures sc'.off <= |sc'.vars| && sc'.vars == sc.vars && sc'.ssize == sc.ssize
  {
    hide BlockCode, BlockChunks, PagesFitBlock;
    BlockMeans(g, b, Some(BLOCK_PAGE), status, Child(sc, stackSize), child, log');
  }
}
