/** Compiling expressions as it is written: recursive methods that append bytes to the
    emitter of their scope and update the scope's records. What they emit is the
    code the specification functions describe. */
module ExprCompiler {
  import opened Words
  import opened Ast
  import opened Language
  import opened Bytecode
  import opened Machine
  import opened Codegen
  import opened StmtCorrect
  import opened Tracing
  import opened Streaming
  import opened Scopes

  /** How a compile function ends: it returns 0, it returns an error code (which
      most callers drop), it exits the process, or it hands the emitter a chunk
      that one more page cannot hold. */
  datatype Status = Success | Unresolved | Panicked | Overrun

  // ---- traced trees ----

  /** Nodes of a tree; inserted casts do not count. */
  function Nodes(e: Expr): (n: nat)
    ensures n > 0
  {
    match e
    case Group(inner, _) => 1 + Nodes(inner)
    case Neg(operand, _) => 1 + Nodes(operand)
    case Binary(_, l, r, _) => 1 + Nodes(l) + Nodes(r)
    case Cast(operand) => Nodes(operand)
    case _ => 1
  }

  /** Trees as the compiler meets them: as parsed, or already traced. */
  ghost predicate Sound(vars: seq<Var>, e: Expr) {
    Parsed(e) || Annotated(vars, e)
  }

  lemma {:induction false} TraceNodes(vars: seq<Var>, e: Expr)
    requires Parsed(e) && Trace(vars, e).Some?
    ensures Nodes(Trace(vars, e).value) == Nodes(e) && Depth(Trace(vars, e).value) == Depth(e)
  {
    match e
    case Group(inner, _) => TraceNodes(vars, inner);
    case Neg(operand, _) => TraceNodes(vars, operand);
    case Binary(op, l, r, _) =>
      TraceNodes(vars, l);
      TraceNodes(vars, r);
      hide Trace, Parsed;
    case _ =>
  }

  /** A traced tree is emitted in the same pieces. */
  lemma {:induction false} TraceKeepsChunks(vars: seq<Var>, e: Expr)
    requires Parsed(e) && Trace(vars, e).Some? && ExprCode(vars, e).ECode?
    ensures ExprCode(vars, Trace(vars, e).value).ECode?
    ensures ExprChunks(vars, Trace(vars, e).value) == ExprChunks(vars, e)
  {
    hide Encode;
    TraceKeepsCode(vars, e);
    match e
    case Group(inner, _) => TraceKeepsChunks(vars, inner);
    case Neg(operand, _) => TraceKeepsChunks(vars, operand);
    case Binary(op, l, r, _) =>
      TraceKeepsChunks(vars, l);
      TraceKeepsChunks(vars, r);
      TraceKeepsCode(vars, l);
      TraceKeepsCode(vars, r);
      BalanceChunks(vars, op, Trace(vars, l).value, Trace(vars, r).value) by {
        TraceChangesOnlyCasts(vars, l);
        TraceChangesOnlyCasts(vars, r);
      }
    case _ =>
  }

  /** An operand with the conversion its operator asks for. */
  function OperandChunks(vars: seq<Var>, e: Expr, ty: Ty): seq<seq<byte>>
    requires ExprCode(vars, e).ECode?
  {
    ExprChunks(vars, e) + One(CastTo(ty, ExprCode(vars, e).ty))
  }

  lemma BinaryChunks(vars: seq<Var>, e: Expr)
    requires e.Binary? && ExprCode(vars, e).ECode?
    ensures ExprCode(vars, e.left).ECode? && ExprCode(vars, e.right).ECode?
    ensures var ty := Wider(ExprCode(vars, e.left).ty, ExprCode(vars, e.right).ty);
            && ExprCode(vars, e).ty == ty && OperatorCode(e.op, ty).Some?
            && ExprChunks(vars, e)
            == OperandChunks(vars, e.left, ty) + OperandChunks(vars, e.right, ty) + [[OperatorCode(e.op, ty).value]]
  {
    hide Encode;
  }

  /** Converting explicitly or leaving it to the operator is the same. */
  lemma CastChunks(vars: seq<Var>, e: Expr)
    requires ExprCode(vars, e).ECode?
    ensures ExprCode(vars, Cast(e)).ECode? && ExprCode(vars, Cast(e)).ty == TFlt
    ensures OperandChunks(vars, Cast(e), TFlt) == OperandChunks(vars, e, TFlt)
  {
    hide Encode;
    assert ExprChunks(vars, Cast(e)) + [] == ExprChunks(vars, Cast(e));
  }

  lemma BalanceChunks(vars: seq<Var>, op: BinOp, l: Expr, r: Expr)
    requires Annotated(vars, l) && Annotated(vars, r)
    requires ExprCode(vars, Binary(op, l, r, Unknown)).ECode? && ExprCode(vars, Balance(op, l, r)).ECode?
    ensures ExprChunks(vars, Balance(op, l, r)) == ExprChunks(vars, Binary(op, l, r, Unknown))
  {
    BinaryChunks(vars, Binary(op, l, r, Unknown));
    BinaryChunks(vars, Balance(op, l, r));
    AnnotatedTyped(vars, l);
    AnnotatedTyped(vars, r);
    AnnotatedCode(vars, l);
    AnnotatedCode(vars, r);
    CastChunks(vars, l);
    CastChunks(vars, r);
    hide Annotated, ExprCode, ExprChunks, OperandChunks, CastTo;
  }

  /** Operands of a traced operator need no further conversion. */
  lemma AnnotatedChunks(vars: seq<Var>, e: Expr)
    requires Annotated(vars, e) && e.Binary?
    ensures Annotated(vars, e.left) && Annotated(vars, e.right) && Nodes(e.left) < Nodes(e) && Nodes(e.right) < Nodes(e)
    ensures ExprCode(vars, e).ECode? <==>
              ExprCode(vars, e.left).ECode? && ExprCode(vars, e.right).ECode? && OperatorCode(e.op, e.ty).Some?
    ensures !ExprCode(vars, e).ECode? ==> ExprCode(vars, e).EPanic?
    ensures ExprCode(vars, e).ECode? ==>
              ExprChunks(vars, e) == ExprChunks(vars, e.left) + ExprChunks(vars, e.right)
                  + [[OperatorCode(e.op, e.ty).value]]
    ensures Depth(e) == Max(Depth(e.left), 1 + Depth(e.right))
  {
    hide Encode;
    AnnotatedTyped(vars, e.left);
    AnnotatedTyped(vars, e.right);
    if ExprCode(vars, e.left).ECode? && ExprCode(vars, e.right).ECode? {
      AnnotatedCode(vars, e.left);
      AnnotatedCode(vars, e.right);
      assert ExprChunks(vars, e.left) + [] == ExprChunks(vars, e.left);
      assert ExprChunks(vars, e.right) + [] == ExprChunks(vars, e.right);
    }
  }

  /** An annotated name is declared, so a traced tree compiles or panics. */
  lemma {:induction false} AnnotatedResolved(vars: seq<Var>, e: Expr)
    requires Annotated(vars, e)
    ensures !ExprCode(vars, e).ENone?
  {
    match e
    case Group(inner, _) => AnnotatedResolved(vars, inner);
    case Neg(operand, _) => AnnotatedResolved(vars, operand);
    case Cast(operand) => AnnotatedResolved(vars, operand);
    case _ =>
  }

  /** New variables do not disturb declared names. */
  lemma {:induction false} Extended(vars: seq<Var>, v: Var, e: Expr)
    requires Annotated(vars, e)
    ensures Annotated(vars + [v], e) && ExprCode(vars + [v], e) == ExprCode(vars, e)
    ensures ExprCode(vars, e).ECode? ==> ExprChunks(vars + [v], e) == ExprChunks(vars, e)
  {
    hide Encode;
    match e
    case Ident(x, _) => LookupSnoc(vars, v, x);
    case Group(inner, _) => Extended(vars, v, inner);
    case Neg(operand, _) => Extended(vars, v, operand);
    case Cast(operand) => Extended(vars, v, operand);
    case Binary(_, l, r, _) =>
      Extended(vars, v, l);
      Extended(vars, v, r);
    case _ =>
  }

  /** `ast_node_trace_data_type`, with the scope's own lookup. */
  method TraceDataType(scope: ScopeHandler, e: Expr) returns (t: Option<Expr>)
    requires scope.Valid()
    ensures t == Trace(scope.AllVars(), e)
  {
    if StaticType(e) != Unknown {
      return Some(e);
    }
    match e {
      case Ident(x, _) =>
        var found := scope.LookupVar(x);
        t := if found.None? then None else Some(Ident(x, if found.value.v.ty.TFlt? then TFlt else TInt));
      case Group(inner, _) =>
        t := TraceDataType(scope, inner);
        if t.Some? {
          t := Some(Group(t.value, StaticType(t.value)));
        }
      case Neg(operand, _) =>
        t := TraceDataType(scope, operand);
        if t.Some? {
          t := Some(Neg(t.value, StaticType(t.value)));
        }
      case Binary(op, l, r, _) =>
        var tl := TraceDataType(scope, l);
        if tl.None? {
          return None;
        }
        var tr := TraceDataType(scope, r);
        t := if tr.None? then None else Some(Balance(op, tl.value, tr.value));
      case _ => t := Some(e);
    }
  }

  // ---- expressions ----

  /** The static effect of an opcode on the operand stack, in bytes. */
  function StackEffect(opcode: byte): int {
    if opcode == ILOAD || opcode == FLOAD || opcode == ICONST || opcode == FCONST then 4
    else if opcode == ISAVE || opcode == FSAVE then -4
    else if 0x42 <= opcode <= 0x45 || 0x4a <= opcode <= 0x53 then -4
    else if opcode == JMP || opcode == RJMP then -2
    else if opcode == JEZ || opcode == JNEZ then -4
    else 0
  }

  /** The tracked stack after one instruction ... */
  function Bumped(sc: Scope, size: int): Scope
    requires sc.ssize + size >= 0
  {
    sc.(ssize := sc.ssize + size, smax := Max(sc.smax, sc.ssize + size))
  }

  /** ... and after an expression `words` deep. */
  function Lift(sc: Scope, words: nat): Scope {
    sc.(ssize := sc.ssize + 4, smax := Max(sc.smax, sc.ssize + 4 * words))
  }

  lemma PostfixStack(sc: Scope, words: nat)
    requires words >= 1
    ensures Bumped(Lift(sc, words), 0) == Lift(sc, words)
  {
  }

  lemma BinaryStack(sc: Scope, left: nat, right: nat)
    requires left >= 1 && right >= 1
    ensures Bumped(Lift(Lift(sc, left), right), -4) == Lift(sc, Max(left, 1 + right))
  {
  }

  /** What compiling an expression amounts to. */
  ghost predicate ExprDone(status: Status, e: Expr, before: Scope, after: Scope, log: seq<seq<byte>>,
                           log': seq<seq<byte>>) {
    var c := ExprCode(before.vars, e);
    match c
    case EPanic => status == Panicked
    case ENone => status == Unresolved && after == before && log' == log
    case ECode(_, _) => status == Success && after == Lift(before, Depth(e)) && log' == log + ExprChunks(before.vars, e)
  }

  /** The table agrees with the handlers: whenever an instruction succeeds, its
      entry is what it did to the operand stack. Only the unconditional jumps are
      listed with an effect they do not have. */
  lemma EffectExact(m: Vm, i: Instr, f: Frame)
    requires Bytecode.Valid(i) && !i.Invoke? && Handle(m, i, f).Ok?
    ensures var change := 4 * (|Handle(m, i, f).f.stack| - |f.stack|);
            StackEffect(Encode(i)[0]) == if i.Jmp? || i.RJmp? then change - 2 else change
  {
    hide Apply, Promote;
    match i
    case IArith(op) => OperatorEffect(op, TInt);
    case FArith(op) => OperatorEffect(op, TFlt);
    case _ =>
  }

  /** An instruction that pushes one word. */
  method EmitPush(scope: ScopeHandler, opcode: byte, operands: seq<byte>)
    requires scope.Ready() && |operands| <= 4 && StackEffect(opcode) == 4
    modifies scope`stackSize, scope`memory, scope.max`stack, scope.memory
    ensures scope.Ready() && fresh(scope.memory - old(scope.memory)) && scope.emitter == old(scope.emitter)
            && scope.vars == old(scope.vars)
    ensures scope.Log() == old(scope.Log()) + [[opcode] + operands]
    ensures scope.Abs() == Bumped(old(scope.Abs()), 4)
  {
    scope.Apart();
    hide ScopeHandler.Valid;
    scope.IncrementStackSize(StackEffect(opcode));
    var ok := scope.Emit([opcode] + operands);
  }

  /** A one-byte instruction that works on the operand stack. */
  method EmitOperator(scope: ScopeHandler, opcode: byte)
    requires scope.Ready() && scope.stackSize + StackEffect(opcode) >= 0 && StackEffect(opcode) <= 0
    modifies scope`stackSize, scope`memory, scope.max`stack, scope.memory
    ensures scope.Ready() && fresh(scope.memory - old(scope.memory)) && scope.emitter == old(scope.emitter)
            && scope.vars == old(scope.vars)
    ensures scope.Log() == old(scope.Log()) + [[opcode]]
    ensures scope.Abs() == Bumped(old(scope.Abs()), StackEffect(opcode))
  {
    scope.Apart();
    hide ScopeHandler.Valid;
    scope.IncrementStackSize(StackEffect(opcode));
    var ok := scope.Emit([opcode]);
  }

  lemma {:induction false} NotDeclared(vars: seq<Var>, e: Expr)
    requires !Declared(vars, e)
    ensures !ExprCode(vars, e).ECode?
  {
    match e
    case Group(inner, _) => NotDeclared(vars, inner);
    case Neg(operand, _) => NotDeclared(vars, operand);
    case Cast(operand) => NotDeclared(vars, operand);
    case Binary(_, l, r, _) => if !Declared(vars, l) { NotDeclared(vars, l); } else { NotDeclared(vars, r); }
    case _ =>
  }

  /** What tracing an operator gives the compiler. */
  lemma Traced(vars: seq<Var>, e: Expr)
    requires Sound(vars, e) && e.Binary?
    ensures var t := Trace(vars, e);
            match t
            case None => ExprCode(vars, e).EPanic?
            case Some(t) =>
              && t.Binary? && t.op == e.op && Annotated(vars, t) && Nodes(t) == Nodes(e) && Depth(t) == Depth(e)
              && (t.ty == TInt || t.ty == TFlt)
              && ExprCode(vars, t) == ExprCode(vars, e)
              && (ExprCode(vars, e).ECode? ==> ExprChunks(vars, t) == ExprChunks(vars, e))
  {
    if Parsed(e) {
      TraceChangesOnlyCasts(vars, e);
      if Trace(vars, e).Some? {
        TraceNodes(vars, e);
        TraceKeepsCode(vars, e);
        if ExprCode(vars, e).ECode? { TraceKeepsChunks(vars, e); }
        AnnotatedTyped(vars, Trace(vars, e).value);
      } else {
        NotDeclared(vars, e);
      }
    } else {
      AnnotatedTyped(vars, e);
    }
  }

  /** One pushing instruction is a whole leaf. */
  lemma LeafDone(e: Expr, before: Scope, after: Scope, log: seq<seq<byte>>, log': seq<seq<byte>>, code: seq<byte>)
    requires e.IntLit? || e.FltLit? || e.Ident?
    requires ExprCode(before.vars, e).ECode? && ExprCode(before.vars, e).code == code
    requires after == Bumped(before, 4) && log' == log + [code]
    ensures ExprDone(Success, e, before, after, log, log')
  {
  }

  lemma IdentCode(vars: seq<Var>, e: Expr)
    requires e.Ident?
    ensures ExprCode(vars, e).ENone? <==> Lookup(vars, e.name).None?
    ensures match Lookup(vars, e.name)
            case None => true
            case Some(k) =>
              && ExprCode(vars, e).ECode?
              && ExprCode(vars, e).code == [if vars[k].ty.TFlt? then FLOAD else ILOAD] + [k % 0x100]
  {
  }

  lemma IdentUndone(e: Expr, sc: Scope, log: seq<seq<byte>>)
    requires e.Ident? && Lookup(sc.vars, e.name).None?
    ensures ExprDone(Unresolved, e, sc, sc, log, log)
  {
  }

  lemma LiteralCode(vars: seq<Var>, e: Expr)
    requires e.IntLit? || e.FltLit?
    ensures ExprCode(vars, e).ECode?
    ensures e.IntLit? ==> ExprCode(vars, e).code == [ICONST] + Be32(e.i)
    ensures e.FltLit? ==> ExprCode(vars, e).code == [FCONST] + [e.f.b0, e.f.b1, e.f.b2, e.f.b3]
  {
  }

  lemma GroupDone(status: Status, e: Expr, before: Scope, after: Scope, log: seq<seq<byte>>, log': seq<seq<byte>>)
    requires e.Group? && ExprDone(status, e.inner, before, after, log, log')
    ensures ExprDone(status, e, before, after, log, log')
  {
  }

  /** What success means. */
  lemma Succeeded(e: Expr, before: Scope, after: Scope, log: seq<seq<byte>>, log': seq<seq<byte>>)
    requires ExprDone(Success, e, before, after, log, log')
    ensures ExprCode(before.vars, e).ECode? && after == Lift(before, Depth(e))
            && log' == log + ExprChunks(before.vars, e)
  {
  }

  /** An operand followed by a one-byte instruction that leaves the stack height. */
  lemma PostfixDone(e: Expr, sc: Scope, log: seq<seq<byte>>)
    requires e.Neg? || (e.Cast? && Annotated(sc.vars, e))
    requires ExprCode(sc.vars, e.operand).ECode?
    ensures ExprDone(Success, e, sc, Bumped(Lift(sc, Depth(e.operand)), 0), log,
                     log + ExprChunks(sc.vars, e.operand) + [[if e.Neg? then INEG else I2F_OP]])
  {
    PostfixStack(sc, Depth(e.operand));
    if e.Cast? {
      AnnotatedCode(sc.vars, e.operand);
    }
    var chunk := [[if e.Neg? then INEG else I2F_OP]];
    assert ExprChunks(sc.vars, e) == ExprChunks(sc.vars, e.operand) + chunk;
    assert log + ExprChunks(sc.vars, e.operand) + chunk == log + (ExprChunks(sc.vars, e.operand) + chunk);
  }

  lemma PostfixFails(status: Status, e: Expr, before: Scope, after: Scope, log: seq<seq<byte>>, log': seq<seq<byte>>)
    requires (e.Neg? || e.Cast?) && !status.Success?
    requires ExprDone(status, e.operand, before, after, log, log')
    ensures ExprDone(status, e, before, after, log, log')
  {
  }

  lemma SoundParts(vars: seq<Var>, e: Expr)
    requires Sound(vars, e)
    ensures e.Group? ==> Sound(vars, e.inner) && Nodes(e.inner) < Nodes(e)
    ensures e.Neg? ==> Sound(vars, e.operand) && Nodes(e.operand) < Nodes(e)
    ensures e.Cast? ==> Annotated(vars, e) && Sound(vars, e.operand) && Nodes(e.operand) == Nodes(e)
  {
  }

  method CompileLiteral(scope: ScopeHandler, e: Expr) returns (status: Status)
    requires scope.Ready() && Sound(scope.AllVars(), e) && (e.IntLit? || e.FltLit?)
    modifies scope`stackSize, scope`memory, scope.max`stack, scope.memory
    ensures scope.Ready() && fresh(scope.memory - old(scope.memory)) && scope.emitter == old(scope.emitter)
            && scope.vars == old(scope.vars)
    ensures ExprDone(status, e, old(scope.Abs()), scope.Abs(), old(scope.Log()), scope.Log())
  {
    hide ScopeHandler.Ready, Sound, ExprDone, ExprCode;
    ghost var before, log := scope.Abs(), scope.Log();
    LiteralCode(before.vars, e);
    if e.IntLit? {
      EmitPush(scope, ICONST, Be32(e.i));
    } else {
      EmitPush(scope, FCONST, [e.f.b0, e.f.b1, e.f.b2, e.f.b3]);
    }
    LeafDone(e, before, scope.Abs(), log, scope.Log(), ExprCode(before.vars, e).code);
    status := Success;
  }

  method CompileIdent(scope: ScopeHandler, e: Expr) returns (status: Status)
    requires scope.Ready() && Sound(scope.AllVars(), e) && e.Ident?
    modifies scope`stackSize, scope`memory, scope.max`stack, scope.memory
    ensures scope.Ready() && fresh(scope.memory - old(scope.memory)) && scope.emitter == old(scope.emitter)
            && scope.vars == old(scope.vars)
    ensures ExprDone(status, e, old(scope.Abs()), scope.Abs(), old(scope.Log()), scope.Log())
  {
    assert scope.Valid();
    hide ScopeHandler.Ready, ScopeHandler.Valid, Sound, ExprDone, ExprCode;
    ghost var before, log := scope.Abs(), scope.Log();
    IdentCode(before.vars, e);
    var found := scope.LookupVar(e.name);
    if found.None? {
      IdentUndone(e, before, log);
      return Unresolved;
    }
    EmitPush(scope, if found.value.v.ty.TFlt? then FLOAD else ILOAD, [found.value.index]);
    LeafDone(e, before, scope.Abs(), log, scope.Log(), ExprCode(before.vars, e).code);
    status := Success;
  }

  method CompileGroup(scope: ScopeHandler, e: Expr) returns (status: Status)
    requires scope.Ready() && Sound(scope.AllVars(), e) && e.Group?
    modifies scope`stackSize, scope`memory, scope.max`stack, scope.memory
    ensures scope.Ready() && fresh(scope.memory - old(scope.memory)) && scope.emitter == old(scope.emitter)
            && scope.vars == old(scope.vars)
    ensures ExprDone(status, e, old(scope.Abs()), scope.Abs(), old(scope.Log()), scope.Log())
    decreases Nodes(e), e, 0
  {
    SoundParts(scope.AllVars(), e);
    hide ScopeHandler.Ready, Sound, ExprDone, ExprCode, Nodes;
    ghost var before, log := scope.Abs(), scope.Log();
    status := CompileExpression(scope, e.inner);
    GroupDone(status, e, before, scope.Abs(), log, scope.Log());
  }

  /** Unary minus and inserted casts. */
  method CompilePostfix(scope: ScopeHandler, e: Expr) returns (status: Status)
    requires scope.Ready() && Sound(scope.AllVars(), e) && (e.Neg? || e.Cast?)
    modifies scope`stackSize, scope`memory, scope.max`stack, scope.memory
    ensures scope.Ready() && fresh(scope.memory - old(scope.memory)) && scope.emitter == old(scope.emitter)
            && scope.vars == old(scope.vars)
    ensures ExprDone(status, e, old(scope.Abs()), scope.Abs(), old(scope.Log()), scope.Log())
    decreases Nodes(e), e, 0
  {
    SoundParts(scope.AllVars(), e);
    ghost var before, log := scope.Abs(), scope.Log();
    var opcode := if e.Neg? then INEG else I2F_OP;
    assert StackEffect(opcode) == 0 && before.vars == scope.AllVars();
    hide *;
    status := CompileExpression(scope, e.operand);
    if !status.Success? {
      PostfixFails(status, e, before, scope.Abs(), log, scope.Log());
      return;
    }
    Succeeded(e.operand, before, scope.Abs(), log, scope.Log());
    EmitOperator(scope, opcode);
    PostfixDone(e, before, log);
  }

  method CompileExpression(scope: ScopeHandler, e: Expr) returns (status: Status)
    requires scope.Ready() && Sound(scope.AllVars(), e)
    modifies scope`stackSize, scope`memory, scope.max`stack, scope.memory
    ensures scope.Ready() && fresh(scope.memory - old(scope.memory)) && scope.emitter == old(scope.emitter)
            && scope.vars == old(scope.vars)
    ensures ExprDone(status, e, old(scope.Abs()), scope.Abs(), old(scope.Log()), scope.Log())
    decreases Nodes(e), e, 1
  {
    hide ScopeHandler.Ready, Sound, ExprDone, Nodes;
    match e {
      case IntLit(_) => status := CompileLiteral(scope, e);
      case FltLit(_) => status := CompileLiteral(scope, e);
      case Ident(_, _) => status := CompileIdent(scope, e);
      case Group(_, _) => status := CompileGroup(scope, e);
      case Neg(_, _) => status := CompilePostfix(scope, e);
      case Binary(_, _, _, _) => status := CompileBinary(scope, e);
      case Cast(_) => status := CompilePostfix(scope, e);
    }
  }

  lemma BinaryPanics(e: Expr, sc: Scope, after: Scope, log: seq<seq<byte>>, log': seq<seq<byte>>)
    requires ExprCode(sc.vars, e).EPanic?
    ensures ExprDone(Panicked, e, sc, after, log, log')
  {
  }

  /** What compiling both operands of a traced operator and the operator amounts to. */
  ghost predicate OperandsDone(status: Status, l: Expr, r: Expr, opcode: byte,
                               before: Scope, after: Scope, log: seq<seq<byte>>, log': seq<seq<byte>>) {
    var (cl, cr) := (ExprCode(before.vars, l), ExprCode(before.vars, r));
    if cl.ECode? && cr.ECode? then
      && status == Success
      && after == Bumped(Lift(Lift(before, Depth(l)), Depth(r)), -4)
      && log' == log + ExprChunks(before.vars, l) + ExprChunks(before.vars, r) + [[opcode]]
    else status == Panicked
  }

  lemma BinaryDone(status: Status, e: Expr, t: Expr, opcode: byte,
                   before: Scope, after: Scope, log: seq<seq<byte>>, log': seq<seq<byte>>)
    requires e.Binary? && Trace(before.vars, e) == Some(t) && Sound(before.vars, e)
    requires t.Binary? && OperatorCode(t.op, t.ty) == Some(opcode)
    requires OperandsDone(status, t.left, t.right, opcode, before, after, log, log')
    ensures ExprDone(status, e, before, after, log, log')
  {
    hide ExprCode, ExprChunks, Annotated, Parsed, Sound, Trace, OperatorCode, Bumped, Lift, Depth, Nodes;
    Traced(before.vars, e);
    AnnotatedChunks(before.vars, t);
    BinaryStack(before, Depth(t.left), Depth(t.right));
    if ExprCode(before.vars, e).ECode? {
      var (a, b) := (ExprChunks(before.vars, t.left), ExprChunks(before.vars, t.right));
      assert log + a + b + [[opcode]] == log + (a + b + [[opcode]]);
    }
  }

  lemma OperandsSucceed(l: Expr, r: Expr, opcode: byte, sc: Scope, log: seq<seq<byte>>)
    requires ExprCode(sc.vars, l).ECode? && ExprCode(sc.vars, r).ECode?
    ensures OperandsDone(Success, l, r, opcode, sc, Bumped(Lift(Lift(sc, Depth(l)), Depth(r)), -4), log,
                         log + ExprChunks(sc.vars, l) + ExprChunks(sc.vars, r) + [[opcode]])
  {
  }

  lemma OperandsPanic(l: Expr, r: Expr, opcode: byte, before: Scope, after: Scope, log: seq<seq<byte>>,
                      log': seq<seq<byte>>)
    requires !ExprCode(before.vars, l).ECode? || !ExprCode(before.vars, r).ECode?
    ensures OperandsDone(Panicked, l, r, opcode, before, after, log, log')
  {
  }

  /** A traced operand that fails is a panic. */
  lemma OperandFails(status: Status, e: Expr, before: Scope, after: Scope, log: seq<seq<byte>>, log': seq<seq<byte>>)
    requires Annotated(before.vars, e) && !status.Success?
    requires ExprDone(status, e, before, after, log, log')
    ensures status == Panicked && !ExprCode(before.vars, e).ECode?
  {
    AnnotatedResolved(before.vars, e);
  }

  lemma NoOpcode(e: Expr, t: Expr, before: Scope, after: Scope, log: seq<seq<byte>>, log': seq<seq<byte>>)
    requires t.Binary? && Annotated(before.vars, t) && ExprCode(before.vars, t) == ExprCode(before.vars, e)
    requires OperatorCode(t.op, t.ty).None?
    ensures ExprDone(Panicked, e, before, after, log, log')
  {
    AnnotatedChunks(before.vars, t);
  }

  lemma OpcodeOf(op: BinOp)
    ensures OperatorCode(op, TInt) == Some(IntOpcode(op)) && OperatorCode(op, TFlt) == FltOpcode(op)
  {
  }

  lemma OperatorEffect(op: BinOp, ty: Ty)
    requires OperatorCode(op, ty).Some?
    ensures StackEffect(OperatorCode(op, ty).value) == -4
  {
  }

  lemma OperandsSetup(scope: ScopeHandler, l: Expr, r: Expr)
    requires Annotated(scope.AllVars(), l) && Annotated(scope.AllVars(), r)
    ensures var sc := scope.Abs();
            && sc.vars == scope.AllVars() && Sound(sc.vars, l) && Sound(sc.vars, r)
            && Lift(sc, Depth(l)).vars == sc.vars && Lift(Lift(sc, Depth(l)), Depth(r)).ssize >= 4
  {
  }

  method CompileOperands(scope: ScopeHandler, l: Expr, r: Expr, opcode: byte) returns (status: Status)
    requires scope.Ready() && StackEffect(opcode) == -4
    requires Annotated(scope.AllVars(), l) && Annotated(scope.AllVars(), r)
    modifies scope`stackSize, scope`memory, scope.max`stack, scope.memory
    ensures scope.Ready() && fresh(scope.memory - old(scope.memory)) && scope.emitter == old(scope.emitter)
            && scope.vars == old(scope.vars)
    ensures OperandsDone(status, l, r, opcode, old(scope.Abs()), scope.Abs(), old(scope.Log()), scope.Log())
    decreases Nodes(l) + Nodes(r), r, 0
  {
    hide *;
    ghost var before, log := scope.Abs(), scope.Log();
    OperandsSetup(scope, l, r);
    status := CompileExpression(scope, l);
    if !status.Success? {
      OperandFails(status, l, before, scope.Abs(), log, scope.Log());
      OperandsPanic(l, r, opcode, before, scope.Abs(), log, scope.Log());
      return;
    }
    ghost var mid, log1 := scope.Abs(), scope.Log();
    Succeeded(l, before, mid, log, log1);
    status := CompileExpression(scope, r);
    if !status.Success? {
      OperandFails(status, r, mid, scope.Abs(), log1, scope.Log());
      OperandsPanic(l, r, opcode, before, scope.Abs(), log, scope.Log());
      return;
    }
    Succeeded(r, mid, scope.Abs(), log1, scope.Log());
    StackOf(scope);
    EmitOperator(scope, opcode);
    OperandsSucceed(l, r, opcode, before, log);
  }

  lemma StackOf(scope: ScopeHandler)
    ensures scope.Abs().ssize == scope.stackSize && scope.Abs().vars == scope.AllVars()
  {
  }

  /** What the method below needs to know about a traced operator. */
  lemma TracedParts(vars: seq<Var>, e: Expr)
    requires Sound(vars, e) && e.Binary?
    ensures match Trace(vars, e)
            case None => ExprCode(vars, e).EPanic?
            case Some(t) =>
              && t.Binary? && t.op == e.op && (t.ty == TInt || t.ty == TFlt) && Annotated(vars, t)
              && Annotated(vars, t.left) && Annotated(vars, t.right)
              && 1 + Nodes(t.left) + Nodes(t.right) == Nodes(e) && ExprCode(vars, t) == ExprCode(vars, e)
  {
    Traced(vars, e);
    if Trace(vars, e).Some? {
      AnnotatedChunks(vars, Trace(vars, e).value);
    }
  }

  method CompileBinary(scope: ScopeHandler, e: Expr) returns (status: Status)
    requires scope.Ready() && Sound(scope.AllVars(), e) && e.Binary?
    modifies scope`stackSize, scope`memory, scope.max`stack, scope.memory
    ensures scope.Ready() && fresh(scope.memory - old(scope.memory)) && scope.emitter == old(scope.emitter)
            && scope.vars == old(scope.vars)
    ensures ExprDone(status, e, old(scope.Abs()), scope.Abs(), old(scope.Log()), scope.Log())
    decreases Nodes(e), e, 0
  {
    TracedParts(scope.AllVars(), e);
    ghost var before, log := scope.Abs(), scope.Log();
    var traced := TraceDataType(scope, e);
    assert before.vars == scope.AllVars();
    OpcodeOf(e.op);
    hide *;
    if traced.None? {
      BinaryPanics(e, before, before, log, log);
      return Panicked;
    }
    var t := traced.value;
    var opcode := if t.ty.TInt? then Some(IntOpcode(e.op)) else FltOpcode(e.op);
    assert opcode == OperatorCode(e.op, t.ty);
    if opcode.None? {
      NoOpcode(e, t, before, before, log, log);
      return Panicked;
    }
    OperatorEffect(e.op, t.ty);
    status := CompileOperands(scope, t.left, t.right, opcode.value);
    BinaryDone(status, e, t, opcode.value, before, scope.Abs(), log, scope.Log());
  }
}
