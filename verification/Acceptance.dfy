/** Which programs the compiler gets through, told by names and types alone. */
module Acceptance {
  import opened Ast
  import opened Language
  import opened Codegen
  import opened Tracing

  predicate IsFloat(vars: seq<Var>, x: string) {
    var k := Lookup(vars, x);
    k.Some? && vars[k.value].ty == TFlt
  }

  /** Some float goes into the expression. */
  predicate Floats(vars: seq<Var>, e: Expr) {
    match e
    case IntLit(_) => false
    case FltLit(_) => true
    case Ident(x, _) => IsFloat(vars, x)
    case Group(inner, _) => Floats(vars, inner)
    case Neg(operand, _) => Floats(vars, operand)
    case Cast(_) => true
    case Binary(_, l, r, _) => Floats(vars, l) || Floats(vars, r)
  }

  /** No opcode orders floats. */
  predicate OrdersFloats(vars: seq<Var>, e: Expr) {
    match e
    case Group(inner, _) => OrdersFloats(vars, inner)
    case Neg(operand, _) => OrdersFloats(vars, operand)
    case Cast(operand) => OrdersFloats(vars, operand)
    case Binary(op, l, r, _) =>
      || OrdersFloats(vars, l) || OrdersFloats(vars, r)
      || (op in {Lt, Le, Gt, Ge} && (Floats(vars, l) || Floats(vars, r)))
    case _ => false
  }

  /** An expression with a value: its names are declared, and it does not order floats. */
  predicate Valued(vars: seq<Var>, e: Expr) { Declared(vars, e) && !OrdersFloats(vars, e) }

  function NamesOf(vars: seq<Var>): set<string> { set v | v in vars :: v.name }

  /** One that stops nothing: it has a value, or it is a bare undeclared name. */
  predicate Usable(vars: seq<Var>, e: Expr) { Valued(vars, e) || Valueless(NamesOf(vars), e) }

  /** An expression compiles exactly when it has a value, to a float exactly when a float goes
      into it; only a bare undeclared name is passed over. */
  lemma {:induction false} ExprAccepted(vars: seq<Var>, e: Expr)
    ensures ExprCode(vars, e).ECode? <==> Valued(vars, e)
    ensures ExprCode(vars, e).ECode? ==> ExprCode(vars, e).ty == if Floats(vars, e) then TFlt else TInt
    ensures ExprCode(vars, e).ENone? <==> Valueless(NamesOf(vars), e)
    ensures ExprCode(vars, e).EPanic? <==> !Usable(vars, e)
  {
    hide Bytecode.Encode;
    match e
    case Ident(x, _) => Listed(vars, x);
    case Group(inner, _) => ExprAccepted(vars, inner);
    case Neg(operand, _) => ExprAccepted(vars, operand);
    case Cast(operand) => ExprAccepted(vars, operand);
    case Binary(_, l, r, _) =>
      ExprAccepted(vars, l);
      ExprAccepted(vars, r);
    case _ =>
  }

  lemma Listed(vars: seq<Var>, x: string)
    ensures x in NamesOf(vars) <==> Lookup(vars, x).Some?
  {
    if Lookup(vars, x).Some? { assert vars[Lookup(vars, x).value] in vars; }
  }

  // ---- statements ----

  /** A statement the compiler does not stop at, behind variables `vars` of which those from
      `off` on are the innermost scope's, which holds `cap`. */
  ghost predicate Accepted(g: Globals, vars: seq<Var>, off: nat, cap: nat, s: Stmt)
    decreases s
  {
    match s
    case Assign(x, e) =>
      && Valued(vars, e)
      && if x in NamesOf(vars) then IsFloat(vars, x) || !Floats(vars, e) else |vars| - off < cap
    case Bare(e) => Usable(vars, e)
    case Call(f, args) =>
      && f in g.fns && (forall a :: a in args ==> Usable(vars, a))
      && (args != [] ==> !args[|args| - 1].Binary?)
    case If(e, t, f) =>
      Usable(vars, e) && AcceptedBlock(g, vars, |vars|, cap, t) && AcceptedBlock(g, vars, |vars|, cap, f)
    case While(e, body) => Usable(vars, e) && AcceptedBlock(g, vars, |vars|, cap, body)
  }

  ghost predicate AcceptedBlock(g: Globals, vars: seq<Var>, off: nat, cap: nat, b: Block)
    decreases b
  {
    b.Then? ==> Accepted(g, vars, off, cap, b.head) && AcceptedBlock(g, Behind(vars, b.head), off, cap, b.tail)
  }

  /** The variables behind a statement: an assignment to a new name declares it. */
  function Behind(vars: seq<Var>, s: Stmt): seq<Var> {
    if s.Assign? && s.target !in NamesOf(vars)
    then vars + [Var(s.target, if Floats(vars, s.rhs) then TFlt else TInt)] else vars
  }

  /** No loop body has 65536 bytes or more: the compiler stops at such a one. */
  ghost predicate LoopsShort(g: Globals, sc: Scope, s: Stmt)
    requires g.Ok() && sc.off <= |sc.vars|
    decreases s
  {
    match s
    case If(e, t, f) =>
      var sc1 := Pushed(sc, ExprCode(sc.vars, e), e);
      var ct := BlockCode(g, Child(sc1, sc1.ssize), t);
      && LoopsShortBlock(g, Child(sc1, sc1.ssize), t)
      && (ct.SCode? ==> LoopsShortBlock(g, Child(Back(sc1, ct.sc), sc1.ssize), f))
    case While(e, body) =>
      var sc1 := Pushed(sc, ExprCode(sc.vars, e), e);
      var cb := BlockCode(g, Child(sc1, 0), body);
      LoopsShortBlock(g, Child(sc1, 0), body) && (cb.SCode? ==> |cb.code| < 0x1_0000)
    case _ => true
  }

  ghost predicate LoopsShortBlock(g: Globals, sc: Scope, b: Block)
    requires g.Ok() && sc.off <= |sc.vars|
    decreases b
  {
    b.Then? ==>
      && LoopsShort(g, sc, b.head)
      && (var r := StmtCode(g, sc, b.head); r.SCode? ==> LoopsShortBlock(g, r.sc, b.tail))
  }

  lemma AssignAccepted(sc: Scope, x: string, e: Expr)
    requires sc.off <= |sc.vars|
    ensures AssignCode(sc, x, e).SCode? <==>
              && Valued(sc.vars, e)
              && if x in NamesOf(sc.vars) then IsFloat(sc.vars, x) || !Floats(sc.vars, e)
                 else |sc.vars| - sc.off < sc.cap
    ensures AssignCode(sc, x, e).SCode? ==> AssignCode(sc, x, e).sc.vars == Behind(sc.vars, Assign(x, e))
  {
    ExprAccepted(sc.vars, e);
    Listed(sc.vars, x);
    hide ExprCode, Valued, Floats, Lookup, Depth, Bytecode.Encode;
  }

  lemma {:induction false} ArgsAccepted(sc: Scope, args: seq<Expr>)
    ensures ArgsCode(sc, args).SCode? <==>
              && (forall a :: a in args ==> Usable(sc.vars, a))
              && (args != [] ==> !args[|args| - 1].Binary?)
    decreases args
  {
    hide ExprCode, Usable, Depth;
    if args != [] {
      ExprAccepted(sc.vars, args[0]);
      var sc1 := Pushed(sc, ExprCode(sc.vars, args[0]), args[0]);
      ArgsAccepted(sc1, args[1..]);
      assert args == [args[0]] + args[1..];
    }
  }

  /** The compiler gets through a statement exactly when it is accepted and its loops are
      short, and then knows the variables it declares. */
  lemma {:induction false} StmtAccepted(g: Globals, sc: Scope, s: Stmt)
    requires g.Ok() && sc.off <= |sc.vars|
    ensures StmtCode(g, sc, s).SCode? <==> Accepted(g, sc.vars, sc.off, sc.cap, s) && LoopsShort(g, sc, s)
    ensures StmtCode(g, sc, s).SCode? ==> StmtCode(g, sc, s).sc.vars == Behind(sc.vars, s)
    decreases s
  {
    hide ExprCode, AssignCode, ArgsCode, BlockCode, Valued, Usable, Floats, Depth, IfTail, WhileTail;
    hide AcceptedBlock, LoopsShortBlock, Bytecode.Encode;
    match s
    case Assign(x, e) => AssignAccepted(sc, x, e);
    case Bare(e) => ExprAccepted(sc.vars, e);
    case Call(_, args) => ArgsAccepted(sc, args);
    case If(e, t, f) =>
      ExprAccepted(sc.vars, e);
      var sc1 := Pushed(sc, ExprCode(sc.vars, e), e);
      var ct := BlockCode(g, Child(sc1, sc1.ssize), t);
      BlockAccepted(g, Child(sc1, sc1.ssize), t);
      if ct.SCode? { BlockAccepted(g, Child(Back(sc1, ct.sc), sc1.ssize), f); }
    case While(e, body) =>
      ExprAccepted(sc.vars, e);
      BlockAccepted(g, Child(Pushed(sc, ExprCode(sc.vars, e), e), 0), body);
  }

  lemma {:induction false} BlockAccepted(g: Globals, sc: Scope, b: Block)
    requires g.Ok() && sc.off <= |sc.vars|
    ensures BlockCode(g, sc, b).SCode? <==>
              AcceptedBlock(g, sc.vars, sc.off, sc.cap, b) && LoopsShortBlock(g, sc, b)
    decreases b
  {
    hide StmtCode, Accepted, LoopsShort, Behind;
    if b.Then? {
      StmtAccepted(g, sc, b.head);
      if StmtCode(g, sc, b.head).SCode? { BlockAccepted(g, StmtCode(g, sc, b.head).sc, b.tail); }
    }
  }
}
