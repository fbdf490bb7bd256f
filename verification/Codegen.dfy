/** What the compiler emits, as functions of the tree and of the static
    bookkeeping of the scope it is compiled in. */
module Codegen {
  import opened Words
  import opened Ast
  import opened Bytecode

  datatype Var = Var(name: string, ty: Ty)

  /** A scope chain, flattened: `vars` lists the variables of all enclosing
      scopes up to the function, outermost first, so that a position is a slot.
      `off` is where the innermost scope starts, `cap` how many variables one
      scope may hold, `ssize` the tracked operand-stack size in bytes, `vmax` and
      `smax` the maxima collected in the function's root scope. */
  datatype Scope = Scope(vars: seq<Var>, off: nat, cap: nat, ssize: nat, vmax: nat, smax: nat)

  const ROOT_VARS: nat := 64

  /** The outermost scope before anything is compiled in it. */
  const ROOT: Scope := Scope([], 0, ROOT_VARS, 0, 0, 0)

  /** Known functions with their constant-pool index, and the number of distinct
      values a `JEZ`/`RJMP` operand can take: 0x100 in the code as it stands,
      whose high operand byte is always zero, 0x1_0000 if both bytes were used. */
  datatype Globals = Globals(fns: map<string, Signature>, reach: nat) {
    ghost predicate Ok() {
      && (reach == 0x100 || reach == 0x1_0000)
      && forall f :: f in fns ==> fns[f].index < 0x1_0000
    }
  }

  datatype Signature = Signature(index: nat, params: seq<Ty>)

  const AS_WRITTEN: nat := 0x100

  function Max(a: nat, b: nat): nat { if a >= b then a else b }

  function Min(a: nat, b: nat): nat { if a <= b then a else b }

  // ---- expressions ----

  /** The first variable of that name, if any. */
  function Lookup(vars: seq<Var>, x: string): (r: Option<nat>)
    ensures r.Some? ==> r.value < |vars| && vars[r.value].name == x
    ensures r.Some? ==> forall j :: 0 <= j < r.value ==> vars[j].name != x
    ensures r.None? ==> forall j :: 0 <= j < |vars| ==> vars[j].name != x
  {
    if vars == [] then None
    else if vars[0].name == x then Some(0)
    else
      match Lookup(vars[1..], x)
      case None => None
      case Some(i) => Some(i + 1)
  }

  function LoadInstr(v: Var, slot: nat): (i: Instr)
    ensures Valid(i) && !i.Invoke?
  {
    if v.ty.TFlt? then FLoad(slot % 0x100) else ILoad(slot % 0x100)
  }

  function SaveInstr(ty: Ty, slot: nat): (i: Instr)
    ensures Valid(i) && !i.Invoke?
  {
    if ty.TFlt? then FSave(slot % 0x100) else ISave(slot % 0x100)
  }

  /** `EPanic`: the compiler stops. `ENone`: a bare undefined name; nothing is
      emitted and the error code is dropped by the callers. */
  datatype ECode = EPanic | ENone | ECode(code: seq<byte>, ty: Ty)

  function CodeOf(c: ECode): seq<byte> { if c.ECode? then c.code else [] }

  function CastTo(ty: Ty, from: Ty): seq<byte> {
    if ty.TFlt? && !from.TFlt? then Encode(I2F) else []
  }

  function OperatorCode(op: BinOp, ty: Ty): Option<byte> {
    if ty.TFlt? then FltOpcode(op) else Some(IntOpcode(op))
  }

  function Wider(a: Ty, b: Ty): Ty { if a.TFlt? || b.TFlt? then TFlt else TInt }

  function ExprCode(vars: seq<Var>, e: Expr): (r: ECode)
    ensures r.ECode? ==> r.ty != Unknown
  {
    match e
    case IntLit(i) => ECode(Encode(IConst(i)), TInt)
    case FltLit(f) => ECode(Encode(FConst(f)), TFlt)
    case Ident(x, _) =>
      (match Lookup(vars, x)
       case None => ENone
       case Some(k) => ECode(Encode(LoadInstr(vars[k], k)), if vars[k].ty.TFlt? then TFlt else TInt))
    case Group(inner, _) => ExprCode(vars, inner)
    case Neg(operand, _) =>
      (match ExprCode(vars, operand)
       case ECode(code, ty) => ECode(code + Encode(Unhandled(INEG)), ty)
       case other => other)
    case Cast(operand) =>
      (match ExprCode(vars, operand)
       case ECode(code, ty) => ECode(code + CastTo(TFlt, ty), TFlt)
       case other => other)
    case Binary(op, l, r, _) =>
      match (ExprCode(vars, l), ExprCode(vars, r))
      case (ECode(cl, tl), ECode(cr, tr)) =>
        var ty := Wider(tl, tr);
        (match OperatorCode(op, ty)
         case None => EPanic
         case Some(b) => ECode(cl + CastTo(ty, tl) + (cr + CastTo(ty, tr)) + [b], ty))
      case _ => EPanic
  }

  /** Operand words an expression needs at its deepest point. */
  function Depth(e: Expr): (n: nat)
    ensures n >= 1
  {
    match e
    case Group(inner, _) => Depth(inner)
    case Neg(operand, _) => Depth(operand)
    case Cast(operand) => Depth(operand)
    case Binary(_, l, r, _) => Max(Depth(l), 1 + Depth(r))
    case _ => 1
  }

  /** The tracked stack size after an expression: one word more, and the maximum
      has seen the expression's deepest point. */
  function Pushed(sc: Scope, c: ECode, e: Expr): Scope {
    if c.ECode? then sc.(ssize := sc.ssize + 4, smax := Max(sc.smax, sc.ssize + 4 * Depth(e))) else sc
  }

  // ---- statements ----

  datatype SCode = SPanic | SCode(code: seq<byte>, sc: Scope)

  /** Operand of `JEZ` and `RJMP`. */
  function Short(g: Globals, n: nat): nat
    requires g.Ok()
  {
    n % g.reach
  }

  /** Scope growth allowed from one compilation step to the next. */
  ghost predicate Grows(a: Scope, b: Scope) {
    && a.vars <= b.vars && a.off == b.off && a.cap == b.cap
    && a.ssize <= b.ssize && a.vmax <= b.vmax && a.smax <= b.smax
    && (|a.vars| <= a.vmax ==> |b.vars| <= b.vmax)
  }

  function Define(sc: Scope, x: string, ty: Ty): Option<Scope>
    requires sc.off <= |sc.vars|
  {
    if |sc.vars| - sc.off >= sc.cap then None
    else Some(sc.(vars := sc.vars + [Var(x, ty)], vmax := Max(sc.vmax, |sc.vars| + 1)))
  }

  function AssignCode(sc: Scope, x: string, e: Expr): (r: SCode)
    requires sc.off <= |sc.vars|
    ensures r.SCode? ==> Grows(sc, r.sc)
  {
    match ExprCode(sc.vars, e)
    case ECode(code, ty) =>
      (match Lookup(sc.vars, x)
       case Some(k) =>
         var vt := if sc.vars[k].ty.TFlt? then TFlt else TInt;
         if vt == TInt && ty == TFlt then SPanic
         else SCode(code + CastTo(vt, ty) + Encode(SaveInstr(vt, k)),
                    Pushed(sc, ECode(code, ty), e).(ssize := sc.ssize))
       case None =>
         match Define(sc, x, ty)
         case None => SPanic
         case Some(sc1) => SCode(code + Encode(SaveInstr(ty, |sc.vars|)),
                                 Pushed(sc1, ECode(code, ty), e).(ssize := sc.ssize)))
    case _ => SPanic
  }

  /** Arguments of a call, in order. The last one must not be a binary node: the
      compiler looks for a comma there and stops at any other operator. */
  function ArgsCode(sc: Scope, args: seq<Expr>): (r: SCode)
    ensures r.SCode? ==> Grows(sc, r.sc) && r.sc.vars == sc.vars && r.sc.vmax == sc.vmax
    decreases args
  {
    if args == [] then SCode([], sc)
    else if |args| == 1 && args[0].Binary? then SPanic
    else
      var c := ExprCode(sc.vars, args[0]);
      if c.EPanic? then SPanic else
        match ArgsCode(Pushed(sc, c, args[0]), args[1..])
        case SPanic => SPanic
        case SCode(rest, sc1) => SCode(CodeOf(c) + rest, sc1)
  }

  /** A child scope opened in `sc`. */
  function Child(sc: Scope, ssize: nat): Scope {
    Scope(sc.vars, |sc.vars|, sc.cap, ssize, sc.vmax, sc.smax)
  }

  /** Back in `sc` after a child scope: only the collected maxima survive. */
  function Back(sc: Scope, child: Scope): Scope {
    sc.(vmax := child.vmax, smax := child.smax)
  }

  /** The `then` block with the jump over the `else` block, left out when that
      block is too long for a 16-bit operand. */
  function WithExit(t: seq<byte>, f: seq<byte>): seq<byte> {
    if |f| < 0x1_0000 then t + Encode(Jmp(|f|)) else t
  }

  /** The spliced bytes of an `if`, left out altogether when too long. */
  function IfTail(g: Globals, t: seq<byte>, f: seq<byte>): seq<byte>
    requires g.Ok()
  {
    var te := WithExit(t, f);
    if |te| < 0x1_0000 then Encode(Jez(Short(g, |te|))) + te + f else []
  }

  function WhileTail(g: Globals, c: seq<byte>, b: seq<byte>): seq<byte>
    requires g.Ok()
  {
    Encode(Jez(Short(g, |b| + 3))) + b + Encode(RJmp(Short(g, |c| + |b| + 6)))
  }

  function StmtCode(g: Globals, sc: Scope, s: Stmt): (r: SCode)
    requires g.Ok() && sc.off <= |sc.vars|
    ensures r.SCode? ==> Grows(sc, r.sc)
    decreases s
  {
    match s
    case Assign(x, e) => AssignCode(sc, x, e)
    case Bare(e) =>
      var c := ExprCode(sc.vars, e);
      if c.EPanic? then SPanic else SCode(CodeOf(c), Pushed(sc, c, e))
    case Call(f, args) =>
      if f !in g.fns then SPanic else
        (match ArgsCode(sc, args)
         case SPanic => SPanic
         case SCode(code, sc1) => SCode(code + Encode(Invoke(g.fns[f].index)), sc1))
    case If(e, t, f) =>
      var c := ExprCode(sc.vars, e);
      if c.EPanic? then SPanic else
        var sc1 := Pushed(sc, c, e);
        (match BlockCode(g, Child(sc1, sc1.ssize), t)
         case SPanic => SPanic
         case SCode(ct, sct) =>
           var sc2 := Back(sc1, sct);
           match BlockCode(g, Child(sc2, sc2.ssize), f)
           case SPanic => SPanic
           case SCode(cf, scf) => SCode(CodeOf(c) + IfTail(g, ct, cf), Back(sc2, scf)))
    case While(e, body) =>
      var c := ExprCode(sc.vars, e);
      if c.EPanic? then SPanic else
        var sc1 := Pushed(sc, c, e);
        match BlockCode(g, Child(sc1, 0), body)
        case SPanic => SPanic
        case SCode(cb, scb) =>
          if |cb| >= 0x1_0000 then SPanic
          else SCode(CodeOf(c) + WhileTail(g, CodeOf(c), cb), Back(sc1, scb))
  }

  function BlockCode(g: Globals, sc: Scope, b: Block): (r: SCode)
    requires g.Ok() && sc.off <= |sc.vars|
    ensures r.SCode? ==> Grows(sc, r.sc)
    decreases b
  {
    match b
    case End => SCode([], sc)
    case Then(s, rest) =>
      match StmtCode(g, sc, s)
      case SPanic => SPanic
      case SCode(c1, sc1) =>
        match BlockCode(g, sc1, rest)
        case SPanic => SPanic
        case SCode(c2, sc2) => SCode(c1 + c2, sc2)
  }

  // ---- what the generated code relies on ----

  ghost predicate ArgsFit(vars: seq<Var>, args: seq<Expr>, params: seq<Ty>) {
    && |args| == |params|
    && forall i :: 0 <= i < |args| ==>
         ExprCode(vars, args[i]).ECode? && ExprCode(vars, args[i]).ty == params[i]
  }

  /** Jump distances fit their operands, conditions leave a value and arguments
      have the declared types: the program is inside what the code layout can
      express. The compiler itself checks none of these. */
  ghost predicate Fits(g: Globals, sc: Scope, s: Stmt)
    requires g.Ok() && sc.off <= |sc.vars|
    decreases s
  {
    match s
    case If(e, t, f) =>
      var c := ExprCode(sc.vars, e);
      c.ECode? &&
      (var sc1 := Pushed(sc, c, e);
       var bt := BlockCode(g, Child(sc1, sc1.ssize), t);
       bt.SCode? ==>
         var sc2 := Back(sc1, bt.sc);
         var bf := BlockCode(g, Child(sc2, sc2.ssize), f);
         && FitsBlock(g, Child(sc1, sc1.ssize), t)
         && FitsBlock(g, Child(sc2, sc2.ssize), f)
         && (bf.SCode? ==> |bf.code| < 0x1_0000 && |bt.code| + 3 < g.reach))
    case While(e, body) =>
      var c := ExprCode(sc.vars, e);
      c.ECode? &&
      (var sc1 := Pushed(sc, c, e);
       var bb := BlockCode(g, Child(sc1, 0), body);
       && FitsBlock(g, Child(sc1, 0), body)
       && (bb.SCode? ==> |c.code| + |bb.code| + 6 < g.reach))
    case Call(f, args) => f in g.fns && ArgsFit(sc.vars, args, g.fns[f].params)
    case _ => true
  }

  ghost predicate FitsBlock(g: Globals, sc: Scope, b: Block)
    requires g.Ok() && sc.off <= |sc.vars|
    decreases b
  {
    match b
    case End => true
    case Then(s, rest) =>
      && Fits(g, sc, s)
      && (var r := StmtCode(g, sc, s); r.SCode? ==> FitsBlock(g, r.sc, rest))
  }
}
