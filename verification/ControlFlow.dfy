/** Control-flow integrity of the generated bytes: the machine only ever stands at
    instruction boundaries, and a statement's code is left only at its end. */
module ControlFlow {
  import opened Words
  import opened Ast
  import opened Language
  import opened Bytecode
  import opened Machine
  import opened Codegen
  import opened StmtCorrect
  import opened Layout

  /** Addresses the linear sweep passes. */
  predicate Boundary(code: seq<byte>, pc: int)
    decreases |code|
  {
    pc == 0 ||
    (code != [] && Width(code[0]) <= |code| && Width(code[0]) <= pc
     && Boundary(code[Width(code[0])..], pc - Width(code[0])))
  }

  /** `to` may be the program counter after instruction `i` at `pc`. */
  predicate Flows(i: Instr, pc: int, to: int) {
    match i
    case Jmp(d) => to == pc + 3 + d
    case RJmp(d) => to == pc + 3 - d
    case Jez(d) => to == pc + 3 || to == pc + 3 + d
    case Jnez(d) => to == pc + 3 || to == pc + 3 + d
    case Unhandled(_) => false
    case _ => to == pc + InstrWidth(i)
  }

  /** From every boundary in [lo, hi) control flows to a boundary. */
  ghost predicate Guarded(code: seq<byte>, lo: nat, hi: nat) {
    forall pc: nat, to ::
      (&& lo <= pc < hi && Boundary(code, pc) && pc < |code|
       && Fetch(code, pc).Some? && Flows(Fetch(code, pc).value, pc, to))
      ==> Boundary(code, to)
  }

  /** The code sweeps cleanly and control stays on its boundaries. */
  ghost predicate Closed(code: seq<byte>) {
    Boundary(code, |code|) && Guarded(code, 0, |code|)
  }

  lemma {:induction false} BoundaryRange(code: seq<byte>, pc: int)
    requires Boundary(code, pc)
    ensures 0 <= pc <= |code|
    decreases |code|
  {
    if pc != 0 {
      BoundaryRange(code[Width(code[0])..], pc - Width(code[0]));
    }
  }

  /** Boundaries of a concatenation are those of its parts. */
  lemma {:induction false} BoundaryConcat(c1: seq<byte>, c2: seq<byte>, pc: int)
    requires Boundary(c1, |c1|)
    ensures Boundary(c1 + c2, pc) <==> Boundary(c1, pc) || Boundary(c2, pc - |c1|)
    decreases |c1|
  {
    if c1 == [] {
      assert c1 + c2 == c2;
      if Boundary(c1, pc) { BoundaryRange(c1, pc); }
    } else {
      var w := Width(c1[0]);
      assert Boundary(c1[w..], |c1| - w) by { BoundaryRange(c1, |c1|); }
      BoundaryConcat(c1[w..], c2, pc - w);
      assert (c1 + c2)[w..] == c1[w..] + c2;
      if Boundary(c2, pc - |c1|) { BoundaryRange(c2, pc - |c1|); }
    }
  }

  /** A fetch at a boundary of clean code finds a whole instruction. */
  lemma {:induction false} FetchAtBoundary(code: seq<byte>, pc: nat)
    requires Boundary(code, |code|) && Boundary(code, pc) && pc < |code|
    ensures Fetch(code, pc).Some? && Boundary(code, pc + Width(code[pc]))
    decreases |code|
  {
    var w := Width(code[0]);
    if pc > 0 {
      FetchAtBoundary(code[w..], pc - w);
    }
  }

  /** `piece` lies at `lo` in `code`. */
  ghost predicate Lies(code: seq<byte>, lo: nat, piece: seq<byte>) {
    lo + |piece| <= |code| && code[lo..lo + |piece|] == piece
  }

  lemma LiesDrop(code: seq<byte>, lo: nat, piece: seq<byte>, w: nat)
    requires Lies(code, lo, piece)
    ensures w <= lo ==> Lies(code[w..], lo - w, piece)
    ensures lo == 0 && w <= |piece| ==> Lies(code[w..], 0, piece[w..])
    ensures lo == 0 && piece != [] ==> code != [] && code[0] == piece[0]
  {
    if w <= lo {
      assert code[w..][lo - w..lo - w + |piece|] == code[lo..lo + |piece|];
    }
    if lo == 0 && w <= |piece| {
      assert code[w..][0..|piece| - w] == piece[w..];
    }
    if lo == 0 && piece != [] {
      assert code[0] == code[0..|piece|][0];
    }
  }

  /** A boundary of a piece is a boundary of the code, if the piece starts at one. */
  lemma {:induction false} BoundaryInside(code: seq<byte>, lo: nat, piece: seq<byte>, pc: nat)
    requires Boundary(code, lo) && Lies(code, lo, piece) && Boundary(piece, pc)
    ensures Boundary(code, lo + pc)
    decreases lo, |piece|
  {
    hide Lies;
    LiesLength(code, lo, piece);
    if lo > 0 {
      var w := Width(code[0]);
      LiesDrop(code, lo, piece, w);
      BoundaryInside(code[w..], lo - w, piece, pc);
    } else if pc > 0 {
      var w := Width(piece[0]);
      LiesDrop(code, 0, piece, w);
      BoundaryInside(code[w..], 0, piece[w..], pc - w);
    }
  }

  lemma LiesLength(code: seq<byte>, lo: nat, piece: seq<byte>)
    requires Lies(code, lo, piece)
    ensures lo + |piece| <= |code|
  {
  }

  /** And conversely. */
  lemma {:induction false} BoundaryBack(code: seq<byte>, lo: nat, piece: seq<byte>, pc: nat)
    requires Boundary(code, lo) && Lies(code, lo, piece) && Boundary(piece, |piece|)
    requires Boundary(code, lo + pc) && pc <= |piece|
    ensures Boundary(piece, pc)
    decreases lo, |piece|
  {
    hide Lies;
    LiesLength(code, lo, piece);
    if lo > 0 {
      var w := Width(code[0]);
      LiesDrop(code, lo, piece, w);
      BoundaryBack(code[w..], lo - w, piece, pc);
    } else if pc > 0 {
      var w := Width(piece[0]);
      LiesDrop(code, 0, piece, w);
      BoundaryBack(code[w..], 0, piece[w..], pc - w);
    }
  }

  /** Closed code stays guarded wherever it is placed. */
  lemma ClosedPlaced(code: seq<byte>, lo: nat, piece: seq<byte>)
    requires Boundary(code, lo) && Lies(code, lo, piece) && Closed(piece)
    ensures Guarded(code, lo, lo + |piece|) && Boundary(code, lo + |piece|)
  {
    hide Lies, Boundary, Fetch;
    LiesLength(code, lo, piece);
    forall pc: nat, to | lo <= pc < lo + |piece| && Boundary(code, pc) && Fetch(code, pc).Some?
                         && Flows(Fetch(code, pc).value, pc, to)
      ensures Boundary(code, to)
    {
      BoundaryBack(code, lo, piece, pc - lo);
      FetchAtBoundary(piece, pc - lo);
      FetchLies(code, lo, piece, pc - lo);
      assert Flows(Fetch(piece, pc - lo).value, pc - lo, to - lo);
      BoundaryRange(piece, to - lo);
      BoundaryInside(code, lo, piece, to - lo);
    }
    BoundaryInside(code, lo, piece, |piece|);
  }

  lemma FetchLies(code: seq<byte>, lo: nat, piece: seq<byte>, pc: nat)
    requires Lies(code, lo, piece) && pc < |piece| && Fetch(piece, pc).Some?
    ensures Fetch(code, lo + pc) == Fetch(piece, pc)
  {
    FetchIn(code[..lo], piece, code[lo + |piece|..], pc);
    assert code == code[..lo] + piece + code[lo + |piece|..];
  }

  lemma ClosedConcat(c1: seq<byte>, c2: seq<byte>)
    requires Closed(c1) && Closed(c2)
    ensures Closed(c1 + c2)
  {
    var code := c1 + c2;
    assert Lies(code, 0, c1) && Lies(code, |c1|, c2);
    Start(code);
    hide Lies, Boundary;
    ClosedPlaced(code, 0, c1);
    ClosedPlaced(code, |c1|, c2);
  }

  lemma Start(code: seq<byte>)
    ensures Boundary(code, 0)
  {
  }

  lemma CleanInstr(i: Instr)
    requires Valid(i)
    ensures Boundary(Encode(i), |Encode(i)|)
  {
    hide Encode;
    var w := Encode(i);
    assert w[|w|..] == [];
  }

  /** There is no boundary inside an instruction. */
  lemma {:induction false} BoundaryGap(code: seq<byte>, lo: nat, pc: nat)
    requires Boundary(code, lo) && Boundary(code, pc) && lo < pc && lo < |code|
    ensures pc >= lo + Width(code[lo])
    decreases lo
  {
    if lo > 0 {
      var w := Width(code[0]);
      BoundaryGap(code[w..], lo - w, pc - w);
    }
  }

  /** An instruction in place is guarded if its targets are boundaries. */
  lemma GuardedInstr(code: seq<byte>, lo: nat, i: Instr)
    requires Valid(i) && Lies(code, lo, Encode(i)) && Boundary(code, lo)
    requires forall to :: Flows(i, lo, to) ==> Boundary(code, to)
    ensures Guarded(code, lo, lo + |Encode(i)|)
  {
    hide Encode, Boundary;
    FetchEncoded(code[..lo], i, code[lo + |Encode(i)|..]);
    assert code == code[..lo] + Encode(i) + code[lo + |Encode(i)|..];
    assert code[lo] == Encode(i)[0];
    forall pc: nat | lo < pc < lo + |Encode(i)| ensures !Boundary(code, pc) {
      if Boundary(code, pc) { BoundaryGap(code, lo, pc); }
    }
  }

  /** Straight-line instructions are closed. */
  lemma ClosedSimple(i: Instr)
    requires Valid(i) && !i.Jmp? && !i.RJmp? && !i.Jez? && !i.Jnez?
    ensures Closed(Encode(i))
  {
    hide Encode;
    CleanInstr(i);
    EncodeWidth(i);
    GuardedInstr(Encode(i), 0, i);
  }

  // ---- generated code is closed ----

  lemma {:induction false} ExprClosed(vars: seq<Var>, e: Expr)
    requires ExprCode(vars, e).ECode?
    ensures Closed(ExprCode(vars, e).code)
  {
    hide Closed;
    match e
    case IntLit(i) => ClosedSimple(IConst(i));
    case FltLit(f) => ClosedSimple(FConst(f));
    case Ident(x, _) => ClosedSimple(LoadInstr(vars[Lookup(vars, x).value], Lookup(vars, x).value));
    case Group(inner, _) => ExprClosed(vars, inner);
    case Neg(operand, _) =>
      ExprClosed(vars, operand);
      ClosedSimple(Unhandled(INEG));
      ClosedConcat(ExprCode(vars, operand).code, Encode(Unhandled(INEG)));
    case Cast(operand) =>
      ExprClosed(vars, operand);
      CastClosed(TFlt, ExprCode(vars, operand).ty);
      ClosedConcat(ExprCode(vars, operand).code, CastTo(TFlt, ExprCode(vars, operand).ty));
    case Binary(op, l, r, _) =>
      var (cl, cr) := (ExprCode(vars, l), ExprCode(vars, r));
      var ty := Wider(cl.ty, cr.ty);
      ExprClosed(vars, l);
      ExprClosed(vars, r);
      CastClosed(ty, cl.ty);
      CastClosed(ty, cr.ty);
      ClosedConcat(cl.code, CastTo(ty, cl.ty));
      ClosedConcat(cr.code, CastTo(ty, cr.ty));
      ClosedConcat(cl.code + CastTo(ty, cl.ty), cr.code + CastTo(ty, cr.ty));
      OperatorClosed(op, ty);
      ClosedConcat(cl.code + CastTo(ty, cl.ty) + (cr.code + CastTo(ty, cr.ty)), [OperatorCode(op, ty).value]);
  }

  lemma NothingClosed()
    ensures Closed([])
  {
  }

  lemma CastClosed(ty: Ty, from: Ty)
    ensures Closed(CastTo(ty, from))
  {
    hide Closed;
    NothingClosed();
    ClosedSimple(I2F);
  }

  lemma OperatorClosed(op: BinOp, ty: Ty)
    requires OperatorCode(op, ty).Some?
    ensures Closed([OperatorCode(op, ty).value])
  {
    hide Closed;
    var i := if ty.TFlt? && !IsComparison(op) then FArith(op) else IArith(op);
    assert Encode(i) == [OperatorCode(op, ty).value];
    ClosedSimple(i);
  }

  lemma {:induction false} ArgsClosed(sc: Scope, args: seq<Expr>)
    requires ArgsCode(sc, args).SCode?
    ensures Closed(ArgsCode(sc, args).code)
    decreases args
  {
    hide Closed;
    NothingClosed();
    if args != [] {
      var c := ExprCode(sc.vars, args[0]);
      if c.ECode? { ExprClosed(sc.vars, args[0]); }
      var sc1 := Pushed(sc, c, args[0]);
      ArgsClosed(sc1, args[1..]);
      ClosedConcat(CodeOf(c), ArgsCode(sc1, args[1..]).code);
    }
  }

  lemma IfPieces(c: seq<byte>, t: seq<byte>, f: seq<byte>)
    requires |t| + 3 < 0x1_0000 && |f| < 0x1_0000
    ensures var jez, jmp, code := Encode(Jez(|t| + 3)), Encode(Jmp(|f|)), IfBytes(c, t, f);
            && |jez| == |jmp| == 3 && |code| == |c| + |t| + |f| + 6
            && Lies(code, 0, c) && Lies(code, |c|, jez) && Lies(code, |c| + 3, t)
            && Lies(code, |c| + 3 + |t|, jmp) && Lies(code, |c| + 6 + |t|, f)
  {
    hide Encode;
    JumpWidth(|t| + 3);
    JumpWidth(|f|);
  }

  lemma WhilePieces(c: seq<byte>, b: seq<byte>)
    requires |c| + |b| + 6 < 0x1_0000
    ensures var jez, rjmp, code := Encode(Jez(|b| + 3)), Encode(RJmp(|c| + |b| + 6)), WhileBytes(c, b);
            && |jez| == |rjmp| == 3 && |code| == |c| + |b| + 6
            && Lies(code, 0, c) && Lies(code, |c|, jez) && Lies(code, |c| + 3, b)
            && Lies(code, |c| + 3 + |b|, rjmp)
  {
    hide Encode;
    JumpWidth(|b| + 3);
    JumpWidth(|c| + |b| + 6);
  }

  /** An instruction in place: the next address is a boundary too. */
  lemma InstrPlaced(code: seq<byte>, lo: nat, i: Instr)
    requires Valid(i) && Boundary(code, lo) && Lies(code, lo, Encode(i))
    ensures Boundary(code, lo + |Encode(i)|)
  {
    CleanInstr(i);
    hide Encode, Boundary, Lies;
    BoundaryInside(code, lo, Encode(i), |Encode(i)|);
  }

  lemma IfClosed(c: seq<byte>, t: seq<byte>, f: seq<byte>)
    requires |t| + 3 < 0x1_0000 && |f| < 0x1_0000
    requires Closed(c) && Closed(t) && Closed(f)
    ensures Closed(IfBytes(c, t, f))
  {
    hide Encode, Boundary, Lies, IfBytes;
    var jez, jmp, code := Jez(|t| + 3), Jmp(|f|), IfBytes(c, t, f);
    IfPieces(c, t, f);
    Start(code);
    ClosedPlaced(code, 0, c);
    InstrPlaced(code, |c|, jez);
    ClosedPlaced(code, |c| + 3, t);
    InstrPlaced(code, |c| + 3 + |t|, jmp);
    ClosedPlaced(code, |c| + 6 + |t|, f);
    GuardedInstr(code, |c|, jez);
    GuardedInstr(code, |c| + 3 + |t|, jmp);
  }

  lemma WhileClosed(c: seq<byte>, b: seq<byte>)
    requires |c| + |b| + 6 < 0x1_0000
    requires Closed(c) && Closed(b)
    ensures Closed(WhileBytes(c, b))
  {
    hide Encode, Boundary, Lies, WhileBytes;
    var jez, rjmp, code := Jez(|b| + 3), RJmp(|c| + |b| + 6), WhileBytes(c, b);
    WhilePieces(c, b);
    Start(code);
    ClosedPlaced(code, 0, c);
    InstrPlaced(code, |c|, jez);
    ClosedPlaced(code, |c| + 3, b);
    InstrPlaced(code, |c| + 3 + |b|, rjmp);
    GuardedInstr(code, |c|, jez);
    GuardedInstr(code, |c| + 3 + |b|, rjmp);
  }

  lemma {:induction false} StmtClosed(g: Globals, sc: Scope, s: Stmt)
    requires g.Ok() && sc.off <= |sc.vars| && StmtCode(g, sc, s).SCode? && Fits(g, sc, s)
    ensures Closed(StmtCode(g, sc, s).code)
    decreases s
  {
    hide Closed, Encode, ExprCode, BlockCode, FitsBlock, AssignCode, ArgsCode, IfBytes, WhileBytes;
    match s
    case Assign(x, e) => AssignClosed(sc, x, e);
    case Bare(e) =>
      NothingClosed();
      if ExprCode(sc.vars, e).ECode? { ExprClosed(sc.vars, e); }
    case Call(f, args) =>
      ArgsClosed(sc, args);
      ClosedSimple(Invoke(g.fns[f].index));
      ClosedConcat(ArgsCode(sc, args).code, Encode(Invoke(g.fns[f].index)));
    case If(e, t, f) =>
      var c, ct, cf, sct, scf := IfLayout(g, sc, s);
      ExprClosed(sc.vars, e);
      BlockClosed(g, sct, t);
      BlockClosed(g, scf, f);
      IfClosed(c.code, ct.code, cf.code);
    case While(e, body) =>
      var c, cb, child := WhileLayout(g, sc, s);
      ExprClosed(sc.vars, e);
      BlockClosed(g, child, body);
      WhileClosed(c.code, cb.code);
  }

  lemma AssignClosed(sc: Scope, x: string, e: Expr)
    requires sc.off <= |sc.vars| && AssignCode(sc, x, e).SCode?
    ensures Closed(AssignCode(sc, x, e).code)
  {
    hide Closed, Encode;
    var c := ExprCode(sc.vars, e);
    ExprClosed(sc.vars, e);
    var look := Lookup(sc.vars, x);
    var k := if look.Some? then look.value else |sc.vars|;
    var vt := if look.None? then c.ty else if sc.vars[k].ty.TFlt? then TFlt else TInt;
    CastClosed(vt, c.ty);
    ClosedConcat(c.code, CastTo(vt, c.ty));
    ClosedSimple(SaveInstr(vt, k));
    ClosedConcat(c.code + CastTo(vt, c.ty), Encode(SaveInstr(vt, k)));
    assert c.code + [] == c.code;
  }

  lemma {:induction false} BlockClosed(g: Globals, sc: Scope, b: Block)
    requires g.Ok() && sc.off <= |sc.vars| && BlockCode(g, sc, b).SCode? && FitsBlock(g, sc, b)
    ensures Closed(BlockCode(g, sc, b).code)
    decreases b
  {
    hide Closed, StmtCode, Fits;
    if b.End? {
      NothingClosed();
    } else {
      var r := StmtCode(g, sc, b.head);
      StmtClosed(g, sc, b.head);
      BlockClosed(g, r.sc, b.tail);
      ClosedConcat(r.code, BlockCode(g, r.sc, b.tail).code);
    }
  }

  // ---- every reachable state ----

  ghost predicate FrameOk(f: Frame) {
    Closed(f.code) && 0 <= f.pc && Boundary(f.code, f.pc)
  }

  /** A caller's frame stands at its call instruction. */
  ghost predicate Suspended(f: Frame) {
    && FrameOk(f) && f.pc < |f.code|
    && Fetch(f.code, f.pc).Some? && Fetch(f.code, f.pc).value.Invoke?
  }

  ghost predicate StateOk(s: Frames) {
    FrameOk(s.top) && forall f :: f in s.below ==> Suspended(f)
  }

  ghost predicate BodiesClosed(m: Vm) {
    forall i :: i in m.funcs ==> Closed(m.funcs[i].body)
  }

  lemma HandleFlows(m: Vm, i: Instr, f: Frame)
    requires !i.Invoke? && Handle(m, i, f).Ok?
    ensures Handle(m, i, f).f.code == f.code && Flows(i, f.pc, Handle(m, i, f).f.pc)
  {
  }

  lemma StepOk(m: Vm, s: Frames)
    requires BodiesClosed(m) && StateOk(s) && !Halted(s) && Step(m, s).At?
    ensures StateOk(Step(m, s).s)
  {
    hide Boundary, Handle;
    if !Live(s.top) {
      var caller := s.below[|s.below| - 1];
      assert Suspended(caller);
      assert Flows(Fetch(caller.code, caller.pc).value, caller.pc, caller.pc + 3);
    } else {
      FetchAtBoundary(s.top.code, s.top.pc);
      var i := Fetch(s.top.code, s.top.pc).value;
      if i.Invoke? {
        Start(m.funcs[i.index].body);
      } else {
        HandleFlows(m, i, s.top);
        var f := Handle(m, i, s.top).f;
        assert Boundary(f.code, f.pc);
        BoundaryRange(f.code, f.pc);
      }
    }
  }

  /** Control-flow integrity: in every state of every run, whatever the contents
      of stacks and locals, each open frame stands at an instruction boundary of
      closed code, and each suspended one at its call. */
  lemma {:induction false} Integrity(m: Vm, s: Frames, n: nat, s': Frames)
    requires BodiesClosed(m) && StateOk(s) && Takes(m, s, n, At(s'))
    ensures StateOk(s')
    ensures Halted(s') ==> s'.top.pc == |s'.top.code|
    decreases n
  {
    hide Step, Boundary, Closed;
    if n > 0 {
      StepOk(m, s);
      Integrity(m, Step(m, s).s, n - 1, s');
    }
    BoundaryRange(s'.top.code, s'.top.pc);
  }

  /** Every registered function is a compiled one. */
  ghost predicate Covered(p: Program, m: Vm, g: Globals) {
    g.fns.Keys == p.funcs.Keys && forall i :: i in m.funcs ==> exists f :: f in p.funcs && g.fns[f].index == i
  }

  lemma CompiledClosed(p: Program, m: Vm, g: Globals, depth: nat)
    requires World(p, m, g, depth) && Covered(p, m, g)
    ensures BodiesClosed(m)
  {
    hide Closed, BlockCode, FitsBlock;
    forall i | i in m.funcs ensures Closed(m.funcs[i].body) {
      var f :| f in p.funcs && g.fns[f].index == i;
      BlockClosed(g, FuncScope(p.funcs[f].params), p.funcs[f].body);
    }
  }

  /** ... starting from any compiled block. */
  lemma CompiledIntegrity(p: Program, m: Vm, g: Globals, depth: nat, sc: Scope, b: Block,
                          stack: seq<Value>, locals: seq<Word>, cap: nat, n: nat, s': Frames)
    requires World(p, m, g, depth) && sc.off <= |sc.vars| && Covered(p, m, g)
    requires BlockCode(g, sc, b).SCode? && FitsBlock(g, sc, b)
    requires Takes(m, Frames([], Frame(BlockCode(g, sc, b).code, 0, stack, locals, cap)), n, At(s'))
    ensures StateOk(s')
  {
    var s := Frames([], Frame(BlockCode(g, sc, b).code, 0, stack, locals, cap));
    BlockClosed(g, sc, b);
    CompiledClosed(p, m, g, depth);
    hide BlockCode, FitsBlock, Step, Closed, World;
    Integrity(m, s, n, s');
  }

  /** A statement's bytes, wherever they are spliced in, are left only at their
      own end: one step from inside leads inside or right behind the last byte. */
  lemma LeftAtItsEnd(m: Vm, code: seq<byte>, lo: nat, piece: seq<byte>, f: Frame, i: Instr)
    requires Lies(code, lo, piece) && Closed(piece)
    requires f.code == code && lo <= f.pc < lo + |piece| && Boundary(piece, f.pc - lo)
    requires Fetch(code, f.pc) == Some(i) && !i.Invoke? && Handle(m, i, f).Ok?
    ensures var pc := Handle(m, i, f).f.pc; lo <= pc <= lo + |piece| && Boundary(piece, pc - lo)
  {
    hide Boundary, Lies, Handle;
    var x := f.pc - lo;
    FetchAtBoundary(piece, x);
    FetchLies(code, lo, piece, x);
    HandleFlows(m, i, f);
    var y := Handle(m, i, f).f.pc - lo;
    assert Flows(i, x, y);
    BoundaryRange(piece, y);
  }
}
