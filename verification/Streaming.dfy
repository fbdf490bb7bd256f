/** Interactive mode: the unbuffered emitter hands every chunk to the machine as
    soon as it is emitted. That is the same as running everything in one go. */
module Streaming {
  import opened Words
  import opened Ast
  import opened Language
  import opened Bytecode
  import opened Machine
  import opened Runs
  import opened Codegen
  import opened Layout
  import opened ControlFlow

  /** One interpreter call per chunk, each on the frame the previous one left. */
  ghost predicate Streams(m: Vm, chunks: seq<seq<byte>>, d: Data, n: nat, fate: Fate)
    decreases |chunks|
  {
    if chunks == [] then n == 0 && fate == Ends(d)
    else
      || (!fate.Ends? && Fares(m, chunks[0], d, n, fate))
      || exists n1: nat, d1 :: n1 <= n && Fares(m, chunks[0], d, n1, Ends(d1))
          && Streams(m, chunks[1..], d1, n - n1, fate)
  }

  lemma {:induction false} StreamIsBatch(m: Vm, chunks: seq<seq<byte>>, d: Data, n: nat, fate: Fate)
    requires Streams(m, chunks, d, n, fate)
    ensures Fares(m, Flat(chunks), d, n, fate)
    decreases |chunks|
  {
    hide Goes;
    if chunks == [] {
      EmptyRun(m, d);
    } else if !fate.Ends? && Fares(m, chunks[0], d, n, fate) {
      Stuck(m, chunks[0], Flat(chunks[1..]), d, n, fate);
    } else {
      var n1: nat, d1 :| n1 <= n && Fares(m, chunks[0], d, n1, Ends(d1)) && Streams(m, chunks[1..], d1, n - n1, fate);
      StreamIsBatch(m, chunks[1..], d1, n - n1, fate);
      Sequence(m, chunks[0], Flat(chunks[1..]), d, n1, d1, n - n1, fate);
    }
  }

  lemma StepOkEmbed(m: Vm, s: Frames, pre: seq<byte>, post: seq<byte>)
    requires BodiesClosed(m) && StateOk(s) && !Halted(s)
    ensures !Halted(Embed([], pre, post, s))
    ensures Step(m, Embed([], pre, post, s)) == EmbedResult([], pre, post, Step(m, s))
    ensures Step(m, s).At? ==> StateOk(Step(m, s).s)
  {
    if Live(s.top) { FetchAtBoundary(s.top.code, s.top.pc); }
    hide Step, Boundary;
    StepEmbed(m, s, [], pre, post);
    assert Deeper(m, []) == m;
    if Step(m, s).At? { StepOk(m, s); }
  }

  /** A run of spliced code, seen from one closed piece: it either stays with the
      piece to the end, or the piece's own run halts and the rest follows. */
  lemma {:induction false} Project(m: Vm, s: Frames, n: nat, r: Result, pre: seq<byte>, post: seq<byte>)
    returns (n1: nat, r1: Result)
    requires BodiesClosed(m) && StateOk(s)
    requires Takes(m, Embed([], pre, post, s), n, r)
    ensures n1 <= n && Takes(m, s, n1, r1)
    ensures r1.At? && Halted(r1.s) ==> Takes(m, Embed([], pre, post, r1.s), n - n1, r)
    ensures !(r1.At? && Halted(r1.s)) ==> n1 == n && r == EmbedResult([], pre, post, r1)
    decreases n
  {
    hide Step, BodiesClosed, StateOk;
    if n == 0 || Halted(s) {
      return 0, At(s);
    }
    StepOkEmbed(m, s, pre, post);
    if Step(m, s).At? {
      var k;
      k, r1 := Project(m, Step(m, s).s, n - 1, r, pre, post);
      n1 := k + 1;
    } else {
      n1, r1 := 1, Step(m, s);
    }
  }

  lemma BootOk(code: seq<byte>, d: Data)
    requires Closed(code)
    ensures StateOk(Mid(code, 0, d))
  {
    hide Closed;
    Start(code);
  }

  /** The first chunk's share of a batch run. */
  lemma FirstChunk(m: Vm, c1: seq<byte>, c2: seq<byte>, d: Data, n: nat, r: Result)
    returns (n1: nat, r1: Result)
    requires BodiesClosed(m) && Closed(c1)
    requires Takes(m, Mid(c1 + c2, 0, d), n, r)
    ensures n1 <= n && Takes(m, Mid(c1, 0, d), n1, r1)
    ensures if r1.At? && Halted(r1.s) then
              var d1 := Data(r1.s.top.stack, r1.s.top.locals, r1.s.top.cap);
              r1 == At(Mid(c1, |c1|, d1)) && Takes(m, Mid(c1 + c2, |c1|, d1), n - n1, r)
            else n1 == n && r == EmbedResult([], [], c2, r1)
  {
    BootOk(c1, d);
    hide Closed, BodiesClosed, Takes, StateOk;
    assert [] + c1 + c2 == c1 + c2;
    assert Embed([], [], c2, Mid(c1, 0, d)) == Mid(c1 + c2, 0, d);
    n1, r1 := Project(m, Mid(c1, 0, d), n, r, [], c2);
    if r1.At? && Halted(r1.s) {
      Integrity(m, Mid(c1, 0, d), n1, r1.s);
      SameBottom(m, Mid(c1, 0, d), n1, r1.s);
      var d1 := Data(r1.s.top.stack, r1.s.top.locals, r1.s.top.cap);
      assert r1.s == Mid(c1, |c1|, d1);
      assert Embed([], [], c2, r1.s) == Mid(c1 + c2, |c1|, d1);
    }
  }

  function Bottom(s: Frames): seq<byte> { if s.below == [] then s.top.code else s.below[0].code }

  /** The code of the outermost frame never changes. */
  lemma {:induction false} SameBottom(m: Vm, s: Frames, n: nat, s': Frames)
    requires Takes(m, s, n, At(s'))
    ensures Bottom(s') == Bottom(s)
    decreases n
  {
    hide Step;
    if n > 0 {
      SameBottomStep(m, s);
      SameBottom(m, Step(m, s).s, n - 1, s');
    }
  }

  lemma SameBottomStep(m: Vm, s: Frames)
    requires !Halted(s) && Step(m, s).At?
    ensures Bottom(Step(m, s).s) == Bottom(s)
  {
  }

  /** The result a fate stands for, seen at `exit`. */
  ghost predicate Shows(code: seq<byte>, fate: Fate, exit: int, r: Result) {
    match fate
    case Ends(d) => r == At(Mid(code, exit, d))
    case Dies(why) => why != Truncated && r == Trap(why)
    case Lasts => r.At? && !Halted(r.s)
  }

  lemma GoesShows(m: Vm, code: seq<byte>, pc: int, d: Data, n: nat, fate: Fate, exit: int) returns (r: Result)
    requires Goes(m, code, pc, d, n, fate, exit)
    ensures Takes(m, Mid(code, pc, d), n, r) && Shows(code, fate, exit, r)
  {
    hide Takes;
    match fate
    case Ends(d') => r := At(Mid(code, exit, d'));
    case Dies(why) => r := Trap(why);
    case Lasts =>
      var z :| Takes(m, Mid(code, pc, d), n, At(z)) && !Halted(z);
      r := At(z);
  }

  lemma ShowsGoes(m: Vm, code: seq<byte>, pc: int, d: Data, n: nat, fate: Fate, exit: int, r: Result)
    requires Takes(m, Mid(code, pc, d), n, r) && Shows(code, fate, exit, r)
    ensures Goes(m, code, pc, d, n, fate, exit)
  {
    hide Takes;
  }

  lemma EmbedHalted(s: Frames, pre: seq<byte>, post: seq<byte>)
    requires !Halted(s)
    ensures !Halted(Embed([], pre, post, s))
  {
  }

  /** The remaining chunks' share of a batch run. */
  lemma Remainder(m: Vm, c1: seq<byte>, c2: seq<byte>, d: Data, n: nat, fate: Fate)
    requires BodiesClosed(m) && Closed(c2)
    requires Goes(m, c1 + c2, |c1|, d, n, fate, |c1 + c2|)
    ensures Fares(m, c2, d, n, fate)
  {
    BootOk(c2, d);
    var r := GoesShows(m, c1 + c2, |c1|, d, n, fate, |c1 + c2|);
    hide Closed, BodiesClosed, Takes, StateOk, Goes;
    assert c1 + c2 + [] == c1 + c2;
    assert Embed([], c1, [], Mid(c2, 0, d)) == Mid(c1 + c2, |c1|, d);
    var n2, r2 := Project(m, Mid(c2, 0, d), n, r, c1, []);
    if r2.At? && Halted(r2.s) {
      Integrity(m, Mid(c2, 0, d), n2, r2.s);
      SameBottom(m, Mid(c2, 0, d), n2, r2.s);
      var d2 := Data(r2.s.top.stack, r2.s.top.locals, r2.s.top.cap);
      assert r2.s == Mid(c2, |c2|, d2);
      assert Embed([], c1, [], r2.s) == Mid(c1 + c2, |c1 + c2|, d2);
      NoneAfterHalt(m, Mid(c1 + c2, |c1 + c2|, d2), n - n2, r);
    } else if r2.At? {
      EmbedHalted(r2.s, c1, []);
    }
    ShowsGoes(m, c2, 0, d, n, fate, |c2|, r2);
  }

  lemma NoneAfterHalt(m: Vm, s: Frames, n: nat, r: Result)
    requires Halted(s) && Takes(m, s, n, r)
    ensures n == 0 && r == At(s)
  {
  }

  lemma {:induction false} FlatClosed(chunks: seq<seq<byte>>)
    requires forall c :: c in chunks ==> Closed(c)
    ensures Closed(Flat(chunks))
  {
    hide Closed;
    NothingClosed();
    if chunks != [] {
      FlatClosed(chunks[1..]);
      ClosedConcat(chunks[0], Flat(chunks[1..]));
    }
  }

  lemma EmptyStream(m: Vm, d: Data, n: nat, fate: Fate)
    requires Fares(m, [], d, n, fate)
    ensures n == 0 && fate == Ends(d)
  {
    hide Step;
  }

  lemma {:induction false} BatchIsStream(m: Vm, chunks: seq<seq<byte>>, d: Data, n: nat, fate: Fate)
    requires BodiesClosed(m) && forall c :: c in chunks ==> Closed(c)
    requires Fares(m, Flat(chunks), d, n, fate)
    ensures Streams(m, chunks, d, n, fate)
    decreases |chunks|
  {
    hide Closed, BodiesClosed, Takes, Goes;
    if chunks == [] {
      EmptyStream(m, d, n, fate);
      return;
    }
    var c1, c2 := chunks[0], Flat(chunks[1..]);
    var r := GoesShows(m, c1 + c2, 0, d, n, fate, |c1 + c2|);
    var n1, r1 := FirstChunk(m, c1, c2, d, n, r);
    if r1.At? && Halted(r1.s) {
      var d1 := Data(r1.s.top.stack, r1.s.top.locals, r1.s.top.cap);
      ShowsGoes(m, c1, 0, d, n1, Ends(d1), |c1|, r1);
      ShowsGoes(m, c1 + c2, |c1|, d1, n - n1, fate, |c1 + c2|, r);
      FlatClosed(chunks[1..]);
      Remainder(m, c1, c2, d1, n - n1, fate);
      BatchIsStream(m, chunks[1..], d1, n - n1, fate);
      assert n1 <= n && Fares(m, chunks[0], d, n1, Ends(d1)) && Streams(m, chunks[1..], d1, n - n1, fate);
    } else {
      if r1.At? { EmbedHalted(r1.s, [], c2); }
      ShowsGoes(m, c1, 0, d, n, fate, |c1|, r1);
    }
  }

  /** Streaming equals batch, step count included: a program executed chunk by
      chunk ends with the same stack and locals, fails with the same fault or is
      still running after the same number of steps as its concatenation. */
  lemma StreamingEqualsBatch(m: Vm, chunks: seq<seq<byte>>, d: Data, n: nat, fate: Fate)
    requires BodiesClosed(m) && forall c :: c in chunks ==> Closed(c)
    ensures Streams(m, chunks, d, n, fate) <==> Fares(m, Flat(chunks), d, n, fate)
  {
    hide Goes, Closed, BodiesClosed;
    if Streams(m, chunks, d, n, fate) { StreamIsBatch(m, chunks, d, n, fate); }
    if Fares(m, Flat(chunks), d, n, fate) { BatchIsStream(m, chunks, d, n, fate); }
  }

  // ---- the chunks a compilation emits ----

  /** The code in closed chunks. */
  ghost predicate Splits(chunks: seq<seq<byte>>, code: seq<byte>) {
    Flat(chunks) == code && forall c :: c in chunks ==> Closed(c)
  }

  lemma SplitsAppend(a: seq<seq<byte>>, ca: seq<byte>, b: seq<seq<byte>>, cb: seq<byte>)
    requires Splits(a, ca) && Splits(b, cb)
    ensures Splits(a + b, ca + cb)
  {
    hide Closed;
    FlatAppend(a, b);
  }

  /** A chunk of its own, unless there is nothing to emit. */
  function One(code: seq<byte>): seq<seq<byte>> { if code == [] then [] else [code] }

  lemma SplitsOne(code: seq<byte>)
    requires Closed(code)
    ensures Splits([code], code) && Splits(One(code), code)
  {
    hide Closed;
    assert Flat([code]) == code + Flat([]);
  }

  /** Expressions are emitted instruction by instruction. */
  function ExprChunks(vars: seq<Var>, e: Expr): seq<seq<byte>>
    requires ExprCode(vars, e).ECode?
  {
    match e
    case Group(inner, _) => ExprChunks(vars, inner)
    case Neg(operand, _) => ExprChunks(vars, operand) + [Encode(Unhandled(INEG))]
    case Cast(operand) => ExprChunks(vars, operand) + One(CastTo(TFlt, ExprCode(vars, operand).ty))
    case Binary(op, l, r, _) =>
      var (tl, tr) := (ExprCode(vars, l).ty, ExprCode(vars, r).ty);
      var ty := Wider(tl, tr);
      ExprChunks(vars, l) + One(CastTo(ty, tl)) + (ExprChunks(vars, r) + One(CastTo(ty, tr)))
          + [[OperatorCode(op, ty).value]]
    case _ => [ExprCode(vars, e).code]
  }

  lemma {:induction false} ExprSplits(vars: seq<Var>, e: Expr)
    requires ExprCode(vars, e).ECode?
    ensures Splits(ExprChunks(vars, e), ExprCode(vars, e).code)
    decreases e, 0
  {
    hide Splits, Encode, Closed;
    match e
    case Group(inner, _) => ExprSplits(vars, inner);
    case Neg(operand, _) =>
      ExprSplits(vars, operand);
      ClosedSimple(Unhandled(INEG));
      SplitsOne(Encode(Unhandled(INEG)));
      SplitsAppend(ExprChunks(vars, operand), ExprCode(vars, operand).code,
                   [Encode(Unhandled(INEG))], Encode(Unhandled(INEG)));
    case Cast(operand) => OperandSplits(vars, operand, TFlt);
    case Binary(op, l, r, _) =>
      var (tl, tr) := (ExprCode(vars, l).ty, ExprCode(vars, r).ty);
      var ty := Wider(tl, tr);
      var o := [OperatorCode(op, ty).value];
      var (kl, kr) := (ExprChunks(vars, l) + One(CastTo(ty, tl)), ExprChunks(vars, r) + One(CastTo(ty, tr)));
      var (cl, cr) := (ExprCode(vars, l).code + CastTo(ty, tl), ExprCode(vars, r).code + CastTo(ty, tr));
      OperandSplits(vars, l, ty);
      OperandSplits(vars, r, ty);
      OperatorClosed(op, ty);
      SplitsOne(o);
      SplitsAppend(kl, cl, kr, cr);
      SplitsAppend(kl + kr, cl + cr, [o], o);
    case _ =>
      ExprClosed(vars, e);
      SplitsOne(ExprCode(vars, e).code);
  }

  lemma {:induction false} OperandSplits(vars: seq<Var>, e: Expr, ty: Ty)
    requires ExprCode(vars, e).ECode?
    ensures var cast := CastTo(ty, ExprCode(vars, e).ty);
            Splits(ExprChunks(vars, e) + One(cast), ExprCode(vars, e).code + cast)
    decreases e, 1
  {
    hide Splits, CastTo, Closed;
    ExprSplits(vars, e);
    CastClosed(ty, ExprCode(vars, e).ty);
    SplitsOne(CastTo(ty, ExprCode(vars, e).ty));
    SplitsAppend(ExprChunks(vars, e), ExprCode(vars, e).code,
                 One(CastTo(ty, ExprCode(vars, e).ty)), CastTo(ty, ExprCode(vars, e).ty));
  }

  function ArgsChunks(vars: seq<Var>, args: seq<Expr>): seq<seq<byte>> {
    if args == [] then [] else
      (if ExprCode(vars, args[0]).ECode? then ExprChunks(vars, args[0]) else []) + ArgsChunks(vars, args[1..])
  }

  lemma {:induction false} ArgsSplits(sc: Scope, args: seq<Expr>)
    requires ArgsCode(sc, args).SCode?
    ensures Splits(ArgsChunks(sc.vars, args), ArgsCode(sc, args).code)
    decreases args
  {
    hide Closed, ExprCode, Depth;
    if args != [] {
      var c := ExprCode(sc.vars, args[0]);
      var sc1 := Pushed(sc, c, args[0]);
      ArgsSplits(sc1, args[1..]);
      if c.ECode? { ExprSplits(sc.vars, args[0]); }
      SplitsAppend(if c.ECode? then ExprChunks(sc.vars, args[0]) else [], CodeOf(c),
                   ArgsChunks(sc.vars, args[1..]), ArgsCode(sc1, args[1..]).code);
    }
  }

  /** An assignment's conversion, if any, and its store. */
  function AssignTail(sc: Scope, x: string, ty: Ty): seq<seq<byte>> {
    match Lookup(sc.vars, x)
    case Some(k) =>
      var vt := if sc.vars[k].ty.TFlt? then TFlt else TInt;
      One(CastTo(vt, ty)) + [Encode(SaveInstr(vt, k))]
    case None => [Encode(SaveInstr(ty, |sc.vars|))]
  }

  /** A statement at the outermost level: an `if` streams its condition and then
      its spliced rest, a `while` is one chunk. */
  function StmtChunks(g: Globals, sc: Scope, s: Stmt): seq<seq<byte>>
    requires g.Ok() && sc.off <= |sc.vars| && StmtCode(g, sc, s).SCode?
  {
    match s
    case Assign(x, e) => ExprChunks(sc.vars, e) + AssignTail(sc, x, ExprCode(sc.vars, e).ty)
    case Bare(e) => if ExprCode(sc.vars, e).ECode? then ExprChunks(sc.vars, e) else []
    case Call(f, args) => ArgsChunks(sc.vars, args) + [Encode(Invoke(g.fns[f].index))]
    case If(e, t, f) =>
      var c := ExprCode(sc.vars, e);
      var sc1 := Pushed(sc, c, e);
      var ct := BlockCode(g, Child(sc1, sc1.ssize), t);
      var cf := BlockCode(g, Child(Back(sc1, ct.sc), sc1.ssize), f);
      (if c.ECode? then ExprChunks(sc.vars, e) else []) + One(IfTail(g, ct.code, cf.code))
    case While(_, _) => [StmtCode(g, sc, s).code]
  }

  function BlockChunks(g: Globals, sc: Scope, b: Block): seq<seq<byte>>
    requires g.Ok() && sc.off <= |sc.vars| && BlockCode(g, sc, b).SCode?
    decreases b
  {
    if b.End? then [] else StmtChunks(g, sc, b.head) + BlockChunks(g, StmtCode(g, sc, b.head).sc, b.tail)
  }

  lemma AssignSplits(sc: Scope, x: string, e: Expr)
    requires sc.off <= |sc.vars| && AssignCode(sc, x, e).SCode?
    ensures Splits(ExprChunks(sc.vars, e) + AssignTail(sc, x, ExprCode(sc.vars, e).ty), AssignCode(sc, x, e).code)
  {
    hide Splits, Closed, Encode;
    var c := ExprCode(sc.vars, e);
    var look := Lookup(sc.vars, x);
    var k := if look.Some? then look.value else |sc.vars|;
    var vt := if look.None? then c.ty else if sc.vars[k].ty.TFlt? then TFlt else TInt;
    var cast, save := CastTo(vt, c.ty), Encode(SaveInstr(vt, k));
    OperandSplits(sc.vars, e, vt);
    ClosedSimple(SaveInstr(vt, k));
    SplitsOne(save);
    SplitsAppend(ExprChunks(sc.vars, e) + One(cast), c.code + cast, [save], save);
    assert ExprChunks(sc.vars, e) + One(cast) + [save] == ExprChunks(sc.vars, e) + (One(cast) + [save]);
    assert [] + [save] == [save];
    assert c.code + [] == c.code;
  }

  lemma TailClosed(g: Globals, t: seq<byte>, f: seq<byte>)
    requires g.Ok() && |t| + 3 < g.reach && |f| < 0x1_0000 && Closed(t) && Closed(f)
    ensures Closed(IfTail(g, t, f))
  {
    hide Closed, Encode;
    NothingClosed();
    IfClosed([], t, f);
    JumpWidth(|f|);
    assert IfBytes([], t, f) == IfTail(g, t, f);
  }

  lemma IfSplits(g: Globals, sc: Scope, s: Stmt)
    requires g.Ok() && sc.off <= |sc.vars| && StmtCode(g, sc, s).SCode? && Fits(g, sc, s) && s.If?
    ensures Splits(StmtChunks(g, sc, s), StmtCode(g, sc, s).code)
  {
    hide Splits, Closed, Encode, ExprCode, BlockCode, FitsBlock, Depth;
    var c, ct, cf, sct, scf := IfLayout(g, sc, s);
    var tail := IfTail(g, ct.code, cf.code);
    BlockClosed(g, sct, s.thn);
    BlockClosed(g, scf, s.els);
    TailClosed(g, ct.code, cf.code);
    hide Fits, IfTail, IfBytes;
    SplitsOne(tail);
    ExprSplits(sc.vars, s.cond);
    SplitsAppend(ExprChunks(sc.vars, s.cond), c.code, One(tail), tail);
  }

  /** The chunks are the code, whatever its jump distances. */
  lemma StmtFlat(g: Globals, sc: Scope, s: Stmt)
    requires g.Ok() && sc.off <= |sc.vars| && StmtCode(g, sc, s).SCode?
    ensures Flat(StmtChunks(g, sc, s)) == StmtCode(g, sc, s).code
  {
    match s
    case Assign(x, e) => AssignSplits(sc, x, e);
    case Bare(e) => if ExprCode(sc.vars, e).ECode? { ExprSplits(sc.vars, e); }
    case Call(f, args) =>
      ArgsSplits(sc, args);
      FlatSnoc(ArgsChunks(sc.vars, args), Encode(Invoke(g.fns[f].index)));
    case If(e, t, f) =>
      hide ExprCode, BlockCode, Closed, IfTail, Encode;
      var c := ExprCode(sc.vars, e);
      var sc1 := Pushed(sc, c, e);
      var ct := BlockCode(g, Child(sc1, sc1.ssize), t);
      var cf := BlockCode(g, Child(Back(sc1, ct.sc), sc1.ssize), f);
      var tail := IfTail(g, ct.code, cf.code);
      if c.ECode? { ExprSplits(sc.vars, e); }
      FlatOne(tail);
      FlatAppend(if c.ECode? then ExprChunks(sc.vars, e) else [], One(tail));
    case While(_, _) => FlatOne(StmtCode(g, sc, s).code);
  }

  lemma FlatOne(code: seq<byte>)
    ensures Flat([code]) == code && Flat(One(code)) == code
  {
    assert Flat([code]) == code + Flat([]);
  }

  lemma {:induction false} BlockFlat(g: Globals, sc: Scope, b: Block)
    requires g.Ok() && sc.off <= |sc.vars| && BlockCode(g, sc, b).SCode?
    ensures Flat(BlockChunks(g, sc, b)) == BlockCode(g, sc, b).code
    decreases b
  {
    hide StmtCode, StmtChunks;
    if b.Then? {
      var r := StmtCode(g, sc, b.head);
      StmtFlat(g, sc, b.head);
      BlockFlat(g, r.sc, b.tail);
      FlatAppend(StmtChunks(g, sc, b.head), BlockChunks(g, r.sc, b.tail));
    }
  }

  /** What a compilation emits piece by piece is its code, in closed pieces. */
  lemma StmtSplits(g: Globals, sc: Scope, s: Stmt)
    requires g.Ok() && sc.off <= |sc.vars| && StmtCode(g, sc, s).SCode? && Fits(g, sc, s)
    ensures Splits(StmtChunks(g, sc, s), StmtCode(g, sc, s).code)
  {
    match s
    case Assign(x, e) => AssignSplits(sc, x, e);
    case Bare(e) => if ExprCode(sc.vars, e).ECode? { ExprSplits(sc.vars, e); }
    case Call(f, args) =>
      hide Splits, Closed, Encode, Fits;
      var invoke := Encode(Invoke(g.fns[f].index));
      ArgsSplits(sc, args);
      ClosedSimple(Invoke(g.fns[f].index));
      SplitsOne(invoke);
      SplitsAppend(ArgsChunks(sc.vars, args), ArgsCode(sc, args).code, [invoke], invoke);
    case If(_, _, _) => IfSplits(g, sc, s);
    case While(_, _) =>
      hide Closed;
      StmtClosed(g, sc, s);
      SplitsOne(StmtCode(g, sc, s).code);
  }

  lemma {:induction false} BlockSplits(g: Globals, sc: Scope, b: Block)
    requires g.Ok() && sc.off <= |sc.vars| && BlockCode(g, sc, b).SCode? && FitsBlock(g, sc, b)
    ensures Splits(BlockChunks(g, sc, b), BlockCode(g, sc, b).code)
    decreases b
  {
    hide Closed, StmtCode, Fits, StmtChunks;
    if b.Then? {
      var r := StmtCode(g, sc, b.head);
      StmtSplits(g, sc, b.head);
      BlockSplits(g, r.sc, b.tail);
      SplitsAppend(StmtChunks(g, sc, b.head), r.code, BlockChunks(g, r.sc, b.tail), BlockCode(g, r.sc, b.tail).code);
    }
  }

  /** Interactive execution of a whole block of statements is its compiled run. */
  lemma InteractiveRun(m: Vm, g: Globals, sc: Scope, b: Block, d: Data, n: nat, fate: Fate)
    requires g.Ok() && sc.off <= |sc.vars| && BlockCode(g, sc, b).SCode? && FitsBlock(g, sc, b)
    requires BodiesClosed(m)
    ensures Streams(m, BlockChunks(g, sc, b), d, n, fate) <==> Fares(m, BlockCode(g, sc, b).code, d, n, fate)
  {
    hide Goes, Closed, BodiesClosed, BlockChunks, BlockCode, FitsBlock;
    BlockSplits(g, sc, b);
    StreamingEqualsBatch(m, BlockChunks(g, sc, b), d, n, fate);
  }
}
