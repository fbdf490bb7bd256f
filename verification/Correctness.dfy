/** The compiler is correct: the machine halts, fails or runs on exactly when the
    program does, and with the same result. */
module Correctness {
  import opened Words
  import opened Ast
  import opened Language
  import opened Machine
  import opened Runs
  import opened Codegen
  import opened Needs
  import opened ExprCorrect
  import opened StmtCorrect

  /** A block compiled in scope `sc` is about to run in a frame that fits it. */
  ghost predicate Fitted(p: Program, m: Vm, g: Globals, depth: nat, sc: Scope, b: Block, enough: bool, st: State,
                         d: Data) {
    && g.Ok() && sc.off <= |sc.vars| && FitsBlock(g, sc, b)
    && Placed(p, m, g, depth, sc, BlockCode(g, sc, b), enough, st, d)
  }

  /** ... with operand memory, where that is checked, for whatever the block does. */
  ghost predicate Starts(p: Program, m: Vm, g: Globals, depth: nat, sc: Scope, b: Block, st: State, d: Data) {
    Fitted(p, m, g, depth, sc, b, Suffices(BlockNeed(st.store.Keys, b), |d.stack|, d.cap), st, d)
  }

  lemma StartsFitted(p: Program, m: Vm, g: Globals, depth: nat, sc: Scope, b: Block, st: State, d: Data, fuel: nat)
    requires Starts(p, m, g, depth, sc, b, st, d)
    ensures Fitted(p, m, g, depth, sc, b, HighBlock(p, fuel, depth, b, st) <= d.cap, st, d)
  {
    HighBlockWithin(p, fuel, depth, b, st);
    hide World, Agree, BlockCode, FitsBlock, HighBlock, BlockNeed;
  }

  function Code(g: Globals, sc: Scope, b: Block): seq<byte>
    requires g.Ok() && sc.off <= |sc.vars|
  {
    var r := BlockCode(g, sc, b);
    if r.SCode? then r.code else []
  }

  ghost predicate SourceYields(p: Program, depth: nat, b: Block, st: State, o: Outcome) {
    !o.Timeout? && exists fuel: nat :: ExecBlock(p, fuel, depth, b, st) == o
  }

  ghost predicate MachineYields(m: Vm, s: Frames, r: Result) {
    Final(r) && exists n: nat :: Takes(m, s, n, r)
  }

  /** The machine result that a source outcome stands for. */
  ghost predicate SameResult(code: seq<byte>, vars: seq<Var>, d: Data, o: Outcome, r: Result) {
    match o
    case Timeout => false
    case Crash(why) => r == Trap(why)
    case Done(st) =>
      && r.At? && r.s.below == [] && r.s.top.code == code && r.s.top.pc == |code|
      && r.s.top.stack == st.pushed && |r.s.top.locals| == |d.locals|
      && Agree(vars, st.store, r.s.top.locals)
  }

  /** From source to machine, with operand memory for this very run. */
  lemma RunToMachine(p: Program, m: Vm, g: Globals, depth: nat, sc: Scope, b: Block, st: State, d: Data, fuel: nat)
    returns (n: nat, r: Result)
    requires Fitted(p, m, g, depth, sc, b, HighBlock(p, fuel, depth, b, st) <= d.cap, st, d)
    requires !ExecBlock(p, fuel, depth, b, st).Timeout?
    ensures Takes(m, Mid(Code(g, sc, b), 0, d), n, r) && Final(r) && (r.Trap? ==> Sane(r.why))
    ensures SameResult(Code(g, sc, b), BlockCode(g, sc, b).sc.vars, d, ExecBlock(p, fuel, depth, b, st), r)
  {
    hide Takes, ExecBlock, BlockCode, FitsBlock, Agree, World, HighBlock;
    var fate;
    n, fate := BlockRun(p, m, g, sc, b, fuel, depth, st, d);
    var code := Code(g, sc, b);
    r := match fate case Ends(d') => At(Mid(code, |code|, d')) case Dies(why) => Trap(why) case Lasts => Trap(Arith);
  }

  /** From source to machine. */
  lemma SourceToMachine(p: Program, m: Vm, g: Globals, depth: nat, sc: Scope, b: Block, st: State, d: Data, fuel: nat)
    returns (n: nat, r: Result)
    requires Starts(p, m, g, depth, sc, b, st, d)
    requires !ExecBlock(p, fuel, depth, b, st).Timeout?
    ensures Takes(m, Mid(Code(g, sc, b), 0, d), n, r) && Final(r) && (r.Trap? ==> Sane(r.why))
    ensures SameResult(Code(g, sc, b), BlockCode(g, sc, b).sc.vars, d, ExecBlock(p, fuel, depth, b, st), r)
  {
    hide Takes, ExecBlock, SameResult, Fitted;
    StartsFitted(p, m, g, depth, sc, b, st, d, fuel);
    n, r := RunToMachine(p, m, g, depth, sc, b, st, d, fuel);
  }

  /** From machine to source: with more fuel than the machine takes steps, the
      source run is over as well. */
  lemma MachineToSource(p: Program, m: Vm, g: Globals, depth: nat, sc: Scope, b: Block, st: State, d: Data,
                        n: nat, r: Result)
    requires Starts(p, m, g, depth, sc, b, st, d)
    requires Takes(m, Mid(Code(g, sc, b), 0, d), n, r) && Final(r)
    ensures !ExecBlock(p, n + 1, depth, b, st).Timeout? && (r.Trap? ==> Sane(r.why))
    ensures SameResult(Code(g, sc, b), BlockCode(g, sc, b).sc.vars, d, ExecBlock(p, n + 1, depth, b, st), r)
  {
    hide Takes, ExecBlock, BlockCode, FitsBlock, Agree, World, HighBlock, BlockNeed;
    var code := Code(g, sc, b);
    var s := Mid(code, 0, d);
    if ExecBlock(p, n + 1, depth, b, st).Timeout? {
      StartsFitted(p, m, g, depth, sc, b, st, d, n + 1);
      var n', fate := BlockRun(p, m, g, sc, b, n + 1, depth, st, d);
      var z :| Takes(m, s, n', At(z)) && !Halted(z);
      FinalUnique(m, s, n, r, n', At(z));
      assert false;
    } else {
      var n', r' := SourceToMachine(p, m, g, depth, sc, b, st, d, n + 1);
      FinalUnique(m, s, n, r, n', r');
    }
  }

  /** Compiler correctness, both directions at once: the program yields some
      outcome if and only if the machine yields the corresponding result. So a
      program that runs forever keeps the machine running forever. */
  lemma CompilerCorrect(p: Program, m: Vm, g: Globals, depth: nat, sc: Scope, b: Block, st: State, d: Data)
    requires Starts(p, m, g, depth, sc, b, st, d)
    ensures var s := Mid(Code(g, sc, b), 0, d);
            var vars := BlockCode(g, sc, b).sc.vars;
            && (forall o :: SourceYields(p, depth, b, st, o) ==>
                  exists r :: MachineYields(m, s, r) && SameResult(Code(g, sc, b), vars, d, o, r))
            && (forall r :: MachineYields(m, s, r) ==>
                  exists o :: SourceYields(p, depth, b, st, o) && SameResult(Code(g, sc, b), vars, d, o, r))
  {
    hide Takes, ExecBlock, BlockCode, FitsBlock, Agree, World;
    var s := Mid(Code(g, sc, b), 0, d);
    var vars := BlockCode(g, sc, b).sc.vars;
    forall o | SourceYields(p, depth, b, st, o)
      ensures exists r :: MachineYields(m, s, r) && SameResult(Code(g, sc, b), vars, d, o, r)
    {
      var fuel: nat :| ExecBlock(p, fuel, depth, b, st) == o;
      var n, r := SourceToMachine(p, m, g, depth, sc, b, st, d, fuel);
      assert MachineYields(m, s, r);
    }
    forall r | MachineYields(m, s, r)
      ensures exists o :: SourceYields(p, depth, b, st, o) && SameResult(Code(g, sc, b), vars, d, o, r)
    {
      var n: nat :| Takes(m, s, n, r);
      MachineToSource(p, m, g, depth, sc, b, st, d, n, r);
      assert SourceYields(p, depth, b, st, ExecBlock(p, n + 1, depth, b, st));
    }
  }

  /** Code of assignments and control flow over them ends with the operand stack it
      began with, at the end of its bytes. */
  lemma NeutralBalanced(p: Program, m: Vm, g: Globals, depth: nat, sc: Scope, b: Block, st: State, d: Data,
                        n: nat, s: Frames)
    requires Starts(p, m, g, depth, sc, b, st, d) && NeutralBlock(b)
    requires Takes(m, Mid(Code(g, sc, b), 0, d), n, At(s)) && Halted(s)
    ensures s.top.stack == d.stack && s.top.pc == |Code(g, sc, b)|
  {
    hide Takes, ExecBlock, BlockCode, FitsBlock, Agree, World;
    MachineToSource(p, m, g, depth, sc, b, st, d, n, At(s));
    NeutralKeepsBlock(p, n + 1, depth, b, st);
  }

  /** The source language is deterministic: all sufficient amounts of fuel give
      the same outcome. */
  lemma {:induction false} FuelMonotone(p: Program, f1: nat, f2: nat, depth: nat, s: Stmt, st: State)
    requires f1 <= f2 && !Exec(p, f1, depth, s, st).Timeout?
    ensures Exec(p, f2, depth, s, st) == Exec(p, f1, depth, s, st)
    decreases f1, s, 0
  {
    hide EvalExpr, EvalArgs, Update;
    match s
    case Assign(_, _) =>
    case Bare(_) =>
    case Call(f, args) =>
      var (vs, err) := EvalArgs(p.fl, st.store, args);
      if err.None? && f in p.funcs && |vs| == |p.funcs[f].params| && depth > 0 {
        FuelMonotoneBlock(p, f1 - 1, f2 - 1, depth - 1, p.funcs[f].body, State(BindParams(p.funcs[f].params, vs), []));
      }
    case If(c, t, f) =>
      var v := EvalExpr(p.fl, st.store, c);
      if v.Val? && v.v.IntV? {
        FuelMonotoneBlock(p, f1, f2, depth, if v.v.i != 0 then t else f, st);
      }
    case While(c, body) =>
      var v := EvalExpr(p.fl, st.store, c);
      if v.Val? && v.v.IntV? && v.v.i != 0 {
        FuelMonotoneBlock(p, f1, f2, depth, body, st);
        var o := ExecScope(p, f1, depth, body, st);
        if o.Done? {
          FuelMonotone(p, f1 - 1, f2 - 1, depth, s, o.st);
        }
      }
  }

  lemma {:induction false} FuelMonotoneBlock(p: Program, f1: nat, f2: nat, depth: nat, b: Block, st: State)
    requires f1 <= f2 && !ExecBlock(p, f1, depth, b, st).Timeout?
    ensures ExecBlock(p, f2, depth, b, st) == ExecBlock(p, f1, depth, b, st)
    decreases f1, b, 0
  {
    if b.Then? {
      FuelMonotone(p, f1, f2, depth, b.head, st);
      var o := Exec(p, f1, depth, b.head, st);
      if o.Done? {
        FuelMonotoneBlock(p, f1, f2, depth, b.tail, o.st);
      }
    }
  }
}
