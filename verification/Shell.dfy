/** The interactive shell: statements are compiled in the root scope, and what the
    compiler emits there is executed at once. */
module Shell {
  import opened Words
  import opened Ast
  import opened Language
  import opened Machine
  import opened Runs
  import opened Codegen
  import opened ExprCorrect
  import opened StmtCorrect
  import opened Correctness
  import opened ControlFlow
  import opened Streaming
  import opened Unbuffered
  import opened Scopes
  import opened ExprCompiler
  import opened StmtCompiler
  import opened Interpreter
  import opened Session

  datatype Answer = Rejected | Ran(status: Ending)

  /** Between two entries: the root scope's variables are those of the program so far,
      and the outermost frame holds their values and what has been left over. */
  ghost predicate Standing(scope: ScopeHandler, frame: Context, st: State)
    reads scope`vars, scope`emitter, scope`memory, scope`stackSize, scope.ancestors`vars, scope.memory, scope.max
    reads frame`sp, frame.stack, frame.locals
  {
    && scope.Ready() && Typed(scope.AllVars()) && |scope.AllVars()| <= scope.max.vars
    && frame.Valid() && Agree(scope.AllVars(), st.store, DataOf(frame).locals) && DataOf(frame).stack == st.pushed
  }

  /** A parsed block that fits the compiler's limits, in a world of compiled functions. */
  ghost predicate Enterable(p: Program, m: Vm, g: Globals, depth: nat, sc: Scope, b: Block, slots: nat) {
    && World(p, Unchecked(m), g, depth) && Covered(p, m, g)
    && g.reach == AS_WRITTEN && ParsedBlock(b) && sc.off <= |sc.vars| && FitsBlock(g, sc, b)
    && var r := BlockCode(g, sc, b); r.SCode? ==> r.sc.vmax <= 0x100 && r.sc.vmax <= slots
  }

  /** The compiler gets through, and the emitters of branches and loop bodies take every
      piece; what is executed at once always is taken. */
  ghost predicate Compilable(g: Globals, sc: Scope, b: Block)
    requires g.Ok() && sc.off <= |sc.vars|
  {
    BlockCode(g, sc, b).SCode? && PagesFitBlock(g, sc, b, None, 0)
  }

  /** How an entry may turn out: rejected by the compiler, or executed with an ending
      that tells what the block means. */
  ghost predicate TurnsOut(p: Program, m: Vm, g: Globals, depth: nat, sc: Scope, b: Block, st: State, d: Data,
                           budget: nat, answer: Answer, left: nat, d': Data, moved: int)
  {
    && g.Ok() && sc.off <= |sc.vars| && left <= budget
    && match answer
       case Rejected => !Compilable(g, sc, b)
       case Ran(status) =>
         && Compilable(g, sc, b)
         && Tells(p, m, g, depth, sc, b, st, d, budget, left, status, d')
         && (status.Finished? ==> moved == |Code(g, sc, b)|)
  }

  /** Entering a block of statements interactively: each is compiled in the root scope,
      and its chunks are executed as they are emitted, on the outermost frame. When
      it is all compiled, the frame is what the block means: a finished execution
      leaves every variable's value in its slot and the session ready for the next
      entry, a failed one fails as the program does, and one that is still going on
      is a program that cannot be over by now. The source's emitter has no state; the
      model's one keeps the step budget and the history of one entry. */
  method Enter(m: Vm, g: Globals, scope: ScopeHandler, b: Block, frame: Context, budget: nat,
               ghost p: Program, ghost depth: nat, ghost st: State)
    returns (answer: Answer, left: nat)
    requires Standing(scope, frame, st) && m.checked
    requires Enterable(p, m, g, depth, scope.Abs(), b, frame.locals.Length)
    modifies scope, scope.max, frame, frame.stack, frame.locals
    ensures frame.Valid()
    ensures TurnsOut(p, m, g, depth, old(scope.Abs()), b, st, old(DataOf(frame)), budget, answer, left, DataOf(frame),
                     frame.framePc - old(frame.framePc))
    ensures answer == Ran(Finished) ==>
              left <= budget && ExecBlock(p, budget - left + 1, depth, b, st).Done?
              && Standing(scope, frame, ExecBlock(p, budget - left + 1, depth, b, st).st)
  {
    hide *;
    EntrySetup(p, m, g, depth, scope, b, frame, st);
    ghost var before, d := scope.Abs(), DataOf(frame);
    var out := new Direct(m, frame, budget);
    scope.emitter := Streamed(out);
    scope.memory := {out, frame, frame.stack, frame.locals};
    Retargeted(scope, out);
    var status := CompileScope(g, scope, b);
    ReadOut(g, before, b, scope, out, status);
    left := out.left;
    answer := if status == Panicked || status == Overrun then Rejected else Ran(out.status);
    Outcome(p, m, g, depth, before, b, st, d, budget, status, answer, left, out.status, DataOf(frame),
            frame.framePc - out.startPc, scope.Abs());
    if answer == Ran(Finished) {
      StandsAgain(scope, frame, ExecBlock(p, budget - left + 1, depth, b, st).st);
    }
  }

  lemma EntrySetup(p: Program, m: Vm, g: Globals, depth: nat, scope: ScopeHandler, b: Block, frame: Context, st: State)
    requires Standing(scope, frame, st) && Enterable(p, m, g, depth, scope.Abs(), b, frame.locals.Length)
    ensures g.Ok() && g.reach == AS_WRITTEN && ParsedBlock(b) && scope.Abs().off <= |scope.Abs().vars|
    ensures scope.Valid() && Typed(scope.AllVars()) && frame.Valid()
    ensures |DataOf(frame).locals| == frame.locals.Length && Greeted(scope.Abs(), st, DataOf(frame))
  {
  }

  /** The root scope and the state of the session agree. */
  ghost predicate Greeted(sc: Scope, st: State, d: Data) {
    |sc.vars| <= sc.vmax && Agree(sc.vars, st.store, d.locals) && d.stack == st.pushed
  }

  lemma Retargeted(scope: ScopeHandler, out: Direct)
    requires scope.Valid() && scope.emitter == Streamed(out) && out.Valid()
    requires scope.memory == {out, out.frame, out.frame.stack, out.frame.locals}
    ensures scope.Ready() && scope.Log() == out.log && scope.emitter.PageSize() == None
  {
    hide ScopeHandler.Valid, Direct.Valid;
  }

  /** What the compiler reports and what its emitter has come to. */
  lemma ReadOut(g: Globals, sc: Scope, b: Block, scope: ScopeHandler, out: Direct, status: Status)
    requires scope.Ready() && scope.emitter == Streamed(out) && g.Ok() && sc.off <= |sc.vars|
    requires BlockDone(g, b, scope.emitter.PageSize(), status, sc, scope.Abs(), [], scope.Log())
    ensures out.frame.Valid() && out.left <= out.budget && (out.status.OutOfFuel? ==> out.left == 0)
    ensures status == Panicked || status == Overrun <==> !Compilable(g, sc, b)
    ensures status != Panicked && status != Overrun ==>
              && BlockCode(g, sc, b).SCode? && scope.Abs() == BlockCode(g, sc, b).sc
              && Came(out.m, BlockChunks(g, sc, b), out.start, out.budget - out.left, out.status, DataOf(out.frame),
                      out.frame.framePc - out.startPc)
  {
    hide *;
    DirectReady(scope, out);
    out.Unfold();
    BlockMeans(g, b, None, status, sc, scope.Abs(), scope.Log());
    CompilableIs(g, sc, b);
  }

  lemma CompilableIs(g: Globals, sc: Scope, b: Block)
    requires g.Ok() && sc.off <= |sc.vars|
    ensures Compilable(g, sc, b) <==> BlockCode(g, sc, b).SCode? && PagesFitBlock(g, sc, b, None, 0)
  {
    hide BlockCode, PagesFitBlock;
  }

  lemma DirectReady(scope: ScopeHandler, out: Direct)
    requires scope.Ready() && scope.emitter == Streamed(out)
    ensures out.Valid() && scope.Log() == out.log
    ensures scope.emitter.PageSize() == None
  {
  }

  lemma EntryStarts(p: Program, m: Vm, g: Globals, depth: nat, sc: Scope, b: Block, st: State, d: Data)
    requires Enterable(p, m, g, depth, sc, b, |d.locals|) && Greeted(sc, st, d) && g.Ok() && BlockCode(g, sc, b).SCode?
    ensures Starts(p, Unchecked(m), g, depth, sc, b, st, d)
    ensures var sc' := BlockCode(g, sc, b).sc; |sc'.vars| <= sc'.vmax
  {
    hide BlockCode, FitsBlock, World, Agree;
  }

  /** The executed chunks are the block's run. */
  lemma ChunksTell(p: Program, m: Vm, g: Globals, depth: nat, sc: Scope, b: Block, st: State, d: Data, budget: nat,
                   left: nat,
                   status: Ending, d': Data, moved: int)
    requires Starts(p, Unchecked(m), g, depth, sc, b, st, d) && Covered(p, m, g)
    requires left <= budget && (status.OutOfFuel? ==> left == 0)
    requires Came(m, BlockChunks(g, sc, b), d, budget - left, status, d', moved)
    ensures Tells(p, m, g, depth, sc, b, st, d, budget, left, status, d')
    ensures status.Finished? ==> moved == |Code(g, sc, b)|
  {
    hide Streams, Fares, BlockChunks, BlockCode, FitsBlock, Placed, Closed, BodiesClosed, Tells, World;
    WorldOf(p, Unchecked(m), g, depth, sc, b, st, d);
    CompiledClosed(p, Unchecked(m), g, depth);
    SameBodies(m);
    BlockSplits(g, sc, b);
    InteractiveRun(m, g, sc, b, d, budget - left, FateOf(status, d'));
    FareTells(p, m, g, depth, sc, b, st, d, budget, left, status, d');
  }

  lemma WorldOf(p: Program, m: Vm, g: Globals, depth: nat, sc: Scope, b: Block, st: State, d: Data)
    requires Starts(p, m, g, depth, sc, b, st, d)
    ensures World(p, m, g, depth) && g.Ok() && sc.off <= |sc.vars| && BlockCode(g, sc, b).SCode?
  {
    hide World, BlockCode, FitsBlock;
  }

  lemma SameBodies(m: Vm)
    requires BodiesClosed(Unchecked(m))
    ensures BodiesClosed(m)
  {
    hide Closed;
  }

  lemma Outcome(p: Program, m: Vm, g: Globals, depth: nat, sc: Scope, b: Block, st: State, d: Data, budget: nat,
                compiled: Status, answer: Answer, left: nat, status: Ending, d': Data, moved: int,
                after: Scope)
    requires Enterable(p, m, g, depth, sc, b, |d.locals|) && Greeted(sc, st, d) && g.Ok() && sc.off <= |sc.vars|
    requires left <= budget && (status.OutOfFuel? ==> left == 0)
    requires compiled == Panicked || compiled == Overrun <==> !Compilable(g, sc, b)
    requires compiled != Panicked && compiled != Overrun ==>
               && BlockCode(g, sc, b).SCode? && after == BlockCode(g, sc, b).sc
               && Came(m, BlockChunks(g, sc, b), d, budget - left, status, d', moved)
    requires answer == if compiled == Panicked || compiled == Overrun then Rejected else Ran(status)
    ensures TurnsOut(p, m, g, depth, sc, b, st, d, budget, answer, left, d', moved)
    ensures answer == Ran(Finished) ==>
              var o := ExecBlock(p, budget - left + 1, depth, b, st); o.Done? && Greeted(after, o.st, d')
  {
    hide World, Covered, BlockCode, FitsBlock, BlockChunks, Came, ParsedBlock, PagesFitBlock, ExecBlock;
    hide Agree, Starts, Takes;
    if answer.Ran? {
      EntryStarts(p, m, g, depth, sc, b, st, d);
      ChunksTell(p, m, g, depth, sc, b, st, d, budget, left, status, d', moved);
    }
  }

  lemma StandsAgain(scope: ScopeHandler, frame: Context, st: State)
    requires scope.Ready() && Typed(scope.AllVars()) && frame.Valid() && Greeted(scope.Abs(), st, DataOf(frame))
    ensures Standing(scope, frame, st)
  {
    hide ScopeHandler.Ready, Agree, DataOf, Typed;
  }

  /** A session begins with an empty root scope on an empty frame. */
  method Open(m: Vm, frame: Context) returns (scope: ScopeHandler)
    requires frame.Valid() && frame.sp == 0 && m.checked
    ensures fresh(scope) && fresh(scope.max) && scope.Abs() == Scope([], 0, 64, 0, 0, 0)
            && Standing(scope, frame, State(map[], []))
  {
    assert ROOT == Scope([], 0, ROOT_VARS, 0, 0, 0) == Scope([], 0, 64, 0, 0, 0);
    hide *;
    var out := new Direct(m, frame, 0);
    DirectBacked(out);
    scope := new ScopeHandler.Root(false, ROOT_VARS, Streamed(out));
    NothingYet(scope, frame);
  }

  lemma DirectBacked(out: Direct)
    requires out.Valid()
    ensures Streamed(out).Backed(Streamed(out).Repr())
  {
  }

  lemma NothingYet(scope: ScopeHandler, frame: Context)
    requires scope.Ready() && scope.Abs() == ROOT && scope.outer == [] && scope.vars == [] && frame.Valid()
             && frame.sp == 0
    ensures Standing(scope, frame, State(map[], []))
  {
    hide ScopeHandler.Ready;
    assert Agree([], map[], frame.locals[..]);
  }
}
