/** The interpreter at work on compiled code, in one go and chunk by chunk. */
module Session {
  import opened Words
  import opened Ast
  import opened Language
  import opened Bytecode
  import opened Machine
  import opened Runs
  import opened Codegen
  import opened ExprCorrect
  import opened StmtCorrect
  import opened Correctness
  import opened ControlFlow
  import opened Streaming
  import opened Interpreter

  function Unchecked(m: Vm): Vm { m.(checked := false) }

  /** As long as no operand memory overruns, its bound is invisible. */
  lemma {:induction false} BoundInvisible(m: Vm, s: Frames, n: nat, r: Result)
    requires Takes(m, s, n, r) && r != Trap(Memory)
    ensures Takes(Unchecked(m), s, n, r)
    decreases n
  {
    if n > 0 {
      BoundInvisibleStep(m, s);
      if Step(m, s).At? {
        BoundInvisible(m, Step(m, s).s, n - 1, r);
      }
    }
  }

  lemma BoundInvisibleStep(m: Vm, s: Frames)
    requires !Halted(s) && Step(m, s) != Trap(Memory)
    ensures Step(Unchecked(m), s) == Step(m, s)
  {
  }

  /** The memory of a frame context, as a value. */
  ghost function DataOf(frame: Context): Data
    requires frame.Valid()
    reads frame`sp, frame.stack, frame.locals
  {
    Data(frame.stack[..frame.sp], frame.locals[..], frame.stack.Length)
  }

  /** What the way an interpreter run of at most `budget` steps ended tells about
      the program. A finished run has the program's leftover values and variables;
      a failed one failed as the program does; one that is still going on cannot
      have been over by now. Operand memory that covers what the program needs is
      never overrun. */
  ghost predicate Tells(p: Program, m: Vm, g: Globals, depth: nat, sc: Scope, b: Block, st: State, d: Data,
                        budget: nat, left: nat, status: Ending, d': Data)
    requires left <= budget && g.Ok() && sc.off <= |sc.vars|
  {
    match status
    case Finished =>
      var o := ExecBlock(p, budget - left + 1, depth, b, st);
      && o.Done? && d'.stack == o.st.pushed
      && BlockCode(g, sc, b).SCode? && Agree(BlockCode(g, sc, b).sc.vars, o.st.store, d'.locals)
    case Trapped(why) =>
      && (why != Memory ==> Sane(why) && ExecBlock(p, budget - left + 1, depth, b, st) == Crash(why))
      && (Starts(p, m, g, depth, sc, b, st, d) ==> why != Memory)
    case OutOfFuel =>
      forall n: nat, r :: Takes(m, Mid(Code(g, sc, b), 0, d), n, r) && Final(r) ==> n > budget
  }

  lemma FinishedTells(p: Program, m: Vm, g: Globals, depth: nat, sc: Scope, b: Block, st: State, d: Data,
                      budget: nat, left: nat, s: Frames, d': Data)
    requires left <= budget && Starts(p, Unchecked(m), g, depth, sc, b, st, d)
    requires Takes(m, Mid(Code(g, sc, b), 0, d), budget - left, At(s)) && Halted(s)
    requires d'.stack == s.top.stack && d'.locals == s.top.locals
    ensures Tells(p, m, g, depth, sc, b, st, d, budget, left, Finished, d') && s.top.pc == |Code(g, sc, b)|
  {
    hide Takes, ExecBlock, BlockCode, Agree, FitsBlock, Placed;
    BoundInvisible(m, Mid(Code(g, sc, b), 0, d), budget - left, At(s));
    MachineToSource(p, Unchecked(m), g, depth, sc, b, st, d, budget - left, At(s));
    BodyCompiles(p, Unchecked(m), g, depth, sc, b, st, d);
  }

  lemma BodyCompiles(p: Program, m: Vm, g: Globals, depth: nat, sc: Scope, b: Block, st: State, d: Data)
    requires Starts(p, m, g, depth, sc, b, st, d)
    ensures g.Ok() && sc.off <= |sc.vars| && BlockCode(g, sc, b).SCode?
  {
    hide BlockCode;
  }

  lemma TrappedTells(p: Program, m: Vm, g: Globals, depth: nat, sc: Scope, b: Block, st: State, d: Data,
                     budget: nat, left: nat, why: Fault, d': Data)
    requires left <= budget && Starts(p, Unchecked(m), g, depth, sc, b, st, d)
    requires Takes(m, Mid(Code(g, sc, b), 0, d), budget - left, Trap(why))
    ensures Tells(p, m, g, depth, sc, b, st, d, budget, left, Trapped(why), d')
  {
    hide Takes, ExecBlock, BlockCode, Agree, FitsBlock, Placed;
    var n := budget - left;
    if why != Memory {
      BoundInvisible(m, Mid(Code(g, sc, b), 0, d), n, Trap(why));
      MachineToSource(p, Unchecked(m), g, depth, sc, b, st, d, n, Trap(why));
    } else if Starts(p, m, g, depth, sc, b, st, d) {
      MachineToSource(p, m, g, depth, sc, b, st, d, n, Trap(why));
    }
  }

  lemma RunningTells(p: Program, m: Vm, g: Globals, depth: nat, sc: Scope, b: Block, st: State, d: Data,
                     budget: nat, s: Frames, d': Data)
    requires g.Ok() && sc.off <= |sc.vars|
    requires Takes(m, Mid(Code(g, sc, b), 0, d), budget, At(s)) && !Halted(s)
    ensures Tells(p, m, g, depth, sc, b, st, d, budget, 0, OutOfFuel, d')
  {
    hide Takes, Code;
    var start := Mid(Code(g, sc, b), 0, d);
    forall n: nat, r | Takes(m, start, n, r) && Final(r)
      ensures n > budget
    {
      FinalUnique(m, start, n, r, budget, At(s));
      if n == budget {
        TakesFunctional(m, start, n, r, At(s));
      }
    }
  }

  /** Runs the compiled code of a block. */
  method RunCompiled(m: Vm, frame: Context, code: seq<byte>, budget: nat,
                     ghost p: Program, ghost g: Globals, ghost depth: nat, ghost sc: Scope, ghost b: Block,
                     ghost st: State)
    returns (status: Ending, left: nat)
    requires frame.Valid() && m.checked
    requires Starts(p, Unchecked(m), g, depth, sc, b, st, DataOf(frame)) && code == Code(g, sc, b)
    modifies frame`framePc, frame`sp, frame.stack, frame.locals
    ensures frame.Valid() && left <= budget
    ensures Tells(p, m, g, depth, sc, b, st, old(DataOf(frame)), budget, left, status, DataOf(frame))
    ensures status.Finished? ==> frame.framePc == old(frame.framePc) + |code|
  {
    hide *;
    ghost var d := DataOf(frame);
    BodyCompiles(p, Unchecked(m), g, depth, sc, b, st, d);
    FrameIs(frame, code, 0);
    var pc;
    ghost var s;
    status, pc, left, s := ExecuteOpcodes(m, frame, 0, code, budget, []);
    ReportsMean(m, Mid(code, 0, d), budget - left, status, s);
    match status {
      case Finished =>
        EndIs(frame, code, pc);
        FinishedTells(p, m, g, depth, sc, b, st, d, budget, left, s, DataOf(frame));
      case Trapped(why) => TrappedTells(p, m, g, depth, sc, b, st, d, budget, left, why, DataOf(frame));
      case OutOfFuel => RunningTells(p, m, g, depth, sc, b, st, d, budget, s, DataOf(frame));
    }
  }

  lemma FrameIs(frame: Context, code: seq<byte>, pc: int)
    requires frame.Valid()
    ensures Frames([], frame.Abs(code, pc)) == Mid(code, pc, DataOf(frame))
  {
  }

  lemma EndIs(frame: Context, code: seq<byte>, pc: int)
    requires frame.Valid()
    ensures var f := frame.Abs(code, pc);
            DataOf(frame).stack == f.stack && DataOf(frame).locals == f.locals && f.pc == pc && f.code == code
  {
  }

  lemma ReportsMean(m: Vm, start: Frames, n: nat, status: Ending, s: Frames)
    requires Reports(m, start, n, status, s)
    ensures match status
            case Finished => Takes(m, start, n, At(s)) && (s.below == [] ==> Halted(s))
            case Trapped(why) => Takes(m, start, n, Trap(why))
            case OutOfFuel => Takes(m, start, n, At(s)) && !Halted(s)
  {
  }

  /** A chunk that finished stands at its end. */
  lemma ChunkEnds(m: Vm, chunk: seq<byte>, d: Data, n: nat, s: Frames)
    requires BodiesClosed(m) && Closed(chunk)
    requires Takes(m, Mid(chunk, 0, d), n, At(s)) && Halted(s)
    ensures s.top.pc == |chunk|
  {
    BootOk(chunk, d);
    hide Closed, BodiesClosed, Takes, StateOk;
    Integrity(m, Mid(chunk, 0, d), n, s);
    SameBottom(m, Mid(chunk, 0, d), n, s);
  }

  /** The fate a status reports. */
  ghost function FateOf(status: Ending, d: Data): Fate {
    match status
    case Finished => Ends(d)
    case Trapped(why) => Dies(why)
    case OutOfFuel => Lasts
  }

  /** What a known fate tells. */
  lemma FareTells(p: Program, m: Vm, g: Globals, depth: nat, sc: Scope, b: Block, st: State, d: Data,
                  budget: nat, left: nat, status: Ending, d': Data)
    requires left <= budget && (status.OutOfFuel? ==> left == 0)
    requires Starts(p, Unchecked(m), g, depth, sc, b, st, d)
    requires Fares(m, Code(g, sc, b), d, budget - left, FateOf(status, d'))
    ensures Tells(p, m, g, depth, sc, b, st, d, budget, left, status, d')
  {
    hide *;
    BodyCompiles(p, Unchecked(m), g, depth, sc, b, st, d);
    var code := Code(g, sc, b);
    var s := FateShows(m, code, d, budget - left, status, d');
    match status
    case Finished => FinishedTells(p, m, g, depth, sc, b, st, d, budget, left, s, d');
    case Trapped(why) => TrappedTells(p, m, g, depth, sc, b, st, d, budget, left, why, d');
    case OutOfFuel => RunningTells(p, m, g, depth, sc, b, st, d, budget, s, d');
  }

  lemma FateShows(m: Vm, code: seq<byte>, d: Data, n: nat, status: Ending, d': Data) returns (s: Frames)
    requires Fares(m, code, d, n, FateOf(status, d'))
    ensures match status
            case Finished => Takes(m, Mid(code, 0, d), n, At(s)) && Halted(s) && s.top.stack == d'.stack
                && s.top.locals == d'.locals
            case Trapped(why) => Takes(m, Mid(code, 0, d), n, Trap(why))
            case OutOfFuel => Takes(m, Mid(code, 0, d), n, At(s)) && !Halted(s)
  {
    hide Takes;
    var r := GoesShows(m, code, 0, d, n, FateOf(status, d'), |code|);
    s := if r.At? then r.s else Mid(code, 0, d);
  }

  /** Nor does the interpreter ever run out of bytes inside an instruction. */
  lemma {:induction false} NeverTruncated(m: Vm, s: Frames, n: nat)
    requires BodiesClosed(m) && StateOk(s)
    ensures !Takes(m, s, n, Trap(Truncated))
    decreases n
  {
    hide BodiesClosed, StateOk;
    if n > 0 && !Halted(s) {
      WholeStep(m, s);
      if Step(m, s).At? {
        StepOk(m, s);
        NeverTruncated(m, Step(m, s).s, n - 1);
      }
    }
  }

  lemma WholeStep(m: Vm, s: Frames)
    requires StateOk(s) && !Halted(s)
    ensures Step(m, s) != Trap(Truncated)
  {
    hide Boundary, Handle, Fetch;
    if Live(s.top) {
      FetchAtBoundary(s.top.code, s.top.pc);
      var i := Fetch(s.top.code, s.top.pc).value;
      if !i.Invoke? { HandleWhole(m, i, s.top); }
    }
  }
}
